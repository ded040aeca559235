/** `MinimaxAgent`: Pacman maximises, every ghost minimises, and ties between
    equally good actions are broken by an arbitrary (random) choice. */
module Minimax {
  import opened Wrappers
  import opened Scores
  import opened Environment
  import opened SearchAgents
  import opened SearchTree

  /** The nested `recurse(gameState, currentDepth, agentIndex)`: the minimax
      value of the state and, below the depth limit, an action achieving it. */
  method Recurse<S, A>(g: Game<S, A>, ev: S -> real, gameState: S, currentDepth: nat, agentIndex: nat)
    returns (value: real, action: Option<A>)
    requires WellFormed(g) && agentIndex < g.numAgents
    ensures value == NodeValue(Minimizer, g, ev, gameState, currentDepth, agentIndex)
    ensures Terminal(g, gameState, agentIndex) ==> value == g.score(gameState) && action == None
    ensures !Terminal(g, gameState, agentIndex) && currentDepth == 0 ==> value == ev(gameState) && action == None
    ensures !Terminal(g, gameState, agentIndex) && currentDepth > 0 ==>
      action.Some? && action.value in g.legal(gameState, agentIndex) &&
      ChildValue(Minimizer, g, ev, gameState, currentDepth, agentIndex, action.value) == value
    decreases currentDepth, g.numAgents - agentIndex, 1
  {
    if g.isWin(gameState) || g.isLose(gameState) || |g.legal(gameState, agentIndex)| == 0 {
      return g.score(gameState), None;
    }
    if currentDepth == 0 {
      return ev(gameState), None;
    }
    if agentIndex == 0 {
      value, action := MaxNode(g, ev, gameState, currentDepth);
    } else {
      value, action := MinNode(g, ev, gameState, currentDepth, agentIndex);
    }
  }

  /** Pacman's turn: the largest child value, and an action achieving it
      chosen at random among the tied ones. */
  method MaxNode<S, A>(g: Game<S, A>, ev: S -> real, gameState: S, currentDepth: nat)
    returns (value: real, action: Option<A>)
    requires WellFormed(g) && !Terminal(g, gameState, 0) && currentDepth >= 1
    ensures value == MaxOf(ChildValues(Minimizer, g, ev, gameState, currentDepth, 0))
    ensures action.Some? && action.value in g.legal(gameState, 0)
    ensures ChildValue(Minimizer, g, ev, gameState, currentDepth, 0, action.value) == value
    decreases currentDepth, g.numAgents, 0
  {
    var agentIndex := 0;
    var legalActions := g.legal(gameState, agentIndex);
    ghost var vals := ChildValues(Minimizer, g, ev, gameState, currentDepth, agentIndex);
    var maxChoices: seq<(real, A)> := [];
    for i := 0 to |legalActions|
      invariant |maxChoices| == i
      invariant forall j :: 0 <= j < i ==> maxChoices[j] == (vals[j], legalActions[j])
    {
      var newAgentIndex := agentIndex + 1;
      var v, _ := Recurse(g, ev, g.succ(gameState, agentIndex, legalActions[i]), currentDepth, newAgentIndex);
      ChildValuesAt(Minimizer, g, ev, gameState, currentDepth, agentIndex, i);
      maxChoices := maxChoices + [(v, legalActions[i])];
    }
    assert Values(maxChoices) == vals;
    var currentMax := MaxOf(Values(maxChoices));
    var tiebreakList := TieBreakList(maxChoices, currentMax);
    var j :| 0 <= j < |maxChoices| && maxChoices[j].0 == currentMax;
    assert maxChoices[j] in tiebreakList;
    var k :| 0 <= k < |tiebreakList|;
    assert tiebreakList[k] in maxChoices;
    return tiebreakList[k].0, Some(tiebreakList[k].1);
  }

  /** A ghost's turn: the smallest child value, and an action achieving it
      chosen at random among the tied ones. */
  method MinNode<S, A>(g: Game<S, A>, ev: S -> real, gameState: S, currentDepth: nat, agentIndex: nat)
    returns (value: real, action: Option<A>)
    requires WellFormed(g) && 0 < agentIndex < g.numAgents
    requires !Terminal(g, gameState, agentIndex) && currentDepth >= 1
    ensures value == MinOf(ChildValues(Minimizer, g, ev, gameState, currentDepth, agentIndex))
    ensures action.Some? && action.value in g.legal(gameState, agentIndex)
    ensures ChildValue(Minimizer, g, ev, gameState, currentDepth, agentIndex, action.value) == value
    decreases currentDepth, g.numAgents - agentIndex, 0
  {
    var legalActions := g.legal(gameState, agentIndex);
    ghost var vals := ChildValues(Minimizer, g, ev, gameState, currentDepth, agentIndex);
    var minChoices: seq<(real, A)> := [];
    for i := 0 to |legalActions|
      invariant |minChoices| == i
      invariant forall j :: 0 <= j < i ==> minChoices[j] == (vals[j], legalActions[j])
    {
      var newAgentIndex, newDepth;
      if agentIndex == g.numAgents - 1 {
        newAgentIndex, newDepth := 0, currentDepth - 1;
      } else {
        newAgentIndex, newDepth := agentIndex + 1, currentDepth;
      }
      assert Turn(newDepth, newAgentIndex) == NextTurn(g.numAgents, currentDepth, agentIndex);
      var v, _ := Recurse(g, ev, g.succ(gameState, agentIndex, legalActions[i]), newDepth, newAgentIndex);
      ChildValuesAt(Minimizer, g, ev, gameState, currentDepth, agentIndex, i);
      minChoices := minChoices + [(v, legalActions[i])];
    }
    assert Values(minChoices) == vals;
    var currentMin := MinOf(Values(minChoices));
    var tiebreakList := TieBreakList(minChoices, currentMin);
    var j :| 0 <= j < |minChoices| && minChoices[j].0 == currentMin;
    assert minChoices[j] in tiebreakList;
    var k :| 0 <= k < |tiebreakList|;
    assert tiebreakList[k] in minChoices;
    return tiebreakList[k].0, Some(tiebreakList[k].1);
  }

  /** `MinimaxAgent.getAction`: searches `depth` rounds from Pacman's turn and
      returns the chosen action; `value` is the root value it discards. */
  method GetAction<S, A>(g: Game<S, A>, agent: SearchAgent<S>, gameState: S)
    returns (action: Option<A>, value: real)
    requires WellFormed(g)
    ensures value == NodeValue(Minimizer, g, agent.evaluationFunction, gameState, agent.depth, PacmanIndex)
    ensures action.None? <==> Terminal(g, gameState, PacmanIndex) || agent.depth == 0
    ensures action.Some? ==>
      action.value in g.legal(gameState, PacmanIndex) &&
      ChildValue(Minimizer, g, agent.evaluationFunction, gameState, agent.depth, PacmanIndex, action.value) == value
  {
    value, action := Recurse(g, agent.evaluationFunction, gameState, agent.depth, PacmanIndex);
  }
}
