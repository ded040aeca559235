/** `ExpectimaxAgent`: Pacman maximises as in minimax, and every ghost is a
    chance node that picks each of its legal actions with equal probability. */
module Expectimax {
  import opened Wrappers
  import opened Scores
  import opened Environment
  import opened SearchAgents
  import opened SearchTree

  /** The nested `recurse(gameState, currentDepth, agentIndex)`: the
      expectimax value of the state and, below the depth limit, an action:
      at Pacman's node one achieving the value, at a ghost's node any legal one. */
  method Recurse<S, A>(g: Game<S, A>, ev: S -> real, gameState: S, currentDepth: nat, agentIndex: nat)
    returns (value: real, action: Option<A>)
    requires WellFormed(g) && agentIndex < g.numAgents
    ensures value == NodeValue(Uniform, g, ev, gameState, currentDepth, agentIndex)
    ensures Terminal(g, gameState, agentIndex) ==> value == g.score(gameState) && action == None
    ensures !Terminal(g, gameState, agentIndex) && currentDepth == 0 ==> value == ev(gameState) && action == None
    ensures !Terminal(g, gameState, agentIndex) && currentDepth > 0 ==>
      action.Some? && action.value in g.legal(gameState, agentIndex)
    ensures !Terminal(g, gameState, agentIndex) && currentDepth > 0 && agentIndex == 0 ==>
      ChildValue(Uniform, g, ev, gameState, currentDepth, agentIndex, action.value) == value
    decreases currentDepth, g.numAgents - agentIndex, 1
  {
    if g.isWin(gameState) || g.isLose(gameState) || |g.legal(gameState, agentIndex)| == 0 {
      return g.score(gameState), None;
    }
    if currentDepth == 0 {
      return ev(gameState), None;
    }
    if agentIndex == 0 {
      value, action := MaxNode(g, ev, gameState, currentDepth);
    } else {
      value, action := ChanceNode(g, ev, gameState, currentDepth, agentIndex);
    }
  }

  /** Pacman's turn: the largest child value, and an action achieving it
      chosen at random among the tied ones. */
  method MaxNode<S, A>(g: Game<S, A>, ev: S -> real, gameState: S, currentDepth: nat)
    returns (value: real, action: Option<A>)
    requires WellFormed(g) && !Terminal(g, gameState, 0) && currentDepth >= 1
    ensures value == MaxOf(ChildValues(Uniform, g, ev, gameState, currentDepth, 0))
    ensures action.Some? && action.value in g.legal(gameState, 0)
    ensures ChildValue(Uniform, g, ev, gameState, currentDepth, 0, action.value) == value
    decreases currentDepth, g.numAgents, 0
  {
    var agentIndex := 0;
    var legalActions := g.legal(gameState, agentIndex);
    ghost var vals := ChildValues(Uniform, g, ev, gameState, currentDepth, agentIndex);
    var maxChoices: seq<(real, A)> := [];
    for i := 0 to |legalActions|
      invariant |maxChoices| == i
      invariant forall j :: 0 <= j < i ==> maxChoices[j] == (vals[j], legalActions[j])
    {
      var newAgentIndex := agentIndex + 1;
      var v, _ := Recurse(g, ev, g.succ(gameState, agentIndex, legalActions[i]), currentDepth, newAgentIndex);
      ChildValuesAt(Uniform, g, ev, gameState, currentDepth, agentIndex, i);
      maxChoices := maxChoices + [(v, legalActions[i])];
    }
    assert Values(maxChoices) == vals;
    var currentMax := MaxOf(Values(maxChoices));
    var tiebreakList := TieBreakList(maxChoices, currentMax);
    var j :| 0 <= j < |maxChoices| && maxChoices[j].0 == currentMax;
    assert maxChoices[j] in tiebreakList;
    var k :| 0 <= k < |tiebreakList|;
    assert tiebreakList[k] in maxChoices;
    return tiebreakList[k].0, Some(tiebreakList[k].1);
  }

  /** A ghost's turn: each child value weighted by `1/k` and summed, and a
      legal action picked at random without regard to its value. */
  method ChanceNode<S, A>(g: Game<S, A>, ev: S -> real, gameState: S, currentDepth: nat, agentIndex: nat)
    returns (value: real, action: Option<A>)
    requires WellFormed(g) && 0 < agentIndex < g.numAgents
    requires !Terminal(g, gameState, agentIndex) && currentDepth >= 1
    ensures value == ChanceValue(ChildValues(Uniform, g, ev, gameState, currentDepth, agentIndex))
    ensures action.Some? && action.value in g.legal(gameState, agentIndex)
    decreases currentDepth, g.numAgents - agentIndex, 0
  {
    var legalActions := g.legal(gameState, agentIndex);
    ghost var vals := ChildValues(Uniform, g, ev, gameState, currentDepth, agentIndex);
    ghost var weighted := Scale(1.0 / (|legalActions| as real), vals);
    var minChoices: seq<(real, A)> := [];
    for i := 0 to |legalActions|
      invariant |minChoices| == i
      invariant forall j :: 0 <= j < i ==> minChoices[j] == (weighted[j], legalActions[j])
    {
      var newAgentIndex, newDepth;
      if agentIndex == g.numAgents - 1 {
        newAgentIndex, newDepth := 0, currentDepth - 1;
      } else {
        newAgentIndex, newDepth := agentIndex + 1, currentDepth;
      }
      assert Turn(newDepth, newAgentIndex) == NextTurn(g.numAgents, currentDepth, agentIndex);
      var probAction := 1.0 / (|legalActions| as real);
      var v, _ := Recurse(g, ev, g.succ(gameState, agentIndex, legalActions[i]), newDepth, newAgentIndex);
      ChildValuesAt(Uniform, g, ev, gameState, currentDepth, agentIndex, i);
      assert probAction * v == weighted[i];
      minChoices := minChoices + [(probAction * v, legalActions[i])];
    }
    assert Values(minChoices) == weighted;
    var sumValue := 0.0;
    var actionList: seq<A> := [];
    for i := 0 to |minChoices|
      invariant sumValue == Sum(weighted[..i])
      invariant actionList == legalActions[..i]
    {
      var (v, a) := minChoices[i];
      assert weighted[..i + 1][..i] == weighted[..i];
      sumValue := sumValue + v;
      actionList := actionList + [a];
    }
    assert weighted[..|minChoices|] == weighted;
    var r :| 0 <= r <= |actionList| - 1;
    return sumValue, Some(actionList[r]);
  }

  /** `ExpectimaxAgent.getAction`: searches `depth` rounds from Pacman's turn
      and returns the chosen action; `value` is the root value it discards. */
  method GetAction<S, A>(g: Game<S, A>, agent: SearchAgent<S>, gameState: S)
    returns (action: Option<A>, value: real)
    requires WellFormed(g)
    ensures value == NodeValue(Uniform, g, agent.evaluationFunction, gameState, agent.depth, PacmanIndex)
    ensures action.None? <==> Terminal(g, gameState, PacmanIndex) || agent.depth == 0
    ensures action.Some? ==>
      action.value in g.legal(gameState, PacmanIndex) &&
      ChildValue(Uniform, g, agent.evaluationFunction, gameState, agent.depth, PacmanIndex, action.value) == value
  {
    value, action := Recurse(g, agent.evaluationFunction, gameState, agent.depth, PacmanIndex);
  }
}
