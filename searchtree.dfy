/** The traversal skeleton the three search agents share, as a specification:
    the value of a node of the depth-limited game tree. Terminal states are
    tested first and report the game's score; then the depth limit reports the
    evaluation function; otherwise Pacman takes the maximum of its children and
    a ghost either the minimum (minimax) or the uniform average (expectimax). */
module SearchTree {
  import opened Scores
  import opened Environment

  /** How the agents other than Pacman are modelled. */
  datatype Adversary = Minimizer | Uniform

  /** A chance node's value: each child's value weighted by `1/k`, summed. */
  function ChanceValue(vals: seq<real>): real
    requires |vals| > 0
  {
    Sum(Scale(1.0 / (|vals| as real), vals))
  }

  /** How a node combines its children's values. */
  function Combine(adv: Adversary, agent: nat, vals: seq<real>): real
    requires |vals| > 0
  {
    if agent == 0 then MaxOf(vals)
    else if adv == Minimizer then MinOf(vals)
    else ChanceValue(vals)
  }

  /** The value the search assigns to state `s` with `depth` rounds left and
      `agent` to move. */
  function NodeValue<S, A>(adv: Adversary, g: Game<S, A>, ev: S -> real, s: S, depth: nat, agent: nat): real
    requires WellFormed(g) && agent < g.numAgents
    decreases depth, g.numAgents - agent, 2
  {
    if Terminal(g, s, agent) then g.score(s)
    else if depth == 0 then ev(s)
    else Combine(adv, agent, ChildValues(adv, g, ev, s, depth, agent))
  }

  /** The values of the successors of `s`, in the order of the legal actions. */
  function ChildValues<S, A>(adv: Adversary, g: Game<S, A>, ev: S -> real, s: S, depth: nat, agent: nat): (vals: seq<real>)
    requires WellFormed(g) && agent < g.numAgents && depth >= 1
    ensures |vals| == |g.legal(s, agent)|
    decreases depth, g.numAgents - agent, 1
  {
    var acts := g.legal(s, agent);
    seq(|acts|, i requires 0 <= i < |acts| => ChildValue(adv, g, ev, s, depth, agent, acts[i]))
  }

  /** The value of the successor reached when `agent` plays `a`, searched with
      the next agent to move. */
  function ChildValue<S, A>(adv: Adversary, g: Game<S, A>, ev: S -> real, s: S, depth: nat, agent: nat, a: A): real
    requires WellFormed(g) && agent < g.numAgents && depth >= 1
    decreases depth, g.numAgents - agent, 0
  {
    var t := NextTurn(g.numAgents, depth, agent);
    NodeValue(adv, g, ev, g.succ(s, agent, a), t.depth, t.agent)
  }

  /** The number of nodes of the depth-limited game tree below `s`, counting
      `s`: the nodes a search that expands every child visits. */
  function TreeSize<S, A>(g: Game<S, A>, s: S, depth: nat, agent: nat): (r: nat)
    requires WellFormed(g) && agent < g.numAgents
    ensures r >= 1
    decreases depth, g.numAgents - agent, 1, 0
  {
    if Terminal(g, s, agent) || depth == 0 then 1
    else 1 + ChildrenSize(g, s, depth, agent, 0)
  }

  /** The number of nodes below the children `i, i + 1, ...` of `s`. */
  function ChildrenSize<S, A>(g: Game<S, A>, s: S, depth: nat, agent: nat, i: nat): nat
    requires WellFormed(g) && agent < g.numAgents && depth >= 1 && i <= |g.legal(s, agent)|
    decreases depth, g.numAgents - agent, 0, |g.legal(s, agent)| - i
  {
    var acts := g.legal(s, agent);
    if i == |acts| then 0
    else
      var t := NextTurn(g.numAgents, depth, agent);
      TreeSize(g, g.succ(s, agent, acts[i]), t.depth, t.agent) + ChildrenSize(g, s, depth, agent, i + 1)
  }

  lemma ChildValuesAt<S, A>(adv: Adversary, g: Game<S, A>, ev: S -> real, s: S, depth: nat, agent: nat, i: nat)
    requires WellFormed(g) && agent < g.numAgents && depth >= 1 && i < |g.legal(s, agent)|
    ensures ChildValues(adv, g, ev, s, depth, agent)[i] == ChildValue(adv, g, ev, s, depth, agent, g.legal(s, agent)[i])
  {
  }

  /** A state the search cannot go past: the value is the game's score,
      whatever the depth and whatever the evaluation function. */
  lemma TerminalPrecedence<S, A>(adv: Adversary, g: Game<S, A>, ev1: S -> real, ev2: S -> real, s: S, d1: nat, d2: nat, agent: nat)
    requires WellFormed(g) && agent < g.numAgents && Terminal(g, s, agent)
    ensures NodeValue(adv, g, ev1, s, d1, agent) == g.score(s)
    ensures NodeValue(adv, g, ev1, s, d1, agent) == NodeValue(adv, g, ev2, s, d2, agent)
  {
  }

  /** A non-terminal node at the depth limit is worth its evaluation. */
  lemma DepthCutoff<S, A>(adv: Adversary, g: Game<S, A>, ev: S -> real, s: S, agent: nat)
    requires WellFormed(g) && agent < g.numAgents && !Terminal(g, s, agent)
    ensures NodeValue(adv, g, ev, s, 0, agent) == ev(s)
  {
  }

  /** Pacman's node is worth the largest value among its children, and some
      legal action reaches it. */
  lemma MaxNodeValue<S, A>(adv: Adversary, g: Game<S, A>, ev: S -> real, s: S, depth: nat)
    requires WellFormed(g) && !Terminal(g, s, 0) && depth >= 1
    ensures forall a :: a in g.legal(s, 0) ==> ChildValue(adv, g, ev, s, depth, 0, a) <= NodeValue(adv, g, ev, s, depth, 0)
    ensures exists a :: a in g.legal(s, 0) && ChildValue(adv, g, ev, s, depth, 0, a) == NodeValue(adv, g, ev, s, depth, 0)
  {
    var vals := ChildValues(adv, g, ev, s, depth, 0);
    var acts := g.legal(s, 0);
    forall a | a in acts
      ensures ChildValue(adv, g, ev, s, depth, 0, a) <= NodeValue(adv, g, ev, s, depth, 0)
    {
      var i :| 0 <= i < |acts| && acts[i] == a;
      assert vals[i] == ChildValue(adv, g, ev, s, depth, 0, a);
    }
    var j :| 0 <= j < |vals| && vals[j] == MaxOf(vals);
    assert ChildValue(adv, g, ev, s, depth, 0, acts[j]) == NodeValue(adv, g, ev, s, depth, 0);
  }

  /** A ghost's node under minimax is worth the smallest value among its
      children, and some legal action reaches it. */
  lemma MinNodeValue<S, A>(g: Game<S, A>, ev: S -> real, s: S, depth: nat, agent: nat)
    requires WellFormed(g) && 0 < agent < g.numAgents && !Terminal(g, s, agent) && depth >= 1
    ensures forall a :: a in g.legal(s, agent) ==> NodeValue(Minimizer, g, ev, s, depth, agent) <= ChildValue(Minimizer, g, ev, s, depth, agent, a)
    ensures exists a :: a in g.legal(s, agent) && ChildValue(Minimizer, g, ev, s, depth, agent, a) == NodeValue(Minimizer, g, ev, s, depth, agent)
  {
    var vals := ChildValues(Minimizer, g, ev, s, depth, agent);
    var acts := g.legal(s, agent);
    forall a | a in acts
      ensures NodeValue(Minimizer, g, ev, s, depth, agent) <= ChildValue(Minimizer, g, ev, s, depth, agent, a)
    {
      var i :| 0 <= i < |acts| && acts[i] == a;
      assert vals[i] == ChildValue(Minimizer, g, ev, s, depth, agent, a);
    }
    var j :| 0 <= j < |vals| && vals[j] == MinOf(vals);
    assert ChildValue(Minimizer, g, ev, s, depth, agent, acts[j]) == NodeValue(Minimizer, g, ev, s, depth, agent);
  }

  /** A chance node's value is the average of its children's values, so it
      lies between their minimum and their maximum. */
  lemma {:induction false} ChanceIsAverage(vals: seq<real>)
    requires |vals| > 0
    ensures ChanceValue(vals) == Sum(vals) / (|vals| as real)
    ensures MinOf(vals) <= ChanceValue(vals) <= MaxOf(vals)
  {
    ChanceIsScaledSum(vals, |vals| as real);
    AverageBounds(vals, |vals| as real);
  }

  lemma {:induction false} ChanceIsScaledSum(vals: seq<real>, k: real)
    requires |vals| > 0 && k == |vals| as real
    ensures ChanceValue(vals) == Sum(vals) / k
  {
    SumScale(1.0 / k, vals);
    ScaledIsDivided(k, Sum(vals));
  }

  lemma {:induction false} AverageBounds(vals: seq<real>, k: real)
    requires |vals| > 0 && k == |vals| as real
    ensures MinOf(vals) <= Sum(vals) / k <= MaxOf(vals)
  {
    SumAtLeast(vals, MinOf(vals));
    SumAtMost(vals, MaxOf(vals));
    DividedBounds(k, Sum(vals), MinOf(vals), MaxOf(vals));
  }

  lemma ScaledIsDivided(k: real, total: real)
    requires k > 0.0
    ensures (1.0 / k) * total == total / k
  {
  }

  /** From `k*lo <= total <= k*hi` to `lo <= total/k <= hi`. */
  lemma DividedBounds(k: real, total: real, lo: real, hi: real)
    requires k > 0.0 && k * lo <= total <= k * hi
    ensures lo <= total / k <= hi
  {
  }

  /** Where a root-to-leaf path of the search tree stops. */
  datatype Stop = AtTerminal | AtCutoff

  /** Follows one path of the search tree from a node, choosing at each node
      the action with index `path(state, depth, agent) % k` among its `k`
      legal actions, and reports where it stopped and after how many plies. */
  function Walk<S, A>(g: Game<S, A>, path: (S, nat, nat) -> nat, s: S, depth: nat, agent: nat): (r: (Stop, nat))
    requires WellFormed(g) && agent < g.numAgents
    requires agent > 0 ==> depth >= 1
    ensures r.1 <= depth * g.numAgents - agent
    ensures r.0 == AtCutoff ==> r.1 == depth * g.numAgents - agent
    decreases depth, g.numAgents - agent
  {
    if Terminal(g, s, agent) then (AtTerminal, 0)
    else if depth == 0 then (AtCutoff, 0)
    else
      var acts := g.legal(s, agent);
      var a := acts[path(s, depth, agent) % |acts|];
      var t := NextTurn(g.numAgents, depth, agent);
      var r := Walk(g, path, g.succ(s, agent, a), t.depth, t.agent);
      assert t.agent == 0 ==> t.depth * g.numAgents == depth * g.numAgents - g.numAgents;
      (r.0, r.1 + 1)
  }

  /** The values of a list of (value, action) choices. */
  function Values<A>(choices: seq<(real, A)>): (vs: seq<real>)
    ensures |vs| == |choices|
    ensures forall i :: 0 <= i < |choices| ==> vs[i] == choices[i].0
  {
    seq(|choices|, i requires 0 <= i < |choices| => choices[i].0)
  }

  /** The choices whose value is exactly `best`, in their original order:
      every tied choice and nothing else. */
  function TieBreakList<A>(choices: seq<(real, A)>, best: real): (r: seq<(real, A)>)
    ensures forall i :: 0 <= i < |r| ==> r[i] in choices && r[i].0 == best
    ensures forall i :: 0 <= i < |choices| && choices[i].0 == best ==> choices[i] in r
  {
    if |choices| == 0 then []
    else
      var rest := TieBreakList(choices[1..], best);
      assert forall i :: 1 <= i < |choices| ==> choices[i] == choices[1..][i - 1];
      if choices[0].0 == best then [choices[0]] + rest else rest
  }
}
