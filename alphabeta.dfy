/** `AlphaBetaAgent`: minimax with pruning. A node is searched with a window
    (alpha, beta); Pacman's node stops as soon as its running best reaches
    beta, a ghost's node as soon as its running best falls to alpha. A child
    is searched with the parent's running best as its alpha (at Pacman's
    node) or as its beta (at a ghost's node).

    The random tie-break between an incumbent and an equally good challenger
    is read from `coin`, indexed by the position of the decision in the tree
    (the child indices from the root to the challenger). Every node has its own
    position, so every run of the random source is one `coin`, and what is
    proved for all `coin`s holds whatever the random choices are. */
module AlphaBeta {
  import opened Wrappers
  import opened Scores
  import opened Environment
  import opened SearchAgents
  import opened SearchTree
  import Minimax

  /** The cutoff test: `AtBound` stops when the running best reaches the
      bound (`>=` beta, `<=` alpha); `BeyondBound` only when it passes it. */
  datatype Cutoff = AtBound | BeyondBound

  /** Pacman's node stops once its running best `v` fails high against beta. */
  predicate FailsHigh(rule: Cutoff, v: ExtReal, beta: ExtReal) {
    if rule == AtBound then Le(beta, v) else Lt(beta, v)
  }

  /** A ghost's node stops once its running best `v` fails low against alpha. */
  predicate FailsLow(rule: Cutoff, v: ExtReal, alpha: ExtReal) {
    if rule == AtBound then Le(v, alpha) else Lt(v, alpha)
  }

  /** A window whose alpha does not fail high against its beta. */
  predicate Open(rule: Cutoff, alpha: ExtReal, beta: ExtReal) {
    !FailsHigh(rule, alpha, beta)
  }

  /** What a node searched with window (alpha, beta) reports about its
      minimax value `m`: `m` itself inside the window, and otherwise a value
      between `m` and the bound it failed against. */
  predicate WindowSound(rule: Cutoff, v: real, m: real, alpha: ExtReal, beta: ExtReal) {
    && (!FailsHigh(rule, Fin(m), beta) && !FailsLow(rule, Fin(m), alpha) ==> v == m)
    && (FailsHigh(rule, Fin(m), beta) ==> FailsHigh(rule, Fin(v), beta) && v <= m)
    && (FailsLow(rule, Fin(m), alpha) ==> FailsLow(rule, Fin(v), alpha) && m <= v)
  }

  /** Pacman's running best after the first `i` of the children's values. */
  function RunningMax(vals: seq<real>, i: nat): ExtReal
    requires i <= |vals|
  {
    if i == 0 then NegInf else Fin(MaxOf(vals[..i]))
  }

  /** A ghost's running best after the first `i` of the children's values. */
  function RunningMin(vals: seq<real>, i: nat): ExtReal
    requires i <= |vals|
  {
    if i == 0 then PosInf else Fin(MinOf(vals[..i]))
  }

  /** What `recurse` returns, and how many children the node searched. */
  datatype Outcome<A> = Outcome(value: real, action: Option<A>, examined: nat)

  /** Pacman's update of its running best `(best, bestAction)` with a child
      of value `c` reached by `a`: the larger value wins, and on a tie the
      coin decides which action is kept. */
  function MaxUpdate<A>(best: ExtReal, bestAction: Option<A>, c: real, a: A, takeChallenger: bool): (r: (ExtReal, Option<A>))
    ensures r.0 == ExtMax(best, Fin(c))
    ensures !best.PosInf? ==> r.0.Fin?
    ensures r.1 == bestAction || r.1 == Some(a)
    ensures Lt(best, Fin(c)) ==> r.1 == Some(a)
    ensures Lt(Fin(c), best) ==> r.1 == bestAction
  {
    if best == Fin(c) then (best, if takeChallenger then Some(a) else bestAction)
    else if Lt(best, Fin(c)) then (Fin(c), Some(a))
    else (best, bestAction)
  }

  /** A ghost's update of its running best, symmetric to `MaxUpdate`. */
  function MinUpdate<A>(best: ExtReal, bestAction: Option<A>, c: real, a: A, takeChallenger: bool): (r: (ExtReal, Option<A>))
    ensures r.0 == ExtMin(best, Fin(c))
    ensures !best.NegInf? ==> r.0.Fin?
    ensures r.1 == bestAction || r.1 == Some(a)
    ensures Lt(Fin(c), best) ==> r.1 == Some(a)
    ensures Lt(best, Fin(c)) ==> r.1 == bestAction
  {
    if best == Fin(c) then (best, if takeChallenger then Some(a) else bestAction)
    else if Lt(Fin(c), best) then (Fin(c), Some(a))
    else (best, bestAction)
  }

  /** The nested `recurse(gameState, currentDepth, agentIndex, alpha, beta)`
      as a function; `path` is the position of the node in the tree. */
  function Search<S, A>(rule: Cutoff, g: Game<S, A>, ev: S -> real, coin: seq<nat> -> bool, path: seq<nat>,
                        s: S, depth: nat, agent: nat, alpha: ExtReal, beta: ExtReal): Outcome<A>
    requires WellFormed(g) && agent < g.numAgents
    decreases depth, g.numAgents - agent, 1, 0
  {
    if Terminal(g, s, agent) then Outcome(g.score(s), None, 0)
    else if depth == 0 then Outcome(ev(s), None, 0)
    else if agent == 0 then MaxLoop(rule, g, ev, coin, path, s, depth, beta, 0, NegInf, None)
    else MinLoop(rule, g, ev, coin, path, s, depth, agent, alpha, 0, PosInf, None)
  }

  /** Pacman's loop from child `i` on, with running best `(best, bestAction)`. */
  function MaxLoop<S, A>(rule: Cutoff, g: Game<S, A>, ev: S -> real, coin: seq<nat> -> bool, path: seq<nat>,
                         s: S, depth: nat, beta: ExtReal, i: nat, best: ExtReal, bestAction: Option<A>): Outcome<A>
    requires WellFormed(g) && !Terminal(g, s, 0) && depth >= 1 && i <= |g.legal(s, 0)|
    requires !best.PosInf? && (i > 0 ==> best.Fin?)
    decreases depth, g.numAgents, 0, |g.legal(s, 0)| - i
  {
    var acts := g.legal(s, 0);
    if i == |acts| then Outcome(best.val, bestAction, i)
    else
      var c := Search(rule, g, ev, coin, path + [i], g.succ(s, 0, acts[i]), depth, 1, best, beta).value;
      var next := MaxUpdate(best, bestAction, c, acts[i], coin(path + [i]));
      if FailsHigh(rule, next.0, beta) then Outcome(next.0.val, next.1, i + 1)
      else MaxLoop(rule, g, ev, coin, path, s, depth, beta, i + 1, next.0, next.1)
  }

  /** A ghost's loop from child `i` on, with running best `(best, bestAction)`. */
  function MinLoop<S, A>(rule: Cutoff, g: Game<S, A>, ev: S -> real, coin: seq<nat> -> bool, path: seq<nat>,
                         s: S, depth: nat, agent: nat, alpha: ExtReal, i: nat, best: ExtReal, bestAction: Option<A>): Outcome<A>
    requires WellFormed(g) && 0 < agent < g.numAgents && !Terminal(g, s, agent) && depth >= 1
    requires i <= |g.legal(s, agent)|
    requires !best.NegInf? && (i > 0 ==> best.Fin?)
    decreases depth, g.numAgents - agent, 0, |g.legal(s, agent)| - i
  {
    var acts := g.legal(s, agent);
    if i == |acts| then Outcome(best.val, bestAction, i)
    else
      var t := NextTurn(g.numAgents, depth, agent);
      var c := Search(rule, g, ev, coin, path + [i], g.succ(s, agent, acts[i]), t.depth, t.agent, alpha, best).value;
      var next := MinUpdate(best, bestAction, c, acts[i], coin(path + [i]));
      if FailsLow(rule, next.0, alpha) then Outcome(next.0.val, next.1, i + 1)
      else MinLoop(rule, g, ev, coin, path, s, depth, agent, alpha, i + 1, next.0, next.1)
  }

  // ---------------------------------------------------------------------
  // Soundness of the window

  /** A report that failed high below the true value is sound. */
  lemma FailHighSound(rule: Cutoff, v: real, m: real, alpha: ExtReal, beta: ExtReal)
    requires Open(rule, alpha, beta) && FailsHigh(rule, Fin(v), beta) && v <= m
    ensures WindowSound(rule, v, m, alpha, beta)
  {
  }

  /** A report that failed low above the true value is sound. */
  lemma FailLowSound(rule: Cutoff, v: real, m: real, alpha: ExtReal, beta: ExtReal)
    requires Open(rule, alpha, beta) && FailsLow(rule, Fin(v), alpha) && m <= v
    ensures WindowSound(rule, v, m, alpha, beta)
  {
  }

  /** The running best after one more child, when the child's report is
      sound for the window (best, beta): the true running maximum, unless it
      fails high, and then the child's report, which lies below the
      child's value. */
  lemma MaxStep(rule: Cutoff, best: ExtReal, beta: ExtReal, c: real, m: real)
    requires !best.PosInf? && !FailsHigh(rule, best, beta)
    requires WindowSound(rule, c, m, best, beta)
    ensures ExtMax(best, Fin(c)).Fin?
    ensures var run := if best.Fin? then Max(best.val, m) else m;
      && (FailsHigh(rule, ExtMax(best, Fin(c)), beta) <==> FailsHigh(rule, Fin(run), beta))
      && (!FailsHigh(rule, ExtMax(best, Fin(c)), beta) ==> ExtMax(best, Fin(c)) == Fin(run))
      && (FailsHigh(rule, ExtMax(best, Fin(c)), beta) ==> ExtMax(best, Fin(c)) == Fin(c) && c <= m)
  {
  }

  /** A ghost's running best after one more child, symmetric to `MaxStep`. */
  lemma MinStep(rule: Cutoff, best: ExtReal, alpha: ExtReal, c: real, m: real)
    requires !best.NegInf? && !FailsLow(rule, best, alpha)
    requires WindowSound(rule, c, m, alpha, best)
    ensures ExtMin(best, Fin(c)).Fin?
    ensures var run := if best.Fin? then Min(best.val, m) else m;
      && (FailsLow(rule, ExtMin(best, Fin(c)), alpha) <==> FailsLow(rule, Fin(run), alpha))
      && (!FailsLow(rule, ExtMin(best, Fin(c)), alpha) ==> ExtMin(best, Fin(c)) == Fin(run))
      && (FailsLow(rule, ExtMin(best, Fin(c)), alpha) ==> ExtMin(best, Fin(c)) == Fin(c) && m <= c)
  {
  }

  /** Every node's report is sound for the window it was searched with. */
  lemma {:induction false} SearchSound<S, A>(rule: Cutoff, g: Game<S, A>, ev: S -> real, coin: seq<nat> -> bool, path: seq<nat>,
                          s: S, depth: nat, agent: nat, alpha: ExtReal, beta: ExtReal)
    requires WellFormed(g) && agent < g.numAgents && Open(rule, alpha, beta)
    ensures WindowSound(rule, Search(rule, g, ev, coin, path, s, depth, agent, alpha, beta).value,
                        NodeValue(Minimizer, g, ev, s, depth, agent), alpha, beta)
    decreases depth, g.numAgents - agent, 1, 0
  {
    if Terminal(g, s, agent) || depth == 0 {
    } else if agent == 0 {
      MaxLoopSound(rule, g, ev, coin, path, s, depth, alpha, beta, 0, NegInf, None);
    } else {
      MinLoopSound(rule, g, ev, coin, path, s, depth, agent, alpha, beta, 0, PosInf, None);
    }
  }

  /** Pacman's loop, entered after `i` children with the running maximum of
      their values, reports soundly for its window. */
  lemma {:induction false} MaxLoopSound<S, A>(rule: Cutoff, g: Game<S, A>, ev: S -> real, coin: seq<nat> -> bool, path: seq<nat>,
                           s: S, depth: nat, alpha: ExtReal, beta: ExtReal, i: nat, best: ExtReal, bestAction: Option<A>)
    requires WellFormed(g) && !Terminal(g, s, 0) && depth >= 1 && i <= |g.legal(s, 0)|
    requires Open(rule, alpha, beta) && !FailsHigh(rule, best, beta)
    requires best == RunningMax(ChildValues(Minimizer, g, ev, s, depth, 0), i)
    ensures WindowSound(rule, MaxLoop(rule, g, ev, coin, path, s, depth, beta, i, best, bestAction).value,
                        MaxOf(ChildValues(Minimizer, g, ev, s, depth, 0)), alpha, beta)
    decreases depth, g.numAgents, 0, |g.legal(s, 0)| - i
  {
    var vals := ChildValues(Minimizer, g, ev, s, depth, 0);
    if i == |vals| {
      assert vals[..i] == vals;
    } else {
      var next := MaxChild(rule, g, ev, coin, path, s, depth, beta, i, best, bestAction);
      if FailsHigh(rule, next.0, beta) {
        FailHighSound(rule, next.0.val, MaxOf(vals), alpha, beta);
      } else {
        MaxLoopSound(rule, g, ev, coin, path, s, depth, alpha, beta, i + 1, next.0, next.1);
      }
    }
  }

  /** One iteration of Pacman's loop: the running best after child `i`, and
      how the loop goes on from there. */
  lemma {:induction false} MaxChild<S, A>(rule: Cutoff, g: Game<S, A>, ev: S -> real, coin: seq<nat> -> bool, path: seq<nat>,
                       s: S, depth: nat, beta: ExtReal, i: nat, best: ExtReal, bestAction: Option<A>)
      returns (next: (ExtReal, Option<A>))
    requires WellFormed(g) && !Terminal(g, s, 0) && depth >= 1 && i < |g.legal(s, 0)|
    requires !FailsHigh(rule, best, beta)
    requires best == RunningMax(ChildValues(Minimizer, g, ev, s, depth, 0), i)
    ensures var vals := ChildValues(Minimizer, g, ev, s, depth, 0);
            var r := MaxLoop(rule, g, ev, coin, path, s, depth, beta, i, best, bestAction);
      && next.0.Fin?
      && (FailsHigh(rule, next.0, beta) <==> FailsHigh(rule, Fin(MaxOf(vals[..i + 1])), beta))
      && (!FailsHigh(rule, next.0, beta) ==>
            next.0 == Fin(MaxOf(vals[..i + 1])) && r == MaxLoop(rule, g, ev, coin, path, s, depth, beta, i + 1, next.0, next.1))
      && (FailsHigh(rule, next.0, beta) ==> r == Outcome(next.0.val, next.1, i + 1) && next.0.val <= vals[i])
      && next == MaxUpdate(best, bestAction, Search(rule, g, ev, coin, path + [i], g.succ(s, 0, g.legal(s, 0)[i]), depth, 1, best, beta).value,
                           g.legal(s, 0)[i], coin(path + [i]))
    decreases depth, g.numAgents, 0, |g.legal(s, 0)| - i, 0
  {
    var acts := g.legal(s, 0);
    var vals := ChildValues(Minimizer, g, ev, s, depth, 0);
    var child := g.succ(s, 0, acts[i]);
    SearchSound(rule, g, ev, coin, path + [i], child, depth, 1, best, beta);
    ChildValuesAt(Minimizer, g, ev, s, depth, 0, i);
    var c := Search(rule, g, ev, coin, path + [i], child, depth, 1, best, beta).value;
    MaxStep(rule, best, beta, c, vals[i]);
    if i > 0 {
      MaxOfPrefix(vals, i);
    } else {
      assert MaxOf(vals[..1]) == vals[0];
    }
    next := MaxUpdate(best, bestAction, c, acts[i], coin(path + [i]));
  }

  /** A ghost's loop, symmetric to `MaxLoopSound`. */
  lemma {:induction false} MinLoopSound<S, A>(rule: Cutoff, g: Game<S, A>, ev: S -> real, coin: seq<nat> -> bool, path: seq<nat>,
                           s: S, depth: nat, agent: nat, alpha: ExtReal, beta: ExtReal, i: nat, best: ExtReal, bestAction: Option<A>)
    requires WellFormed(g) && 0 < agent < g.numAgents && !Terminal(g, s, agent) && depth >= 1
    requires i <= |g.legal(s, agent)|
    requires Open(rule, alpha, beta) && !FailsLow(rule, best, alpha)
    requires best == RunningMin(ChildValues(Minimizer, g, ev, s, depth, agent), i)
    ensures WindowSound(rule, MinLoop(rule, g, ev, coin, path, s, depth, agent, alpha, i, best, bestAction).value,
                        MinOf(ChildValues(Minimizer, g, ev, s, depth, agent)), alpha, beta)
    decreases depth, g.numAgents - agent, 0, |g.legal(s, agent)| - i
  {
    var vals := ChildValues(Minimizer, g, ev, s, depth, agent);
    if i == |vals| {
      assert vals[..i] == vals;
    } else {
      var next := MinChild(rule, g, ev, coin, path, s, depth, agent, alpha, i, best, bestAction);
      if FailsLow(rule, next.0, alpha) {
        assert MinOf(vals) <= vals[i];
        FailLowSound(rule, next.0.val, MinOf(vals), alpha, beta);
      } else {
        MinLoopSound(rule, g, ev, coin, path, s, depth, agent, alpha, beta, i + 1, next.0, next.1);
      }
    }
  }

  /** One iteration of a ghost's loop, symmetric to `MaxChild`. */
  lemma {:induction false} MinChild<S, A>(rule: Cutoff, g: Game<S, A>, ev: S -> real, coin: seq<nat> -> bool, path: seq<nat>,
                       s: S, depth: nat, agent: nat, alpha: ExtReal, i: nat, best: ExtReal, bestAction: Option<A>)
      returns (next: (ExtReal, Option<A>))
    requires WellFormed(g) && 0 < agent < g.numAgents && !Terminal(g, s, agent) && depth >= 1
    requires i < |g.legal(s, agent)|
    requires !FailsLow(rule, best, alpha)
    requires best == RunningMin(ChildValues(Minimizer, g, ev, s, depth, agent), i)
    ensures var vals := ChildValues(Minimizer, g, ev, s, depth, agent);
            var r := MinLoop(rule, g, ev, coin, path, s, depth, agent, alpha, i, best, bestAction);
      && next.0.Fin?
      && (FailsLow(rule, next.0, alpha) <==> FailsLow(rule, Fin(MinOf(vals[..i + 1])), alpha))
      && (!FailsLow(rule, next.0, alpha) ==>
            next.0 == Fin(MinOf(vals[..i + 1])) && r == MinLoop(rule, g, ev, coin, path, s, depth, agent, alpha, i + 1, next.0, next.1))
      && (FailsLow(rule, next.0, alpha) ==> r == Outcome(next.0.val, next.1, i + 1) && vals[i] <= next.0.val)
      && next == MinUpdate(best, bestAction,
                           Search(rule, g, ev, coin, path + [i], g.succ(s, agent, g.legal(s, agent)[i]),
                                  NextTurn(g.numAgents, depth, agent).depth, NextTurn(g.numAgents, depth, agent).agent, alpha, best).value,
                           g.legal(s, agent)[i], coin(path + [i]))
    decreases depth, g.numAgents - agent, 0, |g.legal(s, agent)| - i, 0
  {
    var acts := g.legal(s, agent);
    var vals := ChildValues(Minimizer, g, ev, s, depth, agent);
    var t := NextTurn(g.numAgents, depth, agent);
    var child := g.succ(s, agent, acts[i]);
    SearchSound(rule, g, ev, coin, path + [i], child, t.depth, t.agent, alpha, best);
    ChildValuesAt(Minimizer, g, ev, s, depth, agent, i);
    var c := Search(rule, g, ev, coin, path + [i], child, t.depth, t.agent, alpha, best).value;
    MinStep(rule, best, alpha, c, vals[i]);
    if i > 0 {
      MinOfPrefix(vals, i);
    } else {
      assert MinOf(vals[..1]) == vals[0];
    }
    next := MinUpdate(best, bestAction, c, acts[i], coin(path + [i]));
  }

  // ---------------------------------------------------------------------
  // Where the loops stop, and what they return

  /** The number of children Pacman's loop examines when it has examined at
      least `k`: the first `k` at which the running maximum of `vals` fails
      high, or all of them. */
  function FirstFailHigh(rule: Cutoff, vals: seq<real>, beta: ExtReal, k: nat): (r: nat)
    requires 1 <= k <= |vals|
    ensures k <= r <= |vals|
    ensures r < |vals| ==> FailsHigh(rule, Fin(MaxOf(vals[..r])), beta)
    ensures forall j :: k <= j < r ==> !FailsHigh(rule, Fin(MaxOf(vals[..j])), beta)
    decreases |vals| - k
  {
    if k == |vals| || FailsHigh(rule, Fin(MaxOf(vals[..k])), beta) then k
    else FirstFailHigh(rule, vals, beta, k + 1)
  }

  /** The number of children a ghost's loop examines when it has examined at
      least `k`: the first `k` at which the running minimum of `vals` fails
      low, or all of them. */
  function FirstFailLow(rule: Cutoff, vals: seq<real>, alpha: ExtReal, k: nat): (r: nat)
    requires 1 <= k <= |vals|
    ensures k <= r <= |vals|
    ensures r < |vals| ==> FailsLow(rule, Fin(MinOf(vals[..r])), alpha)
    ensures forall j :: k <= j < r ==> !FailsLow(rule, Fin(MinOf(vals[..j])), alpha)
    decreases |vals| - k
  {
    if k == |vals| || FailsLow(rule, Fin(MinOf(vals[..k])), alpha) then k
    else FirstFailLow(rule, vals, alpha, k + 1)
  }

  /** Pacman's loop, entered before child `i`, examines `FirstFailHigh` of
      the children's values. */
  lemma {:induction false} MaxLoopStops<S, A>(rule: Cutoff, g: Game<S, A>, ev: S -> real, coin: seq<nat> -> bool, path: seq<nat>,
                           s: S, depth: nat, beta: ExtReal, i: nat, best: ExtReal, bestAction: Option<A>)
    requires WellFormed(g) && !Terminal(g, s, 0) && depth >= 1 && i < |g.legal(s, 0)|
    requires !FailsHigh(rule, best, beta)
    requires i == 0 ==> best == NegInf
    requires i > 0 ==> best == Fin(MaxOf(ChildValues(Minimizer, g, ev, s, depth, 0)[..i]))
    ensures MaxLoop(rule, g, ev, coin, path, s, depth, beta, i, best, bestAction).examined
         == FirstFailHigh(rule, ChildValues(Minimizer, g, ev, s, depth, 0), beta, i + 1)
    decreases |g.legal(s, 0)| - i
  {
    var next := MaxChild(rule, g, ev, coin, path, s, depth, beta, i, best, bestAction);
    if !FailsHigh(rule, next.0, beta) && i + 1 < |g.legal(s, 0)| {
      MaxLoopStops(rule, g, ev, coin, path, s, depth, beta, i + 1, next.0, next.1);
    }
  }

  /** A ghost's loop, entered before child `i`, examines `FirstFailLow` of
      the children's values. */
  lemma {:induction false} MinLoopStops<S, A>(rule: Cutoff, g: Game<S, A>, ev: S -> real, coin: seq<nat> -> bool, path: seq<nat>,
                           s: S, depth: nat, agent: nat, alpha: ExtReal, i: nat, best: ExtReal, bestAction: Option<A>)
    requires WellFormed(g) && 0 < agent < g.numAgents && !Terminal(g, s, agent) && depth >= 1
    requires i < |g.legal(s, agent)|
    requires !FailsLow(rule, best, alpha)
    requires i == 0 ==> best == PosInf
    requires i > 0 ==> best == Fin(MinOf(ChildValues(Minimizer, g, ev, s, depth, agent)[..i]))
    ensures MinLoop(rule, g, ev, coin, path, s, depth, agent, alpha, i, best, bestAction).examined
         == FirstFailLow(rule, ChildValues(Minimizer, g, ev, s, depth, agent), alpha, i + 1)
    decreases |g.legal(s, agent)| - i
  {
    var next := MinChild(rule, g, ev, coin, path, s, depth, agent, alpha, i, best, bestAction);
    if !FailsLow(rule, next.0, alpha) && i + 1 < |g.legal(s, agent)| {
      MinLoopStops(rule, g, ev, coin, path, s, depth, agent, alpha, i + 1, next.0, next.1);
    }
  }

  /** Pacman's loop returns a legal action. */
  lemma {:induction false} MaxLoopLegal<S, A>(rule: Cutoff, g: Game<S, A>, ev: S -> real, coin: seq<nat> -> bool, path: seq<nat>,
                           s: S, depth: nat, beta: ExtReal, i: nat, best: ExtReal, bestAction: Option<A>)
    requires WellFormed(g) && !Terminal(g, s, 0) && depth >= 1 && i <= |g.legal(s, 0)|
    requires (i == 0 ==> best == NegInf) && (i > 0 ==> best.Fin?)
    requires i > 0 ==> bestAction.Some? && bestAction.value in g.legal(s, 0)
    ensures var r := MaxLoop(rule, g, ev, coin, path, s, depth, beta, i, best, bestAction);
      r.action.Some? && r.action.value in g.legal(s, 0)
    decreases |g.legal(s, 0)| - i
  {
    var acts := g.legal(s, 0);
    if i < |acts| {
      var c := Search(rule, g, ev, coin, path + [i], g.succ(s, 0, acts[i]), depth, 1, best, beta).value;
      var next := MaxUpdate(best, bestAction, c, acts[i], coin(path + [i]));
      if !FailsHigh(rule, next.0, beta) {
        MaxLoopLegal(rule, g, ev, coin, path, s, depth, beta, i + 1, next.0, next.1);
      }
    }
  }

  /** A ghost's loop returns a legal action. */
  lemma {:induction false} MinLoopLegal<S, A>(rule: Cutoff, g: Game<S, A>, ev: S -> real, coin: seq<nat> -> bool, path: seq<nat>,
                           s: S, depth: nat, agent: nat, alpha: ExtReal, i: nat, best: ExtReal, bestAction: Option<A>)
    requires WellFormed(g) && 0 < agent < g.numAgents && !Terminal(g, s, agent) && depth >= 1
    requires i <= |g.legal(s, agent)|
    requires (i == 0 ==> best == PosInf) && (i > 0 ==> best.Fin?)
    requires i > 0 ==> bestAction.Some? && bestAction.value in g.legal(s, agent)
    ensures var r := MinLoop(rule, g, ev, coin, path, s, depth, agent, alpha, i, best, bestAction);
      r.action.Some? && r.action.value in g.legal(s, agent)
    decreases |g.legal(s, agent)| - i
  {
    var acts := g.legal(s, agent);
    if i < |acts| {
      var t := NextTurn(g.numAgents, depth, agent);
      var c := Search(rule, g, ev, coin, path + [i], g.succ(s, agent, acts[i]), t.depth, t.agent, alpha, best).value;
      var next := MinUpdate(best, bestAction, c, acts[i], coin(path + [i]));
      if !FailsLow(rule, next.0, alpha) {
        MinLoopLegal(rule, g, ev, coin, path, s, depth, agent, alpha, i + 1, next.0, next.1);
      }
    }
  }

  /** A node searched with window (alpha, beta): terminal states and the depth
      limit report the score and the evaluation with no action; otherwise a
      legal action is returned, and the children are searched in order up to
      the first one at which the running best of their minimax values leaves
      the window: at Pacman's node when the running maximum fails high, at a
      ghost's node when the running minimum fails low. */
  lemma SearchStops<S, A>(rule: Cutoff, g: Game<S, A>, ev: S -> real, coin: seq<nat> -> bool, path: seq<nat>,
                          s: S, depth: nat, agent: nat, alpha: ExtReal, beta: ExtReal)
    requires WellFormed(g) && agent < g.numAgents && Open(rule, alpha, beta)
    ensures var r := Search(rule, g, ev, coin, path, s, depth, agent, alpha, beta);
      && (Terminal(g, s, agent) ==> r == Outcome(g.score(s), None, 0))
      && (!Terminal(g, s, agent) && depth == 0 ==> r == Outcome(ev(s), None, 0))
      && (!Terminal(g, s, agent) && depth > 0 ==>
            var vals := ChildValues(Minimizer, g, ev, s, depth, agent);
            && r.action.Some? && r.action.value in g.legal(s, agent)
            && 1 <= r.examined <= |vals|
            && (agent == 0 ==>
                  && (r.examined < |vals| ==> FailsHigh(rule, Fin(MaxOf(vals[..r.examined])), beta))
                  && (forall k :: 1 <= k < r.examined ==> !FailsHigh(rule, Fin(MaxOf(vals[..k])), beta)))
            && (agent > 0 ==>
                  && (r.examined < |vals| ==> FailsLow(rule, Fin(MinOf(vals[..r.examined])), alpha))
                  && (forall k :: 1 <= k < r.examined ==> !FailsLow(rule, Fin(MinOf(vals[..k])), alpha))))
  {
    if !Terminal(g, s, agent) && depth > 0 {
      if agent == 0 {
        MaxLoopStops(rule, g, ev, coin, path, s, depth, beta, 0, NegInf, None);
        MaxLoopLegal(rule, g, ev, coin, path, s, depth, beta, 0, NegInf, None);
      } else {
        MinLoopStops(rule, g, ev, coin, path, s, depth, agent, alpha, 0, PosInf, None);
        MinLoopLegal(rule, g, ev, coin, path, s, depth, agent, alpha, 0, PosInf, None);
      }
    }
  }

  /** Searched with the full window, the root reports its minimax value. */
  lemma RootValue<S, A>(rule: Cutoff, g: Game<S, A>, ev: S -> real, coin: seq<nat> -> bool, s: S, depth: nat)
    requires WellFormed(g)
    ensures Search(rule, g, ev, coin, [], s, depth, 0, NegInf, PosInf).value == NodeValue(Minimizer, g, ev, s, depth, 0)
  {
    SearchSound(rule, g, ev, coin, [], s, depth, 0, NegInf, PosInf);
  }

  // ---------------------------------------------------------------------
  // The action chosen at the root

  /** With the strict cutoff and no upper bound, Pacman's loop only ever
      keeps an action whose child is worth exactly the running maximum. */
  lemma {:induction false} StrictMaxLoopExact<S, A>(g: Game<S, A>, ev: S -> real, coin: seq<nat> -> bool, path: seq<nat>,
                                 s: S, depth: nat, i: nat, best: ExtReal, bestAction: Option<A>)
    requires WellFormed(g) && !Terminal(g, s, 0) && depth >= 1 && i <= |g.legal(s, 0)|
    requires best == RunningMax(ChildValues(Minimizer, g, ev, s, depth, 0), i)
    requires i > 0 ==> bestAction.Some? && ChildValue(Minimizer, g, ev, s, depth, 0, bestAction.value) == best.val
    ensures var r := MaxLoop(BeyondBound, g, ev, coin, path, s, depth, PosInf, i, best, bestAction);
      r.action.Some? && ChildValue(Minimizer, g, ev, s, depth, 0, r.action.value) == MaxOf(ChildValues(Minimizer, g, ev, s, depth, 0))
    decreases |g.legal(s, 0)| - i
  {
    var acts := g.legal(s, 0);
    var vals := ChildValues(Minimizer, g, ev, s, depth, 0);
    if i == |acts| {
      assert vals[..i] == vals;
    } else {
      var next := MaxChild(BeyondBound, g, ev, coin, path, s, depth, PosInf, i, best, bestAction);
      SearchSound(BeyondBound, g, ev, coin, path + [i], g.succ(s, 0, acts[i]), depth, 1, best, PosInf);
      ChildValuesAt(Minimizer, g, ev, s, depth, 0, i);
      StrictMaxLoopExact(g, ev, coin, path, s, depth, i + 1, next.0, next.1);
    }
  }

  /** With the strict cutoff the root's action is a minimax action: a legal
      move whose successor is worth the root's minimax value. */
  lemma StrictRootActionIsMinimax<S, A>(g: Game<S, A>, ev: S -> real, coin: seq<nat> -> bool, s: S, depth: nat)
    requires WellFormed(g) && !Terminal(g, s, 0) && depth >= 1
    ensures var r := Search(BeyondBound, g, ev, coin, [], s, depth, 0, NegInf, PosInf);
      && r.action.Some? && r.action.value in g.legal(s, 0)
      && ChildValue(Minimizer, g, ev, s, depth, 0, r.action.value) == NodeValue(Minimizer, g, ev, s, depth, 0)
  {
    StrictMaxLoopExact(g, ev, coin, [], s, depth, 0, NegInf, None);
    SearchStops(BeyondBound, g, ev, coin, [], s, depth, 0, NegInf, PosInf);
  }

  // ---------------------------------------------------------------------
  // The nodes the search visits

  /** How many nodes a search visits, and whether some visited node stopped
      before its last child. */
  datatype Visits = Visits(nodes: nat, pruned: bool)

  /** The nodes `Search` visits below and including `s`. */
  function SearchVisits<S, A>(rule: Cutoff, g: Game<S, A>, ev: S -> real, coin: seq<nat> -> bool, path: seq<nat>,
                              s: S, depth: nat, agent: nat, alpha: ExtReal, beta: ExtReal): Visits
    requires WellFormed(g) && agent < g.numAgents
    decreases depth, g.numAgents - agent, 1, 0
  {
    if Terminal(g, s, agent) || depth == 0 then Visits(1, false)
    else
      var v := if agent == 0 then MaxLoopVisits(rule, g, ev, coin, path, s, depth, beta, 0, NegInf, None)
               else MinLoopVisits(rule, g, ev, coin, path, s, depth, agent, alpha, 0, PosInf, None);
      Visits(1 + v.nodes, v.pruned)
  }

  /** The nodes Pacman's loop visits below the children `i, i + 1, ...`. */
  function MaxLoopVisits<S, A>(rule: Cutoff, g: Game<S, A>, ev: S -> real, coin: seq<nat> -> bool, path: seq<nat>,
                               s: S, depth: nat, beta: ExtReal, i: nat, best: ExtReal, bestAction: Option<A>): Visits
    requires WellFormed(g) && !Terminal(g, s, 0) && depth >= 1 && i <= |g.legal(s, 0)|
    requires !best.PosInf? && (i > 0 ==> best.Fin?)
    decreases depth, g.numAgents, 0, |g.legal(s, 0)| - i
  {
    var acts := g.legal(s, 0);
    if i == |acts| then Visits(0, false)
    else
      var child := SearchVisits(rule, g, ev, coin, path + [i], g.succ(s, 0, acts[i]), depth, 1, best, beta);
      var c := Search(rule, g, ev, coin, path + [i], g.succ(s, 0, acts[i]), depth, 1, best, beta).value;
      var next := MaxUpdate(best, bestAction, c, acts[i], coin(path + [i]));
      if FailsHigh(rule, next.0, beta) then Visits(child.nodes, child.pruned || i + 1 < |acts|)
      else
        var rest := MaxLoopVisits(rule, g, ev, coin, path, s, depth, beta, i + 1, next.0, next.1);
        Visits(child.nodes + rest.nodes, child.pruned || rest.pruned)
  }

  /** The nodes a ghost's loop visits below the children `i, i + 1, ...`. */
  function MinLoopVisits<S, A>(rule: Cutoff, g: Game<S, A>, ev: S -> real, coin: seq<nat> -> bool, path: seq<nat>,
                               s: S, depth: nat, agent: nat, alpha: ExtReal, i: nat, best: ExtReal, bestAction: Option<A>): Visits
    requires WellFormed(g) && 0 < agent < g.numAgents && !Terminal(g, s, agent) && depth >= 1
    requires i <= |g.legal(s, agent)|
    requires !best.NegInf? && (i > 0 ==> best.Fin?)
    decreases depth, g.numAgents - agent, 0, |g.legal(s, agent)| - i
  {
    var acts := g.legal(s, agent);
    if i == |acts| then Visits(0, false)
    else
      var t := NextTurn(g.numAgents, depth, agent);
      var child := SearchVisits(rule, g, ev, coin, path + [i], g.succ(s, agent, acts[i]), t.depth, t.agent, alpha, best);
      var c := Search(rule, g, ev, coin, path + [i], g.succ(s, agent, acts[i]), t.depth, t.agent, alpha, best).value;
      var next := MinUpdate(best, bestAction, c, acts[i], coin(path + [i]));
      if FailsLow(rule, next.0, alpha) then Visits(child.nodes, child.pruned || i + 1 < |acts|)
      else
        var rest := MinLoopVisits(rule, g, ev, coin, path, s, depth, agent, alpha, i + 1, next.0, next.1);
        Visits(child.nodes + rest.nodes, child.pruned || rest.pruned)
  }

  /** Alpha-beta visits no more nodes than the full game tree has, and
      strictly fewer exactly when some visited node stopped early; in
      particular when the node itself stopped before its last child. */
  lemma {:induction false} SearchVisitsBound<S, A>(rule: Cutoff, g: Game<S, A>, ev: S -> real, coin: seq<nat> -> bool, path: seq<nat>,
                                                   s: S, depth: nat, agent: nat, alpha: ExtReal, beta: ExtReal)
    requires WellFormed(g) && agent < g.numAgents
    ensures var v := SearchVisits(rule, g, ev, coin, path, s, depth, agent, alpha, beta);
      v.nodes <= TreeSize(g, s, depth, agent) && (v.nodes < TreeSize(g, s, depth, agent) <==> v.pruned)
    ensures (!Terminal(g, s, agent) && depth >= 1 &&
             Search(rule, g, ev, coin, path, s, depth, agent, alpha, beta).examined < |g.legal(s, agent)|) ==>
      SearchVisits(rule, g, ev, coin, path, s, depth, agent, alpha, beta).pruned
    decreases depth, g.numAgents - agent, 1, 0
  {
    if Terminal(g, s, agent) || depth == 0 {
    } else if agent == 0 {
      MaxLoopVisitsBound(rule, g, ev, coin, path, s, depth, beta, 0, NegInf, None);
    } else {
      MinLoopVisitsBound(rule, g, ev, coin, path, s, depth, agent, alpha, 0, PosInf, None);
    }
  }

  /** Pacman's loop visits at most the nodes below its remaining children,
      strictly fewer exactly when a cutoff skipped some of them. */
  lemma {:induction false} MaxLoopVisitsBound<S, A>(rule: Cutoff, g: Game<S, A>, ev: S -> real, coin: seq<nat> -> bool, path: seq<nat>,
                                                    s: S, depth: nat, beta: ExtReal, i: nat, best: ExtReal, bestAction: Option<A>)
    requires WellFormed(g) && !Terminal(g, s, 0) && depth >= 1 && i <= |g.legal(s, 0)|
    requires !best.PosInf? && (i > 0 ==> best.Fin?)
    ensures var v := MaxLoopVisits(rule, g, ev, coin, path, s, depth, beta, i, best, bestAction);
      v.nodes <= ChildrenSize(g, s, depth, 0, i) && (v.nodes < ChildrenSize(g, s, depth, 0, i) <==> v.pruned)
    ensures MaxLoop(rule, g, ev, coin, path, s, depth, beta, i, best, bestAction).examined < |g.legal(s, 0)| ==>
      MaxLoopVisits(rule, g, ev, coin, path, s, depth, beta, i, best, bestAction).pruned
    decreases depth, g.numAgents, 0, |g.legal(s, 0)| - i
  {
    var acts := g.legal(s, 0);
    if i < |acts| {
      var c := Search(rule, g, ev, coin, path + [i], g.succ(s, 0, acts[i]), depth, 1, best, beta).value;
      var next := MaxUpdate(best, bestAction, c, acts[i], coin(path + [i]));
      SearchVisitsBound(rule, g, ev, coin, path + [i], g.succ(s, 0, acts[i]), depth, 1, best, beta);
      if !FailsHigh(rule, next.0, beta) {
        MaxLoopVisitsBound(rule, g, ev, coin, path, s, depth, beta, i + 1, next.0, next.1);
      }
    }
  }

  /** A ghost's loop visits at most the nodes below its remaining children,
      strictly fewer exactly when a cutoff skipped some of them. */
  lemma {:induction false} MinLoopVisitsBound<S, A>(rule: Cutoff, g: Game<S, A>, ev: S -> real, coin: seq<nat> -> bool, path: seq<nat>,
                                                    s: S, depth: nat, agent: nat, alpha: ExtReal, i: nat, best: ExtReal, bestAction: Option<A>)
    requires WellFormed(g) && 0 < agent < g.numAgents && !Terminal(g, s, agent) && depth >= 1
    requires i <= |g.legal(s, agent)|
    requires !best.NegInf? && (i > 0 ==> best.Fin?)
    ensures var v := MinLoopVisits(rule, g, ev, coin, path, s, depth, agent, alpha, i, best, bestAction);
      v.nodes <= ChildrenSize(g, s, depth, agent, i) && (v.nodes < ChildrenSize(g, s, depth, agent, i) <==> v.pruned)
    ensures MinLoop(rule, g, ev, coin, path, s, depth, agent, alpha, i, best, bestAction).examined < |g.legal(s, agent)| ==>
      MinLoopVisits(rule, g, ev, coin, path, s, depth, agent, alpha, i, best, bestAction).pruned
    decreases depth, g.numAgents - agent, 0, |g.legal(s, agent)| - i
  {
    var acts := g.legal(s, agent);
    if i < |acts| {
      var t := NextTurn(g.numAgents, depth, agent);
      var c := Search(rule, g, ev, coin, path + [i], g.succ(s, agent, acts[i]), t.depth, t.agent, alpha, best).value;
      var next := MinUpdate(best, bestAction, c, acts[i], coin(path + [i]));
      SearchVisitsBound(rule, g, ev, coin, path + [i], g.succ(s, agent, acts[i]), t.depth, t.agent, alpha, best);
      if !FailsLow(rule, next.0, alpha) {
        MinLoopVisitsBound(rule, g, ev, coin, path, s, depth, agent, alpha, i + 1, next.0, next.1);
      }
    }
  }

  // ---------------------------------------------------------------------
  // The agent

  /** The nested `recurse(gameState, currentDepth, agentIndex, alpha, beta)`;
      `rule` is the cutoff test and `coin` the random tie-break. Its result
      is `Search`'s. */
  method Recurse<S, A>(rule: Cutoff, g: Game<S, A>, ev: S -> real, coin: seq<nat> -> bool, path: seq<nat>,
                       gameState: S, currentDepth: nat, agentIndex: nat, alpha: ExtReal, beta: ExtReal)
    returns (value: real, action: Option<A>)
    requires WellFormed(g) && agentIndex < g.numAgents
    ensures var r := Search(rule, g, ev, coin, path, gameState, currentDepth, agentIndex, alpha, beta);
      value == r.value && action == r.action
    decreases currentDepth, g.numAgents - agentIndex, 1
  {
    if g.isWin(gameState) || g.isLose(gameState) || |g.legal(gameState, agentIndex)| == 0 {
      return g.score(gameState), None;
    }
    if currentDepth == 0 {
      return ev(gameState), None;
    }
    if agentIndex == 0 {
      var v, a, _ := MaxNode(rule, g, ev, coin, path, gameState, currentDepth, alpha, beta);
      value, action := v, a;
    } else {
      var v, a, _ := MinNode(rule, g, ev, coin, path, gameState, currentDepth, agentIndex, alpha, beta);
      value, action := v, a;
    }
  }

  /** Pacman's turn of `recurse`; `examined` is the number of children it
      searched before it returned. */
  method MaxNode<S, A>(rule: Cutoff, g: Game<S, A>, ev: S -> real, coin: seq<nat> -> bool, path: seq<nat>,
                       gameState: S, currentDepth: nat, alpha: ExtReal, beta: ExtReal)
    returns (value: real, action: Option<A>, examined: nat)
    requires WellFormed(g) && !Terminal(g, gameState, 0) && currentDepth >= 1
    ensures var r := MaxLoop(rule, g, ev, coin, path, gameState, currentDepth, beta, 0, NegInf, None);
      value == r.value && action == r.action && examined == r.examined
    decreases currentDepth, g.numAgents, 0
  {
    var legalActions := g.legal(gameState, 0);
    var best: ExtReal, bestAction: Option<A> := NegInf, None;
    var alphaBound := alpha;  // updated as in the source, and never read
    for i := 0 to |legalActions|
      invariant !best.PosInf? && (i > 0 ==> best.Fin?)
      invariant MaxLoop(rule, g, ev, coin, path, gameState, currentDepth, beta, i, best, bestAction)
             == MaxLoop(rule, g, ev, coin, path, gameState, currentDepth, beta, 0, NegInf, None)
    {
      var newAgentIndex := 1;
      var c, _ := Recurse(rule, g, ev, coin, path + [i], g.succ(gameState, 0, legalActions[i]),
                          currentDepth, newAgentIndex, best, beta);
      if best == Fin(c) {
        if coin(path + [i]) {
          bestAction := Some(legalActions[i]);
        }
      } else if Lt(best, Fin(c)) {
        best, bestAction := Fin(c), Some(legalActions[i]);
      }
      if FailsHigh(rule, best, beta) {
        return best.val, bestAction, i + 1;
      }
      alphaBound := ExtMax(alphaBound, best);
    }
    return best.val, bestAction, |legalActions|;
  }

  /** A ghost's turn of `recurse`; `examined` is the number of children it
      searched before it returned. */
  method MinNode<S, A>(rule: Cutoff, g: Game<S, A>, ev: S -> real, coin: seq<nat> -> bool, path: seq<nat>,
                       gameState: S, currentDepth: nat, agentIndex: nat, alpha: ExtReal, beta: ExtReal)
    returns (value: real, action: Option<A>, examined: nat)
    requires WellFormed(g) && 0 < agentIndex < g.numAgents && !Terminal(g, gameState, agentIndex) && currentDepth >= 1
    ensures var r := MinLoop(rule, g, ev, coin, path, gameState, currentDepth, agentIndex, alpha, 0, PosInf, None);
      value == r.value && action == r.action && examined == r.examined
    decreases currentDepth, g.numAgents - agentIndex, 0
  {
    var legalActions := g.legal(gameState, agentIndex);
    var best: ExtReal, bestAction: Option<A> := PosInf, None;
    var betaBound := beta;  // updated as in the source, and never read
    for i := 0 to |legalActions|
      invariant !best.NegInf? && (i > 0 ==> best.Fin?)
      invariant MinLoop(rule, g, ev, coin, path, gameState, currentDepth, agentIndex, alpha, i, best, bestAction)
             == MinLoop(rule, g, ev, coin, path, gameState, currentDepth, agentIndex, alpha, 0, PosInf, None)
    {
      var newAgentIndex, newDepth;
      if agentIndex == g.numAgents - 1 {
        newAgentIndex, newDepth := 0, currentDepth - 1;
      } else {
        newAgentIndex, newDepth := agentIndex + 1, currentDepth;
      }
      assert Turn(newDepth, newAgentIndex) == NextTurn(g.numAgents, currentDepth, agentIndex);
      var c, _ := Recurse(rule, g, ev, coin, path + [i], g.succ(gameState, agentIndex, legalActions[i]),
                          newDepth, newAgentIndex, alpha, best);
      if best == Fin(c) {
        if coin(path + [i]) {
          bestAction := Some(legalActions[i]);
        }
      } else if Lt(Fin(c), best) {
        best, bestAction := Fin(c), Some(legalActions[i]);
      }
      if FailsLow(rule, best, alpha) {
        return best.val, bestAction, i + 1;
      }
      betaBound := ExtMin(betaBound, best);
    }
    return best.val, bestAction, |legalActions|;
  }

  /** `AlphaBetaAgent.getAction`: searches `depth` rounds from Pacman's turn
      with the full window and returns the chosen action; `value` is the
      root value it discards. */
  method GetAction<S, A>(rule: Cutoff, g: Game<S, A>, agent: SearchAgent<S>, coin: seq<nat> -> bool, gameState: S)
    returns (action: Option<A>, value: real)
    requires WellFormed(g)
    ensures value == NodeValue(Minimizer, g, agent.evaluationFunction, gameState, agent.depth, PacmanIndex)
    ensures action.None? <==> Terminal(g, gameState, PacmanIndex) || agent.depth == 0
    ensures action.Some? ==> action.value in g.legal(gameState, PacmanIndex)
    ensures action.Some? && rule == BeyondBound ==>
      ChildValue(Minimizer, g, agent.evaluationFunction, gameState, agent.depth, PacmanIndex, action.value) == value
  {
    var alpha, beta := NegInf, PosInf;
    value, action := Recurse(rule, g, agent.evaluationFunction, coin, [], gameState, agent.depth, PacmanIndex, alpha, beta);
    RootValue(rule, g, agent.evaluationFunction, coin, gameState, agent.depth);
    SearchStops(rule, g, agent.evaluationFunction, coin, [], gameState, agent.depth, PacmanIndex, alpha, beta);
    if action.Some? && rule == BeyondBound {
      StrictRootActionIsMinimax(g, agent.evaluationFunction, coin, gameState, agent.depth);
    }
  }

  /** The alpha-beta agent and the minimax agent agree on the root value. */
  method SameRootValue<S, A>(rule: Cutoff, g: Game<S, A>, agent: SearchAgent<S>, coin: seq<nat> -> bool, gameState: S)
    returns (minimaxValue: real, alphaBetaValue: real)
    requires WellFormed(g)
    ensures minimaxValue == alphaBetaValue
  {
    var _, v1 := Minimax.GetAction(g, agent, gameState);
    var _, v2 := GetAction(rule, g, agent, coin, gameState);
    minimaxValue, alphaBetaValue := v1, v2;
  }
}
