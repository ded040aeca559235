/** Small games on which the search values can be worked out by hand. */
module Scenarios {
  import opened Scores
  import opened Environment
  import opened SearchAgents
  import opened SearchTree
  import opened Wrappers
  import opened AlphaBeta

  /** Pacman and one ghost. From state 0 Pacman's only move leads to state 1,
      where the ghost can move to state 2 (score 3) or state 3 (score 5);
      every state other than 1 gives Pacman one move and the ghost none. */
  function TwoChoiceGame(): Game<int, int> {
    Game(
      2,
      s => false,
      s => false,
      (s, i) => if s == 1 then (if i == 1 then [0, 1] else []) else (if i == 0 then [0] else []),
      (s, i, a) => if s == 0 then 1 else 2 + a,
      s => if s == 2 then 3.0 else if s == 3 then 5.0 else 0.0)
  }

  /** Searched one round deep with the score as evaluation function, the
      ghost's node is worth 3 under minimax (it picks the smaller score) and
      4 under expectimax (the average of 3 and 5), and so is the root. */
  lemma TwoChoiceValues()
    ensures NodeValue(Minimizer, TwoChoiceGame(), s => ScoreEvaluation(TwoChoiceGame(), s), 0, 1, 0) == 3.0
    ensures NodeValue(Uniform, TwoChoiceGame(), s => ScoreEvaluation(TwoChoiceGame(), s), 0, 1, 0) == 4.0
  {
    var g := TwoChoiceGame();
    var ev := s => ScoreEvaluation(g, s);
    assert g.legal(1, 1) == [0, 1];
    assert g.legal(0, 0) == [0];
    forall adv: Adversary, s | s == 2 || s == 3
      ensures NodeValue(adv, g, ev, s, 0, 0) == g.score(s)
    {
      assert g.legal(s, 0) == [0];
    }
    var mins := ChildValues(Minimizer, g, ev, 1, 1, 1);
    assert mins == [3.0, 5.0];
    var chances := ChildValues(Uniform, g, ev, 1, 1, 1);
    assert chances == [3.0, 5.0];
    assert Scale(1.0 / 2.0, chances) == [1.5, 2.5];
    assert Sum([1.5, 2.5]) == 4.0 by {
      assert [1.5, 2.5][..1] == [1.5];
      assert [1.5][..0] == [];
    }
    assert ChildValues(Minimizer, g, ev, 0, 1, 0) == [3.0];
    assert ChildValues(Uniform, g, ev, 0, 1, 0) == [4.0];
  }

  /** Three agents searched two rounds deep: any path that reaches the depth
      limit does so after exactly six plies. */
  lemma ThreeAgentsTwoRounds<S, A>(g: Game<S, A>, path: (S, nat, nat) -> nat, s: S)
    requires g.numAgents == 3
    ensures Walk(g, path, s, 2, 0).0 == AtCutoff ==> Walk(g, path, s, 2, 0).1 == 6
    ensures Walk(g, path, s, 2, 0).1 <= 6
  {
  }

  /** Pacman and one ghost. From state 0 Pacman's move 0 leads to state 1,
      where the ghost's only move reaches state 3; move 1 leads to state 2,
      where the ghost can reach state 4 or state 5. States 3 to 5 are won,
      state 5 with score 3 and the others with score 5. */
  function TieAfterCutoffGame(): Game<int, int> {
    Game(
      2,
      s => s >= 3,
      s => false,
      (s, i) => if s == 0 && i == 0 then [0, 1] else if s == 1 && i == 1 then [0] else if s == 2 && i == 1 then [0, 1] else [],
      (s, i, a) => if s == 0 then 1 + a else if s == 1 then 3 else 4 + a,
      s => if s == 5 then 3.0 else 5.0)
  }

  /** The score as evaluation function on `TieAfterCutoffGame`. */
  function TieAfterCutoffScore(s: int): (r: real)
    ensures r == TieAfterCutoffGame().score(s)
  {
    ScoreEvaluation(TieAfterCutoffGame(), s)
  }

  /** A tie-break that always takes the challenger. */
  function AlwaysChallenger(p: seq<nat>): bool {
    true
  }

  /** Move 0 is worth 5 and move 1 is worth 3, so the root is worth 5. */
  lemma TieAfterCutoffValues()
    ensures var g := TieAfterCutoffGame();
            var ev := TieAfterCutoffScore;
      && ChildValues(Minimizer, g, ev, 0, 1, 0) == [5.0, 3.0]
      && NodeValue(Minimizer, g, ev, 0, 1, 0) == 5.0
  {
    var g := TieAfterCutoffGame();
    var ev := TieAfterCutoffScore;
    assert NextTurn(2, 1, 0) == Turn(1, 1);
    assert NextTurn(2, 1, 1) == Turn(0, 0);
    assert g.legal(0, 0) == [0, 1];
    assert g.legal(1, 1) == [0];
    assert g.legal(2, 1) == [0, 1];
    assert NodeValue(Minimizer, g, ev, 3, 0, 0) == 5.0;
    assert NodeValue(Minimizer, g, ev, 4, 0, 0) == 5.0;
    assert NodeValue(Minimizer, g, ev, 5, 0, 0) == 3.0;
    assert ChildValues(Minimizer, g, ev, 1, 1, 1) == [5.0];
    assert ChildValues(Minimizer, g, ev, 2, 1, 1) == [5.0, 3.0];
    assert NodeValue(Minimizer, g, ev, 1, 1, 1) == 5.0;
    assert NodeValue(Minimizer, g, ev, 2, 1, 1) == 3.0;
    assert ChildValues(Minimizer, g, ev, 0, 1, 0) == [5.0, 3.0];
  }

  /** With the source's cutoff the ghost's node after move 1 is searched with
      alpha 5, stops after its first child (worth 5) and reports 5; that ties
      the running best, and when the tie-break takes the challenger the
      agent returns move 1, which is worth 3 while the root is worth 5. */
  lemma AsWrittenReturnsNonMinimaxAction()
    ensures var g := TieAfterCutoffGame();
            var ev := TieAfterCutoffScore;
      && Search(AtBound, g, ev, AlwaysChallenger, [], 0, 1, 0, NegInf, PosInf) == Outcome(5.0, Some(1), 2)
      && ChildValue(Minimizer, g, ev, 0, 1, 0, 1) == 3.0
      && NodeValue(Minimizer, g, ev, 0, 1, 0) == 5.0
  {
    var g := TieAfterCutoffGame();
    var ev := TieAfterCutoffScore;
    var coin := AlwaysChallenger;
    TieAfterCutoffValues();
    assert ChildValues(Minimizer, g, ev, 0, 1, 0)[1] == ChildValue(Minimizer, g, ev, 0, 1, 0, 1);
    assert NextTurn(2, 1, 1) == Turn(0, 0);
    assert g.legal(0, 0) == [0, 1];
    assert g.legal(1, 1) == [0];
    assert g.legal(2, 1) == [0, 1];
    assert Search(AtBound, g, ev, coin, [0], 1, 1, 1, NegInf, PosInf).value == 5.0 by {
      assert Search(AtBound, g, ev, coin, [0, 0], 3, 0, 0, NegInf, PosInf).value == 5.0;
      assert MinLoop(AtBound, g, ev, coin, [0], 1, 1, 1, NegInf, 0, PosInf, None).value == 5.0;
    }
    assert MaxUpdate(NegInf, None, 5.0, 0, true) == (Fin(5.0), Some(0));
    assert Search(AtBound, g, ev, coin, [1], 2, 1, 1, Fin(5.0), PosInf) == Outcome(5.0, Some(0), 1) by {
      assert Search(AtBound, g, ev, coin, [1, 0], 4, 0, 0, Fin(5.0), PosInf).value == 5.0;
      assert MinUpdate(PosInf, None, 5.0, 0, true) == (Fin(5.0), Some(0));
      assert MinLoop(AtBound, g, ev, coin, [1], 2, 1, 1, Fin(5.0), 0, PosInf, None) == Outcome(5.0, Some(0), 1);
    }
    assert MaxUpdate(Fin(5.0), Some(0), 5.0, 1, true) == (Fin(5.0), Some(1));
    assert MaxLoop(AtBound, g, ev, coin, [], 0, 1, PosInf, 1, Fin(5.0), Some(0)) == Outcome(5.0, Some(1), 2);
    assert MaxLoop(AtBound, g, ev, coin, [], 0, 1, PosInf, 0, NegInf, None) == Outcome(5.0, Some(1), 2);
  }

  /** With the strict cutoff the agent returns move 0 on the same game,
      whatever the tie-break. */
  lemma StrictReturnsMinimaxAction(coin: seq<nat> -> bool)
    ensures var g := TieAfterCutoffGame();
            var ev := TieAfterCutoffScore;
      Search(BeyondBound, g, ev, coin, [], 0, 1, 0, NegInf, PosInf).action == Some(0)
  {
    var g := TieAfterCutoffGame();
    var ev := TieAfterCutoffScore;
    TieAfterCutoffValues();
    assert g.legal(0, 0) == [0, 1];
    StrictRootActionIsMinimax(g, ev, coin, 0, 1);
    assert ChildValues(Minimizer, g, ev, 0, 1, 0)[1] == ChildValue(Minimizer, g, ev, 0, 1, 0, 1);
  }

}
