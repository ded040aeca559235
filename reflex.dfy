/** `ReflexAgent`: scores each of Pacman's legal moves with an evaluation
    function and plays one of the best, chosen at random. */
module Reflex {
  import opened Wrappers
  import opened Scores
  import opened Environment
  import opened SearchAgents

  /** `ReflexAgent.evaluationFunction`: the score of the state Pacman reaches
      with the move. */
  function SuccessorScore<S, A>(g: Game<S, A>, gameState: S, action: A): real {
    g.score(g.succ(gameState, PacmanIndex, action))
  }

  /** The indices whose score is exactly `best`: every such index and no other. */
  function BestIndices(scores: seq<real>, best: real): (r: seq<nat>)
    ensures forall i :: i in r <==> 0 <= i < |scores| && scores[i] == best
  {
    if |scores| == 0 then []
    else
      var n := |scores| - 1;
      var rest := BestIndices(scores[..n], best);
      assert forall i :: 0 <= i < n ==> scores[..n][i] == scores[i];
      if scores[n] == best then rest + [n] else rest
  }

  /** `ReflexAgent.getAction`, scoring moves with `SuccessorScore`. With no
      legal move, `max` of the empty list of scores raises; otherwise the
      result is a legal move whose successor scores at least as well as the
      successor of every legal move. */
  method GetAction<S, A>(g: Game<S, A>, gameState: S)
    returns (r: Result<A>)
    ensures r.Error? <==> |g.legal(gameState, PacmanIndex)| == 0
    ensures r.Error? ==> r.message == "max() arg is an empty sequence"
    ensures r.Ok? ==> r.value in g.legal(gameState, PacmanIndex)
    ensures r.Ok? ==> forall a :: a in g.legal(gameState, PacmanIndex) ==>
      SuccessorScore(g, gameState, a) <= SuccessorScore(g, gameState, r.value)
  {
    var legalMoves := g.legal(gameState, PacmanIndex);
    var scores := seq(|legalMoves|, i requires 0 <= i < |legalMoves| => SuccessorScore(g, gameState, legalMoves[i]));
    if |scores| == 0 {
      return Error("max() arg is an empty sequence");
    }
    var bestScore := MaxOf(scores);
    var bestIndices := BestIndices(scores, bestScore);
    var j :| 0 <= j < |scores| && scores[j] == bestScore;
    assert j in bestIndices;
    var chosenIndex :| chosenIndex in bestIndices;
    forall a | a in legalMoves
      ensures SuccessorScore(g, gameState, a) <= SuccessorScore(g, gameState, legalMoves[chosenIndex])
    {
      var i :| 0 <= i < |legalMoves| && legalMoves[i] == a;
      assert scores[i] == SuccessorScore(g, gameState, a);
    }
    return Ok(legalMoves[chosenIndex]);
  }
}
