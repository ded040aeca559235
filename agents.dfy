/** The configuration every adversarial search agent shares, and the two
    evaluation functions an agent can be configured with. */
module SearchAgents {
  import opened Wrappers
  import opened Environment

  /** Pacman is always agent 0. */
  const PacmanIndex: nat := 0

  /** What `MultiAgentSearchAgent.__init__` stores: the evaluation function
      applied at the depth limit and the number of rounds to search. */
  datatype SearchAgent<!S> = SearchAgent(evaluationFunction: S -> real, depth: nat)

  /** The default evaluation function: the game's own score. */
  function ScoreEvaluation<S, A>(g: Game<S, A>, s: S): (r: real)
    ensures r == g.score(s)
  {
    g.score(s)
  }

  /** The richer evaluation function is not implemented: it always raises. */
  function BetterEvaluation<S, A>(g: Game<S, A>, s: S): (r: Result<real>)
    ensures r.Error? && r.message == "Not implemented yet"
  {
    Error("Not implemented yet")
  }

  /** The agent built with the default arguments `evalFn =
      'scoreEvaluationFunction'` and `depth = '2'`. */
  function DefaultSearchAgent<S, A>(g: Game<S, A>): SearchAgent<S> {
    SearchAgent(s => ScoreEvaluation(g, s), 2)
  }

  /** The default agent searches two rounds and evaluates a state by its score. */
  lemma DefaultSearchAgentConfig<S, A>(g: Game<S, A>, s: S)
    ensures DefaultSearchAgent(g).depth == 2
    ensures DefaultSearchAgent(g).evaluationFunction(s) == g.score(s)
  {
  }
}
