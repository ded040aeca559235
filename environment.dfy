/** The game the agents search: an opaque state type `S` and action type `A`
    with the queries Pacman's `GameState` answers. Agent 0 is Pacman, agents
    1 .. numAgents-1 are the ghosts. */
module Environment {

  /** `isWin`, `isLose`, `getLegalActions(agentIndex)`,
      `generateSuccessor(agentIndex, action)` and `getScore` of a game state,
      and the number of agents, which stays the same throughout a game. */
  datatype Game<!S, !A> = Game(
    numAgents: nat,
    isWin: S -> bool,
    isLose: S -> bool,
    legal: (S, nat) -> seq<A>,
    succ: (S, nat, A) -> S,
    score: S -> real)

  /** The search needs Pacman and at least one ghost: Pacman always hands
      over to agent 1 and only agent numAgents-1 hands back to Pacman. */
  predicate WellFormed<S, A>(g: Game<S, A>) {
    g.numAgents >= 2
  }

  /** The test every search node makes first: Pacman won, Pacman lost, or the
      agent to move has no legal action. */
  predicate Terminal<S, A>(g: Game<S, A>, s: S, agent: nat) {
    g.isWin(s) || g.isLose(s) || |g.legal(s, agent)| == 0
  }

  /** Whose move it is and how many rounds remain. */
  datatype Turn = Turn(depth: nat, agent: nat)

  /** Turn rotation: the next agent is agent+1, except that after the last
      ghost it is Pacman again and one round fewer remains. */
  function NextTurn(n: nat, depth: nat, agent: nat): (t: Turn)
    requires 2 <= n && agent < n && depth >= 1
    ensures t.agent < n
  {
    if agent == 0 then Turn(depth, 1)
    else if agent == n - 1 then Turn(depth - 1, 0)
    else Turn(depth, agent + 1)
  }

  /** The agents move in the cyclic order 0, 1, .., n-1, 0, .., and a round
      is used up exactly when the turn comes back to Pacman. */
  lemma NextTurnRotates(n: nat, depth: nat, agent: nat)
    requires 2 <= n && agent < n && depth >= 1
    ensures NextTurn(n, depth, agent).agent == (agent + 1) % n
    ensures NextTurn(n, depth, agent).depth == if (agent + 1) % n == 0 then depth - 1 else depth
  {
  }
}
