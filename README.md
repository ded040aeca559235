# Pacman multi-agent search, modelled in Dafny

This project models the adversarial search agents of the Pacman multi-agent
assignment (`submission.py`):

- the reflex agent, which plays one of the legal moves whose successor
  scores best;
- the default evaluation function, which is the state's score, and the
  agent configuration shared by all search agents;
- the three depth-limited search agents:
  - minimax: Pacman maximises and every ghost minimises;
  - alpha-beta: minimax with pruning, the running best passed down as the
    child's bound;
  - expectimax: every ghost is a uniform chance node.

The game itself (Pacman's `GameState`) is abstract. `Environment.Game` holds:
- the number of agents;
- the win and lose tests;
- the legal actions per agent;
- the successor function;
- the score.

Agent 0 is Pacman and agents 1 .. n-1 are the ghosts.

`SearchTree.NodeValue` is the specification the search agents are proved
against. It is the value of a node of the depth-limited game tree:
1. a terminal state (won, lost, or no legal move for the agent to move)
   reports its score;
2. otherwise the depth limit reports the evaluation function;
3. otherwise Pacman takes the maximum of its children's values, and a ghost
   takes the minimum (minimax) or the average (expectimax).

The agents' `recurse` functions are modelled as recursive methods with the
source's loops. What is proved of each:
- minimax and expectimax return `NodeValue` at every node, and a legal
  action below the depth limit. At Pacman's node, and at every minimax node,
  that action achieves the value.
- alpha-beta's `recurse` returns exactly what `AlphaBeta.Search` computes,
  together with a legal action.
  - That value is exact when the node's minimax value lies inside its
    window; outside the window it lies between that value and the bound.
    With the full window, at the root, it is exact.
  - The root's action achieves the root value only with the corrected
    cutoff `BeyondBound` described under "Findings".

Alpha-beta is also specified by a pure function, `AlphaBeta.Search`, that
mirrors the loop step by step. The window-soundness lemma proves that each
node's report is exact inside its window, and lies between the true value
and the bound outside it. The stopping lemma states which children the loop
examines before it cuts off, and the node-count lemma that alpha-beta
visits no more nodes than the full game tree has, and strictly fewer
whenever a cutoff skips a child. Random tie-breaking takes one of two forms:
- minimax, expectimax and the reflex agent use a nondeterministic choice
  (`:|`), so what is proved holds for every choice;
- alpha-beta reads a coin oracle indexed by the node's position in the tree,
  and what is proved holds for every oracle.

## Model

| member | source | states |
|---|---|---|
| Environment.NextTurnRotates | submission.py:192-199 | after agent i comes agent (i+1) mod n, and exactly when play returns to Pacman one round is used up |
| Environment.NextTurn | submission.py:180-199 | the agent that moves after `agent` and the depth it searches with: Pacman hands over to agent 1 at the same depth, the last ghost to Pacman one round lower, any other ghost to the next ghost; its contract states that the next agent is below n, and `NextTurnRotates` states the rotation |
| Environment.Terminal | submission.py:168 | a state is terminal when it is won, lost, or the agent to move has no legal action; no contract of its own, proved about it: `SearchTree.TerminalPrecedence`, `AlphaBeta.SearchStops` |
| SearchAgents.ScoreEvaluation | submission.py:92-100 | the default evaluation function returns the state's score |
| SearchAgents.BetterEvaluation | submission.py:348-353 | the richer evaluation function always fails with "Not implemented yet" |
| SearchAgents.DefaultSearchAgentConfig | submission.py:117-120 | the agent built with the default arguments searches 2 rounds and evaluates a state by its score |
| Reflex.GetAction | submission.py:61-70 | with no legal move it fails, because max of an empty list raises; otherwise it returns a legal move whose successor's score is at least that of every legal move's successor |
| Reflex.BestIndices | submission.py:66 | the result holds every index whose score equals the best score, and no other index |
| Reflex.SuccessorScore | submission.py:72-89 | the reflex evaluation of an action: the score of the successor Pacman reaches with it; no contract of its own, proved about it: `Reflex.GetAction` returns an action maximising it |
| Scores.MaxOf | submission.py:183 | the maximum of a non-empty list is one of its elements and is at least every element |
| Scores.MinOf | submission.py:200 | the minimum of a non-empty list is one of its elements and is at most every element |
| Scores.SumScale | submission.py:326-336 | summing the weighted values equals the weight times the sum of the values |
| SearchTree.TerminalPrecedence | submission.py:168-169 | a terminal state is worth its score, whatever the depth left and the evaluation function |
| SearchTree.DepthCutoff | submission.py:171-172 | a non-terminal state at depth 0 is worth its evaluation |
| SearchTree.MaxNodeValue | submission.py:175-185 | Pacman's node is at least every child's value, and some legal action reaches that value |
| SearchTree.MinNodeValue | submission.py:188-202 | a minimax ghost node is at most every child's value, and some legal action reaches that value |
| SearchTree.ChanceIsAverage | submission.py:319-334 | a chance node's weighted sum is the mean of its children's values, so it lies between their minimum and maximum |
| SearchTree.Walk | submission.py:167-199 | every root-to-leaf path stops at a terminal state or at the depth limit; a path that reaches the depth limit has taken exactly depth times n minus agent plies |
| SearchTree.TieBreakList | submission.py:184 | the tied list holds every choice whose value equals the best value, and only such choices |
| SearchTree.TreeSize | submission.py:167-202 | the number of nodes of the depth-limited game tree, which the minimax `recurse` visits in full since it expands every child; it is at least 1, and `AlphaBeta.SearchVisitsBound` compares alpha-beta with it |
| SearchTree.ChildrenSize | submission.py:175-202 | the number of nodes below the remaining children of a node, summed over its legal actions in order; no contract of its own, proved about it: `AlphaBeta.MaxLoopVisitsBound`, `AlphaBeta.MinLoopVisitsBound` |
| Minimax.Recurse | submission.py:167-202 | returns the minimax value; score and no action at a terminal state; evaluation and no action at depth 0; otherwise a legal action whose child has the returned value |
| Minimax.MaxNode | submission.py:175-185 | Pacman's turn returns the maximum of the children's values and a legal action that achieves it |
| Minimax.MinNode | submission.py:188-202 | a ghost's turn returns the minimum of the children's values and a legal action that achieves it |
| Minimax.GetAction | submission.py:164-206 | the root's value is its minimax value; there is no action exactly when the root is terminal or depth is 0; a returned action is legal and achieves the root value |
| AlphaBeta.MaxUpdate | submission.py:241-244 | Pacman's running best becomes the larger of the old best and the child's value; the action changes only to the child's, and always does when the child is strictly better |
| AlphaBeta.MinUpdate | submission.py:261-264 | a ghost's running best becomes the smaller of the old best and the child's value; the action changes only to the child's, and always does when the child is strictly worse |
| AlphaBeta.Search | submission.py:226-278 | the value, action and number of searched children of `recurse` with window (alpha, beta); no contract of its own, proved about it: `SearchSound`, `SearchStops`, `RootValue`, `StrictRootActionIsMinimax`, and `Recurse` returns it |
| AlphaBeta.MaxLoop | submission.py:235-247 | Pacman's loop from a given child on, stopping after the child whose update fails high against beta; no contract of its own, proved about it: `MaxLoopSound`, `MaxLoopStops`, `MaxLoopLegal`, `StrictMaxLoopExact`, and `MaxNode` returns it |
| AlphaBeta.MinLoop | submission.py:250-278 | a ghost's loop from a given child on, stopping after the child whose update fails low against alpha; no contract of its own, proved about it: `MinLoopSound`, `MinLoopStops`, `MinLoopLegal`, and `MinNode` returns it |
| AlphaBeta.SearchSound | submission.py:226-278 | a node searched with an open window reports its exact minimax value when that value is inside the window; when the value fails high the report also fails high and is at most the value; failing low is symmetric |
| AlphaBeta.MaxLoopSound | submission.py:235-247 | Pacman's loop reports soundly for its window, relative to the maximum of the children's minimax values |
| AlphaBeta.MinLoopSound | submission.py:250-278 | a ghost's loop reports soundly for its window, relative to the minimum of the children's minimax values |
| AlphaBeta.MaxChild | submission.py:238-246 | after one more child, Pacman's running best is the running maximum of the true child values, or else it has already failed high, below that child's value |
| AlphaBeta.MinChild | submission.py:255-275 | after one more child, a ghost's running best is the running minimum of the true child values, or else it has already failed low, above that child's value |
| AlphaBeta.FirstFailHigh | submission.py:245 | the first prefix length from k whose running maximum fails high, or all children if none does |
| AlphaBeta.FirstFailLow | submission.py:265 | the first prefix length from k whose running minimum fails low, or all children if none does |
| AlphaBeta.MaxLoopStops | submission.py:237-247 | Pacman's loop examines exactly `FirstFailHigh` of the children's minimax values |
| AlphaBeta.MinLoopStops | submission.py:252-278 | a ghost's loop examines exactly `FirstFailLow` of the children's minimax values |
| AlphaBeta.MaxLoopLegal | submission.py:237-247 | Pacman's loop returns a legal action |
| AlphaBeta.MinLoopLegal | submission.py:252-278 | a ghost's loop returns a legal action |
| AlphaBeta.SearchStops | submission.py:226-278 | terminal and depth-0 nodes report score or evaluation and no action; any other node returns a legal action; its children are searched in order up to the first at which the running best of their minimax values leaves the window, and no further |
| AlphaBeta.RootValue | submission.py:280-282 | with window minus infinity to infinity the root reports its minimax value |
| AlphaBeta.StrictMaxLoopExact | submission.py:237-247 | with the strict cutoff and an infinite beta, Pacman's loop keeps an action whose child is worth the maximum of all children's values |
| AlphaBeta.StrictRootActionIsMinimax | submission.py:237-247 | with the strict cutoff the root returns a legal action whose child is worth the root's minimax value |
| AlphaBeta.SearchVisitsBound | submission.py:226-278 | alpha-beta visits at most as many nodes as the full game tree has, and strictly fewer exactly when some visited node stopped before its last child; in particular whenever a node searches fewer children than it has |
| AlphaBeta.MaxLoopVisitsBound | submission.py:235-247 | the nodes Pacman's loop visits are at most those below its remaining children, strictly fewer exactly when a cutoff skipped a child somewhere below; a loop that stops before its last child has pruned |
| AlphaBeta.MinLoopVisitsBound | submission.py:250-278 | the nodes a ghost's loop visits are at most those below its remaining children, strictly fewer exactly when a cutoff skipped a child somewhere below; a loop that stops before its last child has pruned |
| AlphaBeta.SearchVisits | submission.py:226-278 | the number of nodes `recurse` visits with window (alpha, beta), and whether one of them stopped before its last child; no contract of its own, proved about it: `SearchVisitsBound` |
| AlphaBeta.MaxLoopVisits | submission.py:235-247 | the nodes Pacman's loop visits below the children it searches; no contract of its own, proved about it: `MaxLoopVisitsBound` |
| AlphaBeta.MinLoopVisits | submission.py:250-278 | the nodes a ghost's loop visits below the children it searches; no contract of its own, proved about it: `MinLoopVisitsBound` |
| AlphaBeta.Recurse | submission.py:226-278 | returns exactly `Search`'s value and action |
| AlphaBeta.MaxNode | submission.py:235-247 | Pacman's loop with its early return returns exactly `MaxLoop`'s value and action, and has searched exactly `MaxLoop`'s number of children when it returns, so it stops where `MaxLoopStops` says |
| AlphaBeta.MinNode | submission.py:250-278 | a ghost's loop with its early return returns exactly `MinLoop`'s value and action, and has searched exactly `MinLoop`'s number of children when it returns, so it stops where `MinLoopStops` says |
| AlphaBeta.GetAction | submission.py:218-284 | the root's value is the minimax value; there is no action exactly when the root is terminal or depth is 0; a returned action is legal; with the strict cutoff it also achieves the root value |
| AlphaBeta.SameRootValue | submission.py:218-284 | the minimax agent and the alpha-beta agent compute the same root value |
| Expectimax.Recurse | submission.py:301-339 | returns the expectimax value; score and no action at a terminal state; evaluation and no action at depth 0; otherwise a legal action, which at Pacman's node achieves the value |
| Expectimax.MaxNode | submission.py:309-318 | Pacman's turn returns the maximum of the children's expectimax values and a legal action that achieves it |
| Expectimax.ChanceNode | submission.py:321-339 | a ghost's turn returns the sum of the children's values, each weighted by one over the number of legal actions, and one of the legal actions |
| Expectimax.GetAction | submission.py:290-343 | the root's value is its expectimax value; there is no action exactly when the root is terminal or depth is 0; a returned action is legal and achieves the root value |
| Scenarios.TwoChoiceValues | submission.py:321-339 | on a ghost choosing between scores 3 and 5, the minimax value is 3 and the expectimax value 4 |
| Scenarios.ThreeAgentsTwoRounds | submission.py:193-199 | with three agents and depth 2, any path that reaches the depth limit has taken six plies |
| Scenarios.AsWrittenReturnsNonMinimaxAction | submission.py:241-245 | the as-written cutoff on a small game returns root value 5 with action 1, whose child is worth 3 |
| Scenarios.StrictReturnsMinimaxAction | submission.py:241-245 | with the strict cutoff the same game returns action 0, whatever the coin |

## Left out

- The game state is abstract: its food, capsules, ghost states, layout and
  score bookkeeping are not part of this model.
- `util.lookup` is not modelled: the agent's evaluation function is passed
  directly as a function value.
- The depth string is not parsed: the depth is taken to be a non-negative
  integer.
- ReflexAgent's `__init__` fields (`lastPositions`, `dc`) are left out,
  because nothing reads them.
- ReflexAgent's evaluation function reads the new position, the old food
  and the scared timers and never uses them. Only its result, the
  successor's score, is modelled.
- `generatePacmanSuccessor(action)` is taken to be `generateSuccessor(0, action)`.
- Randomness is not modelled as a probability distribution:
  - `random.choice` and `random.randint` become nondeterministic choices;
  - in alpha-beta they become the `coin` oracle.
  Uniformity is therefore not stated.
- Floating point becomes exact reals. `float("inf")` and `-float("inf")`
  become the `ExtReal` infinities.
- Python compares alpha-beta's bound, a (value, action) tuple, with a
  number. Under Python 2, integer division `1/len` gives 0 whenever a ghost
  has two or more legal actions. Both are modelled as intended: the bound is
  the tuple's value, and `1/len` is real division.
- Python's `max` and `min` over (value, action) tuples break ties on the
  action. Those ties are filtered out by the tie-break list that follows,
  so the model compares values only.
- The number of agents is a constant of the game, and the game must have at
  least 2 agents.
- The depth is a natural number, so a negative depth is not modelled. In
  the source, a negative depth never meets the cutoff test
  `currentDepth == 0` (line 171). The recursion then ends only at states
  that are won, lost or without legal moves. Pacman's Stop move is always
  legal (lines 139-140), so the search runs until the game ends on every
  path.
- Alpha-beta updates its own `alpha` at Pacman's node and `beta` at a
  ghost's node, but never reads them again. The model keeps these stores
  and proves nothing about them.
- AlphaBeta.GetAction: with the cutoff as written, only the root value and
  the legality of the action are proved, not that the action achieves the
  value; see "Findings".
- Minimax.Recurse: the number of nodes it visits is not stated as a
  contract of the method; `SearchTree.TreeSize` counts them by the same
  recursion, which expands every legal action.
- Expectimax.ChanceNode: the returned action is only proved to be legal.
  The source picks it at random, regardless of value.

## Findings

| source | as written | input that shows it | evidently intended | confidence | as-written member | corrected member |
|---|---|---|---|---|---|---|
| submission.py:241-245 | Pacman's node stops when its running best is `>= beta`. The child was searched with the running best as its alpha and also stops at `<= alpha`. A child that ties the running best may therefore report a value equal to its alpha while its true value is lower. The random tie-break can then adopt that child's action. (Lines 261-265 and 271-275 are symmetric.) | `Scenarios.TieAfterCutoffGame`, depth 1, coin always taking the challenger: the root value is 5, but the returned action 1 leads to a ghost node worth 3 | the chosen action is a minimax action, as for `MinimaxAgent`: stop only strictly beyond the bound | not executed | Scenarios.AsWrittenReturnsNonMinimaxAction | AlphaBeta.StrictRootActionIsMinimax |
