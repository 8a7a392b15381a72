# Sliding-tile puzzle solver — Dafny model

This project models the core of a small N-puzzle solver. A board is a tuple
of tile labels in row-major order, and 0 is the blank. The model covers:

- The move generator: `get_legal_actions` and `apply_action`.
- The three deterministic searches:
  - `BreadthFirstSearch`.
  - `FirstBestSearch`, a greedy best-first search.
  - `AStarSearch`.
- Path reconstruction from parent links (`reconstruct_path`).
- The loop that re-derives one action per step of the found path.
- The three heuristics: the example (null) heuristic, Hamming and Manhattan.

Modules follow the program's structure:

| module | file | what it holds |
|---|---|---|
| `Wrappers` | `wrappers.dfy` | `Option` and `Result` |
| `Board` | `board.dfy` | The blank index, legal actions and applying an action, with grid facts about them. |
| `Heuristics` | `heuristics.dfy` | `get_evaluation` of each heuristic, as loop methods and as recursive reference definitions. |
| `Frontier` | `frontier.dfy` | Queue entries, the `(score, state)` order used by the informed searches, and their sorted insert. |
| `Paths` | `paths.dfy` | `reconstruct_path`, the action re-derivation loop, and runs of actions. |
| `Search` | `search.dfy` | One `Solve` loop for the three searches, over a `Strategy` value. |

The three `get_steps` methods share one loop:
- It pops the front entry and computes its legal actions.
- If the entry is the goal, it stops. If the goal entry has no parent, the search raises a KeyError; otherwise it reconstructs the path and re-derives its actions.
- Otherwise, if the state has not been visited, it records the parent, marks the state visited and expands it.

The searches differ only in two things:
- The child's score: none for breadth-first, `h(child)` for greedy, and `h(child) + score - h(state) + 1` for A*.
- Where children go: appended at the back for breadth-first, inserted in `(score, state)` order for the other two.

Main results:
- A solution's actions are legal and replay the path from the initial state to the goal.
- The path is a chain of legal moves.
- An A* solution's final score is the goal's heuristic plus the number of moves.
- The only KeyError is an initial state that already is the goal.
- Moves are invertible.
- On a square board the number of legal actions is 2, 3 or 4 by position.
- A legal move changes the Manhattan distance by exactly one.
- Hamming never exceeds Manhattan.
- Both heuristics are 0 on the goal layout, and Manhattan is 0 exactly when every tile is in its goal cell.
- The sorted insert keeps the frontier sorted and is a permutation.

## Model

| member | source | states |
|---|---|---|
| `Board.BlankIndex` | pythonProject/algorithms.py:25 | The result holds the blank, and no earlier cell does: the first blank, as `state.index(0)` finds it. |
| `Board.LegalActions` | pythonProject/algorithms.py:22-35 | Every returned action is a cell index of the board. |
| `Board.InLegalActions` | pythonProject/algorithms.py:27-34 | An index is a legal action iff it lies inside the board and passes one of the four guards (up, right with `% N`, down, left with `% N`). |
| `Board.GuardedIffGridDistanceOne` | pythonProject/algorithms.py:27-34 | The four guards together accept exactly the cells at grid distance one from the blank, so `% N` stops right and left moves from wrapping across rows. |
| `Board.LegalActionsAreGridNeighbours` | pythonProject/algorithms.py:22-35 | An index is a legal action iff it is a board cell that neighbours the blank on the grid, for any board length. |
| `Board.LegalActionCount` | pythonProject/algorithms.py:22-35 | On an N×N board, the number of legal actions is the number of board sides the blank's row and column do not touch. |
| `Board.LegalActionCountByPosition` | pythonProject/algorithms.py:22-35 | For N ≥ 2: 2 legal actions from a corner, 3 from an edge, 4 from the interior. |
| `Board.LegalActionsInFixedOrder` | pythonProject/algorithms.py:27-34 | Actions come in the order up, right, down, left. |
| `Board.Apply` | pythonProject/algorithms.py:37-42 | The result has the same length, the blank at the action's cell, and the moved tile at the old blank cell. |
| `Board.ApplyPermutes` | pythonProject/algorithms.py:39-41 | Every other cell is unchanged, the tiles are a permutation of the input, and a board with one blank keeps exactly one. |
| `Board.BlankMoves` | pythonProject/algorithms.py:40-41 | On a board with one blank, after a move the blank is found at the action's cell. |
| `Board.MoveIsInvertible` | pythonProject/algorithms.py:22-42 | After a legal move, moving the blank back is legal and restores the original board. |
| `Heuristics.Evaluate` | pythonProject/heuristics.py:3-10 | Every heuristic value is non-negative; the example heuristic is always 0. |
| `Heuristics.HammingEvaluation` | pythonProject/heuristics.py:13-24 | The loop, with its counter `j`, returns the recursive reference count of misplaced tiles. |
| `Heuristics.HammingCountsMisplaced` | pythonProject/heuristics.py:17-23 | Hamming equals the number of indices whose tile is neither the blank nor `i + 1`. |
| `Heuristics.HammingBounds` | pythonProject/heuristics.py:17-24 | On a board with a blank, Hamming lies between 0 and length − 1. |
| `Heuristics.HammingZeroOnGoal` | pythonProject/heuristics.py:13-24 | Hamming is 0 on the layout (1, …, len − 1, 0). |
| `Heuristics.ISqrt` | pythonProject/heuristics.py:31 | The result is the floor square root: r² ≤ m < (r+1)². |
| `Heuristics.ISqrtOfSquare` | pythonProject/heuristics.py:31 | On an N×N board, the side the heuristic computes is N. |
| `Heuristics.ManhattanEvaluation` | pythonProject/heuristics.py:27-40 | The loop, with truncating `int(x / n)` and `%`, returns the recursive reference sum of tile distances. |
| `Heuristics.TileDistanceZeroIff` | pythonProject/heuristics.py:34-38 | With non-negative labels, a cell contributes 0 iff it holds the blank or tile `i + 1`. |
| `Heuristics.ManhattanZeroIff` | pythonProject/heuristics.py:27-40 | With non-negative labels, Manhattan is 0 iff every tile `t` sits at index `t − 1`. |
| `Heuristics.ManhattanZeroOnGoal` | pythonProject/heuristics.py:27-40 | Manhattan is 0 on the layout (1, …, len − 1, 0). |
| `Heuristics.HammingAtMostManhattan` | pythonProject/heuristics.py:13-40 | With non-negative labels, Hamming ≤ Manhattan. |
| `Heuristics.DistanceBeforeAfterSwap` | pythonProject/heuristics.py:33-38 | Two boards that differ in two cells have Manhattan sums that differ by exactly the change at those cells. |
| `Heuristics.StepShiftsTileDistance` | pythonProject/heuristics.py:37-38 | Moving a tile one grid step changes its distance from home by +1 or −1. |
| `Heuristics.ManhattanMoveChangesByOne` | pythonProject/heuristics.py:27-40 | On an N×N board with one blank, every legal move changes Manhattan by exactly +1 or −1. |
| `Frontier.LexLessTransitive` | pythonProject/algorithms.py:130 | Python's tuple order on boards is transitive. |
| `Frontier.LexLessTotal` | pythonProject/algorithms.py:130 | Python's tuple order on boards is total: of two distinct boards, one is smaller. |
| `Frontier.LexLessIrreflexive` | pythonProject/algorithms.py:130 | No board is smaller than itself. |
| `Frontier.KeyLessTransitive` | pythonProject/algorithms.py:126-132 | The (score, board) order used for insertion is transitive. |
| `Frontier.InsertionPoint` | pythonProject/algorithms.py:124-134 | The scan stops at the first entry with a strictly greater key, or at the end. Every entry before it has a key no greater. |
| `Frontier.Insert` | pythonProject/algorithms.py:121-134 | One more entry, and the result is a permutation of the old queue plus the new entry. |
| `Frontier.InsertShape` | pythonProject/algorithms.py:125-134 | The new entry sits at the insertion point, the entries before it are unchanged, and the entries after it shift by one. |
| `Frontier.InsertedFits` | pythonProject/algorithms.py:126-132 | In a sorted queue, the new entry is not below any entry before its insertion point, and not above any entry after it. |
| `Frontier.InsertKeepsSorted` | pythonProject/algorithms.py:117-134 | Inserting into a sorted queue keeps it sorted, with equal keys first-come first-served. |
| `Frontier.InsertAll` | pythonProject/algorithms.py:169-185 | Inserting all children keeps a sorted queue sorted, adds exactly the children, and adds their count to the length. |
| `Paths.FirstConnecting` | pythonProject/algorithms.py:91-94 | The inner `for action` loop finds the first action that yields the next state. It finds none iff no action does. |
| `Paths.FirstConnectingFinds` | pythonProject/algorithms.py:91-94 | If the next state is one legal move away, the scan finds a legal action that produces it. |
| `Paths.DeriveActions` | pythonProject/algorithms.py:87-95 | There is at most one action per step of the path. |
| `Paths.DeriveActionsReplaysPath` | pythonProject/algorithms.py:87-95 | On a chain of legal moves, there is exactly one action per step, each action is legal where applied, and replaying them from the first state reaches the last. |
| `Paths.MovesAreSuccessors` | pythonProject/algorithms.py:22-42 | One state is a move from another iff some legal action produces it. |
| `Paths.Walk` | pythonProject/algorithms.py:9-11 | A missing parent is the KeyError. A successful walk lists recorded states, each the parent of the next, ending at the goal's parent. |
| `Paths.ReconstructPath` | pythonProject/algorithms.py:7-13 | No parent means KeyError. Otherwise the path runs from start to goal, its last inner state is the goal's parent, and each inner state is the recorded parent of its successor. |
| `Paths.WalkSucceeds` | pythonProject/algorithms.py:9-11 | When links are labelled with decreasing depths, the walk succeeds after exactly `depth[p]` lookups. |
| `Paths.ReconstructSucceeds` | pythonProject/algorithms.py:7-13 | On depth-labelled links, reconstruction succeeds with `depth[p] + 2` states. |
| `Search.Children` | pythonProject/algorithms.py:117-120 | One child per legal action, in the order of the legal actions: child `i` is the parent with action `i` applied. Each child is a move from the parent, has a blank, records the parent and carries the strategy's score. |
| `Search.Expand` | pythonProject/algorithms.py:117-134 | Breadth-first appends the children in action order after the old queue, as the `extend` of line 85 does. The informed searches insert them one by one (lines 117-134) and keep a sorted queue sorted. Either way the result holds the old queue plus the children. |
| `Search.ActionsMove` | pythonProject/algorithms.py:169-170 | Every legal action produces a move from the expanded state. |
| `Search.ChildOk` | pythonProject/algorithms.py:169-172 | An A* child's score, built incrementally, equals its heuristic plus its number of moves from the initial state. |
| `Search.ChildrenOk` | pythonProject/algorithms.py:169-172 | Every generated child satisfies the frontier-entry invariant. |
| `Search.DepthLabelledGrows` | pythonProject/algorithms.py:166 | Recording a new state under a recorded parent keeps the links depth-labelled. |
| `Search.MoveLinkedGrows` | pythonProject/algorithms.py:166 | Recording a new state reached by a legal move keeps every link a legal move. |
| `Search.VisitKeepsDiscovered` | pythonProject/algorithms.py:165-167 | Visiting a new state keeps the parent links depth-labelled and move-linked, with depths below the iteration count. |
| `Search.EntryOkGrows` | pythonProject/algorithms.py:165-167 | Recording more states never invalidates an entry already queued. |
| `Search.ExpandMembers` | pythonProject/algorithms.py:169-185 | Every entry of the expanded queue was already queued or is a child. |
| `Search.ExpandKeepsFrontierOk` | pythonProject/algorithms.py:165-185 | After a visit, every queued entry is valid and the informed queue stays sorted. |
| `Search.ReconstructedPathIsLinked` | pythonProject/algorithms.py:163 | The path reconstructed from the recorded links is a chain of legal moves. |
| `Search.GoalPathReplays` | pythonProject/algorithms.py:163-195 | From a recorded parent of the goal, the path has `depth + 2` states, and the re-derived actions replay it from initial to goal. |
| `Search.FinishAtGoal` | pythonProject/algorithms.py:162-164 | At the goal: KeyError iff the entry has no parent. Otherwise the path is linked, the actions replay it, and an A* score equals the goal's heuristic plus the number of moves. |
| `Search.Visit` | pythonProject/algorithms.py:165-185 | Pop-time visit: the parent map gains exactly the popped entry's link, and the queue becomes the expansion of the rest by the entry's children. The search invariant is kept. |
| `Search.PopKeepsFrontierOk` | pythonProject/algorithms.py:160 | After `popleft`, the popped entry and the rest of the queue satisfy the entry invariant. |
| `Search.SearchStarts` | pythonProject/algorithms.py:150-158 | The initial queue `[(initial, None, h(initial))]` with nothing visited satisfies the loop invariant. |
| `Search.Advance` | pythonProject/algorithms.py:165-185 | Popping a non-goal state: an already visited state is dropped and nothing else changes. A new state records its parent, and the rest of the queue is expanded by its children. Either way the loop invariant holds again. |
| `Search.Step` | pythonProject/algorithms.py:159-185 | One iteration ends exactly when the popped state is the goal. It then yields a correct solution, or a KeyError iff initial = goal. Otherwise it performs the pop-time transition of `Advance` and re-establishes the loop invariant. |
| `Search.Solve` | pythonProject/algorithms.py:149-196 | A solution's path runs from the initial state to the goal as a chain of legal moves, its actions replay it, a greedy final score is `h(goal)`, an A* final score is `h(goal) +` the number of actions, and a KeyError happens iff the initial state is the goal. |

## Left out

- `get_solution_steps` (algorithms.py:47-53) times the call and prints a report. Clocks and output are not modelled.
- The counters `nodes_evaluated` and `nodes_generated` (algorithms.py:19-20, 23, 38) only feed that report.
- Greedy best-first's debug loop `for i in range(10): print(queue[i])` (algorithms.py:135-136) is output and is not modelled. As written it raises IndexError whenever fewer than ten entries remain in the queue. The model's `Solve` returns what the search computed before that loop.
- `ExampleAlgorithm` (algorithms.py:56-65) walks at random. Randomness is not modelled.
- The abstract `get_steps` and `get_evaluation` (algorithms.py:44-45, heuristics.py:3-5) have no behaviour of their own.
- `config.N` becomes the parameter `n`. The `config` module is not part of this model.
- `numpy.sqrt` and `int(x / n)` use floating point. The model uses the exact floor square root (`ISqrt`) and exact truncating division (`TruncDiv`). These agree with the floating-point results for boards of realistic size.
- A* discards the value of `self.heuristic.get_evaluation(state)` at algorithms.py:168. That call has no effect, so it is not modelled.
- Python's negative indices: `Apply` requires an action inside the board, which every legal action is.
- `state.index(0)` raises ValueError on a board without a blank. The model states this as the precondition `0 in s` on the initial state; every generated child is proved to have a blank.
- The source loops until the queue is empty. `Solve` runs at most `fuel` iterations and answers `Unfinished` when the bound is reached. No termination, completeness or optimality claims are made.
- `Paths.Walk` has a fuel bound for the `while parent != start` walk. `Solve` passes the iteration count, and `WalkSucceeds` proves that bound is enough, so the walk never runs out of fuel inside the search.
- `Solve`: the source returns a list of actions. The model returns `Solved(path, actions, finalScore)`, `Exhausted` (the source then returns `[]`), `KeyError`, or `Unfinished`. `finalScore` is the local `heuristicValue` when the loop stops. It is exposed so the A* relation can be stated.
- Breadth-first queue entries are pairs without a score. The model gives them score 0, and breadth-first never reads it.
- The `if not queue: queue.extend(...)` branch of the sorted insert is covered by `InsertionPoint` on an empty queue, which gives the same result.
- Board.LegalActions: its own contract says only that actions are board cells. The exact set is stated by `InLegalActions` and `LegalActionsAreGridNeighbours`, and the order by `LegalActionsInFixedOrder`. They are kept separate so the search proofs do not carry them.
- Board.Apply: its own contract gives the swap at the two cells. That every other cell is unchanged and the tiles are permuted is stated by `ApplyPermutes`.
- Paths.DeriveActions: its own contract bounds the number of actions. That there is exactly one action per step, and that they replay the path, is stated by `DeriveActionsReplaysPath` for paths that are chains of legal moves.
