/**
 * The deterministic searches (`BreadthFirstSearch`, `FirstBestSearch` and
 * `AStarSearch`) as one loop over a strategy: pop the front entry, test it
 * against the goal, mark it visited at pop time, and expand it. The three
 * differ only in the score of a child and in how children join the frontier.
 */
module Search {
  import opened Wrappers
  import opened Board
  import opened Heuristics
  import opened Frontier
  import opened Paths

  datatype Strategy = BreadthFirst | BestFirst(h: Heuristic) | AStar(h: Heuristic)

  /**
   * How a search ends. `Solved` carries the path, the actions the source
   * returns, and the score of the popped goal entry. `Exhausted` is the
   * empty frontier, where the source returns no actions; `KeyError` is the
   * exception `reconstruct_path` raises when the goal is popped without a
   * parent; `Unfinished` means the iteration bound was reached.
   */
  datatype Outcome =
    | Solved(path: seq<State>, actions: seq<int>, finalScore: int)
    | Exhausted
    | KeyError
    | Unfinished

  /** Score of the initial entry (breadth-first entries carry no score; 0 stands in). */
  function SeedScore(strategy: Strategy, s: State): int {
    match strategy
    case BreadthFirst => 0
    case BestFirst(h) => Evaluate(h, s)
    case AStar(h) => Evaluate(h, s)
  }

  /** Score of child `c` of the expanded entry `e`; for A* the incremental recurrence with step cost 1. */
  function ChildScore(strategy: Strategy, e: Entry, c: State): int {
    match strategy
    case BreadthFirst => 0
    case BestFirst(h) => Evaluate(h, c)
    case AStar(h) => Evaluate(h, c) + e.score - Evaluate(h, e.state) + 1
  }

  /** Every legal action of `p` is a move from `p`. */
  lemma ActionsMove(p: State, n: int)
    requires n >= 1 && 0 in p
    ensures forall i :: 0 <= i < |LegalActions(p, n)| ==> IsMove(p, Apply(p, LegalActions(p, n)[i]), n)
  {
    var acts := LegalActions(p, n);
    forall i | 0 <= i < |acts|
      ensures IsMove(p, Apply(p, acts[i]), n)
    {
      InSuccessors(p, acts, Apply(p, acts[i]));
    }
  }

  /** The entries generated from `e`, one per legal action, in the order of the actions. */
  function Children(strategy: Strategy, e: Entry, n: int): (cs: seq<Entry>)
    requires n >= 1 && 0 in e.state
    ensures |cs| == |LegalActions(e.state, n)|
    ensures forall i :: 0 <= i < |cs| ==> cs[i].state == Apply(e.state, LegalActions(e.state, n)[i])
    ensures forall i :: 0 <= i < |cs| ==>
      && cs[i].parent == Some(e.state)
      && IsMove(e.state, cs[i].state, n)
      && 0 in cs[i].state
      && cs[i].score == ChildScore(strategy, e, cs[i].state)
  {
    var acts := LegalActions(e.state, n);
    var cs := seq(|acts|, i requires 0 <= i < |acts| =>
      var c := Apply(e.state, acts[i]);
      Entry(c, Some(e.state), ChildScore(strategy, e, c)));
    ActionsMove(e.state, n);
    cs
  }

  /** Breadth-first appends the children at the back; the informed searches insert them in order. */
  function Expand(strategy: Strategy, e: Entry, rest: seq<Entry>, n: int): (r: seq<Entry>)
    requires n >= 1 && 0 in e.state
    ensures |r| == |rest| + |LegalActions(e.state, n)|
    ensures multiset(r) == multiset(rest) + multiset(Children(strategy, e, n))
    ensures strategy.BreadthFirst? ==> r == rest + Children(strategy, e, n)
    ensures !strategy.BreadthFirst? && Sorted(rest) ==> Sorted(r)
  {
    var cs := Children(strategy, e, n);
    if strategy.BreadthFirst? then rest + cs
    else InsertAll(rest, cs)
  }

  // ---------------------------------------------------------------------
  // Loop invariants
  // ---------------------------------------------------------------------

  /** Every visited state other than the initial one was reached by a legal move from its parent. */
  ghost predicate MoveLinked(initial: State, parents: map<State, Option<State>>, n: int)
    requires n >= 1
  {
    forall k {:trigger parents[k]} :: k in parents && k != initial ==> parents[k].Some? && IsMove(parents[k].value, k, n)
  }

  /**
   * The visited states and their parent links: the initial state has no
   * parent and depth 0; every other visited state was reached by one legal
   * move from a visited parent one level shallower.
   */
  ghost predicate Discovered(initial: State, parents: map<State, Option<State>>, depth: map<State, nat>, n: int)
    requires n >= 1
  {
    && depth.Keys == parents.Keys
    && DepthLabelled(parents, initial, depth)
    && (initial in parents ==> parents[initial] == None)
    && (forall k :: k in parents ==> 0 in k)
    && MoveLinked(initial, parents, n)
  }

  /**
   * A frontier entry: the seed has no parent; any other entry is one move
   * from a visited parent. Greedy scores are the heuristic; A* scores are
   * the heuristic plus the number of moves from the initial state.
   */
  ghost predicate EntryOk(strategy: Strategy, initial: State, parents: map<State, Option<State>>,
                          depth: map<State, nat>, n: int, x: Entry)
    requires n >= 1
  {
    && 0 in x.state
    && (x.parent.None? ==> x.state == initial && x.score == SeedScore(strategy, initial))
    && (x.parent.Some? ==> x.parent.value in parents && x.parent.value in depth && IsMove(x.parent.value, x.state, n))
    && (strategy.BestFirst? ==> x.score == Evaluate(strategy.h, x.state))
    && (strategy.AStar? ==> x.score == Evaluate(strategy.h, x.state) + MovesFromInitial(x, depth))
  }

  /** The number of moves from the initial state to the entry's state along its parent chain. */
  ghost function MovesFromInitial(x: Entry, depth: map<State, nat>): nat {
    match x.parent
    case None => 0
    case Some(p) => if p in depth then depth[p] + 1 else 0
  }

  ghost predicate FrontierOk(strategy: Strategy, initial: State, parents: map<State, Option<State>>,
                             depth: map<State, nat>, n: int, frontier: seq<Entry>)
    requires n >= 1
  {
    && (forall x :: x in frontier ==> EntryOk(strategy, initial, parents, depth, n, x))
    && (!strategy.BreadthFirst? ==> Sorted(frontier))
  }

  lemma DepthLabelledGrows(initial: State, parents: map<State, Option<State>>, depth: map<State, nat>,
                           k: State, v: Option<State>, d: nat)
    requires DepthLabelled(parents, initial, depth) && depth.Keys == parents.Keys && k !in parents
    requires k == initial ==> d == 0
    requires k != initial ==> v.Some? && v.value in parents && d == depth[v.value] + 1
    ensures DepthLabelled(parents[k := v], initial, depth[k := d])
  {
    var parents', depth' := parents[k := v], depth[k := d];
    forall j | j in parents'
      ensures && (j == initial ==> depth'[j] == 0)
              && (j != initial ==> parents'[j].Some? && parents'[j].value in parents'
                                   && depth'[j] == depth'[parents'[j].value] + 1)
    {
      if j != k && j != initial {
        assert parents[j].value in parents;
      }
    }
  }

  lemma MoveLinkedGrows(initial: State, parents: map<State, Option<State>>, n: int, k: State, v: Option<State>)
    requires n >= 1 && MoveLinked(initial, parents, n)
    requires k != initial ==> v.Some? && IsMove(v.value, k, n)
    ensures MoveLinked(initial, parents[k := v], n)
  {
  }

  /** Recording one more state, linked to an already recorded parent, keeps the search invariant. */
  lemma DiscoveredGrows(initial: State, parents: map<State, Option<State>>, depth: map<State, nat>,
                        n: int, k: State, v: Option<State>, d: nat)
    requires n >= 1 && Discovered(initial, parents, depth, n)
    requires 0 in k && k !in parents
    requires k == initial ==> v.None? && d == 0
    requires k != initial ==> v.Some? && v.value in parents && IsMove(v.value, k, n) && d == depth[v.value] + 1
    ensures Discovered(initial, parents[k := v], depth[k := d], n)
  {
    DepthLabelledGrows(initial, parents, depth, k, v, d);
    MoveLinkedGrows(initial, parents, n, k, v);
  }

  /** Recording a newly visited state keeps the parent links depth-labelled and move-linked. */
  lemma VisitKeepsDiscovered(initial: State, parents: map<State, Option<State>>,
                             depth: map<State, nat>, n: int, e: Entry, steps: nat)
    requires n >= 1
    requires Discovered(initial, parents, depth, n)
    requires forall k :: k in depth ==> depth[k] < steps
    requires 0 in e.state
    requires e.parent.None? ==> e.state == initial
    requires e.parent.Some? ==> e.parent.value in parents && IsMove(e.parent.value, e.state, n)
    requires e.state !in parents
    requires e.parent.Some? ==> e.state != initial
    ensures var parents': map<State, Option<State>>, depth': map<State, nat> :=
        parents[e.state := e.parent], depth[e.state := MovesFromInitial(e, depth)];
      && Discovered(initial, parents', depth', n)
      && (forall k :: k in depth' ==> depth'[k] < steps + 1)
  {
    var d: nat := MovesFromInitial(e, depth);
    DiscoveredGrows(initial, parents, depth, n, e.state, e.parent, d);
  }

  /** Old entries stay valid once more states are recorded. */
  lemma EntryOkGrows(strategy: Strategy, initial: State, parents: map<State, Option<State>>,
                     depth: map<State, nat>, n: int, x: Entry, k: State, v: Option<State>, d: nat)
    requires n >= 1 && k !in depth && EntryOk(strategy, initial, parents, depth, n, x)
    ensures EntryOk(strategy, initial, parents[k := v], depth[k := d], n, x)
  {
    if x.parent.Some? {
      assert x.parent.value != k;
    }
  }

  /** A child of an entry whose state is recorded at depth `d` is a valid entry one level deeper. */
  lemma ChildOk(strategy: Strategy, initial: State, parents: map<State, Option<State>>,
                depth: map<State, nat>, n: int, e: Entry, d: nat, x: Entry)
    requires n >= 1 && 0 in e.state
    requires e.state in parents && e.state in depth && depth[e.state] == d
    requires strategy.AStar? ==> e.score == Evaluate(strategy.h, e.state) + d
    requires x.parent == Some(e.state) && IsMove(e.state, x.state, n) && 0 in x.state
    requires x.score == ChildScore(strategy, e, x.state)
    ensures EntryOk(strategy, initial, parents, depth, n, x)
  {
    assert MovesFromInitial(x, depth) == d + 1;
  }

  /** The children of an entry whose state is recorded at depth `d` are valid entries. */
  lemma ChildrenOk(strategy: Strategy, initial: State, parents: map<State, Option<State>>,
                   depth: map<State, nat>, n: int, e: Entry, d: nat)
    requires n >= 1 && 0 in e.state
    requires e.state in parents && e.state in depth && depth[e.state] == d
    requires strategy.AStar? ==> e.score == Evaluate(strategy.h, e.state) + d
    ensures var cs := Children(strategy, e, n);
      forall i :: 0 <= i < |cs| ==> EntryOk(strategy, initial, parents, depth, n, cs[i])
  {
    var cs := Children(strategy, e, n);
    forall i | 0 <= i < |cs|
      ensures EntryOk(strategy, initial, parents, depth, n, cs[i])
    {
      ChildOk(strategy, initial, parents, depth, n, e, d, cs[i]);
    }
  }

  /** Every entry of the expanded frontier comes from the old frontier or is a child. */
  lemma ExpandMembers(strategy: Strategy, e: Entry, rest: seq<Entry>, n: int, x: Entry)
    requires n >= 1 && 0 in e.state && x in Expand(strategy, e, rest, n)
    ensures x in rest || x in Children(strategy, e, n)
  {
    assert x in multiset(Expand(strategy, e, rest, n));
  }

  /** Expanding a newly visited entry keeps every frontier entry valid and the informed frontier sorted. */
  lemma ExpandKeepsFrontierOk(strategy: Strategy, initial: State, parents: map<State, Option<State>>,
                              depth: map<State, nat>, n: int, e: Entry, rest: seq<Entry>)
    requires n >= 1
    requires depth.Keys == parents.Keys
    requires EntryOk(strategy, initial, parents, depth, n, e)
    requires FrontierOk(strategy, initial, parents, depth, n, rest)
    requires e.state !in parents
    ensures var parents': map<State, Option<State>>, depth': map<State, nat> :=
        parents[e.state := e.parent], depth[e.state := MovesFromInitial(e, depth)];
      FrontierOk(strategy, initial, parents', depth', n, Expand(strategy, e, rest, n))
  {
    var d: nat := MovesFromInitial(e, depth);
    var parents', depth' := parents[e.state := e.parent], depth[e.state := d];
    ChildrenOk(strategy, initial, parents', depth', n, e, d);
    forall x | x in rest
      ensures EntryOk(strategy, initial, parents', depth', n, x)
    {
      EntryOkGrows(strategy, initial, parents, depth, n, x, e.state, e.parent, d);
    }
    var cs := Children(strategy, e, n);
    forall x | x in Expand(strategy, e, rest, n)
      ensures EntryOk(strategy, initial, parents', depth', n, x)
    {
      ExpandMembers(strategy, e, rest, n, x);
      if x !in rest {
        var i :| 0 <= i < |cs| && cs[i] == x;
      }
    }
  }

  /** A reconstructed path over depth-labelled, move-linked parents is a chain of legal moves. */
  lemma ReconstructedPathIsLinked(initial: State, goal: State, p: State, parents: map<State, Option<State>>,
                                  depth: map<State, nat>, n: int, fuel: nat)
    requires n >= 1 && Discovered(initial, parents, depth, n) && p in parents && IsMove(p, goal, n)
    requires ReconstructPath(initial, goal, Some(p), parents, fuel).Success?
    ensures Linked(ReconstructPath(initial, goal, Some(p), parents, fuel).value, n)
  {
    var path := ReconstructPath(initial, goal, Some(p), parents, fuel).value;
    forall i | 0 <= i < |path| - 1
      ensures IsMove(path[i], path[i + 1], n)
    {
      if i + 1 < |path| - 1 {
        assert parents[path[i + 1]] == Some(path[i]);
      }
    }
  }

  /**
   * From a visited parent of the goal the reconstruction succeeds, its
   * length is the parent's depth plus two, and the re-derived actions
   * replay it from the initial state to the goal.
   */
  lemma GoalPathReplays(initial: State, goal: State, p: State, parents: map<State, Option<State>>,
                        depth: map<State, nat>, n: int, steps: nat)
    requires n >= 1 && Discovered(initial, parents, depth, n) && p in parents && IsMove(p, goal, n)
    requires forall k :: k in depth ==> depth[k] < steps
    ensures ReconstructPath(initial, goal, Some(p), parents, steps).Success?
    ensures var path := ReconstructPath(initial, goal, Some(p), parents, steps).value;
      && |path| == depth[p] + 2 && path[0] == initial && path[|path| - 1] == goal
      && Linked(path, n)
      && (forall i :: 0 <= i < |path| - 1 ==> 0 in path[i])
      && |DeriveActions(path, n)| == |path| - 1
      && ValidRun(initial, DeriveActions(path, n), n)
      && Run(initial, DeriveActions(path, n), n) == goal
  {
    ReconstructSucceeds(initial, goal, p, parents, depth, steps);
    ReconstructedPathIsLinked(initial, goal, p, parents, depth, n, steps);
    var path := ReconstructPath(initial, goal, Some(p), parents, steps).value;
    DeriveActionsReplaysPath(path, n);
  }

  // ---------------------------------------------------------------------
  // The search loop
  // ---------------------------------------------------------------------

  /**
   * The goal has been popped as entry `e`: reconstruct the path from the
   * parent links and re-derive its actions. Without a parent the source
   * raises a KeyError; otherwise the path is a chain of legal moves whose
   * length the entry's A* score records.
   */
  method FinishAtGoal(strategy: Strategy, initial: State, goal: State, n: int, e: Entry,
                      parents: map<State, Option<State>>, ghost depth: map<State, nat>, steps: nat)
    returns (o: Outcome)
    requires n >= 1 && e.state == goal
    requires Discovered(initial, parents, depth, n)
    requires forall k :: k in depth ==> depth[k] < steps
    requires EntryOk(strategy, initial, parents, depth, n, e)
    ensures o.Solved? || o.KeyError?
    ensures o.KeyError? <==> e.parent.None?
    ensures o.Solved? ==> |o.path| >= 2 && o.path[0] == initial && o.path[|o.path| - 1] == goal
    ensures o.Solved? ==> Linked(o.path, n) && |o.actions| == |o.path| - 1
    ensures o.Solved? ==> ValidRun(initial, o.actions, n) && Run(initial, o.actions, n) == goal
    ensures o.Solved? && strategy.BestFirst? ==> o.finalScore == Evaluate(strategy.h, goal)
    ensures o.Solved? && strategy.AStar? ==> o.finalScore == Evaluate(strategy.h, goal) + |o.actions|
  {
    if e.parent.Some? {
      GoalPathReplays(initial, goal, e.parent.value, parents, depth, n, steps);
    }
    var r := ReconstructPath(initial, goal, e.parent, parents, steps);
    if r.Failure? {
      return KeyError;
    }
    var path := r.value;
    var actions := DeriveActions(path, n);
    return Solved(path, actions, e.score);
  }

  /**
   * Pop-time visit of a state not seen before: record its parent and
   * expand it. The links stay depth-labelled and move-linked, and the
   * frontier keeps its invariant.
   */
  method Visit(strategy: Strategy, initial: State, n: int, e: Entry, rest: seq<Entry>,
               parents: map<State, Option<State>>, ghost depth: map<State, nat>, ghost steps: nat)
    returns (frontier: seq<Entry>, parents': map<State, Option<State>>, ghost depth': map<State, nat>)
    requires n >= 1
    requires Discovered(initial, parents, depth, n)
    requires forall k :: k in depth ==> depth[k] < steps
    requires EntryOk(strategy, initial, parents, depth, n, e)
    requires FrontierOk(strategy, initial, parents, depth, n, rest)
    requires e.state !in parents
    requires e.parent.Some? ==> e.state != initial
    ensures parents' == parents[e.state := e.parent]
    ensures frontier == Expand(strategy, e, rest, n)
    ensures Discovered(initial, parents', depth', n)
    ensures forall k :: k in depth' ==> depth'[k] < steps + 1
    ensures FrontierOk(strategy, initial, parents', depth', n, frontier)
  {
    VisitKeepsDiscovered(initial, parents, depth, n, e, steps);
    ExpandKeepsFrontierOk(strategy, initial, parents, depth, n, e, rest);
    depth' := depth[e.state := MovesFromInitial(e, depth)];
    parents' := parents[e.state := e.parent];
    frontier := Expand(strategy, e, rest, n);
  }

  /** Popping the head keeps the rest of the frontier well formed. */
  lemma PopKeepsFrontierOk(strategy: Strategy, initial: State, parents: map<State, Option<State>>,
                           depth: map<State, nat>, n: int, frontier: seq<Entry>)
    requires n >= 1 && |frontier| > 0 && FrontierOk(strategy, initial, parents, depth, n, frontier)
    ensures EntryOk(strategy, initial, parents, depth, n, frontier[0])
    ensures FrontierOk(strategy, initial, parents, depth, n, frontier[1..])
  {
    assert frontier[0] in frontier;
    forall x | x in frontier[1..]
      ensures EntryOk(strategy, initial, parents, depth, n, x)
    {
      assert x in frontier;
    }
  }

  /** The entry the search starts from: the initial state, without a parent. */
  function Seed(strategy: Strategy, initial: State): Entry {
    Entry(initial, None, SeedScore(strategy, initial))
  }

  /** What holds at the head of every iteration of the `while queue` loop. */
  ghost predicate SearchInvariant(strategy: Strategy, initial: State, goal: State, n: int,
                                  frontier: seq<Entry>, visited: set<State>,
                                  parents: map<State, Option<State>>, depth: map<State, nat>, steps: nat)
    requires n >= 1
  {
    && visited == parents.Keys
    && Discovered(initial, parents, depth, n)
    && (forall k :: k in depth ==> depth[k] < steps)
    && FrontierOk(strategy, initial, parents, depth, n, frontier)
    && (steps == 0 ==> |frontier| == 1 && frontier[0] == Seed(strategy, initial))
    && (steps > 0 ==> initial in parents && initial != goal)
  }

  /** The search starts in a state that satisfies the loop invariant. */
  lemma SearchStarts(strategy: Strategy, initial: State, goal: State, n: int)
    requires n >= 1 && 0 in initial
    ensures SearchInvariant(strategy, initial, goal, n, [Seed(strategy, initial)], {}, map[], map[], 0)
  {
    var seed := Seed(strategy, initial);
    forall x | x in [seed]
      ensures EntryOk(strategy, initial, map[], map[], n, x)
    {
    }
  }

  /**
   * One iteration of the loop: pop the head; stop at the goal, otherwise
   * visit the state if it is new. When the search goes on, the invariant
   * holds again one step later.
   */
  method Step(strategy: Strategy, initial: State, goal: State, n: int, frontier: seq<Entry>,
              visited: set<State>, parents: map<State, Option<State>>, ghost depth: map<State, nat>, steps: nat)
    returns (frontier': seq<Entry>, visited': set<State>, parents': map<State, Option<State>>,
             ghost depth': map<State, nat>, done: Option<Outcome>)
    requires n >= 1 && |frontier| > 0
    requires SearchInvariant(strategy, initial, goal, n, frontier, visited, parents, depth, steps)
    ensures done.Some? ==> done.value.Solved? || done.value.KeyError?
    ensures done.Some? ==> (done.value.KeyError? <==> initial == goal)
    ensures done.None? ==> initial != goal
    ensures done.Some? <==> frontier[0].state == goal
    ensures done.None? && frontier[0].state in visited ==> frontier' == frontier[1..] && parents' == parents
    ensures done.None? && frontier[0].state !in visited ==>
      && parents' == parents[frontier[0].state := frontier[0].parent]
      && 0 in frontier[0].state && frontier' == Expand(strategy, frontier[0], frontier[1..], n)
    ensures done.Some? && done.value.Solved? ==>
      var o := done.value;
      && |o.path| >= 2 && o.path[0] == initial && o.path[|o.path| - 1] == goal
      && Linked(o.path, n) && |o.actions| == |o.path| - 1
      && ValidRun(initial, o.actions, n) && Run(initial, o.actions, n) == goal
      && (strategy.BestFirst? ==> o.finalScore == Evaluate(strategy.h, goal))
      && (strategy.AStar? ==> o.finalScore == Evaluate(strategy.h, goal) + |o.actions|)
    ensures done.None? ==> SearchInvariant(strategy, initial, goal, n, frontier', visited', parents', depth', steps + 1)
  {
    if frontier[0].state == goal {
      PopKeepsFrontierOk(strategy, initial, parents, depth, n, frontier);
      var o := FinishAtGoal(strategy, initial, goal, n, frontier[0], parents, depth, steps);
      return frontier[1..], visited, parents, depth, Some(o);
    }
    frontier', visited', parents', depth' := Advance(strategy, initial, goal, n, frontier, visited, parents, depth, steps);
    done := None;
  }

  /**
   * One pass of the `while queue` loop that pops a non-goal state: an
   * already visited state is dropped, a new one is recorded with its
   * parent and its children are pushed.
   */
  method Advance(strategy: Strategy, initial: State, goal: State, n: int, frontier: seq<Entry>,
                 visited: set<State>, parents: map<State, Option<State>>, ghost depth: map<State, nat>, steps: nat)
    returns (frontier': seq<Entry>, visited': set<State>, parents': map<State, Option<State>>,
             ghost depth': map<State, nat>)
    requires n >= 1 && |frontier| > 0 && frontier[0].state != goal
    requires SearchInvariant(strategy, initial, goal, n, frontier, visited, parents, depth, steps)
    ensures initial != goal
    ensures frontier[0].state in visited ==> frontier' == frontier[1..] && visited' == visited && parents' == parents
    ensures frontier[0].state !in visited ==>
      && visited' == visited + {frontier[0].state}
      && parents' == parents[frontier[0].state := frontier[0].parent]
      && 0 in frontier[0].state && frontier' == Expand(strategy, frontier[0], frontier[1..], n)
    ensures SearchInvariant(strategy, initial, goal, n, frontier', visited', parents', depth', steps + 1)
  {
    PopKeepsFrontierOk(strategy, initial, parents, depth, n, frontier);
    var e := frontier[0];
    frontier', visited', parents', depth' := frontier[1..], visited, parents, depth;
    if e.state !in visited {
      frontier', parents', depth' := Visit(strategy, initial, n, e, frontier', parents, depth, steps);
      visited' := visited + {e.state};
    }
  }

  /**
   * `get_steps` of the three searches, bounded by `fuel` iterations of the
   * `while queue` loop. A solution's actions replay the path from the
   * initial state to the goal; an A* solution's score is the goal's
   * heuristic plus the number of moves; the only exception is the KeyError
   * of an initial state that already is the goal.
   */
  method Solve(strategy: Strategy, initial: State, goal: State, n: int, fuel: nat) returns (o: Outcome)
    requires n >= 1 && 0 in initial
    ensures o.Solved? ==> |o.path| >= 2 && o.path[0] == initial && o.path[|o.path| - 1] == goal
    ensures o.Solved? ==> Linked(o.path, n) && |o.actions| == |o.path| - 1
    ensures o.Solved? ==> ValidRun(initial, o.actions, n) && Run(initial, o.actions, n) == goal
    ensures o.Solved? && strategy.BestFirst? ==> o.finalScore == Evaluate(strategy.h, goal)
    ensures o.Solved? && strategy.AStar? ==> o.finalScore == Evaluate(strategy.h, goal) + |o.actions|
    ensures o.KeyError? <==> initial == goal && fuel > 0
  {
    var frontier := [Seed(strategy, initial)];
    var visited: set<State> := {};
    var parents: map<State, Option<State>> := map[];
    ghost var depth: map<State, nat> := map[];
    var steps: nat := 0;
    SearchStarts(strategy, initial, goal, n);
    while steps < fuel && |frontier| > 0
      invariant SearchInvariant(strategy, initial, goal, n, frontier, visited, parents, depth, steps)
    {
      var done;
      frontier, visited, parents, depth, done := Step(strategy, initial, goal, n, frontier, visited, parents, depth, steps);
      if done.Some? {
        return done.value;
      }
      steps := steps + 1;
    }
    if |frontier| == 0 {
      return Exhausted;
    }
    return Unfinished;
  }
}
