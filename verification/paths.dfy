/**
 * Turning the parent links found by a search into a path of states
 * (`reconstruct_path`) and the path into a list of actions (the
 * re-derivation loop shared by the three searches).
 */
module Paths {
  import opened Wrappers
  import opened Board

  /**
   * `c` is the result of one legal move from `p`: one of its successors
   * (`MovesAreSuccessors` states this with an explicit action).
   */
  predicate IsMove(p: State, c: State, n: int)
    requires n >= 1
  {
    0 in p && c in Successors(p, LegalActions(p, n))
  }

  /** The states that the actions `acts` lead to from `p`, in the order of the actions. */
  function Successors(p: State, acts: seq<int>): (r: seq<State>)
    requires 0 in p && forall i :: 0 <= i < |acts| ==> 0 <= acts[i] < |p|
    ensures |r| == |acts|
    decreases |acts|
  {
    if |acts| == 0 then [] else [Apply(p, acts[0])] + Successors(p, acts[1..])
  }

  /** A state is a successor exactly when one of the actions produces it. */
  lemma {:induction false} InSuccessors(p: State, acts: seq<int>, c: State)
    requires 0 in p && forall i :: 0 <= i < |acts| ==> 0 <= acts[i] < |p|
    ensures c in Successors(p, acts) <==> exists i :: 0 <= i < |acts| && Apply(p, acts[i]) == c
    decreases |acts|
  {
    if |acts| > 0 {
      InSuccessors(p, acts[1..], c);
      if c in Successors(p, acts[1..]) {
        var i :| 0 <= i < |acts[1..]| && Apply(p, acts[1..][i]) == c;
        assert Apply(p, acts[i + 1]) == c;
      }
      if exists i :: 0 <= i < |acts| && Apply(p, acts[i]) == c {
        var i :| 0 <= i < |acts| && Apply(p, acts[i]) == c;
        if i > 0 {
          assert Apply(p, acts[1..][i - 1]) == c;
        }
      }
    }
  }

  /** `IsMove` holds exactly when some legal action of `p` turns it into `c`. */
  lemma MovesAreSuccessors(p: State, c: State, n: int)
    requires n >= 1 && 0 in p
    ensures IsMove(p, c, n) <==> exists a :: a in LegalActions(p, n) && Apply(p, a) == c
  {
    var acts := LegalActions(p, n);
    InSuccessors(p, acts, c);
    if exists a :: a in acts && Apply(p, a) == c {
      var a :| a in acts && Apply(p, a) == c;
      var i :| 0 <= i < |acts| && acts[i] == a;
    }
  }

  /** Consecutive states of `path` are one legal move apart. */
  predicate Linked(path: seq<State>, n: int)
    requires n >= 1
  {
    forall i :: 0 <= i < |path| - 1 ==> IsMove(path[i], path[i + 1], n)
  }

  /** Every action is legal in the state it is applied to. */
  predicate ValidRun(s: State, actions: seq<int>, n: int)
    requires n >= 1
    decreases |actions|
  {
    |actions| == 0
    || (0 in s && actions[0] in LegalActions(s, n) && ValidRun(Apply(s, actions[0]), actions[1..], n))
  }

  /** The state reached by applying `actions` in order. */
  function Run(s: State, actions: seq<int>, n: int): State
    requires n >= 1 && ValidRun(s, actions, n)
    decreases |actions|
  {
    if |actions| == 0 then s else Run(Apply(s, actions[0]), actions[1..], n)
  }

  /** The first of `actions` that turns `s` into `t`, as the inner `for action` loop finds it. */
  function FirstConnecting(s: State, t: State, actions: seq<int>): (r: Option<int>)
    requires 0 in s && forall i :: 0 <= i < |actions| ==> 0 <= actions[i] < |s|
    ensures r.Some? ==> exists k :: (0 <= k < |actions| && actions[k] == r.value
      && Apply(s, actions[k]) == t && forall j :: 0 <= j < k ==> Apply(s, actions[j]) != t)
    ensures r.None? <==> forall i :: 0 <= i < |actions| ==> Apply(s, actions[i]) != t
  {
    if |actions| == 0 then None
    else if Apply(s, actions[0]) == t then Some(actions[0])
    else
      var r := FirstConnecting(s, t, actions[1..]);
      if r.Some? then
        var k :| 0 <= k < |actions[1..]| && actions[1..][k] == r.value
          && Apply(s, actions[1..][k]) == t && forall j :: 0 <= j < k ==> Apply(s, actions[1..][j]) != t;
        assert actions[k + 1] == r.value;
        r
      else
        r
  }

  /**
   * The re-derivation loop: for each consecutive pair of path states, the
   * first legal action of the earlier state that yields the later one; a
   * pair that no legal action connects contributes nothing.
   */
  function DeriveActions(path: seq<State>, n: int): (r: seq<int>)
    requires n >= 1 && forall i :: 0 <= i < |path| - 1 ==> 0 in path[i]
    ensures |path| >= 1 ==> |r| <= |path| - 1
  {
    if |path| < 2 then []
    else
      var step := match FirstConnecting(path[0], path[1], LegalActions(path[0], n))
        case Some(a) => [a]
        case None => [];
      step + DeriveActions(path[1..], n)
  }

  lemma LinkedTail(path: seq<State>, n: int)
    requires n >= 1 && |path| >= 1 && Linked(path, n)
    ensures Linked(path[1..], n)
  {
    forall i | 0 <= i < |path[1..]| - 1
      ensures IsMove(path[1..][i], path[1..][i + 1], n)
    {
      assert IsMove(path[i + 1], path[i + 2], n);
    }
  }

  lemma LinkedHasBlanks(path: seq<State>, n: int)
    requires n >= 1 && Linked(path, n)
    ensures forall i :: 0 <= i < |path| - 1 ==> 0 in path[i]
  {
    forall i | 0 <= i < |path| - 1
      ensures 0 in path[i]
    {
      assert IsMove(path[i], path[i + 1], n);
    }
  }

  /** When some legal action connects `s` to `t`, the scan finds one. */
  lemma FirstConnectingFinds(s: State, t: State, n: int)
    requires n >= 1 && IsMove(s, t, n)
    ensures var r := FirstConnecting(s, t, LegalActions(s, n));
      r.Some? && r.value in LegalActions(s, n) && Apply(s, r.value) == t
  {
    var acts := LegalActions(s, n);
    MovesAreSuccessors(s, t, n);
    var w :| w in acts && Apply(s, w) == t;
    var i :| 0 <= i < |acts| && acts[i] == w;
    var r := FirstConnecting(s, t, acts);
    assert r.Some?;
    var k :| 0 <= k < |acts| && acts[k] == r.value && Apply(s, acts[k]) == t;
  }

  /**
   * On a path whose consecutive states are one legal move apart, the
   * derived actions are one per step and replay the path from its first
   * state to its last.
   */
  lemma {:induction false} DeriveActionsReplaysPath(path: seq<State>, n: int)
    requires n >= 1 && |path| >= 1 && Linked(path, n)
    ensures forall i :: 0 <= i < |path| - 1 ==> 0 in path[i]
    ensures |DeriveActions(path, n)| == |path| - 1
    ensures ValidRun(path[0], DeriveActions(path, n), n)
    ensures Run(path[0], DeriveActions(path, n), n) == path[|path| - 1]
  {
    LinkedHasBlanks(path, n);
    if |path| >= 2 {
      var s, t := path[0], path[1];
      assert IsMove(s, t, n);
      FirstConnectingFinds(s, t, n);
      var a := FirstConnecting(s, t, LegalActions(s, n)).value;
      LinkedTail(path, n);
      DeriveActionsReplaysPath(path[1..], n);
      var rest := DeriveActions(path[1..], n);
      var d := DeriveActions(path, n);
      assert d == [a] + rest;
      assert d[0] == a && d[1..] == rest;
      assert path[1..][0] == t && path[1..][|path[1..]| - 1] == path[|path| - 1];
      assert ValidRun(t, rest, n) && Run(t, rest, n) == path[|path| - 1];
      assert Apply(s, a) == t;
    }
  }

  datatype PathError = MissingParent | OutOfFuel

  /**
   * The `while parent != start` walk: the states strictly between `start`
   * and the goal, oldest first. A missing link (the goal's parent is
   * `None`, or a state has no recorded parent) is the source's KeyError;
   * `fuel` bounds the number of lookups.
   */
  function Walk(start: State, parent: Option<State>, parents: map<State, Option<State>>, fuel: nat)
    : (r: Result<seq<State>, PathError>)
    ensures parent.None? ==> r == Failure(MissingParent)
    ensures r.Success? ==> var mid := r.value;
      && (|mid| == 0 <==> parent == Some(start))
      && (forall k :: 0 <= k < |mid| ==> mid[k] in parents && mid[k] != start)
      && (|mid| > 0 ==> parent == Some(mid[|mid| - 1]) && parents[mid[0]] == Some(start))
      && (forall k :: 1 <= k < |mid| ==> parents[mid[k]] == Some(mid[k - 1]))
    decreases fuel
  {
    if parent == Some(start) then Success([])
    else if parent.None? || parent.value !in parents then Failure(MissingParent)
    else if fuel == 0 then Failure(OutOfFuel)
    else
      match Walk(start, parents[parent.value], parents, fuel - 1)
      case Success(prefix) => Success(prefix + [parent.value])
      case Failure(e) => Failure(e)
  }

  /**
   * `reconstruct_path`: the path from `start` to `goal`, where `parent` is
   * the state the goal was discovered from. Each inner state is the
   * recorded parent of its successor.
   */
  function ReconstructPath(start: State, goal: State, parent: Option<State>,
                           parents: map<State, Option<State>>, fuel: nat)
    : (r: Result<seq<State>, PathError>)
    ensures parent.None? ==> r == Failure(MissingParent)
    ensures r.Success? ==> var p := r.value;
      && |p| >= 2 && p[0] == start && p[|p| - 1] == goal
      && parent == Some(p[|p| - 2])
      && (forall k :: 0 < k < |p| - 1 ==> p[k] in parents && p[k] != start && parents[p[k]] == Some(p[k - 1]))
  {
    match Walk(start, parent, parents, fuel)
    case Success(mid) => Success([start] + mid + [goal])
    case Failure(e) => Failure(e)
  }

  /**
   * Parent links labelled with depths: `start` has depth 0 and every other
   * recorded state has a recorded parent one level shallower.
   */
  ghost predicate DepthLabelled(parents: map<State, Option<State>>, start: State, depth: map<State, nat>) {
    && parents.Keys <= depth.Keys
    && forall k :: k in parents ==>
      && (k == start ==> depth[k] == 0)
      && (k != start ==> parents[k].Some? && parents[k].value in parents && depth[k] == depth[parents[k].value] + 1)
  }

  /** With depth-labelled links the walk reaches `start` after exactly `depth[p]` lookups. */
  lemma {:induction false} WalkSucceeds(start: State, p: State, parents: map<State, Option<State>>,
                                        depth: map<State, nat>, fuel: nat)
    requires DepthLabelled(parents, start, depth) && p in parents && fuel >= depth[p]
    ensures Walk(start, Some(p), parents, fuel).Success?
    ensures |Walk(start, Some(p), parents, fuel).value| == depth[p]
    decreases fuel
  {
    if p != start {
      var q := parents[p].value;
      WalkSucceeds(start, q, parents, depth, fuel - 1);
    }
  }

  /** With depth-labelled links, the reconstructed path has `depth[p] + 1` moves. */
  lemma ReconstructSucceeds(start: State, goal: State, p: State, parents: map<State, Option<State>>,
                            depth: map<State, nat>, fuel: nat)
    requires DepthLabelled(parents, start, depth) && p in parents && fuel >= depth[p]
    ensures ReconstructPath(start, goal, Some(p), parents, fuel).Success?
    ensures |ReconstructPath(start, goal, Some(p), parents, fuel).value| == depth[p] + 2
  {
    WalkSucceeds(start, p, parents, depth, fuel);
  }
}
