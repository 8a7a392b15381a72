/**
 * The heuristic evaluators: the null heuristic, the misplaced-tile count
 * (Hamming) and the sum of grid distances (Manhattan). Both informed
 * evaluators measure against the layout (1, 2, ..., len-1, 0): tile `t`
 * belongs at index `t - 1` and the blank at the last index.
 */
module Heuristics {
  import opened Board

  datatype Heuristic = Null | Hamming | Manhattan

  /** `get_evaluation` of the chosen heuristic. */
  function Evaluate(h: Heuristic, s: State): (v: int)
    ensures v >= 0
    ensures h.Null? ==> v == 0
  {
    match h
    case Null => 0
    case Hamming => HammingDistance(s)
    case Manhattan => ManhattanDistance(s)
  }

  /** The layout both informed heuristics measure against. */
  function GoalLayout(len: nat): (g: State)
    ensures |g| == len
  {
    seq(len, i => if i == len - 1 then 0 else i + 1)
  }

  /** Every non-blank tile `t` sits at index `t - 1`. */
  predicate TilesInGoalPosition(s: State) {
    forall i :: 0 <= i < |s| && s[i] != 0 ==> s[i] == i + 1
  }

  predicate NonNegativeLabels(s: State) {
    forall i :: 0 <= i < |s| ==> s[i] >= 0
  }

  // ---------------------------------------------------------------------
  // Hamming
  // ---------------------------------------------------------------------

  /** A non-blank tile away from its goal index. */
  predicate Misplaced(s: State, i: int)
    requires 0 <= i < |s|
  {
    s[i] != 0 && s[i] != i + 1
  }

  /** Number of misplaced tiles among the first `k` cells. */
  function MisplacedBefore(s: State, k: nat): nat
    requires k <= |s|
  {
    if k == 0 then 0 else MisplacedBefore(s, k - 1) + (if Misplaced(s, k - 1) then 1 else 0)
  }

  function HammingDistance(s: State): nat {
    MisplacedBefore(s, |s|)
  }

  /** The source's loop, where `j` tracks the expected label `i + 1`. */
  method HammingEvaluation(s: State) returns (sum: int)
    ensures sum == HammingDistance(s)
  {
    var j := 1;
    sum := 0;
    for i := 0 to |s|
      invariant j == i + 1
      invariant sum == MisplacedBefore(s, i)
    {
      if s[i] == 0 {
        j := j + 1;
        continue;
      }
      if s[i] != j {
        sum := sum + 1;
      }
      j := j + 1;
    }
  }

  lemma {:induction false} MisplacedBeforeCounts(s: State, k: nat)
    requires k <= |s|
    ensures MisplacedBefore(s, k) == |set i | 0 <= i < k && Misplaced(s, i)|
  {
    if k > 0 {
      MisplacedBeforeCounts(s, k - 1);
      var prev := set i | 0 <= i < k - 1 && Misplaced(s, i);
      var all := set i | 0 <= i < k && Misplaced(s, i);
      if Misplaced(s, k - 1) {
        assert all == prev + {k - 1};
      } else {
        assert all == prev;
      }
    }
  }

  /** Hamming is the number of indices holding a non-blank tile other than `i + 1`. */
  lemma HammingCountsMisplaced(s: State)
    ensures HammingDistance(s) == |set i | 0 <= i < |s| && s[i] != 0 && s[i] != i + 1|
  {
    MisplacedBeforeCounts(s, |s|);
    assert (set i | 0 <= i < |s| && Misplaced(s, i)) == (set i | 0 <= i < |s| && s[i] != 0 && s[i] != i + 1);
  }

  lemma {:induction false} MisplacedBeforeBound(s: State, k: nat, z: nat)
    requires k <= |s| && z < k && s[z] == 0
    ensures MisplacedBefore(s, k) <= k - 1
  {
    if k - 1 == z {
      MisplacedBeforeAtMost(s, k - 1);
    } else {
      MisplacedBeforeBound(s, k - 1, z);
    }
  }

  lemma {:induction false} MisplacedBeforeAtMost(s: State, k: nat)
    requires k <= |s|
    ensures MisplacedBefore(s, k) <= k
  {
    if k > 0 {
      MisplacedBeforeAtMost(s, k - 1);
    }
  }

  /** The blank is never counted, so Hamming lies in [0, len - 1]. */
  lemma HammingBounds(s: State)
    requires 0 in s
    ensures 0 <= HammingDistance(s) <= |s| - 1
  {
    var z :| 0 <= z < |s| && s[z] == 0;
    MisplacedBeforeBound(s, |s|, z);
  }

  lemma {:induction false} NoneMisplacedBefore(s: State, k: nat)
    requires k <= |s| && TilesInGoalPosition(s)
    ensures MisplacedBefore(s, k) == 0
  {
    if k > 0 {
      NoneMisplacedBefore(s, k - 1);
    }
  }

  /** Hamming vanishes on the goal layout (1, ..., len - 1, 0). */
  lemma HammingZeroOnGoal(len: nat)
    ensures HammingDistance(GoalLayout(len)) == 0
  {
    NoneMisplacedBefore(GoalLayout(len), len);
  }

  // ---------------------------------------------------------------------
  // Manhattan
  // ---------------------------------------------------------------------

  /** `int(numpy.sqrt(m))` for a non-negative integer: the floor square root. */
  function ISqrt(m: nat): (r: nat)
    ensures r * r <= m < (r + 1) * (r + 1)
  {
    if m == 0 then 0
    else
      var r := ISqrt(m - 1);
      if (r + 1) * (r + 1) <= m then
        assert (r + 2) * (r + 2) == (r + 1) * (r + 1) + 2 * r + 3;
        r + 1
      else r
  }

  /** `int(a / n)`: float division truncated toward zero. */
  function TruncDiv(a: int, n: int): int
    requires n >= 1
  {
    if a >= 0 then a / n else -((-a) / n)
  }

  /** Row plus column displacement of tile `t` at index `i` from index `t - 1`; 0 for the blank. */
  function TileDistance(i: int, t: int, n: int): nat
    requires n >= 1
  {
    if t == 0 then 0
    else
      var g := t - 1;
      Abs(TruncDiv(i, n) - TruncDiv(g, n)) + Abs(i % n - g % n)
  }

  /** Sum of the tile distances over the first `k` cells. */
  function DistanceBefore(s: State, n: int, k: nat): nat
    requires n >= 1 && k <= |s|
  {
    if k == 0 then 0 else DistanceBefore(s, n, k - 1) + TileDistance(k - 1, s[k - 1], n)
  }

  /** Manhattan distance on a board whose side is the floor square root of its length. */
  function ManhattanDistance(s: State): nat {
    if |s| == 0 then 0 else DistanceBefore(s, ISqrt(|s|), |s|)
  }

  /** The source's loop over the cells. */
  method ManhattanEvaluation(s: State) returns (sum: int)
    ensures sum == ManhattanDistance(s)
  {
    sum := 0;
    var length := |s|;
    var n := ISqrt(length);
    for i := 0 to length
      invariant length > 0 ==> n >= 1 && sum == DistanceBefore(s, n, i)
      invariant length == 0 ==> sum == 0
    {
      if s[i] == 0 {
        continue;
      }
      var temp := s[i] - 1;
      sum := sum + Abs(TruncDiv(i, n) - TruncDiv(temp, n)) + Abs(i % n - temp % n);
    }
  }

  /** A tile contributes nothing exactly when it is the blank or at its goal index. */
  lemma TileDistanceZeroIff(i: int, t: int, n: int)
    requires n >= 1 && i >= 0 && t >= 0
    ensures TileDistance(i, t, n) == 0 <==> (t == 0 || t == i + 1)
  {
    if t != 0 && TileDistance(i, t, n) == 0 {
      var g := t - 1;
      assert i / n == g / n && i % n == g % n;
      assert i == (i / n) * n + i % n;
      assert g == (g / n) * n + g % n;
    }
  }

  lemma {:induction false} DistanceBeforeZeroIff(s: State, n: int, k: nat)
    requires n >= 1 && k <= |s| && NonNegativeLabels(s)
    ensures DistanceBefore(s, n, k) == 0 <==> forall i :: 0 <= i < k && s[i] != 0 ==> s[i] == i + 1
  {
    if k > 0 {
      DistanceBeforeZeroIff(s, n, k - 1);
      TileDistanceZeroIff(k - 1, s[k - 1], n);
    }
  }

  /** Manhattan is 0 exactly when every non-blank tile `t` sits at index `t - 1`. */
  lemma ManhattanZeroIff(s: State)
    requires NonNegativeLabels(s)
    ensures ManhattanDistance(s) == 0 <==> TilesInGoalPosition(s)
  {
    if |s| > 0 {
      DistanceBeforeZeroIff(s, ISqrt(|s|), |s|);
    }
  }

  /** Manhattan vanishes on the goal layout. */
  lemma ManhattanZeroOnGoal(len: nat)
    ensures ManhattanDistance(GoalLayout(len)) == 0
  {
    ManhattanZeroIff(GoalLayout(len));
  }

  lemma {:induction false} MisplacedAtMostDistance(s: State, n: int, k: nat)
    requires n >= 1 && k <= |s| && NonNegativeLabels(s)
    ensures MisplacedBefore(s, k) <= DistanceBefore(s, n, k)
  {
    if k > 0 {
      MisplacedAtMostDistance(s, n, k - 1);
      TileDistanceZeroIff(k - 1, s[k - 1], n);
    }
  }

  /** Every misplaced tile is at grid distance at least one from home. */
  lemma HammingAtMostManhattan(s: State)
    requires NonNegativeLabels(s)
    ensures HammingDistance(s) <= ManhattanDistance(s)
  {
    if |s| > 0 {
      MisplacedAtMostDistance(s, ISqrt(|s|), |s|);
    }
  }

  lemma SquareMono(a: nat, b: nat)
    requires a <= b
    ensures a * a <= b * b
  {
    MulMono(a, b, a);
    MulMono(a, b, b);
  }

  lemma SquareLess(a: nat, b: nat)
    requires a * a < b * b
    ensures a < b
  {
    if a >= b {
      SquareMono(b, a);
    }
  }

  /** On a square board the floor square root of the length is the side. */
  lemma ISqrtOfSquare(n: nat)
    ensures ISqrt(n * n) == n
  {
    var r := ISqrt(n * n);
    SquareLess(n, r + 1);
    assert (n + 1) * (n + 1) == n * n + 2 * n + 1;
    SquareLess(r, n + 1);
  }

  /**
   * Distances of two boards that agree except at cells `a` and `z` differ
   * by the change at those cells.
   */
  lemma {:induction false} DistanceBeforeAfterSwap(s: State, t: State, n: int, k: nat, a: int, z: int)
    requires n >= 1 && |s| == |t| && k <= |s|
    requires 0 <= a < |s| && 0 <= z < |s| && a != z
    requires forall i :: 0 <= i < |s| && i != a && i != z ==> t[i] == s[i]
    ensures DistanceBefore(t, n, k) - DistanceBefore(s, n, k)
      == (if a < k then TileDistance(a, t[a], n) - TileDistance(a, s[a], n) else 0)
       + (if z < k then TileDistance(z, t[z], n) - TileDistance(z, s[z], n) else 0)
  {
    if k > 0 {
      DistanceBeforeAfterSwap(s, t, n, k - 1, a, z);
    }
  }

  /** A tile moved by one grid step changes its distance from home by exactly one. */
  lemma StepShiftsTileDistance(z: int, a: int, t: int, n: int)
    requires n >= 1 && z >= 0 && a >= 0 && t != 0 && GridDistance(a, z, n) == 1
    ensures TileDistance(z, t, n) - TileDistance(a, t, n) == 1
         || TileDistance(z, t, n) - TileDistance(a, t, n) == -1
  {
    TileDistanceByRowCol(z, t, n);
    TileDistanceByRowCol(a, t, n);
    UnitShift(Row(a, n), Col(a, n), Row(z, n), Col(z, n), TruncDiv(t - 1, n), (t - 1) % n);
  }

  lemma TileDistanceByRowCol(i: int, t: int, n: int)
    requires n >= 1 && i >= 0 && t != 0
    ensures TileDistance(i, t, n) == Abs(Row(i, n) - TruncDiv(t - 1, n)) + Abs(Col(i, n) - (t - 1) % n)
  {
  }

  lemma UnitShift(ra: int, ca: int, rz: int, cz: int, R: int, C: int)
    requires Abs(ra - rz) + Abs(ca - cz) == 1
    ensures var d := (Abs(rz - R) + Abs(cz - C)) - (Abs(ra - R) + Abs(ca - C)); d == 1 || d == -1
  {
  }

  /** A single legal move changes the Manhattan distance by exactly one, up or down. */
  lemma ManhattanMoveChangesByOne(s: State, n: int, a: int)
    requires n >= 1 && |s| == n * n && UniqueBlank(s) && a in LegalActions(s, n)
    ensures var d := ManhattanDistance(Apply(s, a)) - ManhattanDistance(s); d == 1 || d == -1
  {
    var z := BlankIndex(s);
    var t := Apply(s, a);
    LegalActionsAreGridNeighbours(s, n, a);
    assert a != z;
    ISqrtOfSquare(n);
    DistanceBeforeAfterSwap(s, t, n, |s|, a, z);
    assert s[a] != 0;
    StepShiftsTileDistance(z, a, s[a], n);
  }
}
