/** The puzzle board and its move generator (`get_legal_actions`, `apply_action`). */
module Board {

  /** A board: tile labels in row-major order; 0 is the blank. */
  type State = seq<int>

  /** Exactly one cell holds the blank. */
  predicate UniqueBlank(s: State) {
    && 0 in s
    && forall i, j :: 0 <= i < |s| && 0 <= j < |s| && s[i] == 0 && s[j] == 0 ==> i == j
  }

  /** The index of the first blank, as `state.index(0)` finds it. */
  function BlankIndex(s: State): (z: nat)
    requires 0 in s
    ensures z < |s| && s[z] == 0
    ensures forall j :: 0 <= j < z ==> s[j] != 0
  {
    if s[0] == 0 then 0
    else
      assert 0 in s[1..] by {
        var i :| 0 <= i < |s| && s[i] == 0;
        assert s[1..][i - 1] == 0;
      }
      1 + BlankIndex(s[1..])
  }

  /** Row and column of a cell index on a board of side `n`. */
  function Row(i: int, n: int): int
    requires n >= 1
  {
    i / n
  }

  function Col(i: int, n: int): int
    requires n >= 1
  {
    i % n
  }

  /** Grid (taxicab) distance between two cells of a board of side `n`. */
  function GridDistance(i: int, j: int, n: int): nat
    requires n >= 1
  {
    Abs(Row(i, n) - Row(j, n)) + Abs(Col(i, n) - Col(j, n))
  }

  function Abs(x: int): nat {
    if x < 0 then -x else x
  }

  /**
   * The cells the blank may move to, in the order up, right, down, left.
   * A candidate must lie inside the array; a right or left move must not
   * wrap across a row boundary, which the source tests with `% n`.
   */
  function LegalActions(s: State, n: int): (r: seq<int>)
    requires n >= 1 && 0 in s
    ensures forall a :: a in r ==> 0 <= a < |s|
    ensures forall i :: 0 <= i < |r| ==> 0 <= r[i] < |s|
  {
    GuardedTargets(BlankIndex(s), n, |s|)
  }

  /** The guarded targets of a blank at `z` on an array of `len` cells. */
  function GuardedTargets(z: int, n: int, len: int): (r: seq<int>)
    requires n >= 1
    ensures forall a :: a in r ==> 0 <= a < len
  {
    var up, right, down, left := z - n, z + 1, z + n, z - 1;
    (if 0 <= up < len then [up] else [])
    + (if 0 <= right < len && right % n != 0 then [right] else [])
    + (if 0 <= down < len then [down] else [])
    + (if 0 <= left < len && (left + 1) % n != 0 then [left] else [])
  }

  /** Swaps the blank with the tile at `a`, as `apply_action` does on a copy. */
  function Apply(s: State, a: int): (r: State)
    requires 0 in s && 0 <= a < |s|
    ensures |r| == |s|
    ensures r[a] == 0 && r[BlankIndex(s)] == s[a]
  {
    var z := BlankIndex(s);
    s[a := s[z]][z := s[a]]
  }

  /**
   * A move touches only the blank's cell and the target cell, so it only
   * rearranges the tiles, and a board with one blank keeps one blank.
   */
  lemma ApplyPermutes(s: State, a: int)
    requires 0 in s && 0 <= a < |s|
    ensures forall i :: 0 <= i < |s| && i != a && i != BlankIndex(s) ==> Apply(s, a)[i] == s[i]
    ensures multiset(Apply(s, a)) == multiset(s)
    ensures UniqueBlank(s) ==> UniqueBlank(Apply(s, a))
  {
    SwapPermutes(s, a, BlankIndex(s));
    if UniqueBlank(s) {
      ApplyKeepsUniqueBlank(s, a);
    }
  }

  lemma SwapPermutes(s: State, a: int, z: int)
    requires 0 <= a < |s| && 0 <= z < |s|
    ensures forall i :: 0 <= i < |s| && i != a && i != z ==> s[a := s[z]][z := s[a]][i] == s[i]
    ensures multiset(s[a := s[z]][z := s[a]]) == multiset(s)
  {
  }

  lemma ApplyKeepsUniqueBlank(s: State, a: int)
    requires UniqueBlank(s) && 0 <= a < |s|
    ensures UniqueBlank(Apply(s, a))
  {
    var z, r := BlankIndex(s), Apply(s, a);
    assert r == s[a := s[z]][z := s[a]];
    forall i | 0 <= i < |r| && r[i] == 0
      ensures i == a
    {
      if i == z {
        assert s[a] == 0;
      }
    }
  }

  /** Rank of the direction of a step from `z` to `a`: up 0, right 1, down 2, left 3. */
  function DirectionRank(z: int, a: int, n: int): int {
    if a == z - n then 0 else if a == z + 1 then 1 else if a == z + n then 2 else 3
  }

  predicate IsCorner(z: int, n: int)
    requires n >= 1
  {
    (Row(z, n) == 0 || Row(z, n) == n - 1) && (Col(z, n) == 0 || Col(z, n) == n - 1)
  }

  predicate IsInterior(z: int, n: int)
    requires n >= 1
  {
    0 < Row(z, n) < n - 1 && 0 < Col(z, n) < n - 1
  }

  /** On the border of the board but not in a corner. */
  predicate IsEdge(z: int, n: int)
    requires n >= 1
  {
    (Row(z, n) == 0 || Row(z, n) == n - 1 || Col(z, n) == 0 || Col(z, n) == n - 1) && !IsCorner(z, n)
  }

  /** The source's guard for a candidate target `a` of the blank at `z`, bounds aside. */
  predicate Guarded(z: int, a: int, n: int)
    requires n >= 1
  {
    a == z - n || (a == z + 1 && a % n != 0) || a == z + n || (a == z - 1 && z % n != 0)
  }

  lemma InLegalActions(s: State, n: int, a: int)
    requires n >= 1 && 0 in s
    ensures a in LegalActions(s, n) <==> 0 <= a < |s| && Guarded(BlankIndex(s), a, n)
  {
    InGuardedTargets(BlankIndex(s), n, |s|, a);
  }

  lemma InGuardedTargets(z: int, n: int, len: int, a: int)
    requires n >= 1
    ensures a in GuardedTargets(z, n, len) <==> 0 <= a < len && Guarded(z, a, n)
  {
  }

  /** A guarded step between non-negative cells is a step of grid distance one, and back. */
  lemma GuardedIffGridDistanceOne(z: int, a: int, n: int)
    requires n >= 1 && z >= 0 && a >= 0
    ensures Guarded(z, a, n) <==> GridDistance(a, z, n) == 1
  {
    if Guarded(z, a, n) {
      GuardedIsGridStep(z, a, n);
    }
    if GridDistance(a, z, n) == 1 {
      GridStepIsGuarded(z, a, n);
    }
  }

  lemma GuardedIsGridStep(z: int, a: int, n: int)
    requires n >= 1 && z >= 0 && a >= 0 && Guarded(z, a, n)
    ensures GridDistance(a, z, n) == 1
  {
    var qz, rz := z / n, z % n;
    if a == z - n {
      DivMod(a, n, qz - 1, rz);
    } else if a == z + n {
      DivMod(a, n, qz + 1, rz);
    } else if a == z + 1 {
      if rz + 1 == n {
        DivMod(a, n, qz + 1, 0);
      } else {
        DivMod(a, n, qz, rz + 1);
      }
    } else {
      DivMod(a, n, qz, rz - 1);
    }
  }

  lemma GridStepIsGuarded(z: int, a: int, n: int)
    requires n >= 1 && z >= 0 && a >= 0 && GridDistance(a, z, n) == 1
    ensures Guarded(z, a, n)
  {
    var qz, rz := z / n, z % n;
    var qa, ra := a / n, a % n;
    assert a == qa * n + ra && z == qz * n + rz;
    if qa == qz + 1 {
      assert a == z + n;
    } else if qa == qz - 1 {
      assert a == z - n;
    } else if ra == rz + 1 {
      assert a == z + 1;
    } else {
      assert a == z - 1;
    }
  }

  /**
   * The legal actions are exactly the cells of the array at grid distance
   * one from the blank: no move leaves the array or wraps across a row.
   */
  lemma LegalActionsAreGridNeighbours(s: State, n: int, a: int)
    requires n >= 1 && 0 in s
    ensures a in LegalActions(s, n) <==> 0 <= a < |s| && GridDistance(a, BlankIndex(s), n) == 1
  {
    InLegalActions(s, n, a);
    if a >= 0 {
      GuardedIffGridDistanceOne(BlankIndex(s), a, n);
    }
  }

  lemma UpGuardByRow(z: int, n: int)
    requires n >= 1 && z >= 0
    ensures z - n >= 0 <==> Row(z, n) > 0
  {
    var q, r := z / n, z % n;
    assert z == q * n + r;
    if q >= 1 {
      MulAtLeast(q, n);
    }
  }

  lemma DownGuardByRow(z: int, n: int)
    requires n >= 1 && 0 <= z < n * n
    ensures z + n < n * n <==> Row(z, n) < n - 1
  {
    var q, r := z / n, z % n;
    assert z == q * n + r;
    if q >= n {
      MulMono(n, q, n);
      assert false;
    }
    if q <= n - 2 {
      MulMono(q + 1, n - 1, n);
      assert z + n == (q + 1) * n + r;
    } else {
      assert z + n == n * n + r;
    }
  }

  lemma RightGuardByCol(z: int, n: int)
    requires n >= 1 && 0 <= z < n * n
    ensures (z + 1 < n * n && (z + 1) % n != 0) <==> Col(z, n) < n - 1
  {
    var q, r := z / n, z % n;
    assert z == q * n + r;
    if r + 1 < n {
      DivMod(z + 1, n, q, r + 1);
      if q >= n {
        MulMono(n, q, n);
        assert false;
      }
      MulMono(q, n - 1, n);
      assert (n - 1) * n == n * n - n;
    } else {
      DivMod(z + 1, n, q + 1, 0);
    }
  }

  lemma GuardedTargetsLength(z: int, n: int, len: int)
    requires n >= 1
    ensures |GuardedTargets(z, n, len)|
      == (if 0 <= z - n < len then 1 else 0)
       + (if 0 <= z + 1 < len && (z + 1) % n != 0 then 1 else 0)
       + (if 0 <= z + n < len then 1 else 0)
       + (if 0 <= z - 1 < len && z % n != 0 then 1 else 0)
  {
  }

  /**
   * On a square board the blank has one legal action per neighbouring
   * cell of the grid: one for each side of the board it does not touch.
   */
  lemma LegalActionCount(s: State, n: int)
    requires n >= 1 && |s| == n * n && 0 in s
    ensures var z := BlankIndex(s);
      |LegalActions(s, n)|
      == (if Row(z, n) > 0 then 1 else 0) + (if Col(z, n) < n - 1 then 1 else 0)
       + (if Row(z, n) < n - 1 then 1 else 0) + (if Col(z, n) > 0 then 1 else 0)
  {
    SquareTargetCount(BlankIndex(s), n);
  }

  lemma SquareTargetCount(z: int, n: int)
    requires n >= 1 && 0 <= z < n * n
    ensures |GuardedTargets(z, n, n * n)|
      == (if Row(z, n) > 0 then 1 else 0) + (if Col(z, n) < n - 1 then 1 else 0)
       + (if Row(z, n) < n - 1 then 1 else 0) + (if Col(z, n) > 0 then 1 else 0)
  {
    var len := n * n;
    GuardedTargetsLength(z, n, len);
    var up := 0 <= z - n < len;
    var right := 0 <= z + 1 < len && (z + 1) % n != 0;
    var down := 0 <= z + n < len;
    var left := 0 <= z - 1 < len && z % n != 0;
    assert up <==> Row(z, n) > 0 by { UpGuardByRow(z, n); }
    assert down <==> Row(z, n) < n - 1 by { DownGuardByRow(z, n); }
    assert right <==> Col(z, n) < n - 1 by { RightGuardByCol(z, n); }
    assert left <==> Col(z, n) > 0 by {
      if z == 0 {
        assert z % n == 0;
      }
    }
  }

  /** For side at least 2: 2 legal actions in a corner, 3 on an edge, 4 in the interior. */
  lemma LegalActionCountByPosition(s: State, n: int)
    requires n >= 2 && |s| == n * n && 0 in s
    ensures IsCorner(BlankIndex(s), n) ==> |LegalActions(s, n)| == 2
    ensures IsEdge(BlankIndex(s), n) ==> |LegalActions(s, n)| == 3
    ensures IsInterior(BlankIndex(s), n) ==> |LegalActions(s, n)| == 4
  {
    var z := BlankIndex(s);
    LegalActionCount(s, n);
    RowInRange(z, n);
    var row, col := Row(z, n), Col(z, n);
    assert 0 <= row < n && 0 <= col < n;
  }

  lemma RowInRange(z: int, n: int)
    requires n >= 1 && 0 <= z < n * n
    ensures 0 <= Row(z, n) < n
  {
    var q := z / n;
    assert z == q * n + z % n;
    if q >= n {
      MulMono(n, q, n);
    }
  }

  lemma MulMono(a: int, b: int, n: int)
    requires a <= b && n >= 0
    ensures a * n <= b * n
  {
  }

  /** The legal actions come in the fixed order up, right, down, left. */
  lemma LegalActionsInFixedOrder(s: State, n: int)
    requires n >= 2 && 0 in s
    ensures var r := LegalActions(s, n);
      forall i, j :: 0 <= i < j < |r| ==> DirectionRank(BlankIndex(s), r[i], n) < DirectionRank(BlankIndex(s), r[j], n)
  {
  }

  /**
   * Moves are invertible: after moving the blank from `z` to `a`, moving it
   * back to `z` is legal and restores the original board.
   */
  lemma MoveIsInvertible(s: State, n: int, a: int)
    requires n >= 1 && UniqueBlank(s) && a in LegalActions(s, n)
    ensures var t := Apply(s, a);
      && 0 in t
      && BlankIndex(t) == a
      && BlankIndex(s) in LegalActions(t, n)
      && Apply(t, BlankIndex(s)) == s
  {
    var z := BlankIndex(s);
    var t := Apply(s, a);
    InLegalActions(s, n, a);
    BlankMoves(s, a);
    GuardedSymmetric(z, a, n);
    InLegalActions(t, n, z);
    assert Apply(t, z) == s;
  }

  /** After a move to `a != z` on a board with one blank, the blank is found at `a`. */
  lemma BlankMoves(s: State, a: int)
    requires UniqueBlank(s) && 0 <= a < |s| && a != BlankIndex(s)
    ensures 0 in Apply(s, a) && BlankIndex(Apply(s, a)) == a
  {
    var t := Apply(s, a);
    assert t[a] == 0;
    var b := BlankIndex(t);
    assert t[b] == 0;
  }

  lemma GuardedSymmetric(z: int, a: int, n: int)
    requires n >= 1 && Guarded(z, a, n)
    ensures Guarded(a, z, n)
  {
    if a == z - n {
      assert z == a + n;
    } else if a == z + n {
      assert z == a - n;
    } else if a == z + 1 && a % n != 0 {
      assert z == a - 1;
    } else {
      assert a == z - 1 && z % n != 0;
      assert z == a + 1 && (a + 1) % n != 0;
    }
  }

  // ---------------------------------------------------------------------
  // Integer division facts (Dafny's `/` and `%` are Euclidean; all indices
  // here are non-negative, where they agree with Python's operators).
  // ---------------------------------------------------------------------

  lemma MulAtLeast(d: int, n: int)
    requires d >= 1 && n >= 1
    ensures d * n >= n
  {
  }

  /** Quotient and remainder are unique. */
  lemma DivMod(x: int, n: int, q: int, r: int)
    requires n >= 1 && 0 <= r < n && x == q * n + r
    ensures x / n == q && x % n == r
  {
    var q', r' := x / n, x % n;
    assert x == q' * n + r';
    if q' < q {
      MulAtLeast(q - q', n);
    } else if q < q' {
      MulAtLeast(q' - q, n);
    }
  }
}
