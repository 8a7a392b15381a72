/**
 * The frontier of the informed searches: a list of entries kept in
 * ascending order of (score, state), with new entries placed by a linear
 * scan and entries taken from the front.
 */
module Frontier {
  import opened Wrappers
  import opened Board

  /** A frontier entry: a state, the state it was generated from, and its priority score. */
  datatype Entry = Entry(state: State, parent: Option<State>, score: int)

  /** Python's `<` on tuples of integers: lexicographic, a proper prefix first. */
  predicate LexLess(a: seq<int>, b: seq<int>) {
    if |a| == 0 then |b| > 0
    else |b| > 0 && (a[0] < b[0] || (a[0] == b[0] && LexLess(a[1..], b[1..])))
  }

  /** The frontier order: score first, then state. */
  predicate KeyLess(x: Entry, y: Entry) {
    x.score < y.score || (x.score == y.score && LexLess(x.state, y.state))
  }

  /** Non-decreasing in the frontier order. */
  predicate Sorted(q: seq<Entry>) {
    forall i, j :: 0 <= i < j < |q| ==> !KeyLess(q[j], q[i])
  }

  lemma {:induction false} LexLessIrreflexive(a: seq<int>)
    ensures !LexLess(a, a)
  {
    if |a| > 0 {
      LexLessIrreflexive(a[1..]);
    }
  }

  lemma {:induction false} LexLessTransitive(a: seq<int>, b: seq<int>, c: seq<int>)
    requires LexLess(a, b) && LexLess(b, c)
    ensures LexLess(a, c)
  {
    if |a| > 0 && a[0] == b[0] && b[0] == c[0] {
      LexLessTransitive(a[1..], b[1..], c[1..]);
    }
  }

  /** Any two different states are ordered one way or the other. */
  lemma {:induction false} LexLessTotal(a: seq<int>, b: seq<int>)
    requires a != b
    ensures LexLess(a, b) || LexLess(b, a)
  {
    if |a| > 0 && |b| > 0 && a[0] == b[0] {
      assert a == [a[0]] + a[1..] && b == [b[0]] + b[1..];
      LexLessTotal(a[1..], b[1..]);
    }
  }

  lemma KeyLessIrreflexive(x: Entry)
    ensures !KeyLess(x, x)
  {
    LexLessIrreflexive(x.state);
  }

  lemma KeyLessTransitive(x: Entry, y: Entry, z: Entry)
    requires KeyLess(x, y) && KeyLess(y, z)
    ensures KeyLess(x, z)
  {
    if x.score == y.score && y.score == z.score {
      LexLessTransitive(x.state, y.state, z.state);
    }
  }

  /**
   * Where the scan of the source inserts `e`: before the first entry whose
   * key is strictly greater, or at the end; entries with an equal key stay
   * in front of it.
   */
  function InsertionPoint(q: seq<Entry>, e: Entry): (k: nat)
    ensures k <= |q|
    ensures forall j :: 0 <= j < k ==> !KeyLess(e, q[j])
    ensures k < |q| ==> KeyLess(e, q[k])
  {
    if |q| == 0 then 0
    else if KeyLess(e, q[0]) then 0
    else 1 + InsertionPoint(q[1..], e)
  }

  /** The frontier after inserting `e` at its insertion point. */
  function Insert(q: seq<Entry>, e: Entry): (r: seq<Entry>)
    ensures |r| == |q| + 1
    ensures multiset(r) == multiset(q) + multiset{e}
  {
    var k := InsertionPoint(q, e);
    assert q == q[..k] + q[k..];
    q[..k] + [e] + q[k..]
  }

  /** Inserting places `e` at its insertion point and shifts the tail by one. */
  lemma InsertShape(q: seq<Entry>, e: Entry)
    ensures var k := InsertionPoint(q, e); var r := Insert(q, e);
      && r[k] == e
      && (forall i :: 0 <= i < k ==> r[i] == q[i])
      && (forall i :: k < i < |r| ==> r[i] == q[i - 1])
  {
  }

  /** The new entry is not smaller than anything before it and not larger than anything after it. */
  lemma InsertedFits(q: seq<Entry>, e: Entry, i: int)
    requires Sorted(q) && 0 <= i < |q|
    ensures i < InsertionPoint(q, e) ==> !KeyLess(e, q[i])
    ensures i >= InsertionPoint(q, e) ==> !KeyLess(q[i], e)
  {
    var k := InsertionPoint(q, e);
    if i >= k && KeyLess(q[i], e) {
      if i == k {
        KeyLessTransitive(q[k], e, q[k]);
        KeyLessIrreflexive(q[k]);
      } else {
        KeyLessTransitive(q[i], e, q[k]);
      }
    }
  }

  /** Inserting keeps a sorted frontier sorted, with `e` after every entry of equal key. */
  lemma InsertKeepsSorted(q: seq<Entry>, e: Entry)
    ensures Sorted(q) ==> Sorted(Insert(q, e))
    ensures var k := InsertionPoint(q, e); var r := Insert(q, e);
      r[k] == e && r[..k] == q[..k] && r[k + 1..] == q[k..]
  {
    var k := InsertionPoint(q, e);
    var r := Insert(q, e);
    InsertShape(q, e);
    if Sorted(q) {
      forall i, j | 0 <= i < j < |r|
        ensures !KeyLess(r[j], r[i])
      {
        var qi := if i <= k then i else i - 1;
        var qj := if j <= k then j else j - 1;
        if i == k {
          InsertedFits(q, e, qj);
        } else if j == k {
          InsertedFits(q, e, qi);
        } else {
          assert r[i] == q[qi] && r[j] == q[qj] && qi < qj;
        }
      }
    }
    assert r[..k] == q[..k];
    assert r[k + 1..] == q[k..];
  }

  /** Insert entries one after another, in order. */
  function InsertAll(q: seq<Entry>, es: seq<Entry>): (r: seq<Entry>)
    ensures |r| == |q| + |es|
    ensures multiset(r) == multiset(q) + multiset(es)
    ensures Sorted(q) ==> Sorted(r)
    decreases |es|
  {
    if |es| == 0 then q
    else
      assert es == [es[0]] + es[1..];
      InsertKeepsSorted(q, es[0]);
      InsertAll(Insert(q, es[0]), es[1..])
  }
}
