/** Facts about finite sequences without repetition, shared by the queue models. */
module Lists {

  ghost predicate NoDup<T>(q: seq<T>) {
    forall i, j | 0 <= i < j < |q| :: q[i] != q[j]
  }

  /** The elements of `q` that satisfy `f`, in order. */
  function Filter<T>(q: seq<T>, f: T -> bool): (r: seq<T>)
    ensures |r| <= |q|
  {
    if q == [] then [] else (if f(q[0]) then [q[0]] else []) + Filter(q[1..], f)
  }

  lemma {:induction false} FilterIn<T>(q: seq<T>, f: T -> bool, x: T)
    ensures x in Filter(q, f) <==> x in q && f(x)
  {
    if q != [] {
      FilterIn(q[1..], f, x);
      assert q == [q[0]] + q[1..];
    }
  }

  lemma FilterMembers<T>(q: seq<T>, f: T -> bool)
    ensures forall x :: x in Filter(q, f) <==> x in q && f(x)
  {
    forall x ensures x in Filter(q, f) <==> x in q && f(x) { FilterIn(q, f, x); }
  }

  lemma {:induction false} FilterNoDup<T>(q: seq<T>, f: T -> bool)
    requires NoDup(q)
    ensures NoDup(Filter(q, f))
  {
    if q != [] {
      FilterNoDup(q[1..], f);
      FilterIn(q[1..], f, q[0]);
      assert q[0] !in q[1..];
    }
  }

  lemma {:induction false} FilterAll<T>(q: seq<T>, f: T -> bool)
    requires forall x | x in q :: f(x)
    ensures Filter(q, f) == q
  {
    if q != [] { FilterAll(q[1..], f); }
  }

  lemma {:induction false} FilterNone<T>(q: seq<T>, f: T -> bool)
    requires forall x | x in q :: !f(x)
    ensures Filter(q, f) == []
  {
    if q != [] { FilterNone(q[1..], f); }
  }

  lemma {:induction false} FilterAppend<T>(q: seq<T>, r: seq<T>, f: T -> bool)
    ensures Filter(q + r, f) == Filter(q, f) + Filter(r, f)
  {
    if q == [] {
      assert q + r == r;
    } else {
      assert (q + r)[1..] == q[1..] + r;
      var h := if f(q[0]) then [q[0]] else [];
      FilterAppend(q[1..], r, f);
      assert Filter(q + r, f) == h + Filter(q[1..] + r, f);
      assert h + (Filter(q[1..], f) + Filter(r, f)) == (h + Filter(q[1..], f)) + Filter(r, f);
    }
  }

  /** `q` without the element `x`. */
  function Without<T(==)>(q: seq<T>, x: T): seq<T> {
    Filter(q, y => y != x)
  }

  lemma WithoutNoDup<T>(q: seq<T>, x: T)
    requires NoDup(q)
    ensures NoDup(Without(q, x))
  {
    FilterNoDup(q, z => z != x);
  }

  lemma WithoutIn<T>(q: seq<T>, x: T, y: T)
    ensures y in Without(q, x) <==> y in q && y != x
  {
    FilterIn(q, z => z != x, y);
  }

  function Cut<T>(q: seq<T>, k: nat): (r: seq<T>)
    requires k < |q|
    ensures |r| == |q| - 1
  {
    q[..k] + q[k + 1..]
  }

  lemma CutMembers<T>(q: seq<T>, k: nat)
    requires NoDup(q) && k < |q|
    ensures NoDup(Cut(q, k)) && forall x :: x in Cut(q, k) <==> x in q && x != q[k]
  {
    var r := Cut(q, k);
    forall x ensures x in r <==> x in q && x != q[k] {
      if x in q && x != q[k] {
        var j :| 0 <= j < |q| && q[j] == x;
        assert r[if j < k then j else j - 1] == x;
      }
    }
  }

  /** In a sequence without repetition, removing `q[k]` cuts out that one position. */
  lemma {:induction false} WithoutAt<T>(q: seq<T>, k: nat)
    requires NoDup(q) && k < |q|
    ensures Without(q, q[k]) == Cut(q, k)
  {
    if k == 0 {
      WithoutAbsent(q[1..], q[0]);
      assert Cut(q, 0) == q[1..];
    } else {
      assert q[1..][k - 1] == q[k];
      WithoutAt(q[1..], k - 1);
      assert Cut(q, k) == [q[0]] + Cut(q[1..], k - 1);
    }
  }

  lemma WithoutAbsent<T>(q: seq<T>, x: T)
    requires x !in q
    ensures Without(q, x) == q
  {
    FilterAll(q, y => y != x);
  }

  /** Where `x` first stands in `q`. */
  function Pos<T(==)>(q: seq<T>, x: T): (k: nat)
    requires x in q
    ensures k < |q| && q[k] == x
  {
    if q[0] == x then 0 else 1 + Pos(q[1..], x)
  }

  lemma {:induction false} PosAppend<T>(q: seq<T>, r: seq<T>, x: T)
    ensures x in q ==> Pos(q + r, x) == Pos(q, x)
    ensures x !in q && x in r ==> Pos(q + r, x) == |q| + Pos(r, x)
  {
    if q == [] {
      assert q + r == r;
    } else {
      assert (q + r)[1..] == q[1..] + r;
      PosAppend(q[1..], r, x);
    }
  }

  /** Filtering moves nobody back, and keeps the order of those who stay. */
  lemma {:induction false} PosFilter<T>(q: seq<T>, f: T -> bool, x: T)
    requires x in q && f(x)
    ensures x in Filter(q, f) && Pos(Filter(q, f), x) <= Pos(q, x)
  {
    FilterIn(q, f, x);
    if q[0] != x {
      PosFilter(q[1..], f, x);
      PosAppend(if f(q[0]) then [q[0]] else [], Filter(q[1..], f), x);
    }
  }

  lemma {:induction false} OrderFilter<T>(q: seq<T>, f: T -> bool, a: T, b: T)
    requires a in q && b in q && f(a) && f(b) && Pos(q, a) < Pos(q, b)
    ensures a in Filter(q, f) && b in Filter(q, f)
    ensures Pos(Filter(q, f), a) < Pos(Filter(q, f), b)
  {
    FilterIn(q, f, a);
    FilterIn(q, f, b);
    if q[0] == a {
    } else {
      assert q[0] != b;
      OrderFilter(q[1..], f, a, b);
      PosAppend(if f(q[0]) then [q[0]] else [], Filter(q[1..], f), a);
      PosAppend(if f(q[0]) then [q[0]] else [], Filter(q[1..], f), b);
    }
  }

  /** A sequence without repetition is no longer than the set it draws from. */
  lemma {:induction false} NoDupBound<T>(q: seq<T>, s: set<T>)
    requires NoDup(q) && forall x | x in q :: x in s
    ensures |q| <= |s|
  {
    if q != [] {
      assert q[0] !in q[1..];
      NoDupBound(q[1..], s - {q[0]});
    }
  }
}
