/** Sums and selections over sequences, and when two sequences hold the same elements. */
module Sums {
  import opened Wrappers

  function Sum<T>(rows: seq<T>, f: T -> int): int {
    if rows == [] then 0 else Sum(rows[..|rows| - 1], f) + f(rows[|rows| - 1])
  }

  lemma SumOfOne<T>(x: T, f: T -> int)
    ensures Sum([x], f) == f(x)
  {
    assert [x][..0] == [];
  }

  lemma {:induction false} SumConcat<T>(a: seq<T>, b: seq<T>, f: T -> int)
    ensures Sum(a + b, f) == Sum(a, f) + Sum(b, f)
  {
    if b == [] {
      assert a + b == a;
    } else {
      var n := |b| - 1;
      assert (a + b)[..|a| + n] == a + b[..n];
      SumConcat(a, b[..n], f);
    }
  }

  /** A sum does not depend on the order of its rows. */
  lemma {:induction false} SumIsOrderFree<T>(a: seq<T>, b: seq<T>, f: T -> int)
    requires multiset(a) == multiset(b)
    ensures Sum(a, f) == Sum(b, f)
    decreases |a|
  {
    if a == [] {
      assert |multiset(b)| == |multiset(a)|;
    } else {
      var n := |a| - 1;
      assert a[n] in multiset(a);
      var i :| 0 <= i < |b| && b[i] == a[n];
      DropOne(b, i, f);
      DropOne(a, n, f);
      assert a[..n] + a[n + 1..] == a[..n];
      SumIsOrderFree(a[..n], b[..i] + b[i + 1..], f);
    }
  }

  lemma DropOne<T>(b: seq<T>, i: nat, f: T -> int)
    requires i < |b|
    ensures multiset(b[..i] + b[i + 1..]) == multiset(b) - multiset{b[i]}
    ensures Sum(b, f) == Sum(b[..i] + b[i + 1..], f) + f(b[i])
  {
    Around(b, i);
    SumConcat(b[..i] + [b[i]], b[i + 1..], f);
    SumConcat(b[..i], [b[i]], f);
    SumConcat(b[..i], b[i + 1..], f);
    SumOfOne(b[i], f);
  }

  lemma Around<T>(b: seq<T>, i: nat)
    requires i < |b|
    ensures b == b[..i] + [b[i]] + b[i + 1..]
    ensures multiset(b[..i] + b[i + 1..]) == multiset(b) - multiset{b[i]}
  {
    assert b == b[..i] + [b[i]] + b[i + 1..];
  }

  predicate NoRepeats<T(==)>(a: seq<T>) { forall i, j :: 0 <= i < j < |a| ==> a[i] != a[j] }

  lemma {:induction false} CountedOnce<T>(a: seq<T>, x: T)
    requires NoRepeats(a)
    ensures multiset(a)[x] == if x in a then 1 else 0
  {
    if |a| > 0 {
      var n := |a| - 1;
      CountedOnce(a[..n], x);
      assert a == a[..n] + [a[n]];
    }
  }

  /** Without repeats, the same elements are the same multiset. */
  lemma SameElements<T>(a: seq<T>, b: seq<T>)
    requires NoRepeats(a) && NoRepeats(b) && forall x :: x in a <==> x in b
    ensures multiset(a) == multiset(b)
  {
    forall x ensures multiset(a)[x] == multiset(b)[x] {
      CountedOnce(a, x);
      CountedOnce(b, x);
    }
  }

  /** What `f` selects from each row, in order. */
  function Pick<T, U>(rows: seq<T>, f: T -> Option<U>): seq<U> {
    if rows == [] then []
    else Pick(rows[..|rows| - 1], f) + (var x := f(rows[|rows| - 1]); if x.Some? then [x.value] else [])
  }

  ghost predicate Picked<T(!new), U>(rows: seq<T>, f: T -> Option<U>, x: U) {
    exists y :: y in rows && f(y) == Some(x)
  }

  lemma {:induction false} PickHolds<T(!new), U>(rows: seq<T>, f: T -> Option<U>, x: U)
    ensures x in Pick(rows, f) <==> Picked(rows, f, x)
  {
    if |rows| > 0 {
      var init, last := rows[..|rows| - 1], rows[|rows| - 1];
      PickHolds(init, f, x);
      assert rows == init + [last];
      assert forall y :: y in rows <==> y in init || y == last;
    }
  }

  lemma PickOfTwo<T, U>(a: T, b: T, f: T -> Option<U>)
    requires f(a).Some? && f(b).Some?
    ensures Pick([a, b], f) == [f(a).value, f(b).value]
  {
    assert [a, b][..1] == [a] && [a][..0] == [];
    assert Pick([a], f) == [] + [f(a).value];
  }

  lemma PickOfOne<T, U>(a: T, f: T -> Option<U>)
    requires f(a).Some?
    ensures Pick([a], f) == [f(a).value]
  {
    assert [a][..0] == [];
    assert Pick([a], f) == [] + [f(a).value];
  }

  /** No two rows have the same thing selected. */
  ghost predicate PicksApart<T, U>(rows: seq<T>, f: T -> Option<U>) {
    forall i, j :: 0 <= i < j < |rows| && f(rows[i]).Some? ==> f(rows[i]) != f(rows[j])
  }

  lemma {:induction false} PickHasNoRepeats<T(!new), U>(rows: seq<T>, f: T -> Option<U>)
    requires PicksApart(rows, f)
    ensures NoRepeats(Pick(rows, f))
  {
    if |rows| > 0 {
      var init, last := rows[..|rows| - 1], rows[|rows| - 1];
      PickHasNoRepeats(init, f);
      if f(last).Some? {
        PickHolds(init, f, f(last).value);
      }
    }
  }
}
