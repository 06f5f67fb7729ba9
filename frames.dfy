/**
 * The few pandas operations the billing code is built from, stated once over sequences:
 * boolean-mask selection, column projection, `unique()`, and `.sum()` skipping missing values.
 */
module Frames {
  import opened Wrappers

  /** No value occurs twice. */
  predicate NoDuplicates<T(==,!new)>(s: seq<T>) {
    forall i, j :: 0 <= i < j < |s| ==> s[i] != s[j]
  }

  /** Appending a value keeps a sequence duplicate-free exactly when the value is new. */
  lemma NoDuplicatesSnoc<T(!new)>(s: seq<T>, x: T)
    ensures NoDuplicates(s + [x]) <==> NoDuplicates(s) && x !in s
  {
    assert forall i :: 0 <= i < |s| ==> (s + [x])[i] == s[i];
    if x in s {
      var i :| 0 <= i < |s| && s[i] == x;
      assert (s + [x])[i] == (s + [x])[|s|];
    }
  }

  /** Position `j` holds the first value that was already seen earlier. */
  predicate FirstRepeatAt<T(==,!new)>(s: seq<T>, j: int) {
    0 <= j < |s| && s[j] in s[..j] && NoDuplicates(s[..j])
  }

  /** A sequence with a repeated value is not duplicate-free. */
  lemma FirstRepeatBreaksNoDuplicates<T(!new)>(s: seq<T>, j: int)
    requires FirstRepeatAt(s, j)
    ensures !NoDuplicates(s)
  {
    var i :| 0 <= i < j && s[..j][i] == s[j];
    assert s[i] == s[j];
  }

  /** `df[mask]` where the mask is `p` applied row by row: the rows satisfying `p`, in order. */
  function Where<T(==,!new)>(s: seq<T>, p: T -> bool): (r: seq<T>)
    ensures |r| <= |s|
    ensures forall k :: 0 <= k < |r| ==> p(r[k])
    decreases |s|
  {
    if s == [] then []
    else
      var rest := Where(s[1..], p);
      if p(s[0]) then [s[0]] + rest else rest
  }

  /**
   * The selection holds each row satisfying the mask exactly as many times as the table does,
   * and no other row.
   */
  lemma {:induction false} WhereMultiset<T(!new)>(s: seq<T>, p: T -> bool, x: T)
    ensures multiset(Where(s, p))[x] == if p(x) then multiset(s)[x] else 0
    decreases |s|
  {
    if s != [] {
      WhereMultiset(s[1..], p, x);
      assert s == [s[0]] + s[1..];
    }
  }

  /** A row is selected exactly when it is in the table and satisfies the mask. */
  lemma WhereMembers<T(!new)>(s: seq<T>, p: T -> bool, x: T)
    ensures x in Where(s, p) <==> x in s && p(x)
  {
    WhereMultiset(s, p, x);
    assert x in Where(s, p) <==> multiset(Where(s, p))[x] > 0;
  }

  /** Nothing is selected exactly when no row satisfies the mask. */
  lemma {:induction false} WhereEmptyIff<T(!new)>(s: seq<T>, p: T -> bool)
    ensures |Where(s, p)| == 0 <==> forall k :: 0 <= k < |s| ==> !p(s[k])
    decreases |s|
  {
    if s != [] {
      WhereEmptyIff(s[1..], p);
      assert forall k :: 1 <= k < |s| ==> s[k] == s[1..][k - 1];
    }
  }

  /** `a` is `b` with some elements left out, the rest in their original order. */
  predicate Subsequence<T(==)>(a: seq<T>, b: seq<T>)
    decreases |b|
  {
    if a == [] then true
    else if b == [] then false
    else if a[0] == b[0] then Subsequence(a[1..], b[1..])
    else Subsequence(a, b[1..])
  }

  /** A selection is an order-preserving subset of the table. */
  lemma {:induction false} WhereSubsequence<T(!new)>(s: seq<T>, p: T -> bool)
    ensures Subsequence(Where(s, p), s)
    decreases |s|
  {
    if s != [] {
      WhereSubsequence(s[1..], p);
      var rest := Where(s[1..], p);
      if p(s[0]) {
        assert ([s[0]] + rest)[1..] == rest;
      }
    }
  }

  /** Projecting both sides keeps an order-preserving subset one. */
  lemma {:induction false} SubsequenceMap<T, U>(a: seq<T>, b: seq<T>, f: T -> U)
    requires Subsequence(a, b)
    ensures Subsequence(MapSeq(a, f), MapSeq(b, f))
    decreases |b|
  {
    if a != [] {
      assert MapSeq(b, f)[1..] == MapSeq(b[1..], f);
      if a[0] == b[0] {
        assert MapSeq(a, f)[1..] == MapSeq(a[1..], f);
        SubsequenceMap(a[1..], b[1..], f);
      } else {
        SubsequenceMap(a, b[1..], f);
        SubsequenceSkip(MapSeq(a, f), MapSeq(b, f));
      }
    }
  }

  /** A subsequence of the tail is a subsequence of the whole. */
  lemma {:induction false} SubsequenceSkip<T>(a: seq<T>, b: seq<T>)
    requires b != [] && Subsequence(a, b[1..])
    ensures Subsequence(a, b)
    decreases |b|, 0
  {
    if a != [] && a[0] == b[0] {
      SubsequenceTail(a, b[1..]);
    }
  }

  /** Dropping the first element of a subsequence keeps it a subsequence. */
  lemma {:induction false} SubsequenceTail<T>(a: seq<T>, c: seq<T>)
    requires a != [] && Subsequence(a, c)
    ensures Subsequence(a[1..], c)
    decreases |c|, 1
  {
    if a[0] == c[0] {
      SubsequenceSkip(a[1..], c);
    } else {
      SubsequenceTail(a, c[1..]);
      SubsequenceSkip(a[1..], c);
    }
  }

  /** Selection distributes over concatenation, so it keeps the relative order of rows. */
  lemma {:induction false} WhereAppend<T(!new)>(a: seq<T>, b: seq<T>, p: T -> bool)
    ensures Where(a + b, p) == Where(a, p) + Where(b, p)
    decreases |a|
  {
    if a == [] {
      assert a + b == b;
    } else {
      assert (a + b)[1..] == a[1..] + b;
      WhereAppend(a[1..], b, p);
    }
  }

  /** Selecting with a mask that holds on every row keeps the whole table. */
  lemma {:induction false} WhereAll<T(!new)>(s: seq<T>, p: T -> bool)
    requires forall k :: 0 <= k < |s| ==> p(s[k])
    ensures Where(s, p) == s
    decreases |s|
  {
    if s != [] {
      WhereAll(s[1..], p);
    }
  }

  /** Selecting twice is selecting once with the conjunction of the two masks. */
  lemma {:induction false} WhereWhere<T(!new)>(s: seq<T>, p: T -> bool, q: T -> bool, pq: T -> bool)
    requires forall x :: pq(x) == (p(x) && q(x))
    ensures Where(Where(s, p), q) == Where(s, pq)
    decreases |s|
  {
    if s != [] {
      WhereWhere(s[1..], p, q, pq);
    }
  }

  /** One column of a table: `f` applied to every row. */
  function MapSeq<T, U>(s: seq<T>, f: T -> U): (r: seq<U>)
    ensures |r| == |s|
    ensures forall k :: 0 <= k < |s| ==> r[k] == f(s[k])
  {
    seq(|s|, k requires 0 <= k < |s| => f(s[k]))
  }

  /** A value is in the projection of the selected rows exactly when some selected row projects to it. */
  lemma MapWhereMembers<T(!new), U>(s: seq<T>, p: T -> bool, f: T -> U, y: U)
    ensures y in MapSeq(Where(s, p), f) <==> exists k :: 0 <= k < |s| && p(s[k]) && f(s[k]) == y
  {
    var rows := Where(s, p);
    if y in MapSeq(rows, f) {
      var j :| 0 <= j < |rows| && f(rows[j]) == y;
      WhereMembers(s, p, rows[j]);
      var k :| 0 <= k < |s| && s[k] == rows[j];
    }
    if exists k :: 0 <= k < |s| && p(s[k]) && f(s[k]) == y {
      var k :| 0 <= k < |s| && p(s[k]) && f(s[k]) == y;
      WhereMembers(s, p, s[k]);
      var j :| 0 <= j < |rows| && rows[j] == s[k];
      assert MapSeq(rows, f)[j] == y;
    }
  }

  /** Projection distributes over concatenation. */
  lemma MapSeqAppend<T, U>(a: seq<T>, b: seq<T>, f: T -> U)
    ensures MapSeq(a + b, f) == MapSeq(a, f) + MapSeq(b, f)
  {
    assert forall k :: 0 <= k < |a| ==> (a + b)[k] == a[k];
    assert forall k :: |a| <= k < |a| + |b| ==> (a + b)[k] == b[k - |a|];
  }

  /** The present values of a column, in order (missing cells dropped). */
  function PresentValues<T(==,!new)>(xs: seq<Option<T>>): (r: seq<T>)
    ensures |r| <= |xs|
    decreases |xs|
  {
    if xs == [] then []
    else
      var rest := PresentValues(xs[1..]);
      if xs[0].Some? then [xs[0].value] + rest else rest
  }

  /** A value is present exactly when the column holds it. */
  lemma {:induction false} PresentValuesMembers<T(!new)>(xs: seq<Option<T>>, x: T)
    ensures x in PresentValues(xs) <==> Some(x) in xs
    decreases |xs|
  {
    if xs != [] {
      PresentValuesMembers(xs[1..], x);
      assert xs == [xs[0]] + xs[1..];
    }
  }

  /** A further value adds its content, if present, at the end. */
  lemma {:induction false} PresentValuesSnoc<T(!new)>(xs: seq<Option<T>>, x: Option<T>)
    ensures PresentValues(xs + [x]) == PresentValues(xs) + if x.Some? then [x.value] else []
    decreases |xs|
  {
    if xs == [] {
      assert ([] + [x])[1..] == [];
    } else {
      assert (xs + [x])[1..] == xs[1..] + [x];
      PresentValuesSnoc(xs[1..], x);
    }
  }

  /** Mapping over the present values of one more entry maps that entry too, when it is present. */
  lemma MapPresentValuesSnoc<T(!new), U>(xs: seq<Option<T>>, i: int, f: T -> U)
    requires 0 <= i < |xs|
    ensures MapSeq(PresentValues(xs[..i + 1]), f)
            == MapSeq(PresentValues(xs[..i]), f) + if xs[i].Some? then [f(xs[i].value)] else []
  {
    assert xs[..i + 1] == xs[..i] + [xs[i]];
    PresentValuesSnoc(xs[..i], xs[i]);
    MapSeqAppend(PresentValues(xs[..i]), if xs[i].Some? then [xs[i].value] else [], f);
  }

  /** On a duplicate-free column the present values are the column less its one missing entry, if any. */
  lemma {:induction false} PresentValuesLength<T(!new)>(xs: seq<Option<T>>)
    requires NoDuplicates(xs)
    ensures |PresentValues(xs)| == if None in xs then |xs| - 1 else |xs|
    decreases |xs|
  {
    if xs != [] {
      assert NoDuplicates(xs[1..]);
      PresentValuesLength(xs[1..]);
      assert xs == [xs[0]] + xs[1..];
      if xs[0].None? {
        assert None !in xs[1..];
      }
    }
  }

  /** pandas `unique()`: each value once, in order of first appearance. */
  function Distinct<T(==,!new)>(s: seq<T>): (r: seq<T>)
    ensures forall x :: x in r <==> x in s
    ensures NoDuplicates(r)
    decreases |s|
  {
    if s == [] then []
    else
      var init := s[..|s| - 1];
      var last := s[|s| - 1];
      var r := Distinct(init);
      assert s == init + [last];
      if last in r then r else r + [last]
  }

  /** A value is appended to the result of `unique()` exactly when it is seen for the first time. */
  lemma DistinctSnoc<T(!new)>(s: seq<T>, x: T)
    ensures Distinct(s + [x]) == if x in s then Distinct(s) else Distinct(s) + [x]
  {
    assert (s + [x])[..|s + [x]| - 1] == s;
  }

  /** On a column without repeated values `unique()` changes nothing. */
  lemma {:induction false} DistinctOfDistinctFree<T(!new)>(s: seq<T>)
    requires NoDuplicates(s)
    ensures Distinct(s) == s
    decreases |s|
  {
    if s != [] {
      var init := s[..|s| - 1];
      assert NoDuplicates(init);
      DistinctOfDistinctFree(init);
      assert s[|s| - 1] !in init;
      assert init + [s[|s| - 1]] == s;
    }
  }

  /** pandas `Series.sum()`: the sum of the present values; missing values are skipped (all missing: 0). */
  function SumPresent(xs: seq<Option<real>>): real
    decreases |xs|
  {
    if xs == [] then 0.0
    else (if xs[0].Some? then xs[0].value else 0.0) + SumPresent(xs[1..])
  }

  /** The sum of two stacked columns is the sum of their sums. */
  lemma {:induction false} SumAppend(a: seq<Option<real>>, b: seq<Option<real>>)
    ensures SumPresent(a + b) == SumPresent(a) + SumPresent(b)
    decreases |a|
  {
    if a != [] {
      assert (a + b)[1..] == a[1..] + b;
      SumAppend(a[1..], b);
    } else {
      assert a + b == b;
    }
  }

  /** A column with no present value sums to zero. */
  lemma {:induction false} SumAllMissing(xs: seq<Option<real>>)
    requires forall k :: 0 <= k < |xs| ==> xs[k].None?
    ensures SumPresent(xs) == 0.0
    decreases |xs|
  {
    if xs != [] {
      SumAllMissing(xs[1..]);
    }
  }

  /** Missing values contribute nothing: dropping them leaves the sum unchanged. */
  lemma {:induction false} SumSkipsMissing(xs: seq<Option<real>>)
    ensures SumPresent(xs) == SumPresent(MapSeq(PresentValues(xs), (v: real) => Some(v)))
    decreases |xs|
  {
    if xs != [] {
      SumSkipsMissing(xs[1..]);
      var rest := PresentValues(xs[1..]);
      var f := (v: real) => Some(v);
      if xs[0].Some? {
        assert MapSeq([xs[0].value] + rest, f) == [Some(xs[0].value)] + MapSeq(rest, f);
        assert PresentValues(xs) == [xs[0].value] + rest;
      } else {
        assert PresentValues(xs) == rest;
      }
    }
  }
}
