/** Order-preserving filtering of sequences, the `Array.prototype.filter` of the model. */
module Seqs {

  /** `xs` can be obtained from `ys` by deleting elements, keeping the order of the rest. */
  ghost predicate IsSubseq<T>(xs: seq<T>, ys: seq<T>)
    decreases |ys|
  {
    xs == [] || (ys != [] && ((xs[0] == ys[0] && IsSubseq(xs[1..], ys[1..])) || IsSubseq(xs, ys[1..])))
  }

  /** The elements of `s` that satisfy `keep`, in their original order. FilterIsSubseq and
      FilterCounts complete the description: an order-preserving subsequence that holds every
      occurrence of a kept value. */
  function Filter<T(!new)>(s: seq<T>, keep: T -> bool): (r: seq<T>)
    ensures |r| <= |s|
    ensures forall x :: x in r ==> keep(x)
  {
    if s == [] then []
    else
      var rest := Filter(s[1..], keep);
      if keep(s[0]) then [s[0]] + rest else rest
  }

  /** The filtered sequence is an order-preserving subsequence of the input. */
  lemma {:induction false} FilterIsSubseq<T(!new)>(s: seq<T>, keep: T -> bool)
    ensures IsSubseq(Filter(s, keep), s)
    decreases |s|
  {
    if s != [] {
      var rest := Filter(s[1..], keep);
      FilterIsSubseq(s[1..], keep);
      if keep(s[0]) {
        assert Filter(s, keep) == [s[0]] + rest;
        assert ([s[0]] + rest)[1..] == rest;
      } else {
        assert Filter(s, keep) == rest;
        if rest != [] {
          assert rest[0] in rest;
        }
      }
    }
  }

  /** Membership in a filtered sequence: kept and present in the input. */
  lemma FilterMembership<T(!new)>(s: seq<T>, keep: T -> bool, x: T)
    ensures x in Filter(s, keep) <==> x in s && keep(x)
  {
    FilterCounts(s, keep, x);
    assert x in Filter(s, keep) <==> multiset(Filter(s, keep))[x] > 0;
    assert x in s <==> multiset(s)[x] > 0;
  }

  /** Filtering keeps every occurrence of a kept value and none of a dropped one. */
  lemma {:induction false} FilterCounts<T(!new)>(s: seq<T>, keep: T -> bool, x: T)
    ensures multiset(Filter(s, keep))[x] == if keep(x) then multiset(s)[x] else 0
    decreases |s|
  {
    if s != [] {
      FilterCounts(s[1..], keep, x);
      assert s == [s[0]] + s[1..];
      var head := if keep(s[0]) then [s[0]] else [];
      assert Filter(s, keep) == head + Filter(s[1..], keep);
    }
  }

  /** Filtering distributes over concatenation. */
  lemma {:induction false} FilterAppend<T(!new)>(s: seq<T>, t: seq<T>, keep: T -> bool)
    ensures Filter(s + t, keep) == Filter(s, keep) + Filter(t, keep)
    decreases |s|
  {
    if s == [] {
      assert s + t == t;
    } else {
      var st := s + t;
      assert st[0] == s[0] && st[1..] == s[1..] + t;
      FilterAppend(s[1..], t, keep);
      var head := if keep(s[0]) then [s[0]] else [];
      assert Filter(st, keep) == head + Filter(st[1..], keep);
      assert Filter(s, keep) == head + Filter(s[1..], keep);
    }
  }

  /** A filter that every element passes changes nothing. */
  lemma {:induction false} FilterKeepsAll<T(!new)>(s: seq<T>, keep: T -> bool)
    requires forall i :: 0 <= i < |s| ==> keep(s[i])
    ensures Filter(s, keep) == s
    decreases |s|
  {
    if s != [] {
      FilterKeepsAll(s[1..], keep);
      assert [s[0]] + s[1..] == s;
    }
  }

  /** Every element of a subsequence occurs in the original. */
  lemma {:induction false} SubseqMembers<T>(xs: seq<T>, ys: seq<T>, x: T)
    requires IsSubseq(xs, ys) && x in xs
    ensures x in ys
    decreases |ys|
  {
    if xs[0] == ys[0] && IsSubseq(xs[1..], ys[1..]) {
      if x != xs[0] {
        SubseqMembers(xs[1..], ys[1..], x);
      }
    } else {
      SubseqMembers(xs, ys[1..], x);
    }
  }

  /** A subsequence keeps the relative order of its elements: two positions of `xs` sit at
      increasing positions of `ys`. */
  lemma {:induction false} SubseqOrder<T>(xs: seq<T>, ys: seq<T>, i: int, j: int)
    requires IsSubseq(xs, ys) && 0 <= i < j < |xs|
    ensures exists p, q :: 0 <= p < q < |ys| && ys[p] == xs[i] && ys[q] == xs[j]
    decreases |ys|
  {
    if xs[0] == ys[0] && IsSubseq(xs[1..], ys[1..]) {
      if i == 0 {
        SubseqMembers(xs[1..], ys[1..], xs[j]);
        var q :| 0 <= q < |ys[1..]| && ys[1..][q] == xs[j];
        assert ys[0] == xs[i] && ys[q + 1] == xs[j];
      } else {
        SubseqOrder(xs[1..], ys[1..], i - 1, j - 1);
        var p, q :| 0 <= p < q < |ys[1..]| && ys[1..][p] == xs[1..][i - 1] && ys[1..][q] == xs[1..][j - 1];
        assert ys[p + 1] == xs[i] && ys[q + 1] == xs[j];
      }
    } else {
      SubseqOrder(xs, ys[1..], i, j);
      var p, q :| 0 <= p < q < |ys[1..]| && ys[1..][p] == xs[i] && ys[1..][q] == xs[j];
      assert ys[p + 1] == xs[i] && ys[q + 1] == xs[j];
    }
  }
}
