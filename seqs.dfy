/** Array operations of JavaScript that the components use on lists of entries, tags and images. */
module Seqs {

  /** `sub` is obtained from `s` by deleting elements: what is kept stays in its order. */
  predicate IsSubsequence<T(==)>(sub: seq<T>, s: seq<T>)
    decreases |s|
  {
    if sub == [] then true
    else if s == [] then false
    else if sub[0] == s[0] then IsSubsequence(sub[1..], s[1..])
    else IsSubsequence(sub, s[1..])
  }

  /** No value occurs twice. */
  predicate Distinct<T(==)>(s: seq<T>) {
    forall i, j :: 0 <= i < j < |s| ==> s[i] != s[j]
  }

  /** `Array.prototype.filter`: the elements for which `keep` holds, in their order. */
  function Filter<T(!new)>(s: seq<T>, keep: T -> bool): (r: seq<T>)
    ensures |r| <= |s|
    ensures forall x :: x in r <==> x in s && keep(x)
  {
    if s == [] then []
    else
      assert s == [s[0]] + s[1..];
      (if keep(s[0]) then [s[0]] else []) + Filter(s[1..], keep)
  }

  /** Filtering never adds an element and never reorders what it keeps. */
  lemma {:induction false} FilterIsSubsequence<T(!new)>(s: seq<T>, keep: T -> bool)
    ensures IsSubsequence(Filter(s, keep), s)
  {
    if s != [] {
      var rest := Filter(s[1..], keep);
      FilterIsSubsequence(s[1..], keep);
      if keep(s[0]) {
        assert Filter(s, keep) == [s[0]] + rest;
        assert ([s[0]] + rest)[1..] == rest;
      } else {
        assert Filter(s, keep) == rest;
        assert rest != [] ==> rest[0] in rest && rest[0] != s[0];
      }
    }
  }

  /** Filtering distributes over concatenation. */
  lemma {:induction false} FilterAppend<T(!new)>(a: seq<T>, b: seq<T>, keep: T -> bool)
    ensures Filter(a + b, keep) == Filter(a, keep) + Filter(b, keep)
  {
    if a == [] {
      assert a + b == b;
    } else {
      var ab := a + b;
      assert ab[0] == a[0] && ab[1..] == a[1..] + b;
      FilterAppend(a[1..], b, keep);
      if keep(a[0]) {
        assert Filter(ab, keep) == [a[0]] + Filter(a[1..] + b, keep);
        assert Filter(a, keep) == [a[0]] + Filter(a[1..], keep);
      } else {
        assert Filter(ab, keep) == Filter(a[1..] + b, keep);
        assert Filter(a, keep) == Filter(a[1..], keep);
      }
    }
  }

  /** Filtering keeps every occurrence of a kept value and no occurrence of a dropped one. */
  lemma {:induction false} FilterCounts<T(!new)>(s: seq<T>, keep: T -> bool, x: T)
    ensures multiset(Filter(s, keep))[x] == if keep(x) then multiset(s)[x] else 0
  {
    if s != [] {
      FilterCounts(s[1..], keep, x);
      assert s == [s[0]] + s[1..];
    }
  }

  /** A subsequence of a list without repetitions has none either. */
  lemma {:induction false} SubsequenceKeepsDistinct<T>(sub: seq<T>, s: seq<T>)
    requires IsSubsequence(sub, s) && Distinct(s)
    ensures Distinct(sub)
    decreases |s|
  {
    if sub != [] && s != [] {
      if sub[0] == s[0] {
        SubsequenceKeepsDistinct(sub[1..], s[1..]);
        SubsequenceElements(sub[1..], s[1..]);
        forall j | 0 < j < |sub| ensures sub[0] != sub[j] {
          assert sub[j] == sub[1..][j - 1];
          assert sub[j] in s[1..];
          var k :| 0 <= k < |s[1..]| && s[1..][k] == sub[j];
          assert s[k + 1] == sub[j];
        }
      } else {
        SubsequenceKeepsDistinct(sub, s[1..]);
      }
    }
  }

  /** Every element of a subsequence comes from the sequence. */
  lemma {:induction false} SubsequenceElements<T>(sub: seq<T>, s: seq<T>)
    requires IsSubsequence(sub, s)
    ensures forall x :: x in sub ==> x in s
    decreases |s|
  {
    if sub != [] && s != [] {
      if sub[0] == s[0] {
        SubsequenceElements(sub[1..], s[1..]);
        assert sub == [sub[0]] + sub[1..];
      } else {
        SubsequenceElements(sub, s[1..]);
      }
    }
  }

  /** `x` is the last element of `s` that passes `keep`: it passes, and nothing after it does. */
  ghost predicate LastKept<T>(s: seq<T>, keep: T -> bool, x: T) {
    exists i :: 0 <= i < |s| && s[i] == x && keep(s[i]) && forall j :: i < j < |s| ==> !keep(s[j])
  }

  /** The last element of a filter's result is the last element of the input that passes. */
  lemma {:induction false} FilterLast<T(!new)>(s: seq<T>, keep: T -> bool)
    requires Filter(s, keep) != []
    ensures LastKept(s, keep, Filter(s, keep)[|Filter(s, keep)| - 1])
  {
    var f := Filter(s, keep);
    var rest := Filter(s[1..], keep);
    if rest != [] {
      FilterLast(s[1..], keep);
      var i :| 0 <= i < |s[1..]| && s[1..][i] == rest[|rest| - 1] && keep(s[1..][i]) &&
        forall j :: i < j < |s[1..]| ==> !keep(s[1..][j]);
      assert f[|f| - 1] == rest[|rest| - 1];
      assert s[i + 1] == s[1..][i];
      forall j | i + 1 < j < |s| ensures !keep(s[j]) {
        assert s[j] == s[1..][j - 1];
      }
    } else {
      assert f == [s[0]];
      forall j | 0 < j < |s| ensures !keep(s[j]) {
        assert s[j] in s[1..];
      }
    }
  }
}
