/**
 * Sequence vocabulary for the query layer: the WHERE filter over a table,
 * a filter whose test may raise, SQL DISTINCT, lookups by primary key and
 * the subsequence order every filter keeps.
 */
module Seqs {
  import opened Base

  // ---------------------------------------------------------------------------
  // Filtering
  // ---------------------------------------------------------------------------

  /** The elements of `s` that `keep` accepts, in their original order. */
  function Filter<T(!new)>(s: seq<T>, keep: T -> bool): (r: seq<T>)
    ensures forall x {:trigger x in r} :: x in r <==> x in s && keep(x)
    ensures |r| <= |s|
  {
    if s == [] then []
    else
      assert forall x :: x in s <==> x == s[0] || x in s[1..];
      (if keep(s[0]) then [s[0]] else []) + Filter(s[1..], keep)
  }

  /** Filtering one more element at the end appends it exactly when it is kept. */
  lemma {:induction false} FilterSnoc<T(!new)>(s: seq<T>, x: T, keep: T -> bool)
    ensures Filter(s + [x], keep) == Filter(s, keep) + (if keep(x) then [x] else [])
  {
    if s != [] {
      assert (s + [x])[0] == s[0];
      assert (s + [x])[1..] == s[1..] + [x];
      FilterSnoc(s[1..], x, keep);
    }
  }

  /** A filter that keeps every element returns the sequence unchanged. */
  lemma {:induction false} FilterKeepsAll<T(!new)>(s: seq<T>, keep: T -> bool)
    requires forall x :: x in s ==> keep(x)
    ensures Filter(s, keep) == s
  {
    if s != [] {
      FilterKeepsAll(s[1..], keep);
    }
  }

  /** `xs` is obtained from `ys` by deleting elements: same order, nothing added. */
  ghost predicate IsSubsequence<T(!new)>(xs: seq<T>, ys: seq<T>)
    decreases |ys|
  {
    || xs == []
    || (&& ys != []
        && (|| (xs[0] == ys[0] && IsSubsequence(xs[1..], ys[1..]))
            || IsSubsequence(xs, ys[1..])))
  }

  lemma {:induction false} FilterIsSubsequence<T(!new)>(s: seq<T>, keep: T -> bool)
    ensures IsSubsequence(Filter(s, keep), s)
  {
    if s != [] {
      FilterIsSubsequence(s[1..], keep);
      var r := Filter(s, keep);
      if keep(s[0]) {
        assert r[0] == s[0] && r[1..] == Filter(s[1..], keep);
      } else {
        assert r == Filter(s[1..], keep);
      }
    }
  }

  /** A subsequence repeats no element more often than the sequence it came from. */
  lemma {:induction false} SubsequenceMultiset<T(!new)>(xs: seq<T>, ys: seq<T>)
    requires IsSubsequence(xs, ys)
    ensures multiset(xs) <= multiset(ys)
    decreases |ys|
  {
    if xs != [] {
      assert ys == [ys[0]] + ys[1..];
      if xs[0] == ys[0] && IsSubsequence(xs[1..], ys[1..]) {
        SubsequenceMultiset(xs[1..], ys[1..]);
        assert xs == [xs[0]] + xs[1..];
      } else {
        SubsequenceMultiset(xs, ys[1..]);
      }
    }
  }

  /** A subsequence holds only elements of the sequence it came from. */
  lemma SubsequenceMembers<T(!new)>(xs: seq<T>, ys: seq<T>)
    requires IsSubsequence(xs, ys)
    ensures forall x :: x in xs ==> x in ys
  {
    SubsequenceMultiset(xs, ys);
    forall x | x in xs ensures x in ys {
      assert x in multiset(xs);
    }
  }

  // ---------------------------------------------------------------------------
  // A filter whose test may raise
  // ---------------------------------------------------------------------------

  /**
   * A `for` loop that appends every element whose test is true and stops at the
   * first test that raises, propagating that exception.
   */
  function KeepWhere<T(!new), E>(s: seq<T>, test: T -> Result<bool, E>): Result<seq<T>, E>
    decreases |s|
  {
    if s == [] then Success([])
    else
      match KeepWhere(s[..|s| - 1], test)
      case Failure(e) => Failure(e)
      case Success(r) =>
        match test(s[|s| - 1])
        case Failure(e) => Failure(e)
        case Success(keep) => Success(if keep then r + [s[|s| - 1]] else r)
  }

  /** The elements a fallible test accepts without raising. */
  function Kept<T(!new), E>(test: T -> Result<bool, E>): T -> bool
  {
    x => test(x).Success? && test(x).value
  }

  /**
   * KeepWhere succeeds exactly when no test raises, and then it is the plain
   * filter; otherwise it reports the exception of the first element whose test
   * raises.
   */
  lemma {:induction false} KeepWhereSpec<T(!new), E>(s: seq<T>, test: T -> Result<bool, E>)
    ensures KeepWhere(s, test).Success? <==> forall i :: 0 <= i < |s| ==> test(s[i]).Success?
    ensures KeepWhere(s, test).Success? ==> KeepWhere(s, test).value == Filter(s, Kept(test))
    ensures KeepWhere(s, test).Failure? ==>
              exists i :: && 0 <= i < |s|
                          && test(s[i]) == Failure(KeepWhere(s, test).error)
                          && forall j :: 0 <= j < i ==> test(s[j]).Success?
    decreases |s|
  {
    if s != [] {
      var init, last := s[..|s| - 1], s[|s| - 1];
      assert s == init + [last];
      KeepWhereSpec(init, test);
      FilterSnoc(init, last, Kept(test));
      if KeepWhere(init, test).Failure? {
        var i :| && 0 <= i < |init|
                 && test(init[i]) == Failure(KeepWhere(init, test).error)
                 && forall j :: 0 <= j < i ==> test(init[j]).Success?;
        assert s[i] == init[i];
      } else if test(last).Failure? {
        assert forall j :: 0 <= j < |init| ==> s[j] == init[j];
        assert test(s[|s| - 1]) == Failure(KeepWhere(s, test).error);
      }
    }
  }

  /** Once a prefix has raised, the whole loop has raised the same exception. */
  lemma {:induction false} KeepWhereFailurePersists<T(!new), E>(s: seq<T>, j: nat, test: T -> Result<bool, E>)
    requires j <= |s|
    requires KeepWhere(s[..j], test).Failure?
    ensures KeepWhere(s, test) == KeepWhere(s[..j], test)
    decreases |s|
  {
    if j < |s| {
      var init := s[..|s| - 1];
      assert init[..j] == s[..j];
      KeepWhereFailurePersists(init, j, test);
    } else {
      assert s[..j] == s;
    }
  }

  // ---------------------------------------------------------------------------
  // Duplicates and SQL DISTINCT
  // ---------------------------------------------------------------------------

  predicate NoDuplicates<T(==,!new)>(s: seq<T>)
  {
    forall i, j :: 0 <= i < j < |s| ==> s[i] != s[j]
  }

  lemma {:induction false} FilterKeepsNoDuplicates<T(!new)>(s: seq<T>, keep: T -> bool)
    requires NoDuplicates(s)
    ensures NoDuplicates(Filter(s, keep))
  {
    if s != [] {
      FilterKeepsNoDuplicates(s[1..], keep);
      assert s[0] !in s[1..];
      assert s[0] !in Filter(s[1..], keep);
    }
  }

  /** SQL DISTINCT: every element kept at its first occurrence, later repeats dropped. */
  function Distinct<T(==,!new)>(s: seq<T>): (r: seq<T>)
    ensures forall x :: x in r <==> x in s
    ensures NoDuplicates(r)
  {
    if s == [] then []
    else
      var init, last := s[..|s| - 1], s[|s| - 1];
      assert s == init + [last];
      var r := Distinct(init);
      if last in r then r else r + [last]
  }

  // ---------------------------------------------------------------------------
  // Tables keyed by an integer primary key
  // ---------------------------------------------------------------------------

  /** No two rows of `s` share a key: `key` is a primary key of the table. */
  predicate DistinctKeys<T(!new)>(s: seq<T>, key: T -> int)
  {
    forall i, j :: 0 <= i < j < |s| ==> key(s[i]) != key(s[j])
  }

  function Keys<T(==,!new)>(s: seq<T>, key: T -> int): set<int>
  {
    set x | x in s :: key(x)
  }

  /** The row of `s` whose key is `k`, if any: a lookup by primary key. */
  function Find<T(!new)>(s: seq<T>, key: T -> int, k: int): (r: Option<T>)
    ensures r.Some? ==> r.value in s && key(r.value) == k
    ensures r.None? <==> k !in Keys(s, key)
  {
    if s == [] then None
    else if key(s[0]) == k then Some(s[0])
    else
      assert forall x :: x in s <==> x == s[0] || x in s[1..];
      Find(s[1..], key, k)
  }

  /** Under a primary key, a row is what the lookup of its own key returns. */
  lemma FindByKey<T(!new)>(s: seq<T>, key: T -> int, x: T)
    requires DistinctKeys(s, key)
    requires x in s
    ensures Find(s, key, key(x)) == Some(x)
  {
    var y := Find(s, key, key(x)).value;
    var i :| 0 <= i < |s| && s[i] == x;
    var j :| 0 <= j < |s| && s[j] == y;
    assert i == j;
  }

  lemma {:induction false} FilterKeepsDistinctKeys<T(!new)>(s: seq<T>, keep: T -> bool, key: T -> int)
    requires DistinctKeys(s, key)
    ensures DistinctKeys(Filter(s, keep), key)
  {
    if s != [] {
      FilterKeepsDistinctKeys(s[1..], keep, key);
      var r := Filter(s[1..], keep);
      forall y | y in r ensures key(y) != key(s[0]) {
        var j :| 0 <= j < |s[1..]| && s[1..][j] == y;
        assert s[j + 1] == y;
      }
    }
  }

  /** A table never has more distinct keys than rows. */
  lemma {:induction false} KeysCard<T(!new)>(s: seq<T>, key: T -> int)
    ensures |Keys(s, key)| <= |s|
  {
    if s != [] {
      KeysCard(s[1..], key);
      assert Keys(s, key) == {key(s[0])} + Keys(s[1..], key) by {
        assert forall x :: x in s <==> x == s[0] || x in s[1..];
      }
    }
  }
}
