/** Frames and tables are bags of rows; a sequence is a bag in one of its physical orders. */
module Frames {

  ghost predicate NoDuplicates<T(!new)>(s: seq<T>) {
    forall i, j :: 0 <= i < j < |s| ==> s[i] != s[j]
  }

  function Filter<T(!new)>(s: seq<T>, keep: T -> bool): (r: seq<T>)
    ensures |r| <= |s|
    ensures forall x :: x in r <==> x in s && keep(x)
  {
    if s == [] then []
    else if keep(s[0]) then [s[0]] + Filter(s[1..], keep)
    else Filter(s[1..], keep)
  }

  function Map<T, U>(s: seq<T>, f: T -> U): (r: seq<U>)
    ensures |r| == |s| && forall i :: 0 <= i < |s| ==> r[i] == f(s[i])
  {
    seq(|s|, i requires 0 <= i < |s| => f(s[i]))
  }

  lemma {:induction false} FilterKeepsNoDuplicates<T(!new)>(s: seq<T>, keep: T -> bool)
    requires NoDuplicates(s)
    ensures NoDuplicates(Filter(s, keep))
  {
    if s != [] {
      FilterKeepsNoDuplicates(s[1..], keep);
      assert s[0] !in s[1..];
    }
  }

  lemma {:induction false} FilterNone<T(!new)>(s: seq<T>, keep: T -> bool)
    requires forall x :: x in s ==> !keep(x)
    ensures Filter(s, keep) == []
  {
    if s != [] {
      FilterNone(s[1..], keep);
    }
  }

  lemma {:induction false} FilterAll<T(!new)>(s: seq<T>, keep: T -> bool)
    requires forall x :: x in s ==> keep(x)
    ensures Filter(s, keep) == s
  {
    if s != [] {
      FilterAll(s[1..], keep);
    }
  }

  lemma {:induction false} FilterConcat<T(!new)>(a: seq<T>, b: seq<T>, keep: T -> bool)
    ensures Filter(a + b, keep) == Filter(a, keep) + Filter(b, keep)
  {
    if a == [] {
      assert a + b == b;
    } else {
      FilterConcat(a[1..], b, keep);
      assert (a + b)[0] == a[0] && (a + b)[1..] == a[1..] + b;
      ConcatAssociates([a[0]], Filter(a[1..], keep), Filter(b, keep));
    }
  }

  lemma ConcatAssociates<T>(a: seq<T>, b: seq<T>, c: seq<T>)
    ensures a + (b + c) == (a + b) + c
  {
  }

  /** A filter and its complement split the bag. */
  lemma {:induction false} FilterSplits<T(!new)>(s: seq<T>, keep: T -> bool)
    ensures multiset(s) == multiset(Filter(s, keep)) + multiset(Filter(s, x => !keep(x)))
    ensures |s| == |Filter(s, keep)| + |Filter(s, x => !keep(x))|
  {
    if s != [] {
      FilterSplits(s[1..], keep);
      assert s == [s[0]] + s[1..];
    }
  }

  lemma {:induction false} NoDuplicatesCounts<T(!new)>(s: seq<T>, x: T)
    requires NoDuplicates(s)
    ensures multiset(s)[x] == if x in s then 1 else 0
  {
    if s != [] {
      assert s == [s[0]] + s[1..];
      assert s[0] !in s[1..];
      NoDuplicatesCounts(s[1..], x);
    }
  }

  lemma SameRowsSameBag<T(!new)>(a: seq<T>, b: seq<T>)
    requires NoDuplicates(a) && NoDuplicates(b)
    requires forall x :: x in a <==> x in b
    ensures multiset(a) == multiset(b)
  {
    forall x ensures multiset(a)[x] == multiset(b)[x] {
      NoDuplicatesCounts(a, x);
      NoDuplicatesCounts(b, x);
    }
  }

  lemma SameBagSameRows<T(!new)>(a: seq<T>, b: seq<T>)
    requires multiset(a) == multiset(b)
    ensures |a| == |b|
    ensures forall x :: x in a <==> x in b
  {
    assert |multiset(a)| == |multiset(b)|;
    forall x ensures x in a <==> x in b {
      assert x in multiset(a) <==> x in multiset(b);
    }
  }

  lemma {:induction false} BagWithoutRepeats<T(!new)>(s: seq<T>)
    requires forall x :: multiset(s)[x] <= 1
    ensures NoDuplicates(s)
  {
    if s != [] {
      var rest := s[1..];
      assert s == [s[0]] + rest;
      assert multiset(s)[s[0]] == 1 + multiset(rest)[s[0]];
      assert s[0] !in multiset(rest);
      forall x ensures multiset(rest)[x] <= 1 {
        assert multiset(s)[x] >= multiset(rest)[x];
      }
      BagWithoutRepeats(rest);
    }
  }

  lemma SameBagNoDuplicates<T(!new)>(a: seq<T>, b: seq<T>)
    requires multiset(a) == multiset(b) && NoDuplicates(a)
    ensures NoDuplicates(b)
  {
    forall x ensures multiset(b)[x] <= 1 {
      NoDuplicatesCounts(a, x);
    }
    BagWithoutRepeats(b);
  }

  /** A sub-bag of rows without repetitions has none. */
  lemma SubBag<T(!new)>(a: seq<T>, b: seq<T>)
    requires multiset(a) <= multiset(b) && NoDuplicates(b)
    ensures NoDuplicates(a) && forall x :: x in a ==> x in b
  {
    forall x ensures multiset(a)[x] <= 1 && (x in a ==> x in b) {
      NoDuplicatesCounts(b, x);
      assert multiset(a)[x] <= multiset(b)[x];
      assert x in a <==> multiset(a)[x] > 0;
    }
    BagWithoutRepeats(a);
  }

  /** Filtering respects bags. */
  lemma {:induction false} FilterOfBag<T(!new)>(a: seq<T>, b: seq<T>, keep: T -> bool)
    requires multiset(a) == multiset(b)
    ensures multiset(Filter(a, keep)) == multiset(Filter(b, keep))
    ensures |Filter(a, keep)| == |Filter(b, keep)|
  {
    forall x ensures multiset(Filter(a, keep))[x] == multiset(Filter(b, keep))[x] {
      FilterMultiplicity(a, keep, x);
      FilterMultiplicity(b, keep, x);
    }
    SameBagSameRows(Filter(a, keep), Filter(b, keep));
  }

  lemma {:induction false} FilterMultiplicity<T(!new)>(s: seq<T>, keep: T -> bool, x: T)
    ensures multiset(Filter(s, keep))[x] == if keep(x) then multiset(s)[x] else 0
  {
    if s != [] {
      FilterMultiplicity(s[1..], keep, x);
      assert s == [s[0]] + s[1..];
    }
  }

  lemma MapConcat<T, U>(a: seq<T>, b: seq<T>, f: T -> U)
    ensures Map(a + b, f) == Map(a, f) + Map(b, f)
  {
  }

  function Without<T>(s: seq<T>, k: int): seq<T>
    requires 0 <= k < |s|
  {
    s[..k] + s[k + 1..]
  }

  lemma MapWithout<T, U>(s: seq<T>, k: int, f: T -> U)
    requires 0 <= k < |s|
    ensures multiset(Without(s, k)) == multiset(s) - multiset{s[k]}
    ensures multiset(Map(s, f)) == multiset(Map(Without(s, k), f)) + multiset{f(s[k])}
  {
    assert s == s[..k] + [s[k]] + s[k + 1..];
    MapConcat(s[..k] + [s[k]], s[k + 1..], f);
    MapConcat(s[..k], [s[k]], f);
    MapConcat(s[..k], s[k + 1..], f);
    assert Map([s[k]], f) == [f(s[k])];
  }

  /** Mapping respects bags. */
  lemma {:induction false} MapOfBag<T(!new), U(!new)>(a: seq<T>, b: seq<T>, f: T -> U)
    requires multiset(a) == multiset(b)
    ensures multiset(Map(a, f)) == multiset(Map(b, f))
    decreases |a|
  {
    SameBagSameRows(a, b);
    if a != [] {
      assert a[0] in b;
      var k :| 0 <= k < |b| && b[k] == a[0];
      MapWithout(a, 0, f);
      MapWithout(b, k, f);
      MapOfBag(Without(a, 0), Without(b, k), f);
    } else {
      assert b == [];
    }
  }
}
