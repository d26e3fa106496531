/** Sums over rows, whole and by group. */
module Sums {
  import opened Frames

  function Sum<T>(s: seq<T>, f: T -> int): int {
    if s == [] then 0 else f(s[0]) + Sum(s[1..], f)
  }

  /** The sum over the rows of one group. */
  function SumWhere<T, K(==)>(s: seq<T>, key: T -> K, k: K, f: T -> int): int {
    if s == [] then 0 else (if key(s[0]) == k then f(s[0]) else 0) + SumWhere(s[1..], key, k, f)
  }

  function SumOverKeys<T, K(==)>(keys: seq<K>, s: seq<T>, key: T -> K, f: T -> int): int {
    if keys == [] then 0 else SumWhere(s, key, keys[0], f) + SumOverKeys(keys[1..], s, key, f)
  }

  lemma FirstKey<T, K>(keys: seq<K>, s: seq<T>, key: T -> K, f: T -> int)
    ensures SumOverKeys(keys, s, key, f) == if keys == [] then 0 else SumWhere(s, key, keys[0], f) + SumOverKeys(keys[1..], s, key, f)
  {
  }

  lemma {:induction false} OneMoreRow<T, K(!new)>(keys: seq<K>, s: seq<T>, key: T -> K, f: T -> int)
    requires s != [] && NoDuplicates(keys)
    ensures SumOverKeys(keys, s, key, f) == SumOverKeys(keys, s[1..], key, f) + if key(s[0]) in keys then f(s[0]) else 0
  {
    if keys != [] {
      OneMoreRow(keys[1..], s, key, f);
      assert keys[0] !in keys[1..];
    }
  }

  lemma {:induction false} NothingToSum<T, K>(keys: seq<K>, key: T -> K, f: T -> int)
    ensures SumOverKeys(keys, [], key, f) == 0
  {
    if keys != [] {
      NothingToSum(keys[1..], key, f);
    }
  }

  /** Conservation: group sums over keys that cover the rows add up to the sum over the rows. */
  lemma {:induction false} GroupsConserve<T(!new), K(!new)>(keys: seq<K>, s: seq<T>, key: T -> K, f: T -> int)
    requires NoDuplicates(keys) && forall x :: x in s ==> key(x) in keys
    ensures SumOverKeys(keys, s, key, f) == Sum(s, f)
  {
    if s == [] {
      NothingToSum(keys, key, f);
    } else {
      OneMoreRow(keys, s, key, f);
      assert s[0] in s;
      GroupsConserve(keys, s[1..], key, f);
    }
  }

  lemma {:induction false} NoRowsNoSum<T(!new), K>(s: seq<T>, key: T -> K, k: K, f: T -> int)
    requires forall x :: x in s ==> key(x) != k
    ensures SumWhere(s, key, k, f) == 0
  {
    if s != [] {
      assert s[0] in s;
      NoRowsNoSum(s[1..], key, k, f);
    }
  }

  lemma {:induction false} SumOfEqual<S, T>(s: seq<S>, t: seq<T>, f: S -> int, g: T -> int)
    requires |s| == |t| && forall i :: 0 <= i < |s| ==> f(s[i]) == g(t[i])
    ensures Sum(s, f) == Sum(t, g)
  {
    if s != [] {
      SumOfEqual(s[1..], t[1..], f, g);
    }
  }

  lemma {:induction false} SumAdds<T>(s: seq<T>, f: T -> int, g: T -> int, h: T -> int)
    requires forall i :: 0 <= i < |s| ==> h(s[i]) == f(s[i]) + g(s[i])
    ensures Sum(s, h) == Sum(s, f) + Sum(s, g)
  {
    if s != [] {
      SumAdds(s[1..], f, g, h);
    }
  }

  lemma {:induction false} SumOfKeyed<T, K>(keys: seq<K>, s: seq<T>, key: T -> K, f: T -> int, g: K -> int)
    requires forall i :: 0 <= i < |keys| ==> g(keys[i]) == SumWhere(s, key, keys[i], f)
    ensures Sum(keys, g) == SumOverKeys(keys, s, key, f)
  {
    if keys != [] {
      SumOfKeyed(keys[1..], s, key, f, g);
    }
  }

  lemma {:induction false} SumGrows<T>(s: seq<T>, x: T, f: T -> int)
    ensures Sum(s + [x], f) == Sum(s, f) + f(x)
  {
    if s != [] {
      SumGrows(s[1..], x, f);
      assert (s + [x])[1..] == s[1..] + [x];
    }
  }

  lemma {:induction false} SumWhereGrows<T, K>(s: seq<T>, x: T, key: T -> K, k: K, f: T -> int)
    ensures SumWhere(s + [x], key, k, f) == SumWhere(s, key, k, f) + if key(x) == k then f(x) else 0
  {
    if s != [] {
      SumWhereGrows(s[1..], x, key, k, f);
      assert (s + [x])[1..] == s[1..] + [x];
    }
  }

  /** A group's sum is the sum over the rows of the group. */
  lemma {:induction false} SumWhereIsFiltered<T(!new), K>(s: seq<T>, key: T -> K, k: K, f: T -> int)
    ensures SumWhere(s, key, k, f) == Sum(Filter(s, (x: T) => key(x) == k), f)
  {
    if s != [] {
      SumWhereIsFiltered(s[1..], key, k, f);
    }
  }

  lemma {:induction false} SumOfWithout<T>(s: seq<T>, k: int, f: T -> int)
    requires 0 <= k < |s|
    ensures Sum(s, f) == Sum(Without(s, k), f) + f(s[k])
  {
    if k == 0 {
      assert Without(s, 0) == s[1..];
    } else {
      SumOfWithout(s[1..], k - 1, f);
      assert Without(s, k) == [s[0]] + Without(s[1..], k - 1);
    }
  }

  /** Sums respect bags. */
  lemma {:induction false} SumOfBag<T(!new)>(a: seq<T>, b: seq<T>, f: T -> int)
    requires multiset(a) == multiset(b)
    ensures Sum(a, f) == Sum(b, f)
    decreases |a|
  {
    SameBagSameRows(a, b);
    if a != [] {
      assert a[0] in b;
      var k :| 0 <= k < |b| && b[k] == a[0];
      SumOfWithout(a, 0, f);
      SumOfWithout(b, k, f);
      MapWithout(a, 0, f);
      MapWithout(b, k, f);
      SumOfBag(Without(a, 0), Without(b, k), f);
    }
  }
}
