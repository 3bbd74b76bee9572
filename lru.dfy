/** The segment cache: groupcache's `lru.Cache` created with
    `lru.New(1024)`, reduced to its keys. The pollers store `nil` under
    every key, so values are not kept. Keys are listed most recently used
    first: `Get` on a present key moves it to the front, `Add` puts the key
    at the front and, when that makes more than `Capacity` entries, drops
    the last (least recently used) one. */
module Lru {

  const Capacity: nat := 1024

  datatype Cache = Cache(keys: seq<string>)

  ghost predicate Distinct(s: seq<string>) {
    forall i, j :: 0 <= i < j < |s| ==> s[i] != s[j]
  }

  ghost predicate Valid(c: Cache) {
    |c.keys| <= Capacity && Distinct(c.keys)
  }

  function New(): (c: Cache)
    ensures Valid(c) && c.keys == []
  {
    Cache([])
  }

  /** `s` without `k`, in the same order. */
  function Remove(s: seq<string>, k: string): (r: seq<string>)
    ensures forall x :: x in r <==> x in s && x != k
    ensures |r| <= |s|
    ensures k !in s ==> r == s
    ensures Distinct(s) ==> Distinct(r) && (k in s ==> |r| == |s| - 1)
  {
    if s == [] then []
    else
      assert Distinct(s) ==> Distinct(s[1..]) && s[0] !in s[1..];
      if s[0] == k then Remove(s[1..], k)
      else [s[0]] + Remove(s[1..], k)
  }

  /** `cache.Get(key)`: whether the key is present, and the cache after
      the lookup has refreshed it. */
  function Get(c: Cache, k: string): (r: (bool, Cache))
    ensures r.0 <==> k in c.keys
    ensures forall x :: x in r.1.keys <==> x in c.keys
    ensures r.0 ==> r.1.keys[0] == k
    ensures |r.1.keys| == |c.keys| || !Distinct(c.keys)
    ensures Valid(c) ==> Valid(r.1)
  {
    if k in c.keys then (true, Cache([k] + Remove(c.keys, k))) else (false, c)
  }

  /** `cache.Add(key, nil)`. The key becomes the most recent entry; the only
      key that can be lost is the least recent one, and only when the key
      was new and the cache was full. */
  function Add(c: Cache, k: string): (r: Cache)
    requires Valid(c)
    ensures Valid(r)
    ensures |r.keys| > 0 && r.keys[0] == k
    ensures forall x :: x in r.keys ==> x == k || x in c.keys
    ensures forall x :: x in c.keys && x !in r.keys ==>
      k !in c.keys && |c.keys| == Capacity && x == c.keys[Capacity - 1]
  {
    if k in c.keys then Cache([k] + Remove(c.keys, k))
    else if |c.keys| < Capacity then Cache([k] + c.keys)
    else
      assert c.keys == c.keys[..Capacity - 1] + [c.keys[Capacity - 1]];
      Cache([k] + c.keys[..Capacity - 1])
  }

  /** How many keys were used more recently than `x`. */
  function Rank(s: seq<string>, x: string): (i: nat)
    requires x in s
    ensures i < |s| && s[i] == x
    ensures forall j :: 0 <= j < i ==> s[j] != x
  {
    if s[0] == x then 0 else 1 + Rank(s[1..], x)
  }

  lemma {:induction false} RankRemove(s: seq<string>, k: string, x: string)
    requires x in s && x != k
    ensures x in Remove(s, k) && Rank(Remove(s, k), x) <= Rank(s, x)
  {
    if s[0] != x {
      RankRemove(s[1..], k, x);
    }
  }

  lemma {:induction false} RankPrefix(s: seq<string>, n: nat, x: string)
    requires x in s && Rank(s, x) < n <= |s|
    ensures x in s[..n] && Rank(s[..n], x) == Rank(s, x)
  {
    if s[0] != x {
      assert s[..n][1..] == s[1..][..n - 1];
      RankPrefix(s[1..], n - 1, x);
    }
  }

  /** A lookup of another key ages `x` by at most one step and keeps it. */
  lemma GetAges(c: Cache, k: string, x: string)
    requires x in c.keys && x != k
    ensures x in Get(c, k).1.keys
    ensures Rank(Get(c, k).1.keys, x) <= Rank(c.keys, x) + 1
  {
    if k in c.keys {
      RankRemove(c.keys, k, x);
    }
  }

  /** Adding another key ages `x` by at most one step, and keeps it as long
      as it is not already the least recent entry of a full cache. */
  lemma AddAges(c: Cache, k: string, x: string)
    requires Valid(c) && x in c.keys && x != k && Rank(c.keys, x) + 1 < Capacity
    ensures x in Add(c, k).keys
    ensures Rank(Add(c, k).keys, x) <= Rank(c.keys, x) + 1
  {
    if k in c.keys {
      RankRemove(c.keys, k, x);
    } else if |c.keys| == Capacity {
      RankPrefix(c.keys, Capacity - 1, x);
    }
  }
}
