/** The sharded cache with random eviction (`plugin/pkg/cache/cache.go`).  */
module Shards {
  import opened Llrb

  /** 64-bit hashes. */
  type Key = k: nat | k < 0x1_0000_0000_0000_0000

  const SHARD_SIZE: nat := 256

  class Shard<T> {
    var items: map<Key, T>
    const size: nat

    constructor (size: nat)
      ensures items == map[] && this.size == size
    {
      this.size := size;
      items := map[];
    }

    /** Overwrites, or makes room by evicting any one element. */
    method Add(key: Key, el: T) returns (eviction: bool, ghost victim: Key)
      requires |items| <= size && size > 0
      modifies this
      ensures |items| <= size
      ensures eviction <==> key !in old(items) && |old(items)| == size
      ensures items == if eviction then (old(items) - {victim})[key := el] else old(items)[key := el]
      ensures eviction ==> victim in old(items)
    {
      eviction, victim := false, key;
      if |items| >= size {
        if key !in items {
          var k :| k in items.Keys;
          items := items - {k};
          eviction, victim := true, k;
        }
      }
      items := items[key := el];
    }

    method Remove(key: Key)
      modifies this
      ensures items == old(items) - {key}
    {
      items := items - {key};
    }
  }

  /** What a shard of index `i` may hold, and how much. */
  ghost predicate ShardOk<T>(s: Shard<T>, i: nat, size: nat, contents: map<Key, T>)
    reads s
  {
    && s.size == size && |s.items| <= size
    && (forall k :: k in s.items ==> k % SHARD_SIZE == i && k in contents && contents[k] == s.items[k])
    && (forall k :: k in contents && k % SHARD_SIZE == i ==> k in s.items)
  }

  /** The two contents agree on the keys of shard `j`. */
  ghost predicate AgreeOn<T>(c: map<Key, T>, c': map<Key, T>, j: nat) {
    forall k: Key :: k % SHARD_SIZE == j ==> (k in c <==> k in c') && (k in c ==> c[k] == c'[k])
  }

  lemma ShardElsewhere<T>(s: Shard<T>, j: nat, size: nat, c: map<Key, T>, c': map<Key, T>)
    requires ShardOk(s, j, size, c) && AgreeOn(c, c', j)
    ensures ShardOk(s, j, size, c')
  {
  }

  class Cache<T> {
    const shards: seq<Shard<T>>
    const shardCap: nat
    ghost var contents: map<Key, T>

    ghost predicate Valid()
      reads this, shards
    {
      && |shards| == SHARD_SIZE && shardCap >= 4
      && (forall i, j :: 0 <= i < j < |shards| ==> shards[i] != shards[j])
      && forall i :: 0 <= i < |shards| ==> ShardOk(shards[i], i, shardCap, contents)
    }

    constructor (size: int)
      ensures Valid() && contents == map[] && fresh(shards)
      ensures shardCap == if size / 256 < 4 then 4 else size / 256
    {
      var ssize := size / SHARD_SIZE;
      if ssize < 4 {
        ssize := 4;
      }
      var s: seq<Shard<T>> := [];
      for i := 0 to SHARD_SIZE
        invariant |s| == i && fresh(s)
        invariant forall j, k :: 0 <= j < k < i ==> s[j] != s[k]
        invariant forall j :: 0 <= j < i ==> s[j].size == ssize && s[j].items == map[]
      {
        var n := new Shard(ssize);
        s := s + [n];
      }
      shards, shardCap, contents := s, ssize, map[];
    }

    /** Stores `el` under `key`; an eviction takes one other element of the same shard. */
    method Add(key: Key, el: T) returns (eviction: bool, ghost victim: Key)
      requires Valid()
      modifies this, shards[key % SHARD_SIZE]
      ensures Valid()
      ensures contents == if eviction then (old(contents) - {victim})[key := el] else old(contents)[key := el]
      ensures eviction ==> victim in old(contents) && victim != key && key !in old(contents)
    {
      ghost var i := key % SHARD_SIZE;
      assert ShardOk(shards[i], i, shardCap, contents);
      eviction, victim := shards[key % SHARD_SIZE].Add(key, el);
      ghost var c := contents;
      contents := if eviction then (contents - {victim})[key := el] else contents[key := el];
      Others(i, c);
    }

    method Get(key: Key) returns (el: Option<T>)
      requires Valid()
      ensures el == if key in contents then Some(contents[key]) else None
    {
      ghost var i := key % SHARD_SIZE;
      assert ShardOk(shards[i], i, shardCap, contents);
      var items := shards[key % SHARD_SIZE].items;
      if key in items {
        return Some(items[key]);
      }
      return None;
    }

    method Remove(key: Key)
      requires Valid()
      modifies this, shards[key % SHARD_SIZE]
      ensures Valid() && contents == old(contents) - {key}
    {
      ghost var i := key % SHARD_SIZE;
      assert ShardOk(shards[i], i, shardCap, contents);
      shards[key % SHARD_SIZE].Remove(key);
      contents := contents - {key};
      assert forall j :: 0 <= j < |shards| && j != i ==> ShardOk(shards[j], j, shardCap, contents);
    }

    /** Shards other than `i` still fit the contents when these changed only in shard `i`. */
    lemma {:induction false} Others(i: nat, c: map<Key, T>)
      requires forall j :: 0 <= j < |shards| && j != i ==> ShardOk(shards[j], j, shardCap, c) && AgreeOn(c, contents, j)
      ensures forall j :: 0 <= j < |shards| && j != i ==> ShardOk(shards[j], j, shardCap, contents)
    {
      forall j | 0 <= j < |shards| && j != i
        ensures ShardOk(shards[j], j, shardCap, contents)
      {
        ShardElsewhere(shards[j], j, shardCap, c, contents);
      }
    }

    /** The first `n` shards hold no more than their capacity. */
    lemma {:induction false} Bounded(n: nat)
      requires Valid() && n <= |shards|
      ensures |Below(contents, n)| <= n * shardCap
      ensures n == |shards| ==> |contents| <= SHARD_SIZE * shardCap
      decreases n
    {
      if n > 0 {
        Bounded(n - 1);
        assert n * shardCap == (n - 1) * shardCap + shardCap;
        assert ShardOk(shards[n - 1], n - 1, shardCap, contents);
        OneMoreShard(contents, n - 1, shards[n - 1].items);
      }
      if n == |shards| {
        assert Below(contents, n) == contents.Keys;
      }
    }

    /** The number of elements, which never exceeds the capacity of all shards. */
    method Len() returns (l: nat)
      requires Valid()
      ensures l == |contents| && l <= SHARD_SIZE * shardCap
    {
      l := 0;
      for i := 0 to |shards|
        invariant l == |Below(contents, i)| && l <= i * shardCap
      {
        assert ShardOk(shards[i], i, shardCap, contents);
        OneMoreShard(contents, i, shards[i].items);
        l := l + |shards[i].items|;
      }
      assert Below(contents, |shards|) == contents.Keys;
    }
  }

  /** The keys of the first `n` shards. */
  ghost function Below<T>(contents: map<Key, T>, n: nat): set<Key> {
    set k | k in contents && k % SHARD_SIZE < n
  }

  lemma OneMoreShard<T>(contents: map<Key, T>, i: nat, items: map<Key, T>)
    requires forall k :: k in items <==> k in contents && k % SHARD_SIZE == i
    ensures |Below(contents, i + 1)| == |Below(contents, i)| + |items|
  {
    assert Below(contents, i + 1) == Below(contents, i) + items.Keys;
    assert Below(contents, i) !! items.Keys;
  }
}
