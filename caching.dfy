/** The bounded caches of `sunpy.database.caching`: a mapping from entry id to
    value that holds at most `maxSize` ids.  Before an id goes into a full
    cache, the victim its policy chooses among the ids already present
    (`ToBeRemoved`) is deleted.  `LRUCache` keeps the ids by recency (least
    recently used first); `LFUCache` keeps a use counter per id. */
module Caching {
  import opened Wrappers
  import opened Seqs

  /** The two policies.  `LFU.insertCount` is the counter an id starts with
      when it is put into the cache; nothing in the tests fixes it, so the
      model leaves it open. */
  datatype Policy = LRU | LFU(insertCount: nat)

  /** The LRU order after an access to `k`: `k` becomes the most recently used
      (last) id and the others keep their order.  Accessing an id that is not
      tracked leaves the order as it is. */
  function Touch(order: seq<int>, k: int): (r: seq<int>)
    ensures forall i :: 0 <= i < |r| ==> r[i] in order
    ensures forall i :: 0 <= i < |order| ==> order[i] in r
    ensures Distinct(order) ==> Distinct(r) && |r| == |order|
    ensures k in order ==> r != [] && r[|r| - 1] == k
    ensures k !in order ==> r == order
  {
    if k in order then Remove(order, k) + [k] else order
  }

  /** An access moves only the accessed id: the relative order of all the
      other ids is what it was. */
  lemma {:induction false} TouchKeepsOthers(order: seq<int>, k: int)
    ensures Remove(Touch(order, k), k) == Remove(order, k)
  {
    if k in order {
      RemoveAppend(Remove(order, k), [k], k);
      assert Remove([k], k) == Remove([k][1..], k) == [];
    }
  }

  /** In an LRU cache of two or more ids the id just accessed is never the
      next victim. */
  lemma TouchedIsNotLruVictim(order: seq<int>, k: int)
    requires Distinct(order) && k in order && |order| >= 2
    ensures forall j :: IsVictim(LRU, Touch(order, k), map[], j) ==> j != k
  {
    var r := Touch(order, k);
    assert r[|r| - 1] == k && 0 != |r| - 1;
  }

  /** `s` with `x` replaced by `y`. */
  function Replace(s: seq<int>, x: int, y: int): (r: seq<int>)
    ensures |r| == |s|
    ensures forall i :: 0 <= i < |s| ==> r[i] == if s[i] == x then y else s[i]
    ensures x in s ==> y in r
    ensures forall i :: 0 <= i < |r| && r[i] != y ==> r[i] in s && r[i] != x
    ensures Distinct(s) && y !in s ==> Distinct(r)
  {
    seq(|s|, i requires 0 <= i < |s| => if s[i] == x then y else s[i])
  }

  /** `k` may be evicted under `policy`: for LRU it is the least recently used
      id, for LFU an id whose counter is smallest.  Among LFU ids with equal
      counters any one may be chosen. */
  ghost predicate IsVictim(policy: Policy, order: seq<int>, counts: map<int, nat>, k: int) {
    match policy
    case LRU => order != [] && k == order[0]
    case LFU(_) =>
      k in order && k in counts &&
      forall i :: 0 <= i < |order| && order[i] in counts ==> counts[k] <= counts[order[i]]
  }

  /** The cache's ids: each once, exactly the keys of its mapping. */
  ghost predicate Tracks<V>(order: seq<int>, items: map<int, V>) {
    Distinct(order) && forall k :: k in order <==> k in items
  }

  /** The LFU victim search: an id of `order` with the smallest counter. */
  method LeastUsed(order: seq<int>, counts: map<int, nat>) returns (k: int)
    requires order != []
    requires forall i :: 0 <= i < |order| ==> order[i] in counts
    ensures k in order
    ensures forall i :: 0 <= i < |order| ==> counts[k] <= counts[order[i]]
  {
    k := order[0];
    var i := 1;
    while i < |order|
      invariant 1 <= i <= |order|
      invariant k in order
      invariant forall j :: 0 <= j < i ==> counts[k] <= counts[order[j]]
    {
      if counts[order[i]] < counts[k] {
        k := order[i];
      }
      i := i + 1;
    }
  }

  class Cache<V> {
    const policy: Policy
    const maxSize: nat
    /** LRU: ids from least to most recently used; LFU: ids in insertion order. */
    var order: seq<int>
    var items: map<int, V>
    /** LFU only: how often each id was used. */
    var counts: map<int, nat>

    ghost predicate Valid()
      reads this
    {
      && 0 < maxSize
      && |order| <= maxSize
      && Tracks(order, items)
      && (policy.LFU? ==> forall k :: k in items <==> k in counts)
      && (policy.LRU? ==> counts == map[])
    }

    /** A new cache is empty. */
    constructor (policy: Policy, maxSize: nat)
      requires 0 < maxSize
      ensures Valid()
      ensures this.policy == policy && this.maxSize == maxSize
      ensures order == [] && items == map[] && counts == map[]
    {
      this.policy := policy;
      this.maxSize := maxSize;
      order, items, counts := [], map[], map[];
    }

    /** `cache[k]`: the value stored under `k`, if any.  A hit is a use of
        `k`: LRU moves it to the most recent position, LFU bumps its counter. */
    method Get(k: int) returns (v: Option<V>)
      requires Valid()
      modifies this
      ensures Valid() && items == old(items)
      ensures v.Some? <==> k in items
      ensures v.Some? ==> v.value == items[k]
      ensures order == if policy.LRU? then Touch(old(order), k) else old(order)
      ensures counts == if policy.LFU? && k in old(counts) then old(counts)[k := old(counts)[k] + 1] else old(counts)
    {
      if k !in items {
        return None;
      }
      v := Some(items[k]);
      match policy
      case LRU =>
        order := Touch(order, k);
      case LFU(_) =>
        counts := counts[k := counts[k] + 1];
    }

    /** The id the policy evicts next: the least recently used one for LRU, a
        least used one for LFU. */
    method ToBeRemoved() returns (k: int)
      requires Valid() && order != []
      ensures k in items
      ensures IsVictim(policy, order, counts, k)
    {
      if policy.LRU? {
        k := order[0];
      } else {
        assert forall j :: j in order ==> j in items;
        assert forall j :: j in items ==> j in counts;
        k := LeastUsed(order, counts);
      }
    }

    /** `cache[k] = v` for a new id `k` while there is room: `k` becomes the
        most recently used id and, for LFU, starts at the insertion counter.
        A full cache is first relieved of its victim by its owner, with
        `ToBeRemoved` and `Discard`. */
    method Put(k: int, v: V)
      requires Valid() && k !in items && |order| < maxSize
      modifies this
      ensures Valid()
      ensures order == old(order) + [k]
      ensures items == old(items)[k := v]
      ensures counts == if policy.LFU? then old(counts)[k := policy.insertCount] else old(counts)
    {
      order := order + [k];
      items := items[k := v];
      if policy.LFU? {
        counts := counts[k := policy.insertCount];
      }
    }

    /** `del cache[k]`; an id that is not tracked is ignored. */
    method Discard(k: int)
      requires Valid()
      modifies this
      ensures Valid()
      ensures order == Remove(old(order), k)
      ensures items == old(items) - {k}
      ensures counts == old(counts) - {k}
    {
      order := Remove(order, k);
      items := items - {k};
      counts := counts - {k};
    }

    /** Re-keys the value stored under `from` to `to`, keeping its place in
        the recency order and its counter. */
    method Rename(from: int, to: int)
      requires Valid() && from in items && to !in items
      modifies this
      ensures Valid()
      ensures order == Replace(old(order), from, to)
      ensures items == (old(items) - {from})[to := old(items)[from]]
      ensures counts == if policy.LFU? then (old(counts) - {from})[to := old(counts)[from]] else old(counts)
    {
      order := Replace(order, from, to);
      items := (items - {from})[to := items[from]];
      if policy.LFU? {
        counts := (counts - {from})[to := counts[from]];
      }
    }
  }
}
