/** The invariant library of the `Catalog` database, kept in its own module
    so that its lemmas are proved on plain values rather than on the heap.
    The invariants relate the stored entries, the id of each (`ids`), the
    next id to hand out and, when the database has a cache, the cache's ids
    and id-to-entry mapping.  The lemmas show that adding, removing and
    re-keying an entry keep them. */
module Store {
  import opened Seqs
  import opened Caching

  /** The stored entries are distinct, each has an id below `nextId`, and no
      two of them share an id. */
  ghost predicate IdsValid<E>(entries: seq<E>, ids: map<E, int>, nextId: int) {
    && Distinct(entries)
    && (forall e :: e in entries ==> e in ids && ids[e] < nextId)
    && (forall e, f :: e in entries && f in entries && e != f ==> e in ids && f in ids && ids[e] != ids[f])
  }

  /** The cache tracks exactly the stored entries, each under its own id. */
  ghost predicate CacheMirrors<E>(entries: seq<E>, ids: map<E, int>, order: seq<int>, items: map<int, E>) {
    && |order| == |entries|
    && (forall e :: e in entries ==> e in ids && ids[e] in items && items[ids[e]] == e)
    && (forall k :: k in items ==> items[k] in entries && items[k] in ids && ids[items[k]] == k)
  }

  /** Adding a new entry `x` under the next id keeps the invariants; the next
      id is not in the cache yet. */
  lemma AppendKeeps<E>(entries: seq<E>, ids: map<E, int>, nextId: int, order: seq<int>, items: map<int, E>, x: E)
    requires IdsValid(entries, ids, nextId) && x !in entries
    ensures IdsValid(entries + [x], ids[x := nextId], nextId + 1)
    ensures CacheMirrors(entries, ids, order, items) ==>
      && nextId !in items
      && CacheMirrors(entries + [x], ids[x := nextId], order + [nextId], items[nextId := x])
  {
  }

  /** Deleting a stored entry `x` from the store and its id from the cache
      keeps the invariants. */
  lemma RemoveKeeps<E>(entries: seq<E>, ids: map<E, int>, nextId: int, order: seq<int>, items: map<int, E>, x: E)
    requires IdsValid(entries, ids, nextId) && x in entries
    ensures x in ids
    ensures IdsValid(Remove(entries, x), ids, nextId)
    ensures CacheMirrors(entries, ids, order, items) && Tracks(order, items) ==>
      && ids[x] in order
      && CacheMirrors(Remove(entries, x), ids, Remove(order, ids[x]), items - {ids[x]})
  {
  }

  /** Giving the stored entry `x` an id `n` that no other stored entry holds
      keeps the invariants, once `nextId` is moved past `n`; the cache keeps
      `x` in the same slot under `n`. */
  lemma RenameKeeps<E>(entries: seq<E>, ids: map<E, int>, nextId: int, order: seq<int>, items: map<int, E>, x: E, n: int)
    requires IdsValid(entries, ids, nextId) && x in entries
    requires forall f :: f in entries && f != x ==> f in ids && ids[f] != n
    ensures x in ids
    ensures IdsValid(entries, ids[x := n], if n < nextId then nextId else n + 1)
    ensures CacheMirrors(entries, ids, order, items) && Tracks(order, items) && ids[x] != n ==>
      && ids[x] in items && n !in items
      && Tracks(Replace(order, ids[x], n), (items - {ids[x]})[n := x])
      && CacheMirrors(entries, ids[x := n], Replace(order, ids[x], n), (items - {ids[x]})[n := x])
  {
  }

  /** The ids of `entries`, oldest entry first. */
  ghost function IdsInOrder<E>(entries: seq<E>, ids: map<E, int>): (r: seq<int>)
    requires forall e :: e in entries ==> e in ids
    ensures |r| == |entries|
    ensures forall i :: 0 <= i < |entries| ==> r[i] == ids[entries[i]]
  {
    if entries == [] then [] else [ids[entries[0]]] + IdsInOrder(entries[1..], ids)
  }

  /** When the recency order of an LRU cache lists the stored ids oldest
      first, the least recently used id is the oldest entry's, and adding a
      new entry under the next id (after dropping the oldest one when the
      cache is full) keeps the order listing the stored ids oldest first. */
  lemma LruAddKeeps<E>(entries: seq<E>, ids: map<E, int>, nextId: int, order: seq<int>, x: E)
    requires IdsValid(entries, ids, nextId) && x !in entries
    requires order == IdsInOrder(entries, ids)
    ensures IdsInOrder(entries + [x], ids[x := nextId]) == order + [nextId]
    ensures entries != [] ==>
      && (forall e :: e in entries && ids[e] == order[0] ==> e == entries[0])
      && Remove(entries, entries[0]) == entries[1..]
      && Remove(order, order[0]) == order[1..]
      && IdsInOrder(Remove(entries, entries[0]) + [x], ids[x := nextId]) == Remove(order, order[0]) + [nextId]
  {
  }
}
