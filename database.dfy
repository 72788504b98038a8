/** `sunpy.database.Database`: a store of `DatabaseEntry` objects kept in
    insertion order, optionally bounded by an LRU or LFU cache.  With a cache,
    eviction is real: the entry the cache evicts is deleted from the store, so
    the store never holds more entries than the cache size. */
module Catalog {
  import opened Wrappers
  import Seqs
  import opened Caching
  import opened Tables
  import opened Store

  /** The failures the database raises. */
  datatype Error =
    | EntryAlreadyAddedError
    | EntryAlreadyStarredError
    | NoSuchEntryError
      /** `edit` gave an entry the id another stored entry has: the store's
          primary-key constraint refuses it. */
    | DuplicateIdError

  datatype Outcome = Pass | Fail(error: Error)

  datatype Result<T> = Ok(value: T) | Err(error: Error)

  /** One attribute assignment of `edit(entry, **kwargs)`. */
  datatype Change = SetId(newId: int) | SetStarred(flag: bool)

  /** The entries of `s` whose `starred` flag is set, in the order of `s`. */
  ghost function StarredIn(s: seq<DatabaseEntry>): seq<DatabaseEntry>
    reads s
  {
    if s == [] then []
    else StarredIn(s[..|s| - 1]) + (if s[|s| - 1].starred then [s[|s| - 1]] else [])
  }

  /** `StarredIn(s)` holds exactly the starred entries of `s`. */
  lemma {:induction false} StarredInMembers(s: seq<DatabaseEntry>)
    ensures forall i :: 0 <= i < |StarredIn(s)| ==> StarredIn(s)[i] in s && StarredIn(s)[i].starred
    ensures forall i :: 0 <= i < |s| && s[i].starred ==> s[i] in StarredIn(s)
  {
    if s != [] {
      var init := s[..|s| - 1];
      StarredInMembers(init);
      assert forall i :: 0 <= i < |init| ==> init[i] == s[i];
    }
  }

  /** `StarredIn(s)` keeps the order of `s`. */
  lemma {:induction false} StarredInOrder(s: seq<DatabaseEntry>)
    ensures Seqs.Subseq(StarredIn(s), s)
  {
    if s != [] {
      var init, last := s[..|s| - 1], s[|s| - 1];
      StarredInOrder(init);
      assert init + [last] == s;
      assert StarredIn(s) == StarredIn(init) + (if last.starred then [last] else []);
      if last.starred {
        Seqs.SubseqAppendBoth(StarredIn(init), init, last);
        assert StarredIn(s) == StarredIn(init) + [last];
      } else {
        Seqs.SubseqAppendRight(StarredIn(init), init, last);
        assert StarredIn(s) == StarredIn(init);
      }
    }
  }

  /** A linear search of `s` for an entry whose id is `k`. */
  method FindById(s: seq<DatabaseEntry>, k: int) returns (r: Option<DatabaseEntry>)
    ensures r.Some? ==> r.value in s && r.value.id == Some(k)
    ensures r.None? ==> forall i :: 0 <= i < |s| ==> s[i].id != Some(k)
  {
    var i := 0;
    while i < |s|
      invariant 0 <= i <= |s|
      invariant forall j :: 0 <= j < i ==> s[j].id != Some(k)
    {
      if s[i].id == Some(k) {
        return Some(s[i]);
      }
      i := i + 1;
    }
    return None;
  }

  class Database {
    /** The stored entries, in insertion order. */
    var entries: seq<DatabaseEntry>
    /** The id the next added entry receives. */
    var nextId: int
    const cache: Cache?<DatabaseEntry>
    /** Every entry ever added, in the order of the adds. */
    ghost var history: seq<DatabaseEntry>
    /** The id of each stored entry, mirrored from its `id` column. */
    ghost var ids: map<DatabaseEntry, int>

    ghost predicate Valid()
      reads this, cache, entries
    {
      && 1 <= nextId
      && IdsValid(entries, ids, nextId)
      && (forall e :: e in entries ==> e in ids && e.id == Some(ids[e]))
      && Seqs.Subseq(entries, history)
      && (cache != null ==>
           && cache.Valid()
           && CacheMirrors(entries, ids, cache.order, cache.items))
    }

    /** Some stored entry has id `k`. */
    ghost predicate HasId(k: int)
      reads this, entries
    {
      exists i :: 0 <= i < |entries| && entries[i].id == Some(k)
    }

    /** With a cache, the cached ids are exactly the ids of the stored
        entries, and each is cached with its own entry. */
    lemma CacheMatchesStore()
      requires Valid() && cache != null
      ensures forall k :: k in cache.items <==> HasId(k)
      ensures forall i :: 0 <= i < |entries| ==>
        entries[i].id.Some? && entries[i].id.value in cache.items && cache.items[entries[i].id.value] == entries[i]
    {
    }

    /** `Database(url, CacheClass, cache_size)`: an empty store, with a cache
        of the given policy and size when `cacheClass` is given. */
    constructor (cacheClass: Option<Policy>, cacheSize: nat)
      requires cacheClass.Some? ==> 0 < cacheSize
      ensures Valid()
      ensures entries == [] && history == [] && nextId == 1
      ensures cacheClass.None? ==> cache == null
      ensures cacheClass.Some? ==>
        && cache != null && fresh(cache)
        && cache.policy == cacheClass.value && cache.maxSize == cacheSize
        && cache.order == [] && cache.items == map[] && cache.counts == map[]
    {
      entries, nextId, history, ids := [], 1, [], map[];
      if cacheClass.Some? {
        cache := new Cache(cacheClass.value, cacheSize);
      } else {
        cache := null;
      }
    }

    /** `len(database)`: the number of stored entries, never more than the
        cache size when there is a cache. */
    function Len(): (n: nat)
      requires Valid()
      reads this, cache, entries
      ensures n == |entries|
      ensures cache != null ==> n <= cache.maxSize
    {
      |entries|
    }

    /** `list(database)`: the stored entries, each once, in the order they
        were added. */
    function Items(): (s: seq<DatabaseEntry>)
      requires Valid()
      reads this, cache, entries
      ensures |s| == Len()
      ensures Seqs.Distinct(s) && Seqs.Subseq(s, history)
      ensures forall i :: 0 <= i < |s| ==> s[i].id.Some?
    {
      entries
    }

    /** `commit()`: a flush.  Ids are already assigned by `Add`, so nothing the
        model tracks changes. */
    method Commit()
      requires Valid()
      ensures Valid()
    {
    }

    /** `add(entry)`: stores `entry` at the end with the next id.  An entry
        that is already stored is refused.  With a full cache the cache first
        evicts a victim among the entries already stored, and that entry is
        deleted from the store. */
    method Add(entry: DatabaseEntry) returns (r: Outcome, ghost evicted: Option<DatabaseEntry>)
      requires Valid()
      modifies this, cache, entry
      ensures Valid()
      ensures r.Fail? <==> entry in old(entries)
      ensures r.Fail? ==> r.error == EntryAlreadyAddedError && evicted.None?
      ensures r.Fail? ==> unchanged(this, entry) && (cache != null ==> unchanged(cache))
      ensures r.Pass? ==> entry.id == Some(old(nextId)) && entry.starred == old(entry.starred)
      ensures r.Pass? ==> nextId == old(nextId) + 1 && history == old(history) + [entry]
      ensures r.Pass? ==> ids == old(ids)[entry := old(nextId)]
      ensures evicted.Some? <==> r.Pass? && cache != null && |old(entries)| == cache.maxSize
      ensures r.Pass? && evicted.None? ==> entries == old(entries) + [entry]
      ensures evicted.Some? ==>
        && cache != null
        && evicted.value in old(entries)
        && evicted.value.id.Some?
        && IsVictim(cache.policy, old(cache.order), old(cache.counts), evicted.value.id.value)
        && entries == Seqs.Remove(old(entries), evicted.value) + [entry]
      ensures r.Pass? && cache != null ==>
        cache.order == (if evicted.Some? then Seqs.Remove(old(cache.order), evicted.value.id.value) else old(cache.order)) + [old(nextId)]
      ensures r.Pass? && cache != null && cache.policy.LFU? ==>
        cache.counts == (if evicted.Some? then old(cache.counts) - {evicted.value.id.value} else old(cache.counts))[old(nextId) := cache.policy.insertCount]
    {
      if entry in entries {
        return Fail(EntryAlreadyAddedError), None;
      }
      evicted := None;
      if cache != null && |entries| == cache.maxSize {
        var k := cache.ToBeRemoved();
        var victim := cache.items[k];
        var _ := Remove(victim);
        evicted := Some(victim);
      }
      Append(entry);
      r := Pass;
    }

    /** The insertion step of `add` once there is room: `entry` goes at the
        end of the store under the next id, and into the cache. */
    method Append(entry: DatabaseEntry)
      requires Valid() && entry !in entries
      requires cache != null ==> |entries| < cache.maxSize
      modifies this, cache, entry
      ensures Valid()
      ensures entry.id == Some(old(nextId)) && entry.starred == old(entry.starred)
      ensures nextId == old(nextId) + 1 && history == old(history) + [entry]
      ensures entries == old(entries) + [entry] && ids == old(ids)[entry := old(nextId)]
      ensures cache != null ==>
        && cache.order == old(cache.order) + [old(nextId)]
        && cache.items == old(cache.items)[old(nextId) := entry]
        && cache.counts == if cache.policy.LFU? then old(cache.counts)[old(nextId) := cache.policy.insertCount] else old(cache.counts)
    {
      var id := nextId;
      if cache == null {
        AppendKeeps(entries, ids, id, [], map[], entry);
      } else {
        AppendKeeps(entries, ids, id, cache.order, cache.items, entry);
        cache.Put(id, entry);
      }
      Seqs.SubseqAppendBoth(entries, history, entry);
      nextId := id + 1;
      entries := entries + [entry];
      history := history + [entry];
      ids := ids[entry := id];
      entry.id := Some(id);
    }

    /** `remove(entry)`: deletes a stored entry (and its cache slot, without
        evicting anything else).  An entry that is not stored is refused. */
    method Remove(entry: DatabaseEntry) returns (r: Outcome)
      requires Valid()
      modifies this, cache
      ensures Valid()
      ensures r.Fail? <==> entry !in old(entries)
      ensures r.Fail? ==> r.error == NoSuchEntryError && unchanged(this) && (cache != null ==> unchanged(cache))
      ensures r.Pass? ==> entries == Seqs.Remove(old(entries), entry) && entry !in entries
      ensures r.Pass? ==> |entries| == |old(entries)| - 1
      ensures nextId == old(nextId) && history == old(history) && ids == old(ids)
      ensures r.Pass? && cache != null ==>
        && entry.id.Some?
        && cache.order == Seqs.Remove(old(cache.order), entry.id.value)
        && cache.items == old(cache.items) - {entry.id.value}
        && cache.counts == old(cache.counts) - {entry.id.value}
    {
      if entry !in entries {
        return Fail(NoSuchEntryError);
      }
      var k := entry.id.value;
      if cache == null {
        RemoveKeeps(entries, ids, nextId, [], map[], entry);
      } else {
        RemoveKeeps(entries, ids, nextId, cache.order, cache.items, entry);
        cache.Discard(k);
      }
      Seqs.RemoveSubseq(entries, entry);
      Seqs.SubseqTrans(Seqs.Remove(entries, entry), entries, history);
      entries := Seqs.Remove(entries, entry);
      r := Pass;
    }

    /** `edit(entry, attr=value)`: overwrites one attribute of a stored entry.
        A new id must not be held by another stored entry; with a cache the
        entry keeps its cache slot under the new id. */
    method Edit(entry: DatabaseEntry, change: Change) returns (r: Outcome)
      requires Valid()
      modifies this, cache, entry
      ensures Valid()
      ensures r == Fail(NoSuchEntryError) <==> entry !in old(entries)
      ensures r == Fail(DuplicateIdError) <==>
        entry in old(entries) && change.SetId? && old(exists e :: e in entries && e != entry && e.id == Some(change.newId))
      ensures r.Fail? ==> r.error == NoSuchEntryError || r.error == DuplicateIdError
      ensures r.Fail? ==> unchanged(this, entry) && (cache != null ==> unchanged(cache))
      ensures entries == old(entries) && history == old(history)
      ensures r.Pass? && change.SetStarred? ==>
        && entry.starred == change.flag && entry.id == old(entry.id)
        && nextId == old(nextId) && (cache != null ==> unchanged(cache))
      ensures r.Pass? && change.SetId? ==>
        && entry.id == Some(change.newId) && entry.starred == old(entry.starred)
        && nextId == if change.newId < old(nextId) then old(nextId) else change.newId + 1
      ensures r.Pass? && change.SetId? && cache != null ==>
        && old(entry.id).Some?
        && cache.order == Replace(old(cache.order), old(entry.id).value, change.newId)
        && cache.items == (old(cache.items) - {old(entry.id).value})[change.newId := entry]
        && cache.counts == if cache.policy.LFU? then (old(cache.counts) - {old(entry.id).value})[change.newId := old(cache.counts)[old(entry.id).value]] else old(cache.counts)
    {
      if entry !in entries {
        return Fail(NoSuchEntryError);
      }
      if change.SetStarred? {
        entry.starred := change.flag;
        return Pass;
      }
      var n := change.newId;
      var holder := FindById(entries, n);
      if holder.Some? && holder.value != entry {
        return Fail(DuplicateIdError);
      }
      assert forall f :: f in entries && f != entry ==> f in ids && ids[f] != n;
      Reassign(entry, n);
      r := Pass;
    }

    /** The id change of `edit` once `n` is known to be free: `entry` takes
        id `n`, the cache slot follows it, and `nextId` moves past `n`. */
    method Reassign(entry: DatabaseEntry, n: int)
      requires Valid() && entry in entries
      requires forall f :: f in entries && f != entry ==> f in ids && ids[f] != n
      modifies this, cache, entry
      ensures Valid()
      ensures entries == old(entries) && history == old(history)
      ensures entry.id == Some(n) && entry.starred == old(entry.starred)
      ensures nextId == if n < old(nextId) then old(nextId) else n + 1
      ensures cache != null ==>
        && old(entry.id).Some?
        && cache.order == Replace(old(cache.order), old(entry.id).value, n)
        && cache.items == (old(cache.items) - {old(entry.id).value})[n := entry]
        && cache.counts == if cache.policy.LFU? then (old(cache.counts) - {old(entry.id).value})[n := old(cache.counts)[old(entry.id).value]] else old(cache.counts)
    {
      var k := entry.id.value;
      if k == n {
        return;
      }
      if cache != null {
        RenameKeeps(entries, ids, nextId, cache.order, cache.items, entry, n);
        cache.Rename(k, n);
      } else {
        RenameKeeps(entries, ids, nextId, [], map[], entry, n);
      }
      entry.id := Some(n);
      ids := ids[entry := n];
      if nextId <= n {
        nextId := n + 1;
      }
    }

    /** `star(entry)`: sets the starred flag, stored or not; an entry that is
        already starred is refused. */
    method Star(entry: DatabaseEntry) returns (r: Outcome)
      requires Valid()
      modifies entry
      ensures Valid()
      ensures r.Fail? <==> old(entry.starred)
      ensures r.Fail? ==> r.error == EntryAlreadyStarredError
      ensures entry.starred && entry.id == old(entry.id)
    {
      if entry.starred {
        return Fail(EntryAlreadyStarredError);
      }
      entry.starred := true;
      r := Pass;
    }

    /** `get_starred()`: the stored entries whose flag is set, in store order. */
    method GetStarred() returns (r: seq<DatabaseEntry>)
      ensures r == StarredIn(entries)
    {
      r := [];
      var i := 0;
      while i < |entries|
        invariant 0 <= i <= |entries|
        invariant r == StarredIn(entries[..i])
      {
        assert entries[..i + 1][..i] == entries[..i];
        if entries[i].starred {
          r := r + [entries[i]];
        }
        i := i + 1;
      }
      assert entries[..i] == entries;
    }

    /** `get_entry_by_id(k)`: the stored entry with id `k`.  With a cache the
        lookup goes through it and counts as a use of `k`. */
    method GetEntryById(k: int) returns (r: Result<DatabaseEntry>)
      requires Valid()
      modifies cache
      ensures Valid()
      ensures r.Ok? <==> HasId(k)
      ensures r.Ok? ==> r.value in entries && r.value.id == Some(k)
      ensures r.Err? ==> r.error == NoSuchEntryError
      ensures cache != null ==>
        && cache.items == old(cache.items)
        && cache.order == (if cache.policy.LRU? then Touch(old(cache.order), k) else old(cache.order))
        && cache.counts == (if cache.policy.LFU? && k in old(cache.counts) then old(cache.counts)[k := old(cache.counts)[k] + 1] else old(cache.counts))
    {
      if cache != null {
        var v := cache.Get(k);
        if v.Some? {
          assert v.value in entries;
          r := Ok(v.value);
        } else {
          assert forall i :: 0 <= i < |entries| ==> entries[i] in entries;
          r := Err(NoSuchEntryError);
        }
      } else {
        var found := FindById(entries, k);
        if found.Some? {
          r := Ok(found.value);
        } else {
          r := Err(NoSuchEntryError);
        }
      }
    }
  }

  /** With an LRU cache, the recency order lists the stored ids oldest entry
      first.  A new LRU database has this shape and `add` keeps it; a lookup
      by id breaks it, and that is what takes an entry out of the eviction
      line. */
  ghost predicate LruInStoreOrder(db: Database)
    reads db, db.cache, db.entries
  {
    && db.Valid() && db.cache != null && db.cache.policy == LRU
    && db.cache.order == IdsInOrder(db.entries, db.ids)
  }

  /** `Database(url, LRUCache, n)` starts empty and in store order. */
  method NewLruDatabase(n: nat) returns (db: Database)
    requires 0 < n
    ensures fresh(db) && fresh(db.cache)
    ensures LruInStoreOrder(db) && db.entries == [] && db.cache.maxSize == n
  {
    db := new Database(Some(LRU), n);
  }

  /** `add` into an LRU database in store order: the database stays in store
      order and holds the newest `maxSize` entries of its old entries and the
      new one, so a full cache evicts the oldest entry.  With `Seqs.NewestAppend`,
      a run of adds alone leaves the newest `maxSize` entries added. */
  method AddToLru(db: Database, entry: DatabaseEntry) returns (r: Outcome)
    requires LruInStoreOrder(db)
    modifies db, db.cache, entry
    ensures LruInStoreOrder(db)
    ensures r.Fail? <==> entry in old(db.entries)
    ensures r.Fail? ==> db.entries == old(db.entries)
    ensures r.Pass? ==> db.entries == Seqs.Newest(old(db.entries) + [entry], db.cache.maxSize)
  {
    if entry in db.entries {
      ghost var ev;
      r, ev := db.Add(entry);
    } else if |db.entries| < db.cache.maxSize {
      AddToLruWithRoom(db, entry);
      r := Pass;
    } else {
      AddToFullLru(db, entry);
      r := Pass;
    }
  }

  /** `add` of a new entry into an LRU database in store order with room. */
  method AddToLruWithRoom(db: Database, entry: DatabaseEntry)
    requires LruInStoreOrder(db) && entry !in db.entries && |db.entries| < db.cache.maxSize
    modifies db, db.cache, entry
    ensures LruInStoreOrder(db) && db.entries == old(db.entries) + [entry]
  {
    LruAddKeeps(db.entries, db.ids, db.nextId, db.cache.order, entry);
    ghost var ev;
    var r;
    r, ev := db.Add(entry);
  }

  /** `add` of a new entry into a full LRU database in store order: the
      oldest entry is the victim. */
  method AddToFullLru(db: Database, entry: DatabaseEntry)
    requires LruInStoreOrder(db) && entry !in db.entries && |db.entries| == db.cache.maxSize
    modifies db, db.cache, entry
    ensures LruInStoreOrder(db) && db.entries == old(db.entries)[1..] + [entry]
  {
    ghost var entries, ids, order := db.entries, db.ids, db.cache.order;
    LruAddKeeps(entries, ids, db.nextId, order, entry);
    assert forall e :: e in entries ==> e.id == Some(ids[e]);
    ghost var ev;
    var r;
    r, ev := db.Add(entry);
    ghost var victim := ev.value;
    assert victim != entry && victim.id == old(victim.id);
    assert ids[victim] == order[0];
  }
}
