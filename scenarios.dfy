/** The behaviour the test suite of `sunpy.database` pins down, one method per
    test: each runs the test's calls on a fresh database and its `ensures`
    states what the test asserts. */
module Scenarios {
  import opened Wrappers
  import opened Caching
  import opened Tables
  import opened Catalog
  import Seqs

  /** Starring an unstarred entry sets its flag. */
  method StarEntry() returns (before: bool, after: bool)
    ensures !before && after
  {
    var db := new Database(None, 0);
    var entry := new DatabaseEntry();
    before := entry.starred;
    var r := db.Star(entry);
    after := entry.starred;
  }

  /** Starring an entry twice is refused the second time. */
  method StarAlreadyStarred() returns (first: Outcome, second: Outcome)
    ensures first == Pass && second == Fail(EntryAlreadyStarredError)
  {
    var db := new Database(None, 0);
    var entry := new DatabaseEntry();
    first := db.Star(entry);
    second := db.Star(entry);
  }

  /** A database without cache holding two new unstarred entries, added in
      this order. */
  method TwoAdded() returns (db: Database, e1: DatabaseEntry, e2: DatabaseEntry)
    ensures fresh(db) && fresh(e1) && fresh(e2) && db.Valid() && db.cache == null
    ensures db.entries == [e1, e2] && !e1.starred && !e2.starred
  {
    db := new Database(None, 0);
    e1 := new DatabaseEntry();
    e2 := new DatabaseEntry();
    var r1, _ := db.Add(e1);
    var r2, _ := db.Add(e2);
  }

  /** `get_starred` lists no entry until one is starred, then that one. */
  method GetStarredEntries() returns (before: seq<DatabaseEntry>, after: seq<DatabaseEntry>, entry2: DatabaseEntry)
    ensures before == [] && after == [entry2]
  {
    var db, entry1;
    db, entry1, entry2 := TwoAdded();
    assert [entry1, entry2][..1] == [entry1];
    assert StarredIn([entry1]) == [];
    before := db.GetStarred();
    var r := db.Star(entry2);
    after := db.GetStarred();
  }

  /** A new entry has no id; adding it to an empty database gives it id 1. */
  method AddEntry() returns (before: Option<int>, after: Option<int>)
    ensures before == None && after == Some(1)
  {
    var db := new Database(None, 0);
    var entry := new DatabaseEntry();
    before := entry.id;
    var r, _ := db.Add(entry);
    db.Commit();
    after := entry.id;
  }

  /** Adding an entry that is already stored is refused. */
  method AddAlreadyExisting() returns (first: Outcome, second: Outcome)
    ensures first == Pass && second == Fail(EntryAlreadyAddedError)
  {
    var db := new Database(None, 0);
    var entry := new DatabaseEntry();
    ghost var ev1;
    first, ev1 := db.Add(entry);
    db.Commit();
    ghost var ev2;
    second, ev2 := db.Add(entry);
  }

  /** `edit(entry, id=42)` changes the id of the stored entry from 1 to 42. */
  method EditEntry() returns (before: Option<int>, after: Option<int>)
    ensures before == Some(1) && after == Some(42)
  {
    var db := new Database(None, 0);
    var entry := new DatabaseEntry();
    var r, _ := db.Add(entry);
    db.Commit();
    before := entry.id;
    var e := db.Edit(entry, SetId(42));
    after := entry.id;
  }

  /** Removing the only stored entry empties the database. */
  method RemoveExisting() returns (countBefore: nat, id: Option<int>, countAfter: nat)
    ensures countBefore == 1 && id == Some(1) && countAfter == 0
  {
    var db := new Database(None, 0);
    var entry := new DatabaseEntry();
    var r, _ := db.Add(entry);
    countBefore := db.Len();
    id := entry.id;
    var d := db.Remove(entry);
    countAfter := db.Len();
  }

  /** Removing an entry that was never added is refused. */
  method RemoveNonexisting() returns (r: Outcome)
    ensures r == Fail(NoSuchEntryError)
  {
    var db := new Database(None, 0);
    var entry := new DatabaseEntry();
    r := db.Remove(entry);
  }

  /** Iterating the database yields the entries in the order they were added. */
  method Iter() returns (entries: seq<DatabaseEntry>, entry1: DatabaseEntry, entry2: DatabaseEntry)
    ensures entries == [entry1, entry2] && entry1 != entry2
  {
    var db;
    db, entry1, entry2 := TwoAdded();
    entries := db.Items();
  }

  /** An empty database has length 0, and 1 once an entry is stored. */
  method Len() returns (before: nat, after: nat)
    ensures before == 0 && after == 1
  {
    var db := new Database(None, 0);
    before := db.Len();
    var entry := new DatabaseEntry();
    var r, _ := db.Add(entry);
    after := db.Len();
  }

  /** `add` of an entry that is not stored, into a database with room for
      it: the entry goes at the end under the next id. */
  method AddNew(db: Database, e: DatabaseEntry)
    requires db.Valid() && e !in db.entries
    requires db.cache != null ==> |db.entries| < db.cache.maxSize
    modifies db, db.cache, e
    ensures db.Valid()
    ensures db.entries == old(db.entries) + [e] && db.nextId == old(db.nextId) + 1
    ensures e.id == Some(old(db.nextId))
    ensures db.cache != null ==>
      && db.cache.order == old(db.cache.order) + [old(db.nextId)]
      && db.cache.counts == if db.cache.policy.LFU? then old(db.cache.counts)[old(db.nextId) := db.cache.policy.insertCount] else old(db.cache.counts)
  {
    var r, ev := db.Add(e);
  }

  /** A database created with a cache starts with an empty cache. */
  method NewCacheIsEmpty(policy: Policy) returns (cached: nat)
    ensures cached == 0
  {
    var db := new Database(Some(policy), 3);
    cached := |db.cache.items|;
  }

  /** A database with a cache of size 3 under `policy`, holding one new
      entry with id 1. */
  method OneCached(policy: Policy) returns (db: Database, e1: DatabaseEntry)
    ensures fresh(db) && db.Valid() && db.cache != null && fresh(db.cache)
    ensures db.cache.policy == policy && db.cache.maxSize == 3
    ensures db.entries == [e1] && db.nextId == 2
    ensures e1.id == Some(1)
    ensures db.cache.order == [1]
    ensures policy.LFU? ==> db.cache.counts == map[1 := policy.insertCount]
  {
    db := new Database(Some(policy), 3);
    e1 := new DatabaseEntry();
    AddNew(db, e1);
  }

  /** The same with two entries, with ids 1 and 2. */
  method TwoCached(policy: Policy) returns (db: Database, e1: DatabaseEntry, e2: DatabaseEntry)
    ensures fresh(db) && db.Valid() && db.cache != null && fresh(db.cache)
    ensures db.cache.policy == policy && db.cache.maxSize == 3
    ensures db.entries == [e1, e2] && db.nextId == 3
    ensures e1.id == Some(1) && e2.id == Some(2)
    ensures db.cache.order == [1, 2]
    ensures policy.LFU? ==> db.cache.counts == map[1 := policy.insertCount, 2 := policy.insertCount]
  {
    db, e1 := OneCached(policy);
    e2 := new DatabaseEntry();
    AddNew(db, e2);
  }

  /** The same with three entries, with ids 1, 2 and 3: the cache is full. */
  method ThreeCached(policy: Policy) returns (db: Database, e1: DatabaseEntry, e2: DatabaseEntry, e3: DatabaseEntry)
    ensures fresh(db) && db.Valid() && db.cache != null && fresh(db.cache)
    ensures db.cache.policy == policy && db.cache.maxSize == 3
    ensures db.entries == [e1, e2, e3]
    ensures e1.id == Some(1) && e2.id == Some(2) && e3.id == Some(3)
    ensures db.cache.order == [1, 2, 3]
    ensures policy.LFU? ==> db.cache.counts == map[1 := policy.insertCount, 2 := policy.insertCount, 3 := policy.insertCount]
  {
    db, e1, e2 := TwoCached(policy);
    e3 := new DatabaseEntry();
    AddNew(db, e3);
  }

  /** `add` of a new entry into a database whose cache is full: the policy's
      victim among the stored entries is deleted and the entry goes last. */
  method AddEvicting(db: Database, e: DatabaseEntry) returns (ghost victim: DatabaseEntry)
    requires db.Valid() && db.cache != null && |db.entries| == db.cache.maxSize && e !in db.entries
    modifies db, db.cache, e
    ensures db.Valid()
    ensures victim in old(db.entries) && victim.id.Some? && victim.id == old(victim.id)
    ensures IsVictim(db.cache.policy, old(db.cache.order), old(db.cache.counts), victim.id.value)
    ensures db.entries == Seqs.Remove(old(db.entries), victim) + [e]
  {
    var r, ev := db.Add(e);
    victim := ev.value;
  }

  /** Removal from a sequence of three distinct values, spelled out. */
  lemma RemoveFromThree<T>(a: T, b: T, c: T)
    requires a != b && b != c && a != c
    ensures Seqs.Remove([a, b, c], a) == [b, c]
    ensures Seqs.Remove([a, b, c], b) == [a, c]
    ensures Seqs.Remove([a, b, c], c) == [a, b]
  {
  }

  /** `get_entry_by_id(1)` on the full LRU database: a lookup changes
      only the cache, and id 1 becomes the most recently used. */
  method LruTouchOne(db: Database, e1: DatabaseEntry, e2: DatabaseEntry, e3: DatabaseEntry)
    requires db.Valid() && db.cache != null && db.cache.policy == LRU
    requires db.entries == [e1, e2, e3]
    requires e1.id == Some(1) && e2.id == Some(2) && e3.id == Some(3)
    requires db.cache.order == [1, 2, 3]
    modifies db.cache
    ensures db.Valid() && db.cache.order == [2, 3, 1]
  {
    RemoveFromThree(1, 2, 3);
    var g1 := db.GetEntryById(1);
  }

  /** `get_entry_by_id(3)` next: entry 2 is now the least recently used. */
  method LruTouchThree(db: Database, e1: DatabaseEntry, e2: DatabaseEntry, e3: DatabaseEntry)
    requires db.Valid() && db.cache != null && db.cache.policy == LRU
    requires db.entries == [e1, e2, e3]
    requires e1.id == Some(1) && e2.id == Some(2) && e3.id == Some(3)
    requires db.cache.order == [2, 3, 1]
    modifies db.cache
    ensures db.Valid() && db.cache.order == [2, 1, 3]
  {
    RemoveFromThree(2, 3, 1);
    var g3 := db.GetEntryById(3);
  }

  /** The fourth add into the full LRU database whose least recently used
      entry is `e2`: `e2` goes, `e4` comes last. */
  method LruEvict(db: Database, e1: DatabaseEntry, e2: DatabaseEntry, e3: DatabaseEntry, e4: DatabaseEntry)
    requires db.Valid() && db.cache != null && db.cache.policy == LRU && db.cache.maxSize == 3
    requires db.entries == [e1, e2, e3] && e4 !in db.entries
    requires e1.id == Some(1) && e2.id == Some(2) && e3.id == Some(3)
    requires db.cache.order == [2, 1, 3]
    modifies db, db.cache, e4
    ensures db.Valid() && db.entries == [e1, e3, e4]
  {
    ghost var victim := AddEvicting(db, e4);
    assert victim == e2;
    RemoveFromThree(e1, e2, e3);
  }

  /** With an LRU cache of size 3, after entries 1 and 3 are looked up the
      fourth add evicts entry 2, the least recently used. */
  method LruCache() returns (fullLen: nat, full: seq<DatabaseEntry>, afterLen: nat, afterEvict: seq<DatabaseEntry>, e1: DatabaseEntry, e2: DatabaseEntry, e3: DatabaseEntry, e4: DatabaseEntry)
    ensures Seqs.Distinct([e1, e2, e3, e4])
    ensures fullLen == 3 && full == [e1, e2, e3]
    ensures afterLen == 3 && afterEvict == [e1, e3, e4]
  {
    var db;
    db, e1, e2, e3 := ThreeCached(LRU);
    fullLen := db.Len();
    full := db.Items();
    LruTouchOne(db, e1, e2, e3);
    LruTouchThree(db, e1, e2, e3);
    e4 := new DatabaseEntry();
    LruEvict(db, e1, e2, e3, e4);
    afterLen := db.Len();
    afterEvict := db.Items();
  }

  /** `get_entry_by_id(1)` on the full LFU database: a lookup changes
      only the cache, and id 1 is used once more. */
  method LfuTouchOne(db: Database, w: nat, e1: DatabaseEntry, e2: DatabaseEntry, e3: DatabaseEntry)
    requires db.Valid() && db.cache != null && db.cache.policy == LFU(w)
    requires db.entries == [e1, e2, e3]
    requires e1.id == Some(1) && e2.id == Some(2) && e3.id == Some(3)
    requires db.cache.order == [1, 2, 3]
    requires db.cache.counts == map[1 := w, 2 := w, 3 := w]
    modifies db.cache
    ensures db.Valid() && db.cache.order == [1, 2, 3]
    ensures db.cache.counts == map[1 := w + 1, 2 := w, 3 := w]
  {
    var g1 := db.GetEntryById(1);
  }

  /** `get_entry_by_id(2)` next: entry 3 now has the smallest counter. */
  method LfuTouchTwo(db: Database, w: nat, e1: DatabaseEntry, e2: DatabaseEntry, e3: DatabaseEntry)
    requires db.Valid() && db.cache != null && db.cache.policy == LFU(w)
    requires db.entries == [e1, e2, e3]
    requires e1.id == Some(1) && e2.id == Some(2) && e3.id == Some(3)
    requires db.cache.order == [1, 2, 3]
    requires db.cache.counts == map[1 := w + 1, 2 := w, 3 := w]
    modifies db.cache
    ensures db.Valid() && db.cache.order == [1, 2, 3]
    ensures db.cache.counts == map[1 := w + 1, 2 := w + 1, 3 := w]
  {
    var g2 := db.GetEntryById(2);
  }

  /** After ids 1 and 2 were used once more than id 3, id 3 is the only LFU
      victim. */
  lemma LfuVictimIsThree(w: nat, k: int)
    requires IsVictim(LFU(w), [1, 2, 3], map[1 := w + 1, 2 := w + 1, 3 := w], k)
    ensures k == 3
  {
    var order: seq<int>, counts := [1, 2, 3], map[1 := w + 1, 2 := w + 1, 3 := w];
    assert order[2] == 3 && 3 in counts;
  }

  /** The fourth add into the full LFU database whose least used entry is
      `e3`: `e3` goes, `e4` comes last. */
  method LfuEvict(db: Database, w: nat, e1: DatabaseEntry, e2: DatabaseEntry, e3: DatabaseEntry, e4: DatabaseEntry)
    requires db.Valid() && db.cache != null && db.cache.policy == LFU(w) && db.cache.maxSize == 3
    requires db.entries == [e1, e2, e3] && e4 !in db.entries
    requires e1.id == Some(1) && e2.id == Some(2) && e3.id == Some(3)
    requires db.cache.order == [1, 2, 3]
    requires db.cache.counts == map[1 := w + 1, 2 := w + 1, 3 := w]
    modifies db, db.cache, e4
    ensures db.Valid() && db.entries == [e1, e2, e4]
  {
    ghost var victim := AddEvicting(db, e4);
    LfuVictimIsThree(w, victim.id.value);
    assert victim == e3;
    RemoveFromThree(e1, e2, e3);
  }

  /** With an LFU cache of size 3, after entries 1 and 2 are looked up the
      fourth add evicts entry 3, the least used; this holds whatever counter
      a newly cached id starts with. */
  method LfuCache(insertCount: nat) returns (fullLen: nat, full: seq<DatabaseEntry>, afterLen: nat, afterEvict: seq<DatabaseEntry>, e1: DatabaseEntry, e2: DatabaseEntry, e3: DatabaseEntry, e4: DatabaseEntry)
    ensures Seqs.Distinct([e1, e2, e3, e4])
    ensures fullLen == 3 && full == [e1, e2, e3]
    ensures afterLen == 3 && afterEvict == [e1, e2, e4]
  {
    var db;
    db, e1, e2, e3 := ThreeCached(LFU(insertCount));
    fullLen := db.Len();
    full := db.Items();
    LfuTouchOne(db, insertCount, e1, e2, e3);
    LfuTouchTwo(db, insertCount, e1, e2, e3);
    e4 := new DatabaseEntry();
    LfuEvict(db, insertCount, e1, e2, e3, e4);
    afterLen := db.Len();
    afterEvict := db.Items();
  }

  /** One add into an LRU database of size 3 that stays in store order. */
  method LruAddOne(db: Database, e: DatabaseEntry, before: seq<DatabaseEntry>)
    requires LruInStoreOrder(db) && db.cache.maxSize == 3
    requires db.entries == before && e !in before
    modifies db, db.cache, e
    ensures LruInStoreOrder(db) && db.entries == Seqs.Newest(before + [e], 3)
  {
    var r := AddToLru(db, e);
  }

  /** Two adds and no lookups into a new LRU database of size 3. */
  method LruTwoAdded(a: DatabaseEntry, b: DatabaseEntry) returns (db: Database)
    requires a != b
    modifies a, b
    ensures fresh(db) && fresh(db.cache)
    ensures LruInStoreOrder(db) && db.cache.maxSize == 3 && db.entries == [a, b]
  {
    db := NewLruDatabase(3);
    LruAddOne(db, a, []);
    assert [] + [a] == [a];
    LruAddOne(db, b, [a]);
  }

  /** A third add: all three entries are stored, oldest first. */
  method LruThreeAdded(a: DatabaseEntry, b: DatabaseEntry, c: DatabaseEntry) returns (db: Database)
    requires Seqs.Distinct([a, b, c])
    modifies a, b, c
    ensures fresh(db) && fresh(db.cache)
    ensures LruInStoreOrder(db) && db.cache.maxSize == 3 && db.entries == [a, b, c]
  {
    ghost var all := [a, b, c];
    assert all[0] == a && all[1] == b && all[2] == c;
    db := LruTwoAdded(a, b);
    LruAddOne(db, c, [a, b]);
  }

  /** A fourth add, still with no lookups: the store keeps the last three
      entries added, so the oldest one went. */
  method LruAddsOnly(a: DatabaseEntry, b: DatabaseEntry, c: DatabaseEntry, d: DatabaseEntry) returns (stored: seq<DatabaseEntry>)
    requires Seqs.Distinct([a, b, c, d])
    modifies a, b, c, d
    ensures stored == [b, c, d]
  {
    ghost var all := [a, b, c, d];
    assert all[0] == a && all[1] == b && all[2] == c && all[3] == d;
    assert d != a && d != b && d != c;
    var db := LruThreeAdded(a, b, c);
    LruAddOne(db, d, [a, b, c]);
    assert [a, b, c] + [d] == [a, b, c, d];
    stored := db.entries;
  }
}
