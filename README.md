# sunpy database catalog with LRU / LFU eviction

A Dafny model of the entry catalog behind `sunpy.database.Database` and of
its two cache policies, `LRUCache` and `LFUCache`, as the test suite
`sunpy/tests/database/test_database.py` pins them down.

- `Tables.DatabaseEntry` is the mutable entry object: an optional integer
  `id` and a `starred` flag. Two entries are the same entry only when they
  are the same object.
- `Catalog.Database` is the catalog. It keeps its stored entries in insertion
  order, together with the next id to hand out and an optional cache of
  fixed size. `add`, `commit`, `edit`, `remove`, `star`, `get_starred`,
  `get_entry_by_id`, iteration (`Items`) and `len` are methods or functions
  of the class. They update the entries' `id` and `starred` fields in place.
  Failures come back as an `Outcome` or `Result` value naming the error
  (`EntryAlreadyAddedError`, `EntryAlreadyStarredError`,
  `NoSuchEntryError`).
- `Caching.Cache` is the bounded cache keyed by entry id. An LRU cache
  keeps its ids in recency order and an LFU cache keeps a use counter per
  id. `ToBeRemoved` names the victim its policy picks among the ids present.
  `Put` inserts only while there is room. When the cache is full,
  `Database.Add` first takes the victim from `ToBeRemoved` and deletes that
  entry from the store with `Remove`, which also drops its cache slot. Only
  then does it insert the new entry. Eviction therefore deletes from the
  store itself, and the new entry is never its own victim.
- `Store` is the catalog's invariant library. It states the bookkeeping
  invariants on plain values and proves that adding, removing and
  re-keying an entry keep them. The
  invariants are: entries distinct, ids unique and below the next id, and
  the cache holding exactly the stored ids, each mapped to its own entry.
- `Scenarios` replays each test as a method. Its `ensures` clauses are the
  test's live assertions, with the session count read as `Len`.

`Database.Valid()` is the class invariant, and every method keeps it.
It says:
- every stored entry carries its id;
- ids are unique;
- the cached ids are exactly the stored ids;
- the store never holds more entries than the cache size;
- the stored entries are a subsequence of the entries ever added, in the
  order of the adds.

The exact store order comes from the `Add` and `Remove` contracts: an add
appends, and a remove or an eviction deletes one entry and keeps the order of
the rest. So iteration order is the order of the adds that stored the
entries now present. An entry removed and added again counts at its latest
add.

## Model

| member | source | states |
|---|---|---|
| Tables.DatabaseEntry.constructor | sunpy/tests/database/test_database.py:68-70 | a new entry has no id and is not starred |
| Caching.Touch | sunpy/tests/database/test_database.py:136-137 | an LRU access makes the id the most recently used (last) and keeps the same ids, each once |
| Caching.TouchKeepsOthers | sunpy/tests/database/test_database.py:136-137 | an access leaves the relative order of all other ids unchanged |
| Caching.TouchedIsNotLruVictim | sunpy/tests/database/test_database.py:136-144 | in an LRU cache of two or more ids, no possible victim after an access is the id just accessed |
| Caching.LeastUsed | sunpy/tests/database/test_database.py:163-171 | the LFU search returns a tracked id whose counter is no larger than any other |
| Caching.Cache.constructor | sunpy/tests/database/test_database.py:124 | a new cache is empty, with the given policy and size |
| Caching.Cache.Get | sunpy/tests/database/test_database.py:163-164 | a lookup returns the value iff the id is cached; a hit moves the id to the most recent place (LRU) or adds one to its counter (LFU); nothing else changes |
| Caching.Cache.ToBeRemoved | sunpy/tests/database/test_database.py:139-144 | the next victim is a cached id: the least recently used for LRU, one with the smallest counter for LFU |
| Caching.Cache.Put | sunpy/tests/database/test_database.py:126-128 | with room in the cache, a put makes the new id the most recent, maps it to its value and gives it the LFU starting counter; nothing else changes |
| Caching.Cache.Discard | sunpy/tests/database/test_database.py:139-144 | deleting an id removes it from the order, the mapping and the counters, and keeps the invariant |
| Caching.Cache.Rename | sunpy/tests/database/test_database.py:89 | re-keying keeps the id's place in the recency order and its counter (the cache side of an id edit is a modelling choice, see Left out) |
| Store.AppendKeeps | sunpy/tests/database/test_database.py:71-73 | storing a new entry under the next id keeps ids unique and the cache mirroring the store |
| Store.RemoveKeeps | sunpy/tests/database/test_database.py:98-99 | deleting a stored entry and its cache slot keeps ids unique and the cache mirroring the store |
| Store.RenameKeeps | sunpy/tests/database/test_database.py:89-90 | giving a stored entry an id no other stored entry holds keeps ids unique and the cache mirroring the store |
| Catalog.StarredInMembers | sunpy/tests/database/test_database.py:63-65 | the starred list holds exactly the starred entries of the store |
| Catalog.StarredInOrder | sunpy/tests/database/test_database.py:63-65 | the starred list keeps store order |
| Catalog.FindById | sunpy/tests/database/test_database.py:136-137 | the linear search finds an entry with the id iff one exists |
| Catalog.Database.CacheMatchesStore | sunpy/tests/database/test_database.py:140-144 | with a cache, the cached ids are exactly the stored entries' ids, each cached with its own entry |
| Catalog.Database.constructor | sunpy/tests/database/test_database.py:19-20 | a new database is empty, numbers from 1, and has a cache of the given policy and size iff one is configured |
| Catalog.Database.Len | sunpy/tests/database/test_database.py:117-120 | `len` is the number of stored entries and never exceeds the cache size |
| Catalog.Database.Items | sunpy/tests/database/test_database.py:107-114 | iteration yields each stored entry once, all with ids, in the order they were added |
| Catalog.Database.Commit | sunpy/tests/database/test_database.py:72-73 | commit keeps the invariant (ids are already assigned by add) |
| Catalog.Database.Add | sunpy/tests/database/test_database.py:68-81 | add refuses an entry that is already stored; otherwise the entry gets the next id and goes last; with a full cache the policy's victim among the entries already stored is deleted first |
| Catalog.Database.Append | sunpy/tests/database/test_database.py:71-73 | the insertion step of add: the entry takes the next id, goes last in the store and in the cache |
| Catalog.Database.Remove | sunpy/tests/database/test_database.py:93-104 | remove refuses an entry that is not stored; otherwise the store loses exactly that entry, the count drops by one and its cache slot goes |
| Catalog.Database.Edit | sunpy/tests/database/test_database.py:84-90 | edit overwrites the id or the starred flag of a stored entry; it refuses an entry that is not stored and an id another stored entry holds; with a cache the entry keeps its slot, its place in the order and its LFU counter under the new id, a modelling choice no test line shows |
| Catalog.Database.Reassign | sunpy/tests/database/test_database.py:89-90 | the entry takes the new id and keeps its cache slot, its place in the order and its LFU counter under it; the other counters stay; the next id moves past it (the cache side is a modelling choice, see Left out) |
| Catalog.Database.Star | sunpy/tests/database/test_database.py:44-55 | star sets the flag, stored or not, and refuses an entry already starred |
| Catalog.Database.GetStarred | sunpy/tests/database/test_database.py:58-65 | get_starred returns the starred stored entries, in store order |
| Store.LruAddKeeps | sunpy/tests/database/test_database.py:139-144 | when the LRU order lists the stored ids oldest first, the least recently used id is the oldest entry's, and an add (dropping the oldest entry when full) keeps the order listing the stored ids oldest first |
| Seqs.NewestAppend | sunpy/tests/database/test_database.py:126-144 | keeping the newest n values after each append keeps the newest n of everything appended |
| Catalog.NewLruDatabase | sunpy/tests/database/test_database.py:123-124 | a new LRU database is empty and its recency order lists the stored ids oldest first |
| Catalog.AddToLru | sunpy/tests/database/test_database.py:126-144 | in an LRU database without lookups, add refuses a stored entry and otherwise leaves exactly the newest `maxSize` of the old entries and the new one, keeping the order in store order |
| Catalog.AddToLruWithRoom | sunpy/tests/database/test_database.py:126-128 | an add into an LRU database without lookups that still has room appends the entry and keeps the order in store order |
| Catalog.AddToFullLru | sunpy/tests/database/test_database.py:139-144 | an add into a full LRU database without lookups evicts the oldest entry |
| Catalog.Database.GetEntryById | sunpy/tests/database/test_database.py:136-137 | the lookup finds a stored entry with the id iff there is one, and counts as a cache use of the id |
| Scenarios.StarEntry | sunpy/tests/database/test_database.py:44-48 | starring a new entry turns its flag from false to true |
| Scenarios.StarAlreadyStarred | sunpy/tests/database/test_database.py:51-55 | the second star of the same entry fails with EntryAlreadyStarredError |
| Scenarios.GetStarredEntries | sunpy/tests/database/test_database.py:58-65 | get_starred is empty before any star and only entry2 after starring entry2 |
| Scenarios.AddEntry | sunpy/tests/database/test_database.py:68-73 | a new entry has no id; after add and commit its id is 1 |
| Scenarios.AddAlreadyExisting | sunpy/tests/database/test_database.py:76-81 | adding the same entry twice fails with EntryAlreadyAddedError |
| Scenarios.EditEntry | sunpy/tests/database/test_database.py:84-90 | edit(entry, id=42) turns id 1 into 42 |
| Scenarios.RemoveExisting | sunpy/tests/database/test_database.py:93-99 | count 1 and id 1 after add; count 0 after remove |
| Scenarios.RemoveNonexisting | sunpy/tests/database/test_database.py:102-104 | removing an entry never added fails with NoSuchEntryError |
| Scenarios.Iter | sunpy/tests/database/test_database.py:107-114 | iteration yields [entry1, entry2], two different entries, in the order added |
| Scenarios.Len | sunpy/tests/database/test_database.py:117-120 | len is 0, then 1 after one entry is stored |
| Scenarios.NewCacheIsEmpty | sunpy/tests/database/test_database.py:124 | a freshly configured cache holds nothing |
| Scenarios.LruCache | sunpy/tests/database/test_database.py:123-146 | with LRU and size 3 and four different entries: len 3 and [e1, e2, e3] after three adds; len 3 and [e1, e3, e4] after looking up 1 and 3 and adding e4 |
| Scenarios.LruAddsOnly | sunpy/tests/database/test_database.py:123-146 | four different entries added to a new LRU database of size 3, with no lookups: the store keeps the last three added |
| Scenarios.LfuVictimIsThree | sunpy/tests/database/test_database.py:163-166 | after ids 1 and 2 are used once more than id 3, id 3 is the only LFU victim |
| Scenarios.LfuCache | sunpy/tests/database/test_database.py:149-173 | with LFU and size 3 and four different entries: len 3 and [e1, e2, e3] after three adds; len 3 and [e1, e2, e4] after looking up 1 and 2 and adding e4, whatever counter a new id starts with |

## Left out

- The SQLAlchemy engine, sqlite URL, `create_tables` and the schema check (:38-41) are storage I/O and are not modelled. The same goes for the `session` count queries (:96, :99), which the model reads as `Len`.
- The pytest fixtures (:12-35) are test harness. Each scenario builds its database directly.
- `DatabaseEntry` columns other than `id` and `starred` are not modelled, because no test reads them.
- `sunpy.database.commands` undo/redo is not modelled. Only its `NoSuchEntryError` is used.
- The commented-out `_cache.items()` assertions are not claimed.
- Scenarios.Len: stores its entry with `Add`, because the raw `session.add` at :119 goes through the storage library and bypasses the catalog.
- Catalog.Database.Commit: a no-op. Ids are assigned by `Add` at once, which the cache tests need since they never commit before relying on ids.
- Caching.Cache.ToBeRemoved: for LFU it promises only some id with the smallest counter. The tie rule among equal counters is not fixed by any test line.
- Caching.Policy: whether inserting an id counts as a use is not fixed either. The LFU starting counter is a parameter (`insertCount`), and the LFU scenario is proved for every value.
- Catalog.Database.Edit: models only the `id` and `starred` attributes, one attribute per call, where `edit(entry, **kwargs)` takes several. With a cache, an id edit keeps the entry's cache slot, recency place and LFU counter under the new id, and does not count as a use; no test runs `edit` with a cache, so this is a modelling choice. The rest of its behaviour comes from the store's constraints rather than from the tests:
  - editing an entry that is not stored fails with `NoSuchEntryError`;
  - an id held by another stored entry fails with `DuplicateIdError`, the primary-key constraint;
  - the next id moves past an edited id, like sqlite's AUTOINCREMENT.
- Catalog.Database.GetEntryById: an id that is not stored gives `NoSuchEntryError`. With a cache, the lookup goes through the cache only.
- Catalog.Database.Add: an entry removed earlier may be added again and gets a fresh id.
- The general statement that an LRU catalog without lookups keeps the last N added entries is proved one add at a time (`Catalog.AddToLru`, starting from `Catalog.NewLruDatabase` and chained by `Seqs.NewestAppend`); `Scenarios.LruAddsOnly` runs four such adds. It is not proved for removes or edits in between, nor for LFU, whose tie rule is open.
