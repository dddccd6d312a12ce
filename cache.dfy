/**
 * The read-through cache of `utils/cache/functions.py`: three keys, each
 * filled from its query on a miss, refreshed by `update_cache`. The memcached
 * store is a map; whether the server answers is a flag the environment sets.
 */
module Cache {
  import opened Wrappers
  import opened Db
  import opened Sorting

  datatype Key = AdminsKey | SpecialitiesKey | PrivAdminsKey

  /** A cached value: uids under the two admin keys, titles under the speciality key. */
  datatype Entry = Ids(ids: seq<int>) | TitleList(titles: seq<string>)

  const HighPrivilege := "high"
  const LowPrivilege := "low"

  /** `cache_related_funcs[key]`: the query behind each key. */
  function Source(db: Db, key: Key): Entry {
    match key
    case AdminsKey => Ids(AdminIds(db, None))
    case PrivAdminsKey => Ids(AdminIds(db, Some(HighPrivilege)))
    case SpecialitiesKey => TitleList(SpecialityTitles(db))
  }

  /** The uids a cached value holds; a title list holds none. */
  function IdsOf(e: Entry): seq<int> {
    if e.Ids? then e.ids else []
  }

  /**
   * What each key stands for: every admin, the admins with privilege
   * `'high'` (who are admins too), and the catalogue titles in ascending order.
   */
  lemma SourceMeaning(db: Db, uid: int)
    ensures uid in IdsOf(Source(db, PrivAdminsKey)) ==> uid in IdsOf(Source(db, AdminsKey))
    ensures forall x :: x in db.admins ==> x.uid in IdsOf(Source(db, AdminsKey))
    ensures forall x :: x in db.admins && x.privilege == HighPrivilege ==> x.uid in IdsOf(Source(db, PrivAdminsKey))
    ensures Source(db, SpecialitiesKey).TitleList?
    ensures SortedBy(Source(db, SpecialitiesKey).titles, Id)
    ensures multiset(Source(db, SpecialitiesKey).titles) == multiset(Titles(db.specialities))
  {
    if uid in IdsOf(Source(db, PrivAdminsKey)) {
      PrivilegedAreAdmins(db, uid, HighPrivilege);
    }
    SpecialityTitlesSorted(db);
  }

  /** What the `except` branch of `get_cache` returns, as written: the query result inside a one-element tuple. */
  datatype Returned = Plain(e: Entry) | OneTuple(e: Entry)

  /** `uid in value`: a tuple's only element is a list, which equals no uid. */
  predicate Holds(r: Returned, uid: int) {
    r.Plain? && uid in IdsOf(r.e)
  }

  /** `len(value)`. */
  function Length(r: Returned): nat {
    if r.OneTuple? then 1 else if r.e.Ids? then |r.e.ids| else |r.e.titles|
  }

  /** The fallback of `get_cache` as written (the trailing comma of its `return`). */
  function FallbackAsWritten(db: Db, key: Key): Returned {
    OneTuple(Source(db, key))
  }

  /**
   * As written, while the cache server is down nobody passes an admin or
   * access check, not even an admin the database lists, and the
   * appointment flow sees exactly one "speciality".
   */
  lemma FallbackLocksOut(db: Db, key: Key, uid: int)
    ensures !Holds(FallbackAsWritten(db, key), uid)
    ensures Length(FallbackAsWritten(db, SpecialitiesKey)) == 1
    ensures uid in IdsOf(Source(db, key)) ==> !Holds(FallbackAsWritten(db, key), uid)
  {
  }

  /** The fallback as intended: the query result itself. */
  function Fallback(db: Db, key: Key): (r: Returned)
    ensures forall uid :: Holds(r, uid) <==> uid in IdsOf(Source(db, key))
    ensures key == SpecialitiesKey ==> Length(r) == |Titles(db.specialities)|
  {
    var r := Plain(Source(db, key));
    if key == SpecialitiesKey then
      assert |Source(db, key).titles| == |multiset(Source(db, key).titles)| == |multiset(Titles(db.specialities))|;
      r
    else r
  }

  /** What `get_cache(key)` returns from a store in this state: a stored value, else (server down or a miss) the query result. */
  function Read(entries: map<Key, Entry>, up: bool, db: Db, key: Key): Returned {
    if !up then Fallback(db, key)
    else if key in entries then Plain(entries[key])
    else Plain(Source(db, key))
  }

  /** The store after `get_cache(key)`: a miss stores the query result. */
  function Filled(entries: map<Key, Entry>, up: bool, db: Db, key: Key): map<Key, Entry> {
    if up && key !in entries then entries[key := Source(db, key)] else entries
  }

  /** Every stored value is what its query returns now. */
  predicate CoherentWith(entries: map<Key, Entry>, db: Db) {
    forall k :: k in entries ==> entries[k] == Source(db, k)
  }

  /**
   * A coherent store whose server answers gives the database's own result;
   * reading keeps the store coherent, and a second read gives the same value
   * without another query.
   */
  lemma ReadCoherent(entries: map<Key, Entry>, up: bool, db: Db, key: Key)
    requires up && CoherentWith(entries, db)
    ensures Read(entries, up, db, key) == Plain(Source(db, key))
    ensures CoherentWith(Filled(entries, up, db, key), db)
    ensures Read(Filled(entries, up, db, key), up, db, key) == Read(entries, up, db, key)
    ensures key in Filled(entries, up, db, key)
  {
  }

  /**
   * With the server down the model reads the corrected fallback, the
   * database's own result, and stores nothing; the one-tuple `get_cache`
   * returns as written is `FallbackAsWritten`.
   */
  lemma ReadDown(entries: map<Key, Entry>, db: Db, key: Key)
    ensures Read(entries, false, db, key) == Fallback(db, key) == Plain(Source(db, key))
    ensures Read(entries, false, db, key) != FallbackAsWritten(db, key)
    ensures Filled(entries, false, db, key) == entries
  {
  }

  /** A hit returns the stored value, even a stale one: the query is not run. */
  lemma HitIgnoresDatabase(entries: map<Key, Entry>, db1: Db, db2: Db, key: Key)
    requires key in entries
    ensures Read(entries, true, db1, key) == Read(entries, true, db2, key) == Plain(entries[key])
  {
  }

  /** Each key's query reads one table: the admin keys the admins, the speciality key the catalogue. */
  lemma SourceFrame(db1: Db, db2: Db)
    ensures db1.admins == db2.admins ==> Source(db1, AdminsKey) == Source(db2, AdminsKey)
    ensures db1.admins == db2.admins ==> Source(db1, PrivAdminsKey) == Source(db2, PrivAdminsKey)
    ensures db1.specialities == db2.specialities ==> Source(db1, SpecialitiesKey) == Source(db2, SpecialitiesKey)
  {
    if db1.admins == db2.admins {
      assert AdminRows(db1, None) == AdminRows(db2, None);
      assert AdminRows(db1, Some(HighPrivilege)) == AdminRows(db2, Some(HighPrivilege));
    }
  }

  /**
   * A store stays coherent across a database write once every key whose
   * query result the write changed has been refreshed.
   */
  lemma CoherentAfterRefresh(e0: map<Key, Entry>, e1: map<Key, Entry>, db0: Db, db1: Db, keys: seq<Key>)
    requires CoherentWith(e0, db0)
    requires forall k :: k in keys ==> k in e1 && e1[k] == Source(db1, k)
    requires forall k :: k !in keys ==> (k in e1 <==> k in e0) && (k in e1 ==> e1[k] == e0[k])
    requires forall k :: k !in keys ==> Source(db1, k) == Source(db0, k)
    ensures CoherentWith(e1, db1)
  {
  }

  /** A write that leaves the admins and the catalogue alone keeps a coherent store coherent. */
  lemma CoherentAfterOtherWrite(e: map<Key, Entry>, db0: Db, db1: Db)
    requires CoherentWith(e, db0)
    requires db1.admins == db0.admins && db1.specialities == db0.specialities
    ensures CoherentWith(e, db1)
  {
    SourceFrame(db0, db1);
  }

  class CacheStore {
    /** The stored values; a missing key is what `cache.get` reports as `None` (never set, or expired). */
    var entries: map<Key, Entry>
    /** Whether the memcached server answers. */
    var up: bool

    constructor ()
      ensures entries == map[] && up
    {
      entries := map[];
      up := true;
    }

    predicate Coherent(db: Db)
      reads this
    {
      CoherentWith(entries, db)
    }

    /** `get_cache(key)`, with the corrected fallback. */
    method Get(db: Db, key: Key) returns (r: Returned)
      modifies this
      ensures r == Read(old(entries), up, db, key)
      ensures entries == Filled(old(entries), up, db, key) && up == old(up)
    {
      if !up {
        r := Fallback(db, key);
        return;
      }
      if key !in entries {
        entries := entries[key := Source(db, key)];
      }
      r := Plain(entries[key]);
    }

    /** `update_cache(*keys)`: each listed key, in order, gets a fresh query result; `false` when the server is down. */
    method Update(db: Db, keys: seq<Key>) returns (ok: bool)
      modifies this
      ensures ok == up && up == old(up)
      ensures !ok ==> entries == old(entries)
      ensures ok ==> forall k :: k in keys ==> k in entries && entries[k] == Source(db, k)
      ensures ok ==> forall k :: k !in keys ==> (k in entries <==> k in old(entries)) && (k in entries ==> entries[k] == old(entries)[k])
    {
      if !up {
        return false;
      }
      var i := 0;
      while i < |keys|
        invariant 0 <= i <= |keys| && up
        invariant forall k :: k in keys[..i] ==> k in entries && entries[k] == Source(db, k)
        invariant forall k :: k !in keys[..i] ==> (k in entries <==> k in old(entries)) && (k in entries ==> entries[k] == old(entries)[k])
      {
        entries := entries[keys[i] := Source(db, keys[i])];
        assert keys[..i + 1] == keys[..i] + [keys[i]];
        i := i + 1;
      }
      assert keys[..i] == keys;
      return true;
    }

    /** The entry times out after `CACHE_TIME`, or the server evicts it. */
    method Expire(key: Key)
      modifies this
      ensures entries == old(entries) - {key} && up == old(up)
    {
      entries := entries - {key};
    }

    /** The server stops or starts answering; what it stored is kept. */
    method SetBackend(answers: bool)
      modifies this
      ensures up == answers && entries == old(entries)
    {
      up := answers;
    }
  }
}
