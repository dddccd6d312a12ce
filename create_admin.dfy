/**
 * `handlers/admin/create_admin.py`: a user with access registers a new
 * admin by Telegram uid and name. The master admin picks the privilege;
 * anyone else can only create `'low'` admins. The confirmation writes the
 * admin row and refreshes both admin entries of the cache.
 */
module CreateAdminHandlers {
  import opened Wrappers
  import opened PyInt
  import opened Db
  import opened Cache
  import Callbacks
  import opened Navigation
  import opened Fsm
  import opened CallbackHandlers

  /** What the session holds in each state of `FSMCreateAdmin`. */
  predicate CaInv(s: Option<St>, d: Scratch) {
    match s
    case Some(CaUid) => d.userUid.Some? && d.lastMsgId.Some?
    case Some(CaName) => d.userUid.Some? && d.lastMsgId.Some? && d.uid.Some?
    case Some(CaPrivilegeType) => d.userUid.Some? && d.lastMsgId.Some? && d.uid.Some? && d.name.Some?
    case Some(CaConfirmation) =>
      d.userUid.Some? && d.lastMsgId.Some? && d.uid.Some? && d.name.Some? && d.privilegeType.Some?
    case _ => true
  }

  /** `FSMCreateAdmin.next()` from the states the handlers call it in. */
  lemma Steps()
    ensures Next(CreateAdminFlow, Some(CaUid)) == Some(CaName)
    ensures Next(CreateAdminFlow, Some(CaName)) == Some(CaPrivilegeType)
    ensures Next(CreateAdminFlow, Some(CaPrivilegeType)) == Some(CaConfirmation)
  {
  }

  /**
   * `create_admin`, also behind "change choice" at the confirmation: from
   * any state the session is finished; with access it restarts in `uid`.
   */
  method Start(b: Bot, uid: int, msgId: int) returns (access: bool)
    modifies b, b.cache
    ensures access == Access(uid, b.master, Read(old(b.cache.entries), b.cache.up, b.db, PrivAdminsKey))
    ensures b.cache.entries == Filled(old(b.cache.entries), b.cache.up, b.db, PrivAdminsKey) && b.cache.up == old(b.cache.up)
    ensures access ==> b.state == Some(CaUid) && b.data == Empty.(lastMsgId := Some(msgId), userUid := Some(uid))
    ensures !access ==> b.state.None? && b.data == Empty
    ensures b.db == old(b.db) && b.deleted == old(b.deleted)
    ensures CaInv(b.state, b.data)
  {
    b.Finish();
    access := CheckAccess(b.cache, b.db, b.master, uid);
    if access {
      b.state := Some(CaUid);
      b.data := b.data.(lastMsgId := Some(msgId), userUid := Some(uid));
    }
  }

  /**
   * `get_uid`: the typed answer is deleted. Text `int()` refuses re-prompts
   * in the same state; a uid the database already lists as an admin ends
   * the session with nothing written; any other uid is kept and the state
   * becomes `name`. A refused deletion raises: nothing further happens.
   */
  method GetUid(b: Bot, text: string, answerId: int)
    requires b.state == Some(CaUid)
    modifies b
    ensures var n := ParseInt(text);
      if n.None? || answerId in b.refused then
        && b.state == old(b.state) && b.data == old(b.data)
        && b.deleted == old(b.deleted) + (if answerId in b.refused then [] else [answerId])
      else
        && b.deleted == old(b.deleted) + [answerId]
        && (n.value in AdminIds(b.db, None) ==> b.state.None? && b.data == Empty)
        && (n.value !in AdminIds(b.db, None) ==> b.state == Some(CaName) && b.data == old(b.data).(uid := n))
    ensures b.db == old(b.db)
    ensures CaInv(old(b.state), old(b.data)) ==> CaInv(b.state, b.data)
  {
    var n := ParseInt(text);
    if answerId in b.refused {
      return;
    }
    b.deleted := b.deleted + [answerId];
    if n.None? {
      return;
    }
    var admins := AdminIds(b.db, None);
    if n.value in admins {
      b.Finish();
    } else {
      b.data := b.data.(uid := n);
      b.state := Some(CaName);
    }
  }

  /**
   * `get_name`: the name in normal form is kept first; the answer is then
   * deleted. The master admin is asked for the privilege; anyone else
   * creates a `'low'` admin and goes straight to `confirmation`. Input that
   * `process_input` refuses changes nothing.
   */
  method GetName(b: Bot, sender: int, text: string, answerId: int)
    requires b.state == Some(CaName)
    modifies b
    ensures var n := TypedName(text); var d := old(b.data);
      if n.None? then b.state == old(b.state) && b.data == d && b.deleted == old(b.deleted)
      else if answerId in b.refused then b.state == old(b.state) && b.data == d.(name := n) && b.deleted == old(b.deleted)
      else if sender == b.master then
        b.state == Some(CaPrivilegeType) && b.data == d.(name := n) && b.deleted == old(b.deleted) + [answerId]
      else if d.uid.None? then
        b.state == old(b.state) && b.data == d.(name := n) && b.deleted == old(b.deleted) + [answerId]
      else
        && b.state == Some(CaConfirmation) && b.data == d.(name := n, privilegeType := Some(LowPrivilege))
        && b.deleted == old(b.deleted) + [answerId]
    ensures b.db == old(b.db)
    ensures CaInv(old(b.state), old(b.data)) ==> CaInv(b.state, b.data)
  {
    var n := TypedName(text);
    if n.None? {
      return;
    }
    KeepName(b, sender, n.value, answerId);
  }

  /** The part of `get_name` after the name is known. */
  method KeepName(b: Bot, sender: int, name: string, answerId: int)
    requires b.state == Some(CaName)
    modifies b
    ensures var d := old(b.data); var n := Some(name);
      if answerId in b.refused then b.state == old(b.state) && b.data == d.(name := n) && b.deleted == old(b.deleted)
      else if sender == b.master then
        b.state == Some(CaPrivilegeType) && b.data == d.(name := n) && b.deleted == old(b.deleted) + [answerId]
      else if d.uid.None? then
        b.state == old(b.state) && b.data == d.(name := n) && b.deleted == old(b.deleted) + [answerId]
      else
        && b.state == Some(CaConfirmation) && b.data == d.(name := n, privilegeType := Some(LowPrivilege))
        && b.deleted == old(b.deleted) + [answerId]
    ensures b.db == old(b.db)
    ensures CaInv(old(b.state), old(b.data)) ==> CaInv(b.state, b.data)
  {
    b.data := b.data.(name := Some(name));
    if answerId in b.refused {
      return;
    }
    b.deleted := b.deleted + [answerId];
    if sender == b.master {
      b.state := Some(CaPrivilegeType);
    } else if b.data.uid.Some? {
      b.data := b.data.(privilegeType := Some(LowPrivilege));
      b.state := Some(CaConfirmation);
    }
  }

  /**
   * `get_priv_type`: the privilege the button names is kept and the state
   * becomes `confirmation`; a button without a value raises and changes
   * nothing, and so does a session without the uid or the name.
   */
  method GetPrivType(b: Bot, callbackData: string)
    requires b.state == Some(CaPrivilegeType)
    modifies b
    ensures var p := Callbacks.Field(callbackData, 1); var d := old(b.data);
      if p.None? || d.uid.None? || d.name.None? then b.state == old(b.state) && b.data == d
      else b.state == Some(CaConfirmation) && b.data == d.(privilegeType := p)
    ensures b.db == old(b.db) && b.deleted == old(b.deleted)
    ensures CaInv(old(b.state), old(b.data)) ==> CaInv(b.state, b.data)
  {
    var p := Callbacks.Field(callbackData, 1);
    if p.None? || b.data.uid.None? || b.data.name.None? {
      return;
    }
    b.data := b.data.(privilegeType := p);
    b.state := Some(CaConfirmation);
  }

  /** The admin row a confirmation writes, when the session holds all three answers. */
  function NewAdmin(d: Scratch): Option<(int, string, string)> {
    if d.uid.Some? && d.name.Some? && d.privilegeType.Some? then Some((d.uid.value, d.name.value, d.privilegeType.value))
    else None
  }

  /** Both admin entries hold the new lists, and the catalogue entry is as it was. */
  ghost predicate AdminsRefreshed(e1: map<Key, Entry>, e2: map<Key, Entry>, db: Db) {
    && AdminsKey in e2 && e2[AdminsKey] == Source(db, AdminsKey)
    && PrivAdminsKey in e2 && e2[PrivAdminsKey] == Source(db, PrivAdminsKey)
    && (SpecialitiesKey in e2 <==> SpecialitiesKey in e1)
    && (SpecialitiesKey in e2 ==> e2[SpecialitiesKey] == e1[SpecialitiesKey])
  }

  /**
   * `get_confirmation`: with access, the admin row is written, both admin
   * entries of the cache are refreshed and the admins menu is shown; a
   * refresh that fails ends the handler before `finish()`. Without access
   * nothing is written, and the menu is the admin panel for a listed admin
   * (the master is not asked about here). The session finishes.
   */
  method GetConfirmation(b: Bot, uid: int, now: int) returns (menu: Option<Menu>)
    requires b.state == Some(CaConfirmation)
    modifies b, b.cache
    ensures var access := Access(uid, b.master, Read(old(b.cache.entries), b.cache.up, old(b.db), PrivAdminsKey));
      var e1 := Filled(old(b.cache.entries), b.cache.up, old(b.db), PrivAdminsKey);
      var row := NewAdmin(old(b.data));
      if !access then
        && b.db == old(b.db) && b.state.None? && b.data == Empty
        && menu == Some(if Holds(Read(e1, b.cache.up, b.db, AdminsKey), uid) then AdminPanelMenu else MainMenuClient)
        && b.cache.entries == Filled(e1, b.cache.up, b.db, AdminsKey)
      else if row.None? then
        menu.None? && b.db == old(b.db) && b.state == old(b.state) && b.data == old(b.data) && b.cache.entries == e1
      else
        && b.db == CreateAdmin(old(b.db), row.value.0, row.value.1, row.value.2, now)
        && (b.cache.up ==> AdminsRefreshed(e1, b.cache.entries, b.db) && menu == Some(AdminsConfigMenu) && b.state.None? && b.data == Empty)
        && (!b.cache.up ==> b.cache.entries == e1 && menu.None? && b.state == old(b.state) && b.data == old(b.data))
    ensures b.deleted == old(b.deleted) && b.cache.up == old(b.cache.up)
    ensures old(CacheInv(b)) ==> CacheInv(b)
  {
    var access := CheckAccess(b.cache, b.db, b.master, uid);
    if !access {
      menu := Deny(b, uid);
    } else {
      menu := ConfirmWithAccess(b, now);
    }
  }

  /** The side of `get_confirmation` without access: the admin list decides the menu; nothing is written. */
  method Deny(b: Bot, uid: int) returns (menu: Option<Menu>)
    modifies b, b.cache
    ensures && b.db == old(b.db) && b.state.None? && b.data == Empty && b.deleted == old(b.deleted)
      && menu == Some(if Holds(Read(old(b.cache.entries), b.cache.up, b.db, AdminsKey), uid) then AdminPanelMenu else MainMenuClient)
      && b.cache.entries == Filled(old(b.cache.entries), b.cache.up, b.db, AdminsKey) && b.cache.up == old(b.cache.up)
    ensures old(CacheInv(b)) ==> CacheInv(b)
  {
    ghost var e0 := b.cache.entries;
    var admins := b.cache.Get(b.db, AdminsKey);
    if b.cache.up && CoherentWith(e0, b.db) {
      ReadCoherent(e0, b.cache.up, b.db, AdminsKey);
    }
    menu := Some(if Holds(admins, uid) then AdminPanelMenu else MainMenuClient);
    b.Finish();
  }

  /** The side of `get_confirmation` with access: the row, the refresh of both admin entries, the end of the session. */
  method ConfirmWithAccess(b: Bot, now: int) returns (menu: Option<Menu>)
    modifies b, b.cache
    ensures var row := NewAdmin(old(b.data));
      if row.None? then
        menu.None? && b.db == old(b.db) && b.state == old(b.state) && b.data == old(b.data) && b.cache.entries == old(b.cache.entries)
      else
        && b.db == CreateAdmin(old(b.db), row.value.0, row.value.1, row.value.2, now)
        && (b.cache.up ==> AdminsRefreshed(old(b.cache.entries), b.cache.entries, b.db) && menu == Some(AdminsConfigMenu) && b.state.None? && b.data == Empty)
        && (!b.cache.up ==> b.cache.entries == old(b.cache.entries) && menu.None? && b.state == old(b.state) && b.data == old(b.data))
    ensures b.deleted == old(b.deleted) && b.cache.up == old(b.cache.up)
    ensures old(CacheInv(b)) ==> CacheInv(b)
  {
    ghost var e0 := b.cache.entries;
    ghost var db0 := b.db;
    var row := NewAdmin(b.data);
    if row.None? {
      return None;
    }
    b.db := CreateAdmin(b.db, row.value.0, row.value.1, row.value.2, now);
    var ok := RefreshAdmins(b.cache, b.db);
    if !ok {
      return None;
    }
    if CoherentWith(e0, db0) {
      RefreshedCoherent(e0, b.cache.entries, db0, b.db);
    }
    menu := Some(AdminsConfigMenu);
    b.Finish();
  }

  /** `update_cache` of both admin keys, in either order: both entries are read again from the database. */
  method RefreshAdmins(c: CacheStore, db: Db) returns (ok: bool)
    modifies c
    ensures ok == c.up && c.up == old(c.up)
    ensures ok ==> AdminsRefreshed(old(c.entries), c.entries, db)
    ensures !ok ==> c.entries == old(c.entries)
  {
    var keys := [PrivAdminsKey, AdminsKey];
    assert PrivAdminsKey in keys && AdminsKey in keys && SpecialitiesKey !in keys;
    ok := c.Update(db, keys);
  }

  /** A refresh of both admin entries after a write that leaves the catalogue alone keeps a coherent cache coherent. */
  lemma RefreshedCoherent(e0: map<Key, Entry>, e1: map<Key, Entry>, db0: Db, db1: Db)
    requires CoherentWith(e0, db0)
    requires AdminsRefreshed(e0, e1, db1)
    requires db1.specialities == db0.specialities
    ensures CoherentWith(e1, db1)
  {
    SourceFrame(db0, db1);
    forall k | k in e1
      ensures e1[k] == Source(db1, k)
    {
      if k == SpecialitiesKey {
        assert e1[k] == e0[k];
      }
    }
  }

  /**
   * Once the cache holds the lists read after the write, the new admin
   * passes the admin check, and passes the access check when created with
   * `'high'` privilege.
   */
  lemma NewAdminAdmitted(db: Db, uid: int, name: string, privilege: string, now: int, entries: map<Key, Entry>, master: int)
    requires CoherentWith(entries, CreateAdmin(db, uid, name, privilege, now))
    ensures var db1 := CreateAdmin(db, uid, name, privilege, now);
      IsAdmin(uid, master, Read(entries, true, db1, AdminsKey))
    ensures var db1 := CreateAdmin(db, uid, name, privilege, now);
      privilege == HighPrivilege ==> Access(uid, master, Read(entries, true, db1, PrivAdminsKey))
  {
    var db1 := CreateAdmin(db, uid, name, privilege, now);
    var x := db1.admins[|db.admins|];
    assert x in db1.admins && x.uid == uid && x.privilege == privilege;
    AdminMeaning(entries, true, db1, master, uid);
    AccessMeaning(entries, true, db1, master, uid);
  }
}
