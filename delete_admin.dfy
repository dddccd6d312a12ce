/**
 * `handlers/admin/delete_admin.py`: a user with access picks admins from a
 * list (the master sees every admin, anyone else only the `'low'` ones),
 * toggling each pick, confirms, and the picked admins are deleted; both
 * admin entries of the cache are then refreshed.
 */
module DeleteAdminHandlers {
  import opened Wrappers
  import opened PyInt
  import opened ODict
  import opened Db
  import opened Cache
  import Callbacks
  import AdminKb
  import ClientKb
  import opened Navigation
  import opened Fsm
  import CreateAdminHandlers

  // ------------------------------------------------------------ the admins dict

  /** The uids of the listed admins as the session store keeps them: decimal text. */
  function UidTexts(rows: seq<(int, string)>): (ks: seq<string>)
    ensures |ks| == |rows| && forall i :: 0 <= i < |rows| ==> ks[i] == IntToString(rows[i].0)
  {
    seq(|rows|, i requires 0 <= i < |rows| => IntToString(rows[i].0))
  }

  /** `{str(admin.user_uid): admin.full_name for admin in admins}`. */
  function AdminsDict(rows: seq<(int, string)>): (d: Dict<string>)
    ensures UniqueKeys(d)
  {
    if |rows| == 0 then []
    else
      var last := rows[|rows| - 1];
      var init := AdminsDict(rows[..|rows| - 1]);
      PutKeepsUnique(init, IntToString(last.0), last.1);
      Put(init, IntToString(last.0), last.1)
  }

  /** The dict has a key for each listed uid and no other. */
  lemma {:induction false} AdminsDictKeys(rows: seq<(int, string)>)
    ensures forall k :: HasKey(AdminsDict(rows), k) <==> k in UidTexts(rows)
    decreases |rows|
  {
    if |rows| > 0 {
      var init := rows[..|rows| - 1];
      var last := rows[|rows| - 1];
      AdminsDictKeys(init);
      PutKeys(AdminsDict(init), IntToString(last.0), last.1);
      assert UidTexts(rows) == UidTexts(init) + [IntToString(last.0)];
    }
  }

  /** Each uid reads the name of its last row (the comprehension's later keys overwrite). */
  lemma {:induction false} AdminsDictName(rows: seq<(int, string)>, i: nat)
    requires i < |rows| && forall j :: i < j < |rows| ==> rows[j].0 != rows[i].0
    ensures Get(AdminsDict(rows), IntToString(rows[i].0)) == Some(rows[i].1)
    decreases |rows|
  {
    var init := rows[..|rows| - 1];
    var last := rows[|rows| - 1];
    GetPut(AdminsDict(init), IntToString(last.0), last.1, IntToString(rows[i].0));
    if i < |rows| - 1 {
      IntRoundTrip(last.0);
      IntRoundTrip(rows[i].0);
      AdminsDictName(init, i);
    }
  }

  /** Every key of a choice taken from the dict reads back as an integer. */
  lemma ChosenKeysParse(rows: seq<(int, string)>, chosen: Dict<string>)
    requires SubDict(chosen, AdminsDict(rows))
    ensures forall k :: 0 <= k < |chosen| ==> ParseInt(chosen[k].0).Some?
  {
    forall k | 0 <= k < |chosen|
      ensures ParseInt(chosen[k].0).Some?
    {
      ParsedIsText(chosen[k].0, rows, chosen, k);
    }
  }

  /** A chosen key is the decimal text of its uid. */
  lemma ParsedIsText(key: string, rows: seq<(int, string)>, chosen: Dict<string>, k: nat)
    requires SubDict(chosen, AdminsDict(rows)) && k < |chosen| && key == chosen[k].0
    ensures ParseInt(key).Some? && IntToString(ParseInt(key).value) == key
  {
    assert Keys(chosen)[k] == key;
    assert HasKey(chosen, key);
    assert Get(chosen, key) == Get(AdminsDict(rows), key);
    assert HasKey(AdminsDict(rows), key);
    AdminsDictKeys(rows);
    var ks := UidTexts(rows);
    assert key in ks;
    var i :| 0 <= i < |ks| && ks[i] == key;
    IntRoundTrip(rows[i].0);
  }

  // ------------------------------------------------------------ the deletion

  /**
   * The loop of `get_confirmation`: `delete_admin(int(uid))` for each chosen
   * key in order. The flag is false when `int()` raises, which ends the loop
   * with the earlier deletions already committed.
   */
  function Purge(db: Db, keys: seq<string>): (r: (Db, bool))
    ensures r.0.(admins := db.admins) == db
    ensures forall x :: x in r.0.admins ==> x in db.admins
    decreases |keys|
  {
    if |keys| == 0 then (db, true)
    else match ParseInt(keys[0])
      case None => (db, false)
      case Some(u) => Purge(DeleteAdmin(db, u), keys[1..])
  }

  /** `int(uid)` of each key, when every key is a number. */
  function KeyUids(keys: seq<string>): (us: seq<int>)
    requires forall k :: 0 <= k < |keys| ==> ParseInt(keys[k]).Some?
    ensures |us| == |keys| && forall k :: 0 <= k < |keys| ==> Some(us[k]) == ParseInt(keys[k])
  {
    seq(|keys|, k requires 0 <= k < |keys| => ParseInt(keys[k]).value)
  }

  /**
   * When every key is a number the loop runs to the end, and the admins left
   * are exactly those whose uid no key names.
   */
  lemma {:induction false} PurgeExact(db: Db, keys: seq<string>)
    requires forall k :: 0 <= k < |keys| ==> ParseInt(keys[k]).Some?
    ensures Purge(db, keys).1
    ensures forall x :: x in Purge(db, keys).0.admins <==> x in db.admins && x.uid !in KeyUids(keys)
    decreases |keys|
  {
    if |keys| > 0 {
      var u := ParseInt(keys[0]).value;
      var rest := keys[1..];
      KeyUidsCons(keys);
      var db1 := DeleteAdmin(db, u);
      PurgeExact(db1, rest);
      var us := KeyUids(rest);
      var left := Purge(db1, rest).0.admins;
      forall x ensures x in left <==> x in db.admins && x.uid !in KeyUids(keys) {
        assert x in left <==> x in db1.admins && x.uid !in us;
        assert x in db1.admins <==> x in db.admins && x.uid != u;
        assert x.uid in KeyUids(keys) <==> x.uid == u || x.uid in us;
      }
    }
  }

  /** The uids of the keys are the first key's uid followed by the uids of the rest. */
  lemma KeyUidsCons(keys: seq<string>)
    requires forall k :: 0 <= k < |keys| ==> ParseInt(keys[k]).Some?
    requires |keys| > 0
    ensures forall k :: 0 <= k < |keys| - 1 ==> ParseInt(keys[1..][k]).Some?
    ensures KeyUids(keys) == [ParseInt(keys[0]).value] + KeyUids(keys[1..])
  {
    var rest := keys[1..];
    forall k | 0 <= k < |rest| ensures ParseInt(rest[k]).Some? {
      assert rest[k] == keys[k + 1];
    }
    var a := KeyUids(keys);
    var b := [ParseInt(keys[0]).value] + KeyUids(rest);
    forall k | 0 <= k < |a| ensures a[k] == b[k] {
      if k > 0 {
        assert rest[k - 1] == keys[k];
      }
    }
  }

  /** A deleted admin is gone from every admin list the cache is refreshed from. */
  lemma PurgedNotListed(db: Db, keys: seq<string>, k: nat, filter: Option<string>)
    requires forall j :: 0 <= j < |keys| ==> ParseInt(keys[j]).Some?
    requires k < |keys|
    ensures ParseInt(keys[k]).value !in AdminIds(Purge(db, keys).0, filter)
  {
    PurgeExact(db, keys);
    var db1 := Purge(db, keys).0;
    var u := ParseInt(keys[k]).value;
    assert KeyUids(keys)[k] == u;
    assert forall x :: x in db1.admins ==> x.uid != u;
    AdminIdsListed(db1, filter, u);
  }

  /** Deletes the admins the keys name, one at a time. */
  method PurgeLoop(b: Bot, keys: seq<string>) returns (ok: bool)
    modifies b
    ensures (b.db, ok) == Purge(old(b.db), keys)
    ensures b.state == old(b.state) && b.data == old(b.data) && b.deleted == old(b.deleted)
  {
    var i := 0;
    while i < |keys|
      invariant 0 <= i <= |keys|
      invariant Purge(b.db, keys[i..]) == Purge(old(b.db), keys)
      invariant b.state == old(b.state) && b.data == old(b.data) && b.deleted == old(b.deleted)
    {
      assert keys[i..][1..] == keys[i + 1..];
      var u := ParseInt(keys[i]);
      if u.None? {
        return false;
      }
      b.db := DeleteAdmin(b.db, u.value);
      i := i + 1;
    }
    ok := true;
  }

  // ------------------------------------------------------------ the flow

  /** In both states the session holds the offered admins and a duplicate-free choice among them. */
  ghost predicate DaInv(s: Option<St>, d: Scratch) {
    (s == Some(DaAdmins) || s == Some(DaConfirmation)) ==>
      && d.userUid.Some? && d.lastMsgId.Some? && d.admins.Some? && d.chosenAdmins.Some?
      && UniqueKeys(d.chosenAdmins.value) && SubDict(d.chosenAdmins.value, d.admins.value)
  }

  /** The admins a user may remove: all of them for the master, the `'low'` ones otherwise. */
  function Offered(db: Db, uid: int, master: int): Dict<string> {
    AdminsDict(AdminList(db, if uid == master then None else Some(Cache.LowPrivilege)))
  }

  /**
   * `delete_admin`, also behind "change choice" at the confirmation: from
   * any state the session is finished; with access it restarts in `admins`
   * with the offered admins and an empty choice. The list is drawn inside
   * the proxy: a name `transform_name` cannot shorten raises there, and the
   * session is left in `admins` with empty data.
   */
  method Start(b: Bot, uid: int, msgId: int) returns (access: bool)
    modifies b, b.cache
    ensures access == Access(uid, b.master, Read(old(b.cache.entries), b.cache.up, b.db, PrivAdminsKey))
    ensures b.cache.entries == Filled(old(b.cache.entries), b.cache.up, b.db, PrivAdminsKey) && b.cache.up == old(b.cache.up)
    ensures !access ==> b.state.None? && b.data == Empty
    ensures access ==>
      var admins := Offered(b.db, uid, b.master);
      var shown := AdminKb.ShowAdmins(admins, Callbacks.Admins, Some([]), true).Some?;
      && b.state == Some(DaAdmins)
      && (shown ==> b.data == Empty.(lastMsgId := Some(msgId), userUid := Some(uid), chosenAdmins := Some([]), admins := Some(admins)))
      && (!shown ==> b.data == Empty)
    ensures b.data != Empty ==> DaInv(b.state, b.data)
    ensures b.db == old(b.db) && b.deleted == old(b.deleted)
  {
    b.Finish();
    access := CheckAccess(b.cache, b.db, b.master, uid);
    if !access {
      return;
    }
    var admins := Offered(b.db, uid, b.master);
    b.state := Some(DaAdmins);
    var kb := AdminKb.ShowAdmins(admins, Callbacks.Admins, Some([]), true);
    if kb.Some? {
      b.data := b.data.(lastMsgId := Some(msgId), userUid := Some(uid), chosenAdmins := Some([]), admins := Some(admins));
      assert Keys<string>([]) == [];
    }
  }

  /**
   * `choose_admins`: the button's uid is removed from the choice when there,
   * added with its name otherwise, and the list is redrawn with the choice
   * marked. A button without a uid, a session without the dicts, a uid
   * outside the offer, or a list that cannot be drawn changes nothing.
   */
  method ChooseAdmins(b: Bot, callbackData: string) returns (kb: Option<seq<ClientKb.Button>>)
    requires b.state == Some(DaAdmins)
    modifies b
    ensures var k := Callbacks.Field(callbackData, 1); var d := old(b.data);
      if k.None? || d.chosenAdmins.None? || d.admins.None?
        || ToggleEntry(d.chosenAdmins.value, k.value, d.admins.value).None? then
        kb.None? && b.data == d
      else
        var t := ToggleEntry(d.chosenAdmins.value, k.value, d.admins.value).value;
        && kb == AdminKb.ShowAdmins(d.admins.value, Callbacks.Admins, Some(Keys(t)), true)
        && b.data == (if kb.Some? then d.(chosenAdmins := Some(t)) else d)
    ensures b.state == old(b.state) && b.db == old(b.db) && b.deleted == old(b.deleted)
    ensures DaInv(old(b.state), old(b.data)) ==> DaInv(b.state, b.data)
  {
    var k := Callbacks.Field(callbackData, 1);
    if k.None? || b.data.chosenAdmins.None? || b.data.admins.None? {
      return None;
    }
    var t := ToggleEntry(b.data.chosenAdmins.value, k.value, b.data.admins.value);
    if t.None? {
      return None;
    }
    kb := AdminKb.ShowAdmins(b.data.admins.value, Callbacks.Admins, Some(Keys(t.value)), true);
    if kb.Some? {
      if DaInv(b.state, b.data) {
        ToggleEntryInvariant(b.data.chosenAdmins.value, k.value, b.data.admins.value);
      }
      b.data := b.data.(chosenAdmins := t);
    }
  }

  /** `FSMDeleteAdmin.next()` from `admins`. */
  lemma Steps()
    ensures Next(DeleteAdminFlow, Some(DaAdmins)) == Some(DaConfirmation)
  {
  }

  /**
   * `get_admins`: the names of the chosen admins are shown for confirmation
   * and the state becomes `confirmation`; without a choice in the session
   * the handler raises and nothing changes.
   */
  method GetAdmins(b: Bot) returns (names: Option<seq<string>>)
    requires b.state == Some(DaAdmins)
    modifies b
    ensures old(b.data).chosenAdmins.None? ==> names.None? && b.state == old(b.state)
    ensures old(b.data).chosenAdmins.Some? ==>
      names == Some(Values(old(b.data).chosenAdmins.value)) && b.state == Some(DaConfirmation)
    ensures b.data == old(b.data) && b.db == old(b.db) && b.deleted == old(b.deleted)
    ensures DaInv(old(b.state), old(b.data)) ==> DaInv(b.state, b.data)
  {
    if b.data.chosenAdmins.None? {
      return None;
    }
    names := Some(Values(b.data.chosenAdmins.value));
    Steps();
    b.state := Next(DeleteAdminFlow, b.state);
  }

  /**
   * `get_confirmation`: with access, the chosen admins are deleted, both
   * admin entries of the cache are refreshed and the admins menu is shown; a
   * key `int()` refuses, or a refresh that fails, ends the handler before
   * `finish()`. Without access nothing is deleted and the menu is the admin
   * panel for a listed admin. The session finishes.
   */
  method GetConfirmation(b: Bot, uid: int) returns (menu: Option<Menu>)
    requires b.state == Some(DaConfirmation)
    modifies b, b.cache
    ensures var access := Access(uid, b.master, Read(old(b.cache.entries), b.cache.up, old(b.db), PrivAdminsKey));
      var e1 := Filled(old(b.cache.entries), b.cache.up, old(b.db), PrivAdminsKey);
      var chosen := old(b.data).chosenAdmins;
      if !access then
        && b.db == old(b.db) && b.state.None? && b.data == Empty
        && menu == Some(if Holds(Read(e1, b.cache.up, b.db, AdminsKey), uid) then AdminPanelMenu else MainMenuClient)
        && b.cache.entries == Filled(e1, b.cache.up, b.db, AdminsKey)
      else if chosen.None? then
        menu.None? && b.db == old(b.db) && b.state == old(b.state) && b.data == old(b.data) && b.cache.entries == e1
      else
        var p := Purge(old(b.db), Keys(chosen.value));
        && b.db == p.0
        && (p.1 && b.cache.up ==>
          CreateAdminHandlers.AdminsRefreshed(e1, b.cache.entries, b.db) && menu == Some(AdminsConfigMenu)
          && b.state.None? && b.data == Empty)
        && (!p.1 || !b.cache.up ==>
          b.cache.entries == e1 && menu.None? && b.state == old(b.state) && b.data == old(b.data))
    ensures b.deleted == old(b.deleted) && b.cache.up == old(b.cache.up)
    ensures old(CacheInv(b)) && (old(b.data).chosenAdmins.Some? ==> Purge(old(b.db), Keys(old(b.data).chosenAdmins.value)).1)
      ==> CacheInv(b)
  {
    var access := CheckAccess(b.cache, b.db, b.master, uid);
    if !access {
      menu := CreateAdminHandlers.Deny(b, uid);
    } else {
      menu := ConfirmWithAccess(b);
    }
  }

  /** The side of `get_confirmation` with access: the deletions, the refresh, the end of the session. */
  method ConfirmWithAccess(b: Bot) returns (menu: Option<Menu>)
    modifies b, b.cache
    ensures var chosen := old(b.data).chosenAdmins;
      if chosen.None? then
        menu.None? && b.db == old(b.db) && b.state == old(b.state) && b.data == old(b.data)
        && b.cache.entries == old(b.cache.entries)
      else
        var p := Purge(old(b.db), Keys(chosen.value));
        && b.db == p.0
        && (p.1 && b.cache.up ==>
          CreateAdminHandlers.AdminsRefreshed(old(b.cache.entries), b.cache.entries, b.db) && menu == Some(AdminsConfigMenu)
          && b.state.None? && b.data == Empty)
        && (!p.1 || !b.cache.up ==>
          b.cache.entries == old(b.cache.entries) && menu.None? && b.state == old(b.state) && b.data == old(b.data))
    ensures b.deleted == old(b.deleted) && b.cache.up == old(b.cache.up)
    ensures old(CacheInv(b)) && (old(b.data).chosenAdmins.Some? ==> Purge(old(b.db), Keys(old(b.data).chosenAdmins.value)).1)
      ==> CacheInv(b)
  {
    ghost var e0 := b.cache.entries;
    ghost var db0 := b.db;
    if b.data.chosenAdmins.None? {
      return None;
    }
    var ok := PurgeLoop(b, Keys(b.data.chosenAdmins.value));
    if !ok {
      return None;
    }
    ok := CreateAdminHandlers.RefreshAdmins(b.cache, b.db);
    if !ok {
      return None;
    }
    if CoherentWith(e0, db0) {
      CreateAdminHandlers.RefreshedCoherent(e0, b.cache.entries, db0, b.db);
    }
    menu := Some(AdminsConfigMenu);
    b.Finish();
  }

  /**
   * After a confirmation that ran to the end, no chosen admin is listed any
   * more, and every other admin row is still there.
   */
  lemma ConfirmedDeletion(db: Db, chosen: Dict<string>, rows: seq<(int, string)>, filter: Option<string>)
    requires SubDict(chosen, AdminsDict(rows))
    ensures Purge(db, Keys(chosen)).1
    ensures forall k :: 0 <= k < |chosen| ==>
      ParseInt(chosen[k].0).Some? && ParseInt(chosen[k].0).value !in AdminIds(Purge(db, Keys(chosen)).0, filter)
    ensures forall x :: x in db.admins && IntToString(x.uid) !in Keys(chosen) ==> x in Purge(db, Keys(chosen)).0.admins
  {
    ChosenKeysParse(rows, chosen);
    var keys := Keys(chosen);
    PurgeExact(db, keys);
    forall k | 0 <= k < |chosen|
      ensures ParseInt(chosen[k].0).value !in AdminIds(Purge(db, keys).0, filter)
    {
      PurgedNotListed(db, keys, k, filter);
    }
    forall x | x in db.admins && IntToString(x.uid) !in keys
      ensures x in Purge(db, keys).0.admins
    {
      forall k | 0 <= k < |keys| ensures ParseInt(keys[k]) != Some(x.uid) {
        var u := ParseInt(keys[k]).value;
        if u == x.uid {
          ParsedIsText(keys[k], rows, chosen, k);
        }
      }
    }
  }
}
