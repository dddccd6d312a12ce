/**
 * `handlers/admin/delete_doctor.py`: an admin picks doctors from the list,
 * toggling each pick, confirms, and every row of each picked doctor is
 * deleted together with its photo file; a speciality left without doctors
 * is deleted too, and then the catalogue entry of the cache is refreshed.
 *
 * The photo files are a parameter: the set of photos whose file is missing,
 * on which `os.remove` raises.
 */
module DeleteDoctorHandlers {
  import opened Wrappers
  import opened ODict
  import opened Db
  import opened Cache
  import Callbacks
  import AdminKb
  import ClientKb
  import opened Navigation
  import opened Fsm
  import opened DoctorLists
  import CreateDoctorHandlers

  // ------------------------------------------------------------ the deletion

  /**
   * The inner loop of `get_confirmation`: each speciality the deleted doctor
   * had is deleted when `get_doctors_by_speciality` finds no doctor left; the
   * flag says whether any was.
   */
  function Prune(db: Db, specs: seq<(int, string)>): (r: (Db, bool))
    ensures r.0.(specialities := db.specialities) == db
    ensures forall x :: x in r.0.specialities ==> x in db.specialities
    ensures !r.1 ==> r.0 == db
    decreases |specs|
  {
    if |specs| == 0 then (db, false)
    else if |DoctorsWithSpeciality(db, specs[0].0)| == 0 then
      var t := Prune(DeleteSpeciality(db, specs[0].0), specs[1..]);
      (t.0, true)
    else Prune(db, specs[1..])
  }

  /** The outcome of the outer loop: the database, whether a speciality went, whether the loop ran to the end. */
  datatype Removal = Removal(db: Db, pruned: bool, done: bool)

  /**
   * The outer loop: for each chosen doctor, its specialities are read, its
   * rows deleted, its photo file removed (a missing file raises, ending the
   * loop) and its specialities pruned.
   */
  function RemoveDoctors(db: Db, chosen: seq<DoctorRef>, noFile: set<string>): (r: Removal)
    ensures r.db.(doctors := db.doctors, specialities := db.specialities) == db
    ensures forall x :: x in r.db.doctors ==> x in db.doctors
    ensures forall x :: x in r.db.specialities ==> x in db.specialities
    ensures !r.pruned ==> r.db.specialities == db.specialities
    decreases |chosen|
  {
    if |chosen| == 0 then Removal(db, false, true)
    else
      var photo := chosen[0].photo;
      var specs := DoctorSpecialities(db, photo);
      var db1 := DeleteDoctor(db, photo, None);
      if photo in noFile then Removal(db1, false, false)
      else
        var q := Prune(db1, specs);
        var rest := RemoveDoctors(q.0, chosen[1..], noFile);
        Removal(rest.db, q.1 || rest.pruned, rest.done)
  }

  /** The photos of the chosen doctors. */
  function Photos(chosen: seq<DoctorRef>): (ps: seq<string>)
    ensures |ps| == |chosen| && forall i :: 0 <= i < |chosen| ==> ps[i] == chosen[i].photo
  {
    seq(|chosen|, i requires 0 <= i < |chosen| => chosen[i].photo)
  }

  /** A loop that ran to the end leaves exactly the rows of the doctors not chosen. */
  lemma {:induction false} RemovedExactly(db: Db, chosen: seq<DoctorRef>, noFile: set<string>)
    requires RemoveDoctors(db, chosen, noFile).done
    ensures forall x :: x in RemoveDoctors(db, chosen, noFile).db.doctors <==> x in db.doctors && x.photo !in Photos(chosen)
    decreases |chosen|
  {
    if |chosen| > 0 {
      var photo := chosen[0].photo;
      var db1 := DeleteDoctor(db, photo, None);
      var q := Prune(db1, DoctorSpecialities(db, photo));
      RemovedExactly(q.0, chosen[1..], noFile);
      assert Photos(chosen) == [photo] + Photos(chosen[1..]);
      assert q.0.doctors == db1.doctors;
    }
  }

  /** `Prune` deletes only specialities no doctor row points to. */
  lemma {:induction false} PruneSound(db: Db, specs: seq<(int, string)>)
    ensures forall s, x :: s in db.specialities && s !in Prune(db, specs).0.specialities && x in db.doctors ==>
      x.specialityId != Some(s.id)
    decreases |specs|
  {
    if |specs| > 0 {
      var id := specs[0].0;
      if |DoctorsWithSpeciality(db, id)| == 0 {
        var db1 := DeleteSpeciality(db, id);
        PruneSound(db1, specs[1..]);
        forall s, x | s in db.specialities && s !in Prune(db, specs).0.specialities && x in db.doctors
          ensures x.specialityId != Some(s.id)
        {
          if s.id == id {
            assert TitleOf(db.specialities, Some(id)).Some?;
            assert x !in DoctorsWithSpeciality(db, id);
          } else {
            assert s in db1.specialities;
          }
        }
      } else {
        PruneSound(db, specs[1..]);
      }
    }
  }

  /**
   * A speciality the loop deleted has no doctor row left pointing to it:
   * the cleanup never orphans a doctor.
   */
  lemma {:induction false} RemovedSpecialitiesUnused(db: Db, chosen: seq<DoctorRef>, noFile: set<string>)
    ensures var r := RemoveDoctors(db, chosen, noFile);
      forall s, x :: s in db.specialities && s !in r.db.specialities && x in r.db.doctors ==> x.specialityId != Some(s.id)
    decreases |chosen|
  {
    if |chosen| > 0 {
      var photo := chosen[0].photo;
      var db1 := DeleteDoctor(db, photo, None);
      if photo !in noFile {
        var q := Prune(db1, DoctorSpecialities(db, photo));
        PruneSound(db1, DoctorSpecialities(db, photo));
        RemovedSpecialitiesUnused(q.0, chosen[1..], noFile);
        var r := RemoveDoctors(db, chosen, noFile);
        forall s, x | s in db.specialities && s !in r.db.specialities && x in r.db.doctors
          ensures x.specialityId != Some(s.id)
        {
          assert x in q.0.doctors;
          if s in q.0.specialities {
          } else {
            assert s in db1.specialities;
            assert x in db1.doctors;
          }
        }
      }
    }
  }

  /** The inner loop, one speciality at a time. */
  method PruneLoop(b: Bot, specs: seq<(int, string)>) returns (pruned: bool)
    modifies b
    ensures (b.db, pruned) == Prune(old(b.db), specs)
    ensures b.state == old(b.state) && b.data == old(b.data) && b.deleted == old(b.deleted)
  {
    pruned := false;
    var i := 0;
    while i < |specs|
      invariant 0 <= i <= |specs|
      invariant var t := Prune(b.db, specs[i..]); Prune(old(b.db), specs) == (t.0, pruned || t.1)
      invariant b.state == old(b.state) && b.data == old(b.data) && b.deleted == old(b.deleted)
    {
      assert specs[i..][1..] == specs[i + 1..];
      var doctors := DoctorsWithSpeciality(b.db, specs[i].0);
      if |doctors| == 0 {
        b.db := DeleteSpeciality(b.db, specs[i].0);
        pruned := true;
      }
      i := i + 1;
    }
  }

  /** The outer loop, one chosen doctor at a time. */
  method RemoveLoop(b: Bot, chosen: seq<DoctorRef>, noFile: set<string>) returns (r: Removal)
    modifies b
    ensures r == RemoveDoctors(old(b.db), chosen, noFile) && b.db == r.db
    ensures b.state == old(b.state) && b.data == old(b.data) && b.deleted == old(b.deleted)
  {
    var pruned := false;
    var i := 0;
    while i < |chosen|
      invariant 0 <= i <= |chosen|
      invariant var t := RemoveDoctors(b.db, chosen[i..], noFile);
        RemoveDoctors(old(b.db), chosen, noFile) == Removal(t.db, pruned || t.pruned, t.done)
      invariant b.state == old(b.state) && b.data == old(b.data) && b.deleted == old(b.deleted)
    {
      assert chosen[i..][1..] == chosen[i + 1..];
      var photo := chosen[i].photo;
      var specs := DoctorSpecialities(b.db, photo);
      b.db := DeleteDoctor(b.db, photo, None);
      if photo in noFile {
        return Removal(b.db, pruned, false);
      }
      var p := PruneLoop(b, specs);
      pruned := pruned || p;
      i := i + 1;
    }
    r := Removal(b.db, pruned, true);
  }

  // ------------------------------------------------------------ the flow

  /** In both states the session holds the two lists and a duplicate-free choice among the doctors. */
  ghost predicate DdInv(s: Option<St>, d: Scratch) {
    (s == Some(DdDoctors) || s == Some(DdConfirmation)) ==>
      && d.userUid.Some? && d.lastMsgId.Some?
      && d.doctors.Some? && d.doctorsPool.Some? && d.chosenDoctors.Some?
      && UniqueKeys(d.chosenDoctors.value) && SubDict(d.chosenDoctors.value, d.doctors.value)
  }

  /**
   * `delete_doctor`, also behind "change choice" at the confirmation: from
   * any state the session is finished; for an admin it restarts in
   * `doctors` with the numbered doctor lists and an empty choice. The list
   * is drawn inside the proxy: a name `transform_name` cannot shorten raises
   * there, and the session is left in `doctors` with empty data.
   */
  method Start(b: Bot, uid: int, msgId: int) returns (admin: bool)
    modifies b, b.cache
    ensures admin == IsAdmin(uid, b.master, Read(old(b.cache.entries), b.cache.up, b.db, AdminsKey))
    ensures b.cache.entries == Filled(old(b.cache.entries), b.cache.up, b.db, AdminsKey) && b.cache.up == old(b.cache.up)
    ensures !admin ==> b.state.None? && b.data == Empty
    ensures admin ==>
      var list := DoctorList(b.db);
      var pool := Enumerate(Values(list));
      var shown := AdminKb.ShowAdmins(pool, Callbacks.DoctorsSettings, Some([]), true).Some?;
      && b.state == Some(DdDoctors)
      && (shown ==> b.data == Empty.(lastMsgId := Some(msgId), userUid := Some(uid),
            doctors := Some(Enumerate(Refs(list))), doctorsPool := Some(pool), chosenDoctors := Some([])))
      && (!shown ==> b.data == Empty)
    ensures b.data != Empty ==> DdInv(b.state, b.data)
    ensures b.db == old(b.db) && b.deleted == old(b.deleted)
  {
    b.Finish();
    admin := AdminCheck(b, uid);
    if !admin {
      return;
    }
    var list := DoctorList(b.db);
    b.state := Some(DdDoctors);
    var doctors, pool := FillDoctorDicts(list);
    var kb := AdminKb.ShowAdmins(pool, Callbacks.DoctorsSettings, Some([]), true);
    if kb.Some? {
      b.data := b.data.(lastMsgId := Some(msgId), userUid := Some(uid),
        doctors := Some(doctors), doctorsPool := Some(pool), chosenDoctors := Some([]));
      assert Keys<DoctorRef>([]) == [];
    }
  }

  /** The doctors a toggle may add from: `data['doctors']`, or nothing when the key is absent. */
  function Pickable(d: Scratch): Dict<DoctorRef> {
    if d.doctors.Some? then d.doctors.value else []
  }

  /**
   * `choose_doctors`: the button's key is removed from the choice when there,
   * added with the doctor's record otherwise, and the list is redrawn with
   * the choice marked. A button without a key, a session without the choice
   * or the names, a key outside the list, or a list that cannot be drawn
   * changes nothing.
   */
  method ChooseDoctors(b: Bot, callbackData: string) returns (kb: Option<seq<ClientKb.Button>>)
    requires b.state == Some(DdDoctors)
    modifies b
    ensures var k := Callbacks.Field(callbackData, 1); var d := old(b.data);
      if k.None? || d.chosenDoctors.None? || d.doctorsPool.None?
        || ToggleEntry(d.chosenDoctors.value, k.value, Pickable(d)).None? then
        kb.None? && b.data == d
      else
        var t := ToggleEntry(d.chosenDoctors.value, k.value, Pickable(d)).value;
        && kb == AdminKb.ShowAdmins(d.doctorsPool.value, Callbacks.DoctorsSettings, Some(Keys(t)), true)
        && b.data == (if kb.Some? then d.(chosenDoctors := Some(t)) else d)
    ensures b.state == old(b.state) && b.db == old(b.db) && b.deleted == old(b.deleted)
    ensures DdInv(old(b.state), old(b.data)) ==> DdInv(b.state, b.data)
  {
    var k := Callbacks.Field(callbackData, 1);
    if k.None? || b.data.chosenDoctors.None? || b.data.doctorsPool.None? {
      return None;
    }
    var t := ToggleEntry(b.data.chosenDoctors.value, k.value, Pickable(b.data));
    if t.None? {
      return None;
    }
    kb := AdminKb.ShowAdmins(b.data.doctorsPool.value, Callbacks.DoctorsSettings, Some(Keys(t.value)), true);
    if kb.Some? {
      if DdInv(b.state, b.data) {
        ToggleEntryInvariant(b.data.chosenDoctors.value, k.value, b.data.doctors.value);
      }
      b.data := b.data.(chosenDoctors := t);
    }
  }

  /** The names of chosen doctors, as the confirmation lists them. */
  function ChosenNames(chosen: seq<DoctorRef>): (ns: seq<string>)
    ensures |ns| == |chosen| && forall i :: 0 <= i < |chosen| ==> ns[i] == chosen[i].name
  {
    seq(|chosen|, i requires 0 <= i < |chosen| => chosen[i].name)
  }

  /** `FSMDeleteDoctor.next()` from `doctors`. */
  lemma Steps()
    ensures Next(DeleteDoctorFlow, Some(DdDoctors)) == Some(DdConfirmation)
  {
  }

  /**
   * `get_doctors`: the names of the chosen doctors are shown for
   * confirmation and the state becomes `confirmation`; without a choice in
   * the session the handler raises and nothing changes.
   */
  method GetDoctors(b: Bot) returns (names: Option<seq<string>>)
    requires b.state == Some(DdDoctors)
    modifies b
    ensures old(b.data).chosenDoctors.None? ==> names.None? && b.state == old(b.state)
    ensures old(b.data).chosenDoctors.Some? ==>
      names == Some(ChosenNames(Values(old(b.data).chosenDoctors.value))) && b.state == Some(DdConfirmation)
    ensures b.data == old(b.data) && b.db == old(b.db) && b.deleted == old(b.deleted)
    ensures DdInv(old(b.state), old(b.data)) ==> DdInv(b.state, b.data)
  {
    if b.data.chosenDoctors.None? {
      return None;
    }
    names := Some(ChosenNames(Values(b.data.chosenDoctors.value)));
    Steps();
    b.state := Next(DeleteDoctorFlow, b.state);
  }

  /**
   * `get_confirmation`: an admin's confirmation deletes the chosen doctors
   * and the specialities they leave empty, refreshes the catalogue entry of
   * the cache when a speciality went, and shows the doctors settings menu; a
   * missing photo file, or a refresh that fails, ends the handler before
   * `finish()`. A non-admin gets the client's main menu and nothing is
   * deleted. The session finishes.
   */
  method GetConfirmation(b: Bot, uid: int, noFile: set<string>) returns (menu: Option<Menu>)
    requires b.state == Some(DdConfirmation)
    modifies b, b.cache
    ensures var admin := IsAdmin(uid, b.master, Read(old(b.cache.entries), b.cache.up, old(b.db), AdminsKey));
      var e1 := Filled(old(b.cache.entries), b.cache.up, old(b.db), AdminsKey);
      var chosen := old(b.data).chosenDoctors;
      if !admin then
        b.db == old(b.db) && b.state.None? && b.data == Empty && menu == Some(MainMenuClient) && b.cache.entries == e1
      else if chosen.None? then
        menu.None? && b.db == old(b.db) && b.state == old(b.state) && b.data == old(b.data) && b.cache.entries == e1
      else
        var r := RemoveDoctors(old(b.db), Values(chosen.value), noFile);
        var finished := r.done && (!r.pruned || b.cache.up);
        && b.db == r.db
        && (finished ==> menu == Some(DoctorsSettingsMenu) && b.state.None? && b.data == Empty)
        && (!finished ==> menu.None? && b.state == old(b.state) && b.data == old(b.data))
        && (if r.done && r.pruned && b.cache.up then CreateDoctorHandlers.Refreshed(e1, b.cache.entries, b.db)
            else b.cache.entries == e1)
    ensures b.deleted == old(b.deleted) && b.cache.up == old(b.cache.up)
    ensures old(CacheInv(b)) &&
      (old(b.data).chosenDoctors.Some? ==> RemoveDoctors(old(b.db), Values(old(b.data).chosenDoctors.value), noFile).done)
      ==> CacheInv(b)
  {
    var admin := AdminCheck(b, uid);
    if !admin {
      menu := Some(MainMenuClient);
      b.Finish();
    } else {
      menu := ConfirmAsAdmin(b, noFile);
    }
  }

  /** The admin's side of `get_confirmation`: the deletions, the refresh, the end of the session. */
  method ConfirmAsAdmin(b: Bot, noFile: set<string>) returns (menu: Option<Menu>)
    modifies b, b.cache
    ensures var chosen := old(b.data).chosenDoctors;
      if chosen.None? then
        menu.None? && b.db == old(b.db) && b.state == old(b.state) && b.data == old(b.data)
        && b.cache.entries == old(b.cache.entries)
      else
        var r := RemoveDoctors(old(b.db), Values(chosen.value), noFile);
        var finished := r.done && (!r.pruned || b.cache.up);
        && b.db == r.db
        && (finished ==> menu == Some(DoctorsSettingsMenu) && b.state.None? && b.data == Empty)
        && (!finished ==> menu.None? && b.state == old(b.state) && b.data == old(b.data))
        && (if r.done && r.pruned && b.cache.up then CreateDoctorHandlers.Refreshed(old(b.cache.entries), b.cache.entries, b.db)
            else b.cache.entries == old(b.cache.entries))
    ensures b.deleted == old(b.deleted) && b.cache.up == old(b.cache.up)
    ensures old(CacheInv(b)) &&
      (old(b.data).chosenDoctors.Some? ==> RemoveDoctors(old(b.db), Values(old(b.data).chosenDoctors.value), noFile).done)
      ==> CacheInv(b)
  {
    ghost var e0 := b.cache.entries;
    ghost var db0 := b.db;
    if b.data.chosenDoctors.None? {
      return None;
    }
    var r := RemoveLoop(b, Values(b.data.chosenDoctors.value), noFile);
    if !r.done {
      return None;
    }
    if r.pruned {
      var ok := RefreshCatalogue(b.cache, b.db);
      if !ok {
        return None;
      }
      if CoherentWith(e0, db0) {
        SourceFrame(db0, b.db);
        CoherentAfterRefresh(e0, b.cache.entries, db0, b.db, [SpecialitiesKey]);
      }
    } else if b.cache.up && CoherentWith(e0, db0) {
      CoherentAfterOtherWrite(e0, db0, b.db);
    }
    menu := Some(DoctorsSettingsMenu);
    b.Finish();
  }

  /** `update_cache('specialities')`. */
  method RefreshCatalogue(c: CacheStore, db: Db) returns (ok: bool)
    modifies c
    ensures ok == c.up && c.up == old(c.up)
    ensures ok ==> CreateDoctorHandlers.Refreshed(old(c.entries), c.entries, db)
    ensures !ok ==> c.entries == old(c.entries)
  {
    ok := c.Update(db, [SpecialitiesKey]);
  }
}
