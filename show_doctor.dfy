/**
 * `handlers/admin/show_doctor.py`: an admin browses the doctor cards. The
 * list is numbered as in the delete flow; picking a doctor replaces the
 * list message with the doctor's card, and "back" replaces the card with
 * the list again.
 *
 * The photo files are a parameter: the set of photos whose file is
 * missing, on which `open` raises. The new message's id is `sentId`.
 */
module ShowDoctorHandlers {
  import opened Wrappers
  import opened PyInt
  import opened ODict
  import opened Db
  import opened Cache
  import Callbacks
  import AdminKb
  import ClientKb
  import opened Navigation
  import opened Fsm
  import opened DoctorLists

  /**
   * In `doctor` the session knows the user, the message to replace and both
   * lists; a card shown has its three lists aligned.
   */
  predicate SdInv(s: Option<St>, d: Scratch) {
    s == Some(SdDoctor) ==>
      && d.userUid.Some? && d.lastMsgId.Some? && d.doctors.Some? && d.doctorsPool.Some?
      && (d.chosenDoctor.Some? ==> Aligned(d.chosenDoctor.value))
  }

  /** The list keyboard of this flow: no marks, no "selection completed" button. */
  function DoctorsKeyboard(pool: Dict<string>): Option<seq<ClientKb.Button>> {
    AdminKb.ShowAdmins(pool, Callbacks.DoctorsSettings, None, false)
  }

  /**
   * `show_doctor`: from any state the session is finished; for an admin it
   * restarts in `doctor` with the numbered doctor lists. The list is drawn
   * inside the proxy: a name `transform_name` cannot shorten raises there,
   * and the session is left in `doctor` with empty data.
   */
  method Start(b: Bot, uid: int, msgId: int) returns (admin: bool)
    modifies b, b.cache
    ensures admin == IsAdmin(uid, b.master, Read(old(b.cache.entries), b.cache.up, b.db, AdminsKey))
    ensures b.cache.entries == Filled(old(b.cache.entries), b.cache.up, b.db, AdminsKey) && b.cache.up == old(b.cache.up)
    ensures !admin ==> b.state.None? && b.data == Empty
    ensures admin ==>
      var list := DoctorList(b.db);
      var pool := Enumerate(Values(list));
      && b.state == Some(SdDoctor)
      && (DoctorsKeyboard(pool).Some? ==> b.data == Empty.(doctors := Some(Enumerate(Refs(list))),
            doctorsPool := Some(pool), userUid := Some(uid), lastMsgId := Some(msgId)))
      && (DoctorsKeyboard(pool).None? ==> b.data == Empty)
    ensures SdInv(b.state, b.data) || b.data == Empty
    ensures b.db == old(b.db) && b.deleted == old(b.deleted)
  {
    b.Finish();
    admin := AdminCheck(b, uid);
    if !admin {
      return;
    }
    var list := DoctorList(b.db);
    b.state := Some(SdDoctor);
    var doctors, pool := FillDoctorDicts(list);
    var kb := DoctorsKeyboard(pool);
    if kb.Some? {
      b.data := b.data.(doctors := Some(doctors), doctorsPool := Some(pool), userUid := Some(uid), lastMsgId := Some(msgId));
    }
  }

  /**
   * `get_doctor`: the record under the button's key names a photo; the
   * doctor's card is loaded by that photo, the list message is deleted and
   * the card sent in its place. A key outside the list, a doctor no longer
   * in the database, or a session without the user or the message raises
   * and changes nothing; a refused deletion raises before it happens; a
   * missing photo file raises after the deletion, and the card is not kept.
   */
  method GetDoctor(b: Bot, callbackData: string, sentId: int, noFile: set<string>)
    requires b.state == Some(SdDoctor)
    modifies b
    ensures var k := Callbacks.Field(callbackData, 1); var d := old(b.data);
      var ref := if k.Some? && d.doctors.Some? then Get(d.doctors.value, k.value) else None;
      var card := if ref.Some? then DoctorByPhoto(b.db, ref.value.photo) else None;
      if card.None? || d.userUid.None? || d.lastMsgId.None? || d.lastMsgId.value in b.refused then
        b.data == d && b.deleted == old(b.deleted)
      else
        && b.deleted == old(b.deleted) + [d.lastMsgId.value]
        && card.value.photo == ref.value.photo
        && b.data == (if ref.value.photo in noFile then d else d.(chosenDoctor := card, lastMsgId := Some(sentId)))
    ensures b.state == old(b.state) && b.db == old(b.db)
    ensures SdInv(old(b.state), old(b.data)) ==> SdInv(b.state, b.data)
  {
    var k := Callbacks.Field(callbackData, 1);
    if k.None? || b.data.doctors.None? {
      return;
    }
    var ref := Get(b.data.doctors.value, k.value);
    if ref.None? {
      return;
    }
    var card := DoctorByPhoto(b.db, ref.value.photo);
    if card.None? || b.data.userUid.None? || b.data.lastMsgId.None? || b.data.lastMsgId.value in b.refused {
      return;
    }
    b.deleted := b.deleted + [b.data.lastMsgId.value];
    if ref.value.photo in noFile {
      return;
    }
    b.data := b.data.(chosenDoctor := card, lastMsgId := Some(sentId));
  }

  /**
   * `move_back_to_doctors`: the card is deleted and the list sent again in
   * its place. A session without the user or the message, or a refused
   * deletion, raises and changes nothing; a list that cannot be drawn
   * raises after the deletion.
   */
  method MoveBackToDoctors(b: Bot, sentId: int)
    requires b.state == Some(SdDoctor)
    modifies b
    ensures var d := old(b.data);
      if d.userUid.None? || d.lastMsgId.None? || d.lastMsgId.value in b.refused then
        b.data == d && b.deleted == old(b.deleted)
      else
        && b.deleted == old(b.deleted) + [d.lastMsgId.value]
        && b.data == (if d.doctorsPool.Some? && DoctorsKeyboard(d.doctorsPool.value).Some?
          then d.(lastMsgId := Some(sentId)) else d)
    ensures b.state == old(b.state) && b.db == old(b.db)
    ensures SdInv(old(b.state), old(b.data)) ==> SdInv(b.state, b.data)
  {
    if b.data.userUid.None? || b.data.lastMsgId.None? || b.data.lastMsgId.value in b.refused {
      return;
    }
    b.deleted := b.deleted + [b.data.lastMsgId.value];
    if b.data.doctorsPool.None? {
      return;
    }
    var kb := DoctorsKeyboard(b.data.doctorsPool.value);
    if kb.Some? {
      b.data := b.data.(lastMsgId := Some(sentId));
    }
  }
}
