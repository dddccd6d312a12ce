/**
 * `handlers/admin/update_doctor.py`, first half: an admin picks a doctor,
 * then a section of the doctor's card, sees the current value and types or
 * picks a new one. The database is updated for every row of the doctor (or
 * for the row of one speciality, for a price), and the session's copy of
 * the card, `chosen_doctor`, is updated alongside. The editing of the
 * doctor's specialities is in `UpdateDoctorSpecialities`.
 *
 * The id of a message the bot sends is `sentId`; the user's own message is
 * `msgId`. The photo file a new photo is saved to is not modelled.
 */
module UpdateDoctorHandlers {
  import opened Wrappers
  import opened PyList
  import opened PyInt
  import opened ODict
  import opened Db
  import opened Cache
  import Callbacks
  import AdminKb
  import ClientKb
  import opened Processing
  import opened Validation
  import opened Navigation
  import opened Fsm
  import opened DoctorLists
  import ShowDoctorHandlers
  import CallbackHandlers

  // ------------------------------------------------------------ the card

  /** The keys of `chosen_doctor`, as `get_doctor` fills it: the columns of the doctors table. */
  const Columns: set<string> := {Callbacks.FullName, Callbacks.Photo, Callbacks.Description,
    Callbacks.SpecialityId, Callbacks.Speciality, Callbacks.Experience, Callbacks.ScienceDegree,
    Callbacks.QualCategory, Callbacks.Price}

  /** The sections with a prompt of their own (`section_text`). */
  const Prompted: set<string> := {Callbacks.FullName, Callbacks.Photo, Callbacks.Description,
    Callbacks.Experience, Callbacks.ScienceDegree, Callbacks.QualCategory}

  /** The sections a new value is asked for: the prompted ones and the price of one speciality. */
  const Editable: set<string> := Prompted + {Callbacks.Price}

  /** A doctor row and the session's card agree on the doctor's own columns. */
  predicate Mirrors(x: DoctorRow, c: DoctorInfo) {
    && x.fullName == c.fullName && x.photo == c.photo && x.description == c.description
    && x.experience == c.experience && x.scienceDegree == c.scienceDegree && x.qualCategory == c.qualCategory
  }

  /**
   * `chosen_doctor[column] = value` after the database took the value: the
   * named column changes, and the three speciality lists do not.
   */
  function Store(c: DoctorInfo, column: string, v: Value): (r: DoctorInfo)
    requires Settable(column, v) && column != Callbacks.Price
    ensures r.specialityId == c.specialityId && r.speciality == c.speciality && r.price == c.price
    ensures Aligned(r) <==> Aligned(c)
  {
    if column == Callbacks.FullName then c.(fullName := v.s)
    else if column == Callbacks.Photo then c.(photo := v.s)
    else if column == Callbacks.Description then c.(description := v.s)
    else if column == Callbacks.Experience then c.(experience := if v.Num? then Some(v.n) else None)
    else if column == Callbacks.ScienceDegree then c.(scienceDegree := if v.Str? then Some(v.s) else None)
    else c.(qualCategory := if v.Str? then Some(v.s) else None)
  }

  /**
   * The session's card and the database change in step: a row that agreed
   * with the card before an edit agrees with it after the same value is
   * written to both.
   */
  lemma StoreMirrorsAssign(x: DoctorRow, c: DoctorInfo, column: string, v: Value)
    requires Settable(column, v) && column != Callbacks.Price && Mirrors(x, c)
    ensures Mirrors(Assign(x, column, v), Store(c, column, v))
    ensures Assign(x, column, v).price == x.price && Assign(x, column, v).specialityId == x.specialityId
  {
  }

  // ------------------------------------------------------------ flow invariant

  /** The doctor being edited is loaded with its lists aligned, and the session knows the user and the message. */
  predicate Card(d: Scratch) {
    d.chosenDoctor.Some? && Aligned(d.chosenDoctor.value) && d.userUid.Some? && d.lastMsgId.Some?
  }

  /** One speciality's price is picked: its position in the lists, its title, its id and its current price. */
  predicate PricePicked(d: Scratch) {
    && Card(d) && d.index.Some? && d.index.value < |d.chosenDoctor.value.price|
    && d.speciality.Some? && d.specialityId.Some? && d.unitPrice.Some?
    && d.chosenDoctor.value.specialityId[d.index.value] == d.specialityId.value
  }

  /** The speciality editing: an action, the pool of the buttons, the titles chosen (typed ones may repeat while adding). */
  predicate Editing(d: Scratch) {
    && d.action.Some? && (d.action.value == Callbacks.AddSpecialities || d.action.value == Callbacks.DeleteSpecialities)
    && d.specialitiesPool.Some? && d.specialities.Some?
    && (d.action.value == Callbacks.AddSpecialities ==> d.messagesToDel.Some?)
    && (d.action.value == Callbacks.DeleteSpecialities ==>
      && NoDup(d.specialities.value)
      && forall i :: 0 <= i < |d.specialities.value| ==> d.specialities.value[i] in Values(d.specialitiesPool.value))
  }

  /** The price loop of the added specialities: `price` for the first titles, `no_price` for the rest. */
  predicate Pricing(d: Scratch) {
    && d.action == Some(Callbacks.AddSpecialities) && d.specialitiesPool.Some?
    && d.specialities.Some? && d.prices.Some? && d.noPrice.Some?
    && NoDup(d.specialities.value) && |d.noPrice.value| > 0
    && |d.prices.value| + |d.noPrice.value| == |d.specialities.value|
    && d.noPrice.value == d.specialities.value[|d.prices.value|..]
  }

  /** What the scratch data holds in each state of `FSMUpdateDoctor`. */
  predicate UdInv(s: Option<St>, d: Scratch) {
    match s
    case Some(UdDoctor) =>
      d == Empty || (d.userUid.Some? && d.lastMsgId.Some? && d.doctors.Some? && d.doctorsPool.Some? && d.chosenDoctor.None?)
    case Some(UdSection) => Card(d)
    case Some(UdSpeciality) => Card(d) && d.section == Some(Callbacks.Price)
    case Some(UdCurValue) => Card(d) && d.section.Some? && (d.section == Some(Callbacks.Price) ==> PricePicked(d))
    case Some(UdNewValue) =>
      Card(d) && d.section.Some? && d.section.value in Editable && (d.section == Some(Callbacks.Price) ==> PricePicked(d))
    case Some(UdAction) => Card(d) && d.section == Some(Callbacks.Speciality)
    case Some(UdSpecialitiesEditing) => Card(d) && d.section == Some(Callbacks.Speciality) && Editing(d)
    case Some(UdPrice) => Card(d) && d.section == Some(Callbacks.Speciality) && Pricing(d)
    case _ => true
  }

  /** `FSMUpdateDoctor.next()` from each state the handlers call it in. */
  lemma Steps()
    ensures Next(UpdateDoctorFlow, Some(UdSpeciality)) == Some(UdCurValue)
    ensures Next(UpdateDoctorFlow, Some(UdCurValue)) == Some(UdNewValue)
    ensures Next(UpdateDoctorFlow, Some(UdAction)) == Some(UdSpecialitiesEditing)
    ensures Next(UpdateDoctorFlow, Some(UdSpecialitiesEditing)) == Some(UdPrice)
  {
  }

  // ------------------------------------------------------------ the doctor

  /** `[transform_name(name) for ...]`: `None` where one name cannot be shortened. */
  function ButtonNames(names: seq<string>): (r: Option<seq<string>>)
    ensures r.Some? ==> |r.value| == |names|
  {
    if forall i :: 0 <= i < |names| ==> ShortName(names[i]).Some? then
      Some(seq(|names|, i requires 0 <= i < |names| => ShortName(names[i]).value))
    else None
  }

  /**
   * The names are stored exactly when the list can be drawn, and then each
   * button of the list shows the stored short name.
   */
  lemma ButtonNamesShown(list: seq<(string, string)>)
    ensures var pool := Enumerate(Values(list)); var names := ButtonNames(Values(list));
      var kb := ShowDoctorHandlers.DoctorsKeyboard(pool);
      && (names.Some? <==> kb.Some?)
      && (names.Some? ==> |names.value| == |pool| && forall i :: 0 <= i < |pool| ==>
        kb.value[i].text == ClientKb.Text(names.value[i]))
  {
    var pool := Enumerate(Values(list));
    assert forall i :: 0 <= i < |pool| ==> pool[i].1 == Values(list)[i];
  }

  /**
   * `update_doctor`: from any state the session is finished; for an admin it
   * restarts in `doctor` with the numbered doctor lists and the short names
   * of the buttons. A name `transform_name` cannot shorten raises inside the
   * proxy, and the session is left in `doctor` with empty data.
   */
  method Start(b: Bot, uid: int, msgId: int) returns (admin: bool)
    modifies b, b.cache
    ensures admin == IsAdmin(uid, b.master, Read(old(b.cache.entries), b.cache.up, b.db, AdminsKey))
    ensures b.cache.entries == Filled(old(b.cache.entries), b.cache.up, b.db, AdminsKey) && b.cache.up == old(b.cache.up)
    ensures !admin ==> b.state.None? && b.data == Empty
    ensures admin ==>
      var list := DoctorList(b.db);
      var names := ButtonNames(Values(list));
      && b.state == Some(UdDoctor)
      && (names.Some? ==> b.data == Empty.(doctors := Some(Enumerate(Refs(list))),
            doctorsPool := Some(Enumerate(Values(list))), userUid := Some(uid), lastMsgId := Some(msgId),
            buttonNames := names))
      && (names.None? ==> b.data == Empty)
    ensures UdInv(b.state, b.data)
    ensures b.db == old(b.db) && b.deleted == old(b.deleted)
  {
    b.Finish();
    admin := AdminCheck(b, uid);
    if !admin {
      return;
    }
    var list := DoctorList(b.db);
    b.state := Some(UdDoctor);
    var doctors, pool := FillDoctorDicts(list);
    var names := ButtonNames(Values(list));
    if names.None? {
      return;
    }
    b.data := b.data.(doctors := Some(doctors), doctorsPool := Some(pool), userUid := Some(uid),
      lastMsgId := Some(msgId), buttonNames := names);
  }

  /**
   * The card `get_doctor` works on: the one in the session when there is
   * one, so that coming back keeps the edits made; otherwise the card of the
   * doctor under the button's key, read from the database. `None` where the
   * key, the list or the doctor is missing.
   */
  function Loaded(d: Scratch, callbackData: string, db: Db): (r: Option<DoctorInfo>)
    ensures d.chosenDoctor.Some? ==> r == d.chosenDoctor
    ensures d.chosenDoctor.None? && r.Some? ==>
      && Callbacks.Field(callbackData, 1).Some? && d.doctors.Some?
      && Get(d.doctors.value, Callbacks.Field(callbackData, 1).value).Some?
      && r == DoctorByPhoto(db, Get(d.doctors.value, Callbacks.Field(callbackData, 1).value).value.photo)
      && Aligned(r.value)
  {
    if d.chosenDoctor.Some? then d.chosenDoctor
    else
      var k := Callbacks.Field(callbackData, 1);
      if k.None? || d.doctors.None? then None
      else
        match Get(d.doctors.value, k.value)
        case None => None
        case Some(ref) => DoctorByPhoto(db, ref.photo)
  }

  /**
   * `get_doctor`, from the list of this flow, from the show flow's card
   * ("edit"), or back from a price or a current value ("choose section"):
   * the card is loaded if the session lacks it and the section menu is
   * shown. Coming from the show flow, the card's message is deleted and the
   * menu sent as a new one. A card that cannot be loaded, a session without
   * the user or the message, or a refused deletion raises: nothing changes.
   */
  method GetDoctor(b: Bot, callbackData: string, sentId: int)
    requires b.state in {Some(UdDoctor), Some(UdSpeciality), Some(UdCurValue), Some(SdDoctor)}
    modifies b
    ensures var d := old(b.data); var c := Loaded(d, callbackData, old(b.db));
      var fromShow := old(b.state) == Some(SdDoctor);
      if c.None? || (fromShow && (d.userUid.None? || d.lastMsgId.None? || d.lastMsgId.value in b.refused)) then
        b.state == old(b.state) && b.data == d && b.deleted == old(b.deleted)
      else
        && b.state == Some(UdSection)
        && b.data == d.(chosenDoctor := c, lastMsgId := if fromShow then Some(sentId) else d.lastMsgId)
        && b.deleted == old(b.deleted) + (if fromShow then [d.lastMsgId.value] else [])
    ensures b.db == old(b.db)
    ensures (if old(b.state) == Some(SdDoctor) then ShowDoctorHandlers.SdInv(old(b.state), old(b.data))
      else UdInv(old(b.state), old(b.data))) ==> UdInv(b.state, b.data)
  {
    var c := Loaded(b.data, callbackData, b.db);
    if c.None? {
      return;
    }
    if b.state == Some(SdDoctor) {
      if b.data.userUid.None? || b.data.lastMsgId.None? || b.data.lastMsgId.value in b.refused {
        return;
      }
      b.deleted := b.deleted + [b.data.lastMsgId.value];
      b.data := b.data.(chosenDoctor := c, lastMsgId := Some(sentId));
    } else {
      b.data := b.data.(chosenDoctor := c);
    }
    b.state := Some(UdSection);
  }

  // ------------------------------------------------------------ the section

  /**
   * `get_section`: the section is saved in a proxy of its own. The price
   * goes on to the doctor's specialities, any other column to its current
   * value; a card missing, a section the card has no key for, or the
   * `speciality_id` column of a card with specialities (its prompt cannot be
   * built) raises after the section was saved.
   */
  method GetSection(b: Bot, callbackData: string)
    requires b.state == Some(UdSection) || b.state == Some(UdCurValue)
    modifies b
    ensures var s := Callbacks.Field(callbackData, 1); var d := old(b.data);
      if s.None? then b.state == old(b.state) && b.data == d
      else
        && b.data == d.(section := s)
        && (s.value == Callbacks.Price ==>
          b.state == (if d.chosenDoctor.Some?
            && AdminKb.ShowDocSpecialities(d.chosenDoctor.value.speciality, d.chosenDoctor.value.specialityId).Some?
            then Some(UdSpeciality) else old(b.state)))
        && (s.value != Callbacks.Price ==>
          b.state == (if d.chosenDoctor.Some? && s.value in Columns && CurrentValueShown(d.chosenDoctor.value, s.value)
            then Some(UdCurValue) else old(b.state)))
    ensures b.db == old(b.db) && b.deleted == old(b.deleted)
    ensures UdInv(old(b.state), old(b.data)) ==> UdInv(b.state, b.data)
  {
    var s := Callbacks.Field(callbackData, 1);
    if s.None? {
      return;
    }
    b.data := b.data.(section := s);
    var c := b.data.chosenDoctor;
    if s.value == Callbacks.Price {
      if c.Some? && AdminKb.ShowDocSpecialities(c.value.speciality, c.value.specialityId).Some? {
        b.state := Some(UdSpeciality);
      }
    } else if c.Some? && s.value in Columns && CurrentValueShown(c.value, s.value) {
      b.state := Some(UdCurValue);
    }
  }

  /**
   * `BotMessageText.current_value` can be built for the section: a list value
   * is joined with `", "`, which raises on the card's integer id list unless
   * it is empty. No section button offers that column.
   */
  predicate CurrentValueShown(c: DoctorInfo, section: string) {
    section != Callbacks.SpecialityId || |c.specialityId| == 0
  }

  /** Every section the section menu offers is a column of the card whose current value can be shown. */
  lemma MenuSectionsShown(c: DoctorInfo, i: nat)
    requires i < |AdminKb.Sections|
    ensures AdminKb.Sections[i] in Columns && CurrentValueShown(c, AdminKb.Sections[i])
  {
  }

  /** A forged `speciality_id` section on a card with specialities raises before the state moves. */
  lemma SpecialityIdSectionRaises(c: DoctorInfo)
    requires |c.specialityId| > 0
    ensures !CurrentValueShown(c, Callbacks.SpecialityId)
  {
  }

  /**
   * `get_speciality`'s lookup: the button's id is looked up in the card's id
   * list, and the position found picks the title and the price of the same
   * speciality. `None` where it raises: an id that does not parse or is not
   * the doctor's, lists shorter than the position, or a session without the
   * card or the section.
   */
  function PickSpeciality(d: Scratch, callbackData: string): Option<Scratch> {
    var f := Callbacks.Field(callbackData, 1);
    var id := if f.Some? then ParseInt(f.value) else None;
    var c := d.chosenDoctor;
    var i := if id.Some? && c.Some? then Index(c.value.specialityId, id.value) else None;
    if i.None? || i.value >= |c.value.speciality| || i.value >= |c.value.price| || d.section.None? then None
    else Some(d.(index := i, speciality := Some(c.value.speciality[i.value]),
      specialityId := id, unitPrice := Some(c.value.price[i.value])))
  }

  /**
   * A pick records the button's id, at the first position the card's id
   * list holds it, with the title and the price at that position, and
   * changes nothing else; on a card it is a price picked.
   */
  lemma PickedSpeciality(d: Scratch, callbackData: string)
    requires PickSpeciality(d, callbackData).Some?
    ensures var e := PickSpeciality(d, callbackData).value; var f := Callbacks.Field(callbackData, 1);
      && f.Some? && d.chosenDoctor.Some? && e.specialityId.Some? && e.index.Some?
      && e.specialityId == ParseInt(f.value)
      && var c := d.chosenDoctor.value; var i := e.index.value;
      && i < |c.specialityId| && i < |c.speciality| && i < |c.price|
      && c.specialityId[i] == e.specialityId.value && e.specialityId.value !in c.specialityId[..i]
      && e.speciality == Some(c.speciality[i]) && e.unitPrice == Some(c.price[i])
      && e.(index := d.index, speciality := d.speciality, specialityId := d.specialityId, unitPrice := d.unitPrice) == d
      && (Card(d) ==> PricePicked(e))
  {
  }

  /**
   * `get_speciality`: with the lookup done (`PickSpeciality`) the state
   * moves on to the current value; where the lookup raises nothing changes.
   */
  method GetSpeciality(b: Bot, callbackData: string)
    requires b.state == Some(UdSpeciality)
    modifies b
    ensures var p := PickSpeciality(old(b.data), callbackData);
      if p.None? then b.state == old(b.state) && b.data == old(b.data)
      else b.state == Some(UdCurValue) && b.data == p.value
    ensures b.db == old(b.db) && b.deleted == old(b.deleted)
    ensures UdInv(old(b.state), old(b.data)) ==> UdInv(b.state, b.data)
  {
    var p := PickSpeciality(b.data, callbackData);
    if p.None? {
      return;
    }
    PickedSpeciality(b.data, callbackData);
    b.data := p.value;
    Steps();
    b.state := Next(UpdateDoctorFlow, b.state);
  }

  /** On a card with aligned lists, every id of the doctor's price buttons picks its own speciality. */
  lemma SpecialityPicked(d: Scratch, k: nat)
    requires Card(d) && k < |d.chosenDoctor.value.specialityId|
    requires d.chosenDoctor.value.specialityId[k] !in d.chosenDoctor.value.specialityId[..k]
    ensures var c := d.chosenDoctor.value;
      Index(c.specialityId, c.specialityId[k]) == Some(k) && k < |c.speciality| && k < |c.price|
  {
  }

  /**
   * Where `change_value` goes: the specialities to the add/delete choice,
   * the prompted sections and a picked price to the new value; `None` where
   * a lookup raises.
   */
  function ChangeTarget(d: Scratch): (r: Option<St>)
    ensures r == Some(UdAction) <==> d.section == Some(Callbacks.Speciality)
    ensures r == Some(UdNewValue) <==>
      d.section.Some? && d.section.value in Editable && (d.section.value == Callbacks.Price ==> d.speciality.Some?)
    ensures r.None? || r == Some(UdAction) || r == Some(UdNewValue)
  {
    if d.section.None? then None
    else if d.section.value == Callbacks.Speciality then Some(UdAction)
    else if d.section.value == Callbacks.Price then (if d.speciality.Some? then Some(UdNewValue) else None)
    else if d.section.value in Prompted then Some(UdNewValue)
    else None
  }

  /** `change_value`: only the state moves; the data are read, not written. */
  method ChangeValue(b: Bot)
    requires b.state == Some(UdCurValue)
    modifies b
    ensures b.state == (if ChangeTarget(old(b.data)).Some? then ChangeTarget(old(b.data)) else old(b.state))
    ensures b.data == old(b.data) && b.db == old(b.db) && b.deleted == old(b.deleted)
    ensures UdInv(old(b.state), old(b.data)) ==> UdInv(b.state, b.data)
  {
    var t := ChangeTarget(b.data);
    if t == Some(UdAction) {
      b.state := t;
    } else if t.Some? {
      Steps();
      b.state := Next(UpdateDoctorFlow, b.state);
    }
  }

  /** A section of the menu always leads somewhere once its price, if any, is picked. */
  lemma MenuSectionsLead(d: Scratch, i: nat)
    requires i < |AdminKb.Sections| && d.section == Some(AdminKb.Sections[i]) && d.speciality.Some?
    ensures ChangeTarget(d).Some?
  {
  }

  /** `back_to_cur_value`: back from the add/delete choice to the current value. */
  method BackToCurValue(b: Bot)
    requires b.state == Some(UdAction)
    modifies b
    ensures b.state == Some(UdCurValue)
    ensures b.data == old(b.data) && b.db == old(b.db) && b.deleted == old(b.deleted)
    ensures UdInv(old(b.state), old(b.data)) ==> UdInv(b.state, b.data)
  {
    b.state := Some(UdCurValue);
  }

  // ------------------------------------------------------------ the new value

  /**
   * `get_new_value_photo`: the user's message is deleted first. An admin's
   * document replaces the photo file when the photo is being edited, and
   * the section menu comes back; a compressed photo, or any other section,
   * changes nothing. A non-admin is sent to the client's main menu.
   */
  method GetNewValuePhoto(b: Bot, uid: int, msgId: int, isDocument: bool) returns (admin: bool)
    requires b.state == Some(UdNewValue)
    modifies b, b.cache
    ensures admin == IsAdmin(uid, b.master, Read(old(b.cache.entries), b.cache.up, b.db, AdminsKey))
    ensures b.cache.entries == Filled(old(b.cache.entries), b.cache.up, b.db, AdminsKey) && b.cache.up == old(b.cache.up)
    ensures var d := old(b.data);
      if msgId in b.refused then b.state == old(b.state) && b.data == d && b.deleted == old(b.deleted)
      else
        && b.deleted == old(b.deleted) + [msgId]
        && (admin ==>
          && b.data == d
          && b.state == (if d.section == Some(Callbacks.Photo) && isDocument && d.chosenDoctor.Some? && d.lastMsgId.Some?
            then Some(UdSection) else old(b.state)))
        && (!admin ==> if d.lastMsgId.None? then b.state == old(b.state) && b.data == d
          else b.state.None? && b.data == Empty)
    ensures b.db == old(b.db)
    ensures UdInv(old(b.state), old(b.data)) ==> UdInv(b.state, b.data)
  {
    admin := AdminCheck(b, uid);
    if msgId in b.refused {
      return;
    }
    b.deleted := b.deleted + [msgId];
    var d := b.data;
    if admin {
      if d.section == Some(Callbacks.Photo) && isDocument && d.chosenDoctor.Some? && d.lastMsgId.Some? {
        b.state := Some(UdSection);
      }
    } else if d.lastMsgId.Some? {
      b.Finish();
    }
  }

  /** The value of a degree or category button: "no specification" is `NULL`. */
  function ButtonValue(v: string): (r: Value)
    ensures r.Null? <==> v == Callbacks.NoSpecification
    ensures r.Str? ==> r.s == v
    ensures !r.Num?
  {
    if v == Callbacks.NoSpecification then Null else Str(v)
  }

  /**
   * `get_new_value_cb`: an admin's degree or category is written to every
   * row of the doctor, under the section being edited, and to the card;
   * the section menu comes back. A value the column refuses raises before
   * any write; a session without the message raises after the write, with
   * the card unchanged. A non-admin is sent to the client's main menu.
   */
  method GetNewValueCb(b: Bot, uid: int, callbackData: string) returns (admin: bool)
    requires b.state == Some(UdNewValue)
    modifies b, b.cache
    ensures admin == IsAdmin(uid, b.master, Read(old(b.cache.entries), b.cache.up, old(b.db), AdminsKey))
    ensures b.cache.entries == Filled(old(b.cache.entries), b.cache.up, old(b.db), AdminsKey) && b.cache.up == old(b.cache.up)
    ensures !admin ==> b.state.None? && b.data == Empty && b.db == old(b.db)
    ensures var d := old(b.data); var f := Callbacks.Field(callbackData, 1);
      var w := if f.Some? && d.chosenDoctor.Some? && d.section.Some?
        then UpdateDoctor(old(b.db), d.chosenDoctor.value.photo, d.section.value, ButtonValue(f.value), None) else None;
      admin ==>
        if w.None? then b.state == old(b.state) && b.data == d && b.db == old(b.db)
        else
          && b.db == w.value
          && d.section.value != Callbacks.Price
          && (d.lastMsgId.None? ==> b.state == old(b.state) && b.data == d)
          && (d.lastMsgId.Some? ==>
            && b.state == Some(UdSection)
            && b.data == d.(chosenDoctor := Some(Store(d.chosenDoctor.value, d.section.value, ButtonValue(f.value)))))
    ensures b.deleted == old(b.deleted)
    ensures UdInv(old(b.state), old(b.data)) ==> UdInv(b.state, b.data)
  {
    admin := AdminCheck(b, uid);
    if !admin {
      b.Finish();
      return;
    }
    var f := Callbacks.Field(callbackData, 1);
    var d := b.data;
    if f.None? || d.chosenDoctor.None? || d.section.None? {
      return;
    }
    var v := ButtonValue(f.value);
    var w := UpdateDoctor(b.db, d.chosenDoctor.value.photo, d.section.value, v, None);
    if w.None? {
      return;
    }
    b.db := w.value;
    if d.lastMsgId.None? {
      return;
    }
    b.data := d.(chosenDoctor := Some(Store(d.chosenDoctor.value, d.section.value, v)));
    b.state := Some(UdSection);
  }

  /** What a typed message gives for a section. */
  datatype Typed =
    | Typed(v: Value)
    /** deleted unread: a number that does not parse, or a section typed text is not for */
    | Rejected
    /** `process_input` raises before anything happens */
    | Unreadable

  /**
   * The value typed for a section: a name and a description in normal form,
   * a number for the experience and the price; text for any other section
   * is rejected.
   */
  function TypedValue(section: string, text: string): (r: Typed)
    ensures r.Typed? ==> Settable(section, r.v)
    ensures section == Callbacks.FullName ==>
      r == (if CallbackHandlers.TypedName(text).Some? then Typed(Str(CallbackHandlers.TypedName(text).value)) else Unreadable)
    ensures section == Callbacks.Experience || section == Callbacks.Price ==>
      (r.Typed? <==> CheckInteger(text)) && (r.Typed? ==> r.v == Num(ParseInt(text).value)) && !r.Unreadable?
    ensures section !in {Callbacks.FullName, Callbacks.Description, Callbacks.Experience, Callbacks.Price} ==> r == Rejected
    ensures section == Callbacks.Description ==> !r.Rejected?
  {
    if section == Callbacks.FullName then
      match CallbackHandlers.TypedName(text)
      case None => Unreadable
      case Some(name) => Typed(Str(name))
    else if section == Callbacks.Description then
      match ProcessInput(text, ',')
      case None => Unreadable
      case Some(parts) => Typed(Str(PyText.Join(parts, ", ")))
    else if section == Callbacks.Experience || section == Callbacks.Price then
      if CheckInteger(text) then Typed(Num(ParseInt(text).value)) else Rejected
    else Rejected
  }

  /** A name typed twice in a row is stored the same: the stored form is already normal. */
  lemma TypedNameStable(text: string)
    requires TypedValue(Callbacks.FullName, text).Typed?
    ensures TypedValue(Callbacks.FullName, TypedValue(Callbacks.FullName, text).v.s) == TypedValue(Callbacks.FullName, text)
  {
    CallbackHandlers.TypedNameIdempotent(text);
  }

  /**
   * `get_new_value_msg`: an admin's typed value is written to the database
   * and to the card. A price goes to the one row and the one list entry of
   * the picked speciality and the flow goes back to the specialities; any
   * other value goes to every row of the doctor and the flow goes back to
   * the sections. The user's message is deleted whenever it was read. A
   * non-admin is sent to the client's main menu.
   */
  method GetNewValueMsg(b: Bot, uid: int, text: string, msgId: int) returns (admin: bool)
    requires b.state == Some(UdNewValue)
    modifies b, b.cache
    ensures admin == IsAdmin(uid, b.master, Read(old(b.cache.entries), b.cache.up, old(b.db), AdminsKey))
    ensures b.cache.entries == Filled(old(b.cache.entries), b.cache.up, old(b.db), AdminsKey) && b.cache.up == old(b.cache.up)
    ensures !admin ==> b.db == old(b.db)
    ensures !admin && msgId in b.refused ==>
      b.state == old(b.state) && b.data == old(b.data) && b.deleted == old(b.deleted)
    ensures !admin && msgId !in b.refused ==>
      && b.deleted == old(b.deleted) + [msgId]
      && (old(b.data).lastMsgId.None? ==> b.state == old(b.state) && b.data == old(b.data))
      && (old(b.data).lastMsgId.Some? ==> b.state.None? && b.data == Empty)
    ensures admin ==> Edited(old(b.state), old(b.data), old(b.db), old(b.deleted), text, msgId, b.refused,
      b.state, b.data, b.db, b.deleted)
    ensures UdInv(old(b.state), old(b.data)) ==> UdInv(b.state, b.data)
  {
    admin := AdminCheck(b, uid);
    if admin {
      EditTyped(b, text, msgId);
      return;
    }
    if msgId in b.refused {
      return;
    }
    b.deleted := b.deleted + [msgId];
    if b.data.lastMsgId.Some? {
      b.Finish();
    }
  }

  /**
   * The admin's side of `get_new_value_msg`, from the state, data,
   * database and deletions before (`s`, `d`, `db`, `del`) to those after
   * (`s'`, `d'`, `db'`, `del'`).
   */
  ghost predicate Edited(s: Option<St>, d: Scratch, db: Db, del: seq<int>, text: string, msgId: int, refused: set<int>,
    s': Option<St>, d': Scratch, db': Db, del': seq<int>)
  {
    if d.section.None? || TypedValue(d.section.value, text).Unreadable? || msgId in refused then
      s' == s && d' == d && db' == db && del' == del
    else
      var section := d.section.value;
      var t := TypedValue(section, text);
      && del' == del + [msgId]
      && (t.Rejected? ==> s' == s && d' == d && db' == db)
      && (t.Typed? && section != Callbacks.Price ==> TextEdited(s, d, db, section, t.v, s', d', db'))
      && (t.Typed? && section == Callbacks.Price ==> PriceEdited(s, d, db, t.v.n, s', d', db'))
  }

  /** A name, description or experience: every row of the doctor, then the card, then back to the sections. */
  ghost predicate TextEdited(s: Option<St>, d: Scratch, db: Db, section: string, v: Value, s': Option<St>, d': Scratch, db': Db)
    requires Settable(section, v) && section != Callbacks.Price
  {
    if d.chosenDoctor.None? then s' == s && d' == d && db' == db
    else
      var c := d.chosenDoctor.value;
      && UpdateDoctor(db, c.photo, section, v, None).Some?
      && db' == UpdateDoctor(db, c.photo, section, v, None).value
      && s' == Some(UdSection)
      && d' == (if d.userUid.Some? && d.lastMsgId.Some? then d.(chosenDoctor := Some(Store(c, section, v))) else d)
  }

  /** The doctor's speciality lists shown again after a price edit. */
  predicate ListsShown(c: DoctorInfo) {
    AdminKb.ShowDocSpecialities(c.speciality, c.specialityId).Some?
  }

  /** A price: the row of the picked speciality, then the list entry at its position, then back to the specialities. */
  ghost predicate PriceEdited(s: Option<St>, d: Scratch, db: Db, n: int, s': Option<St>, d': Scratch, db': Db) {
    if d.chosenDoctor.None? || d.specialityId.None? || d.speciality.None? || d.unitPrice.None?
      || !ListsShown(d.chosenDoctor.value) then
      s' == s && d' == d && db' == db
    else
      var c := d.chosenDoctor.value;
      && UpdateDoctor(db, c.photo, Callbacks.Price, Num(n), d.specialityId).Some?
      && db' == UpdateDoctor(db, c.photo, Callbacks.Price, Num(n), d.specialityId).value
      && if d.index.None? || d.index.value >= |c.price| then s' == s && d' == d
        else
          && s' == Some(UdSpeciality)
          && d' == (if d.userUid.Some? && d.lastMsgId.Some?
            then d.(chosenDoctor := Some(c.(price := c.price[d.index.value := n]))) else d)
  }

  /** The admin's side of `get_new_value_msg`. */
  method EditTyped(b: Bot, text: string, msgId: int)
    requires b.state == Some(UdNewValue)
    modifies b
    ensures Edited(old(b.state), old(b.data), old(b.db), old(b.deleted), text, msgId, b.refused,
      b.state, b.data, b.db, b.deleted)
    ensures UdInv(old(b.state), old(b.data)) ==> UdInv(b.state, b.data)
  {
    var d := b.data;
    if d.section.None? {
      return;
    }
    var t := TypedValue(d.section.value, text);
    if t.Unreadable? || msgId in b.refused {
      return;
    }
    b.deleted := b.deleted + [msgId];
    if t.Rejected? {
      return;
    }
    if d.section.value != Callbacks.Price {
      EditText(b, d.section.value, t.v);
    } else {
      EditPrice(b, t.v.n);
    }
  }

  /** A typed name, description or experience, once read. */
  method EditText(b: Bot, section: string, v: Value)
    requires Settable(section, v) && section != Callbacks.Price
    requires b.state == Some(UdNewValue) && b.data.section == Some(section)
    modifies b
    ensures TextEdited(old(b.state), old(b.data), old(b.db), section, v, b.state, b.data, b.db)
    ensures b.deleted == old(b.deleted)
    ensures UdInv(old(b.state), old(b.data)) ==> UdInv(b.state, b.data)
  {
    var d := b.data;
    if d.chosenDoctor.None? {
      return;
    }
    var c := d.chosenDoctor.value;
    b.db := UpdateDoctor(b.db, c.photo, section, v, None).value;
    b.state := Some(UdSection);
    if d.userUid.Some? && d.lastMsgId.Some? {
      b.data := d.(chosenDoctor := Some(Store(c, section, v)));
    }
  }

  /** A typed price, once read. */
  method EditPrice(b: Bot, n: int)
    requires b.state == Some(UdNewValue) && b.data.section == Some(Callbacks.Price)
    modifies b
    ensures PriceEdited(old(b.state), old(b.data), old(b.db), n, b.state, b.data, b.db)
    ensures b.deleted == old(b.deleted)
    ensures UdInv(old(b.state), old(b.data)) ==> UdInv(b.state, b.data)
  {
    var d := b.data;
    if d.chosenDoctor.None? || d.specialityId.None? || d.speciality.None? || d.unitPrice.None?
      || !ListsShown(d.chosenDoctor.value) {
      return;
    }
    var c := d.chosenDoctor.value;
    b.db := UpdateDoctor(b.db, c.photo, Callbacks.Price, Num(n), d.specialityId).value;
    if d.index.None? || d.index.value >= |c.price| {
      return;
    }
    b.state := Some(UdSpeciality);
    if d.userUid.Some? && d.lastMsgId.Some? {
      b.data := d.(chosenDoctor := Some(c.(price := c.price[d.index.value := n])));
    }
  }

  /**
   * A price edit reaches exactly the picked speciality: in the database
   * only the doctor's rows with the picked id change, and they get the new
   * price; on the card only the entry at the picked position changes, and
   * the id at that position is the picked one.
   */
  lemma PriceEditScope(d: Scratch, db: Db, n: int)
    requires PricePicked(d) && d.specialityId.value != 0
    ensures var c := d.chosenDoctor.value; var w := UpdateDoctor(db, c.photo, Callbacks.Price, Num(n), d.specialityId);
      && w.Some?
      && (forall i :: 0 <= i < |db.doctors| ==>
        w.value.doctors[i] == (if db.doctors[i].photo == c.photo && db.doctors[i].specialityId == d.specialityId
          then db.doctors[i].(price := n) else db.doctors[i]))
      && var p := c.price[d.index.value := n];
        |p| == |c.price| && p[d.index.value] == n && c.specialityId[d.index.value] == d.specialityId.value
        && forall k :: 0 <= k < |p| && k != d.index.value ==> p[k] == c.price[k]
  {
  }
}
