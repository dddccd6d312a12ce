/**
 * `handlers/admin/update_doctor.py`, second half: the doctor's specialities.
 * From the "speciality" section the admin either adds specialities (chosen
 * from the catalogue titles the doctor lacks, or typed as new ones, each
 * then given a price) or deletes some of the doctor's own. Both write the
 * database row by row and keep the card's three parallel lists (ids,
 * titles, prices) in step; a catalogue title no doctor uses any more is
 * deleted, and a created or deleted title refreshes the cached catalogue.
 */
module UpdateDoctorSpecialities {
  import opened Wrappers
  import opened PyList
  import opened PyInt
  import opened ODict
  import opened Db
  import opened Cache
  import Callbacks
  import opened Processing
  import opened Validation
  import opened Navigation
  import opened Fsm
  import opened UpdateDoctorHandlers
  import CreateDoctorHandlers
  import DeleteAdminHandlers
  import DeleteDoctorHandlers

  // ------------------------------------------------------------ the action

  /** `titles.remove(item)` for each item in turn: `None` where one is missing (`ValueError`). */
  function RemoveEach(titles: seq<string>, items: seq<string>): (r: Option<seq<string>>)
    ensures r.Some? <==> multiset(items) <= multiset(titles)
    ensures r.Some? ==> multiset(r.value) == multiset(titles) - multiset(items)
    decreases |items|
  {
    if |items| == 0 then Some(titles)
    else
      assert items == [items[0]] + items[1..];
      match RemoveFirst(titles, items[0])
      case None =>
        assert items[0] in multiset(items);
        None
      case Some(rest) => RemoveEach(rest, items[1..])
  }

  /** The pool of the add branch: the catalogue titles the doctor lacks, numbered. */
  function AddPool(db: Db, c: DoctorInfo): Option<Dict<string>> {
    match RemoveEach(SpecialityTitles(db), c.speciality)
    case None => None
    case Some(rest) => Some(Enumerate(rest))
  }

  /**
   * Adding can start exactly when the catalogue has every title of the
   * doctor, and its buttons are then the catalogue's titles the doctor lacks.
   */
  lemma AddPoolContents(db: Db, c: DoctorInfo)
    ensures AddPool(db, c).Some? <==> multiset(c.speciality) <= multiset(Titles(db.specialities))
    ensures AddPool(db, c).Some? ==>
      multiset(Values(AddPool(db, c).value)) == multiset(Titles(db.specialities)) - multiset(c.speciality)
  {
  }

  /** The pool of the delete branch: `{speciality.id: speciality.title}` over the doctor's specialities. */
  function DeletePool(db: Db, c: DoctorInfo): Dict<string> {
    DeleteAdminHandlers.AdminsDict(DoctorSpecialities(db, c.photo))
  }

  /** Each button of the delete branch is one of the doctor's specialities, under its id in the catalogue. */
  lemma DeletePoolListed(db: Db, c: DoctorInfo, id: int)
    requires HasKey(DeletePool(db, c), IntToString(id))
    ensures exists t :: SpecialityRow(id, t) in db.specialities
  {
    var rows := DoctorSpecialities(db, c.photo);
    DeleteAdminHandlers.AdminsDictKeys(rows);
    var k :| 0 <= k < |rows| && DeleteAdminHandlers.UidTexts(rows)[k] == IntToString(id);
    IntRoundTrip(rows[k].0);
    IntRoundTrip(id);
    assert SpecialityRow(id, rows[k].1) in db.specialities;
  }

  /** The pool `get_action` builds; `None` where a lookup raises. */
  function ActionPool(d: Scratch, callbackData: string, db: Db): Option<Dict<string>> {
    if d.chosenDoctor.None? then None
    else if callbackData == Callbacks.AddSpecialities then AddPool(db, d.chosenDoctor.value)
    else Some(DeletePool(db, d.chosenDoctor.value))
  }

  /** The selection starts empty, so the editing invariant holds at once. */
  lemma EditingStarts(d: Scratch, d1: Scratch)
    requires UdInv(Some(UdAction), d) && d1.specialitiesPool.Some? && d1.specialities == Some([])
    requires d1.action == Some(Callbacks.AddSpecialities) || d1.action == Some(Callbacks.DeleteSpecialities)
    requires d1.action == Some(Callbacks.AddSpecialities) ==> d1.messagesToDel.Some?
    requires d1.chosenDoctor == d.chosenDoctor && d1.userUid == d.userUid && d1.lastMsgId == d.lastMsgId && d1.section == d.section
    ensures UdInv(Some(UdSpecialitiesEditing), d1)
  {
  }

  /**
   * `get_action`: adding starts from the catalogue titles the doctor lacks,
   * with an empty selection and no messages to clean up; deleting starts
   * from the doctor's own specialities. A card missing, or a doctor title the
   * catalogue lacks, raises and changes nothing.
   */
  method GetAction(b: Bot, callbackData: string)
    requires b.state == Some(UdAction)
    modifies b
    ensures var d := old(b.data); var p := ActionPool(d, callbackData, old(b.db));
      if p.None? then b.state == old(b.state) && b.data == d
      else
        && b.state == Some(UdSpecialitiesEditing)
        && b.data == (if callbackData == Callbacks.AddSpecialities
          then d.(specialitiesPool := p, specialities := Some([]), messagesToDel := Some([]), action := Some(Callbacks.AddSpecialities))
          else d.(specialitiesPool := p, specialities := Some([]), action := Some(Callbacks.DeleteSpecialities)))
    ensures b.db == old(b.db) && b.deleted == old(b.deleted)
    ensures UdInv(old(b.state), old(b.data)) ==> UdInv(b.state, b.data)
  {
    var p := ActionPool(b.data, callbackData, b.db);
    if p.None? {
      return;
    }
    var d := b.data;
    var d1 := if callbackData == Callbacks.AddSpecialities
      then d.(specialitiesPool := p, specialities := Some([]), messagesToDel := Some([]), action := Some(Callbacks.AddSpecialities))
      else d.(specialitiesPool := p, specialities := Some([]), action := Some(Callbacks.DeleteSpecialities));
    if UdInv(b.state, d) {
      EditingStarts(d, d1);
    }
    b.data := d1;
    Steps();
    b.state := Next(UpdateDoctorFlow, b.state);
  }

  // ------------------------------------------------------------ the selection

  /**
   * `choose_specialities`: the button's title leaves the selection when
   * chosen and joins it otherwise. A key outside the pool, or a session
   * without the selection or the action, raises and changes nothing.
   */
  method ChooseSpecialities(b: Bot, callbackData: string)
    requires b.state == Some(UdSpecialitiesEditing)
    modifies b
    ensures var d := old(b.data); var t := CreateDoctorHandlers.PoolTitle(d, callbackData);
      if t.None? || d.specialities.None? || d.action.None? then b.data == d
      else b.data == d.(specialities := Some(Toggle(d.specialities.value, t.value)))
    ensures b.state == old(b.state) && b.db == old(b.db) && b.deleted == old(b.deleted)
    ensures UdInv(old(b.state), old(b.data)) ==> UdInv(b.state, b.data)
  {
    var d := b.data;
    var t := CreateDoctorHandlers.PoolTitle(d, callbackData);
    if t.None? || d.specialities.None? || d.action.None? {
      return;
    }
    var s := Toggle(d.specialities.value, t.value);
    if UdInv(b.state, d) && d.action == Some(Callbacks.DeleteSpecialities) {
      ToggleKeepsNoDup(d.specialities.value, t.value);
      GetInValues(d.specialitiesPool.value, Callbacks.Field(callbackData, 1).value);
      forall i | 0 <= i < |s| ensures s[i] in Values(d.specialitiesPool.value) {
        assert s[i] in multiset(s);
      }
    }
    b.data := d.(specialities := Some(s));
  }

  /** `create_new_specialities`: the prompt the bot sent is cleaned up with the answers later. */
  method CreateNewSpecialities(b: Bot, sentId: int)
    requires b.state == Some(UdSpecialitiesEditing)
    modifies b
    ensures var d := old(b.data);
      b.data == if d.messagesToDel.None? then d else d.(messagesToDel := Some(d.messagesToDel.value + [sentId]))
    ensures b.state == old(b.state) && b.db == old(b.db) && b.deleted == old(b.deleted)
    ensures UdInv(old(b.state), old(b.data)) ==> UdInv(b.state, b.data)
  {
    if b.data.messagesToDel.Some? {
      b.data := b.data.(messagesToDel := Some(b.data.messagesToDel.value + [sentId]));
    }
  }

  /** The titles a typed one must differ from: the pool's and the doctor's own. */
  function Listed(d: Scratch): seq<string> {
    (if d.specialitiesPool.Some? then Values(d.specialitiesPool.value) else [])
      + (if d.chosenDoctor.Some? then d.chosenDoctor.value.speciality else [])
  }

  /** The typed titles `get_new_specialities` adds: `None` where `process_input` or a lookup raises. */
  function TypedTitles(d: Scratch, text: string): Option<seq<string>> {
    match ProcessInput(text, ',')
    case None => None
    case Some(typed) =>
      if |typed| > 0 && (d.specialitiesPool.None? || d.chosenDoctor.None?) then None
      else Some(CreateDoctorHandlers.Unlisted(typed, Listed(d)))
  }

  /** A title joins the selection exactly when it was typed and is neither in the pool nor the doctor's own. */
  lemma TypedTitlesMembers(d: Scratch, text: string)
    requires TypedTitles(d, text).Some?
    ensures ProcessInput(text, ',').Some?
    ensures forall t :: t in TypedTitles(d, text).value <==> t in ProcessInput(text, ',').value && t !in Listed(d)
  {
    CreateDoctorHandlers.UnlistedMembers(ProcessInput(text, ',').value, Listed(d));
  }

  /**
   * The data after a text while adding, given the titles `typed` read from
   * it (`None` where reading them raised): they join the selection, and the
   * message is kept for the clean-up. A session without the lists raises
   * and keeps the data.
   */
  function Kept(d: Scratch, typed: Option<seq<string>>, msgId: int): Scratch {
    if typed.None? || (|typed.value| > 0 && d.specialities.None?) || d.messagesToDel.None? then d
    else d.(
      specialities := if |typed.value| > 0 then Some(d.specialities.value + typed.value) else d.specialities,
      messagesToDel := Some(d.messagesToDel.value + [msgId]))
  }

  /**
   * While adding, the selection may hold anything: the editing invariant
   * survives the new selection, which keeps what was chosen and ends with
   * what was typed.
   */
  lemma KeptInv(d: Scratch, typed: Option<seq<string>>, msgId: int)
    requires UdInv(Some(UdSpecialitiesEditing), d) && d.action == Some(Callbacks.AddSpecialities)
    ensures UdInv(Some(UdSpecialitiesEditing), Kept(d, typed, msgId))
    ensures typed.Some? ==> Kept(d, typed, msgId).specialities == Some(d.specialities.value + typed.value)
  {
    if typed.Some? && |typed.value| == 0 {
      assert d.specialities.value + typed.value == d.specialities.value;
    }
  }

  /** `get_new_specialities` while adding, given the titles read from the text. */
  method KeepTyped(b: Bot, typed: Option<seq<string>>, msgId: int)
    requires b.state == Some(UdSpecialitiesEditing) && b.data.action == Some(Callbacks.AddSpecialities)
    modifies b
    ensures b.data == Kept(old(b.data), typed, msgId)
    ensures b.state == old(b.state) && b.db == old(b.db) && b.deleted == old(b.deleted)
    ensures UdInv(old(b.state), old(b.data)) ==> UdInv(b.state, b.data)
  {
    var d := b.data;
    if UdInv(b.state, d) {
      KeptInv(d, typed, msgId);
    }
    if typed.None? || (|typed.value| > 0 && d.specialities.None?) || d.messagesToDel.None? {
      return;
    }
    var specs := if |typed.value| > 0 then Some(d.specialities.value + typed.value) else d.specialities;
    b.data := d.(specialities := specs, messagesToDel := Some(d.messagesToDel.value + [msgId]));
  }

  /**
   * `get_new_specialities`: while adding, the typed titles neither in the
   * pool nor the doctor's own are kept (`Kept`, `TypedTitlesMembers`);
   * while deleting, the message is deleted. A session without the action
   * raises and changes nothing.
   */
  method GetNewSpecialities(b: Bot, text: string, msgId: int)
    requires b.state == Some(UdSpecialitiesEditing)
    modifies b
    ensures var d := old(b.data);
      if d.action.None? then b.data == d && b.deleted == old(b.deleted)
      else if d.action.value == Callbacks.AddSpecialities then
        b.data == Kept(d, TypedTitles(d, text), msgId) && b.deleted == old(b.deleted)
      else b.data == d && b.deleted == old(b.deleted) + (if msgId in b.refused then [] else [msgId])
    ensures b.state == old(b.state) && b.db == old(b.db)
    ensures UdInv(old(b.state), old(b.data)) ==> UdInv(b.state, b.data)
  {
    if b.data.action.None? {
      return;
    }
    if b.data.action.value == Callbacks.AddSpecialities {
      KeepTyped(b, TypedTitles(b.data, text), msgId);
    } else if msgId !in b.refused {
      b.deleted := b.deleted + [msgId];
    }
  }

  // ------------------------------------------------------------ deleting

  /** The id under a title's button: the key of its first place in the pool, as a number. */
  function PoolId(pool: Dict<string>, title: string): (r: Option<int>)
    ensures r.Some? ==> title in Values(pool)
  {
    match Index(Values(pool), title)
    case None => None
    case Some(k) => ParseInt(Keys(pool)[k])
  }

  /**
   * The card without one speciality: its title at its first place, its id
   * by value and the price at the title's place go. `None` where one of
   * the lookups raises.
   */
  function DropEntry(c: DoctorInfo, title: string, id: int): Option<DoctorInfo> {
    match Index(c.speciality, title)
    case None => None
    case Some(j) =>
      match RemoveFirst(c.specialityId, id)
      case None => None
      case Some(ids) =>
        if j >= |c.price| then None
        else Some(c.(speciality := RemoveAt(c.speciality, j), specialityId := ids, price := RemoveAt(c.price, j)))
  }

  /**
   * The drop succeeds exactly when the card has the title, the id and a
   * price at the title's place; it then takes one of each out and leaves the
   * other columns alone.
   */
  lemma DropEntryShape(c: DoctorInfo, title: string, id: int)
    ensures var r := DropEntry(c, title, id);
      && (r.Some? <==> title in c.speciality && id in c.specialityId && Index(c.speciality, title).value < |c.price|)
      && (r.Some? ==>
        && r.value == c.(speciality := r.value.speciality, specialityId := r.value.specialityId, price := r.value.price)
        && |r.value.speciality| == |c.speciality| - 1 && |r.value.specialityId| == |c.specialityId| - 1
        && |r.value.price| == |c.price| - 1
        && multiset(r.value.speciality) == multiset(c.speciality) - multiset{title}
        && multiset(r.value.specialityId) == multiset(c.specialityId) - multiset{id})
  {
    var j := Index(c.speciality, title);
    if j.Some? {
      RemoveAtMultiset(c.speciality, j.value);
    }
  }

  /** The card's specialities as one table: id, title and price side by side. */
  function Entries(c: DoctorInfo): (r: seq<(int, string, int)>)
    requires Aligned(c)
    ensures |r| == |c.speciality|
  {
    seq(|c.speciality|, k requires 0 <= k < |c.speciality| => (c.specialityId[k], c.speciality[k], c.price[k]))
  }

  /**
   * When the id given is the one beside the title, and the ids have no
   * repeats, the drop takes out exactly one line of the table: the three
   * lists lose the same position.
   */
  lemma DropEntryAt(c: DoctorInfo, title: string, j: nat)
    requires Aligned(c) && NoDup(c.specialityId) && j < |c.speciality|
    requires c.speciality[j] == title && title !in c.speciality[..j]
    ensures var r := DropEntry(c, title, c.specialityId[j]);
      r.Some? && Aligned(r.value) && Entries(r.value) == RemoveAt(Entries(c), j)
  {
    RemoveFirstAt(c.specialityId, j);
  }

  /**
   * The outcome of the deletion loop, or of one title of it: the database,
   * the card, whether a catalogue title went, and whether it ran to the end
   * (for one title: whether the loop goes on).
   */
  datatype Dropped = Dropped(db: Db, card: DoctorInfo, pruned: bool, done: bool)

  /**
   * One title of the deletion loop: the doctor's rows with the title's id
   * go, then the card loses the title; a catalogue title no doctor row uses
   * any more goes too. A title outside the pool, a key that is not a
   * number, or a card that lacks the title or the id stops the loop, after
   * the rows went where the lookup came later; so does a section other than
   * "speciality", which the card is indexed by.
   */
  function DropTitle(db: Db, c: DoctorInfo, title: string, pool: Dict<string>, sectionOk: bool): (r: Dropped)
    ensures !r.done ==> r.card == c && !r.pruned
  {
    var id := PoolId(pool, title);
    if id.None? then Dropped(db, c, false, false)
    else
      var db1 := DeleteDoctor(db, c.photo, id);
      var next := DropEntry(c, title, id.value);
      if !sectionOk || next.None? then Dropped(db1, c, false, false)
      else
        var unused := |DoctorsWithSpeciality(db1, id.value)| == 0;
        Dropped(if unused then DeleteSpeciality(db1, id.value) else db1, next.value, unused, true)
  }

  /** An outcome after titles that already pruned the catalogue (`p`). */
  function Join(p: bool, r: Dropped): Dropped {
    r.(pruned := p || r.pruned)
  }

  /** The deletion loop from the `i`-th chosen title on. */
  function DropFrom(db: Db, c: DoctorInfo, titles: seq<string>, i: nat, pool: Dict<string>, sectionOk: bool): Dropped
    requires i <= |titles|
    decreases |titles| - i
  {
    if i == |titles| then Dropped(db, c, false, true)
    else
      var one := DropTitle(db, c, titles[i], pool, sectionOk);
      if !one.done then one
      else Join(one.pruned, DropFrom(one.db, one.card, titles, i + 1, pool, sectionOk))
  }

  /**
   * One title only takes rows out, of the doctor and the catalogue, and the
   * catalogue changes only when a title went; the card keeps its photo and
   * its columns. Gone through, it leaves no row of the doctor under the
   * title's id, and takes the title out of an aligned card.
   */
  lemma DropTitleShape(db: Db, c: DoctorInfo, title: string, pool: Dict<string>, ok: bool)
    ensures var r := DropTitle(db, c, title, pool, ok);
      && r.db.(doctors := db.doctors, specialities := db.specialities) == db
      && (forall x :: x in r.db.doctors ==> x in db.doctors)
      && (forall x :: x in r.db.specialities ==> x in db.specialities)
      && (!r.pruned ==> r.db.specialities == db.specialities)
      && r.card == c.(speciality := r.card.speciality, specialityId := r.card.specialityId, price := r.card.price)
      && (r.done ==>
        && PoolId(pool, title).Some?
        && (forall x :: x in r.db.doctors ==> !Targets(x, c.photo, PoolId(pool, title)))
        && (Aligned(c) ==> Aligned(r.card) && |r.card.speciality| + 1 == |c.speciality|)
        && multiset(r.card.speciality) == multiset(c.speciality) - multiset{title})
  {
    var id := PoolId(pool, title);
    if id.Some? {
      DropEntryShape(c, title, id.value);
    }
  }

  /** The loop keeps the frame of each title. */
  lemma {:induction false} DropFrame(db: Db, c: DoctorInfo, titles: seq<string>, i: nat, pool: Dict<string>, ok: bool)
    requires i <= |titles|
    ensures var r := DropFrom(db, c, titles, i, pool, ok);
      && r.db.(doctors := db.doctors, specialities := db.specialities) == db
      && (forall x :: x in r.db.doctors ==> x in db.doctors)
      && (forall x :: x in r.db.specialities ==> x in db.specialities)
      && (!r.pruned ==> r.db.specialities == db.specialities)
      && r.card == c.(speciality := r.card.speciality, specialityId := r.card.specialityId, price := r.card.price)
    decreases |titles| - i
  {
    if i < |titles| {
      var one := DropTitle(db, c, titles[i], pool, ok);
      DropTitleShape(db, c, titles[i], pool, ok);
      if one.done {
        DropFrame(one.db, one.card, titles, i + 1, pool, ok);
      }
    }
  }

  /**
   * Run to the end, the loop leaves the card aligned, one entry shorter per
   * title, with exactly the chosen titles taken out of its title list.
   */
  lemma {:induction false} DropShape(db: Db, c: DoctorInfo, titles: seq<string>, i: nat, pool: Dict<string>, ok: bool)
    requires i <= |titles| && Aligned(c)
    ensures var r := DropFrom(db, c, titles, i, pool, ok);
      r.done ==>
        && Aligned(r.card) && |r.card.speciality| + |titles| == |c.speciality| + i
        && multiset(r.card.speciality) == multiset(c.speciality) - multiset(titles[i..])
    decreases |titles| - i
  {
    if i < |titles| {
      var one := DropTitle(db, c, titles[i], pool, ok);
      DropTitleShape(db, c, titles[i], pool, ok);
      if one.done {
        DropShape(one.db, one.card, titles, i + 1, pool, ok);
        SliceMultiset(titles, i);
        MinusTwice(multiset(c.speciality), multiset{titles[i]}, multiset(titles[i + 1..]));
      }
    }
  }

  /** A suffix's multiset is its head's plus the rest's. */
  lemma SliceMultiset<T>(s: seq<T>, i: nat)
    requires i < |s|
    ensures multiset(s[i..]) == multiset{s[i]} + multiset(s[i + 1..])
  {
    assert s[i..] == [s[i]] + s[i + 1..];
  }

  /** Taking away two multisets in turn takes away their sum. */
  lemma MinusTwice<T>(a: multiset<T>, b: multiset<T>, c: multiset<T>)
    ensures a - b - c == a - (b + c)
  {
  }

  /** Run to the end, the loop leaves no row of the doctor under the id of any chosen title. */
  lemma {:induction false} DropRemovesRows(db: Db, c: DoctorInfo, titles: seq<string>, i: nat, pool: Dict<string>, ok: bool,
    k: nat, x: DoctorRow)
    requires i <= k < |titles|
    requires DropFrom(db, c, titles, i, pool, ok).done && x in DropFrom(db, c, titles, i, pool, ok).db.doctors
    ensures PoolId(pool, titles[k]).Some? && !Targets(x, c.photo, PoolId(pool, titles[k]))
    decreases |titles| - i
  {
    var one := DropTitle(db, c, titles[i], pool, ok);
    DropTitleShape(db, c, titles[i], pool, ok);
    if k == i {
      DropFrame(one.db, one.card, titles, i + 1, pool, ok);
    } else {
      DropRemovesRows(one.db, one.card, titles, i + 1, pool, ok, k, x);
    }
  }

  /** One turn of the deletion loop keeps its invariant, or ends the loop with the loop's outcome. */
  lemma DropLoopStep(db0: Db, c: DoctorInfo, titles: seq<string>, pool: Dict<string>, ok: bool,
    db: Db, card: DoctorInfo, pruned: bool, i: nat)
    requires i < |titles|
    requires DropFrom(db0, c, titles, 0, pool, ok) == Join(pruned, DropFrom(db, card, titles, i, pool, ok))
    ensures var one := DropTitle(db, card, titles[i], pool, ok);
      if one.done then DropFrom(db0, c, titles, 0, pool, ok) == Join(pruned || one.pruned, DropFrom(one.db, one.card, titles, i + 1, pool, ok))
      else DropFrom(db0, c, titles, 0, pool, ok) == Dropped(one.db, card, pruned, false)
  {
  }

  /**
   * The deletion loop of `update_specialities`, one title at a time, from
   * the database `db0`; `r.db` is the database it leaves, also when it stops.
   */
  method DropLoop(db0: Db, c: DoctorInfo, titles: seq<string>, pool: Dict<string>, sectionOk: bool) returns (r: Dropped)
    ensures r == DropFrom(db0, c, titles, 0, pool, sectionOk)
  {
    var db := db0;
    var card := c;
    var pruned := false;
    var i := 0;
    while i < |titles|
      invariant 0 <= i <= |titles|
      invariant DropFrom(db0, c, titles, 0, pool, sectionOk) == Join(pruned, DropFrom(db, card, titles, i, pool, sectionOk))
    {
      var one := DropTitle(db, card, titles[i], pool, sectionOk);
      DropLoopStep(db0, c, titles, pool, sectionOk, db, card, pruned, i);
      if !one.done {
        return Dropped(one.db, card, pruned, false);
      }
      db := one.db;
      card := one.card;
      pruned := pruned || one.pruned;
      i := i + 1;
    }
    r := Dropped(db, card, pruned, true);
  }

  /** The deletion as the admin confirms it; the session's selection, pool and card must be there. */
  function DropRun(d: Scratch, db: Db): Dropped
    requires d.specialities.Some? && d.specialitiesPool.Some? && d.chosenDoctor.Some?
  {
    DropFrom(db, d.chosenDoctor.value, d.specialities.value, 0, d.specialitiesPool.value,
      d.section == Some(Callbacks.Speciality))
  }

  /**
   * What the deletion delivers from the state the flow invariant describes:
   * the card stays aligned and loses exactly the chosen titles, and the
   * doctor has no row left under any of their ids.
   */
  lemma DropDelivers(d: Scratch, db: Db)
    requires UdInv(Some(UdSpecialitiesEditing), d)
    ensures var r := DropRun(d, db); var c := d.chosenDoctor.value; var titles := d.specialities.value;
      r.done ==>
        && Aligned(r.card) && r.card.photo == c.photo
        && |r.card.speciality| == |c.speciality| - |titles|
        && multiset(r.card.speciality) == multiset(c.speciality) - multiset(titles)
        && forall k, x :: 0 <= k < |titles| && x in r.db.doctors ==>
          !Targets(x, c.photo, PoolId(d.specialitiesPool.value, titles[k]))
  {
    var c := d.chosenDoctor.value;
    var titles := d.specialities.value;
    var ok := d.section == Some(Callbacks.Speciality);
    DropShape(db, c, titles, 0, d.specialitiesPool.value, ok);
    DropFrame(db, c, titles, 0, d.specialitiesPool.value, ok);
    assert titles[0..] == titles;
    forall k, x | 0 <= k < |titles| && x in DropRun(d, db).db.doctors && DropRun(d, db).done
      ensures !Targets(x, c.photo, PoolId(d.specialitiesPool.value, titles[k]))
    {
      DropRemovesRows(db, c, titles, 0, d.specialitiesPool.value, ok, k, x);
    }
  }

  /**
   * The admin's deletion, from the data, database and cache entries before
   * (`d`, `db`, `e`) to those after; `up` is whether the cache server
   * answers. A loop that stops early, a refresh that fails, or a session
   * without the message raises: what was written stays, the data are lost.
   */
  ghost predicate DropDone(d: Scratch, db: Db, e: map<Key, Entry>, up: bool,
    s': Option<St>, d': Scratch, db': Db, e': map<Key, Entry>, s: Option<St>)
    requires d.specialities.Some? && d.specialitiesPool.Some? && d.chosenDoctor.Some?
  {
    var r := DropRun(d, db);
    var refreshed := r.done && r.pruned && up;
    && db' == r.db
    && (if refreshed then CreateDoctorHandlers.Refreshed(e, e', db') else e' == e)
    && if r.done && (!r.pruned || up) && d.lastMsgId.Some? then
        s' == Some(UdAction) && d' == d.(chosenDoctor := Some(r.card), specialities := None, specialitiesPool := None)
      else s' == s && d' == d
  }

  /**
   * `update_cache('specialities')` after the rows are written, where the
   * catalogue changed: a cache in step with the database before the writes
   * is in step after them, unless the reload fails (`ok` false).
   */
  method SyncCatalogue(c: CacheStore, ghost db0: Db, db: Db, changed: bool) returns (ok: bool)
    requires db.admins == db0.admins && (!changed ==> db.specialities == db0.specialities)
    modifies c
    ensures c.up == old(c.up) && ok == (!changed || c.up)
    ensures if changed && c.up then CreateDoctorHandlers.Refreshed(old(c.entries), c.entries, db) else c.entries == old(c.entries)
    ensures ok && c.up && CoherentWith(old(c.entries), db0) ==> CoherentWith(c.entries, db)
  {
    ok := true;
    if changed {
      ok := DeleteDoctorHandlers.RefreshCatalogue(c, db);
      if ok && CoherentWith(old(c.entries), db0) {
        SourceFrame(db0, db);
        CoherentAfterRefresh(old(c.entries), c.entries, db0, db, [SpecialitiesKey]);
      }
    } else if c.up && CoherentWith(c.entries, db0) {
      CoherentAfterOtherWrite(c.entries, db0, db);
    }
  }

  /** The admin's side of the deletion. */
  method DropAsAdmin(b: Bot)
    requires b.data.specialities.Some? && b.data.specialitiesPool.Some? && b.data.chosenDoctor.Some?
    modifies b, b.cache
    ensures DropDone(old(b.data), old(b.db), old(b.cache.entries), b.cache.up, b.state, b.data, b.db, b.cache.entries, old(b.state))
    ensures b.deleted == old(b.deleted) && b.cache.up == old(b.cache.up)
    ensures old(CacheInv(b)) && (DropRun(old(b.data), old(b.db)).done || !DropRun(old(b.data), old(b.db)).pruned) ==> CacheInv(b)
    ensures UdInv(old(b.state), old(b.data)) && old(b.state) == Some(UdSpecialitiesEditing) ==> UdInv(b.state, b.data)
  {
    ghost var e0 := b.cache.entries;
    ghost var db0 := b.db;
    var d := b.data;
    var r := DropLoop(b.db, d.chosenDoctor.value, d.specialities.value, d.specialitiesPool.value,
      d.section == Some(Callbacks.Speciality));
    b.db := r.db;
    DropFrame(db0, d.chosenDoctor.value, d.specialities.value, 0, d.specialitiesPool.value, d.section == Some(Callbacks.Speciality));
    if !r.done {
      if !r.pruned && b.cache.up && CoherentWith(e0, db0) {
        CoherentAfterOtherWrite(e0, db0, b.db);
      }
      return;
    }
    var ok := SyncCatalogue(b.cache, db0, b.db, r.pruned);
    if !ok || d.lastMsgId.None? {
      return;
    }
    if UdInv(b.state, d) && b.state == Some(UdSpecialitiesEditing) {
      DropDelivers(d, db0);
    }
    b.data := d.(chosenDoctor := Some(r.card), specialities := None, specialitiesPool := None);
    b.state := Some(UdAction);
  }

  // ------------------------------------------------------------ adding

  /**
   * `update_specialities` while adding: an empty selection changes nothing.
   * Otherwise the selection loses its repeats, the typed answers and
   * prompts are deleted, and the price loop starts with the first title.
   * The deletion loop has no `try`: a refused deletion raises, the data unsaved.
   */
  method AddChosen(b: Bot)
    requires b.state == Some(UdSpecialitiesEditing)
    modifies b
    ensures b.db == old(b.db)
    ensures var d := old(b.data); var ids := d.messagesToDel;
      if d.specialities.None? || |d.specialities.value| == 0 || ids.None? || (|ids.value| > 0 && d.userUid.None?) then
        b.state == old(b.state) && b.data == d && b.deleted == old(b.deleted)
      else
        && b.deleted == old(b.deleted) + DeletedUntilFailure(ids.value, b.refused)
        && (|DeletedUntilFailure(ids.value, b.refused)| < |ids.value| ==> b.state == old(b.state) && b.data == d)
        && (|DeletedUntilFailure(ids.value, b.refused)| == |ids.value| ==>
          && b.state == Some(UdPrice)
          && b.data.specialities.Some? && IsDedupOf(b.data.specialities.value, d.specialities.value)
          && b.data == d.(specialities := b.data.specialities, messagesToDel := Some([]),
            prices := Some([]), noPrice := b.data.specialities))
    ensures UdInv(old(b.state), old(b.data)) && old(b.data).action == Some(Callbacks.AddSpecialities) ==>
      UdInv(b.state, b.data)
  {
    var d := b.data;
    if d.specialities.None? || |d.specialities.value| == 0 {
      return;
    }
    assert IsDedupOf(Dedup(d.specialities.value), d.specialities.value);
    var chosen :| IsDedupOf(chosen, d.specialities.value);
    DedupNonEmpty(chosen, d.specialities.value);
    if d.messagesToDel.None? || (|d.messagesToDel.value| > 0 && d.userUid.None?) {
      return;
    }
    var ids := d.messagesToDel.value;
    b.DeleteUntilFailure(ids);
    if |DeletedUntilFailure(ids, b.refused)| < |ids| {
      return;
    }
    b.data := d.(specialities := Some(chosen), messagesToDel := Some([]), prices := Some([]), noPrice := Some(chosen));
    Steps();
    b.state := Next(UpdateDoctorFlow, b.state);
  }

  /**
   * `update_specialities`: adding goes on to the prices; deleting refuses a
   * selection of every title the doctor has, and otherwise, for an admin
   * (checked on the session's user), deletes the chosen specialities and
   * goes back to the add/delete choice. A non-admin is sent to the client's
   * main menu. A session without the action, the selection or the pool
   * raises and changes nothing; the admins entry is read before the
   * session's user, so a session without the user raises with that entry
   * filled.
   */
  method UpdateSpecialities(b: Bot)
    requires b.state == Some(UdSpecialitiesEditing)
    modifies b, b.cache
    ensures var d := old(b.data);
      d.action.None? || (d.action != Some(Callbacks.AddSpecialities) &&
        (d.specialities.None? || d.specialitiesPool.None? || |d.specialities.value| == |d.specialitiesPool.value|)) ==>
        b.state == old(b.state) && b.data == d && b.db == old(b.db) && b.deleted == old(b.deleted)
        && b.cache.entries == old(b.cache.entries)
    ensures var d := old(b.data);
      d.action.Some? && d.action != Some(Callbacks.AddSpecialities) && d.specialities.Some? && d.specialitiesPool.Some?
      && |d.specialities.value| != |d.specialitiesPool.value| && d.userUid.None? ==>
        b.state == old(b.state) && b.data == d && b.db == old(b.db) && b.deleted == old(b.deleted)
        && b.cache.entries == Filled(old(b.cache.entries), b.cache.up, old(b.db), AdminsKey)
    ensures var d := old(b.data); d.action == Some(Callbacks.AddSpecialities) ==>
      b.db == old(b.db) && b.cache.entries == old(b.cache.entries)
    ensures var d := old(b.data);
      d.action.Some? && d.action != Some(Callbacks.AddSpecialities) && d.specialities.Some? && d.specialitiesPool.Some?
      && |d.specialities.value| != |d.specialitiesPool.value| && d.userUid.Some? ==>
        var admin := IsAdmin(d.userUid.value, b.master, Read(old(b.cache.entries), b.cache.up, old(b.db), AdminsKey));
        var e1 := Filled(old(b.cache.entries), b.cache.up, old(b.db), AdminsKey);
        && b.deleted == old(b.deleted)
        && (!admin ==> b.state.None? && b.data == Empty && b.db == old(b.db) && b.cache.entries == e1)
        && (admin && d.chosenDoctor.None? ==>
          b.state == old(b.state) && b.data == d && b.db == old(b.db) && b.cache.entries == e1)
        && (admin && d.chosenDoctor.Some? ==>
          DropDone(d, old(b.db), e1, b.cache.up, b.state, b.data, b.db, b.cache.entries, old(b.state)))
    ensures b.cache.up == old(b.cache.up)
    ensures UdInv(old(b.state), old(b.data)) ==> UdInv(b.state, b.data)
    ensures var d := old(b.data);
      var partial := d.specialities.Some? && d.specialitiesPool.Some? && d.chosenDoctor.Some?
        && !DropRun(d, old(b.db)).done && DropRun(d, old(b.db)).pruned;
      old(CacheInv(b)) && !partial ==> CacheInv(b)
  {
    var d := b.data;
    if d.action.None? {
      return;
    }
    if d.action.value == Callbacks.AddSpecialities {
      AddChosen(b);
      return;
    }
    if d.specialities.None? || d.specialitiesPool.None? || |d.specialities.value| == |d.specialitiesPool.value| {
      return;
    }
    ghost var e0 := b.cache.entries;
    var admins := b.cache.Get(b.db, AdminsKey);
    if b.cache.up && CoherentWith(e0, b.db) {
      ReadCoherent(e0, b.cache.up, b.db, AdminsKey);
    }
    if d.userUid.None? {
      return;
    }
    if !IsAdmin(d.userUid.value, b.master, admins) {
      b.Finish();
      return;
    }
    if d.chosenDoctor.None? {
      return;
    }
    DropAsAdmin(b);
  }

  // ------------------------------------------------------------ the prices

  /** The columns of the card the new rows copy. */
  function FieldsOfCard(c: Option<DoctorInfo>): (r: Option<CreateDoctorHandlers.DoctorFields>)
    ensures r.Some? <==> c.Some?
    ensures r.Some? ==> r.value.name == c.value.fullName && r.value.photo == c.value.photo
  {
    if c.None? then None
    else Some(CreateDoctorHandlers.DoctorFields(c.value.fullName, c.value.photo, c.value.description,
      c.value.experience, c.value.scienceDegree, c.value.qualCategory))
  }

  /**
   * The outcome of the adding loop, or of one title of it: the database,
   * the ids recorded, whether a title was created, and whether it ran to
   * the end (for one title: whether the loop goes on).
   */
  datatype Added = Added(db: Db, ids: seq<int>, created: bool, done: bool)

  /**
   * One title's catalogue step: a title the pool lacks is created and its
   * new id taken; one the pool has is looked up in the catalogue by title,
   * and a failed lookup raises (`None`).
   */
  function AddStep(db: Db, title: string, pool: seq<string>): (r: Option<(Db, int)>)
    ensures r.Some? <==> title !in pool || title in Titles(db.specialities)
    ensures r.Some? ==>
      r.value.0 == CreateDoctorHandlers.Catalogued(db, title, pool) && SpecialityRow(r.value.1, title) in r.value.0.specialities
  {
    if title in pool then
      match SpecialityByTitle(db.specialities, title)
      case None => None
      case Some(row) => Some((db, row.id))
    else Some((CreateSpeciality(db, title), db.nextId))
  }

  /**
   * One title of the adding loop: its catalogue step, then the doctor's
   * row, with the price at the title's first position. A failed lookup
   * stops the loop; so does a missing card or a missing price, after the
   * title was created and its id recorded.
   */
  function AddTitle(db: Db, specs: seq<string>, i: nat, pool: seq<string>,
    f: Option<CreateDoctorHandlers.DoctorFields>, prices: seq<int>, now: int): Added
    requires i < |specs|
  {
    var title := specs[i];
    match AddStep(db, title, pool)
    case None => Added(db, [], false, false)
    case Some((db1, id)) =>
      var k := IndexOf(specs, title);
      if f.None? || k >= |prices| then Added(db1, [id], title !in pool, false)
      else Added(CreateDoctorHandlers.AddDoctor(db1, f.value, title, prices[k], now), [id], title !in pool, true)
  }

  /** An outcome after titles that already recorded `ids` and created a title or not (`created`). */
  function After(ids: seq<int>, created: bool, r: Added): Added {
    r.(ids := ids + r.ids, created := created || r.created)
  }

  /** `After` twice is `After` once with both prefixes. */
  lemma AfterTwice(ids1: seq<int>, c1: bool, ids2: seq<int>, c2: bool, r: Added)
    ensures After(ids1, c1, After(ids2, c2, r)) == After(ids1 + ids2, c1 || c2, r)
  {
    assert ids1 + (ids2 + r.ids) == ids1 + ids2 + r.ids;
  }

  /** The adding loop from the `i`-th chosen title on. */
  function AddFrom(db: Db, specs: seq<string>, i: nat, pool: seq<string>,
    f: Option<CreateDoctorHandlers.DoctorFields>, prices: seq<int>, now: int): Added
    requires i <= |specs|
    decreases |specs| - i
  {
    if i == |specs| then Added(db, [], false, true)
    else
      var one := AddTitle(db, specs, i, pool, f, prices, now);
      if !one.done then one
      else After(one.ids, one.created, AddFrom(one.db, specs, i + 1, pool, f, prices, now))
  }

  /**
   * One title only appends, to the doctors and the catalogue, and touches
   * nothing else but the id counter; the catalogue changes only when a
   * title was created. Gone through, it records one id, of a catalogue row
   * with the title, and writes one doctor row; it goes through whenever the
   * lookup, the card and the price are there.
   */
  lemma AddTitleShape(db: Db, specs: seq<string>, i: nat, pool: seq<string>,
    f: Option<CreateDoctorHandlers.DoctorFields>, prices: seq<int>, now: int)
    requires i < |specs|
    ensures var r := AddTitle(db, specs, i, pool, f, prices, now);
      && r.db.(doctors := db.doctors, specialities := db.specialities, nextId := db.nextId) == db
      && |db.doctors| <= |r.db.doctors| && r.db.doctors[..|db.doctors|] == db.doctors
      && |db.specialities| <= |r.db.specialities| && r.db.specialities[..|db.specialities|] == db.specialities
      && (!r.created ==> r.db.specialities == db.specialities)
      && (r.done ==>
        && |r.ids| == 1 && |r.db.doctors| == |db.doctors| + 1
        && SpecialityRow(r.ids[0], specs[i]) in r.db.specialities)
      && (AddStep(db, specs[i], pool).Some? && f.Some? && IndexOf(specs, specs[i]) < |prices| ==> r.done)
  {
    var step := AddStep(db, specs[i], pool);
    if step.Some? {
      assert step.value.0.specialities[..|db.specialities|] == db.specialities;
    }
  }

  /** Two writes that touch only the doctors, the catalogue and the id counter touch nothing else together. */
  lemma UntouchedTwice(a: Db, b: Db, c: Db)
    requires b.(doctors := a.doctors, specialities := a.specialities, nextId := a.nextId) == a
    requires c.(doctors := b.doctors, specialities := b.specialities, nextId := b.nextId) == b
    ensures c.(doctors := a.doctors, specialities := a.specialities, nextId := a.nextId) == a
  {
  }

  /** A prefix of a prefix is a prefix. */
  lemma PrefixOfPrefix<T>(a: seq<T>, b: seq<T>, c: seq<T>)
    requires |a| <= |b| && b[..|a|] == a && |b| <= |c| && c[..|b|] == b
    ensures |a| <= |c| && c[..|a|] == a
  {
    assert c[..|a|] == c[..|b|][..|a|];
  }

  /** The adding loop's first title, and the loop from the next one on. */
  lemma AddFromStep(db: Db, specs: seq<string>, i: nat, pool: seq<string>,
    f: Option<CreateDoctorHandlers.DoctorFields>, prices: seq<int>, now: int)
    requires i < |specs|
    ensures var one := AddTitle(db, specs, i, pool, f, prices, now);
      AddFrom(db, specs, i, pool, f, prices, now)
        == if one.done then After(one.ids, one.created, AddFrom(one.db, specs, i + 1, pool, f, prices, now)) else one
  {
  }

  /** The loop touches nothing but the doctors, the catalogue and the id counter. */
  lemma {:induction false} AddOthers(db: Db, specs: seq<string>, i: nat, pool: seq<string>,
    f: Option<CreateDoctorHandlers.DoctorFields>, prices: seq<int>, now: int)
    requires i <= |specs|
    ensures AddFrom(db, specs, i, pool, f, prices, now).db.(doctors := db.doctors, specialities := db.specialities, nextId := db.nextId) == db
    decreases |specs| - i
  {
    if i < |specs| {
      var one := AddTitle(db, specs, i, pool, f, prices, now);
      AddFromStep(db, specs, i, pool, f, prices, now);
      AddTitleShape(db, specs, i, pool, f, prices, now);
      if one.done {
        AddOthers(one.db, specs, i + 1, pool, f, prices, now);
        UntouchedTwice(db, one.db, AddFrom(one.db, specs, i + 1, pool, f, prices, now).db);
      }
    }
  }

  /** A loop that created no title leaves the catalogue as it was. */
  lemma {:induction false} AddCatalogue(db: Db, specs: seq<string>, i: nat, pool: seq<string>,
    f: Option<CreateDoctorHandlers.DoctorFields>, prices: seq<int>, now: int)
    requires i <= |specs|
    ensures var r := AddFrom(db, specs, i, pool, f, prices, now); !r.created ==> r.db.specialities == db.specialities
    decreases |specs| - i
  {
    if i < |specs| {
      var one := AddTitle(db, specs, i, pool, f, prices, now);
      AddFromStep(db, specs, i, pool, f, prices, now);
      AddTitleShape(db, specs, i, pool, f, prices, now);
      if one.done {
        AddCatalogue(one.db, specs, i + 1, pool, f, prices, now);
      }
    }
  }

  /** The loop only appends, to the doctors and to the catalogue. */
  lemma {:induction false} AddAppends(db: Db, specs: seq<string>, i: nat, pool: seq<string>,
    f: Option<CreateDoctorHandlers.DoctorFields>, prices: seq<int>, now: int)
    requires i <= |specs|
    ensures var r := AddFrom(db, specs, i, pool, f, prices, now);
      && |db.doctors| <= |r.db.doctors| && r.db.doctors[..|db.doctors|] == db.doctors
      && |db.specialities| <= |r.db.specialities| && r.db.specialities[..|db.specialities|] == db.specialities
    decreases |specs| - i
  {
    if i < |specs| {
      var one := AddTitle(db, specs, i, pool, f, prices, now);
      AddFromStep(db, specs, i, pool, f, prices, now);
      AddTitleShape(db, specs, i, pool, f, prices, now);
      if one.done {
        AddAppends(one.db, specs, i + 1, pool, f, prices, now);
        var rest := AddFrom(one.db, specs, i + 1, pool, f, prices, now);
        PrefixOfPrefix(db.doctors, one.db.doctors, rest.db.doctors);
        PrefixOfPrefix(db.specialities, one.db.specialities, rest.db.specialities);
      }
    }
  }

  /** The loop only appends, and touches nothing else but the id counter; the catalogue changes only when a title was created. */
  lemma AddFrame(db: Db, specs: seq<string>, i: nat, pool: seq<string>,
    f: Option<CreateDoctorHandlers.DoctorFields>, prices: seq<int>, now: int)
    requires i <= |specs|
    ensures var r := AddFrom(db, specs, i, pool, f, prices, now);
      && r.db.(doctors := db.doctors, specialities := db.specialities, nextId := db.nextId) == db
      && |db.doctors| <= |r.db.doctors| && r.db.doctors[..|db.doctors|] == db.doctors
      && |db.specialities| <= |r.db.specialities| && r.db.specialities[..|db.specialities|] == db.specialities
      && (!r.created ==> r.db.specialities == db.specialities)
  {
    AddOthers(db, specs, i, pool, f, prices, now);
    AddCatalogue(db, specs, i, pool, f, prices, now);
    AddAppends(db, specs, i, pool, f, prices, now);
  }

  /** Run to the end, the loop records one id per title and writes one doctor row per title. */
  lemma {:induction false} AddCounts(db: Db, specs: seq<string>, i: nat, pool: seq<string>,
    f: Option<CreateDoctorHandlers.DoctorFields>, prices: seq<int>, now: int)
    requires i <= |specs|
    ensures var r := AddFrom(db, specs, i, pool, f, prices, now);
      r.done ==> |r.ids| == |specs| - i && |r.db.doctors| == |db.doctors| + (|specs| - i)
    decreases |specs| - i
  {
    if i < |specs| {
      var one := AddTitle(db, specs, i, pool, f, prices, now);
      AddFromStep(db, specs, i, pool, f, prices, now);
      AddTitleShape(db, specs, i, pool, f, prices, now);
      if one.done {
        AddCounts(one.db, specs, i + 1, pool, f, prices, now);
      }
    }
  }

  /** The loop keeps every catalogue row. */
  lemma {:induction false} AddKeeps(db: Db, specs: seq<string>, i: nat, pool: seq<string>,
    f: Option<CreateDoctorHandlers.DoctorFields>, prices: seq<int>, now: int, x: SpecialityRow)
    requires i <= |specs| && x in db.specialities
    ensures x in AddFrom(db, specs, i, pool, f, prices, now).db.specialities
  {
    AddAppends(db, specs, i, pool, f, prices, now);
    var r := AddFrom(db, specs, i, pool, f, prices, now);
    var k :| 0 <= k < |db.specialities| && db.specialities[k] == x;
    assert r.db.specialities[k] == r.db.specialities[..|db.specialities|][k];
  }

  /** Run to the end, the loop records for each title the id of a catalogue row with that title. */
  lemma {:induction false} AddIdAt(db: Db, specs: seq<string>, i: nat, pool: seq<string>,
    f: Option<CreateDoctorHandlers.DoctorFields>, prices: seq<int>, now: int, j: nat)
    requires i <= |specs|
    requires AddFrom(db, specs, i, pool, f, prices, now).done && j < |AddFrom(db, specs, i, pool, f, prices, now).ids|
    ensures i + j < |specs|
    ensures var r := AddFrom(db, specs, i, pool, f, prices, now); SpecialityRow(r.ids[j], specs[i + j]) in r.db.specialities
    decreases |specs| - i
  {
    var one := AddTitle(db, specs, i, pool, f, prices, now);
    AddTitleShape(db, specs, i, pool, f, prices, now);
    AddFromStep(db, specs, i, pool, f, prices, now);
    assert one.done;
    var r := AddFrom(db, specs, i, pool, f, prices, now);
    var rest := AddFrom(one.db, specs, i + 1, pool, f, prices, now);
    assert r.ids == one.ids + rest.ids && r.db == rest.db;
    if j == 0 {
      AddKeeps(one.db, specs, i + 1, pool, f, prices, now, SpecialityRow(one.ids[0], specs[i]));
    } else {
      AddIdAt(one.db, specs, i + 1, pool, f, prices, now, j - 1);
      assert r.ids[j] == rest.ids[j - 1];
    }
  }

  /** A position of a member of a sequence. */
  function IndexIn<T(==)>(s: seq<T>, x: T): (k: nat)
    requires x in s
    ensures k < |s| && s[k] == x
  {
    IndexOf(s, x)
  }

  /**
   * On a duplicate-free selection with one price per title, a card, and a
   * catalogue that has every title the pool has, the loop runs to the end.
   */
  lemma {:induction false} AddCompletes(db: Db, specs: seq<string>, i: nat, pool: seq<string>,
    f: CreateDoctorHandlers.DoctorFields, prices: seq<int>, now: int)
    requires i <= |specs| && NoDup(specs) && |prices| == |specs|
    requires forall k :: i <= k < |specs| && specs[k] in pool ==> specs[k] in Titles(db.specialities)
    ensures AddFrom(db, specs, i, pool, Some(f), prices, now).done
    decreases |specs| - i
  {
    if i < |specs| {
      IndexOfNoDup(specs, i);
      AddFromStep(db, specs, i, pool, Some(f), prices, now);
      AddTitleShape(db, specs, i, pool, Some(f), prices, now);
      var one := AddTitle(db, specs, i, pool, Some(f), prices, now);
      forall k | i + 1 <= k < |specs| && specs[k] in pool ensures specs[k] in Titles(one.db.specialities) {
        CreateDoctorHandlers.TitleGrows(db.specialities, one.db.specialities, specs[k]);
      }
      AddCompletes(one.db, specs, i + 1, pool, f, prices, now);
    }
  }

  /** One turn of the adding loop keeps its invariant, or ends the loop with the loop's outcome. */
  lemma AddLoopStep(db0: Db, specs: seq<string>, pool: seq<string>, f: Option<CreateDoctorHandlers.DoctorFields>,
    prices: seq<int>, now: int, db: Db, ids: seq<int>, created: bool, i: nat)
    requires i < |specs|
    requires AddFrom(db0, specs, 0, pool, f, prices, now) == After(ids, created, AddFrom(db, specs, i, pool, f, prices, now))
    ensures var one := AddTitle(db, specs, i, pool, f, prices, now);
      if one.done then
        AddFrom(db0, specs, 0, pool, f, prices, now) == After(ids + one.ids, created || one.created, AddFrom(one.db, specs, i + 1, pool, f, prices, now))
      else AddFrom(db0, specs, 0, pool, f, prices, now) == Added(one.db, ids + one.ids, created || one.created, false)
  {
    var one := AddTitle(db, specs, i, pool, f, prices, now);
    AfterTwice(ids, created, one.ids, one.created, AddFrom(one.db, specs, i + 1, pool, f, prices, now));
  }

  /**
   * The adding loop of `get_price`, one title at a time, from the database
   * `db0`; `r.db` is the database it leaves, also when it stops.
   */
  method AddLoop(db0: Db, specs: seq<string>, pool: seq<string>, f: Option<CreateDoctorHandlers.DoctorFields>,
    prices: seq<int>, now: int) returns (r: Added)
    ensures r == AddFrom(db0, specs, 0, pool, f, prices, now)
  {
    var db := db0;
    var ids: seq<int> := [];
    var created := false;
    var i := 0;
    while i < |specs|
      invariant 0 <= i <= |specs|
      invariant AddFrom(db0, specs, 0, pool, f, prices, now) == After(ids, created, AddFrom(db, specs, i, pool, f, prices, now))
    {
      var one := AddTitle(db, specs, i, pool, f, prices, now);
      AddLoopStep(db0, specs, pool, f, prices, now, db, ids, created, i);
      if !one.done {
        return Added(one.db, ids + one.ids, created || one.created, false);
      }
      db := one.db;
      ids := ids + one.ids;
      created := created || one.created;
      i := i + 1;
    }
    r := Added(db, ids, created, true);
  }

  /** The adding as the admin's last price starts it: a selection and, for a non-empty one, a pool are read first. */
  function AddRun(d: Scratch, db: Db, now: int): Added {
    if d.specialities.None? || (|d.specialities.value| > 0 && d.specialitiesPool.None?) then Added(db, [], false, false)
    else AddFrom(db, d.specialities.value, 0, CreateDoctorHandlers.PoolTitles(d),
      FieldsOfCard(d.chosenDoctor), CreateDoctorHandlers.PricesOf(d), now)
  }

  /** The card with the added specialities appended to its three lists. */
  function Appended(c: DoctorInfo, specs: seq<string>, prices: seq<int>, ids: seq<int>): (r: DoctorInfo)
    ensures Aligned(c) && |specs| == |prices| == |ids| ==> Aligned(r)
    ensures |r.speciality| == |c.speciality| + |specs| && |r.price| == |c.price| + |prices|
      && |r.specialityId| == |c.specialityId| + |ids|
    ensures r.speciality[..|c.speciality|] == c.speciality && r.speciality[|c.speciality|..] == specs
    ensures r.price[..|c.price|] == c.price && r.price[|c.price|..] == prices
    ensures r.specialityId[..|c.specialityId|] == c.specialityId && r.specialityId[|c.specialityId|..] == ids
  {
    c.(speciality := c.speciality + specs, price := c.price + prices, specialityId := c.specialityId + ids)
  }

  /** The card, the prices and the message are there, the section is the specialities: the loop's outcome can be stored. */
  predicate Storable(d: Scratch) {
    d.section == Some(Callbacks.Speciality) && d.chosenDoctor.Some? && d.prices.Some? && d.specialities.Some?
    && d.lastMsgId.Some?
  }

  /**
   * The admin's last price, from the in-memory data (with that price
   * recorded) `d`, the database and cache entries before (`db`, `e`), to
   * the state, data, database and entries after; `s` and `d0` are the
   * state and the data as stored before. The loop stopping early, a section
   * other than "speciality", a session without the card or the message, or
   * a failed refresh raises: what was written stays, the data are lost.
   * The picked speciality's id shares its key with the id list and goes
   * with it.
   */
  ghost predicate AddDone(d: Scratch, db: Db, e: map<Key, Entry>, up: bool, now: int,
    s': Option<St>, d': Scratch, db': Db, e': map<Key, Entry>, s: Option<St>, d0: Scratch)
  {
    var r := AddRun(d, db, now);
    var stored := r.done && Storable(d);
    && db' == r.db
    && (if stored && r.created && up then CreateDoctorHandlers.Refreshed(e, e', db') else e' == e)
    && if stored && (!r.created || up) then
        && s' == Some(UdAction)
        && d' == d.(chosenDoctor := Some(Appended(d.chosenDoctor.value, d.specialities.value, d.prices.value, r.ids)),
          noPrice := None, specialities := None, specialitiesPool := None, specialityIds := None, specialityId := None)
      else s' == s && d' == d0
  }

  /** The last price is in: the card is the invariant's, the section the specialities, one price per title. */
  predicate AddReady(d: Scratch) {
    && Card(d) && d.section == Some(Callbacks.Speciality)
    && d.specialities.Some? && d.prices.Some? && |d.prices.value| == |d.specialities.value|
  }

  /** The admin's side of the last price. */
  method AddAsAdmin(b: Bot, d: Scratch, now: int)
    requires b.state == Some(UdPrice)
    modifies b, b.cache
    ensures AddDone(d, old(b.db), old(b.cache.entries), b.cache.up, now,
      b.state, b.data, b.db, b.cache.entries, old(b.state), old(b.data))
    ensures b.deleted == old(b.deleted) && b.cache.up == old(b.cache.up)
    ensures var r := AddRun(d, old(b.db), now);
      old(CacheInv(b)) && (!r.created || (r.done && Storable(d))) ==> CacheInv(b)
    ensures UdInv(old(b.state), old(b.data)) && AddReady(d) ==> UdInv(b.state, b.data)
  {
    ghost var e0 := b.cache.entries;
    ghost var db0 := b.db;
    if d.specialities.None? || (|d.specialities.value| > 0 && d.specialitiesPool.None?) {
      return;
    }
    var specs := d.specialities.value;
    var pool := CreateDoctorHandlers.PoolTitles(d);
    var f := FieldsOfCard(d.chosenDoctor);
    var prices := CreateDoctorHandlers.PricesOf(d);
    var r := AddLoop(b.db, specs, pool, f, prices, now);
    b.db := r.db;
    AddFrame(db0, specs, 0, pool, f, prices, now);
    if !r.done || !Storable(d) {
      if !r.created && b.cache.up && CoherentWith(e0, db0) {
        CoherentAfterOtherWrite(e0, db0, b.db);
      }
      return;
    }
    var ok := SyncCatalogue(b.cache, db0, b.db, r.created);
    if !ok {
      return;
    }
    AddCounts(db0, specs, 0, pool, f, prices, now);
    b.data := d.(chosenDoctor := Some(Appended(d.chosenDoctor.value, specs, d.prices.value, r.ids)),
      noPrice := None, specialities := None, specialitiesPool := None, specialityIds := None, specialityId := None);
    b.state := Some(UdAction);
  }

  /** The data with a typed price recorded: `None` where the text is not a number or the price lists are missing. */
  function Recorded(d: Scratch, text: string): (r: Option<Scratch>)
    ensures r.Some? ==> CheckInteger(text)
  {
    if CheckInteger(text) then CreateDoctorHandlers.RecordPrice(d, ParseInt(text).value) else None
  }

  /**
   * The end of the price loop, from the state, data, database and cache
   * entries before (`s`, `d`, `db`, `e`; `d1` being the data with the last
   * price recorded) to those after: the session's user is checked against
   * the admins, read through the cache; an admin's titles are written (see
   * `AddDone`), a non-admin is sent to the client's main menu. The admins
   * entry is read before the session's user, so a session without the user
   * raises with the data unsaved and that entry filled.
   */
  ghost predicate PricesEnd(d: Scratch, d1: Scratch, master: int, db: Db, e: map<Key, Entry>, up: bool, now: int,
    s: Option<St>, s': Option<St>, d': Scratch, db': Db, e': map<Key, Entry>)
  {
    && (d.userUid.None? ==> s' == s && d' == d && db' == db && e' == Filled(e, up, db, AdminsKey))
    && (d.userUid.Some? ==>
      var admin := IsAdmin(d.userUid.value, master, Read(e, up, db, AdminsKey));
      var e1 := Filled(e, up, db, AdminsKey);
      && (!admin ==> s'.None? && d' == Empty && db' == db && e' == e1)
      && (admin ==> AddDone(d1, db, e1, up, now, s', d', db', e', s, d)))
  }

  /** After the last price, `d1` being the data with that price recorded (see `PricesEnd`). */
  method PricesDone(b: Bot, d1: Scratch, now: int)
    requires b.state == Some(UdPrice)
    modifies b, b.cache
    ensures b.cache.up == old(b.cache.up) && b.deleted == old(b.deleted)
    ensures PricesEnd(old(b.data), d1, b.master, old(b.db), old(b.cache.entries), b.cache.up, now,
      old(b.state), b.state, b.data, b.db, b.cache.entries)
    ensures var r := AddRun(d1, old(b.db), now);
      old(CacheInv(b)) && (!r.created || (r.done && Storable(d1))) ==> CacheInv(b)
    ensures UdInv(old(b.state), old(b.data)) && AddReady(d1) ==> UdInv(b.state, b.data)
  {
    ghost var e0 := b.cache.entries;
    var admins := b.cache.Get(b.db, AdminsKey);
    if b.cache.up && CoherentWith(e0, b.db) {
      ReadCoherent(e0, b.cache.up, b.db, AdminsKey);
    }
    if b.data.userUid.None? {
      return;
    }
    if !IsAdmin(b.data.userUid.value, b.master, admins) {
      b.Finish();
      return;
    }
    AddAsAdmin(b, d1, now);
  }

  /**
   * The typed price recorded for the next title: while titles are left the
   * data is kept with it, and after the last one the adding ends
   * (`PricesDone`).
   */
  method TakePrice(b: Bot, price: int, now: int)
    requires b.state == Some(UdPrice) && CreateDoctorHandlers.RecordPrice(b.data, price).Some?
    modifies b, b.cache
    ensures b.cache.up == old(b.cache.up) && b.deleted == old(b.deleted)
    ensures var d := old(b.data); var d1 := CreateDoctorHandlers.RecordPrice(d, price).value;
      |d1.noPrice.value| > 0 ==>
        && b.state == old(b.state) && b.db == old(b.db) && b.cache.entries == old(b.cache.entries)
        && b.data == (if d.userUid.Some? && d.lastMsgId.Some? then d1 else d)
    ensures var d := old(b.data); var d1 := CreateDoctorHandlers.RecordPrice(d, price).value;
      |d1.noPrice.value| == 0 ==>
        PricesEnd(d, d1, b.master, old(b.db), old(b.cache.entries), b.cache.up, now,
          old(b.state), b.state, b.data, b.db, b.cache.entries)
    ensures var d1 := CreateDoctorHandlers.RecordPrice(old(b.data), price).value; var r := AddRun(d1, old(b.db), now);
      old(CacheInv(b)) && (!r.created || (r.done && Storable(d1))) ==> CacheInv(b)
    ensures UdInv(old(b.state), old(b.data)) ==> UdInv(b.state, b.data)
  {
    var d := b.data;
    var d1 := CreateDoctorHandlers.RecordPrice(d, price).value;
    if UdInv(b.state, d) {
      CreateDoctorHandlers.RecordPriceStep(d, price);
    }
    if |d1.noPrice.value| > 0 {
      if d.userUid.Some? && d.lastMsgId.Some? {
        b.data := d1;
      }
      return;
    }
    if UdInv(b.state, d) {
      CreateDoctorHandlers.PriceLoopDone(d1);
      assert AddReady(d1);
    }
    PricesDone(b, d1, now);
  }

  /**
   * `get_price`: a text that is not a number is deleted and asked for
   * again. A number is recorded for the next title and the message deleted;
   * while titles are left the next one is asked for, and after the last one
   * the adding ends (`PricesDone`). A refused deletion, or a session
   * without the price lists, the user or the message, raises with the data
   * unsaved.
   */
  method GetPrice(b: Bot, text: string, msgId: int, now: int)
    requires b.state == Some(UdPrice)
    modifies b, b.cache
    ensures b.cache.up == old(b.cache.up)
    ensures !CheckInteger(text) ==>
      && b.state == old(b.state) && b.data == old(b.data) && b.db == old(b.db) && b.cache.entries == old(b.cache.entries)
      && b.deleted == old(b.deleted) + (if msgId in b.refused then [] else [msgId])
    ensures var rec := Recorded(old(b.data), text);
      CheckInteger(text) && (rec.None? || msgId in b.refused) ==>
        && b.state == old(b.state) && b.data == old(b.data) && b.db == old(b.db)
        && b.cache.entries == old(b.cache.entries) && b.deleted == old(b.deleted)
    ensures var d := old(b.data); var rec := Recorded(d, text);
      rec.Some? && msgId !in b.refused && |rec.value.noPrice.value| > 0 ==>
        && b.deleted == old(b.deleted) + [msgId]
        && b.state == old(b.state) && b.db == old(b.db) && b.cache.entries == old(b.cache.entries)
        && b.data == (if d.userUid.Some? && d.lastMsgId.Some? then rec.value else d)
    ensures var d := old(b.data); var rec := Recorded(d, text);
      rec.Some? && msgId !in b.refused && |rec.value.noPrice.value| == 0 ==>
        && b.deleted == old(b.deleted) + [msgId]
        && PricesEnd(d, rec.value, b.master, old(b.db), old(b.cache.entries), b.cache.up, now,
          old(b.state), b.state, b.data, b.db, b.cache.entries)
    ensures var rec := Recorded(old(b.data), text);
      old(CacheInv(b)) && (rec.Some? ==> var r := AddRun(rec.value, old(b.db), now); !r.created || (r.done && Storable(rec.value)))
      ==> CacheInv(b)
    ensures UdInv(old(b.state), old(b.data)) ==> UdInv(b.state, b.data)
  {
    var d := b.data;
    if !CheckInteger(text) {
      if msgId !in b.refused {
        b.deleted := b.deleted + [msgId];
      }
      return;
    }
    var rec := Recorded(d, text);
    if rec.None? || msgId in b.refused {
      return;
    }
    b.deleted := b.deleted + [msgId];
    TakePrice(b, ParseInt(text).value, now);
  }

  /**
   * What the adding delivers from the last price, when the catalogue still
   * has the pool's titles: the loop runs to the end, writes one row per
   * title, records for each title the id of a catalogue row with that
   * title, and the card keeps its three lists aligned.
   */
  lemma AddDelivers(d: Scratch, db: Db, now: int)
    requires AddReady(d) && d.specialitiesPool.Some? && NoDup(d.specialities.value)
    requires forall t :: t in Values(d.specialitiesPool.value) ==> t in Titles(db.specialities)
    ensures var r := AddRun(d, db, now); var specs := d.specialities.value;
      && r.done && |r.ids| == |specs|
      && |r.db.doctors| == |db.doctors| + |specs|
      && (forall k :: 0 <= k < |specs| ==> SpecialityRow(r.ids[k], specs[k]) in r.db.specialities)
      && Aligned(Appended(d.chosenDoctor.value, specs, d.prices.value, r.ids))
  {
    var specs := d.specialities.value;
    var f := FieldsOfCard(d.chosenDoctor).value;
    var pool := CreateDoctorHandlers.PoolTitles(d);
    AddCompletes(db, specs, 0, pool, f, d.prices.value, now);
    AddCounts(db, specs, 0, pool, Some(f), d.prices.value, now);
    forall k | 0 <= k < |specs| ensures SpecialityRow(AddRun(d, db, now).ids[k], specs[k]) in AddRun(d, db, now).db.specialities {
      AddIdAt(db, specs, 0, pool, Some(f), d.prices.value, now, k);
    }
  }
}
