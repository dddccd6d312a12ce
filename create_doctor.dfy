/**
 * `handlers/admin/create_doctor.py`: an admin picks the doctor's
 * specialities (from the catalogue, or typed in as new titles), answers the
 * questions of `FSMCreateDoctor` one by one, gives one price per speciality,
 * and confirms; the confirmation writes one doctor row per speciality and
 * creates the titles the catalogue lacked.
 */
module CreateDoctorHandlers {
  import opened Wrappers
  import opened PyText
  import opened PyInt
  import opened PyList
  import opened ODict
  import opened Db
  import opened Cache
  import Callbacks
  import opened Processing
  import opened Validation
  import opened Navigation
  import opened Fsm

  // ------------------------------------------------------------ flow invariant

  /** The selection stage: the pool behind the buttons, the chosen titles, the extra messages to clean up. */
  predicate Selecting(d: Scratch) {
    d.specialitiesPool.Some? && d.specialities.Some? && d.messagesToDel.Some?
  }

  /** After `get_specialities`: a non-empty selection without repeats. */
  predicate Selected(d: Scratch) {
    && d.specialitiesPool.Some? && d.specialities.Some?
    && |d.specialities.value| > 0 && NoDup(d.specialities.value)
  }

  /** The selection is made and the first `k` answers, in the order the flow asks for them, are in. */
  predicate Answered(d: Scratch, k: nat) {
    && Selected(d)
    && (k >= 1 ==> d.name.Some?)
    && (k >= 2 ==> d.photo.Some?)
    && (k >= 3 ==> d.description.Some?)
    && (k >= 4 ==> d.experience.Some?)
    && (k >= 5 ==> d.scienceDegree.Some?)
    && (k >= 6 ==> d.qualCategory.Some?)
  }

  /** The price loop: `price` holds the prices of the first specialities, `no_price` the ones still without. */
  predicate PriceLoop(d: Scratch) {
    && d.specialities.Some? && d.prices.Some? && d.noPrice.Some?
    && |d.prices.value| + |d.noPrice.value| == |d.specialities.value|
    && d.noPrice.value == d.specialities.value[|d.prices.value|..]
  }

  /** What the scratch data holds in each state of `FSMCreateDoctor`. */
  predicate CdInv(s: Option<St>, d: Scratch) {
    match s
    case Some(CdSpeciality) => Selecting(d)
    case Some(CdName) => Answered(d, 0)
    case Some(CdPhoto) => Answered(d, 1)
    case Some(CdDescription) => Answered(d, 2)
    case Some(CdExperienceChoice) => Answered(d, 3)
    case Some(CdExperience) => Answered(d, 3)
    case Some(CdScienceDegree) => Answered(d, 4)
    case Some(CdQualCategory) => Answered(d, 5)
    case Some(CdPrice) => Answered(d, 6) && PriceLoop(d) && |d.noPrice.value| > 0
    case Some(CdConfirmation) => Answered(d, 6) && PriceLoop(d) && d.noPrice.value == []
    case _ => true
  }

  /** `FSMCreateDoctor.next()` from each state the handlers call it in. */
  lemma Steps()
    ensures Next(CreateDoctorFlow, Some(CdSpeciality)) == Some(CdName)
    ensures Next(CreateDoctorFlow, Some(CdName)) == Some(CdPhoto)
    ensures Next(CreateDoctorFlow, Some(CdPhoto)) == Some(CdDescription)
    ensures Next(CreateDoctorFlow, Some(CdDescription)) == Some(CdExperienceChoice)
    ensures Next(CreateDoctorFlow, Some(CdExperienceChoice)) == Some(CdExperience)
    ensures Next(CreateDoctorFlow, Some(CdExperience)) == Some(CdScienceDegree)
    ensures Next(CreateDoctorFlow, Some(CdScienceDegree)) == Some(CdQualCategory)
    ensures Next(CreateDoctorFlow, Some(CdQualCategory)) == Some(CdPrice)
    ensures Next(CreateDoctorFlow, Some(CdPrice)) == Some(CdConfirmation)
  {
  }

  // ------------------------------------------------------------ the selection

  /**
   * `create_doctor`, also behind the "change choice" button: from any state
   * the session is finished; an admin gets the catalogue's titles as the
   * pool, keyed `'0'`, `'1'`, ... as the store returns them, and nothing chosen.
   */
  method Start(b: Bot, uid: int, msgId: int) returns (admin: bool)
    modifies b, b.cache
    ensures admin == IsAdmin(uid, b.master, Read(old(b.cache.entries), b.cache.up, old(b.db), AdminsKey))
    ensures b.cache.entries == Filled(old(b.cache.entries), b.cache.up, old(b.db), AdminsKey) && b.cache.up == old(b.cache.up)
    ensures b.db == old(b.db) && b.deleted == old(b.deleted)
    ensures admin ==> b.state == Some(CdSpeciality) && b.data == Empty.(
      lastMsgId := Some(msgId), userUid := Some(uid),
      specialitiesPool := Some(Enumerate(SpecialityTitles(b.db))),
      specialities := Some([]), messagesToDel := Some([]))
    ensures !admin ==> b.state.None? && b.data == Empty
    ensures CdInv(b.state, b.data)
  {
    b.Finish();
    admin := AdminCheck(b, uid);
    if admin {
      b.state := Some(CdSpeciality);
      b.data := b.data.(
        lastMsgId := Some(msgId), userUid := Some(uid),
        specialitiesPool := Some(Enumerate(SpecialityTitles(b.db))),
        specialities := Some([]), messagesToDel := Some([]));
    }
  }

  /** The title a speciality button names: `None` where `split(':')[1]` or the pool lookup raises. */
  function PoolTitle(d: Scratch, callbackData: string): (r: Option<string>)
    ensures r.Some? ==> d.specialitiesPool.Some? && Callbacks.Field(callbackData, 1).Some?
    ensures r.Some? ==> Get(d.specialitiesPool.value, Callbacks.Field(callbackData, 1).value) == r
  {
    match Callbacks.Field(callbackData, 1)
    case None => None
    case Some(key) => if d.specialitiesPool.None? then None else Get(d.specialitiesPool.value, key)
  }

  /** `choose_specialities`: the button's title leaves the selection when chosen and joins it otherwise. */
  method ChooseSpeciality(b: Bot, callbackData: string)
    requires b.state == Some(CdSpeciality)
    modifies b
    ensures b.state == old(b.state) && b.db == old(b.db) && b.deleted == old(b.deleted)
    ensures var d := old(b.data); var t := PoolTitle(d, callbackData);
      if t.Some? && d.specialities.Some? then
        b.data == d.(specialities := Some(Toggle(d.specialities.value, t.value)))
      else b.data == d
    ensures CdInv(old(b.state), old(b.data)) ==> CdInv(b.state, b.data)
  {
    var t := PoolTitle(b.data, callbackData);
    if t.Some? && b.data.specialities.Some? {
      b.data := b.data.(specialities := Some(Toggle(b.data.specialities.value, t.value)));
    }
  }

  /** `create_new_specialities`: the prompt for new titles is deleted with the selection. */
  method CreateNewSpecialities(b: Bot, sentId: int)
    requires b.state == Some(CdSpeciality)
    modifies b
    ensures b.state == old(b.state) && b.db == old(b.db) && b.deleted == old(b.deleted)
    ensures old(b.data).messagesToDel.Some? ==>
      b.data == old(b.data).(messagesToDel := Some(old(b.data).messagesToDel.value + [sentId]))
    ensures old(b.data).messagesToDel.None? ==> b.data == old(b.data)
    ensures CdInv(old(b.state), old(b.data)) ==> CdInv(b.state, b.data)
  {
    if b.data.messagesToDel.Some? {
      b.data := b.data.(messagesToDel := Some(b.data.messagesToDel.value + [sentId]));
    }
  }

  /** The typed titles the pool lacks, in the order typed; a title already in the pool is picked by its button instead. */
  function Unlisted(typed: seq<string>, pool: seq<string>): seq<string> {
    if |typed| == 0 then []
    else
      var last := typed[|typed| - 1];
      Unlisted(typed[..|typed| - 1], pool) + (if last in pool then [] else [last])
  }

  /** `Unlisted` keeps exactly the typed titles outside the pool, and never more titles than were typed. */
  lemma {:induction false} UnlistedMembers(typed: seq<string>, pool: seq<string>)
    ensures forall t :: t in Unlisted(typed, pool) <==> t in typed && t !in pool
    ensures |Unlisted(typed, pool)| <= |typed|
    decreases |typed|
  {
    if |typed| > 0 {
      var last := typed[|typed| - 1];
      assert typed == typed[..|typed| - 1] + [last];
      UnlistedMembers(typed[..|typed| - 1], pool);
    }
  }

  /**
   * `get_new_specialities`: the message is cut into titles with
   * `process_input` (nothing happens where it raises), the titles not in the
   * pool are appended to the selection, and the message joins the ones to delete.
   */
  method GetNewSpecialities(b: Bot, text: string, msgId: int)
    requires b.state == Some(CdSpeciality)
    modifies b
    ensures b.state == old(b.state) && b.db == old(b.db) && b.deleted == old(b.deleted)
    ensures var d := old(b.data); var typed := ProcessInput(text, ',');
      if typed.Some? && Selecting(d) then
        b.data == d.(
          specialities := Some(d.specialities.value + Unlisted(typed.value, Values(d.specialitiesPool.value))),
          messagesToDel := Some(d.messagesToDel.value + [msgId]))
      else b.data == d
    ensures CdInv(old(b.state), old(b.data)) ==> CdInv(b.state, b.data)
  {
    var typed := ProcessInput(text, ',');
    if typed.None? {
      return;
    }
    AddTitles(b, typed.value, msgId);
  }

  /** Appends the typed titles the pool lacks to the selection, and the message to the ones to delete. */
  method AddTitles(b: Bot, ws: seq<string>, msgId: int)
    modifies b
    ensures b.state == old(b.state) && b.db == old(b.db) && b.deleted == old(b.deleted)
    ensures var d := old(b.data);
      if Selecting(d) then
        b.data == d.(
          specialities := Some(d.specialities.value + Unlisted(ws, Values(d.specialitiesPool.value))),
          messagesToDel := Some(d.messagesToDel.value + [msgId]))
      else b.data == d
    ensures Selecting(old(b.data)) ==> Selecting(b.data)
  {
    var d := b.data;
    if !Selecting(d) {
      return;
    }
    var chosen := AppendUnlisted(d.specialities.value, ws, Values(d.specialitiesPool.value));
    b.data := d.(specialities := Some(chosen), messagesToDel := Some(d.messagesToDel.value + [msgId]));
  }

  /** The loop of `get_new_specialities`: each typed title the pool lacks is appended, in the order typed. */
  method AppendUnlisted(chosen0: seq<string>, ws: seq<string>, pool: seq<string>) returns (chosen: seq<string>)
    ensures chosen == chosen0 + Unlisted(ws, pool)
  {
    chosen := chosen0;
    var i := 0;
    while i < |ws|
      invariant 0 <= i <= |ws|
      invariant chosen == chosen0 + Unlisted(ws[..i], pool)
    {
      assert ws[..i + 1][..i] == ws[..i];
      if ws[i] !in pool {
        chosen := chosen + [ws[i]];
      }
      i := i + 1;
    }
    assert ws[..i] == ws;
  }

  /**
   * `get_specialities`: an empty selection keeps the user choosing. Otherwise
   * the selection loses its repeats (`list(set(...))`, in some order), the
   * extra messages are deleted, and the flow moves on to the name; the deletion
   * loop has no `try`, so a refused deletion ends the handler with the data
   * unsaved and the state unchanged.
   */
  method GetSpecialities(b: Bot)
    requires b.state == Some(CdSpeciality)
    modifies b
    ensures b.db == old(b.db)
    ensures var d := old(b.data);
      d.specialities.None? || |d.specialities.value| == 0 || d.messagesToDel.None? ==>
        b.state == old(b.state) && b.data == d && b.deleted == old(b.deleted)
    ensures var d := old(b.data);
      d.specialities.Some? && |d.specialities.value| > 0 && d.messagesToDel.Some? ==>
        var ids := d.messagesToDel.value;
        && b.deleted == old(b.deleted) + DeletedUntilFailure(ids, b.refused)
        && (|DeletedUntilFailure(ids, b.refused)| < |ids| ==> b.state == old(b.state) && b.data == d)
        && (|DeletedUntilFailure(ids, b.refused)| == |ids| ==>
          && b.state == Some(CdName)
          && b.data.specialities.Some? && IsDedupOf(b.data.specialities.value, d.specialities.value)
          && b.data == d.(specialities := b.data.specialities, messagesToDel := Some([])))
    ensures CdInv(old(b.state), old(b.data)) ==> CdInv(b.state, b.data)
  {
    var d := b.data;
    if d.specialities.None? || |d.specialities.value| == 0 {
      return;
    }
    assert IsDedupOf(Dedup(d.specialities.value), d.specialities.value);
    var chosen :| IsDedupOf(chosen, d.specialities.value);
    DedupNonEmpty(chosen, d.specialities.value);
    if d.messagesToDel.None? {
      return;
    }
    var ids := d.messagesToDel.value;
    b.DeleteUntilFailure(ids);
    if |DeletedUntilFailure(ids, b.refused)| < |ids| {
      return;
    }
    b.data := d.(specialities := Some(chosen), messagesToDel := Some([]));
    b.state := Next(CreateDoctorFlow, b.state);
  }

  // ------------------------------------------------------------ the answers

  /**
   * `get_name`: the words of the message, capitalised and joined by one
   * space. The answer is deleted inside the proxy after the name is put
   * there, so a refused deletion raises with the name unsaved.
   */
  method GetName(b: Bot, text: string, answerId: int)
    requires b.state == Some(CdName)
    modifies b
    ensures b.db == old(b.db)
    ensures ProcessInput(text, ' ').None? || answerId in b.refused ==>
      b.state == old(b.state) && b.data == old(b.data) && b.deleted == old(b.deleted)
    ensures ProcessInput(text, ' ').Some? && answerId !in b.refused ==>
      && b.deleted == old(b.deleted) + [answerId]
      && b.state == Some(CdPhoto) && b.data == old(b.data).(name := Some(Join(ProcessInput(text, ' ').value, " ")))
    ensures CdInv(old(b.state), old(b.data)) ==> CdInv(b.state, b.data)
  {
    var words := ProcessInput(text, ' ');
    if words.None? {
      return;
    }
    StoreText(b, Join(words.value, " "), answerId);
  }

  /**
   * Stores a text answer, the name or the description, deletes the answer
   * and opens the question after it; a refused deletion discards the answer.
   */
  method StoreText(b: Bot, v: string, answerId: int)
    requires b.state == Some(CdName) || b.state == Some(CdDescription)
    modifies b
    ensures b.db == old(b.db)
    ensures answerId in b.refused ==> b.state == old(b.state) && b.data == old(b.data) && b.deleted == old(b.deleted)
    ensures answerId !in b.refused ==> b.deleted == old(b.deleted) + [answerId]
    ensures answerId !in b.refused && old(b.state) == Some(CdName) ==>
      b.state == Some(CdPhoto) && b.data == old(b.data).(name := Some(v))
    ensures answerId !in b.refused && old(b.state) == Some(CdDescription) ==>
      b.state == Some(CdExperienceChoice) && b.data == old(b.data).(description := Some(v))
    ensures CdInv(old(b.state), old(b.data)) ==> CdInv(b.state, b.data)
  {
    if answerId in b.refused {
      return;
    }
    b.deleted := b.deleted + [answerId];
    Steps();
    if b.state == Some(CdName) {
      b.data := b.data.(name := Some(v));
    } else {
      b.data := b.data.(description := Some(v));
    }
    b.state := Next(CreateDoctorFlow, b.state);
  }

  /**
   * `get_photo`: the answer is deleted in either case. Anything but a
   * document is then asked for again; a document is stored under a fresh
   * file name, and the name without its extension becomes the doctor's
   * photo id. A refused deletion raises: for a document, with the photo id
   * unsaved.
   */
  method GetPhoto(b: Bot, isDocument: bool, freshName: string, answerId: int)
    requires b.state == Some(CdPhoto)
    modifies b
    ensures b.db == old(b.db)
    ensures answerId in b.refused ==> b.state == old(b.state) && b.data == old(b.data) && b.deleted == old(b.deleted)
    ensures answerId !in b.refused ==> b.deleted == old(b.deleted) + [answerId]
    ensures answerId !in b.refused && !isDocument ==> b.state == old(b.state) && b.data == old(b.data)
    ensures answerId !in b.refused && isDocument ==>
      b.state == Some(CdDescription) && b.data == old(b.data).(photo := Some(freshName))
    ensures CdInv(old(b.state), old(b.data)) ==> CdInv(b.state, b.data)
  {
    if answerId in b.refused {
      return;
    }
    b.deleted := b.deleted + [answerId];
    if !isDocument {
      return;
    }
    b.data := b.data.(photo := Some(freshName));
    b.state := Next(CreateDoctorFlow, b.state);
  }

  /** `get_description`: the comma-separated parts, capitalised and joined by `", "`; the answer is deleted as in `get_name`. */
  method GetDescription(b: Bot, text: string, answerId: int)
    requires b.state == Some(CdDescription)
    modifies b
    ensures b.db == old(b.db)
    ensures ProcessInput(text, ',').None? || answerId in b.refused ==>
      b.state == old(b.state) && b.data == old(b.data) && b.deleted == old(b.deleted)
    ensures ProcessInput(text, ',').Some? && answerId !in b.refused ==>
      && b.deleted == old(b.deleted) + [answerId]
      && b.state == Some(CdExperienceChoice)
      && b.data == old(b.data).(description := Some(Join(ProcessInput(text, ',').value, ", ")))
    ensures CdInv(old(b.state), old(b.data)) ==> CdInv(b.state, b.data)
  {
    var parts := ProcessInput(text, ',');
    if parts.None? {
      return;
    }
    StoreText(b, Join(parts.value, ", "), answerId);
  }

  /** `get_experience_choice`: "yes" asks for the years; any other answer records none and skips to the degree. */
  method GetExperienceChoice(b: Bot, callbackData: string)
    requires b.state == Some(CdExperienceChoice)
    modifies b
    ensures b.db == old(b.db) && b.deleted == old(b.deleted)
    ensures Callbacks.Field(callbackData, 1).None? ==> b.state == old(b.state) && b.data == old(b.data)
    ensures Callbacks.Field(callbackData, 1) == Some(Callbacks.Yes) ==> b.state == Some(CdExperience) && b.data == old(b.data)
    ensures Callbacks.Field(callbackData, 1).Some? && Callbacks.Field(callbackData, 1) != Some(Callbacks.Yes) ==>
      b.state == Some(CdScienceDegree) && b.data == old(b.data).(experience := Some(None))
    ensures CdInv(old(b.state), old(b.data)) ==> CdInv(b.state, b.data)
  {
    var answer := Callbacks.Field(callbackData, 1);
    if answer.None? {
      return;
    }
    if answer.value == Callbacks.Yes {
      b.state := Next(CreateDoctorFlow, b.state);
    } else {
      b.data := b.data.(experience := Some(None));
      b.state := Some(CdScienceDegree);
    }
  }

  /**
   * `get_experience`: a text `int()` refuses is deleted and asked for again.
   * An accepted number of years is saved first, and the answer is deleted
   * after the proxy closes: a refused deletion then raises with the years
   * kept but the state not moved on.
   */
  method GetExperience(b: Bot, text: string, answerId: int)
    requires b.state == Some(CdExperience)
    modifies b
    ensures b.db == old(b.db)
    ensures b.deleted == old(b.deleted) + (if answerId in b.refused then [] else [answerId])
    ensures !CheckInteger(text) ==> b.state == old(b.state) && b.data == old(b.data)
    ensures CheckInteger(text) ==> ParseInt(text).Some?
    ensures CheckInteger(text) ==>
      && b.data == old(b.data).(experience := Some(Some(ParseInt(text).value)))
      && b.state == (if answerId in b.refused then old(b.state) else Some(CdScienceDegree))
    ensures CdInv(old(b.state), old(b.data)) ==> CdInv(b.state, b.data)
  {
    var years := ParseInt(text);
    if years.None? {
      if answerId !in b.refused {
        b.deleted := b.deleted + [answerId];
      }
      return;
    }
    var d0 := b.data;
    b.data := d0.(experience := Some(Some(years.value)));
    assert Answered(d0, 3) ==> Answered(b.data, 4);
    if answerId in b.refused {
      return;
    }
    b.deleted := b.deleted + [answerId];
    b.state := Some(CdScienceDegree);
  }

  /** A degree or category button: "no specification" stands for `None`. */
  function Specified(v: string): (r: Option<string>)
    ensures r.None? <==> v == Callbacks.NoSpecification
    ensures r.Some? ==> r.value == v
  {
    if v == Callbacks.NoSpecification then None else Some(v)
  }

  /** `get_science_degree`. */
  method GetScienceDegree(b: Bot, callbackData: string)
    requires b.state == Some(CdScienceDegree)
    modifies b
    ensures b.db == old(b.db) && b.deleted == old(b.deleted)
    ensures Callbacks.Field(callbackData, 1).None? ==> b.state == old(b.state) && b.data == old(b.data)
    ensures Callbacks.Field(callbackData, 1).Some? ==>
      b.state == Some(CdQualCategory) && b.data == old(b.data).(scienceDegree := Some(Specified(Callbacks.Field(callbackData, 1).value)))
    ensures CdInv(old(b.state), old(b.data)) ==> CdInv(b.state, b.data)
  {
    var v := Callbacks.Field(callbackData, 1);
    if v.None? {
      return;
    }
    b.data := b.data.(scienceDegree := Some(Specified(v.value)));
    b.state := Next(CreateDoctorFlow, b.state);
  }

  /**
   * `get_qual_category`: records the category and opens the price loop with
   * every chosen speciality still without a price. The state moves on inside
   * the proxy, so a missing or empty selection (`no_price[0]` raises) leaves
   * the state moved and the data unsaved.
   */
  method GetQualCategory(b: Bot, callbackData: string)
    requires b.state == Some(CdQualCategory)
    modifies b
    ensures b.db == old(b.db) && b.deleted == old(b.deleted)
    ensures Callbacks.Field(callbackData, 1).None? ==> b.state == old(b.state) && b.data == old(b.data)
    ensures Callbacks.Field(callbackData, 1).Some? ==> b.state == Some(CdPrice)
    ensures var d := old(b.data); Callbacks.Field(callbackData, 1).Some? ==>
      if d.specialities.Some? && |d.specialities.value| > 0 then
        b.data == d.(qualCategory := Some(Specified(Callbacks.Field(callbackData, 1).value)),
          prices := Some([]), noPrice := d.specialities)
      else b.data == d
    ensures CdInv(old(b.state), old(b.data)) ==> CdInv(b.state, b.data)
  {
    var v := Callbacks.Field(callbackData, 1);
    if v.None? {
      return;
    }
    b.state := Next(CreateDoctorFlow, b.state);
    var d := b.data;
    if d.specialities.None? || |d.specialities.value| == 0 {
      return;
    }
    b.data := d.(qualCategory := Some(Specified(v.value)), prices := Some([]), noPrice := d.specialities);
  }

  /** One step of the price loop: the price goes to the first speciality still without one. */
  function RecordPrice(d: Scratch, price: int): (r: Option<Scratch>)
    ensures r.Some? <==> d.prices.Some? && d.noPrice.Some? && |d.noPrice.value| > 0
  {
    if d.prices.None? || d.noPrice.None? || |d.noPrice.value| == 0 then None
    else Some(d.(prices := Some(d.prices.value + [price]), noPrice := Some(d.noPrice.value[1..])))
  }

  /** A step of the loop gives one more speciality its price, the next one still without. */
  lemma RecordPriceStep(d: Scratch, price: int)
    requires PriceLoop(d) && |d.noPrice.value| > 0
    ensures var r := RecordPrice(d, price);
      && r.Some? && PriceLoop(r.value)
      && r.value.prices.value == d.prices.value + [price]
      && |r.value.prices.value| == |d.prices.value| + 1
      && r.value.specialities == d.specialities
  {
    var r := RecordPrice(d, price).value;
    assert r.noPrice.value == d.specialities.value[|d.prices.value| + 1..];
  }

  /** After the last price the loop has given every speciality its price, in the order chosen. */
  lemma PriceLoopDone(d: Scratch)
    requires PriceLoop(d) && d.noPrice.value == []
    ensures |d.prices.value| == |d.specialities.value|
  {
  }

  lemma PriceKeepsInv(d: Scratch, price: int, sentId: int)
    requires CdInv(Some(CdPrice), d)
    ensures RecordPrice(d, price).Some?
    ensures var e := RecordPrice(d, price).value;
      if |e.noPrice.value| > 0 then CdInv(Some(CdPrice), e) else CdInv(Some(CdConfirmation), e.(lastMsgId := Some(sentId)))
  {
    RecordPriceStep(d, price);
  }

  /** The summary card can be sent: the prompt it replaces is deleted, and the doctor's photo file opens. */
  predicate CardSendable(d: Scratch, refused: set<int>, noFile: set<string>) {
    && d.lastMsgId.Some? && d.lastMsgId.value !in refused
    && d.photo.Some? && d.photo.value !in noFile
  }

  /**
   * `get_price`: a text `int()` refuses is deleted and asked for again. A
   * price goes to the next speciality and the answer is deleted, inside the
   * proxy; after the last one the prompt is deleted too and the summary card
   * with the doctor's photo (`noFile`: the photos whose file does not open)
   * replaces it, and the flow moves on to the confirmation. A missing price
   * list raises before any deletion; a refused deletion or a missing photo
   * raises with the price unsaved.
   */
  method GetPrice(b: Bot, text: string, answerId: int, sentId: int, noFile: set<string>)
    requires b.state == Some(CdPrice)
    modifies b
    ensures b.db == old(b.db)
    ensures !CheckInteger(text) ==>
      && b.state == old(b.state) && b.data == old(b.data)
      && b.deleted == old(b.deleted) + (if answerId in b.refused then [] else [answerId])
    ensures CheckInteger(text) ==> StoredPrice(old(b.data), ParseInt(text).value, answerId, sentId, noFile,
      old(b.state), old(b.deleted), b.refused, b.state, b.data, b.deleted)
    ensures CdInv(old(b.state), old(b.data)) ==> CdInv(b.state, b.data)
  {
    if !CheckInteger(text) {
      if answerId !in b.refused {
        b.deleted := b.deleted + [answerId];
      }
      return;
    }
    StorePrice(b, ParseInt(text).value, answerId, sentId, noFile);
  }

  /** What recording one price leaves: state `s`, data `d` and deletions `del` before; `s'`, `d'` and `del'` after. */
  predicate StoredPrice(d: Scratch, price: int, answerId: int, sentId: int, noFile: set<string>,
    s: Option<St>, del: seq<int>, refused: set<int>, s': Option<St>, d': Scratch, del': seq<int>)
  {
    var r := RecordPrice(d, price);
    if r.None? || answerId in refused then s' == s && d' == d && del' == del
    else if |r.value.noPrice.value| > 0 then s' == s && d' == r.value && del' == del + [answerId]
    else if !CardSendable(d, refused, noFile) then
      && s' == s && d' == d
      && del' == del + [answerId] + (if d.lastMsgId.Some? && d.lastMsgId.value !in refused then [d.lastMsgId.value] else [])
    else s' == Some(CdConfirmation) && d' == r.value.(lastMsgId := Some(sentId)) && del' == del + [answerId, d.lastMsgId.value]
  }

  /** Records one price: the body of `get_price` past the `int()` check. */
  method StorePrice(b: Bot, price: int, answerId: int, sentId: int, noFile: set<string>)
    requires b.state == Some(CdPrice)
    modifies b
    ensures b.db == old(b.db)
    ensures StoredPrice(old(b.data), price, answerId, sentId, noFile, old(b.state), old(b.deleted), b.refused, b.state, b.data, b.deleted)
    ensures CdInv(old(b.state), old(b.data)) ==> CdInv(b.state, b.data)
  {
    var d := RecordPrice(b.data, price);
    if d.None? || answerId in b.refused {
      return;
    }
    b.deleted := b.deleted + [answerId];
    if CdInv(b.state, b.data) {
      PriceKeepsInv(b.data, price, sentId);
    }
    if |d.value.noPrice.value| > 0 {
      b.data := d.value;
      return;
    }
    var last := b.data.lastMsgId;
    if last.None? || last.value in b.refused {
      return;
    }
    b.deleted := b.deleted + [last.value];
    if b.data.photo.None? || b.data.photo.value in noFile {
      return;
    }
    b.data := d.value.(lastMsgId := Some(sentId));
    Steps();
    b.state := Next(CreateDoctorFlow, b.state);
  }

  // ------------------------------------------------------------ the confirmation

  /** The doctor's own columns, as the session holds them. */
  datatype DoctorFields = DoctorFields(
    name: string, photo: string, description: string,
    experience: Option<int>, scienceDegree: Option<string>, qualCategory: Option<string>)

  /** The columns the confirmation reads: `None` where one of the keys is missing. */
  function FieldsOf(d: Scratch): (r: Option<DoctorFields>)
    ensures Answered(d, 6) ==> r.Some?
    ensures r.Some? <==> (d.name.Some? && d.photo.Some? && d.description.Some?
      && d.experience.Some? && d.scienceDegree.Some? && d.qualCategory.Some?)
  {
    if d.name.Some? && d.photo.Some? && d.description.Some? && d.experience.Some?
      && d.scienceDegree.Some? && d.qualCategory.Some?
    then Some(DoctorFields(d.name.value, d.photo.value, d.description.value,
      d.experience.value, d.scienceDegree.value, d.qualCategory.value))
    else None
  }

  /** The titles of the pool (`specialities_pool.values()`). */
  function PoolTitles(d: Scratch): seq<string> {
    if d.specialitiesPool.Some? then Values(d.specialitiesPool.value) else []
  }

  /** The price list (`price`): a missing one fails every lookup, as the `KeyError` does. */
  function PricesOf(d: Scratch): seq<int> {
    if d.prices.Some? then d.prices.value else []
  }

  /** `create_doctor` for one speciality. */
  function AddDoctor(db: Db, f: DoctorFields, title: string, price: int, now: int): Db {
    CreateDoctor(db, f.name, f.photo, f.description, title, f.experience, f.scienceDegree, f.qualCategory, price, now)
  }

  /** The confirmation loop's outcome: the database, whether it created a title, whether it ran to the end. */
  datatype Run = Run(db: Db, created: bool, done: bool)

  /** The catalogue before a title's row: the title is created where the pool lacks it. */
  function Catalogued(db: Db, title: string, pool: seq<string>): Db {
    if title in pool then db else CreateSpeciality(db, title)
  }

  /**
   * The confirmation loop from the `i`-th chosen speciality on: a title the
   * pool lacks is created first; then the doctor row goes in, with the price
   * at the title's first position (`price[specialities.index(title)]`). A
   * missing key or a missing price ends the loop, after the title was created.
   */
  function ConfirmFrom(db: Db, specs: seq<string>, i: nat, pool: seq<string>, f: Option<DoctorFields>, prices: seq<int>, now: int): Run
    requires i <= |specs|
    decreases |specs| - i
  {
    if i == |specs| then Run(db, false, true)
    else
      var title := specs[i];
      var db1 := Catalogued(db, title, pool);
      var k := IndexOf(specs, title);
      if f.None? || k >= |prices| then Run(db1, title !in pool, false)
      else
        var rest := ConfirmFrom(AddDoctor(db1, f.value, title, prices[k], now), specs, i + 1, pool, f, prices, now);
        Run(rest.db, title !in pool || rest.created, rest.done)
  }

  /**
   * The loop touches only the doctors, the catalogue and the id counter; it
   * appends to both tables, and the catalogue changes only when a title was
   * created, which happens only for a title the pool lacks.
   */
  lemma {:induction false} ConfirmFrame(db: Db, specs: seq<string>, i: nat, pool: seq<string>, f: Option<DoctorFields>, prices: seq<int>, now: int)
    requires i <= |specs|
    ensures var r := ConfirmFrom(db, specs, i, pool, f, prices, now);
      && r.db.(doctors := db.doctors, specialities := db.specialities, nextId := db.nextId) == db
      && |db.doctors| <= |r.db.doctors| && r.db.doctors[..|db.doctors|] == db.doctors
      && |db.specialities| <= |r.db.specialities| && r.db.specialities[..|db.specialities|] == db.specialities
      && (!r.created ==> r.db.specialities == db.specialities)
      && (r.created ==> exists k :: i <= k < |specs| && specs[k] !in pool)
    decreases |specs| - i
  {
    if i < |specs| {
      var title := specs[i];
      var db1 := Catalogued(db, title, pool);
      var k := IndexOf(specs, title);
      if f.Some? && k < |prices| {
        var db2 := AddDoctor(db1, f.value, title, prices[k], now);
        ConfirmFrame(db2, specs, i + 1, pool, f, prices, now);
        var rest := ConfirmFrom(db2, specs, i + 1, pool, f, prices, now);
        assert rest.db.doctors[..|db.doctors|] == rest.db.doctors[..|db2.doctors|][..|db.doctors|];
        assert rest.db.specialities[..|db.specialities|] == rest.db.specialities[..|db1.specialities|][..|db.specialities|];
      }
    }
  }

  /** The loop runs to the end exactly when the columns are there and every chosen title finds its price. */
  lemma {:induction false} ConfirmDone(db: Db, specs: seq<string>, i: nat, pool: seq<string>, f: Option<DoctorFields>, prices: seq<int>, now: int)
    requires i <= |specs|
    ensures ConfirmFrom(db, specs, i, pool, f, prices, now).done <==>
      i == |specs| || (f.Some? && forall k :: i <= k < |specs| ==> IndexOf(specs, specs[k]) < |prices|)
    decreases |specs| - i
  {
    if i < |specs| {
      var title := specs[i];
      var k := IndexOf(specs, title);
      if f.Some? && k < |prices| {
        var db2 := AddDoctor(Catalogued(db, title, pool), f.value, title, prices[k], now);
        ConfirmDone(db2, specs, i + 1, pool, f, prices, now);
        assert ConfirmFrom(db, specs, i, pool, f, prices, now).done == ConfirmFrom(db2, specs, i + 1, pool, f, prices, now).done;
      } else {
        assert !ConfirmFrom(db, specs, i, pool, f, prices, now).done;
        if f.Some? {
          assert IndexOf(specs, specs[i]) >= |prices|;
        }
      }
    }
  }

  /** The row written for one speciality carries the doctor's columns, that speciality's price and the write's time. */
  predicate RowOf(x: DoctorRow, f: DoctorFields, price: int, now: int) {
    && x.fullName == f.name && x.photo == f.photo && x.description == f.description
    && x.experience == f.experience && x.scienceDegree == f.scienceDegree && x.qualCategory == f.qualCategory
    && x.price == price && x.dt == now
  }

  /** A row's speciality id points to a catalogue row with the title it was written for. */
  predicate Linked(x: DoctorRow, title: string, cat: seq<SpecialityRow>) {
    x.specialityId.Some? ==> SpecialityRow(x.specialityId.value, title) in cat
  }

  /**
   * On a duplicate-free selection with one price per title the loop runs to
   * the end, writes one row per chosen speciality, and creates a title
   * exactly when the pool lacked one.
   */
  lemma {:induction false} ConfirmShape(db: Db, specs: seq<string>, i: nat, pool: seq<string>, f: DoctorFields, prices: seq<int>, now: int)
    requires i <= |specs| && NoDup(specs) && |prices| == |specs|
    ensures var r := ConfirmFrom(db, specs, i, pool, Some(f), prices, now);
      && r.done
      && |r.db.doctors| == |db.doctors| + (|specs| - i)
      && (r.created <==> exists k :: i <= k < |specs| && specs[k] !in pool)
    decreases |specs| - i
  {
    if i < |specs| {
      var title := specs[i];
      var db1 := Catalogued(db, title, pool);
      IndexOfNoDup(specs, i);
      var db2 := AddDoctor(db1, f, title, prices[i], now);
      ConfirmShape(db2, specs, i + 1, pool, f, prices, now);
      if title !in pool {
        assert exists k :: i <= k < |specs| && specs[k] !in pool;
      }
    }
  }

  /**
   * The `n`-th row the loop writes belongs to the `n`-th chosen speciality:
   * it carries the doctor's columns and that speciality's price, its
   * speciality id points to a catalogue row with that title, and it has one
   * whenever the title was created here or the catalogue already had it.
   */
  lemma {:induction false} ConfirmRowAt(db: Db, specs: seq<string>, i: nat, pool: seq<string>, f: DoctorFields, prices: seq<int>, now: int, n: nat)
    requires i <= |specs| && NoDup(specs) && |prices| == |specs|
    requires |db.doctors| <= n < |db.doctors| + (|specs| - i)
    ensures var r := ConfirmFrom(db, specs, i, pool, Some(f), prices, now); var t := specs[n - |db.doctors| + i];
      && n < |r.db.doctors|
      && RowOf(r.db.doctors[n], f, prices[n - |db.doctors| + i], now)
      && Linked(r.db.doctors[n], t, r.db.specialities)
      && (t !in pool || t in Titles(db.specialities) ==> r.db.doctors[n].specialityId.Some?)
    decreases |specs| - i
  {
    var title := specs[i];
    var db1 := Catalogued(db, title, pool);
    IndexOfNoDup(specs, i);
    var db2 := AddDoctor(db1, f, title, prices[i], now);
    var r := ConfirmFrom(db, specs, i, pool, Some(f), prices, now);
    assert r.db == ConfirmFrom(db2, specs, i + 1, pool, Some(f), prices, now).db;
    ConfirmFrame(db2, specs, i + 1, pool, Some(f), prices, now);
    if n == |db.doctors| {
      // the row written for `title`, under a catalogue that only grows afterwards
      FirstRow(db, title, pool, f, prices[i], now);
      FirstLink(db, title, pool, f, prices[i], now);
      FirstId(db, title, pool, f, prices[i], now);
      assert r.db.doctors[n] == db2.doctors[n];
      LinkedGrows(db2.doctors[n], title, db2.specialities, r.db.specialities);
    } else {
      ConfirmRowAt(db2, specs, i + 1, pool, f, prices, now, n);
      assert n - |db2.doctors| + (i + 1) == n - |db.doctors| + i;
      TitleGrows(db.specialities, db2.specialities, specs[n - |db.doctors| + i]);
    }
  }

  /** The row written for one title carries the doctor's columns and the price given. */
  lemma FirstRow(db: Db, title: string, pool: seq<string>, f: DoctorFields, price: int, now: int)
    ensures var db1 := Catalogued(db, title, pool);
      var db2 := AddDoctor(db1, f, title, price, now);
      |db2.doctors| == |db.doctors| + 1 && RowOf(db2.doctors[|db.doctors|], f, price, now)
  {
  }

  /** The row written for one title is linked to a catalogue row with that title. */
  lemma FirstLink(db: Db, title: string, pool: seq<string>, f: DoctorFields, price: int, now: int)
    ensures var db2 := AddDoctor(Catalogued(db, title, pool), f, title, price, now);
      |db2.doctors| == |db.doctors| + 1 && Linked(db2.doctors[|db.doctors|], title, db2.specialities)
  {
  }

  /** The row written for one title has a speciality id whenever the title was created or catalogued. */
  lemma FirstId(db: Db, title: string, pool: seq<string>, f: DoctorFields, price: int, now: int)
    ensures var db2 := AddDoctor(Catalogued(db, title, pool), f, title, price, now);
      && |db2.doctors| == |db.doctors| + 1
      && (title !in pool || title in Titles(db.specialities) ==> db2.doctors[|db.doctors|].specialityId.Some?)
  {
    if title !in pool {
      CreatedSpecialityMember(db, title);
    }
  }

  /** A title the catalogue has, it keeps as the catalogue grows. */
  lemma TitleGrows(a: seq<SpecialityRow>, b: seq<SpecialityRow>, t: string)
    requires |a| <= |b| && b[..|a|] == a
    ensures t in Titles(a) ==> t in Titles(b)
  {
    if t in Titles(a) {
      var k :| 0 <= k < |a| && Titles(a)[k] == t;
      assert b[k] == a[k];
      assert Titles(b)[k] == t;
    }
  }

  /** A link to a catalogue row survives the catalogue growing. */
  lemma LinkedGrows(x: DoctorRow, title: string, a: seq<SpecialityRow>, b: seq<SpecialityRow>)
    requires |a| <= |b| && b[..|a|] == a
    ensures Linked(x, title, a) ==> Linked(x, title, b)
  {
    if x.specialityId.Some? && SpecialityRow(x.specialityId.value, title) in a {
      var k :| 0 <= k < |a| && a[k] == SpecialityRow(x.specialityId.value, title);
      assert b[k] == a[k];
    }
  }

  /** A title created where the catalogue lacked it is in the catalogue afterwards. */
  lemma CreatedSpecialityMember(db: Db, title: string)
    ensures title in Titles(CreateSpeciality(db, title).specialities)
  {
    var rows := CreateSpeciality(db, title).specialities;
    assert Titles(rows)[|db.specialities|] == title;
  }

  /** The whole confirmation: nothing happens without a selection, or without a pool for a non-empty one. */
  function ConfirmRun(d: Scratch, db: Db, now: int): Run {
    if d.specialities.None? || (|d.specialities.value| > 0 && d.specialitiesPool.None?) then Run(db, false, false)
    else ConfirmFrom(db, d.specialities.value, 0, PoolTitles(d), FieldsOf(d), PricesOf(d), now)
  }

  /**
   * What the flow delivers: confirmed from the state the invariant
   * describes, the doctor gets one row per chosen speciality with the price
   * given for it, every speciality the pool lacked is created and linked,
   * and the catalogue changes exactly when one was lacking.
   */
  lemma ConfirmationCreatesDoctor(d: Scratch, db: Db, now: int)
    requires CdInv(Some(CdConfirmation), d)
    ensures var r := ConfirmRun(d, db, now); var specs := d.specialities.value;
      && r.done
      && |r.db.doctors| == |db.doctors| + |specs|
      && r.db.doctors[..|db.doctors|] == db.doctors
      && (r.created <==> exists k :: 0 <= k < |specs| && specs[k] !in Values(d.specialitiesPool.value))
      && (!r.created ==> r.db.specialities == db.specialities)
      && r.db.admins == db.admins
  {
    PriceLoopDone(d);
    ConfirmFrame(db, d.specialities.value, 0, PoolTitles(d), FieldsOf(d), d.prices.value, now);
    ConfirmShape(db, d.specialities.value, 0, PoolTitles(d), FieldsOf(d).value, d.prices.value, now);
  }

  /**
   * The rows the confirmation writes, in the order chosen: each carries the
   * answers and the price given for its speciality, points to a catalogue
   * row with its speciality's title, and does so whenever the pool lacked
   * that title.
   */
  lemma ConfirmationRows(d: Scratch, db: Db, now: int)
    requires CdInv(Some(CdConfirmation), d)
    ensures |ConfirmRun(d, db, now).db.doctors| == |db.doctors| + |d.specialities.value| == |db.doctors| + |d.prices.value|
    ensures var r := ConfirmRun(d, db, now); var specs := d.specialities.value;
      forall n :: |db.doctors| <= n < |r.db.doctors| ==>
        && RowOf(r.db.doctors[n], FieldsOf(d).value, d.prices.value[n - |db.doctors|], now)
        && Linked(r.db.doctors[n], specs[n - |db.doctors|], r.db.specialities)
        && (specs[n - |db.doctors|] !in Values(d.specialitiesPool.value) ==> r.db.doctors[n].specialityId.Some?)
  {
    PriceLoopDone(d);
    var specs := d.specialities.value;
    ConfirmShape(db, specs, 0, PoolTitles(d), FieldsOf(d).value, d.prices.value, now);
    var r := ConfirmRun(d, db, now);
    forall n | |db.doctors| <= n < |r.db.doctors|
      ensures RowOf(r.db.doctors[n], FieldsOf(d).value, d.prices.value[n - |db.doctors|], now)
      ensures Linked(r.db.doctors[n], specs[n - |db.doctors|], r.db.specialities)
      ensures specs[n - |db.doctors|] !in Values(d.specialitiesPool.value) ==> r.db.doctors[n].specialityId.Some?
    {
      ConfirmRowAt(db, specs, 0, PoolTitles(d), FieldsOf(d).value, d.prices.value, now, n);
    }
  }

  /** Writes the doctor's rows: the loop of `get_confirmation`, one speciality at a time. */
  method WriteRows(b: Bot, specs: seq<string>, pool: seq<string>, f: Option<DoctorFields>, prices: seq<int>, now: int) returns (r: Run)
    modifies b
    ensures r == ConfirmFrom(old(b.db), specs, 0, pool, f, prices, now) && b.db == r.db
    ensures b.state == old(b.state) && b.data == old(b.data) && b.deleted == old(b.deleted)
  {
    var created := false;
    var i := 0;
    while i < |specs|
      invariant 0 <= i <= |specs|
      invariant var rest := ConfirmFrom(b.db, specs, i, pool, f, prices, now);
        ConfirmFrom(old(b.db), specs, 0, pool, f, prices, now) == Run(rest.db, created || rest.created, rest.done)
      invariant b.state == old(b.state) && b.data == old(b.data) && b.deleted == old(b.deleted)
      decreases |specs| - i
    {
      var title := specs[i];
      if title !in pool {
        b.db := CreateSpeciality(b.db, title);
        created := true;
      }
      var k := IndexOf(specs, title);
      if f.None? || k >= |prices| {
        return Run(b.db, created, false);
      }
      b.db := AddDoctor(b.db, f.value, title, prices[k], now);
      i := i + 1;
    }
    r := Run(b.db, created, true);
  }

  /**
   * The summary card is deleted after the rows are written: the loop
   * finished and Telegram accepts the deletion.
   */
  predicate CardDeleted(d: Scratch, r: Run, refused: set<int>) {
    r.done && d.lastMsgId.Some? && d.lastMsgId.value !in refused
  }

  /** The deletions a confirmation makes: the summary card, when it goes. */
  function CardDeletion(d: Scratch, r: Run, refused: set<int>): seq<int> {
    if CardDeleted(d, r, refused) then [d.lastMsgId.value] else []
  }

  /**
   * `get_confirmation`: an admin's confirmation writes the rows, deletes the
   * summary card, refreshes the catalogue in the cache when a title was
   * created, and finishes the session; a non-admin's only finishes it. A
   * loop that stops early, a refused deletion or a refresh that fails ends
   * the handler before `finish()`.
   */
  method GetConfirmation(b: Bot, uid: int, now: int) returns (admin: bool)
    requires b.state == Some(CdConfirmation)
    modifies b, b.cache
    ensures admin == IsAdmin(uid, b.master, Read(old(b.cache.entries), b.cache.up, old(b.db), AdminsKey))
    ensures b.cache.up == old(b.cache.up)
    ensures !admin ==> b.db == old(b.db) && b.state.None? && b.data == Empty && b.deleted == old(b.deleted)
    ensures var r := ConfirmRun(old(b.data), old(b.db), now); var gone := CardDeleted(old(b.data), r, b.refused); admin ==>
      && b.db == r.db
      && b.deleted == old(b.deleted) + CardDeletion(old(b.data), r, b.refused)
      && (if gone && (!r.created || b.cache.up) then b.state.None? && b.data == Empty
          else b.state == old(b.state) && b.data == old(b.data))
    ensures var r := ConfirmRun(old(b.data), old(b.db), now); var e1 := Filled(old(b.cache.entries), b.cache.up, old(b.db), AdminsKey);
      if admin && CardDeleted(old(b.data), r, b.refused) && r.created && b.cache.up then Refreshed(e1, b.cache.entries, b.db)
      else b.cache.entries == e1
    ensures var r := ConfirmRun(old(b.data), old(b.db), now);
      old(CacheInv(b)) && (!admin || CardDeleted(old(b.data), r, b.refused) || !r.created) ==> CacheInv(b)
  {
    ghost var e0 := b.cache.entries;
    admin := AdminCheck(b, uid);
    if b.cache.up && CoherentWith(e0, b.db) {
      ReadCoherent(e0, b.cache.up, b.db, AdminsKey);
    }
    if !admin {
      b.Finish();
      return;
    }
    ConfirmAsAdmin(b, now);
  }

  /** The catalogue entry holds the new catalogue, and every other entry is as it was. */
  ghost predicate Refreshed(e1: map<Key, Entry>, e2: map<Key, Entry>, db: Db) {
    && SpecialitiesKey in e2 && e2[SpecialitiesKey] == Source(db, SpecialitiesKey)
    && forall k :: k != SpecialitiesKey ==> (k in e2 <==> k in e1) && (k in e2 ==> e2[k] == e1[k])
  }

  /** The admin's side of `get_confirmation`: the rows, the card's deletion, the cache refresh, the end of the session. */
  method ConfirmAsAdmin(b: Bot, now: int)
    modifies b, b.cache
    ensures b.cache.up == old(b.cache.up)
    ensures var r := ConfirmRun(old(b.data), old(b.db), now); var gone := CardDeleted(old(b.data), r, b.refused);
      && b.db == r.db
      && b.deleted == old(b.deleted) + CardDeletion(old(b.data), r, b.refused)
      && (if gone && (!r.created || b.cache.up) then b.state.None? && b.data == Empty
          else b.state == old(b.state) && b.data == old(b.data))
    ensures var r := ConfirmRun(old(b.data), old(b.db), now);
      if CardDeleted(old(b.data), r, b.refused) && r.created && b.cache.up then Refreshed(old(b.cache.entries), b.cache.entries, b.db)
      else b.cache.entries == old(b.cache.entries)
    ensures var r := ConfirmRun(old(b.data), old(b.db), now);
      old(CacheInv(b)) && (CardDeleted(old(b.data), r, b.refused) || !r.created) ==> CacheInv(b)
  {
    ghost var db0 := b.db;
    ghost var e1 := b.cache.entries;
    var d := b.data;
    if d.specialities.None? || (|d.specialities.value| > 0 && d.specialitiesPool.None?) {
      return;
    }
    var r := WriteRows(b, d.specialities.value, PoolTitles(d), FieldsOf(d), PricesOf(d), now);
    ConfirmFrame(db0, d.specialities.value, 0, PoolTitles(d), FieldsOf(d), PricesOf(d), now);
    if !r.done || d.lastMsgId.None? || d.lastMsgId.value in b.refused {
      if !r.created && b.cache.up && CoherentWith(e1, db0) {
        CoherentAfterOtherWrite(e1, db0, b.db);
      }
      return;
    }
    b.deleted := b.deleted + [d.lastMsgId.value];
    if r.created {
      var ok := b.cache.Update(b.db, [SpecialitiesKey]);
      if !ok {
        return;
      }
      if CoherentWith(e1, db0) {
        SourceFrame(db0, b.db);
        CoherentAfterRefresh(e1, b.cache.entries, db0, b.db, [SpecialitiesKey]);
      }
    } else if b.cache.up && CoherentWith(e1, db0) {
      CoherentAfterOtherWrite(e1, db0, b.db);
    }
    b.Finish();
  }
}
