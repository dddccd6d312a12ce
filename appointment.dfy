/**
 * `handlers/client/appointment.py`: the appointment form. The client picks
 * an offline or an online consultation; an online one goes through the paged
 * speciality menu and a doctor's card, an offline one takes a typed request.
 * Then come the preferred time, the way to be contacted, a phone when needed
 * and a name. An offline request is stored at the name step; an online one
 * is stored once the invoice is paid.
 *
 * Message ids Telegram assigns are parameters (`sentId` for the next message
 * in the client's chat, consecutive when several are sent in a row,
 * `chatMsgId` for the request posted to the clinic's chat); so are the
 * client's Telegram username, the photo files that are missing (`noFile`)
 * and whether the video-conference link could be made (`linkOk`).
 */
module AppointmentHandlers {
  import opened Wrappers
  import opened PyInt
  import opened ODict
  import opened Db
  import opened Cache
  import Callbacks
  import opened ClientKb
  import opened Navigation
  import opened Fsm
  import opened Commands
  import CallbackHandlers

  /** `CommunicationType`. */
  const Call := "call"
  const Chat := "chat"
  /** `Payment.appointment`: the invoice payload of an online consultation. */
  const AppointmentPayload := "online_appointment"
  /** The step counters shown to the client: four steps offline, five online. */
  const OfflineSteps := "/4"
  const OnlineSteps := "/5"

  // ------------------------------------------------------------ session invariant

  /** What `fill_form` stores: the client, the form message, no cards yet. */
  predicate Opened(d: Scratch) {
    d.userUid.Some? && d.lastMsgId.Some? && d.messagesToDel.Some?
  }

  /** A consultation type and its step counter; an online one with its numbered speciality titles. */
  predicate Typed(d: Scratch) {
    && (d.consultationType == Some(Online) || d.consultationType == Some(Offline))
    && d.nSteps.Some?
    && (d.consultationType == Some(Online) ==>
          d.specialityPages.Some? && d.nSpec == Some(|d.specialityPages.value|))
  }

  /** Doctor cards on screen belong to a chosen speciality. */
  predicate Browsing(d: Scratch) {
    d.docDict.Some? ==> d.specialityTitle.Some? && d.specialityTitle.value.Some?
  }

  /** The request, the doctor and the speciality; an online request names a doctor of a known speciality. */
  predicate Requested(d: Scratch) {
    && d.userRequest.Some? && d.doctorId.Some? && d.specialityTitle.Some?
    && (d.consultationType == Some(Online) ==>
          d.doctorId.value.Some? && d.docDict.Some? && d.specialityTitle.value.Some?)
  }

  /** From the preferred-time question on: the client's request is known. */
  predicate Asked(d: Scratch) {
    Opened(d) && Typed(d) && Requested(d)
  }

  /** From the communication-type question on: the preferred time is known. */
  predicate Timed(d: Scratch) {
    Asked(d) && d.datetime.Some?
  }

  /** From the phone step on: the way to be contacted is known, and for a chat whether a username exists. */
  predicate Reached(d: Scratch) {
    && Timed(d) && d.communicationType.Some?
    && (d.communicationType == Some(Chat) ==> d.isUsernameEmpty.Some?)
  }

  /** From the name step on: a phone (possibly none) and a username (possibly none) are known. */
  predicate Contacted(d: Scratch) {
    Reached(d) && d.phone.Some? && d.username.Some?
  }

  /** From the payment on: the name and the posted request of an online consultation. */
  predicate Named(d: Scratch) {
    Contacted(d) && d.name.Some? && d.requestMsgId.Some? && d.consultationType == Some(Online)
  }

  /**
   * The keys each state of `FSMAppointment` finds in the session, in a
   * session that followed the form: each step adds its answers to those of
   * the steps before it.
   */
  predicate ApInv(s: Option<St>, d: Scratch) {
    match s
    case Some(ApConsultationType) => Opened(d) && Browsing(d)
    case Some(ApUserRequest) => Opened(d) && Typed(d) && Browsing(d)
    case Some(ApDatetimeChoice) => Asked(d)
    case Some(ApDatetime) => Asked(d)
    case Some(ApCommunicationType) => Timed(d)
    case Some(ApPhone) => Reached(d)
    case Some(ApName) => Contacted(d)
    case Some(ApPayment) => Named(d)
    case Some(ApLink) => Named(d)
    case _ => true
  }

  // ------------------------------------------------------------ pagination

  // A page holds `Numbers.specialities_per_page`, 10, specialities.

  /** The numbers `[lo, hi)` of the specialities a page shows, and its navigation type. */
  datatype Window = Window(lo: int, hi: int, nav: Option<string>)

  /** The first page as `get_cons_type` draws it. */
  function StartWindow(n: int): Window {
    if n <= 10 then Window(0, n, None) else Window(0, 10, Some(Callbacks.Next))
  }

  /** Page `page` as `show_next` draws it, from the items left and right of the page start. */
  function NextWindow(n: int, page: int): Window {
    var left := page * 10;
    var right := n - left;
    Window(left, if right < 10 then n else left + 10,
      if right <= 10 then Some(Callbacks.Prev) else Some(Callbacks.PrevNext))
  }

  /** Page `page` as `show_prev` draws it: always full, with a next page after it. */
  function PrevWindow(page: int): Window {
    var left := page * 10;
    Window(left, left + 10, if page == 0 then Some(Callbacks.Next) else Some(Callbacks.PrevNext))
  }

  /** The navigation type offering exactly the given directions. */
  function NavFor(hasPrev: bool, hasNext: bool): Option<string> {
    if hasPrev && hasNext then Some(Callbacks.PrevNext)
    else if hasPrev then Some(Callbacks.Prev)
    else if hasNext then Some(Callbacks.Next)
    else None
  }

  /**
   * Page `p` of `n` specialities, independently of the handlers: the
   * numbers `10p` up to ten further or to the end, a way back on every page
   * but the first, a way on while specialities remain after the page.
   */
  function PageWindow(n: nat, p: nat): Window {
    var lo := p * 10;
    Window(lo, if n < lo + 10 then n else lo + 10, NavFor(p > 0, lo + 10 < n))
  }

  /** Page `p` has something to show (the first page always exists). */
  predicate PageExists(n: nat, p: nat) {
    p == 0 || p * 10 < n
  }

  /** The speciality buttons numbered `lo` to `hi - 1`. */
  function PageButtonsOf(titles: seq<string>, lo: nat, hi: nat): seq<Button>
    requires lo <= hi <= |titles|
  {
    seq(hi - lo, k requires 0 <= k < hi - lo => SpecialityButton(titles[lo + k], lo + k))
  }

  /** The menu of page `p` of the titles, drawn from `PageWindow`. */
  function PageMenu(titles: seq<string>, p: nat): seq<Button>
    requires PageExists(|titles|, p)
  {
    var w := PageWindow(|titles|, p);
    GenerateSpecialityMenu(PageButtonsOf(titles, w.lo, w.hi), p, w.nav)
  }

  /** `get_cons_type` draws page 0. */
  lemma StartIsFirstPage(n: nat)
    ensures StartWindow(n) == PageWindow(n, 0)
  {
  }

  /** `show_next` draws page `p` for every page after the first that exists. */
  lemma NextIsPage(n: nat, p: nat)
    requires 1 <= p && p * 10 < n
    ensures NextWindow(n, p) == PageWindow(n, p)
  {
  }

  /** `show_prev` draws page `p` whenever a page follows it. */
  lemma PrevIsPage(n: nat, p: nat)
    requires (p + 1) * 10 < n
    ensures PrevWindow(p) == PageWindow(n, p)
  {
  }

  /** The numbered pool answers every number below its length with that title's button. */
  lemma PoolButtons(titles: seq<string>, lo: nat, hi: nat)
    requires lo <= hi <= |titles|
    ensures GenerateSpecialityButtons(Enumerate(titles), hi, lo) == Some(PageButtonsOf(titles, lo, hi))
  {
    var pool := Enumerate(titles);
    forall i | lo <= i < hi ensures HasKey(pool, IntToString(i)) {
      PoolKey(titles, i);
    }
    var r := GenerateSpecialityButtons(pool, hi, lo);
    var want := PageButtonsOf(titles, lo, hi);
    forall k | 0 <= k < hi - lo ensures r.value[k] == want[k] {
      PoolKey(titles, lo + k);
    }
    assert r.value == want;
  }

  /** Number `i` of the pool, written by `str`, finds title `i`. */
  lemma PoolKey(titles: seq<string>, i: nat)
    requires i < |titles|
    ensures Get(Enumerate(titles), IntToString(i)) == Some(titles[i])
  {
    EnumerateGet(titles, i);
  }

  /** The menu `get_cons_type` shows for these titles. */
  function FirstMenu(titles: seq<string>): Option<seq<Button>> {
    var w := StartWindow(|titles|);
    var buttons := GenerateSpecialityButtons(Enumerate(titles), w.hi, w.lo);
    if buttons.None? then None else Some(GenerateSpecialityMenu(buttons.value, 0, w.nav))
  }

  /** The first menu is page 0 of the reference. */
  lemma FirstMenuIsPage(titles: seq<string>)
    ensures FirstMenu(titles) == Some(PageMenu(titles, 0))
  {
    StartIsFirstPage(|titles|);
    var w := PageWindow(|titles|, 0);
    PoolButtons(titles, w.lo, w.hi);
  }

  /** The menu to draw for page `page`, or `None` where the handler raises. */
  function DrawPage(d: Scratch, w: Window, page: int): Option<seq<Button>> {
    if d.specialityPages.None? then None
    else
      var buttons := GenerateSpecialityButtons(d.specialityPages.value, w.hi, w.lo);
      if buttons.None? then None else Some(GenerateSpecialityMenu(buttons.value, page, w.nav))
  }

  /** The page number a navigation button carries. */
  function PageOf(callbackData: string): Option<int> {
    var f := Callbacks.Field(callbackData, 1);
    if f.None? then None else ParseInt(f.value)
  }

  /** `show_prev`: the keyboard it puts on the message, or `None` where it raises. */
  function ShowPrev(d: Scratch, callbackData: string): Option<seq<Button>> {
    var page := PageOf(callbackData);
    if page.None? then None else DrawPage(d, PrevWindow(page.value), page.value)
  }

  /** `show_next`: the keyboard it puts on the message, or `None` where it raises. */
  function ShowNext(d: Scratch, callbackData: string): Option<seq<Button>> {
    var page := PageOf(callbackData);
    if page.None? || d.nSpec.None? then None
    else DrawPage(d, NextWindow(d.nSpec.value, page.value), page.value)
  }

  /** Page `p` offers a next page exactly when specialities follow it, a previous one exactly after the first page. */
  lemma PageNavigation(titles: seq<string>, p: nat)
    requires PageExists(|titles|, p)
    ensures var m := PageMenu(titles, p); var w := PageWindow(|titles|, p);
      var nav := m[w.hi - w.lo..|m| - 1];
      && (CreateNextButton(p) in nav <==> PageExists(|titles|, p + 1))
      && (CreatePrevButton(p) in nav <==> p >= 1)
  {
    var w := PageWindow(|titles|, p);
    SpecialityMenuNavigation(PageButtonsOf(titles, w.lo, w.hi), p, w.nav);
  }

  /** The numbered pool draws page `p` of the reference. */
  lemma DrawPoolPage(d: Scratch, titles: seq<string>, p: nat)
    requires d.specialityPages == Some(Enumerate(titles)) && PageExists(|titles|, p)
    ensures DrawPage(d, PageWindow(|titles|, p), p) == Some(PageMenu(titles, p))
  {
    var w := PageWindow(|titles|, p);
    PoolButtons(titles, w.lo, w.hi);
  }

  /** The next button of page `p` asks `show_next` for page `p + 1`. */
  lemma NextButtonDraws(d: Scratch, n: nat, p: nat)
    requires d.nSpec == Some(n)
    ensures ShowNext(d, CreateNextButton(p).callback) == DrawPage(d, NextWindow(n, p + 1), p + 1)
  {
    PageButtons(p);
  }

  /** The previous button of page `p` asks `show_prev` for page `p - 1`. */
  lemma PrevButtonDraws(d: Scratch, p: nat)
    requires 1 <= p
    ensures ShowPrev(d, CreatePrevButton(p).callback) == DrawPage(d, PrevWindow(p - 1), p - 1)
  {
    PageButtons(p);
  }

  /** The next button of page `p` draws page `p + 1`, exactly as the reference pages it. */
  lemma NextButtonTurnsPage(d: Scratch, titles: seq<string>, p: nat)
    requires d.specialityPages == Some(Enumerate(titles)) && d.nSpec == Some(|titles|)
    requires PageExists(|titles|, p + 1)
    ensures ShowNext(d, CreateNextButton(p).callback) == Some(PageMenu(titles, p + 1))
  {
    NextButtonDraws(d, |titles|, p);
    NextIsPage(|titles|, p + 1);
    DrawPoolPage(d, titles, p + 1);
  }

  /** The previous button of page `p` draws page `p - 1`, exactly as the reference pages it. */
  lemma PrevButtonTurnsPage(d: Scratch, titles: seq<string>, p: nat)
    requires d.specialityPages == Some(Enumerate(titles))
    requires 1 <= p && PageExists(|titles|, p)
    ensures ShowPrev(d, CreatePrevButton(p).callback) == Some(PageMenu(titles, p - 1))
  {
    PrevButtonDraws(d, p);
    PrevIsPage(|titles|, p - 1);
    DrawPoolPage(d, titles, p - 1);
  }

  // ------------------------------------------------------------ doctor cards

  /** `data['doc_dict']` after the cards of these doctors: `str(id)` to name and photo, a later id overwriting. */
  function DocDictOf(doctors: seq<DoctorRow>): Dict<DoctorRef>
    decreases |doctors|
  {
    if |doctors| == 0 then []
    else
      var x := doctors[|doctors| - 1];
      Put(DocDictOf(doctors[..|doctors| - 1]), IntToString(x.id), DoctorRef(x.fullName, x.photo))
  }

  /** No doctor id occurs twice among the listed doctors. */
  predicate DistinctIds(doctors: seq<DoctorRow>) {
    forall i, j :: 0 <= i < j < |doctors| ==> doctors[i].id != doctors[j].id
  }

  /** With distinct ids, a doctor's `str(id)` finds that doctor's name and photo. */
  lemma {:induction false} DocDictFinds(doctors: seq<DoctorRow>, k: nat)
    requires DistinctIds(doctors) && k < |doctors|
    ensures Get(DocDictOf(doctors), IntToString(doctors[k].id)) == Some(DoctorRef(doctors[k].fullName, doctors[k].photo))
    decreases |doctors|
  {
    var n := |doctors|;
    var init := doctors[..n - 1];
    var last := doctors[n - 1];
    var key := IntToString(doctors[k].id);
    GetPut(DocDictOf(init), IntToString(last.id), DoctorRef(last.fullName, last.photo), key);
    if k < n - 1 {
      if IntToString(last.id) == key {
        IntRoundTrip(last.id);
        IntRoundTrip(doctors[k].id);
        assert false;
      }
      assert init[k] == doctors[k];
      DocDictFinds(init, k);
    }
  }

  /** A key that is no listed doctor's `str(id)` finds nothing. */
  lemma {:induction false} DocDictMisses(doctors: seq<DoctorRow>, key: string)
    requires forall x :: x in doctors ==> IntToString(x.id) != key
    ensures Get(DocDictOf(doctors), key).None?
    decreases |doctors|
  {
    if |doctors| > 0 {
      var n := |doctors|;
      var last := doctors[n - 1];
      GetPut(DocDictOf(doctors[..n - 1]), IntToString(last.id), DoctorRef(last.fullName, last.photo), key);
      DocDictMisses(doctors[..n - 1], key);
    }
  }

  /** Every doctor's photo file opens. */
  predicate PhotosPresent(doctors: seq<DoctorRow>, noFile: set<string>) {
    forall k :: 0 <= k < |doctors| ==> doctors[k].photo !in noFile
  }

  /**
   * The card loop of `get_speciality`: each doctor enters the dictionary,
   * then its photo is opened and the card sent. `shown` cards are sent; the
   * loop stops at the first photo that does not open.
   */
  method SendCards(doctors: seq<DoctorRow>, noFile: set<string>) returns (dict: Dict<DoctorRef>, shown: nat)
    ensures shown <= |doctors|
    ensures shown == |doctors| <==> PhotosPresent(doctors, noFile)
    ensures shown < |doctors| ==> doctors[shown].photo in noFile && PhotosPresent(doctors[..shown], noFile)
    ensures shown == |doctors| ==> dict == DocDictOf(doctors)
  {
    dict := [];
    shown := 0;
    while shown < |doctors|
      invariant shown <= |doctors|
      invariant dict == DocDictOf(doctors[..shown])
      invariant forall k :: 0 <= k < shown ==> doctors[k].photo !in noFile
    {
      var x := doctors[shown];
      dict := AddCard(dict, doctors, shown);
      if x.photo in noFile {
        assert PhotosPresent(doctors[..shown], noFile);
        return;
      }
      shown := shown + 1;
    }
    assert doctors[..shown] == doctors;
  }

  /** `doc_dict[str(doctor.id)] = ...` for the next card. */
  method AddCard(dict: Dict<DoctorRef>, doctors: seq<DoctorRow>, i: nat) returns (next: Dict<DoctorRef>)
    requires i < |doctors| && dict == DocDictOf(doctors[..i])
    ensures next == DocDictOf(doctors[..i + 1])
  {
    var x := doctors[i];
    DocDictSnoc(doctors, i);
    next := Put(dict, IntToString(x.id), DoctorRef(x.fullName, x.photo));
  }

  /** One more card adds one entry to the dictionary. */
  lemma DocDictSnoc(doctors: seq<DoctorRow>, i: nat)
    requires i < |doctors|
    ensures DocDictOf(doctors[..i + 1])
      == Put(DocDictOf(doctors[..i]), IntToString(doctors[i].id), DoctorRef(doctors[i].fullName, doctors[i].photo))
  {
    assert doctors[..i + 1][..i] == doctors[..i];
  }

  /** `n` consecutive message ids from `first`. */
  function Ids(first: int, n: nat): (r: seq<int>)
    ensures |r| == n && forall k :: 0 <= k < n ==> r[k] == first + k
  {
    seq(n, k requires 0 <= k < n => first + k)
  }

  /** The doctor a card button names: its id and the card's record, or `None` where `get_request` raises. */
  function DoctorChoice(docDict: Option<Dict<DoctorRef>>, callbackData: string): Option<(int, DoctorRef)> {
    var id := PageOf(callbackData);
    if id.None? || docDict.None? then None
    else
      var ref := Get(docDict.value, IntToString(id.value));
      if ref.None? then None else Some((id.value, ref.value))
  }

  /** The button under a doctor's card chooses exactly that doctor. */
  lemma CardButtonChoosesDoctor(doctors: seq<DoctorRow>, k: nat)
    requires DistinctIds(doctors) && k < |doctors|
    ensures var x := doctors[k];
      DoctorChoice(Some(DocDictOf(doctors)), Callbacks.Build(Callbacks.Doctor, IntToString(x.id)))
        == Some((x.id, DoctorRef(x.fullName, x.photo)))
  {
    var x := doctors[k];
    IntTextHasNoSep(x.id);
    Callbacks.FieldOfBuild(Callbacks.Doctor, IntToString(x.id));
    IntRoundTrip(x.id);
    DocDictFinds(doctors, k);
  }

  // ------------------------------------------------------------ request text and booking

  /** A phone that the request text treats as absent: `None` or empty. */
  predicate PhoneFalsy(phone: Option<string>) {
    phone.None? || phone.value == ""
  }

  /**
   * `BotMessageText.appointment_request(data)` can be built: every key it
   * reads is present, and without a phone the username is a string.
   */
  predicate RequestReady(d: Scratch) {
    && d.name.Some? && d.phone.Some? && d.consultationType.Some? && d.communicationType.Some?
    && d.userRequest.Some? && d.specialityTitle.Some? && d.datetime.Some?
    && (PhoneFalsy(d.phone.value) ==> d.username.Some? && d.username.value.Some?)
  }

  /** Every key `create_appointment(...)` reads from the session. */
  predicate AppointmentKeys(d: Scratch) {
    && d.userUid.Some? && d.username.Some? && d.name.Some? && d.phone.Some?
    && d.consultationType.Some? && d.communicationType.Some? && d.userRequest.Some?
    && d.doctorId.Some? && d.datetime.Some?
  }

  /** The database after `create_appointment` with the session's answers. */
  function Booked(db: Db, d: Scratch, now: int): (r: Db)
    requires AppointmentKeys(d)
    ensures r.appointments == db.appointments + [AppointmentRow(d.userUid.value, d.consultationType.value,
      d.communicationType.value, d.userRequest.value, d.doctorId.value, d.datetime.value, now)]
    ensures r.admins == db.admins && r.specialities == db.specialities && r.doctors == db.doctors
  {
    CreateAppointment(db, d.userUid.value, d.consultationType.value, d.communicationType.value,
      d.userRequest.value, d.doctorId.value, d.datetime.value, now)
  }

  /**
   * At the name step, a session that followed the form has every key the
   * appointment needs, and the request text can be built unless the phone is
   * empty and the client has no username.
   */
  lemma ReadyAtName(d: Scratch, name: string)
    requires ApInv(Some(ApName), d)
    ensures AppointmentKeys(d.(name := Some(name)))
    ensures RequestReady(d.(name := Some(name))) <==> !PhoneFalsy(d.phone.value) || d.username.value.Some?
    ensures d.communicationType == Some(Chat) ==> d.isUsernameEmpty.Some?
  {
  }

  /** The price of a doctor's speciality is the price on a row of that doctor (by photo) and speciality (by title). */
  lemma PriceOfMeaning(db: Db, photo: string, title: string)
    ensures PriceOf(db, photo, title).Some? <==>
      exists x :: x in db.doctors && x.photo == photo && TitleOf(db.specialities, x.specialityId) == Some(title)
    ensures PriceOf(db, photo, title).Some? ==>
      exists x :: x in db.doctors && x.photo == photo && TitleOf(db.specialities, x.specialityId) == Some(title)
        && x.price == PriceOf(db, photo, title).value
  {
    var rows := Where(db.doctors, (x: DoctorRow) => x.photo == photo && TitleOf(db.specialities, x.specialityId) == Some(title));
    if rows != [] {
      assert rows[0] in rows;
    }
    if exists x :: x in db.doctors && x.photo == photo && TitleOf(db.specialities, x.specialityId) == Some(title) {
      var x :| x in db.doctors && x.photo == photo && TitleOf(db.specialities, x.specialityId) == Some(title);
      assert x in rows;
    }
  }

  /** `str(data['doctor_id'])`: Python writes `None` as `'None'`. */
  function DoctorKey(id: Option<int>): string {
    if id.None? then "None" else IntToString(id.value)
  }

  /** The price `start_payment` charges for, or `None` where it raises before the invoice. */
  function InvoicePrice(db: Db, d: Scratch): Option<int> {
    if d.docDict.None? || d.doctorId.None? || d.specialityTitle.None? then None
    else
      var ref := Get(d.docDict.value, DoctorKey(d.doctorId.value));
      if ref.None? || d.specialityTitle.value.None? then None
      else PriceOf(db, ref.value.photo, d.specialityTitle.value.value)
  }

  /** In a session that followed the form, the invoice charges a price on the chosen doctor's row of the chosen speciality. */
  lemma InvoicePriceMeaning(db: Db, d: Scratch)
    requires InvoicePrice(db, d).Some?
    ensures var ref := Get(d.docDict.value, DoctorKey(d.doctorId.value)).value;
      exists x :: x in db.doctors && x.photo == ref.photo
        && TitleOf(db.specialities, x.specialityId) == d.specialityTitle.value
        && x.price == InvoicePrice(db, d).value
  {
    var ref := Get(d.docDict.value, DoctorKey(d.doctorId.value)).value;
    PriceOfMeaning(db, ref.photo, d.specialityTitle.value.value);
  }

  // ------------------------------------------------------------ handlers

  /** `fill_form`: from any state the session restarts at the consultation type. */
  method FillForm(b: Bot, uid: int, msgId: int)
    modifies b
    ensures b.state == Some(ApConsultationType)
    ensures b.data == Empty.(lastMsgId := Some(msgId), userUid := Some(uid), messagesToDel := Some([]))
    ensures b.db == old(b.db) && b.deleted == old(b.deleted)
    ensures ApInv(b.state, b.data)
  {
    b.Finish();
    b.state := Some(ApConsultationType);
    b.data := b.data.(lastMsgId := Some(msgId), userUid := Some(uid), messagesToDel := Some([]));
  }

  /** The titles a cached speciality list holds. */
  function CachedTitles(r: Returned): seq<string> {
    if r.e.TitleList? then r.e.titles else []
  }

  /**
   * `get_cons_type`: offline asks for the request in four steps; anything
   * else is online, in five steps, and numbers the cached titles and shows
   * their first page. Either way the form moves to the request.
   */
  method GetConsType(b: Bot, callbackData: string) returns (menu: Option<seq<Button>>)
    requires b.state == Some(ApConsultationType)
    modifies b, b.cache
    ensures b.state == Some(ApUserRequest)
    ensures callbackData == Callbacks.ChooseOffline ==>
      && menu.None? && b.cache.entries == old(b.cache.entries)
      && b.data == old(b.data).(consultationType := Some(Offline), nSteps := Some(OfflineSteps))
    ensures callbackData != Callbacks.ChooseOffline ==>
      var titles := CachedTitles(Read(old(b.cache.entries), b.cache.up, b.db, SpecialitiesKey));
      && b.cache.entries == Filled(old(b.cache.entries), b.cache.up, b.db, SpecialitiesKey)
      && b.data == old(b.data).(consultationType := Some(Online), nSteps := Some(OnlineSteps),
           specialityPages := Some(Enumerate(titles)), nSpec := Some(|titles|))
      && menu == Some(PageMenu(titles, 0))
    ensures callbackData != Callbacks.ChooseOffline && old(CacheInv(b)) ==>
      b.data.specialityPages == Some(Enumerate(SpecialityTitles(b.db)))
    ensures b.db == old(b.db) && b.deleted == old(b.deleted) && b.cache.up == old(b.cache.up)
    ensures old(CacheInv(b)) ==> CacheInv(b)
    ensures ApInv(Some(ApConsultationType), old(b.data)) ==> ApInv(b.state, b.data)
  {
    if callbackData == Callbacks.ChooseOffline {
      TakeType(b, Offline, OfflineSteps, None);
      return None;
    }
    ghost var e0 := b.cache.entries;
    if !b.cache.up {
      ReadDown(e0, b.db, SpecialitiesKey);
    } else if CoherentWith(e0, b.db) {
      ReadCoherent(e0, b.cache.up, b.db, SpecialitiesKey);
    }
    var r := b.cache.Get(b.db, SpecialitiesKey);
    var titles := CachedTitles(r);
    TakeType(b, Online, OnlineSteps, Some(titles));
    FirstMenuIsPage(titles);
    menu := FirstMenu(titles);
  }

  /** The answer `get_cons_type` stores: the type, its step counter and, online, the numbered titles. */
  method TakeType(b: Bot, ct: string, steps: string, titles: Option<seq<string>>)
    requires (ct == Online && titles.Some?) || (ct == Offline && titles.None?)
    modifies b
    ensures b.state == Some(ApUserRequest)
    ensures titles.None? ==> b.data == old(b.data).(consultationType := Some(ct), nSteps := Some(steps))
    ensures titles.Some? ==> b.data == old(b.data).(consultationType := Some(ct), nSteps := Some(steps),
      specialityPages := Some(Enumerate(titles.value)), nSpec := Some(|titles.value|))
    ensures b.db == old(b.db) && b.deleted == old(b.deleted)
    ensures ApInv(Some(ApConsultationType), old(b.data)) ==> ApInv(b.state, b.data)
  {
    if titles.None? {
      b.data := b.data.(consultationType := Some(ct), nSteps := Some(steps));
    } else {
      var pool := Enumerate(titles.value);
      b.data := b.data.(consultationType := Some(ct), nSteps := Some(steps),
        specialityPages := Some(pool), nSpec := Some(|pool|));
    }
    b.state := Some(ApUserRequest);
  }

  /** The deletions `get_speciality` makes before it reads the title: every old card Telegram still accepts. */
  function CardDeletions(d: Scratch, refused: set<int>): seq<int> {
    if d.messagesToDel.None? || d.userUid.None? then [] else DeletedSkipping(d.messagesToDel.value, refused)
  }

  /** The title a speciality button names, or `None` where `get_speciality` raises at `data['specialities'][key]`. */
  function ChosenTitle(d: Scratch, callbackData: string): Option<string> {
    var key := Callbacks.Field(callbackData, 1);
    if key.None? || d.specialityPages.None? then None else Get(d.specialityPages.value, key.value)
  }

  /**
   * `get_speciality`: the old cards are deleted, then the chosen title's
   * doctors are shown, one card each. The session keeps the title, the cards'
   * dictionary and the ids of the new messages. A button without a key or a
   * session without the card list raises before deleting; an unknown key
   * raises after; a photo file that does not open raises midway, and the
   * session keeps nothing of it.
   */
  method GetSpeciality(b: Bot, callbackData: string, sentId: int, noFile: set<string>)
    requires b.state == Some(ApUserRequest)
    modifies b
    ensures var d := old(b.data); var title := ChosenTitle(d, callbackData);
      && b.deleted == old(b.deleted) + (if Callbacks.Field(callbackData, 1).None? then [] else CardDeletions(d, b.refused))
      && (title.None? || d.messagesToDel.None? || !PhotosPresent(DoctorsWithTitle(b.db, title.value), noFile) ==>
            b.data == d)
      && (title.Some? && d.messagesToDel.Some? && PhotosPresent(DoctorsWithTitle(b.db, title.value), noFile) ==>
            var doctors := DoctorsWithTitle(b.db, title.value);
            b.data == d.(messagesToDel := Some(Ids(sentId, |doctors| + 1)),
              specialityTitle := Some(Some(title.value)), docDict := Some(DocDictOf(doctors))))
    ensures b.state == old(b.state) && b.db == old(b.db)
    ensures ApInv(Some(ApUserRequest), old(b.data)) ==> ApInv(b.state, b.data)
  {
    if Callbacks.Field(callbackData, 1).None? || b.data.messagesToDel.None? {
      return;
    }
    if b.data.userUid.Some? {
      b.DeleteSkipping(b.data.messagesToDel.value);
    }
    var title := ChosenTitle(b.data, callbackData);
    if title.None? {
      return;
    }
    var doctors := DoctorsWithTitle(b.db, title.value);
    var dict, shown := SendCards(doctors, noFile);
    if shown < |doctors| {
      return;
    }
    b.data := b.data.(messagesToDel := Some(Ids(sentId, |doctors| + 1)),
      specialityTitle := Some(Some(title.value)), docDict := Some(dict));
  }

  /**
   * `get_request` with a message: an online client must pick a card, so the
   * message is deleted (a refused deletion raises) and nothing else changes.
   * Offline, the text is the request, with no doctor and no speciality; a
   * session without the user, the form message or the step counter raises.
   */
  method GetRequestText(b: Bot, text: string, msgId: int, sentId: int)
    requires b.state == Some(ApUserRequest)
    modifies b
    ensures var d := old(b.data);
      if d.consultationType == Some(Online) then
        && b.state == old(b.state) && b.data == d
        && b.deleted == old(b.deleted) + (if msgId in b.refused then [] else [msgId])
      else if d.consultationType.None? || d.userUid.None? || d.lastMsgId.None? || d.nSteps.None? then
        b.state == old(b.state) && b.data == d && b.deleted == old(b.deleted)
      else
        && b.state == Some(ApDatetimeChoice) && b.deleted == old(b.deleted)
        && b.data == d.(doctorId := Some(None), userRequest := Some(text), specialityTitle := Some(None),
             lastMsgId := Some(sentId))
    ensures b.db == old(b.db)
    ensures ApInv(Some(ApUserRequest), old(b.data)) ==> ApInv(b.state, b.data)
  {
    var d := b.data;
    if d.consultationType == Some(Online) {
      if msgId !in b.refused {
        b.deleted := b.deleted + [msgId];
      }
      return;
    }
    if d.consultationType.None? || d.userUid.None? || d.lastMsgId.None? || d.nSteps.None? {
      return;
    }
    b.data := d.(doctorId := Some(None), userRequest := Some(text), specialityTitle := Some(None),
      lastMsgId := Some(sentId));
    b.state := Some(ApDatetimeChoice);
  }

  /**
   * `get_request` with a card button: the request is the chosen doctor's
   * name. The cards are deleted up to the first Telegram refuses; a session
   * without the user, the form message, the speciality or the step counter
   * then raises. A button naming no card raises before any deletion.
   */
  method GetRequestDoctor(b: Bot, callbackData: string, sentId: int)
    requires b.state == Some(ApUserRequest)
    modifies b
    ensures var d := old(b.data); var choice := DoctorChoice(d.docDict, callbackData);
      && b.deleted == old(b.deleted) + (if choice.None? || d.messagesToDel.None? then []
           else DeletedUntilFailure(d.messagesToDel.value, b.refused))
      && (choice.None? || d.userUid.None? || d.lastMsgId.None? || d.specialityTitle.None? || d.nSteps.None? ==>
            b.state == old(b.state) && b.data == d)
      && (choice.Some? && d.userUid.Some? && d.lastMsgId.Some? && d.specialityTitle.Some? && d.nSteps.Some? ==>
            && b.state == Some(ApDatetimeChoice)
            && b.data == d.(doctorId := Some(Some(choice.value.0)), userRequest := Some(choice.value.1.name),
                 messagesToDel := Some([]), lastMsgId := Some(sentId)))
    ensures b.db == old(b.db)
    ensures ApInv(Some(ApUserRequest), old(b.data)) ==> ApInv(b.state, b.data)
  {
    var d := b.data;
    var choice := DoctorChoice(d.docDict, callbackData);
    if choice.None? {
      return;
    }
    if d.messagesToDel.Some? {
      b.DeleteUntilFailure(d.messagesToDel.value);
    }
    if d.userUid.None? || d.lastMsgId.None? || d.specialityTitle.None? || d.nSteps.None? {
      return;
    }
    TakeDoctor(b, choice.value.0, choice.value.1.name, sentId);
  }

  /** The card branch of `get_request` once the cards are gone: the doctor's name is the request. */
  method TakeDoctor(b: Bot, id: int, name: string, sentId: int)
    modifies b
    ensures b.state == Some(ApDatetimeChoice)
    ensures b.data == old(b.data).(doctorId := Some(Some(id)), userRequest := Some(name),
      messagesToDel := Some([]), lastMsgId := Some(sentId))
    ensures b.db == old(b.db) && b.deleted == old(b.deleted)
    ensures ApInv(Some(ApUserRequest), old(b.data)) && old(b.data).docDict.Some? ==> Asked(b.data)
  {
    b.data := b.data.(doctorId := Some(Some(id)), userRequest := Some(name),
      messagesToDel := Some([]), lastMsgId := Some(sentId));
    b.state := Some(ApDatetimeChoice);
  }

  /** The keys every prompt after the request needs: the user, the message to edit, the step counter. */
  predicate Prompting(d: Scratch) {
    d.userUid.Some? && d.lastMsgId.Some? && d.nSteps.Some?
  }

  /**
   * `get_datetime_choice`: "yes" asks for the time; any other answer
   * records no preference and asks for the communication type.
   */
  method GetDatetimeChoice(b: Bot, callbackData: string, sentId: int)
    requires b.state == Some(ApDatetimeChoice)
    modifies b
    ensures var d := old(b.data);
      if callbackData == Callbacks.Yes then
        b.data == d && b.state == (if d.nSteps.Some? then Some(ApDatetime) else old(b.state))
      else if Prompting(d) then
        b.state == Some(ApCommunicationType) && b.data == d.(datetime := Some(None), lastMsgId := Some(sentId))
      else
        b.state == old(b.state) && b.data == d
    ensures b.db == old(b.db) && b.deleted == old(b.deleted)
    ensures ApInv(Some(ApDatetimeChoice), old(b.data)) ==> ApInv(b.state, b.data)
  {
    if callbackData == Callbacks.Yes {
      if b.data.nSteps.Some? {
        b.state := Some(ApDatetime);
      }
      return;
    }
    if Prompting(b.data) {
      b.data := b.data.(datetime := Some(None), lastMsgId := Some(sentId));
      b.state := Some(ApCommunicationType);
    }
  }

  /** `get_datetime`: the typed text is the preferred time. */
  method GetDatetime(b: Bot, text: string, sentId: int)
    requires b.state == Some(ApDatetime)
    modifies b
    ensures var d := old(b.data);
      if Prompting(d) then
        b.state == Some(ApCommunicationType) && b.data == d.(datetime := Some(Some(text)), lastMsgId := Some(sentId))
      else
        b.state == old(b.state) && b.data == d
    ensures b.db == old(b.db) && b.deleted == old(b.deleted)
    ensures ApInv(Some(ApDatetime), old(b.data)) ==> ApInv(b.state, b.data)
  {
    if Prompting(b.data) {
      b.data := b.data.(datetime := Some(Some(text)), lastMsgId := Some(sentId));
      b.state := Some(ApCommunicationType);
    }
  }

  /**
   * `get_com_type`: a call needs a phone. A chat needs the client's
   * username: with one, the phone is skipped and the form asks for the name;
   * without one, the form asks for a phone instead.
   */
  method GetComType(b: Bot, callbackData: string, username: Option<string>, sentId: int)
    requires b.state == Some(ApCommunicationType)
    modifies b
    ensures var d := old(b.data);
      if !Prompting(d) then
        b.state == old(b.state) && b.data == d
      else if callbackData == Callbacks.ChooseCall then
        b.state == Some(ApPhone) && b.data == d.(communicationType := Some(Call), lastMsgId := Some(sentId))
      else if username.None? || username.value == "" then
        && b.state == Some(ApPhone)
        && b.data == d.(communicationType := Some(Chat), isUsernameEmpty := Some(true), lastMsgId := Some(sentId))
      else
        && b.state == Some(ApName)
        && b.data == d.(communicationType := Some(Chat), isUsernameEmpty := Some(false),
             username := Some(username), phone := Some(None), lastMsgId := Some(sentId))
    ensures b.db == old(b.db) && b.deleted == old(b.deleted)
    ensures ApInv(Some(ApCommunicationType), old(b.data)) ==> ApInv(b.state, b.data)
  {
    if !Prompting(b.data) {
      return;
    }
    if callbackData == Callbacks.ChooseCall {
      b.data := b.data.(communicationType := Some(Call), lastMsgId := Some(sentId));
      b.state := Some(ApPhone);
      return;
    }
    b.state := Some(ApPhone);
    if username.None? || username.value == "" {
      b.data := b.data.(communicationType := Some(Chat), isUsernameEmpty := Some(true), lastMsgId := Some(sentId));
    } else {
      b.data := b.data.(communicationType := Some(Chat), isUsernameEmpty := Some(false),
        username := Some(username), phone := Some(None), lastMsgId := Some(sentId));
      b.state := Some(ApName);
    }
  }

  /**
   * `get_phone`: typed digits that fail `check_phone` only renew the prompt;
   * a shared contact or an accepted number is stored with the client's
   * username, and the form asks for the name.
   */
  method GetPhone(b: Bot, m: CallbackHandlers.PhoneMessage, username: Option<string>, sentId: int)
    requires b.state == Some(ApPhone)
    modifies b
    ensures var d := old(b.data); var phone := CallbackHandlers.PhoneOf(m);
      if d.userUid.None? || d.nSteps.None? then
        b.state == old(b.state) && b.data == d
      else if phone.None? then
        b.state == old(b.state) && b.data == d.(lastMsgId := Some(sentId))
      else
        && b.state == Some(ApName)
        && b.data == d.(username := Some(username), phone := Some(phone), lastMsgId := Some(sentId))
    ensures b.db == old(b.db) && b.deleted == old(b.deleted)
    ensures ApInv(Some(ApPhone), old(b.data)) ==> ApInv(b.state, b.data)
  {
    if b.data.userUid.None? || b.data.nSteps.None? {
      return;
    }
    var phone := CallbackHandlers.PhoneOf(m);
    if phone.None? {
      b.data := b.data.(lastMsgId := Some(sentId));
      return;
    }
    b.data := b.data.(username := Some(username), phone := Some(phone), lastMsgId := Some(sentId));
    b.state := Some(ApName);
  }

  /**
   * `get_name`: the request is posted to the clinic's chat. Offline, it is
   * stored at once, the session finishes and the client gets their main
   * menu; online, the form moves to the payment. A name `process_input`
   * rejects, a request text that cannot be built or a session without the
   * user or the form message raises before anything happens; offline, a
   * chat session without `is_username_empty` raises after the booking.
   */
  method GetName(b: Bot, text: string, chatMsgId: int, sentId: int, now: int) returns (menu: Option<Menu>)
    requires b.state == Some(ApName)
    modifies b, b.cache
    ensures var d := old(b.data); var name := CallbackHandlers.TypedName(text);
      var d1 := if name.Some? then d.(name := name) else d;
      if name.None? || !RequestReady(d1) || d.userUid.None? || d.lastMsgId.None? then
        menu.None? && b.state == old(b.state) && b.data == d && b.db == old(b.db)
        && b.cache.entries == old(b.cache.entries)
      else if d.consultationType != Some(Offline) then
        && menu.None? && b.db == old(b.db) && b.cache.entries == old(b.cache.entries)
        && b.state == Some(ApPayment)
        && b.data == d1.(requestMsgId := Some(chatMsgId), lastMsgId := Some(sentId))
      else if !AppointmentKeys(d1) then
        menu.None? && b.state == old(b.state) && b.data == d && b.db == old(b.db)
        && b.cache.entries == old(b.cache.entries)
      else
        && b.db == Booked(old(b.db), d1, now)
        && (if d.communicationType == Some(Chat) && d.isUsernameEmpty.None? then
              menu.None? && b.state == old(b.state) && b.data == d && b.cache.entries == old(b.cache.entries)
            else
              && b.state.None? && b.data == Empty
              && menu == Some(MainMenuFor(d.userUid.value, b.master, Read(old(b.cache.entries), b.cache.up, b.db, AdminsKey)))
              && b.cache.entries == Filled(old(b.cache.entries), b.cache.up, b.db, AdminsKey))
    ensures b.deleted == old(b.deleted) && b.cache.up == old(b.cache.up)
    ensures old(CacheInv(b)) ==> CacheInv(b)
    ensures Contacted(old(b.data)) ==> ApInv(b.state, b.data)
  {
    var name := CallbackHandlers.TypedName(text);
    if name.None? {
      return None;
    }
    var d1 := b.data.(name := name);
    if !RequestReady(d1) || d1.userUid.None? || d1.lastMsgId.None? {
      return None;
    }
    if d1.consultationType != Some(Offline) {
      ToPayment(b, name.value, chatMsgId, sentId);
      return None;
    }
    menu := BookOffline(b, d1, now);
  }

  /** The online branch of `get_name`: the posted request is remembered and the form moves to the payment. */
  method ToPayment(b: Bot, name: string, chatMsgId: int, sentId: int)
    requires b.data.consultationType != Some(Offline)
    modifies b
    ensures b.state == Some(ApPayment)
    ensures b.data == old(b.data).(name := Some(name), requestMsgId := Some(chatMsgId), lastMsgId := Some(sentId))
    ensures b.db == old(b.db) && b.deleted == old(b.deleted) && b.cache.entries == old(b.cache.entries)
    ensures Contacted(old(b.data)) ==> Named(b.data)
  {
    b.data := b.data.(name := Some(name), requestMsgId := Some(chatMsgId), lastMsgId := Some(sentId));
    b.state := Some(ApPayment);
  }

  /**
   * The offline branch of `get_name`: the appointment is booked with the
   * session's answers, then the session finishes and the client's main menu
   * is shown. A missing appointment key raises before the booking; a chat
   * session without `is_username_empty` raises after it.
   */
  method BookOffline(b: Bot, d1: Scratch, now: int) returns (menu: Option<Menu>)
    requires d1.userUid.Some?
    modifies b, b.cache
    ensures if !AppointmentKeys(d1) then
        menu.None? && b.state == old(b.state) && b.data == old(b.data) && b.db == old(b.db)
        && b.cache.entries == old(b.cache.entries)
      else
        && b.db == Booked(old(b.db), d1, now)
        && (if d1.communicationType == Some(Chat) && d1.isUsernameEmpty.None? then
              menu.None? && b.state == old(b.state) && b.data == old(b.data) && b.cache.entries == old(b.cache.entries)
            else
              && b.state.None? && b.data == Empty
              && menu == Some(MainMenuFor(d1.userUid.value, b.master, Read(old(b.cache.entries), b.cache.up, b.db, AdminsKey)))
              && b.cache.entries == Filled(old(b.cache.entries), b.cache.up, b.db, AdminsKey))
    ensures b.deleted == old(b.deleted) && b.cache.up == old(b.cache.up)
    ensures old(CacheInv(b)) ==> CacheInv(b)
  {
    ghost var e0 := b.cache.entries;
    ghost var db0 := b.db;
    if !AppointmentKeys(d1) {
      return None;
    }
    b.db := Booked(b.db, d1, now);
    if d1.communicationType == Some(Chat) && d1.isUsernameEmpty.None? {
      return None;
    }
    if b.cache.up && CoherentWith(e0, db0) {
      CoherentAfterOtherWrite(e0, db0, b.db);
    }
    var admin := AdminCheck(b, d1.userUid.value);
    menu := Some(if admin then MainMenuAdmin else MainMenuClient);
    b.Finish();
  }

  /**
   * In a session that followed the form, the name step of an offline
   * consultation always books one appointment with the session's answers and
   * finishes, unless the client gave an empty phone and has no username.
   */
  lemma OfflineNameBooks(d: Scratch, name: string)
    requires ApInv(Some(ApName), d) && d.consultationType == Some(Offline)
    requires !PhoneFalsy(d.phone.value) || d.username.value.Some?
    ensures var d1 := d.(name := Some(name));
      && RequestReady(d1) && AppointmentKeys(d1) && d.userUid.Some? && d.lastMsgId.Some?
      && !(d.communicationType == Some(Chat) && d.isUsernameEmpty.None?)
  {
    ReadyAtName(d, name);
  }

  /**
   * `start_payment`: the invoice charges the chosen doctor's price for the
   * chosen speciality, in kopecks; the price is kept and the invoice is
   * deleted with the cards later. A session without the doctor's card or the
   * speciality, a price the database lacks, or a session without the user
   * or the request raises before the invoice; without the card list, after.
   */
  method StartPayment(b: Bot, sentId: int) returns (amount: Option<int>)
    requires b.state == Some(ApPayment)
    modifies b
    ensures var d := old(b.data); var price := InvoicePrice(b.db, d);
      if price.None? || d.userUid.None? || d.userRequest.None? then
        amount.None? && b.data == d
      else
        && amount == Some(price.value * 100)
        && b.data == (if d.messagesToDel.None? then d
             else d.(unitPrice := Some(price.value), messagesToDel := Some(d.messagesToDel.value + [sentId])))
    ensures b.state == old(b.state) && b.db == old(b.db) && b.deleted == old(b.deleted)
    ensures ApInv(Some(ApPayment), old(b.data)) ==> ApInv(b.state, b.data)
  {
    var price := InvoicePrice(b.db, b.data);
    if price.None? || b.data.userUid.None? || b.data.userRequest.None? {
      return None;
    }
    amount := Some(price.value * 100);
    if b.data.messagesToDel.Some? {
      b.data := b.data.(unitPrice := Some(price.value), messagesToDel := Some(b.data.messagesToDel.value + [sentId]));
    }
  }

  /** In a session that followed the form, the only thing that stops the invoice is a price the database lacks. */
  lemma InvoiceAfterForm(db: Db, d: Scratch)
    requires ApInv(Some(ApPayment), d)
    ensures var ref := Get(d.docDict.value, IntToString(d.doctorId.value.value));
      InvoicePrice(db, d) == if ref.None? then None else PriceOf(db, ref.value.photo, d.specialityTitle.value.value)
    ensures d.userUid.Some? && d.userRequest.Some? && d.messagesToDel.Some?
  {
  }

  /**
   * `process_payment`: a payment with another payload is ignored. The
   * appointment's payment is confirmed, the appointment stored and the form
   * moved to the link step; when the link is made and sent the session
   * finishes, otherwise it stays at the link step. A session without the
   * user, the form message, the price, the posted request or an
   * appointment key raises before the booking.
   */
  method ProcessPayment(b: Bot, payload: string, sentId: int, linkOk: bool, now: int)
    requires b.state == Some(ApPayment)
    modifies b
    ensures var d := old(b.data);
      if payload != AppointmentPayload || d.userUid.None? || d.lastMsgId.None? || d.unitPrice.None?
        || d.requestMsgId.None? || !AppointmentKeys(d) then
        b.state == old(b.state) && b.data == d && b.db == old(b.db)
      else
        && b.db == Booked(old(b.db), d, now)
        && (if linkOk then b.state.None? && b.data == Empty else b.state == Some(ApLink) && b.data == d)
    ensures b.deleted == old(b.deleted)
    ensures ApInv(Some(ApPayment), old(b.data)) ==> ApInv(b.state, b.data)
  {
    var d := b.data;
    if payload != AppointmentPayload || d.userUid.None? || d.lastMsgId.None? || d.unitPrice.None?
      || d.requestMsgId.None? || !AppointmentKeys(d) {
      return;
    }
    b.db := Booked(b.db, d, now);
    b.state := Some(ApLink);
    if linkOk {
      b.Finish();
    }
  }

  /** A paid online consultation in a session that followed the form has every appointment key, and books a row with its doctor. */
  lemma PaymentBooks(d: Scratch)
    requires ApInv(Some(ApPayment), d)
    ensures AppointmentKeys(d) && d.doctorId.value.Some? && d.consultationType == Some(Online)
  {
  }
}
