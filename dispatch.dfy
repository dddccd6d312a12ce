/**
 * How aiogram routes an update: every `register_*_handler` call adds a
 * route (a handler, the states it listens in, and the filters on the
 * update), `handlers/registration.py` registers the modules in a fixed
 * order, and an update goes to the FIRST registered route whose state and
 * filters accept it. An update no route accepts is dropped.
 *
 * The handlers are named after the Python functions, prefixed by their
 * module where two modules share a name; each has its model in the
 * module of the same file (`UdGetDoctor` is `UpdateDoctorHandlers.GetDoctor`).
 */
module Dispatcher {
  import opened Wrappers
  import opened PyText
  import opened Fsm
  import Callbacks
  import Commands

  datatype Handler =
    // commands.py
    | Start
    // admin_panel_nav.py
    | AdminMenuNavigation | MovingBackToMenu
    // create_doctor.py
    | CdCreateDoctor | CdCreateNewSpecialities | CdGetNewSpecialities | CdChooseSpecialities
    | CdGetSpecialities | CdGetName | CdGetPhoto | CdGetDescription | CdGetExperienceChoice
    | CdGetExperience | CdGetScienceDegree | CdGetQualCategory | CdGetPrice | CdGetConfirmation
    // update_doctor.py
    | UdUpdateDoctor | UdGetDoctor | UdGetSection | UdGetSpeciality | UdChangeValue
    | UdGetNewValuePhoto | UdGetNewValueCb | UdGetNewValueMsg | UdGetAction | UdChooseSpecialities
    | UdCreateNewSpecialities | UdGetNewSpecialities | UdUpdateSpecialities | UdGetPrice
    | UdBackToCurValue
    // delete_doctor.py
    | DdDeleteDoctor | DdChooseDoctors | DdGetDoctors | DdGetConfirmation
    // show_doctor.py
    | SdShowDoctor | SdGetDoctor | SdMoveBackToDoctors
    // statistic.py
    | ShowStandardStatistics | ShowCustomStatistics | GetPeriod
    // create_admin.py
    | CaCreateAdmin | CaGetUid | CaGetName | CaGetPrivType | CaGetConfirmation
    // delete_admin.py
    | DaDeleteAdmin | DaChooseAdmins | DaGetAdmins | DaGetConfirmation
    // callback.py
    | CbFillForm | CbGetName | CbGetPhone
    // appointment.py
    | ApFillForm | ApGetConsType | ApShowPrev | ApShowNext | ApGetSpeciality | ApGetRequest
    | ApGetDatetimeChoice | ApGetDatetime | ApGetComType | ApGetPhone | ApGetName
    | ApStartPayment | ApProcessPreCheckoutQuery | ApProcessPayment
    // feedback.py, contacts.py, instruction.py
    | FbLeaveFeedback | FbGetMessage | ShowContacts | SendInstruction

  /** The content of a message, as far as the content-type filters tell them apart. */
  datatype ContentKind = TextContent | PhotoContent | DocumentContent | ContactContent
    | SuccessfulPaymentContent | OtherContent

  /** A button press carrying its callback string, a message, or the pre-checkout query of a payment. */
  datatype Event =
    | Query(data: string)
    | Message(kind: ContentKind, text: string)
    | PreCheckout

  /** The callback lambdas; each first requires a non-empty `x.data`. */
  datatype QueryFilter =
    | Equals(value: string)
    | StartsWith(prefix: string)
    | StartsWithEither(first: string, second: string)
    | OneOf(values: seq<string>)

  /** `content_types` of a message handler (`TEXT` when none is given). */
  datatype Kinds = AnyKind | KindsIn(kinds: seq<ContentKind>)

  /** The text filter of a message handler, after its content types. */
  datatype TextFilter = AnyText | StartCommand | TriggerWord

  datatype RouteKind =
    | OnQuery(query: QueryFilter)
    | OnMessage(kinds: Kinds, text: TextFilter)
    | OnPreCheckout

  /** `state='*'`, or the listed states. */
  datatype StateFilter = AnyState | InStates(states: seq<St>)

  datatype Route = Route(handler: Handler, kind: RouteKind, states: StateFilter)

  // ------------------------------------------------------------ filters

  /** `commands=['старт', 'start']`: the first word is `/` and one of them, in any case. */
  const CommandWords: seq<string> := ["старт", "start"]

  /** The end of the word that starts at `i`. */
  function WordEnd(t: string, i: nat): (r: nat)
    requires i <= |t|
    ensures i <= r <= |t|
    decreases |t| - i
  {
    if i == |t| || IsSpace(t[i]) then i else WordEnd(t, i + 1)
  }

  /** `text.split()[0]`, or `""` for a text without a word. */
  function FirstWord(text: string): string {
    var t := TrimLeft(text, c => IsSpace(c));
    t[..WordEnd(t, 0)]
  }

  predicate IsStartCommand(text: string) {
    var w := FirstWord(text);
    |w| >= 2 && w[0] == '/' && Lower(w[1..]) in CommandWords
  }

  predicate QueryMatches(f: QueryFilter, data: string) {
    data != "" &&
    match f
    case Equals(v) => data == v
    case StartsWith(p) => Callbacks.StartsWith(data, p)
    case StartsWithEither(p, q) => Callbacks.StartsWith(data, p) || Callbacks.StartsWith(data, q)
    case OneOf(vs) => data in vs
  }

  predicate KindMatches(ks: Kinds, k: ContentKind) {
    match ks
    case AnyKind => true
    case KindsIn(l) => k in l
  }

  predicate TextMatches(f: TextFilter, text: string) {
    match f
    case AnyText => true
    case StartCommand => IsStartCommand(text)
    case TriggerWord => Commands.IsTrigger(text)
  }

  predicate StateMatches(f: StateFilter, s: Option<St>) {
    match f
    case AnyState => true
    case InStates(l) => s.Some? && s.value in l
  }

  /** The route takes the update in state `s`. */
  predicate Matches(r: Route, s: Option<St>, e: Event) {
    && StateMatches(r.states, s)
    && match (r.kind, e)
       case (OnQuery(f), Query(data)) => QueryMatches(f, data)
       case (OnMessage(ks, tf), Message(k, text)) => KindMatches(ks, k) && TextMatches(tf, text)
       case (OnPreCheckout, PreCheckout) => true
       case _ => false
  }

  // ------------------------------------------------------------ first match

  /** The first route at or after `from` that takes the update. */
  function FirstMatch(routes: seq<Route>, s: Option<St>, e: Event, from: nat): (r: Option<nat>)
    requires from <= |routes|
    ensures r.Some? ==> from <= r.value < |routes|
    decreases |routes| - from
  {
    if from == |routes| then None
    else if Matches(routes[from], s, e) then Some(from)
    else FirstMatch(routes, s, e, from + 1)
  }

  /** The handler the dispatcher calls, or `None` where the update is dropped. */
  function Dispatch(routes: seq<Route>, s: Option<St>, e: Event): Option<Handler> {
    var i := FirstMatch(routes, s, e, 0);
    if i.None? then None else Some(routes[i.value].handler)
  }

  /** No route of the table takes the update. */
  predicate Ignores(routes: seq<Route>, s: Option<St>, e: Event) {
    forall j :: 0 <= j < |routes| ==> !Matches(routes[j], s, e)
  }

  /** `FirstMatch` finds a route that takes the update with none before it, or finds nothing and there is nothing. */
  lemma {:induction false} FirstMatchSpec(routes: seq<Route>, s: Option<St>, e: Event, from: nat)
    requires from <= |routes|
    ensures var i := FirstMatch(routes, s, e, from);
      && (i.Some? ==>
            && Matches(routes[i.value], s, e)
            && forall j :: from <= j < i.value ==> !Matches(routes[j], s, e))
      && (i.None? <==> forall j :: from <= j < |routes| ==> !Matches(routes[j], s, e))
    decreases |routes| - from
  {
    if from < |routes| && !Matches(routes[from], s, e) {
      FirstMatchSpec(routes, s, e, from + 1);
    }
  }

  /** The dispatcher calls the handler of the first route that takes the update. */
  lemma DispatchPicks(routes: seq<Route>, s: Option<St>, e: Event, i: nat)
    requires i < |routes| && Matches(routes[i], s, e)
    requires Ignores(routes[..i], s, e)
    ensures Dispatch(routes, s, e) == Some(routes[i].handler)
  {
    forall j | 0 <= j < i ensures !Matches(routes[j], s, e) {
      assert routes[..i][j] == routes[j];
    }
    FirstMatchSpec(routes, s, e, 0);
  }

  /** An update is dropped exactly when no route takes it. */
  lemma DispatchDrops(routes: seq<Route>, s: Option<St>, e: Event)
    ensures Dispatch(routes, s, e).None? <==> Ignores(routes, s, e)
  {
    FirstMatchSpec(routes, s, e, 0);
  }

  /** Routes registered earlier that ignore the update do not change where it goes. */
  lemma DispatchSkips(first: seq<Route>, rest: seq<Route>, s: Option<St>, e: Event)
    requires Ignores(first, s, e)
    ensures Dispatch(first + rest, s, e) == Dispatch(rest, s, e)
  {
    PastIgnored(first, rest, s, e, 0);
    FirstMatchShift(first, rest, s, e, 0);
    var k := FirstMatch(rest, s, e, 0);
    if k.Some? {
      assert (first + rest)[|first| + k.value] == rest[k.value];
    }
  }

  /** The search passes over the ignoring routes. */
  lemma {:induction false} PastIgnored(first: seq<Route>, rest: seq<Route>, s: Option<St>, e: Event, j: nat)
    requires j <= |first| && Ignores(first, s, e)
    ensures FirstMatch(first + rest, s, e, j) == FirstMatch(first + rest, s, e, |first|)
    decreases |first| - j
  {
    if j < |first| {
      assert (first + rest)[j] == first[j];
      PastIgnored(first, rest, s, e, j + 1);
    }
  }

  /** Searching the later table inside the whole finds the same route, moved by the earlier table's length. */
  lemma {:induction false} FirstMatchShift(first: seq<Route>, rest: seq<Route>, s: Option<St>, e: Event, k: nat)
    requires k <= |rest|
    ensures var a := FirstMatch(first + rest, s, e, |first| + k); var b := FirstMatch(rest, s, e, k);
      a.None? == b.None? && (a.Some? ==> a.value == |first| + b.value)
    decreases |rest| - k
  {
    if k < |rest| {
      assert (first + rest)[|first| + k] == rest[k];
      FirstMatchShift(first, rest, s, e, k + 1);
    }
  }

  /** Two tables that ignore an update, one after the other, ignore it. */
  lemma IgnoresBoth(first: seq<Route>, rest: seq<Route>, s: Option<St>, e: Event)
    requires Ignores(first, s, e) && Ignores(rest, s, e)
    ensures Ignores(first + rest, s, e)
  {
    forall j | 0 <= j < |first + rest| ensures !Matches((first + rest)[j], s, e) {
      if j >= |first| {
        assert (first + rest)[j] == rest[j - |first|];
      }
    }
  }
}

/**
 * The routes each handler module registers, in its order, and the whole
 * table in the order `handlers/registration.py` registers the modules.
 */
module Routing {
  import opened Wrappers
  import opened Fsm
  import opened Dispatcher
  import Callbacks
  import Commands

  const TextOnly := KindsIn([TextContent])

  function Msg(h: Handler, states: seq<St>): Route {
    Route(h, OnMessage(TextOnly, AnyText), InStates(states))
  }

  function Btn(h: Handler, f: QueryFilter, states: seq<St>): Route {
    Route(h, OnQuery(f), InStates(states))
  }

  /** A button accepted in every state, the way the entry points are registered. */
  function Entry(h: Handler, f: QueryFilter): Route {
    Route(h, OnQuery(f), AnyState)
  }

  const CommandsRoutes: seq<Route> := [
    Route(Start, OnMessage(TextOnly, StartCommand), AnyState),
    Route(Start, OnMessage(TextOnly, TriggerWord), AnyState)]

  const AdminPanelRoutes: seq<Route> := [
    Entry(AdminMenuNavigation, StartsWith(Callbacks.AdminMenuNav)),
    Entry(MovingBackToMenu, StartsWith(Callbacks.BackToMenu))]

  const CreateDoctorRoutes: seq<Route> := [
    Entry(CdCreateDoctor, Equals(Callbacks.CreateDoctor)),
    Btn(CdCreateNewSpecialities, Equals(Callbacks.NewSpecialities), [CdSpeciality]),
    Msg(CdGetNewSpecialities, [CdSpeciality]),
    Btn(CdChooseSpecialities, StartsWith(Callbacks.SpecialityTitle), [CdSpeciality]),
    Btn(CdGetSpecialities, Equals(Callbacks.SelectionCompleted), [CdSpeciality]),
    Msg(CdGetName, [CdName]),
    Route(CdGetPhoto, OnMessage(AnyKind, AnyText), InStates([CdPhoto])),
    Msg(CdGetDescription, [CdDescription]),
    Btn(CdGetExperienceChoice, StartsWith(Callbacks.Experience), [CdExperienceChoice]),
    Msg(CdGetExperience, [CdExperience]),
    Btn(CdGetScienceDegree, StartsWith(Callbacks.ChooseScienceDegree), [CdScienceDegree]),
    Btn(CdGetQualCategory, StartsWith(Callbacks.ChooseQualCategory), [CdQualCategory]),
    Msg(CdGetPrice, [CdPrice]),
    Btn(CdCreateDoctor, Equals(Callbacks.ChangeChoice), [CdConfirmation]),
    Btn(CdGetConfirmation, Equals(Callbacks.Confirmation), [CdConfirmation])]

  const UpdateDoctorRoutes: seq<Route> := [
    Entry(UdUpdateDoctor, Equals(Callbacks.UpdateDoctor)),
    Btn(UdGetDoctor, StartsWith(Callbacks.ChoosePerson), [UdDoctor]),
    Btn(UdGetDoctor, OneOf([Callbacks.ChooseSection, Callbacks.Edit]), [UdSpeciality, UdCurValue, SdDoctor]),
    Btn(UdGetSection, StartsWith(Callbacks.ChooseSection), [UdSection, UdCurValue]),
    Btn(UdGetSpeciality, StartsWith(Callbacks.SpecialityTitle + [Callbacks.Sep]), [UdSpeciality]),
    Btn(UdChangeValue, Equals(Callbacks.ChangeInfo), [UdCurValue]),
    Route(UdGetNewValuePhoto, OnMessage(KindsIn([PhotoContent, DocumentContent]), AnyText), InStates([UdNewValue])),
    Btn(UdGetNewValueCb, StartsWithEither(Callbacks.ChooseScienceDegree, Callbacks.ChooseQualCategory), [UdNewValue]),
    Msg(UdGetNewValueMsg, [UdNewValue]),
    Btn(UdGetAction, OneOf([Callbacks.AddSpecialities, Callbacks.DeleteSpecialities]), [UdAction]),
    Btn(UdChooseSpecialities, StartsWith(Callbacks.SpecialityTitle), [UdSpecialitiesEditing]),
    Btn(UdCreateNewSpecialities, Equals(Callbacks.NewSpecialities), [UdSpecialitiesEditing]),
    Msg(UdGetNewSpecialities, [UdSpecialitiesEditing]),
    Btn(UdUpdateSpecialities, Equals(Callbacks.SelectionCompleted), [UdSpecialitiesEditing]),
    Msg(UdGetPrice, [UdPrice]),
    Btn(UdBackToCurValue, Equals(Callbacks.CurValue), [UdAction])]

  const DeleteDoctorRoutes: seq<Route> := [
    Entry(DdDeleteDoctor, Equals(Callbacks.DeleteDoctor)),
    Btn(DdChooseDoctors, StartsWith(Callbacks.ChoosePerson), [DdDoctors]),
    Btn(DdGetDoctors, Equals(Callbacks.SelectionCompleted), [DdDoctors]),
    Btn(DdDeleteDoctor, Equals(Callbacks.ChangeChoice), [DdConfirmation]),
    Btn(DdGetConfirmation, Equals(Callbacks.Confirmation), [DdConfirmation])]

  const ShowDoctorRoutes: seq<Route> := [
    Entry(SdShowDoctor, Equals(Callbacks.ShowDoctor)),
    Btn(SdGetDoctor, StartsWith(Callbacks.ChoosePerson), [SdDoctor]),
    Btn(SdMoveBackToDoctors, Equals(Callbacks.BackToDoctors), [SdDoctor])]

  const StatisticRoutes: seq<Route> := [
    Entry(ShowStandardStatistics, StartsWith(Callbacks.Statistics + [Callbacks.Sep])),
    Entry(ShowCustomStatistics, Equals(Callbacks.CustomStatistics)),
    Msg(GetPeriod, [StPeriod])]

  const CreateAdminRoutes: seq<Route> := [
    Entry(CaCreateAdmin, Equals(Callbacks.CreateAdmin)),
    Msg(CaGetUid, [CaUid]),
    Msg(CaGetName, [CaName]),
    Btn(CaGetPrivType, StartsWith(Callbacks.Privilege), [CaPrivilegeType]),
    Btn(CaCreateAdmin, Equals(Callbacks.ChangeChoice), [CaConfirmation]),
    Btn(CaGetConfirmation, Equals(Callbacks.Confirmation), [CaConfirmation])]

  const DeleteAdminRoutes: seq<Route> := [
    Entry(DaDeleteAdmin, Equals(Callbacks.DeleteAdmin)),
    Btn(DaChooseAdmins, StartsWith(Callbacks.ChoosePerson), [DaAdmins]),
    Btn(DaGetAdmins, Equals(Callbacks.SelectionCompleted), [DaAdmins]),
    Btn(DaDeleteAdmin, Equals(Callbacks.ChangeChoice), [DaConfirmation]),
    Btn(DaGetConfirmation, Equals(Callbacks.Confirmation), [DaConfirmation])]

  const CallbackRoutes: seq<Route> := [
    Entry(CbFillForm, Equals(Callbacks.CallbackRequest)),
    Msg(CbGetName, [CbName]),
    Route(CbGetPhone, OnMessage(KindsIn([ContactContent, TextContent]), AnyText), InStates([CbPhone]))]

  const AppointmentRoutes: seq<Route> := [
    Entry(ApFillForm, Equals(Callbacks.AppointmentRequest)),
    Btn(ApGetConsType, OneOf([Callbacks.ChooseOffline, Callbacks.ChooseOnline]), [ApConsultationType]),
    Btn(ApShowPrev, StartsWith(Callbacks.Prev), [ApUserRequest]),
    Btn(ApShowNext, StartsWith(Callbacks.Next), [ApUserRequest]),
    Btn(ApGetSpeciality, StartsWith(Callbacks.SpecialityTitle), [ApUserRequest]),
    Msg(ApGetRequest, [ApUserRequest]),
    Btn(ApGetRequest, StartsWith(Callbacks.Doctor), [ApUserRequest]),
    Btn(ApGetDatetimeChoice, OneOf([Callbacks.Yes, Callbacks.No]), [ApDatetimeChoice]),
    Msg(ApGetDatetime, [ApDatetime]),
    Btn(ApGetComType, OneOf([Callbacks.ChooseCall, Callbacks.ChooseChat]), [ApCommunicationType]),
    Route(ApGetPhone, OnMessage(KindsIn([ContactContent, TextContent]), AnyText), InStates([ApPhone])),
    Msg(ApGetName, [ApName]),
    Btn(ApStartPayment, Equals(Callbacks.InitializePayment), [ApPayment]),
    Route(ApProcessPreCheckoutQuery, OnPreCheckout, InStates([ApPayment])),
    Route(ApProcessPayment, OnMessage(KindsIn([SuccessfulPaymentContent]), AnyText), InStates([ApPayment]))]

  const FeedbackRoutes: seq<Route> := [
    Entry(FbLeaveFeedback, Equals(Callbacks.LeaveFeedback)),
    Msg(FbGetMessage, [FbFeedback])]

  const ContactsRoutes: seq<Route> := [Entry(ShowContacts, Equals(Callbacks.ShowContacts))]

  const InstructionRoutes: seq<Route> := [Entry(SendInstruction, Equals(Callbacks.SendInstruction))]

  /** The modules' tables in the order `register_handlers` registers them. */
  const Blocks: seq<seq<Route>> := [CommandsRoutes, AdminPanelRoutes, CreateDoctorRoutes, UpdateDoctorRoutes,
    DeleteDoctorRoutes, ShowDoctorRoutes, StatisticRoutes, CreateAdminRoutes, DeleteAdminRoutes,
    CallbackRoutes, AppointmentRoutes, FeedbackRoutes, ContactsRoutes, InstructionRoutes]

  function Flatten(bs: seq<seq<Route>>): seq<Route>
    decreases |bs|
  {
    if |bs| == 0 then [] else bs[0] + Flatten(bs[1..])
  }

  /** Every route, in registration order. */
  const Routes: seq<Route> := Flatten(Blocks)

  /** Modules registered before module `i` that ignore the update leave it to module `i` and those after. */
  lemma {:induction false} SkipBlocks(bs: seq<seq<Route>>, s: Option<St>, e: Event, i: nat)
    requires i <= |bs| && forall j :: 0 <= j < i ==> Ignores(bs[j], s, e)
    ensures Dispatch(Flatten(bs), s, e) == Dispatch(Flatten(bs[i..]), s, e)
    decreases i
  {
    if i > 0 {
      DispatchSkips(bs[0], Flatten(bs[1..]), s, e);
      SkipBlocks(bs[1..], s, e, i - 1);
      assert bs[1..][i - 1..] == bs[i..];
    }
  }

  /** Within a module, the first of its routes that takes the update wins, whatever is registered after. */
  lemma PickInBlock(b: seq<Route>, rest: seq<Route>, s: Option<St>, e: Event, k: nat)
    requires k < |b| && Matches(b[k], s, e) && Ignores(b[..k], s, e)
    ensures Dispatch(b + rest, s, e) == Some(b[k].handler)
  {
    assert (b + rest)[..k] == b[..k];
    DispatchPicks(b + rest, s, e, k);
  }

  /** The modules' places in the registration order. */
  lemma BlocksAre()
    ensures |Blocks| == 14
    ensures Blocks[0] == CommandsRoutes && Blocks[1] == AdminPanelRoutes && Blocks[2] == CreateDoctorRoutes
    ensures Blocks[3] == UpdateDoctorRoutes && Blocks[4] == DeleteDoctorRoutes && Blocks[5] == ShowDoctorRoutes
    ensures Blocks[6] == StatisticRoutes && Blocks[7] == CreateAdminRoutes && Blocks[8] == DeleteAdminRoutes
    ensures Blocks[9] == CallbackRoutes && Blocks[10] == AppointmentRoutes && Blocks[11] == FeedbackRoutes
    ensures Blocks[12] == ContactsRoutes && Blocks[13] == InstructionRoutes
  {
  }

  /** Module `i` sees the update first when the modules before it ignore it. */
  lemma RoutedByBlock(s: Option<St>, e: Event, i: nat, k: nat)
    requires i < |Blocks| && k < |Blocks[i]|
    requires forall j :: 0 <= j < i ==> Ignores(Blocks[j], s, e)
    requires Matches(Blocks[i][k], s, e) && Ignores(Blocks[i][..k], s, e)
    ensures Dispatch(Routes, s, e) == Some(Blocks[i][k].handler)
  {
    SkipBlocks(Blocks, s, e, i);
    assert Flatten(Blocks[i..]) == Blocks[i] + Flatten(Blocks[i + 1..]) by {
      assert Blocks[i..][1..] == Blocks[i + 1..];
    }
    PickInBlock(Blocks[i], Flatten(Blocks[i + 1..]), s, e, k);
  }

  // ------------------------------------------------------------ outside its flow, a module hears only its entries

  /** The update is no `/start` command and no trigger word. */
  predicate NoCommand(e: Event) {
    e.Message? && e.kind == TextContent ==> !IsStartCommand(e.text) && !Commands.IsTrigger(e.text)
  }

  /** The state belongs to no step of the flow. */
  predicate Outside(s: Option<St>, f: Flow) {
    s.None? || s.value !in States(f)
  }

  /** The button is not the given one. */
  predicate NotButton(e: Event, value: string) {
    e.Query? ==> e.data != value
  }

  /** Text that is no command and no trigger word, and any button, passes the commands module. */
  lemma CommandsIgnore(s: Option<St>, e: Event)
    requires NoCommand(e)
    ensures Ignores(CommandsRoutes, s, e)
  {
  }

  /** A button outside the two navigation prefixes passes the admin panel module. */
  lemma AdminPanelIgnores(s: Option<St>, e: Event)
    requires e.Query? ==>
      !Callbacks.StartsWith(e.data, Callbacks.AdminMenuNav) && !Callbacks.StartsWith(e.data, Callbacks.BackToMenu)
    ensures Ignores(AdminPanelRoutes, s, e)
  {
  }

  /** Outside its flow, the create-doctor module hears only its entry button. */
  lemma CreateDoctorIgnores(s: Option<St>, e: Event)
    requires Outside(s, CreateDoctorFlow) && NotButton(e, Callbacks.CreateDoctor)
    ensures Ignores(CreateDoctorRoutes, s, e)
  {
  }

  /** The update-doctor flow also takes the edit button of a card the show-doctor flow shows. */
  lemma UpdateDoctorIgnores(s: Option<St>, e: Event)
    requires Outside(s, UpdateDoctorFlow) && s != Some(SdDoctor) && NotButton(e, Callbacks.UpdateDoctor)
    ensures Ignores(UpdateDoctorRoutes, s, e)
  {
  }

  /** Outside its flow, the delete-doctor module hears only its entry button. */
  lemma DeleteDoctorIgnores(s: Option<St>, e: Event)
    requires Outside(s, DeleteDoctorFlow) && NotButton(e, Callbacks.DeleteDoctor)
    ensures Ignores(DeleteDoctorRoutes, s, e)
  {
  }

  /** Outside its flow, the show-doctor module hears only its entry button. */
  lemma ShowDoctorIgnores(s: Option<St>, e: Event)
    requires Outside(s, ShowDoctorFlow) && NotButton(e, Callbacks.ShowDoctor)
    ensures Ignores(ShowDoctorRoutes, s, e)
  {
  }

  /** Outside its flow, the statistics module hears only its period buttons and its custom-period entry. */
  lemma StatisticIgnores(s: Option<St>, e: Event)
    requires Outside(s, StatisticsFlow) && NotButton(e, Callbacks.CustomStatistics)
    requires e.Query? ==> !Callbacks.StartsWith(e.data, Callbacks.Statistics + [Callbacks.Sep])
    ensures Ignores(StatisticRoutes, s, e)
  {
  }

  /** Outside its flow, the create-admin module hears only its entry button. */
  lemma CreateAdminIgnores(s: Option<St>, e: Event)
    requires Outside(s, CreateAdminFlow) && NotButton(e, Callbacks.CreateAdmin)
    ensures Ignores(CreateAdminRoutes, s, e)
  {
  }

  /** Outside its flow, the delete-admin module hears only its entry button. */
  lemma DeleteAdminIgnores(s: Option<St>, e: Event)
    requires Outside(s, DeleteAdminFlow) && NotButton(e, Callbacks.DeleteAdmin)
    ensures Ignores(DeleteAdminRoutes, s, e)
  {
  }

  /** Outside its flow, the callback module hears only its entry button. */
  lemma CallbackIgnores(s: Option<St>, e: Event)
    requires Outside(s, CallbackFlow) && NotButton(e, Callbacks.CallbackRequest)
    ensures Ignores(CallbackRoutes, s, e)
  {
  }

  /** Outside its flow, the appointment module hears only its entry button. */
  lemma AppointmentIgnores(s: Option<St>, e: Event)
    requires Outside(s, AppointmentFlow) && NotButton(e, Callbacks.AppointmentRequest)
    ensures Ignores(AppointmentRoutes, s, e)
  {
  }

  // ------------------------------------------------------------ where updates go

  /** The modules before the update-doctor one ignore a button other than their entries. */
  lemma BeforeUpdateDoctor(s: Option<St>, data: string)
    requires Outside(s, CreateDoctorFlow) && data != Callbacks.CreateDoctor
    requires !Callbacks.StartsWith(data, Callbacks.AdminMenuNav) && !Callbacks.StartsWith(data, Callbacks.BackToMenu)
    ensures forall j :: 0 <= j < 3 ==> Ignores(Blocks[j], s, Query(data))
  {
    CommandsIgnore(s, Query(data));
    AdminPanelIgnores(s, Query(data));
    CreateDoctorIgnores(s, Query(data));
  }

  /**
   * In `cur_value` the bare "choose section" button goes to `get_doctor`,
   * registered before `get_section`, whose prefix filter would take it too.
   */
  lemma ChooseSectionOpensDoctor()
    ensures Dispatch(Routes, Some(UdCurValue), Query(Callbacks.ChooseSection)) == Some(UdGetDoctor)
    ensures Matches(UpdateDoctorRoutes[3], Some(UdCurValue), Query(Callbacks.ChooseSection))
  {
    var data := Callbacks.ChooseSection;
    assert data[0] != Callbacks.AdminMenuNav[0] && data[0] != Callbacks.BackToMenu[0];
    assert data[1] != Callbacks.CreateDoctor[1];
    BeforeUpdateDoctor(Some(UdCurValue), data);
    assert data != Callbacks.UpdateDoctor by {
      assert |data| != |Callbacks.UpdateDoctor|;
    }
    RoutedByBlock(Some(UdCurValue), Query(data), 3, 2);
  }

  /** In `cur_value` a section button, "choose section:<column>", goes to `get_section`. */
  lemma SectionButtonChoosesSection(column: string)
    ensures Dispatch(Routes, Some(UdCurValue), Query(Callbacks.Build(Callbacks.ChooseSection, column)))
      == Some(UdGetSection)
  {
    var data := Callbacks.Build(Callbacks.ChooseSection, column);
    assert data[..|Callbacks.ChooseSection|] == Callbacks.ChooseSection;
    assert data[0] != Callbacks.AdminMenuNav[0] && data[0] != Callbacks.BackToMenu[0];
    assert data[1] != Callbacks.CreateDoctor[1];
    BeforeUpdateDoctor(Some(UdCurValue), data);
    assert data !in [Callbacks.ChooseSection, Callbacks.Edit] && data != Callbacks.UpdateDoctor by {
      assert data[|Callbacks.ChooseSection|] == Callbacks.Sep;
    }
    Callbacks.BuildStartsWith(Callbacks.ChooseSection, column);
    RoutedByBlock(Some(UdCurValue), Query(data), 3, 3);
  }

  /** Outside its flow, the feedback module hears only its entry button. */
  lemma FeedbackIgnores(s: Option<St>, e: Event)
    requires Outside(s, FeedbackFlow) && NotButton(e, Callbacks.LeaveFeedback)
    ensures Ignores(FeedbackRoutes, s, e)
  {
  }

  // ------------------------------------------------------------ the appointment form

  /** The button is none of the entries registered before the appointment module. */
  predicate NoEarlierEntry(data: string) {
    && data !in [Callbacks.CreateDoctor, Callbacks.UpdateDoctor, Callbacks.DeleteDoctor, Callbacks.ShowDoctor,
         Callbacks.CustomStatistics, Callbacks.CreateAdmin, Callbacks.DeleteAdmin, Callbacks.CallbackRequest]
    && !Callbacks.StartsWith(data, Callbacks.AdminMenuNav) && !Callbacks.StartsWith(data, Callbacks.BackToMenu)
    && !Callbacks.StartsWith(data, Callbacks.Statistics + [Callbacks.Sep])
  }

  /** Those entries are told apart from other buttons by their first two letters. */
  lemma EarlierEntryHeads(data: string)
    requires |data| >= 2 && data[..2] !in ["cr", "up", "de", "sh", "cu", "ca", "ad", "ba", "st"]
    ensures NoEarlierEntry(data)
  {
    assert Callbacks.CreateDoctor[..2] == "cr" && Callbacks.UpdateDoctor[..2] == "up";
    assert Callbacks.DeleteDoctor[..2] == "de" && Callbacks.ShowDoctor[..2] == "sh";
    assert Callbacks.CustomStatistics[..2] == "cu" && Callbacks.CreateAdmin[..2] == "cr";
    assert Callbacks.DeleteAdmin[..2] == "de" && Callbacks.CallbackRequest[..2] == "ca";
    PrefixHead(data, Callbacks.AdminMenuNav);
    PrefixHead(data, Callbacks.BackToMenu);
    PrefixHead(data, Callbacks.Statistics + [Callbacks.Sep]);
    assert Callbacks.AdminMenuNav[..2] == "ad" && Callbacks.BackToMenu[..2] == "ba";
    assert (Callbacks.Statistics + [Callbacks.Sep])[..2] == "st";
  }

  /** A prefix of two letters or more fixes the first two letters. */
  lemma PrefixHead(data: string, p: string)
    requires |p| >= 2 && |data| >= 2
    ensures Callbacks.StartsWith(data, p) ==> data[..2] == p[..2]
  {
    if Callbacks.StartsWith(data, p) {
      assert data[..2] == data[..|p|][..2];
    }
  }

  /** While the client picks a speciality, the modules registered before it ignore all but their entries and the commands. */
  lemma BeforeAppointment(e: Event)
    requires NoCommand(e) && (e.Query? ==> NoEarlierEntry(e.data))
    ensures forall j :: 0 <= j < 10 ==> Ignores(Blocks[j], Some(ApUserRequest), e)
  {
    DoctorModulesIgnore(e);
    OtherModulesIgnore(e);
  }

  /** While the client picks a speciality, the commands, panel and doctor modules stay silent. */
  lemma DoctorModulesIgnore(e: Event)
    requires NoCommand(e) && (e.Query? ==> NoEarlierEntry(e.data))
    ensures forall j :: 0 <= j < 6 ==> Ignores(Blocks[j], Some(ApUserRequest), e)
  {
    CommandsIgnore(Some(ApUserRequest), e);
    AdminPanelIgnores(Some(ApUserRequest), e);
    CreateDoctorIgnores(Some(ApUserRequest), e);
    UpdateDoctorIgnores(Some(ApUserRequest), e);
    DeleteDoctorIgnores(Some(ApUserRequest), e);
    ShowDoctorIgnores(Some(ApUserRequest), e);
  }

  /** While the client picks a speciality, the statistics, admin and callback modules stay silent. */
  lemma OtherModulesIgnore(e: Event)
    requires e.Query? ==> NoEarlierEntry(e.data)
    ensures forall j :: 6 <= j < 10 ==> Ignores(Blocks[j], Some(ApUserRequest), e)
  {
    StatisticIgnores(Some(ApUserRequest), e);
    CreateAdminIgnores(Some(ApUserRequest), e);
    DeleteAdminIgnores(Some(ApUserRequest), e);
    CallbackIgnores(Some(ApUserRequest), e);
  }

  /** With the earlier modules silent, route `k` of the appointment module takes the update. */
  lemma AppointmentStep(e: Event, k: nat)
    requires k < |AppointmentRoutes|
    requires forall j :: 0 <= j < 10 ==> Ignores(Blocks[j], Some(ApUserRequest), e)
    requires Matches(AppointmentRoutes[k], Some(ApUserRequest), e)
    requires Ignores(AppointmentRoutes[..k], Some(ApUserRequest), e)
    ensures Dispatch(Routes, Some(ApUserRequest), e) == Some(AppointmentRoutes[k].handler)
  {
    BlocksAre();
    RoutedByBlock(Some(ApUserRequest), e, 10, k);
  }

  /** While the client picks a speciality, the "prev" button of the page goes to `show_prev`. */
  lemma PrevButtonRoutes(page: string)
    ensures Dispatch(Routes, Some(ApUserRequest), Query(Callbacks.Build(Callbacks.Prev, page))) == Some(ApShowPrev)
  {
    var data := Callbacks.Build(Callbacks.Prev, page);
    assert data[..2] == "pr";
    EarlierEntryHeads(data);
    BeforeAppointment(Query(data));
    Callbacks.BuildStartsWith(Callbacks.Prev, page);
    assert data != Callbacks.AppointmentRequest by {
      assert Callbacks.AppointmentRequest[..2] == "ap";
    }
    assert Ignores(AppointmentRoutes[..2], Some(ApUserRequest), Query(data));
    AppointmentStep(Query(data), 2);
  }

  /** The "next" button of the page goes to `show_next`. */
  lemma NextButtonRoutes(page: string)
    ensures Dispatch(Routes, Some(ApUserRequest), Query(Callbacks.Build(Callbacks.Next, page))) == Some(ApShowNext)
  {
    var data := Callbacks.Build(Callbacks.Next, page);
    assert data[..2] == "ne";
    EarlierEntryHeads(data);
    BeforeAppointment(Query(data));
    Callbacks.BuildStartsWith(Callbacks.Next, page);
    assert data != Callbacks.AppointmentRequest by {
      assert Callbacks.AppointmentRequest[..2] == "ap";
    }
    assert Ignores(AppointmentRoutes[..3], Some(ApUserRequest), Query(data));
    AppointmentStep(Query(data), 3);
  }

  /** A speciality button of the page goes to `get_speciality`. */
  lemma SpecialityButtonRoutes(key: string)
    ensures Dispatch(Routes, Some(ApUserRequest), Query(Callbacks.Build(Callbacks.SpecialityTitle, key)))
      == Some(ApGetSpeciality)
  {
    var data := Callbacks.Build(Callbacks.SpecialityTitle, key);
    assert data[..2] == "sp" && data[0] == 's';
    EarlierEntryHeads(data);
    BeforeAppointment(Query(data));
    Callbacks.BuildStartsWith(Callbacks.SpecialityTitle, key);
    assert data != Callbacks.AppointmentRequest by {
      assert Callbacks.AppointmentRequest[..2] == "ap";
    }
    assert Ignores(AppointmentRoutes[..4], Some(ApUserRequest), Query(data));
    AppointmentStep(Query(data), 4);
  }

  /** The button under a doctor's card goes to `get_request`. */
  lemma CardButtonRoutes(id: string)
    ensures Dispatch(Routes, Some(ApUserRequest), Query(Callbacks.Build(Callbacks.Doctor, id))) == Some(ApGetRequest)
  {
    var data := Callbacks.Build(Callbacks.Doctor, id);
    assert data[..2] == "do" && data[0] == 'd';
    EarlierEntryHeads(data);
    BeforeAppointment(Query(data));
    Callbacks.BuildStartsWith(Callbacks.Doctor, id);
    assert data != Callbacks.AppointmentRequest by {
      assert Callbacks.AppointmentRequest[..2] == "ap";
    }
    assert Ignores(AppointmentRoutes[..6], Some(ApUserRequest), Query(data));
    AppointmentStep(Query(data), 6);
  }

  /** In every state, `/start` and the trigger words go to `start`, registered first. */
  lemma CommandsReset(s: Option<St>, text: string)
    requires IsStartCommand(text) || Commands.IsTrigger(text)
    ensures Dispatch(Routes, s, Message(TextContent, text)) == Some(Start)
  {
    var e := Message(TextContent, text);
    if IsStartCommand(text) {
      RoutedByBlock(s, e, 0, 0);
    } else {
      assert Ignores(Blocks[0][..1], s, e);
      RoutedByBlock(s, e, 0, 1);
    }
  }

  /** Any other text typed while the client picks a speciality is the request, for `get_request`. */
  lemma RequestTextRoutes(text: string)
    requires !IsStartCommand(text) && !Commands.IsTrigger(text)
    ensures Dispatch(Routes, Some(ApUserRequest), Message(TextContent, text)) == Some(ApGetRequest)
  {
    var e := Message(TextContent, text);
    BeforeAppointment(e);
    assert Ignores(AppointmentRoutes[..5], Some(ApUserRequest), e);
    AppointmentStep(e, 5);
  }

  /** Out of every flow, the "appointment request" button opens the form at `fill_form`. */
  lemma FillFormFromIdle()
    ensures Dispatch(Routes, None, Query(Callbacks.AppointmentRequest)) == Some(ApFillForm)
  {
    var e := Query(Callbacks.AppointmentRequest);
    assert Callbacks.AppointmentRequest[..2] == "ap";
    EarlierEntryHeads(Callbacks.AppointmentRequest);
    IdleDoctorModulesIgnore(e);
    IdleOtherModulesIgnore(e);
    BlocksAre();
    RoutedByBlock(None, e, 10, 0);
  }

  /** Out of every flow, the commands, panel and doctor modules stay silent on other buttons. */
  lemma IdleDoctorModulesIgnore(e: Event)
    requires NoCommand(e) && (e.Query? ==> NoEarlierEntry(e.data))
    ensures forall j :: 0 <= j < 6 ==> Ignores(Blocks[j], None, e)
  {
    CommandsIgnore(None, e);
    AdminPanelIgnores(None, e);
    CreateDoctorIgnores(None, e);
    UpdateDoctorIgnores(None, e);
    DeleteDoctorIgnores(None, e);
    ShowDoctorIgnores(None, e);
  }

  /** Out of every flow, the statistics, admin and callback modules stay silent on other buttons. */
  lemma IdleOtherModulesIgnore(e: Event)
    requires e.Query? ==> NoEarlierEntry(e.data)
    ensures forall j :: 6 <= j < 10 ==> Ignores(Blocks[j], None, e)
  {
    StatisticIgnores(None, e);
    CreateAdminIgnores(None, e);
    DeleteAdminIgnores(None, e);
    CallbackIgnores(None, e);
  }

  /** A photo sent while the client picks a speciality matches no route and is dropped. */
  lemma RequestPhotoDropped(caption: string)
    ensures Dispatch(Routes, Some(ApUserRequest), Message(PhotoContent, caption)).None?
  {
    var e := Message(PhotoContent, caption);
    BeforeAppointment(e);
    FeedbackIgnores(Some(ApUserRequest), e);
    assert forall j :: 10 <= j < 14 ==> Ignores(Blocks[j], Some(ApUserRequest), e);
    SkipBlocks(Blocks, Some(ApUserRequest), e, 14);
  }
}
