/**
 * One user's conversation as aiogram keeps it: the current state of some
 * `StatesGroup` (or none), the scratch dictionary `data`, and, around them,
 * the database, the cache and the chat messages the bot deletes.
 *
 * A handler that raises leaves behind what it had already done outside the
 * `state.proxy()` block it was in: a state set with `set()`/`next()`, a
 * database write, a message deletion. The edits to `data` inside an open proxy
 * are saved only when the block exits normally.
 */
module Fsm {
  import opened Wrappers
  import opened Db
  import opened ODict
  import opened PyList
  import opened Cache
  import opened Navigation

  /** The `StatesGroup` classes of the handlers. */
  datatype Flow =
    | CreateDoctorFlow | UpdateDoctorFlow | ShowDoctorFlow | DeleteDoctorFlow
    | StatisticsFlow | CreateAdminFlow | DeleteAdminFlow
    | AppointmentFlow | CallbackFlow | FeedbackFlow

  /** Every declared `State()`, named by its group and attribute. */
  datatype St =
    // FSMCreateDoctor
    | CdSpeciality | CdName | CdPhoto | CdDescription | CdExperienceChoice | CdExperience
    | CdScienceDegree | CdQualCategory | CdPrice | CdConfirmation
    // FSMUpdateDoctor
    | UdDoctor | UdSection | UdSpeciality | UdCurValue | UdNewValue | UdAction
    | UdSpecialitiesEditing | UdPrice
    // FSMShowDoctor
    | SdDoctor
    // FSMDeleteDoctor
    | DdDoctors | DdConfirmation
    // FSMStatistics
    | StPeriod
    // FSMCreateAdmin
    | CaUid | CaName | CaPrivilegeType | CaConfirmation
    // FSMDeleteAdmin
    | DaAdmins | DaConfirmation
    // FSMAppointment
    | ApConsultationType | ApUserRequest | ApDatetimeChoice | ApDatetime
    | ApCommunicationType | ApPhone | ApName | ApPayment | ApLink
    // FSMCallback
    | CbName | CbPhone
    // FSMFeedback
    | FbFeedback

  /** A group's states in declaration order. */
  function States(f: Flow): seq<St> {
    match f
    case CreateDoctorFlow => [CdSpeciality, CdName, CdPhoto, CdDescription, CdExperienceChoice,
      CdExperience, CdScienceDegree, CdQualCategory, CdPrice, CdConfirmation]
    case UpdateDoctorFlow => [UdDoctor, UdSection, UdSpeciality, UdCurValue, UdNewValue, UdAction,
      UdSpecialitiesEditing, UdPrice]
    case ShowDoctorFlow => [SdDoctor]
    case DeleteDoctorFlow => [DdDoctors, DdConfirmation]
    case StatisticsFlow => [StPeriod]
    case CreateAdminFlow => [CaUid, CaName, CaPrivilegeType, CaConfirmation]
    case DeleteAdminFlow => [DaAdmins, DaConfirmation]
    case AppointmentFlow => [ApConsultationType, ApUserRequest, ApDatetimeChoice, ApDatetime,
      ApCommunicationType, ApPhone, ApName, ApPayment, ApLink]
    case CallbackFlow => [CbName, CbPhone]
    case FeedbackFlow => [FbFeedback]
  }

  /** The group that declares a state. */
  function FlowOf(s: St): Flow {
    match s
    case CdSpeciality | CdName | CdPhoto | CdDescription | CdExperienceChoice | CdExperience
      | CdScienceDegree | CdQualCategory | CdPrice | CdConfirmation => CreateDoctorFlow
    case UdDoctor | UdSection | UdSpeciality | UdCurValue | UdNewValue | UdAction
      | UdSpecialitiesEditing | UdPrice => UpdateDoctorFlow
    case SdDoctor => ShowDoctorFlow
    case DdDoctors | DdConfirmation => DeleteDoctorFlow
    case StPeriod => StatisticsFlow
    case CaUid | CaName | CaPrivilegeType | CaConfirmation => CreateAdminFlow
    case DaAdmins | DaConfirmation => DeleteAdminFlow
    case ApConsultationType | ApUserRequest | ApDatetimeChoice | ApDatetime
      | ApCommunicationType | ApPhone | ApName | ApPayment | ApLink => AppointmentFlow
    case CbName | CbPhone => CallbackFlow
    case FbFeedback => FeedbackFlow
  }

  /** The position of a state in its group's declaration. */
  function Pos(s: St): nat {
    match s
    case CdSpeciality => 0 case CdName => 1 case CdPhoto => 2 case CdDescription => 3
    case CdExperienceChoice => 4 case CdExperience => 5 case CdScienceDegree => 6
    case CdQualCategory => 7 case CdPrice => 8 case CdConfirmation => 9
    case UdDoctor => 0 case UdSection => 1 case UdSpeciality => 2 case UdCurValue => 3
    case UdNewValue => 4 case UdAction => 5 case UdSpecialitiesEditing => 6 case UdPrice => 7
    case SdDoctor => 0
    case DdDoctors => 0 case DdConfirmation => 1
    case StPeriod => 0
    case CaUid => 0 case CaName => 1 case CaPrivilegeType => 2 case CaConfirmation => 3
    case DaAdmins => 0 case DaConfirmation => 1
    case ApConsultationType => 0 case ApUserRequest => 1 case ApDatetimeChoice => 2
    case ApDatetime => 3 case ApCommunicationType => 4 case ApPhone => 5 case ApName => 6
    case ApPayment => 7 case ApLink => 8
    case CbName => 0 case CbPhone => 1
    case FbFeedback => 0
  }

  /** A state sits in its own group at `Pos`. */
  lemma PosAt(s: St)
    ensures Pos(s) < |States(FlowOf(s))| && States(FlowOf(s))[Pos(s)] == s
  {
  }

  /** No group declares a state twice. */
  lemma StatesNoDup(f: Flow)
    ensures NoDup(States(f))
  {
  }

  /** A state is declared once, in its own group, at `Pos`. */
  lemma PosIsIndex(s: St)
    ensures Pos(s) < |States(FlowOf(s))| && States(FlowOf(s))[Pos(s)] == s
    ensures Index(States(FlowOf(s)), s) == Some(Pos(s))
  {
    PosAt(s);
    StatesNoDup(FlowOf(s));
    var xs := States(FlowOf(s));
    var j := Index(xs, s).value;
    assert xs[j] == xs[Pos(s)];
  }

  lemma OnlyInOwnGroup(s: St, f: Flow)
    ensures s in States(f) <==> FlowOf(s) == f
  {
    GroupMembers(f);
    PosIsIndex(s);
  }

  /** Each group declares only its own states. */
  lemma GroupMembers(f: Flow)
    ensures forall i :: 0 <= i < |States(f)| ==> FlowOf(States(f)[i]) == f
  {
    match f
    case CreateDoctorFlow =>
    case UpdateDoctorFlow =>
    case ShowDoctorFlow =>
    case DeleteDoctorFlow =>
    case StatisticsFlow =>
    case CreateAdminFlow =>
    case DeleteAdminFlow =>
    case AppointmentFlow =>
    case CallbackFlow =>
    case FeedbackFlow =>
  }

  /**
   * `Group.next()`: the state after the current one in the group, the
   * group's first state when the current one is not the group's, and no
   * state after the last.
   */
  function Next(f: Flow, cur: Option<St>): (r: Option<St>)
    ensures cur.None? || FlowOf(cur.value) != f ==> r == Some(States(f)[0])
    ensures cur.Some? && FlowOf(cur.value) == f && Pos(cur.value) + 1 < |States(f)| ==>
      r == Some(States(f)[Pos(cur.value) + 1])
    ensures cur.Some? && FlowOf(cur.value) == f && Pos(cur.value) + 1 == |States(f)| ==> r.None?
  {
    if cur.Some? && FlowOf(cur.value) == f then
      PosIsIndex(cur.value);
      if Pos(cur.value) + 1 < |States(f)| then Some(States(f)[Pos(cur.value) + 1]) else None
    else Some(States(f)[0])
  }

  /** `Next` is aiogram's rule: `states.index(state) + 1`, 0 on `ValueError`, `None` on `IndexError`. */
  lemma NextIsIndexRule(f: Flow, cur: Option<St>)
    ensures var i := if cur.Some? && Index(States(f), cur.value).Some? then Index(States(f), cur.value).value + 1 else 0;
      Next(f, cur) == if i < |States(f)| then Some(States(f)[i]) else None
  {
    if cur.Some? {
      OnlyInOwnGroup(cur.value, f);
      PosIsIndex(cur.value);
    }
  }

  /** A doctor as the doctor lists keep it: `{'name': ..., 'photo': ...}`. */
  datatype DoctorRef = DoctorRef(name: string, photo: string)

  /**
   * The scratch dictionary. A field is `None` while its key is absent; a
   * field whose key can hold Python's `None` has an inner `Option`. A key
   * the flows use with two types (`'price'`, `'speciality_id'`,
   * `'specialities'`) has one field per type.
   */
  datatype Scratch = Scratch(
    lastMsgId: Option<int>,
    userUid: Option<int>,
    messagesToDel: Option<seq<int>>,
    // doctor flows
    specialitiesPool: Option<Dict<string>>,
    specialities: Option<seq<string>>,
    name: Option<string>,
    photo: Option<string>,
    description: Option<string>,
    experience: Option<Option<int>>,
    scienceDegree: Option<Option<string>>,
    qualCategory: Option<Option<string>>,
    prices: Option<seq<int>>,
    noPrice: Option<seq<string>>,
    doctors: Option<Dict<DoctorRef>>,
    doctorsPool: Option<Dict<string>>,
    buttonNames: Option<seq<string>>,
    chosenDoctor: Option<DoctorInfo>,
    section: Option<string>,
    index: Option<nat>,
    speciality: Option<string>,
    specialityId: Option<int>,
    unitPrice: Option<int>,
    specialityIds: Option<seq<int>>,
    action: Option<string>,
    chosenDoctors: Option<Dict<DoctorRef>>,
    // admin flows
    uid: Option<int>,
    privilegeType: Option<string>,
    admins: Option<Dict<string>>,
    chosenAdmins: Option<Dict<string>>,
    // appointment
    consultationType: Option<string>,
    nSteps: Option<string>,
    specialityPages: Option<Dict<string>>,
    nSpec: Option<nat>,
    specialityTitle: Option<Option<string>>,
    docDict: Option<Dict<DoctorRef>>,
    doctorId: Option<Option<int>>,
    userRequest: Option<string>,
    datetime: Option<Option<string>>,
    communicationType: Option<string>,
    isUsernameEmpty: Option<bool>,
    username: Option<Option<string>>,
    phone: Option<Option<string>>,
    requestMsgId: Option<int>,
    // feedback
    message: Option<string>,
    fullName: Option<string>)

  /** The empty dictionary `state.finish()` leaves. */
  const Empty := Scratch(
    None, None, None, None, None, None, None, None, None, None, None, None, None, None, None,
    None, None, None, None, None, None, None, None, None, None, None, None, None, None, None,
    None, None, None, None, None, None, None, None, None, None, None, None, None, None, None)

  /** The ids a deletion loop wrapped in one `try` deletes: those before the first that Telegram refuses. */
  function DeletedUntilFailure(ids: seq<int>, refused: set<int>): (r: seq<int>)
    ensures |r| <= |ids| && r == ids[..|r|]
    ensures forall k :: 0 <= k < |r| ==> r[k] !in refused
    ensures |r| < |ids| ==> ids[|r|] in refused
  {
    if |ids| == 0 || ids[0] in refused then []
    else [ids[0]] + DeletedUntilFailure(ids[1..], refused)
  }

  /** The ids a loop with a `try` around each deletion deletes: every one Telegram accepts, in order. */
  function DeletedSkipping(ids: seq<int>, refused: set<int>): (r: seq<int>)
    ensures forall x :: x in r <==> x in ids && x !in refused
    ensures |r| <= |ids|
  {
    if |ids| == 0 then []
    else
      assert ids == [ids[0]] + ids[1..];
      (if ids[0] in refused then [] else [ids[0]]) + DeletedSkipping(ids[1..], refused)
  }

  /** With nothing refused both loops delete every id; with the first refused the one-`try` loop deletes none. */
  lemma DeletionLoops(ids: seq<int>, refused: set<int>)
    ensures (forall k :: 0 <= k < |ids| ==> ids[k] !in refused) ==> DeletedUntilFailure(ids, refused) == ids
    ensures (forall k :: 0 <= k < |ids| ==> ids[k] !in refused) ==> DeletedSkipping(ids, refused) == ids
    ensures |ids| > 0 && ids[0] in refused ==> DeletedUntilFailure(ids, refused) == []
    ensures |DeletedUntilFailure(ids, refused)| <= |DeletedSkipping(ids, refused)|
  {
    if (forall k :: 0 <= k < |ids| ==> ids[k] !in refused) {
      AllKept(ids, refused);
    }
    UntilFailureWithinSkipping(ids, refused);
  }

  lemma {:induction false} AllKept(ids: seq<int>, refused: set<int>)
    requires forall k :: 0 <= k < |ids| ==> ids[k] !in refused
    ensures DeletedSkipping(ids, refused) == ids
    decreases |ids|
  {
    if |ids| > 0 {
      AllKept(ids[1..], refused);
      assert ids == [ids[0]] + ids[1..];
    }
  }

  lemma {:induction false} UntilFailureWithinSkipping(ids: seq<int>, refused: set<int>)
    ensures |DeletedUntilFailure(ids, refused)| <= |DeletedSkipping(ids, refused)|
    decreases |ids|
  {
    if |ids| > 0 {
      UntilFailureWithinSkipping(ids[1..], refused);
    }
  }

  /**
   * The bot as seen by one user: aiogram's storage for that user (state and
   * data), the database, the shared cache, and the log of deleted messages.
   */
  class Bot {
    var state: Option<St>
    var data: Scratch
    var db: Db
    /** The chat messages deleted so far, in order. */
    var deleted: seq<int>
    const cache: CacheStore
    /** `MASTER_ADMIN`. */
    const master: int
    /** The messages Telegram refuses to delete (too old, or gone already). */
    const refused: set<int>

    constructor (cache: CacheStore, master: int, refused: set<int>, db: Db)
      ensures state.None? && data == Empty && this.db == db && deleted == []
      ensures this.cache == cache && this.master == master && this.refused == refused
    {
      state := None;
      data := Empty;
      this.db := db;
      deleted := [];
      this.cache := cache;
      this.master := master;
      this.refused := refused;
    }

    /** `state.finish()`: no state, empty data. */
    method Finish()
      modifies this
      ensures state.None? && data == Empty
      ensures db == old(db) && deleted == old(deleted)
    {
      state := None;
      data := Empty;
    }

    /** Deletes each id in turn, stopping at the first one Telegram refuses (one `try` around the loop). */
    method DeleteUntilFailure(ids: seq<int>)
      modifies this
      ensures deleted == old(deleted) + DeletedUntilFailure(ids, refused)
      ensures state == old(state) && data == old(data) && db == old(db)
    {
      var i := 0;
      while i < |ids| && ids[i] !in refused
        invariant 0 <= i <= |ids|
        invariant deleted == old(deleted) + ids[..i]
        invariant forall k :: 0 <= k < i ==> ids[k] !in refused
        invariant state == old(state) && data == old(data) && db == old(db)
      {
        deleted := deleted + [ids[i]];
        assert ids[..i + 1] == ids[..i] + [ids[i]];
        i := i + 1;
      }
      UntilFailureIsPrefix(ids, refused, i);
    }

    /** Deletes every id Telegram accepts, skipping the others (a `try` around each deletion). */
    method DeleteSkipping(ids: seq<int>)
      modifies this
      ensures deleted == old(deleted) + DeletedSkipping(ids, refused)
      ensures state == old(state) && data == old(data) && db == old(db)
    {
      var i := 0;
      while i < |ids|
        invariant 0 <= i <= |ids|
        invariant deleted == old(deleted) + DeletedSkipping(ids[..i], refused)
        invariant state == old(state) && data == old(data) && db == old(db)
      {
        SkippingAppend(ids[..i], ids[i], refused);
        assert ids[..i + 1] == ids[..i] + [ids[i]];
        if ids[i] !in refused {
          deleted := deleted + [ids[i]];
        }
        i := i + 1;
      }
      assert ids[..i] == ids;
    }
  }

  /** The loop of `DeleteUntilFailure` stops where the function does. */
  lemma {:induction false} UntilFailureIsPrefix(ids: seq<int>, refused: set<int>, i: nat)
    requires i <= |ids| && (i == |ids| || ids[i] in refused)
    requires forall k :: 0 <= k < i ==> ids[k] !in refused
    ensures DeletedUntilFailure(ids, refused) == ids[..i]
    decreases i
  {
    if i > 0 {
      UntilFailureIsPrefix(ids[1..], refused, i - 1);
      assert ids[..i] == [ids[0]] + ids[1..][..i - 1];
    }
  }

  lemma {:induction false} SkippingAppend(ids: seq<int>, x: int, refused: set<int>)
    ensures DeletedSkipping(ids + [x], refused) == DeletedSkipping(ids, refused) + (if x in refused then [] else [x])
    decreases |ids|
  {
    if |ids| == 0 {
      assert (ids + [x])[1..] == [];
    } else {
      assert (ids + [x])[1..] == ids[1..] + [x];
      SkippingAppend(ids[1..], x, refused);
    }
  }

  /** The cache agrees with the database whenever its server answers. */
  predicate CacheInv(b: Bot)
    reads b, b.cache
  {
    !b.cache.up || b.cache.Coherent(b.db)
  }

  /** `user_uid == MASTER_ADMIN or user_uid in await get_cache('admins')`. */
  method AdminCheck(b: Bot, uid: int) returns (ok: bool)
    modifies b.cache
    ensures ok == IsAdmin(uid, b.master, Read(old(b.cache.entries), b.cache.up, b.db, AdminsKey))
    ensures b.cache.entries == Filled(old(b.cache.entries), b.cache.up, b.db, AdminsKey)
    ensures b.cache.up == old(b.cache.up)
  {
    var admins := b.cache.Get(b.db, AdminsKey);
    ok := uid == b.master || Holds(admins, uid);
  }
}
