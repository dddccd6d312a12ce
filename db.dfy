/**
 * The database as abstract tables: the rows of `models.py` and the queries of
 * `query.py` that the handlers call. Rows keep insertion order, autoincrement
 * ids come from one counter, and every `dt` column takes the time of the
 * write, passed in as `now`.
 */
module Db {
  import opened Wrappers
  import opened Sorting
  import opened PyList

  /** `ConsultationType`: the values of the appointment's `consultation_type` column. */
  const Online := "online"
  const Offline := "offline"

  datatype UserRow = UserRow(tgUid: int, dt: int)

  datatype AppointmentRow = AppointmentRow(
    tgUid: int, consultationType: string, communicationType: string,
    userRequest: string, doctorId: Option<int>, preferableDt: Option<string>, dt: int)

  datatype CallbackRow = CallbackRow(tgUid: int, dt: int)

  datatype FeedbackRow = FeedbackRow(tgUid: int, message: string, dt: int)

  /** One row per (doctor, speciality); a doctor is named by its photo file. */
  datatype DoctorRow = DoctorRow(
    id: int, fullName: string, photo: string, description: string,
    specialityId: Option<int>, experience: Option<int>,
    scienceDegree: Option<string>, qualCategory: Option<string>, price: int, dt: int)

  datatype SpecialityRow = SpecialityRow(id: int, title: string)

  datatype AdminRow = AdminRow(uid: int, fullName: string, privilege: string, dt: int)

  datatype Db = Db(
    users: seq<UserRow>, appointments: seq<AppointmentRow>, callbacks: seq<CallbackRow>,
    feedbacks: seq<FeedbackRow>, doctors: seq<DoctorRow>, specialities: seq<SpecialityRow>,
    admins: seq<AdminRow>, nextId: int)

  /** The rows of a table that satisfy a `WHERE` condition, in table order. */
  function Where<T(!new)>(rows: seq<T>, p: T -> bool): (r: seq<T>)
    ensures forall x :: x in r <==> x in rows && p(x)
    ensures |r| <= |rows|
  {
    if |rows| == 0 then []
    else
      assert rows == [rows[0]] + rows[1..];
      (if p(rows[0]) then [rows[0]] else []) + Where(rows[1..], p)
  }

  // ---------------------------------------------------------------- users

  function UserUids(rows: seq<UserRow>): (us: seq<int>)
    ensures |us| == |rows| && forall i :: 0 <= i < |rows| ==> us[i] == rows[i].tgUid
  {
    seq(|rows|, i requires 0 <= i < |rows| => rows[i].tgUid)
  }

  /** `get_or_create_user`: a user row is added when the Telegram uid has none; profile rows are not modelled. */
  function WithUser(db: Db, tgUid: int, now: int): (r: Db)
    ensures tgUid in UserUids(r.users)
    ensures |r.users| == |db.users| + (if tgUid in UserUids(db.users) then 0 else 1)
    ensures r.users[..|db.users|] == db.users
    ensures r.(users := db.users) == db
  {
    if tgUid in UserUids(db.users) then db
    else
      var r := db.(users := db.users + [UserRow(tgUid, now)]);
      assert UserUids(r.users)[|db.users|] == tgUid;
      r
  }

  function CreateAppointment(
    db: Db, tgUid: int, consultationType: string, communicationType: string,
    userRequest: string, doctorId: Option<int>, preferableDt: Option<string>, now: int): (r: Db)
    ensures r.appointments == db.appointments
      + [AppointmentRow(tgUid, consultationType, communicationType, userRequest, doctorId, preferableDt, now)]
    ensures tgUid in UserUids(r.users)
    ensures r.(users := db.users, appointments := db.appointments) == db
  {
    var d := WithUser(db, tgUid, now);
    d.(appointments := d.appointments
      + [AppointmentRow(tgUid, consultationType, communicationType, userRequest, doctorId, preferableDt, now)])
  }

  function CreateCallback(db: Db, tgUid: int, now: int): (r: Db)
    ensures r.callbacks == db.callbacks + [CallbackRow(tgUid, now)]
    ensures tgUid in UserUids(r.users)
    ensures r.(users := db.users, callbacks := db.callbacks) == db
  {
    var d := WithUser(db, tgUid, now);
    d.(callbacks := d.callbacks + [CallbackRow(tgUid, now)])
  }

  function CreateFeedback(db: Db, tgUid: int, message: string, now: int): (r: Db)
    ensures r.feedbacks == db.feedbacks + [FeedbackRow(tgUid, message, now)]
    ensures tgUid in UserUids(r.users)
    ensures r.(users := db.users, feedbacks := db.feedbacks) == db
  {
    var d := WithUser(db, tgUid, now);
    d.(feedbacks := d.feedbacks + [FeedbackRow(tgUid, message, now)])
  }

  // ---------------------------------------------------------- specialities

  function Titles(rows: seq<SpecialityRow>): (ts: seq<string>)
    ensures |ts| == |rows| && forall i :: 0 <= i < |rows| ==> ts[i] == rows[i].title
  {
    seq(|rows|, i requires 0 <= i < |rows| => rows[i].title)
  }

  function Id(t: string): string { t }

  /** `get_specialities`: every title of the catalogue, in ascending order. */
  function SpecialityTitles(db: Db): seq<string> {
    SortBy(Titles(db.specialities), Id)
  }

  /** The listed titles are the catalogue's, each as often, in ascending order. */
  lemma SpecialityTitlesSorted(db: Db)
    ensures multiset(SpecialityTitles(db)) == multiset(Titles(db.specialities))
    ensures SortedBy(SpecialityTitles(db), Id)
  {
    SortBySorted(Titles(db.specialities), Id);
  }

  /** `get_speciality_by_title`: the first catalogue row with that title. */
  function SpecialityByTitle(rows: seq<SpecialityRow>, title: string): (r: Option<SpecialityRow>)
    ensures r.Some? <==> title in Titles(rows)
    ensures r.Some? ==> r.value in rows && r.value.title == title
  {
    TitleFromSpec(rows, title, 0);
    var j := TitleFrom(rows, title, 0);
    if j < |rows| then Some(rows[j]) else None
  }

  /** The position of the first row with that title at `j` or after; `|rows|` when there is none. */
  function TitleFrom(rows: seq<SpecialityRow>, title: string, j: nat): nat
    decreases |rows| - j
  {
    if j >= |rows| then |rows| else if rows[j].title == title then j else TitleFrom(rows, title, j + 1)
  }

  lemma {:induction false} TitleFromSpec(rows: seq<SpecialityRow>, title: string, j: nat)
    requires j <= |rows|
    ensures var i := TitleFrom(rows, title, j);
      && j <= i <= |rows| && (i < |rows| ==> rows[i].title == title)
      && forall k :: j <= k < i ==> rows[k].title != title
    decreases |rows| - j
  {
    if j < |rows| && rows[j].title != title {
      TitleFromSpec(rows, title, j + 1);
    }
  }

  /** The title of the catalogue row a speciality id points to: the join of `doctors` with `specialities`. */
  function TitleOf(rows: seq<SpecialityRow>, id: Option<int>): (r: Option<string>)
    ensures r.Some? ==> id.Some? && SpecialityRow(id.value, r.value) in rows
    ensures r.None? ==> id.None? || forall x :: x in rows ==> x.id != id.value
  {
    if id.None? || |rows| == 0 then None
    else if rows[0].id == id.value then Some(rows[0].title)
    else
      assert rows == [rows[0]] + rows[1..];
      TitleOf(rows[1..], id)
  }

  function CreateSpeciality(db: Db, title: string): (r: Db)
    ensures r.specialities == db.specialities + [SpecialityRow(db.nextId, title)]
    ensures r.nextId == db.nextId + 1
    ensures r.(specialities := db.specialities, nextId := db.nextId) == db
  {
    db.(specialities := db.specialities + [SpecialityRow(db.nextId, title)], nextId := db.nextId + 1)
  }

  function DeleteSpeciality(db: Db, id: int): (r: Db)
    ensures forall x :: x in r.specialities <==> x in db.specialities && x.id != id
    ensures r.(specialities := db.specialities) == db
  {
    db.(specialities := Where(db.specialities, (x: SpecialityRow) => x.id != id))
  }

  /** A created speciality is found by its title, with the id the counter gave it. */
  lemma CreatedSpecialityFound(db: Db, title: string)
    requires title !in Titles(db.specialities)
    ensures SpecialityByTitle(CreateSpeciality(db, title).specialities, title) == Some(SpecialityRow(db.nextId, title))
    ensures title in SpecialityTitles(CreateSpeciality(db, title))
  {
    var rows := CreateSpeciality(db, title).specialities;
    SpecialityByTitleAppend(db.specialities, SpecialityRow(db.nextId, title));
    assert Titles(rows)[|db.specialities|] == title;
    assert title in multiset(Titles(rows));
  }

  lemma SpecialityByTitleAppend(rows: seq<SpecialityRow>, x: SpecialityRow)
    requires x.title !in Titles(rows)
    ensures SpecialityByTitle(rows + [x], x.title) == Some(x)
  {
    var t := rows + [x];
    TitleFromSpec(t, x.title, 0);
    assert t[|rows|].title == x.title;
  }

  // --------------------------------------------------------------- doctors

  function PhotoAndName(x: DoctorRow): (string, string) { (x.photo, x.fullName) }

  function NameOf(p: (string, string)): string { p.1 }

  /** `get_doctors`: each distinct (photo, full name) pair once, by full name. */
  function DoctorList(db: Db): (r: seq<(string, string)>)
    ensures multiset(r) == multiset(Dedup(seq(|db.doctors|, i requires 0 <= i < |db.doctors| => PhotoAndName(db.doctors[i]))))
    ensures SortedBy(r, NameOf)
  {
    var pairs := Dedup(seq(|db.doctors|, i requires 0 <= i < |db.doctors| => PhotoAndName(db.doctors[i])));
    SortBySorted(pairs, NameOf);
    SortBy(pairs, NameOf)
  }

  /** `get_doctors_by_speciality(title=...)`; the `price` descending order is not modelled. */
  function DoctorsWithTitle(db: Db, title: string): (r: seq<DoctorRow>)
    ensures forall x :: x in r <==> x in db.doctors && TitleOf(db.specialities, x.specialityId) == Some(title)
  {
    Where(db.doctors, (x: DoctorRow) => TitleOf(db.specialities, x.specialityId) == Some(title))
  }

  /** `get_doctors_by_speciality(id=...)`: the rows of a speciality that exists. */
  function DoctorsWithSpeciality(db: Db, id: int): (r: seq<DoctorRow>)
    ensures forall x :: x in r <==> x in db.doctors && x.specialityId == Some(id) && TitleOf(db.specialities, Some(id)).Some?
  {
    Where(db.doctors, (x: DoctorRow) => x.specialityId == Some(id) && TitleOf(db.specialities, Some(id)).Some?)
  }

  function OfPhoto(db: Db, photo: string): (r: seq<DoctorRow>)
    ensures forall x :: x in r <==> x in db.doctors && x.photo == photo
  {
    Where(db.doctors, (x: DoctorRow) => x.photo == photo)
  }

  /** The inner join with the catalogue: rows whose speciality exists, each with its title. */
  function Joined(rows: seq<DoctorRow>, cat: seq<SpecialityRow>): (j: seq<(DoctorRow, string)>)
    ensures forall e :: e in j ==> e.0 in rows && TitleOf(cat, e.0.specialityId) == Some(e.1)
    ensures forall x :: x in rows && TitleOf(cat, x.specialityId).Some? ==> (x, TitleOf(cat, x.specialityId).value) in j
  {
    if |rows| == 0 then []
    else
      var t := TitleOf(cat, rows[0].specialityId);
      var tail := Joined(rows[1..], cat);
      var j := (if t.Some? then [(rows[0], t.value)] else []) + tail;
      assert rows == [rows[0]] + rows[1..];
      assert forall k :: |j| - |tail| <= k < |j| ==> j[k] == tail[k - (|j| - |tail|)];
      j
  }

  /** `get_doctor_specialities(photo)`: (speciality id, title) of each of the doctor's joined rows. */
  function DoctorSpecialities(db: Db, photo: string): (r: seq<(int, string)>)
    ensures forall k :: 0 <= k < |r| ==> SpecialityRow(r[k].0, r[k].1) in db.specialities
    ensures forall x :: x in db.doctors && x.photo == photo && TitleOf(db.specialities, x.specialityId).Some? ==>
      (x.specialityId.value, TitleOf(db.specialities, x.specialityId).value) in r
  {
    var j := Joined(OfPhoto(db, photo), db.specialities);
    var r := seq(|j|, k requires 0 <= k < |j| => (j[k].0.specialityId.value, j[k].1));
    assert forall x :: x in db.doctors && x.photo == photo && TitleOf(db.specialities, x.specialityId).Some? ==>
      (x.specialityId.value, TitleOf(db.specialities, x.specialityId).value) in r by {
      forall x | x in db.doctors && x.photo == photo && TitleOf(db.specialities, x.specialityId).Some?
        ensures (x.specialityId.value, TitleOf(db.specialities, x.specialityId).value) in r
      {
        var k :| 0 <= k < |j| && j[k] == (x, TitleOf(db.specialities, x.specialityId).value);
        assert r[k] == (x.specialityId.value, TitleOf(db.specialities, x.specialityId).value);
      }
    }
    r
  }

  /** The row of the doctor of `get_doctor_by_photo`, as loaded into the session. */
  datatype DoctorInfo = DoctorInfo(
    fullName: string, photo: string, description: string,
    specialityId: seq<int>, speciality: seq<string>,
    experience: Option<int>, scienceDegree: Option<string>, qualCategory: Option<string>,
    price: seq<int>)

  /** The three parallel lists have one entry per speciality. */
  predicate Aligned(d: DoctorInfo) {
    |d.specialityId| == |d.speciality| && |d.price| == |d.speciality|
  }

  /** Two rows fall in the same `GROUP BY` group. */
  predicate SameGroup(a: DoctorRow, b: DoctorRow) {
    && a.fullName == b.fullName && a.photo == b.photo && a.description == b.description
    && a.experience == b.experience && a.scienceDegree == b.scienceDegree && a.qualCategory == b.qualCategory
  }

  /**
   * `get_doctor_by_photo`: the first group of the doctor's joined rows, its
   * speciality ids, titles and prices aggregated in row order; `None` when
   * the doctor has no joined row.
   */
  function DoctorByPhoto(db: Db, photo: string): (r: Option<DoctorInfo>)
    ensures r.None? <==> Joined(OfPhoto(db, photo), db.specialities) == []
    ensures r.Some? ==> Aligned(r.value) && r.value.photo == photo && |r.value.speciality| > 0
    ensures r.Some? ==> forall i :: 0 <= i < |r.value.speciality| ==>
      SpecialityRow(r.value.specialityId[i], r.value.speciality[i]) in db.specialities
  {
    var j := Joined(OfPhoto(db, photo), db.specialities);
    if j == [] then None
    else
      var first := j[0].0;
      var g := Where(j, (e: (DoctorRow, string)) => SameGroup(e.0, first));
      assert j[0] in g;
      Some(DoctorInfo(
        first.fullName, first.photo, first.description,
        seq(|g|, k requires 0 <= k < |g| => g[k].0.specialityId.value),
        seq(|g|, k requires 0 <= k < |g| => g[k].1),
        first.experience, first.scienceDegree, first.qualCategory,
        seq(|g|, k requires 0 <= k < |g| => g[k].0.price)))
  }

  function CreateDoctor(
    db: Db, fullName: string, photo: string, description: string, specialityTitle: string,
    experience: Option<int>, scienceDegree: Option<string>, qualCategory: Option<string>,
    price: int, now: int): (r: Db)
    ensures r.doctors == db.doctors + [DoctorRow(
      db.nextId, fullName, photo, description,
      if specialityTitle in Titles(db.specialities) then Some(SpecialityByTitle(db.specialities, specialityTitle).value.id) else None,
      experience, scienceDegree, qualCategory, price, now)]
    ensures r.nextId == db.nextId + 1
    ensures r.(doctors := db.doctors, nextId := db.nextId) == db
  {
    var speciality := SpecialityByTitle(db.specialities, specialityTitle);
    var row := DoctorRow(
      db.nextId, fullName, photo, description,
      if speciality.Some? then Some(speciality.value.id) else None,
      experience, scienceDegree, qualCategory, price, now);
    db.(doctors := db.doctors + [row], nextId := db.nextId + 1)
  }

  /** `if not speciality_id`: no id and id `0` both select every row of the photo. */
  predicate NoId(id: Option<int>) { id.None? || id == Some(0) }

  /** The rows an `update_doctor` or `delete_doctor` call filters on. */
  predicate Targets(x: DoctorRow, photo: string, id: Option<int>) {
    x.photo == photo && (NoId(id) || x.specialityId == id)
  }

  function DeleteDoctor(db: Db, photo: string, id: Option<int>): (r: Db)
    ensures forall x :: x in r.doctors <==> x in db.doctors && !Targets(x, photo, id)
    ensures r.(doctors := db.doctors) == db
  {
    db.(doctors := Where(db.doctors, (x: DoctorRow) => !Targets(x, photo, id)))
  }

  /** After deleting every row of a photo the doctor is gone: the update and show flows find nothing. */
  lemma DeletedDoctorGone(db: Db, photo: string)
    ensures OfPhoto(DeleteDoctor(db, photo, None), photo) == []
    ensures DoctorByPhoto(DeleteDoctor(db, photo, None), photo) == None
    ensures DoctorSpecialities(DeleteDoctor(db, photo, None), photo) == []
  {
    var d := DeleteDoctor(db, photo, None);
    var rows := OfPhoto(d, photo);
    assert forall x :: x !in rows;
    assert multiset(rows) == multiset{};
    assert Joined(rows, d.specialities) == [];
  }

  /** A value a column accepts: `NOT NULL` text, nullable integer, and so on. */
  datatype Value = Str(s: string) | Num(n: int) | Null

  predicate Settable(column: string, v: Value) {
    || (column in {"full_name", "photo", "description"} && v.Str?)
    || (column == "experience" && (v.Num? || v.Null?))
    || (column in {"science_degree", "qual_category"} && (v.Str? || v.Null?))
    || (column == "price" && v.Num?)
  }

  function Assign(x: DoctorRow, column: string, v: Value): DoctorRow
    requires Settable(column, v)
  {
    if column == "full_name" then x.(fullName := v.s)
    else if column == "photo" then x.(photo := v.s)
    else if column == "description" then x.(description := v.s)
    else if column == "experience" then x.(experience := if v.Num? then Some(v.n) else None)
    else if column == "science_degree" then x.(scienceDegree := if v.Str? then Some(v.s) else None)
    else if column == "qual_category" then x.(qualCategory := if v.Str? then Some(v.s) else None)
    else x.(price := v.n)
  }

  /** `update_doctor(photo, column, value, speciality_id)`; `None` when the column cannot take the value. */
  function UpdateDoctor(db: Db, photo: string, column: string, v: Value, id: Option<int>): (r: Option<Db>)
    ensures r.Some? <==> Settable(column, v)
    ensures r.Some? ==> |r.value.doctors| == |db.doctors| && r.value.(doctors := db.doctors) == db
    ensures r.Some? ==> forall i :: 0 <= i < |db.doctors| && !Targets(db.doctors[i], photo, id) ==>
      r.value.doctors[i] == db.doctors[i]
    ensures r.Some? ==> forall i :: 0 <= i < |db.doctors| && Targets(db.doctors[i], photo, id) ==>
      r.value.doctors[i] == Assign(db.doctors[i], column, v)
  {
    if !Settable(column, v) then None
    else
      Some(db.(doctors := seq(|db.doctors|, i requires 0 <= i < |db.doctors| =>
        if Targets(db.doctors[i], photo, id) then Assign(db.doctors[i], column, v) else db.doctors[i])))
  }

  /** `get_price(photo, speciality)`: the price of the first matching row. */
  function PriceOf(db: Db, photo: string, title: string): Option<int> {
    var rows := Where(db.doctors, (x: DoctorRow) => x.photo == photo && TitleOf(db.specialities, x.specialityId) == Some(title));
    if rows == [] then None else Some(rows[0].price)
  }

  // ------------------------------------------------------------ statistics

  /** The number of times in `[start, end)`: `dt >= start AND dt < end`. */
  function CountIn(dts: seq<int>, start: int, end: int): (n: nat)
    ensures n <= |dts|
  {
    if |dts| == 0 then 0
    else (if start <= dts[0] < end then 1 else 0) + CountIn(dts[1..], start, end)
  }

  /** Two adjacent windows count every row once: the current and previous periods do not overlap. */
  lemma {:induction false} CountSplit(dts: seq<int>, a: int, b: int, c: int)
    requires a <= b <= c
    ensures CountIn(dts, a, b) + CountIn(dts, b, c) == CountIn(dts, a, c)
    decreases |dts|
  {
    if |dts| > 0 {
      CountSplit(dts[1..], a, b, c);
    }
  }

  /** A row written at a time inside the window adds one to its count. */
  lemma {:induction false} CountAppend(dts: seq<int>, t: int, start: int, end: int)
    ensures CountIn(dts + [t], start, end) == CountIn(dts, start, end) + (if start <= t < end then 1 else 0)
    decreases |dts|
  {
    if |dts| > 0 {
      assert (dts + [t])[1..] == dts[1..] + [t];
      CountAppend(dts[1..], t, start, end);
    } else {
      assert (dts + [t])[1..] == [];
    }
  }

  datatype Table = Appointments | Callbacks | Feedbacks | Users

  /** The `dt` column of a table; appointments only of the given consultation type. */
  function Dts(db: Db, table: Table, consultationType: Option<string>): seq<int> {
    match table
    case Appointments =>
      var rows := Where(db.appointments, (x: AppointmentRow) => Some(x.consultationType) == consultationType);
      seq(|rows|, i requires 0 <= i < |rows| => rows[i].dt)
    case Callbacks => seq(|db.callbacks|, i requires 0 <= i < |db.callbacks| => db.callbacks[i].dt)
    case Feedbacks => seq(|db.feedbacks|, i requires 0 <= i < |db.feedbacks| => db.feedbacks[i].dt)
    case Users => seq(|db.users|, i requires 0 <= i < |db.users| => db.users[i].dt)
  }

  /** `calculate_statistic(table, start, end, consultation_type)`. */
  function CalculateStatistic(db: Db, table: Table, start: int, end: int, consultationType: Option<string>): nat {
    CountIn(Dts(db, table, consultationType), start, end)
  }

  // ---------------------------------------------------------------- admins

  /** `if not privilege_type`: no filter. */
  predicate NoPrivilege(p: Option<string>) { p.None? || p == Some("") }

  function AdminRows(db: Db, privilege: Option<string>): (r: seq<AdminRow>)
    ensures forall x :: x in r <==> x in db.admins && (NoPrivilege(privilege) || Some(x.privilege) == privilege)
  {
    if NoPrivilege(privilege) then db.admins
    else Where(db.admins, (x: AdminRow) => Some(x.privilege) == privilege)
  }

  /** `get_admins_ids(privilege_type)`: the uid of each row `AdminRows` selects, in table order. */
  function AdminIds(db: Db, privilege: Option<string>): (r: seq<int>)
    ensures |r| == |AdminRows(db, privilege)|
    ensures forall k :: 0 <= k < |r| ==> r[k] == AdminRows(db, privilege)[k].uid
  {
    var rows := AdminRows(db, privilege);
    seq(|rows|, i requires 0 <= i < |rows| => rows[i].uid)
  }

  /** A uid is listed exactly when some admin row with that uid passes the privilege filter. */
  lemma AdminIdsListed(db: Db, privilege: Option<string>, u: int)
    ensures u in AdminIds(db, privilege) <==>
      exists x :: x in db.admins && x.uid == u && (NoPrivilege(privilege) || Some(x.privilege) == privilege)
  {
    var rows := AdminRows(db, privilege);
    var r := AdminIds(db, privilege);
    if u in r {
      var k :| 0 <= k < |r| && r[k] == u;
      assert rows[k] in rows;
    }
    if exists x :: x in db.admins && x.uid == u && (NoPrivilege(privilege) || Some(x.privilege) == privilege) {
      var x :| x in db.admins && x.uid == u && (NoPrivilege(privilege) || Some(x.privilege) == privilege);
      assert x in rows;
      var k :| 0 <= k < |rows| && rows[k] == x;
      assert r[k] == u;
    }
  }

  /** `get_admins(privilege_type)`: (uid, full name) pairs. */
  function AdminList(db: Db, privilege: Option<string>): (r: seq<(int, string)>)
    ensures |r| == |AdminRows(db, privilege)|
    ensures forall k :: 0 <= k < |r| ==> r[k] == (AdminRows(db, privilege)[k].uid, AdminRows(db, privilege)[k].fullName)
  {
    var rows := AdminRows(db, privilege);
    seq(|rows|, i requires 0 <= i < |rows| => (rows[i].uid, rows[i].fullName))
  }

  function CreateAdmin(db: Db, uid: int, fullName: string, privilege: string, now: int): (r: Db)
    ensures r.admins == db.admins + [AdminRow(uid, fullName, privilege, now)]
    ensures r.(admins := db.admins) == db
  {
    db.(admins := db.admins + [AdminRow(uid, fullName, privilege, now)])
  }

  function DeleteAdmin(db: Db, uid: int): (r: Db)
    ensures forall x :: x in r.admins <==> x in db.admins && x.uid != uid
    ensures r.(admins := db.admins) == db
  {
    db.(admins := Where(db.admins, (x: AdminRow) => x.uid != uid))
  }

  /** A privileged admin is an admin. */
  lemma PrivilegedAreAdmins(db: Db, uid: int, privilege: string)
    requires uid in AdminIds(db, Some(privilege))
    ensures uid in AdminIds(db, None)
  {
    AdminIdsListed(db, Some(privilege), uid);
    AdminIdsListed(db, None, uid);
  }

  /** A created admin is listed with and without its privilege filter; a deleted one under no filter. */
  lemma AdminCreateDelete(db: Db, uid: int, fullName: string, privilege: string, now: int, filter: Option<string>)
    ensures uid in AdminIds(CreateAdmin(db, uid, fullName, privilege, now), None)
    ensures uid in AdminIds(CreateAdmin(db, uid, fullName, privilege, now), Some(privilege))
    ensures uid !in AdminIds(DeleteAdmin(db, uid), filter)
  {
    var c := CreateAdmin(db, uid, fullName, privilege, now);
    assert c.admins[|db.admins|] in c.admins;
    AdminIdsListed(c, None, uid);
    AdminIdsListed(c, Some(privilege), uid);
    var d := DeleteAdmin(db, uid);
    assert forall x :: x in d.admins ==> x.uid != uid;
    AdminIdsListed(d, filter, uid);
  }
}
