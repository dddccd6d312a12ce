/**
 * The statistics arithmetic of `handlers/admin/statistic.py`: the period
 * table, the two adjacent windows of a standard period, the percentage change
 * against the previous window, the ordering of a custom period, and the loop
 * of `get_statistic` that fills the report.
 *
 * Time is an abstract ordered value (`int`). Subtracting a `relativedelta` is
 * calendar arithmetic, passed in as a function that moves strictly back in
 * time; parsing a date with `strptime` is passed in likewise.
 */
module Statistics {
  import opened Wrappers
  import opened PyText
  import opened Db
  import opened Callbacks

  // ------------------------------------------------------- standard periods

  /** A `relativedelta(hours=…, days=…, months=…, years=…)`. */
  datatype RelDelta = RelDelta(hours: nat, days: nat, months: nat, years: nat)

  predicate Positive(d: RelDelta) {
    d.hours > 0 || d.days > 0 || d.months > 0 || d.years > 0
  }

  /** The period buttons, in the order of the table. */
  const Periods: seq<string> := [Day, Week, Month, Quarter, Year]

  /** `timedelta[period_type]`; `None` is the `KeyError` of a period the table lacks. */
  function TimeDelta(period: string): (d: Option<RelDelta>)
    ensures d.Some? <==> period in Periods
    ensures d.Some? ==> Positive(d.value)
  {
    if period == Day then Some(RelDelta(24, 0, 0, 0))
    else if period == Week then Some(RelDelta(0, 7, 0, 0))
    else if period == Month then Some(RelDelta(0, 0, 1, 0))
    else if period == Quarter then Some(RelDelta(0, 0, 3, 0))
    else if period == Year then Some(RelDelta(0, 0, 0, 1))
    else None
  }

  /** A quarter is three months and a day is twenty-four hours, as the table states them. */
  lemma TimeDeltaTable()
    ensures TimeDelta(Quarter).Some? && TimeDelta(Month).Some? && TimeDelta(Quarter).value.months == 3 * TimeDelta(Month).value.months
    ensures TimeDelta(Day).Some? && TimeDelta(Day).value == RelDelta(24, 0, 0, 0)
  {
    assert Quarter[0] != Day[0] && Quarter[0] != Week[0] && Quarter[0] != Month[0];
    assert Month[0] != Day[0] && Month[0] != Week[0];
  }

  /** `start_date = end_date - delta` and `start_date_prev = start_date - delta`, with `minus` the subtraction of `delta`. */
  function Windows(end: int, minus: int -> int): (w: (int, int)) {
    var start := minus(end);
    (minus(start), start)
  }

  /**
   * The current window `[start, end)` and the previous window
   * `[start_prev, start)` are adjacent and disjoint: together they count each
   * row of `[start_prev, end)` exactly once.
   */
  lemma WindowsAdjacent(dts: seq<int>, end: int, minus: int -> int)
    requires forall t :: minus(t) < t
    ensures Windows(end, minus).0 < Windows(end, minus).1 < end
    ensures CountIn(dts, Windows(end, minus).0, Windows(end, minus).1) + CountIn(dts, Windows(end, minus).1, end)
      == CountIn(dts, Windows(end, minus).0, end)
  {
    var w := Windows(end, minus);
    assert minus(end) < end;
    assert minus(minus(end)) < minus(end);
    CountSplit(dts, w.0, w.1, end);
  }

  // ---------------------------------------------------------------- change

  /**
   * The change shown for a table: a constant of the `ZeroDivisionError`
   * branch, `round(x, 1)` of an exact `x` (the float rounding itself is left
   * abstract), or `int(x)`.
   */
  datatype Change = Fixed(v: real) | Rounded(x: real) | Truncated(n: int)

  /** The number a change stands for; a rounded one by its exact value before rounding. */
  function Value(c: Change): real {
    match c
    case Fixed(v) => v
    case Rounded(x) => x
    case Truncated(n) => n as real
  }

  function Abs(x: real): real {
    if x < 0.0 then -x else x
  }

  /** `int(x)`: truncation toward zero. */
  function Trunc(x: real): (n: int)
    ensures Abs(n as real) <= Abs(x) < Abs(n as real) + 1.0
    ensures (x >= 0.0 ==> n >= 0) && (x <= 0.0 ==> n <= 0)
  {
    if x >= 0.0 then x.Floor else -((-x).Floor)
  }

  /** `statistic / previous * 100 - 100` over exact reals. */
  function Percent(cur: nat, prev: nat): real
    requires prev > 0
  {
    (cur as real) / (prev as real) * 100.0 - 100.0
  }

  lemma ScaleLt(a: real, b: real, p: real)
    requires p > 0.0 && a < b
    ensures a * p < b * p
  {
    assert b * p - a * p == (b - a) * p;
  }

  /** A quotient compares with `k` as its dividend compares with `k` times the divisor. */
  lemma CompareQuotient(q: real, p: real, c: real, k: real)
    requires p > 0.0 && q * p == c
    ensures q < k <==> c < k * p
    ensures q == k <==> c == k * p
  {
    if q < k {
      ScaleLt(q, k, p);
    } else if q > k {
      ScaleLt(k, q, p);
    }
  }

  /** How the percentage compares with the counts. */
  lemma PercentFacts(cur: nat, prev: nat)
    requires prev > 0
    ensures Percent(cur, prev) >= -100.0
    ensures Percent(cur, prev) == -100.0 <==> cur == 0
    ensures Percent(cur, prev) == 0.0 <==> cur == prev
    ensures Percent(cur, prev) > 0.0 <==> cur > prev
    ensures Percent(cur, prev) >= 100.0 <==> cur >= 2 * prev
  {
    var q := (cur as real) / (prev as real);
    var p, c := prev as real, cur as real;
    assert q * p == c;
    assert Percent(cur, prev) == 100.0 * (q - 1.0);
    CompareQuotient(q, p, c, 0.0);
    CompareQuotient(q, p, c, 1.0);
    CompareQuotient(q, p, c, 2.0);
  }

  /**
   * The change of `get_statistic`: `0.0` or `100` when the previous count is
   * zero, else the percentage, rounded when its magnitude is below 100 and
   * truncated otherwise.
   */
  function ChangeOf(cur: nat, prev: nat): (c: Change)
    ensures prev == 0 ==> c == Fixed(if cur == 0 then 0.0 else 100.0)
    ensures prev > 0 ==> Abs(Value(c) - Percent(cur, prev)) < 1.0
  {
    if prev == 0 then Fixed(if cur == 0 then 0.0 else 100.0)
    else
      var x := Percent(cur, prev);
      if Abs(x) < 100.0 then Rounded(x) else Truncated(Trunc(x))
  }

  /** No change is below -100: counts are never negative. */
  lemma ChangeAtLeastMinusHundred(cur: nat, prev: nat)
    ensures Value(ChangeOf(cur, prev)) >= -100.0
  {
    if prev > 0 {
      PercentFacts(cur, prev);
    }
  }

  /**
   * Against a non-empty previous window: the change is truncated exactly
   * when the count fell to zero or at least doubled; it is positive exactly
   * when the count grew and negative exactly when it shrank.
   */
  lemma ChangeShape(cur: nat, prev: nat)
    requires prev > 0
    ensures ChangeOf(cur, prev).Truncated? <==> cur == 0 || cur >= 2 * prev
    ensures Value(ChangeOf(cur, prev)) > 0.0 <==> cur > prev
    ensures Value(ChangeOf(cur, prev)) < 0.0 <==> cur < prev
  {
    PercentFacts(cur, prev);
  }

  /** Equal counts give no change; a count fallen to zero gives -100. */
  lemma ChangeEdges(cur: nat, prev: nat)
    requires prev > 0
    ensures cur == prev ==> ChangeOf(cur, prev) == Rounded(0.0)
    ensures cur == 0 ==> ChangeOf(cur, prev) == Truncated(-100)
  {
    PercentFacts(cur, prev);
  }

  // ---------------------------------------------------------- custom period

  /** `re.sub(r'\s+', ' ', text).strip().split(' ')`. */
  function PeriodTokens(text: string): seq<string> {
    Split(Strip(Collapse(text)), ' ')
  }

  /** `[strptime(date) for date in period]`; `None` is the `ValueError` of a token that does not parse. */
  function ParseAll(tokens: seq<string>, parse: string -> Option<int>): (r: Option<seq<int>>)
    ensures r.Some? <==> forall i :: 0 <= i < |tokens| ==> parse(tokens[i]).Some?
    ensures r.Some? ==> |r.value| == |tokens| && forall i :: 0 <= i < |tokens| ==> parse(tokens[i]) == Some(r.value[i])
    decreases |tokens|
  {
    if |tokens| == 0 then Some([])
    else
      var head := parse(tokens[0]);
      var tail := ParseAll(tokens[1..], parse);
      if head.None? || tail.None? then None
      else
        var r := [head.value] + tail.value;
        assert forall i :: 1 <= i < |tokens| ==> tokens[i] == tokens[1..][i - 1];
        Some(r)
  }

  /**
   * The period of `get_period`: every token must parse and there must be at
   * least two (`None` is the `ValueError` or `IndexError` that re-prompts);
   * the first two are ordered so that the start is not after the end.
   */
  function GetPeriod(text: string, parse: string -> Option<int>): (r: Option<(int, int)>)
    ensures var tokens := PeriodTokens(text);
      r.Some? <==> |tokens| >= 2 && forall i :: 0 <= i < |tokens| ==> parse(tokens[i]).Some?
    ensures r.Some? ==> r.value.0 <= r.value.1
    ensures r.Some? ==> var tokens := PeriodTokens(text);
      multiset{Some(r.value.0), Some(r.value.1)} == multiset{parse(tokens[0]), parse(tokens[1])}
  {
    var dates := ParseAll(PeriodTokens(text), parse);
    if dates.None? || |dates.value| < 2 then None
    else
      Some(Ordered(dates.value[0], dates.value[1]))
  }

  /** `period[0 if period[0] < period[1] else 1]` and `period[1 if period[0] < period[1] else 0]`. */
  function Ordered(a: int, b: int): (int, int) {
    var p := [a, b];
    (p[if a < b then 0 else 1], p[if a < b then 1 else 0])
  }

  /** A period that parses is the ordered pair of its first two tokens. */
  lemma GetPeriodOfFirstTwo(text: string, parse: string -> Option<int>)
    requires GetPeriod(text, parse).Some?
    ensures var tokens := PeriodTokens(text);
      |tokens| >= 2 && parse(tokens[0]).Some? && parse(tokens[1]).Some? &&
      GetPeriod(text, parse) == Some(Ordered(parse(tokens[0]).value, parse(tokens[1]).value))
  {
  }

  /** Tokens after the first two play no part in the period, once they parse. */
  lemma GetPeriodUsesFirstTwo(text1: string, text2: string, parse: string -> Option<int>)
    requires GetPeriod(text1, parse).Some? && GetPeriod(text2, parse).Some?
    requires PeriodTokens(text1)[..2] == PeriodTokens(text2)[..2]
    ensures GetPeriod(text1, parse) == GetPeriod(text2, parse)
  {
    GetPeriodOfFirstTwo(text1, parse);
    GetPeriodOfFirstTwo(text2, parse);
    var t1, t2 := PeriodTokens(text1), PeriodTokens(text2);
    assert t1[0] == t1[..2][0] == t2[0];
    assert t1[1] == t1[..2][1] == t2[1];
  }

  // ------------------------------------------------------------- the report

  /** One entry of the report: a table, with the consultation type for appointments. */
  datatype Slot = Slot(table: Table, consultationType: Option<string>)

  /** `zip_longest(tables, cons_types)`. */
  const Slots: seq<Slot> := [
    Slot(Appointments, Some(Online)), Slot(Appointments, Some(Offline)),
    Slot(Callbacks, None), Slot(Feedbacks, None), Slot(Users, None)]

  /** A count, and the change against the previous window where one is computed. */
  datatype Stat = Stat(count: nat, change: Option<Change>)

  /** The entry of one slot: the count over `[start, end)` and, given a previous window, its change for every table but feedback. */
  function SlotStat(db: Db, s: Slot, start: int, end: int, prevStart: Option<int>): Stat {
    var cur := CalculateStatistic(db, s.table, start, end, s.consultationType);
    if prevStart.Some? && s.table != Feedbacks then
      Stat(cur, Some(ChangeOf(cur, CalculateStatistic(db, s.table, prevStart.value, start, s.consultationType))))
    else Stat(cur, None)
  }

  /** Feedback never carries a change, and the other tables carry one exactly when a previous window is given. */
  lemma SlotStatChange(db: Db, s: Slot, start: int, end: int, prevStart: Option<int>)
    ensures s.table == Feedbacks ==> SlotStat(db, s, start, end, prevStart).change.None?
    ensures s.table != Feedbacks ==> (SlotStat(db, s, start, end, prevStart).change.Some? <==> prevStart.Some?)
    ensures SlotStat(db, s, start, end, prevStart).count == CountIn(Dts(db, s.table, s.consultationType), start, end)
  {
  }

  /**
   * `get_statistic(start_date, end_date, start_date_prev, change)`: one
   * entry per slot (`change=True` comes with `start_date_prev`, here
   * `prevStart`).
   */
  method GetStatistic(db: Db, start: int, end: int, prevStart: Option<int>) returns (r: map<Slot, Stat>)
    ensures forall s :: s in r <==> s in Slots
    ensures forall s :: s in r ==> r[s] == SlotStat(db, s, start, end, prevStart)
  {
    r := map[];
    for i := 0 to |Slots|
      invariant forall s :: s in r <==> s in Slots[..i]
      invariant forall s :: s in r ==> r[s] == SlotStat(db, s, start, end, prevStart)
    {
      var s := Slots[i];
      var statistic := CalculateStatistic(db, s.table, start, end, s.consultationType);
      var entry := Stat(statistic, None);
      if prevStart.Some? && s.table != Feedbacks {
        var previous := CalculateStatistic(db, s.table, prevStart.value, start, s.consultationType);
        entry := Stat(statistic, Some(ChangeOf(statistic, previous)));
      }
      r := r[s := entry];
      assert Slots[..i + 1] == Slots[..i] + [s];
    }
    assert Slots[..|Slots|] == Slots;
  }
}
