/**
 * The handlers of `handlers/admin/statistic.py`: the report for a standard
 * period (a button, no session), and the custom period asked for in the
 * one-state flow `FSMStatistics`. Both are open only to the users
 * `check_access` lets through.
 *
 * The current time and the calendar subtraction of a `relativedelta` are
 * parameters; so is the parsing of a typed date.
 */
module StatisticHandlers {
  import opened Wrappers
  import opened Db
  import opened Cache
  import opened Callbacks
  import opened Navigation
  import opened Statistics
  import opened Fsm

  /** What a statistics button shows. */
  datatype Shown = LackOfPrivileges | Report(stats: map<Slot, Stat>)

  /** A report of `get_statistic`: one entry per slot, each counted over `[start, end)`. */
  ghost predicate ReportOf(stats: map<Slot, Stat>, db: Db, start: int, end: int, prevStart: Option<int>) {
    && (forall s :: s in stats <==> s in Slots)
    && (forall s :: s in stats ==> stats[s] == SlotStat(db, s, start, end, prevStart))
  }

  /** The windows of a standard period: `(start_prev, start)` below `end`. */
  function StandardWindows(end: int, delta: RelDelta, sub: (int, RelDelta) -> int): (int, int) {
    Windows(end, t => sub(t, delta))
  }

  /**
   * For each period of the table the two windows are adjacent and ordered,
   * and each change compares the current window with the one just before it.
   */
  lemma StandardWindowsAdjacent(period: string, end: int, sub: (int, RelDelta) -> int, dts: seq<int>)
    requires period in Periods
    requires forall t, d :: Positive(d) ==> sub(t, d) < t
    ensures TimeDelta(period).Some?
    ensures var w := StandardWindows(end, TimeDelta(period).value, sub);
      && w.0 < w.1 < end
      && CountIn(dts, w.0, w.1) + CountIn(dts, w.1, end) == CountIn(dts, w.0, end)
  {
    var delta := TimeDelta(period).value;
    var minus := t => sub(t, delta);
    assert forall t :: minus(t) < t by {
      forall t ensures minus(t) < t {
        assert minus(t) == sub(t, delta);
      }
    }
    WindowsAdjacent(dts, end, minus);
  }

  /**
   * `show_standard_statistics`: with access, the period of the button (a
   * missing field or a period the table lacks raises: nothing is shown)
   * gives the two windows ending now and a report with changes; without
   * access, a warning. The session is not touched.
   */
  method ShowStandardStatistics(b: Bot, uid: int, callbackData: string, now: int, sub: (int, RelDelta) -> int)
    returns (r: Option<Shown>)
    modifies b.cache
    ensures var access := Access(uid, b.master, Read(old(b.cache.entries), b.cache.up, b.db, PrivAdminsKey));
      var period := Field(callbackData, 1);
      if !access then r == Some(LackOfPrivileges)
      else if period.None? || TimeDelta(period.value).None? then r.None?
      else
        var w := StandardWindows(now, TimeDelta(period.value).value, sub);
        r.Some? && r.value.Report? && ReportOf(r.value.stats, b.db, w.1, now, Some(w.0))
    ensures b.cache.entries == Filled(old(b.cache.entries), b.cache.up, b.db, PrivAdminsKey)
    ensures b.cache.up == old(b.cache.up)
  {
    var access := CheckAccess(b.cache, b.db, b.master, uid);
    if !access {
      return Some(LackOfPrivileges);
    }
    var period := Field(callbackData, 1);
    if period.None? {
      return None;
    }
    var delta := TimeDelta(period.value);
    if delta.None? {
      return None;
    }
    var start := sub(now, delta.value);
    var startPrev := sub(start, delta.value);
    var stats := GetStatistic(b.db, start, now, Some(startPrev));
    r := Some(Report(stats));
  }

  /** In `period` the session knows the user and the prompt to edit. */
  predicate StInv(s: Option<St>, d: Scratch) {
    s == Some(StPeriod) ==> d.userUid.Some? && d.lastMsgId.Some?
  }

  /**
   * `show_custom_statistics`: from any state the session is finished; with
   * access it restarts in `period`.
   */
  method ShowCustomStatistics(b: Bot, uid: int, msgId: int) returns (access: bool)
    modifies b, b.cache
    ensures access == Access(uid, b.master, Read(old(b.cache.entries), b.cache.up, b.db, PrivAdminsKey))
    ensures b.cache.entries == Filled(old(b.cache.entries), b.cache.up, b.db, PrivAdminsKey) && b.cache.up == old(b.cache.up)
    ensures access ==> b.state == Some(StPeriod) && b.data == Empty.(lastMsgId := Some(msgId), userUid := Some(uid))
    ensures !access ==> b.state.None? && b.data == Empty
    ensures b.db == old(b.db) && b.deleted == old(b.deleted)
    ensures StInv(b.state, b.data)
  {
    b.Finish();
    access := CheckAccess(b.cache, b.db, b.master, uid);
    if access {
      b.state := Some(StPeriod);
      b.data := b.data.(lastMsgId := Some(msgId), userUid := Some(uid));
    }
  }

  /**
   * `get_period`: the typed answer is deleted first. A text that is not two
   * or more dates re-prompts in the same state; a period gives a report
   * without changes over `[start, end)` and finishes the session. A refused
   * deletion, or a session without its user, raises before the finish.
   */
  method GetPeriodAnswer(b: Bot, text: string, answerId: int, parse: string -> Option<int>) returns (r: Option<map<Slot, Stat>>)
    requires b.state == Some(StPeriod)
    modifies b
    ensures var p := GetPeriod(text, parse);
      if answerId in b.refused then
        r.None? && b.deleted == old(b.deleted) && b.state == old(b.state) && b.data == old(b.data)
      else if p.None? || old(b.data).userUid.None? then
        r.None? && b.deleted == old(b.deleted) + [answerId] && b.state == old(b.state) && b.data == old(b.data)
      else
        && r.Some? && ReportOf(r.value, b.db, p.value.0, p.value.1, None)
        && b.deleted == old(b.deleted) + [answerId] && b.state.None? && b.data == Empty
    ensures b.db == old(b.db)
    ensures StInv(old(b.state), old(b.data)) ==> StInv(b.state, b.data)
  {
    if answerId in b.refused {
      return None;
    }
    b.deleted := b.deleted + [answerId];
    var p := GetPeriod(text, parse);
    if p.None? {
      return None;
    }
    var stats := GetStatistic(b.db, p.value.0, p.value.1, None);
    if b.data.userUid.None? {
      return None;
    }
    r := Some(stats);
    b.Finish();
  }
}
