/**
 * The statistics page's derived data: the current and previous period
 * windows, their summaries and comparison, and the early/late shift
 * comparison over the current window.
 */
module StatsPage {
  import opened Wrappers
  import opened Seqs
  import opened Money
  import opened Calendar
  import opened Types
  import opened Statistics

  /** The period selector: this week, this month or everything. */
  datatype Period = Week | Month | All

  /**
   * `new Date(year, month - 1, 1)` read back as year and month: the
   * constructor rolls a month of -1 over into December of the year before.
   */
  function PreviousMonth(year: int, month: int): (ym: (int, int))
    ensures 0 <= month < 12 ==> ym == if month == 0 then (year - 1, 11) else (year, month - 1)
    ensures 0 <= ym.1 < 12
  {
    (year + (month - 1) / 12, (month - 1) % 12)
  }

  /** The current and the previous window of shifts for a period, seen from the day `now`. */
  function Windows(shifts: seq<Shift>, period: Period, now: Date): (seq<Shift>, seq<Shift>) {
    match period
    case Month =>
      var prev := PreviousMonth(now.year, now.month0);
      (FilterByMonth(shifts, now.year, now.month0), FilterByMonth(shifts, prev.0, prev.1))
    case Week =>
      (FilterByWeek(shifts, DayNumber(now)), FilterByWeek(shifts, DayNumber(now) - 7))
    case All =>
      (shifts, shifts)
  }

  /** What the page derives for a period: the window, its summary, its weekday buckets and the comparison. */
  datatype PeriodView = PeriodView(
    filteredShifts: seq<Shift>,
    stats: Option<Stats>,
    weekdayData: seq<WeekdayData>,
    comparison: Option<Change>)

  /**
   * The page's period block. `shifts` is `None` while the list has not been
   * loaded; `now` is the clock reading.
   */
  function PeriodData(shifts: Option<seq<Shift>>, period: Period, now: Date): (v: PeriodView)
    ensures shifts.None? ==> v == PeriodView([], None, [], None)
    ensures shifts.Some? ==> v.filteredShifts == Windows(shifts.value, period, now).0
    ensures shifts.Some? ==> v.stats == CalculateStats(v.filteredShifts)
    ensures shifts.Some? ==> v.weekdayData == WeekdayBuckets(v.filteredShifts)
    ensures shifts.Some? ==> |v.weekdayData| == 7
    ensures shifts.Some? ==> (v.stats.None? <==> v.filteredShifts == [])
    ensures shifts.Some? ==>
      (v.comparison.Some? <==> v.filteredShifts != [] && Windows(shifts.value, period, now).1 != [])
    ensures v.comparison.Some? ==>
      var prev := Windows(shifts.value, period, now).1;
      prev != [] && v.comparison.value == CalcChange(v.stats.value.totalTips, CalculateStats(prev).value.totalTips)
  {
    if shifts.None? then PeriodView([], None, [], None)
    else
      var windows := Windows(shifts.value, period, now);
      var s := CalculateStats(windows.0);
      var ps := CalculateStats(windows.1);
      var comp := if s.Some? && ps.Some? then Some(CalcChange(s.value.totalTips, ps.value.totalTips)) else None;
      PeriodView(windows.0, s, WeekdayBuckets(windows.0), comp)
  }

  /** For `'month'`, the previous window is the calendar month before, January rolling back to December. */
  lemma MonthWindows(shifts: seq<Shift>, now: Date)
    requires 0 <= now.month0 < 12
    ensures var w := Windows(shifts, Month, now);
      && (forall s :: s in w.0 <==> s in shifts && s.datum.year == now.year && s.datum.month0 == now.month0)
      && (now.month0 == 0 ==>
            forall s :: s in w.1 <==> s in shifts && s.datum.year == now.year - 1 && s.datum.month0 == 11)
      && (now.month0 > 0 ==>
            forall s :: s in w.1 <==> s in shifts && s.datum.year == now.year && s.datum.month0 == now.month0 - 1)
  {
  }

  /**
   * For `'week'`, the current window is the Monday-to-Sunday week of `now`
   * and the previous one the seven days right before it.
   */
  lemma WeekWindows(shifts: seq<Shift>, now: Date)
    ensures var w := Windows(shifts, Week, now);
      var monday := DayNumber(now) - Weekday(DayNumber(now));
      && (forall s :: s in w.0 <==> s in shifts && monday <= DayOf(s) <= monday + 6)
      && (forall s :: s in w.1 <==> s in shifts && monday - 7 <= DayOf(s) <= monday - 1)
  {
    var today := DayNumber(now);
    WeekStartIsMonday(today);
    WeekStartIsMonday(today - 7);
    WeekBefore(today);
  }

  /**
   * For `'all'`, both windows are the whole list, so the comparison is
   * either absent (no shifts) or a flat 0%.
   */
  lemma AllPeriodIsFlat(shifts: seq<Shift>, now: Date)
    ensures var v := PeriodData(Some(shifts), All, now);
      v.comparison == None || v.comparison == Some(Change(0.0, Flat))
    ensures PeriodData(Some(shifts), All, now).comparison.Some? <==> shifts != []
  {
    var st := CalculateStats(shifts);
    if st.Some? {
      ChangeOfEqualTotals(st.value.totalTips);
    }
  }

  // ---------------------------------------------------------------------
  // Early versus late shifts

  /** The early/late comparison: mean tip and number of shifts of each kind. */
  datatype ShiftSplit = ShiftSplit(avgFrueh: real, avgSpaet: real, countFrueh: nat, countSpaet: nat)

  /** A shift of kind `k` (`s.schicht === k`). */
  function OfKind(k: ShiftKind): Shift -> bool {
    (s: Shift) => s.schicht == k
  }

  /**
   * The unrounded mean tip of a group of shifts, 0 for an empty group: the
   * value that, times the group's size, gives its tip total.
   */
  function MeanTip(group: seq<Shift>): (r: real)
    ensures group == [] ==> r == 0.0
    ensures group != [] ==> r * (|group| as real) == TotalTips(group)
  {
    if |group| > 0 then
      DivTimesBack(TotalTips(group), |group| as real);
      TotalTips(group) / |group| as real
    else 0.0
  }

  /** The mean tip of a non-empty group lies between its smallest and its largest tip. */
  lemma MeanTipWithinRange(group: seq<Shift>)
    requires group != []
    ensures MinOf(Tips(group)) <= MeanTip(group) <= MaxOf(Tips(group))
  {
    MeanOfBounded(Tips(group), MinOf(Tips(group)), MaxOf(Tips(group)));
  }

  /** The page's `shiftComparison`: `null` for an empty window. */
  function ShiftComparison(filtered: seq<Shift>): (r: Option<ShiftSplit>)
    ensures r.None? <==> filtered == []
    ensures r.Some? ==> r.value.countFrueh == |Filter(filtered, OfKind(Early))|
    ensures r.Some? ==> r.value.countSpaet == |Filter(filtered, OfKind(Late))|
    ensures r.Some? ==> r.value.avgFrueh == MeanTip(Filter(filtered, OfKind(Early)))
    ensures r.Some? ==> r.value.avgSpaet == MeanTip(Filter(filtered, OfKind(Late)))
  {
    if |filtered| == 0 then None
    else
      var frueh := Filter(filtered, OfKind(Early));
      var spaet := Filter(filtered, OfKind(Late));
      Some(ShiftSplit(MeanTip(frueh), MeanTip(spaet), |frueh|, |spaet|))
  }

  /**
   * Early, late and untyped shifts partition the window: the two counts add
   * up to the window's size less the shifts without a type.
   */
  lemma {:induction false} KindCountsPartition(filtered: seq<Shift>)
    ensures |Filter(filtered, OfKind(Early))| + |Filter(filtered, OfKind(Late))|
          + |Filter(filtered, OfKind(NoKind))| == |filtered|
  {
    if filtered != [] {
      var init, s := filtered[..|filtered| - 1], filtered[|filtered| - 1];
      assert filtered == init + [s];
      KindCountsPartition(init);
      FilterSnoc(init, s, OfKind(Early));
      FilterSnoc(init, s, OfKind(Late));
      FilterSnoc(init, s, OfKind(NoKind));
    }
  }

  /** Only the early shifts are counted as early and only the late ones as late. */
  lemma KindGroupsAreExact(filtered: seq<Shift>)
    ensures forall s :: s in Filter(filtered, OfKind(Early)) <==> s in filtered && s.schicht == Early
    ensures forall s :: s in Filter(filtered, OfKind(Late)) <==> s in filtered && s.schicht == Late
  {
    FilterMembers(filtered, OfKind(Early));
    FilterMembers(filtered, OfKind(Late));
  }
}
