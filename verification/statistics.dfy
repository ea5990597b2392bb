/**
 * The statistics service: summary statistics of a list of shifts, the
 * seven weekday buckets, the period-over-period change and the month and
 * week filters.
 */
module Statistics {
  import opened Wrappers
  import opened Seqs
  import opened Money
  import opened Calendar
  import opened Types

  /** The fixed length of a shift, in hours, behind every per-hour figure. */
  const ShiftHours: real := 5.5

  // ---------------------------------------------------------------------
  // Sums and averages

  /** The tips of the shifts, in order (`shifts.map(s => s.betrag)`). */
  function Tips(shifts: seq<Shift>): (r: seq<real>)
    ensures |r| == |shifts|
    ensures forall i :: 0 <= i < |shifts| ==> r[i] == shifts[i].betrag
  {
    Map(shifts, TipOf)
  }

  /** The unrounded sum of all tips. */
  function TotalTips(shifts: seq<Shift>): real {
    Sum(Tips(shifts))
  }

  /**
   * `average`: 0 for an empty list, otherwise the mean rounded to a whole
   * number of cents in the half-open half-cent interval around it, which
   * `Round2Unique` shows is `round` of the mean.
   */
  function Average(xs: seq<real>): (r: real)
    ensures xs == [] ==> r == 0.0
    ensures xs != [] ==> (r * 100.0).Floor as real == r * 100.0
    ensures xs != [] ==> Sum(xs) / (|xs| as real) - 0.005 < r <= Sum(xs) / (|xs| as real) + 0.005
  {
    if xs == [] then 0.0 else Round2(Sum(xs) / |xs| as real)
  }

  /** The mean of a non-empty list lies between its smallest and its largest element. */
  lemma MeanWithinRange(xs: seq<real>)
    requires xs != []
    ensures MinOf(xs) <= Sum(xs) / (|xs| as real)
    ensures Sum(xs) / (|xs| as real) <= MaxOf(xs)
  {
    MeanOfBounded(xs, MinOf(xs), MaxOf(xs));
  }

  /** A rounded average lies within half a cent of the range of its list. */
  lemma AverageWithinRange(xs: seq<real>)
    requires xs != []
    ensures MinOf(xs) - 0.005 < Average(xs) <= MaxOf(xs) + 0.005
  {
    MeanWithinRange(xs);
  }

  // ---------------------------------------------------------------------
  // calculateStats

  /**
   * `s.umsatz && s.umsatz > 0`: JavaScript treats an absent revenue and a
   * revenue of 0 alike, and both leave the shift out of the revenue total.
   */
  predicate HasRevenue(s: Shift) {
    s.umsatz.Some? && s.umsatz.value > 0.0
  }

  /** `s.umsatz!` for a shift that has a revenue. */
  function RevenueOf(s: Shift): real {
    s.umsatz.GetOr(0.0)
  }

  /** The unrounded revenue total over the shifts with a positive revenue. */
  function TotalRevenue(shifts: seq<Shift>): real {
    Sum(Map(Filter(shifts, HasRevenue), RevenueOf))
  }

  /** The revenue total is positive exactly when some shift has a revenue, and never negative. */
  lemma TotalRevenueSign(shifts: seq<Shift>)
    ensures TotalRevenue(shifts) >= 0.0
    ensures TotalRevenue(shifts) > 0.0 <==> exists s :: s in shifts && HasRevenue(s)
  {
    var kept := Filter(shifts, HasRevenue);
    FilterMembers(shifts, HasRevenue);
    var revenues := Map(kept, RevenueOf);
    forall i | 0 <= i < |revenues|
      ensures revenues[i] > 0.0
    {
      assert kept[i] in kept;
    }
    SumPositive(revenues);
    if exists s :: s in shifts && HasRevenue(s) {
      var s :| s in shifts && HasRevenue(s);
      assert s in kept;
    }
  }

  /** A shift without a positive revenue does not change the revenue total. */
  lemma RevenueIgnoresShiftsWithout(shifts: seq<Shift>, s: Shift)
    requires !HasRevenue(s)
    ensures TotalRevenue(shifts + [s]) == TotalRevenue(shifts)
  {
    FilterSnoc(shifts, s, HasRevenue);
    assert Filter(shifts + [s], HasRevenue) == Filter(shifts, HasRevenue);
  }

  /** A shift with a positive revenue adds exactly that revenue to the total. */
  lemma RevenueCountsShiftsWith(shifts: seq<Shift>, s: Shift)
    requires HasRevenue(s)
    ensures TotalRevenue(shifts + [s]) == TotalRevenue(shifts) + s.umsatz.value
  {
    FilterSnoc(shifts, s, HasRevenue);
    MapSnoc(Filter(shifts, HasRevenue), s, RevenueOf);
    SumSnoc(Map(Filter(shifts, HasRevenue), RevenueOf), RevenueOf(s));
  }

  datatype Stats = Stats(
    totalTips: real,
    totalRevenue: real,
    avgPerShift: real,
    avgPerHour: real,
    avgTipRate: Option<real>,
    bestShift: real,
    worstShift: real,
    totalShifts: nat)

  /** The largest and smallest tip bound the tip of every shift. */
  lemma TipExtremes(shifts: seq<Shift>)
    requires shifts != []
    ensures forall s :: s in shifts ==> MinOf(Tips(shifts)) <= s.betrag <= MaxOf(Tips(shifts))
  {
    forall s | s in shifts
      ensures MinOf(Tips(shifts)) <= s.betrag <= MaxOf(Tips(shifts))
    {
      var i :| 0 <= i < |shifts| && shifts[i] == s;
      assert Tips(shifts)[i] == s.betrag;
    }
  }

  /** The `average` of the tips is the rounded tip total over the number of shifts. */
  lemma AverageOfTips(shifts: seq<Shift>)
    requires shifts != []
    ensures Average(Tips(shifts)) == Round2(TotalTips(shifts) / |shifts| as real)
  {
    assert |Tips(shifts)| == |shifts|;
  }

  /**
   * The tip rate in percent from the two unrounded totals, to the cent;
   * absent when there is no positive revenue to divide by.
   */
  function TipRate(totalTips: real, totalRevenue: real): (r: Option<real>)
    ensures r.Some? <==> totalRevenue > 0.0
    ensures r.Some? ==> r.value == Round2(totalTips / totalRevenue * 100.0)
  {
    if totalRevenue > 0.0 then Some(Round2(totalTips / totalRevenue * 100.0)) else None
  }

  /** `calculateStats`: `null` for no shifts, otherwise the summary of all of them. */
  function CalculateStats(shifts: seq<Shift>): (r: Option<Stats>)
    ensures r.None? <==> shifts == []
    ensures r.Some? ==> r.value.totalShifts == |shifts|
    ensures r.Some? ==> r.value.totalTips == Round2(TotalTips(shifts))
    ensures r.Some? ==> r.value.totalRevenue == Round2(TotalRevenue(shifts))
    ensures r.Some? ==> r.value.bestShift in Tips(shifts)
    ensures r.Some? ==> forall s :: s in shifts ==> s.betrag <= r.value.bestShift
    ensures r.Some? ==> r.value.worstShift in Tips(shifts)
    ensures r.Some? ==> forall s :: s in shifts ==> r.value.worstShift <= s.betrag
    ensures r.Some? ==> (r.value.avgTipRate.None? <==> forall s :: s in shifts ==> !HasRevenue(s))
    ensures r.Some? ==> r.value.avgPerShift == Average(Tips(shifts))
    ensures r.Some? ==> r.value.avgPerHour == Round2(TotalTips(shifts) / |shifts| as real / ShiftHours)
    ensures r.Some? ==> r.value.avgTipRate == TipRate(TotalTips(shifts), TotalRevenue(shifts))
  {
    if shifts == [] then None
    else
      var totalTips := TotalTips(shifts);
      var totalRevenue := TotalRevenue(shifts);
      var avgPerShift := totalTips / |shifts| as real;
      TotalRevenueSign(shifts);
      TipExtremes(shifts);
      AverageOfTips(shifts);
      Some(Stats(
        Round2(totalTips),
        Round2(totalRevenue),
        Round2(avgPerShift),
        Round2(avgPerShift / ShiftHours),
        TipRate(totalTips, totalRevenue),
        MaxOf(Tips(shifts)),
        MinOf(Tips(shifts)),
        |shifts|))
  }

  /**
   * The hourly figure is the unrounded per-shift mean spread over 5.5 hours,
   * so it lies between the worst and the best shift's hourly share, up to
   * half a cent.
   */
  lemma AveragePerHourWithinRange(shifts: seq<Shift>)
    requires shifts != []
    ensures CalculateStats(shifts).value.worstShift / ShiftHours - 0.005 < CalculateStats(shifts).value.avgPerHour
    ensures CalculateStats(shifts).value.avgPerHour <= CalculateStats(shifts).value.bestShift / ShiftHours + 0.005
  {
    var mean := TotalTips(shifts) / |shifts| as real;
    MeanWithinRange(Tips(shifts));
    assert |Tips(shifts)| == |shifts|;
    DivMonotone(MinOf(Tips(shifts)), mean, ShiftHours);
    DivMonotone(mean, MaxOf(Tips(shifts)), ShiftHours);
  }

  /** Tips of 10 on a revenue of 100 (10%) and 10 on 50 (20%). */
  function RateExample(): seq<Shift> {
    [Shift(Date(2024, 0, 1), 10.0, Early, None, Some(100.0), None, "Mo", 0.0, 10.0),
     Shift(Date(2024, 0, 2), 10.0, Late, None, Some(50.0), None, "Di", 0.0, 20.0)]
  }

  /**
   * The tip rate is taken from the two totals, 20 of 150: 13.33%, not the
   * 15% that averaging the shifts' own rates of 10% and 20% would give.
   */
  lemma TipRateFromTotals()
    ensures CalculateStats(RateExample()).value.avgTipRate == Some(13.33)
    ensures var a, b := RateExample()[0], RateExample()[1];
      (a.betrag / a.umsatz.value * 100.0 + b.betrag / b.umsatz.value * 100.0) / 2.0 == 15.0
  {
    RateExampleTotals();
    Round2Unique(20.0 / 150.0 * 100.0, 13.33);
  }

  /** The totals behind `TipRateFromTotals`: tips of 20 on a revenue of 150. */
  lemma RateExampleTotals()
    ensures TotalTips(RateExample()) == 20.0 && TotalRevenue(RateExample()) == 150.0
  {
    var a, b := RateExample()[0], RateExample()[1];
    assert RateExample() == [a] + [b];
    assert [a] == [] + [a];
    TotalTipsSnoc([], a);
    TotalTipsSnoc([a], b);
    RevenueCountsShiftsWith([], a);
    RevenueCountsShiftsWith([a], b);
  }

  /** The rounded revenue total is never negative. */
  lemma TotalRevenueNonNegative(shifts: seq<Shift>)
    requires shifts != []
    ensures CalculateStats(shifts).value.totalRevenue >= 0.0
  {
    TotalRevenueSign(shifts);
    RoundKeepsSign(TotalRevenue(shifts), 100.0);
  }

  /** The rounded per-shift average lies between the worst and the best shift, up to half a cent. */
  lemma AveragePerShiftWithinRange(shifts: seq<Shift>)
    requires shifts != []
    ensures CalculateStats(shifts).value.worstShift - 0.005 < CalculateStats(shifts).value.avgPerShift
    ensures CalculateStats(shifts).value.avgPerShift <= CalculateStats(shifts).value.bestShift + 0.005
  {
    MeanWithinRange(Tips(shifts));
    assert |Tips(shifts)| == |shifts|;
  }

  /** The best shift is never below the worst one. */
  lemma WorstNotAboveBest(shifts: seq<Shift>)
    requires shifts != []
    ensures CalculateStats(shifts).value.worstShift <= CalculateStats(shifts).value.bestShift
  {
    var st := CalculateStats(shifts).value;
    assert shifts[0] in shifts;
  }

  // ---------------------------------------------------------------------
  // calcChange

  datatype Direction = Up | Down | Flat

  /** A period-over-period change: the percentage and its direction. */
  datatype Change = Change(value: real, direction: Direction)

  /** The sign of a quotient follows the signs of its operands. */
  lemma QuotientSign(a: real, b: real)
    requires b != 0.0
    ensures a / b * 100.0 > 0.0 <==> (a > 0.0 && b > 0.0) || (a < 0.0 && b < 0.0)
    ensures a / b * 100.0 < 0.0 <==> (a > 0.0 && b < 0.0) || (a < 0.0 && b > 0.0)
  {
    var q := a / b;
    assert q * b == a;
    if q > 0.0 && b > 0.0 { assert q * b > 0.0; }
    if q > 0.0 && b < 0.0 { assert q * b < 0.0; }
    if q < 0.0 && b > 0.0 { assert q * b < 0.0; }
    if q < 0.0 && b < 0.0 { assert q * b > 0.0; }
  }

  /**
   * `calcChange`: a zero baseline reports a flat 0%; otherwise the change in
   * percent, rounded to one decimal, with the direction of the UNROUNDED change.
   */
  function CalcChange(current: real, previous: real): (r: Change)
    ensures previous == 0.0 ==> r == Change(0.0, Flat)
    ensures r.direction == Up <==> (previous > 0.0 && current > previous) || (previous < 0.0 && current < previous)
    ensures r.direction == Down <==> (previous > 0.0 && current < previous) || (previous < 0.0 && current > previous)
    ensures previous != 0.0 ==> (r.value * 10.0).Floor as real == r.value * 10.0
    ensures previous != 0.0 ==>
      var exact := (current - previous) / previous * 100.0;
      exact - 0.05 < r.value <= exact + 0.05
  {
    if previous == 0.0 then Change(0.0, Flat)
    else
      var change := (current - previous) / previous * 100.0;
      QuotientSign(current - previous, previous);
      Change(Round1(change), if change > 0.0 then Up else if change < 0.0 then Down else Flat)
  }

  /** The rounded value never contradicts the direction, though it may round to 0 while the direction is up or down. */
  lemma ChangeValueMatchesDirection(current: real, previous: real)
    ensures CalcChange(current, previous).direction == Up ==> CalcChange(current, previous).value >= 0.0
    ensures CalcChange(current, previous).direction == Down ==> CalcChange(current, previous).value <= 0.0
    ensures CalcChange(current, previous).direction == Flat ==> CalcChange(current, previous).value == 0.0
  {
    if previous != 0.0 {
      var change := (current - previous) / previous * 100.0;
      RoundKeepsSign(change, 10.0);
    }
  }

  /** Two equal totals compare as a flat 0%, whether or not they are zero. */
  lemma ChangeOfEqualTotals(total: real)
    ensures CalcChange(total, total) == Change(0.0, Flat)
  {
    if total != 0.0 {
      assert (total - total) / total * 100.0 == 0.0;
      RoundKeepsSign(0.0, 10.0);
    }
  }

  /** A rise of 0.01% is reported as value 0.0 with direction up. */
  lemma TinyRiseShowsZeroUp()
    ensures CalcChange(100.01, 100.0) == Change(0.0, Up)
  {
    var change := (100.01 - 100.0) / 100.0 * 100.0;
    assert change == 0.01;
    RoundToUnfold(change, 10.0);
  }

  /** From 100 to 110 is a rise of 10.0%; anything against a zero baseline is flat. */
  lemma ChangeExamples()
    ensures CalcChange(110.0, 100.0) == Change(10.0, Up)
    ensures CalcChange(50.0, 0.0) == Change(0.0, Flat)
  {
    var change := (110.0 - 100.0) / 100.0 * 100.0;
    assert change == 10.0;
    RoundToUnfold(change, 10.0);
  }

  // ---------------------------------------------------------------------
  // filterByMonth and filterByWeek

  /** The test of `filterByMonth`: same year and same 0-based month. */
  function InMonth(year: int, month: int): Shift -> bool {
    (s: Shift) => s.datum.year == year && s.datum.month0 == month
  }

  /** `filterByMonth`: the shifts of one calendar month (0-based), in input order. */
  function FilterByMonth(shifts: seq<Shift>, year: int, month: int): (r: seq<Shift>)
    ensures Selects(r, shifts, InMonth(year, month))
    ensures forall s :: s in r <==> s in shifts && s.datum.year == year && s.datum.month0 == month
  {
    FilterMembers(shifts, InMonth(year, month));
    Filter(shifts, InMonth(year, month))
  }

  /** The test of `filterByWeek`: from the week's Monday 00:00 to its Sunday 23:59:59.999. */
  function InWeek(ref: int): Shift -> bool {
    (s: Shift) => WeekStart(ref) <= DayOf(s) <= WeekStart(ref) + 6
  }

  /**
   * `filterByWeek`: the shifts of the Monday-to-Sunday week containing the
   * reference day `ref` (a day number), in input order.
   */
  function FilterByWeek(shifts: seq<Shift>, ref: int): (r: seq<Shift>)
    ensures Selects(r, shifts, InWeek(ref))
    ensures forall s :: s in r <==> s in shifts && ref - Weekday(ref) <= DayOf(s) <= ref - Weekday(ref) + 6
    ensures forall s :: s in r <==> s in shifts && DayOf(s) / 7 == ref / 7
  {
    FilterMembers(shifts, InWeek(ref));
    WeekStartIsMonday(ref);
    InWeekIffSameWeekAll(ref);
    Filter(shifts, InWeek(ref))
  }

  /** `InWeekIffSameWeek` for every day at once. */
  lemma InWeekIffSameWeekAll(ref: int)
    ensures forall x :: WeekStart(ref) <= x <= WeekStart(ref) + 6 <==> x / 7 == ref / 7
  {
    forall x
      ensures WeekStart(ref) <= x <= WeekStart(ref) + 6 <==> x / 7 == ref / 7
    {
      InWeekIffSameWeek(ref, x);
    }
  }

  // ---------------------------------------------------------------------
  // groupByWeekday

  /** The German short weekday labels, Monday first. */
  const WeekdayLabels: seq<string> := ["Mo", "Di", "Mi", "Do", "Fr", "Sa", "So"]

  /** One weekday bucket: the label, the rounded mean and total of its tips, and the number of its shifts. */
  datatype WeekdayData = WeekdayData(day: string, avg: real, total: real, count: nat)

  /** A shift falls on weekday `w` (0 = Monday) of the shared calendar. */
  function OnWeekday(w: int): Shift -> bool {
    (s: Shift) => Weekday(DayOf(s)) == w
  }

  /** The tips of the shifts on weekday `w`, in input order. */
  function WeekdayTips(shifts: seq<Shift>, w: int): seq<real> {
    Tips(Filter(shifts, OnWeekday(w)))
  }

  /** The bucket `groupByWeekday` reports for a list of tips. */
  function BucketOf(name: string, xs: seq<real>): (b: WeekdayData)
    ensures b.day == name && b.count == |xs|
    ensures xs == [] ==> b.avg == 0.0 && b.total == 0.0
    ensures xs != [] ==> b.avg == Average(xs)
    ensures Sum(xs) - 0.005 < b.total <= Sum(xs) + 0.005
  {
    WeekdayData(name, Average(xs), Round2(Sum(xs)), |xs|)
  }

  /** The seven buckets, Monday to Sunday, that `groupByWeekday` returns. */
  function WeekdayBuckets(shifts: seq<Shift>): (r: seq<WeekdayData>)
    ensures |r| == 7
    ensures forall w :: 0 <= w < 7 ==> r[w].day == WeekdayLabels[w]
    ensures forall w :: 0 <= w < 7 ==> r[w].count == |WeekdayTips(shifts, w)|
    ensures forall w :: 0 <= w < 7 && r[w].count == 0 ==> r[w].avg == 0.0 && r[w].total == 0.0
    ensures forall w :: 0 <= w < 7 ==> r[w].total == Round2(Sum(WeekdayTips(shifts, w)))
    ensures forall w :: 0 <= w < 7 ==> r[w].avg == Average(WeekdayTips(shifts, w))
  {
    seq(7, w requires 0 <= w < 7 => BucketOf(WeekdayLabels[w], WeekdayTips(shifts, w)))
  }

  /** Adding one shift adds its tip to the bucket of its weekday and to no other. */
  lemma WeekdayTipsSnoc(shifts: seq<Shift>, s: Shift, w: int)
    ensures WeekdayTips(shifts + [s], w)
         == WeekdayTips(shifts, w) + (if Weekday(DayOf(s)) == w then [s.betrag] else [])
  {
    FilterSnoc(shifts, s, OnWeekday(w));
    if Weekday(DayOf(s)) == w {
      MapSnoc(Filter(shifts, OnWeekday(w)), s, TipOf);
    }
  }

  /** The counts of the seven weekdays. */
  function WeekCounts(shifts: seq<Shift>): nat {
    |WeekdayTips(shifts, 0)| + |WeekdayTips(shifts, 1)| + |WeekdayTips(shifts, 2)|
      + |WeekdayTips(shifts, 3)| + |WeekdayTips(shifts, 4)| + |WeekdayTips(shifts, 5)|
      + |WeekdayTips(shifts, 6)|
  }

  /** The unrounded tip sums of the seven weekdays. */
  function WeekSums(shifts: seq<Shift>): real {
    Sum(WeekdayTips(shifts, 0)) + Sum(WeekdayTips(shifts, 1)) + Sum(WeekdayTips(shifts, 2))
      + Sum(WeekdayTips(shifts, 3)) + Sum(WeekdayTips(shifts, 4)) + Sum(WeekdayTips(shifts, 5))
      + Sum(WeekdayTips(shifts, 6))
  }

  /** Adding a shift adds one to the weekday counts. */
  lemma WeekCountsSnoc(shifts: seq<Shift>, s: Shift)
    ensures WeekCounts(shifts + [s]) == WeekCounts(shifts) + 1
  {
    WeekdayTipsSnoc(shifts, s, 0);
    WeekdayTipsSnoc(shifts, s, 1);
    WeekdayTipsSnoc(shifts, s, 2);
    WeekdayTipsSnoc(shifts, s, 3);
    WeekdayTipsSnoc(shifts, s, 4);
    WeekdayTipsSnoc(shifts, s, 5);
    WeekdayTipsSnoc(shifts, s, 6);
  }

  /** Adding a shift to the tips of weekday `w`, if it falls on `w`. */
  lemma WeekdaySumSnoc(shifts: seq<Shift>, s: Shift, w: int)
    ensures Sum(WeekdayTips(shifts + [s], w))
         == Sum(WeekdayTips(shifts, w)) + (if Weekday(DayOf(s)) == w then s.betrag else 0.0)
  {
    WeekdayTipsSnoc(shifts, s, w);
    if Weekday(DayOf(s)) == w {
      SumSnoc(WeekdayTips(shifts, w), s.betrag);
    } else {
      assert WeekdayTips(shifts + [s], w) == WeekdayTips(shifts, w);
    }
  }

  /** Adding a shift adds its tip to the weekday sums. */
  lemma WeekSumsSnoc(shifts: seq<Shift>, s: Shift)
    ensures WeekSums(shifts + [s]) == WeekSums(shifts) + s.betrag
  {
    WeekdaySumSnoc(shifts, s, 0);
    WeekdaySumSnoc(shifts, s, 1);
    WeekdaySumSnoc(shifts, s, 2);
    WeekdaySumSnoc(shifts, s, 3);
    WeekdaySumSnoc(shifts, s, 4);
    WeekdaySumSnoc(shifts, s, 5);
    WeekdaySumSnoc(shifts, s, 6);
  }

  /** Adding a shift adds its tip to the tip total. */
  lemma TotalTipsSnoc(shifts: seq<Shift>, s: Shift)
    ensures TotalTips(shifts + [s]) == TotalTips(shifts) + s.betrag
  {
    MapSnoc(shifts, s, TipOf);
    SumSnoc(Tips(shifts), s.betrag);
  }

  /** Every shift lands in exactly one weekday bucket: the counts add up to the number of shifts. */
  lemma {:induction false} WeekCountsPartition(shifts: seq<Shift>)
    ensures WeekCounts(shifts) == |shifts|
  {
    if shifts != [] {
      var init, s := shifts[..|shifts| - 1], shifts[|shifts| - 1];
      assert shifts == init + [s];
      WeekCountsPartition(init);
      WeekCountsSnoc(init, s);
    }
  }

  /** Every tip lands in exactly one weekday bucket: the unrounded sums add up to the tip total. */
  lemma {:induction false} WeekSumsPartition(shifts: seq<Shift>)
    ensures WeekSums(shifts) == TotalTips(shifts)
  {
    if shifts != [] {
      WeekSumsPartition(shifts[..|shifts| - 1]);
      WeekSumsLast(shifts);
    }
  }

  /** The last shift of a list adds its tip to the seven weekday sums and to the tip total alike. */
  lemma WeekSumsLast(shifts: seq<Shift>)
    requires shifts != []
    ensures WeekSums(shifts) == WeekSums(shifts[..|shifts| - 1]) + shifts[|shifts| - 1].betrag
    ensures TotalTips(shifts) == TotalTips(shifts[..|shifts| - 1]) + shifts[|shifts| - 1].betrag
  {
    var init, s := shifts[..|shifts| - 1], shifts[|shifts| - 1];
    assert shifts == init + [s];
    WeekSumsSnoc(init, s);
    TotalTipsSnoc(init, s);
  }

  /** The bucket counts of `groupByWeekday` add up to the number of shifts. */
  lemma BucketCountsAddUp(shifts: seq<Shift>)
    ensures var b := WeekdayBuckets(shifts);
      b[0].count + b[1].count + b[2].count + b[3].count + b[4].count + b[5].count + b[6].count == |shifts|
  {
    WeekCountsPartition(shifts);
  }

  /**
   * The bucket totals are rounded one by one, so together they differ from
   * the exact tip total by less than 3.5 cents (seven half-cents).
   */
  lemma BucketTotalsNearTotal(shifts: seq<Shift>)
    ensures var b := WeekdayBuckets(shifts);
      var sum := b[0].total + b[1].total + b[2].total + b[3].total + b[4].total + b[5].total + b[6].total;
      TotalTips(shifts) - 0.035 < sum <= TotalTips(shifts) + 0.035
  {
    WeekSumsPartition(shifts);
  }

  /** A shift is counted in the bucket of its own weekday and in no other. */
  lemma ShiftInItsOwnBucket(shifts: seq<Shift>, s: Shift, w: int)
    requires s in shifts && 0 <= w < 7
    ensures s in Filter(shifts, OnWeekday(w)) <==> w == Weekday(DayOf(s))
  {
    FilterMembers(shifts, OnWeekday(w));
  }

  /** The seven labels are pairwise different, so each weekday has its own entry. */
  lemma LabelsDistinct()
    ensures forall v, w :: 0 <= v < 7 && 0 <= w < 7 && WeekdayLabels[v] == WeekdayLabels[w] ==> v == w
  {
  }

  /** `grouped.get(day) || []`. */
  function TipsFor(grouped: map<string, seq<real>>, day: string): (r: seq<real>)
    ensures day in grouped ==> r == grouped[day]
    ensures day !in grouped ==> r == []
  {
    if day in grouped then grouped[day] else []
  }

  /** `grouped` maps each of the seven labels to the tips of the shifts of `done` on that weekday. */
  predicate GroupedTips(grouped: map<string, seq<real>>, done: seq<Shift>) {
    forall w :: 0 <= w < 7 ==> WeekdayLabels[w] in grouped && grouped[WeekdayLabels[w]] == WeekdayTips(done, w)
  }

  /** `new Map(days.map(d => [d, []]))`: every label starts with an empty list. */
  function EmptyGroups(): (grouped: map<string, seq<real>>)
    ensures GroupedTips(grouped, [])
  {
    map["Mo" := [], "Di" := [], "Mi" := [], "Do" := [], "Fr" := [], "Sa" := [], "So" := []]
  }

  /** One step of `groupByWeekday`'s loop: the next shift's tip joins the list of its weekday only. */
  lemma PushTip(done: seq<Shift>, s: Shift, grouped: map<string, seq<real>>)
    requires GroupedTips(grouped, done)
    ensures WeekdayLabels[Weekday(DayOf(s))] in grouped
    ensures var day := WeekdayLabels[Weekday(DayOf(s))];
      GroupedTips(grouped[day := grouped[day] + [s.betrag]], done + [s])
  {
    var day := WeekdayLabels[Weekday(DayOf(s))];
    var next := grouped[day := grouped[day] + [s.betrag]];
    LabelsDistinct();
    forall w | 0 <= w < 7
      ensures WeekdayLabels[w] in next && next[WeekdayLabels[w]] == WeekdayTips(done + [s], w)
    {
      WeekdayTipsSnoc(done, s, w);
    }
  }

  /** `PushTip` for the `i`-th shift of a list whose first `i` shifts are grouped. */
  lemma PushTipAt(shifts: seq<Shift>, i: nat, grouped: map<string, seq<real>>)
    requires i < |shifts| && GroupedTips(grouped, shifts[..i])
    ensures WeekdayLabels[Weekday(DayOf(shifts[i]))] in grouped
    ensures var day := WeekdayLabels[Weekday(DayOf(shifts[i]))];
      GroupedTips(grouped[day := grouped[day] + [shifts[i].betrag]], shifts[..i + 1])
  {
    PushTip(shifts[..i], shifts[i], grouped);
    assert shifts[..i + 1] == shifts[..i] + [shifts[i]];
  }

  /**
   * `groupByWeekday`'s `forEach`: starts each of the seven labels with an
   * empty list and pushes each shift's tip onto the list of its weekday's label.
   */
  method CollectTips(shifts: seq<Shift>) returns (grouped: map<string, seq<real>>)
    ensures GroupedTips(grouped, shifts)
  {
    grouped := EmptyGroups();
    for i := 0 to |shifts|
      invariant GroupedTips(grouped, shifts[..i])
    {
      PushTipAt(shifts, i, grouped);
      var day := WeekdayLabels[Weekday(DayOf(shifts[i]))];
      grouped := grouped[day := grouped[day] + [shifts[i].betrag]];
    }
    assert shifts[..|shifts|] == shifts;
  }

  /** Summarising each label's list of tips gives the buckets of `WeekdayBuckets`. */
  lemma BucketsOfGroups(shifts: seq<Shift>, grouped: map<string, seq<real>>)
    requires GroupedTips(grouped, shifts)
    ensures seq(7, w requires 0 <= w < 7 => BucketOf(WeekdayLabels[w], TipsFor(grouped, WeekdayLabels[w])))
         == WeekdayBuckets(shifts)
  {
  }

  /**
   * `groupByWeekday`: collects the tips per weekday label, then reports one
   * bucket per label, Monday first.
   */
  method GroupByWeekday(shifts: seq<Shift>) returns (buckets: seq<WeekdayData>)
    ensures buckets == WeekdayBuckets(shifts)
    ensures buckets[0].count + buckets[1].count + buckets[2].count + buckets[3].count
          + buckets[4].count + buckets[5].count + buckets[6].count == |shifts|
  {
    var grouped := CollectTips(shifts);
    buckets := seq(7, w requires 0 <= w < 7 => BucketOf(WeekdayLabels[w], TipsFor(grouped, WeekdayLabels[w])));
    BucketsOfGroups(shifts, grouped);
    BucketCountsAddUp(shifts);
  }

  /**
   * Because each bucket is rounded on its own, the bucket totals need not add
   * up to the rounded tip total: two half-cent tips on a Monday and a Tuesday
   * give buckets of 0.01 each, against a rounded total of 0.01.
   */
  lemma BucketTotalsCanMissRoundedTotal()
    ensures var shifts := [HalfCentShift(Date(2024, 0, 1)), HalfCentShift(Date(2024, 0, 2))];
      var b := WeekdayBuckets(shifts);
      b[0].total + b[1].total == 0.02 && Round2(TotalTips(shifts)) == 0.01
  {
    var mon, tue := HalfCentShift(Date(2024, 0, 1)), HalfCentShift(Date(2024, 0, 2));
    HalfCentTips(mon, tue);
    var shifts := [mon, tue];
    var b := WeekdayBuckets(shifts);
    assert b[0].total == Round2(Sum([0.005]));
    assert b[1].total == Round2(Sum([0.005]));
    HalfCentRounding();
  }

  /** The weekday lists behind `BucketTotalsCanMissRoundedTotal`. */
  lemma HalfCentTips(mon: Shift, tue: Shift)
    requires mon == HalfCentShift(Date(2024, 0, 1)) && tue == HalfCentShift(Date(2024, 0, 2))
    ensures WeekdayTips([mon, tue], 0) == [0.005] && WeekdayTips([mon, tue], 1) == [0.005]
    ensures TotalTips([mon, tue]) == 0.01
  {
    FirstWeekOf2024();
    assert [mon, tue] == [mon] + [tue];
    OneShiftPerDay(mon, tue, 0);
    OneShiftPerDay(mon, tue, 1);
    MapSnoc([mon], tue, TipOf);
    assert Tips([mon, tue]) == [0.005] + [0.005];
    SumSnoc([0.005], 0.005);
  }

  /** Of two shifts on different weekdays, only the one on `w` is kept for `w`. */
  lemma OneShiftPerDay(a: Shift, b: Shift, w: int)
    requires Weekday(DayOf(a)) != Weekday(DayOf(b))
    requires w == Weekday(DayOf(a)) || w == Weekday(DayOf(b))
    ensures Tips(Filter([a, b], OnWeekday(w))) == if w == Weekday(DayOf(a)) then [a.betrag] else [b.betrag]
  {
    assert [a, b] == [a] + [b];
    FilterSnoc([a], b, OnWeekday(w));
    assert Filter([a], OnWeekday(w)) == if w == Weekday(DayOf(a)) then [a] else [];
    if w == Weekday(DayOf(a)) {
      assert Filter([a, b], OnWeekday(w)) == [a];
    } else {
      assert Filter([a, b], OnWeekday(w)) == [b];
    }
  }

  /** 1 January 2024 was a Monday, 2 January a Tuesday. */
  lemma FirstWeekOf2024()
    ensures Weekday(DayNumber(Date(2024, 0, 1))) == 0
    ensures Weekday(DayNumber(Date(2024, 0, 2))) == 1
  {
    assert DaysBeforeYear(2024) == 738885;
    assert DayNumber(Date(2024, 0, 1)) == 738885;
    assert DayNumber(Date(2024, 0, 2)) == 738886;
  }

  /** Half a cent rounds up to a cent; a cent stays a cent. */
  lemma HalfCentRounding()
    ensures Round2(Sum([0.005])) == 0.01 && Round2(0.01) == 0.01
  {
    assert Sum([0.005]) == 0.005;
    RoundToUnfold(0.005, 100.0);
    RoundToUnfold(0.01, 100.0);
  }

  /** A shift with a tip of half a cent and nothing else recorded. */
  function HalfCentShift(d: CalendarDate): Shift {
    Shift(d, 0.005, NoKind, None, None, None, "", 0.0, 0.0)
  }
}
