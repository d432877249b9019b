/**
 * Sales prediction from past days: per-weekday averages, a trend factor
 * from the last two weeks, a confidence level, a seven-day forecast and the
 * busiest hours.
 *
 * Amounts are reals. A record's date enters as its timestamp (the value of
 * `new Date(date).getTime()`), and the weekday of the target date as a
 * number 0 (Sunday) to 6 (Saturday).
 */
module SalesPrediction {
  import opened Wrappers
  import opened Strings
  import opened Sorting

  datatype HistoricalData = HistoricalData(date: int, dayOfWeek: int, hour: Option<int>, revenue: real, orders: real)

  datatype Confidence = Low | Medium | High

  datatype PredictionData = PredictionData(predictedRevenue: real, predictedOrders: int, confidence: Confidence, basedOn: string)

  datatype DayStats = DayStats(avgRevenue: real, avgOrders: real, count: nat)

  /** `Math.round`: halves go up. */
  function Round(x: real): (n: int)
    ensures x - 0.5 < n as real <= x + 0.5
  {
    (x + 0.5).Floor
  }

  /** Every record names a weekday the per-day table has a slot for. */
  predicate ValidDays(data: seq<HistoricalData>)
  {
    forall i :: 0 <= i < |data| ==> 0 <= data[i].dayOfWeek < 7
  }

  // ------------------------------------------------------- weekday averages

  function DayRevenue(data: seq<HistoricalData>, day: int): real
  {
    if data == [] then 0.0
    else DayRevenue(data[..|data| - 1], day) + (if data[|data| - 1].dayOfWeek == day then data[|data| - 1].revenue else 0.0)
  }

  function DayOrders(data: seq<HistoricalData>, day: int): real
  {
    if data == [] then 0.0
    else DayOrders(data[..|data| - 1], day) + (if data[|data| - 1].dayOfWeek == day then data[|data| - 1].orders else 0.0)
  }

  function DayCount(data: seq<HistoricalData>, day: int): nat
  {
    if data == [] then 0
    else DayCount(data[..|data| - 1], day) + (if data[|data| - 1].dayOfWeek == day then 1 else 0)
  }

  /** The average the table holds for `day`: totals over the records of that weekday, or 0 when there are none. */
  function DayAverage(data: seq<HistoricalData>, day: int): DayStats
  {
    var n := DayCount(data, day);
    DayStats(if n > 0 then DayRevenue(data, day) / n as real else 0.0,
             if n > 0 then DayOrders(data, day) / n as real else 0.0,
             n)
  }

  /** `calculateDayOfWeekAverages`: seven buckets filled in one pass over the records. */
  method DayOfWeekAverages(data: seq<HistoricalData>) returns (averages: seq<DayStats>)
    requires ValidDays(data)
    ensures |averages| == 7
    ensures forall d :: 0 <= d < 7 ==> averages[d] == DayAverage(data, d)
  {
    var totalRevenue := new real[7];
    var totalOrders := new real[7];
    var count := new nat[7];
    for i := 0 to 7
      invariant forall d :: 0 <= d < i ==> totalRevenue[d] == 0.0 && totalOrders[d] == 0.0 && count[d] == 0
    {
      totalRevenue[i], totalOrders[i], count[i] := 0.0, 0.0, 0;
    }
    for k := 0 to |data|
      invariant forall d :: 0 <= d < 7 ==> totalRevenue[d] == DayRevenue(data[..k], d)
      invariant forall d :: 0 <= d < 7 ==> totalOrders[d] == DayOrders(data[..k], d)
      invariant forall d :: 0 <= d < 7 ==> count[d] == DayCount(data[..k], d)
    {
      assert data[..k + 1][..k] == data[..k];
      var day := data[k].dayOfWeek;
      totalRevenue[day] := totalRevenue[day] + data[k].revenue;
      totalOrders[day] := totalOrders[day] + data[k].orders;
      count[day] := count[day] + 1;
    }
    assert data[..|data|] == data;
    averages := [];
    for i := 0 to 7
      invariant |averages| == i
      invariant forall d :: 0 <= d < i ==> averages[d] == DayAverage(data, d)
    {
      var n := count[i];
      averages := averages + [DayStats(if n > 0 then totalRevenue[i] / n as real else 0.0,
                                       if n > 0 then totalOrders[i] / n as real else 0.0,
                                       n)];
    }
  }

  /** Every record is counted under exactly one weekday. */
  lemma {:induction false} DayCountsCoverData(data: seq<HistoricalData>)
    requires ValidDays(data)
    ensures DayCount(data, 0) + DayCount(data, 1) + DayCount(data, 2) + DayCount(data, 3)
            + DayCount(data, 4) + DayCount(data, 5) + DayCount(data, 6) == |data|
  {
    if data != [] {
      DayCountsCoverData(data[..|data| - 1]);
    }
  }

  // ----------------------------------------------------------------- trend

  /** The comparator `b.date - a.date`: newer records first. */
  predicate NewerFirst(a: HistoricalData, b: HistoricalData)
  {
    a.date >= b.date
  }

  lemma NewerFirstIsPreorder()
    ensures TotalPreorder(NewerFirst)
  {
  }

  function RevenueSum(s: seq<HistoricalData>): real
  {
    if s == [] then 0.0 else RevenueSum(s[..|s| - 1]) + s[|s| - 1].revenue
  }

  /** `Math.max(0.7, Math.min(1.3, t))`. */
  function Clamp(t: real): (r: real)
    ensures 0.7 <= r <= 1.3
    ensures 0.7 <= t <= 1.3 ==> r == t
    ensures t < 0.7 ==> r == 0.7
    ensures t > 1.3 ==> r == 1.3
  {
    if t < 0.7 then 0.7 else if t > 1.3 then 1.3 else t
  }

  /** The history newest first, as `calculateTrendMultiplier` sorts it. */
  function NewestFirst(data: seq<HistoricalData>): (r: seq<HistoricalData>)
    ensures Sorted(r, NewerFirst) && multiset(r) == multiset(data) && |r| == |data|
  {
    NewerFirstIsPreorder();
    SortBy(data, NewerFirst)
  }

  /**
   * `calculateTrendMultiplier`: the average of the seven newest records over
   * that of the seven before them, kept within 0.7 and 1.3; 1 with fewer
   * than fourteen records or when the earlier week made nothing.
   */
  function TrendMultiplier(data: seq<HistoricalData>): (r: real)
    ensures 0.7 <= r <= 1.3
    ensures |data| < 14 ==> r == 1.0
  {
    if |data| < 14 then 1.0
    else
      var sorted := NewestFirst(data);
      var recentAvg := RevenueSum(sorted[..7]) / 7.0;
      var previousAvg := RevenueSum(sorted[7..14]) / 7.0;
      if previousAvg == 0.0 then 1.0 else Clamp(recentAvg / previousAvg)
  }

  /** The recent week is never older than the week before it, which is never older than anything left out. */
  lemma TrendWindows(data: seq<HistoricalData>, i: int, j: int)
    requires 14 <= |data|
    requires 0 <= i < j < |data| && i < 14
    ensures NewestFirst(data)[i].date >= NewestFirst(data)[j].date
  {
  }

  /**
   * The two branches with fourteen records or more: 1 when the earlier week
   * made nothing, and otherwise the ratio of the two weeks' revenue, with an
   * out-of-range ratio replaced by the nearer bound.
   */
  lemma TrendCases(data: seq<HistoricalData>)
    requires 14 <= |data|
    ensures var s := NewestFirst(data); RevenueSum(s[7..14]) == 0.0 ==> TrendMultiplier(data) == 1.0
    ensures var s := NewestFirst(data);
      RevenueSum(s[7..14]) != 0.0 ==> TrendMultiplier(data) == Clamp(RevenueSum(s[..7]) / RevenueSum(s[7..14]))
  {
    var s := NewestFirst(data);
    var a, b := RevenueSum(s[..7]), RevenueSum(s[7..14]);
    assert b / 7.0 == 0.0 <==> b == 0.0;
    if b != 0.0 {
      assert (a / 7.0) / (b / 7.0) == a / b;
    }
  }

  /** A trend within the bounds is used as it is. */
  lemma TrendUnclamped(data: seq<HistoricalData>)
    requires 14 <= |data|
    requires var s := NewestFirst(data); RevenueSum(s[7..14]) != 0.0
    requires var s := NewestFirst(data); 0.7 <= RevenueSum(s[..7]) / RevenueSum(s[7..14]) <= 1.3
    ensures var s := NewestFirst(data); TrendMultiplier(data) == RevenueSum(s[..7]) / RevenueSum(s[7..14])
  {
    TrendCases(data);
  }

  // ------------------------------------------------------------ confidence

  /** `determineConfidence`. */
  function DetermineConfidence(dataCount: int, dayCount: int): (c: Confidence)
    ensures c == Low <==> dataCount < 7 || dayCount < 2
    ensures c == High <==> dataCount >= 21 && dayCount >= 3
  {
    if dataCount < 7 || dayCount < 2 then Low
    else if dataCount < 21 || dayCount < 3 then Medium
    else High
  }

  /** `getConfidencePercentage`. */
  function ConfidencePercentage(c: Confidence): (p: int)
    ensures 40 <= p <= 90
    ensures p > 40 <==> c != Low
    ensures p == 90 <==> c == High
  {
    match c
    case Low => 40
    case Medium => 70
    case High => 90
  }

  /** `getConfidenceLabel`. */
  function ConfidenceLabel(c: Confidence): (r: string)
    ensures |r| > 10 && r[|r| - 10..] == " confiança"
  {
    match c
    case Low => "Baixa confiança"
    case Medium => "Média confiança"
    case High => "Alta confiança"
  }

  /** Distinct confidence levels get distinct labels. */
  lemma ConfidenceLabelsDistinct(c: Confidence, d: Confidence)
    requires c != d
    ensures ConfidenceLabel(c) != ConfidenceLabel(d)
  {
  }

  /** More records, or more records for the weekday, never lower the confidence, and the percentage follows it. */
  lemma ConfidenceMonotone(n1: int, d1: int, n2: int, d2: int)
    requires n1 <= n2 && d1 <= d2
    ensures ConfidencePercentage(DetermineConfidence(n1, d1)) <= ConfidencePercentage(DetermineConfidence(n2, d2))
  {
  }

  /** Low, medium and high map to 40, 70 and 90 per cent, strictly increasing, each with its own label. */
  lemma ConfidencePercentageIncreasing()
    ensures ConfidencePercentage(Low) < ConfidencePercentage(Medium) < ConfidencePercentage(High)
    ensures ConfidencePercentage(Low) == 40 && ConfidencePercentage(High) == 90
    ensures ConfidenceLabel(Low) != ConfidenceLabel(Medium) && ConfidenceLabel(Medium) != ConfidenceLabel(High)
            && ConfidenceLabel(Low) != ConfidenceLabel(High)
  {
    assert ConfidenceLabel(Low)[0] == 'B';
    assert ConfidenceLabel(Medium)[0] == 'M';
    assert ConfidenceLabel(High)[0] == 'A';
  }

  // ---------------------------------------------------------- predictions

  const DayNames: seq<string> := ["Domingo", "Segunda", "Terça", "Quarta", "Quinta", "Sexta", "Sábado"]

  /** "`n` `weekday`s anteriores", with the plural 's' unless there is exactly one. */
  function BasedOn(count: nat, day: int): string
    requires 0 <= day < 7
  {
    IntToString(count) + " " + DayNames[day] + (if count != 1 then "s" else "") + " anteriores"
  }

  /** The forecast for a date falling on weekday `day`. */
  function Prediction(data: seq<HistoricalData>, day: int): PredictionData
    requires 0 <= day < 7
  {
    if data == [] then PredictionData(0.0, 0, Low, "Sem dados históricos")
    else
      var stats := DayAverage(data, day);
      var trend := TrendMultiplier(data);
      PredictionData(stats.avgRevenue * trend, Round(stats.avgOrders * trend),
                     DetermineConfidence(|data|, stats.count), BasedOn(stats.count, day))
  }

  /** `predictSalesForDate`. */
  method PredictSalesForDate(data: seq<HistoricalData>, day: int) returns (p: PredictionData)
    requires ValidDays(data) && 0 <= day < 7
    ensures p == Prediction(data, day)
  {
    if |data| == 0 {
      return PredictionData(0.0, 0, Low, "Sem dados históricos");
    }
    var dayAverages := DayOfWeekAverages(data);
    var trendMultiplier := TrendMultiplier(data);
    var dayData := dayAverages[day];
    var predictedRevenue := dayData.avgRevenue * trendMultiplier;
    var predictedOrders := Round(dayData.avgOrders * trendMultiplier);
    var confidence := DetermineConfidence(|data|, dayData.count);
    p := PredictionData(predictedRevenue, predictedOrders, confidence, BasedOn(dayData.count, day));
  }

  /** No history: nothing predicted, with low confidence. */
  lemma EmptyHistory(day: int)
    requires 0 <= day < 7
    ensures Prediction([], day).predictedRevenue == 0.0 && Prediction([], day).predictedOrders == 0
    ensures Prediction([], day).confidence == Low
  {
  }

  /** The confidence counts all records and those of the target weekday. */
  lemma PredictionConfidence(data: seq<HistoricalData>, day: int)
    requires data != [] && 0 <= day < 7
    ensures Prediction(data, day).confidence == DetermineConfidence(|data|, DayCount(data, day))
  {
  }

  /** The trend moves the weekday's average revenue by at most 30% either way. */
  lemma PredictionWithinTrend(data: seq<HistoricalData>, day: int)
    requires data != [] && 0 <= day < 7
    requires DayAverage(data, day).avgRevenue >= 0.0
    ensures 0.7 * DayAverage(data, day).avgRevenue <= Prediction(data, day).predictedRevenue
            <= 1.3 * DayAverage(data, day).avgRevenue
  {
    var a := DayAverage(data, day).avgRevenue;
    var t := TrendMultiplier(data);
    assert Prediction(data, day).predictedRevenue == a * t;
    ScaledWithin(a, t);
  }

  /** Scaling a non-negative amount by a factor in [0.7, 1.3] keeps it within 30% of itself. */
  lemma ScaledWithin(a: real, t: real)
    requires a >= 0.0 && 0.7 <= t <= 1.3
    ensures 0.7 * a <= a * t <= 1.3 * a
  {
    assert (t - 0.7) * a >= 0.0;
    assert (1.3 - t) * a >= 0.0;
  }

  /** The weekday `i` days after `startDay`, as `setDate(getDate() + i)` gives it. */
  function WeekDay(startDay: int, i: int): (d: int)
    ensures 0 <= d < 7
  {
    (startDay + i) % 7
  }

  /** `predictWeek`: one forecast for each of the seven days from the start date. */
  method PredictWeek(data: seq<HistoricalData>, startDay: int) returns (predictions: seq<PredictionData>)
    requires ValidDays(data) && 0 <= startDay < 7
    ensures |predictions| == 7
    ensures forall i :: 0 <= i < 7 ==> predictions[i] == Prediction(data, WeekDay(startDay, i))
  {
    predictions := [];
    for i := 0 to 7
      invariant |predictions| == i
      invariant forall k :: 0 <= k < i ==> predictions[k] == Prediction(data, WeekDay(startDay, k))
    {
      var p := PredictSalesForDate(data, WeekDay(startDay, i));
      predictions := predictions + [p];
    }
  }

  /** The week starts on the start date's weekday and visits every weekday once. */
  lemma WeekDaysDistinct(startDay: int, i: int, j: int)
    requires 0 <= startDay < 7 && 0 <= i < j < 7
    ensures WeekDay(startDay, 0) == startDay
    ensures WeekDay(startDay, i) != WeekDay(startDay, j)
  {
  }

  // ------------------------------------------------------------ peak hours

  datatype HourPrediction = HourPrediction(hour: int, expectedOrders: int)

  predicate ValidHours(data: seq<HistoricalData>)
  {
    forall i :: 0 <= i < |data| ==> data[i].hour.Some? ==> 0 <= data[i].hour.value < 24
  }

  function HourTotal(data: seq<HistoricalData>, h: int): real
  {
    if data == [] then 0.0
    else HourTotal(data[..|data| - 1], h) + (if data[|data| - 1].hour == Some(h) then data[|data| - 1].orders else 0.0)
  }

  function HourCount(data: seq<HistoricalData>, h: int): nat
  {
    if data == [] then 0
    else HourCount(data[..|data| - 1], h) + (if data[|data| - 1].hour == Some(h) then 1 else 0)
  }

  /** The rounded average number of orders at hour `h`, or 0 when no record has that hour. */
  function ExpectedOrders(data: seq<HistoricalData>, h: int): int
  {
    var n := HourCount(data, h);
    if n > 0 then Round(HourTotal(data, h) / n as real) else 0
  }

  /** `Object.entries(hourStats)`: hours 0 to 23 in ascending order. */
  function HourEntries(data: seq<HistoricalData>): (r: seq<HourPrediction>)
    ensures |r| == 24
    ensures forall h :: 0 <= h < 24 ==> r[h] == HourPrediction(h, ExpectedOrders(data, h))
  {
    seq(24, h => HourPrediction(h, ExpectedOrders(data, h)))
  }

  /** The comparator `b.expectedOrders - a.expectedOrders`: busier hours first. */
  predicate BusierFirst(a: HourPrediction, b: HourPrediction)
  {
    a.expectedOrders >= b.expectedOrders
  }

  lemma BusierFirstIsPreorder()
    ensures TotalPreorder(BusierFirst)
  {
  }

  function BusiestFirst(entries: seq<HourPrediction>): (r: seq<HourPrediction>)
    ensures Sorted(r, BusierFirst) && multiset(r) == multiset(entries) && |r| == |entries|
  {
    BusierFirstIsPreorder();
    SortBy(entries, BusierFirst)
  }

  /** The five busiest hours. */
  function PeakHours(data: seq<HistoricalData>): seq<HourPrediction>
  {
    Take(BusiestFirst(HourEntries(data)), 5)
  }

  /** `predictPeakHours`: the per-hour buckets are filled in one pass, then ranked. */
  method PredictPeakHours(data: seq<HistoricalData>) returns (predictions: seq<HourPrediction>)
    requires ValidHours(data)
    ensures predictions == PeakHours(data)
  {
    var total := new real[24];
    var count := new nat[24];
    for i := 0 to 24
      invariant forall h :: 0 <= h < i ==> total[h] == 0.0 && count[h] == 0
    {
      total[i], count[i] := 0.0, 0;
    }
    for k := 0 to |data|
      invariant forall h :: 0 <= h < 24 ==> total[h] == HourTotal(data[..k], h)
      invariant forall h :: 0 <= h < 24 ==> count[h] == HourCount(data[..k], h)
    {
      assert data[..k + 1][..k] == data[..k];
      if data[k].hour.Some? {
        var h := data[k].hour.value;
        total[h] := total[h] + data[k].orders;
        count[h] := count[h] + 1;
      }
    }
    assert data[..|data|] == data;
    var entries := seq(24, h requires 0 <= h < 24 reads total, count =>
      HourPrediction(h, if count[h] > 0 then Round(total[h] / count[h] as real) else 0));
    assert entries == HourEntries(data);
    predictions := Take(BusiestFirst(entries), 5);
  }

  /** Five entries, busiest first, and no hour left out is busier than one kept. */
  lemma PeakHoursRanked(data: seq<HistoricalData>)
    ensures |PeakHours(data)| == 5
    ensures Sorted(PeakHours(data), BusierFirst)
    ensures forall i, h :: 0 <= i < 5 && 0 <= h < 24 && HourEntries(data)[h] !in PeakHours(data) ==>
      PeakHours(data)[i].expectedOrders >= ExpectedOrders(data, h)
  {
    var sorted := BusiestFirst(HourEntries(data));
    var top := PeakHours(data);
    assert top == sorted[..5];
    forall i, h | 0 <= i < 5 && 0 <= h < 24 && HourEntries(data)[h] !in top
      ensures top[i].expectedOrders >= ExpectedOrders(data, h)
    {
      var e := HourEntries(data)[h];
      assert e in multiset(sorted);
      var j :| 0 <= j < |sorted| && sorted[j] == e;
      assert j >= 5;
      assert BusierFirst(sorted[i], sorted[j]);
    }
  }

  /** Hours with the same expected orders are ranked in hour order, as the stable sort leaves them. */
  lemma PeakHoursTieOrder(data: seq<HistoricalData>, x: HourPrediction)
    ensures Ties(BusiestFirst(HourEntries(data)), x, BusierFirst) == Ties(HourEntries(data), x, BusierFirst)
  {
    BusierFirstIsPreorder();
    SortByStable(HourEntries(data), x, BusierFirst);
  }

  /** Each entry kept is a real hour carrying its own average. */
  lemma PeakHoursGenuine(data: seq<HistoricalData>, i: int)
    requires 0 <= i < |PeakHours(data)|
    ensures 0 <= PeakHours(data)[i].hour < 24
    ensures PeakHours(data)[i].expectedOrders == ExpectedOrders(data, PeakHours(data)[i].hour)
  {
    var sorted := BusiestFirst(HourEntries(data));
    PermutationMembers(HourEntries(data), sorted, i);
  }
}
