/** Summary statistics over a selection of events (calculateStatistics). */
module Statistics {
  import opened Events

  /** The average as displayed: the literal '0' for an empty selection, or the
      exact quotient rendered by `toFixed(2)`, kept here as the value it
      renders. */
  datatype AvgText = ZeroText | Fixed2(exact: real)

  /** A date as displayed: the literal 'N/A', or the time value rendered by
      `toLocaleDateString()`, kept here as the value it renders. */
  datatype DateText = NotAvailable | LocaleDate(time: int)

  datatype DateRange = DateRange(startDate: DateText, endDate: DateText)

  datatype Stats = Stats(
    events: nat,
    totalFatalities: int,
    avgFatalities: AvgText,
    maxFatalities: int,
    dateRange: DateRange)

  /** What an empty selection reports. */
  const EmptyStats: Stats := Stats(0, 0, ZeroText, 0, DateRange(NotAvailable, NotAvailable))

  /** Sum of the fatalities of all points: the reference definition, which
      adds from the front and equally well splits off the last point. */
  function TotalOf(points: seq<Event>): (total: int)
    ensures points != [] ==>
      total == TotalOf(points[..|points| - 1]) + points[|points| - 1].fatalities
  {
    if points == [] then 0
    else
      var rest := points[1..];
      assert rest != [] ==> points[..|points| - 1][1..] == rest[..|rest| - 1];
      points[0].fatalities + TotalOf(rest)
  }

  /** `points.reduce((sum, point) => sum + point.fatalities, acc)`: a left
      fold, which ends at the accumulator plus the reference sum. */
  function ReduceSum(points: seq<Event>, acc: int): (sum: int)
    ensures sum == acc + TotalOf(points)
  {
    if points == [] then acc else ReduceSum(points[1..], acc + points[0].fatalities)
  }

  /** `points.map((point) => point.fatalities)` */
  function Fatalities(points: seq<Event>): (r: seq<int>)
    ensures |r| == |points|
    ensures forall i :: 0 <= i < |points| ==> r[i] == points[i].fatalities
  {
    seq(|points|, i requires 0 <= i < |points| => points[i].fatalities)
  }

  /** `points.map((point) => point.event_date)`, each date as its time value. */
  function Dates(points: seq<Event>): (r: seq<int>)
    ensures |r| == |points|
    ensures forall i :: 0 <= i < |points| ==> r[i] == points[i].eventDate
  {
    seq(|points|, i requires 0 <= i < |points| => points[i].eventDate)
  }

  /** `Math.max(...xs)` on a non-empty argument list. */
  function MaxOf(xs: seq<int>): (m: int)
    requires |xs| > 0
    ensures forall i :: 0 <= i < |xs| ==> xs[i] <= m
    ensures exists i :: 0 <= i < |xs| && xs[i] == m
  {
    if |xs| == 1 then xs[0]
    else
      var rest := MaxOf(xs[1..]);
      assert forall i :: 1 <= i < |xs| ==> xs[i] == xs[1..][i - 1];
      if xs[0] >= rest then xs[0] else rest
  }

  /** `Math.min(...xs)` on a non-empty argument list. */
  function MinOf(xs: seq<int>): (m: int)
    requires |xs| > 0
    ensures forall i :: 0 <= i < |xs| ==> m <= xs[i]
    ensures exists i :: 0 <= i < |xs| && xs[i] == m
  {
    if |xs| == 1 then xs[0]
    else
      var rest := MinOf(xs[1..]);
      assert forall i :: 1 <= i < |xs| ==> xs[i] == xs[1..][i - 1];
      if xs[0] <= rest then xs[0] else rest
  }

  /** `total / events` on exact numbers: the value that times the number of
      events gives back the total. */
  function Average(total: int, events: nat): (avg: real)
    requires events > 0
    ensures avg * (events as real) == total as real
  {
    total as real / events as real
  }

  /** calculateStatistics: the empty selection reports fixed defaults; any
      other selection reports its size, its total, an average that times the
      size gives the total, a maximum that some point attains and none
      exceeds, and a date range whose ends are the earliest and the latest
      event dates. */
  function CalculateStatistics(points: seq<Event>): (r: Stats)
    ensures |points| == 0 ==> r == EmptyStats
    ensures |points| > 0 ==> r.events == |points| && r.totalFatalities == TotalOf(points)
    ensures |points| > 0 ==>
      r.avgFatalities == Fixed2(Average(TotalOf(points), |points|))
    ensures |points| > 0 ==>
      (forall i :: 0 <= i < |points| ==> points[i].fatalities <= r.maxFatalities) &&
      (exists i :: 0 <= i < |points| && points[i].fatalities == r.maxFatalities)
    ensures |points| > 0 ==>
      r.dateRange.startDate.LocaleDate? && r.dateRange.endDate.LocaleDate? &&
      r.dateRange.startDate.time <= r.dateRange.endDate.time &&
      (forall i :: 0 <= i < |points| ==>
        r.dateRange.startDate.time <= points[i].eventDate <= r.dateRange.endDate.time) &&
      (exists i :: 0 <= i < |points| && points[i].eventDate == r.dateRange.startDate.time) &&
      (exists i :: 0 <= i < |points| && points[i].eventDate == r.dateRange.endDate.time)
  {
    if |points| == 0 then EmptyStats
    else
      var totalEvents := |points|;
      var totalFatalities := ReduceSum(points, 0);
      var avgFatalities := Average(totalFatalities, totalEvents);
      var maxFatalities := MaxOf(Fatalities(points));
      var dates := Dates(points);
      var minDate := MinOf(dates);
      var maxDate := MaxOf(dates);
      Stats(totalEvents, totalFatalities, Fixed2(avgFatalities), maxFatalities,
            DateRange(LocaleDate(minDate), LocaleDate(maxDate)))
  }

  /** The total over a concatenation is the sum of the totals. */
  lemma {:induction false} TotalOfAppend(a: seq<Event>, b: seq<Event>)
    ensures TotalOf(a + b) == TotalOf(a) + TotalOf(b)
  {
    if a == [] {
      assert a + b == b;
    } else {
      assert (a + b)[1..] == a[1..] + b;
      TotalOfAppend(a[1..], b);
    }
  }

  /** Reordering the points leaves the total unchanged. */
  lemma {:induction false} TotalOfPermutation(a: seq<Event>, b: seq<Event>)
    requires multiset(a) == multiset(b)
    ensures TotalOf(a) == TotalOf(b)
  {
    if a == [] {
      assert |b| == |multiset(b)| == 0;
    } else {
      var x := a[0];
      assert x in multiset(b);
      var j :| 0 <= j < |b| && b[j] == x;
      var rest := b[..j] + b[j + 1..];
      assert b == b[..j] + [x] + b[j + 1..];
      assert a == [x] + a[1..];
      assert multiset(b) == multiset(b[..j]) + multiset{x} + multiset(b[j + 1..]);
      assert multiset(rest) == multiset(b[..j]) + multiset(b[j + 1..]);
      assert multiset(a) == multiset{x} + multiset(a[1..]);
      assert multiset(rest) == multiset(b) - multiset{x};
      assert multiset(a[1..]) == multiset(a) - multiset{x};
      TotalOfPermutation(a[1..], rest);
      TotalOfAppend(b[..j] + [x], b[j + 1..]);
      TotalOfAppend(b[..j], [x]);
      TotalOfAppend(b[..j], b[j + 1..]);
    }
  }

  /** Two argument lists holding the same values have the same maximum and
      the same minimum. */
  lemma ExtremaOfSameValues(xs: seq<int>, ys: seq<int>)
    requires |xs| > 0 && |ys| > 0
    requires forall v :: v in xs <==> v in ys
    ensures MaxOf(xs) == MaxOf(ys) && MinOf(xs) == MinOf(ys)
  {
    var i :| 0 <= i < |xs| && xs[i] == MaxOf(xs);
    assert xs[i] in ys;
    var j :| 0 <= j < |ys| && ys[j] == MaxOf(ys);
    assert ys[j] in xs;
    var k :| 0 <= k < |xs| && xs[k] == MinOf(xs);
    assert xs[k] in ys;
    var l :| 0 <= l < |ys| && ys[l] == MinOf(ys);
    assert ys[l] in xs;
  }

  /** Every statistic is independent of the order of the points. */
  lemma CalculateStatisticsPermutation(a: seq<Event>, b: seq<Event>)
    requires multiset(a) == multiset(b)
    ensures CalculateStatistics(a) == CalculateStatistics(b)
  {
    assert |a| == |multiset(a)| == |multiset(b)| == |b|;
    if |a| > 0 {
      TotalOfPermutation(a, b);
      forall v ensures v in Fatalities(a) <==> v in Fatalities(b) {
        if v in Fatalities(a) {
          var i :| 0 <= i < |a| && Fatalities(a)[i] == v;
          assert a[i] in multiset(b);
          var j :| 0 <= j < |b| && b[j] == a[i];
          assert Fatalities(b)[j] == v;
        }
        if v in Fatalities(b) {
          var j :| 0 <= j < |b| && Fatalities(b)[j] == v;
          assert b[j] in multiset(a);
          var i :| 0 <= i < |a| && a[i] == b[j];
          assert Fatalities(a)[i] == v;
        }
      }
      forall v ensures v in Dates(a) <==> v in Dates(b) {
        if v in Dates(a) {
          var i :| 0 <= i < |a| && Dates(a)[i] == v;
          assert a[i] in multiset(b);
          var j :| 0 <= j < |b| && b[j] == a[i];
          assert Dates(b)[j] == v;
        }
        if v in Dates(b) {
          var j :| 0 <= j < |b| && Dates(b)[j] == v;
          assert b[j] in multiset(a);
          var i :| 0 <= i < |a| && a[i] == b[j];
          assert Dates(a)[i] == v;
        }
      }
      ExtremaOfSameValues(Fatalities(a), Fatalities(b));
      ExtremaOfSameValues(Dates(a), Dates(b));
    }
  }

  /** Two events, 5 fatalities on 2023-01-01 and 3 on 2023-01-03 (UTC
      midnight): two events, 8 fatalities, average 4, maximum 5, range from
      the first date to the second. */
  lemma TwoEventExample()
    ensures CalculateStatistics([Event(5, 1_672_531_200_000), Event(3, 1_672_704_000_000)])
         == Stats(2, 8, Fixed2(4.0), 5,
                  DateRange(LocaleDate(1_672_531_200_000), LocaleDate(1_672_704_000_000)))
  {
    var points := [Event(5, 1_672_531_200_000), Event(3, 1_672_704_000_000)];
    assert Fatalities(points) == [5, 3];
    assert Dates(points) == [1_672_531_200_000, 1_672_704_000_000];
    assert ReduceSum(points, 0) == 8;
  }
}
