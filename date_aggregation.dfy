/** Per-day counts of battles and explosions for the stacked bar chart
    (aggregateDataByDate). */
module DateAggregation {
  import opened Events
  import opened InsertionSet

  datatype Category = Battles | Explosions

  /** One output row `{date, battles, explosions}`; `date` is the UTC day
      number that the ISO date key names. */
  datatype Row = Row(date: int, battles: nat, explosions: nat)
  {
    function Count(c: Category): nat
    {
      match c
      case Battles => battles
      case Explosions => explosions
    }
  }

  /** The Map that d3's `group` returns: its keys in insertion order, and for
      each key the records that produced it. */
  datatype Grouping = Grouping(keys: seq<int>, groups: map<int, seq<Event>>)

  /** The day key of every record, in input order. */
  function DayKeys(s: seq<Event>): (r: seq<int>)
    ensures |r| == |s|
    ensures forall i :: 0 <= i < |s| ==> r[i] == DayKey(s[i])
    ensures forall e :: e in s ==> DayKey(e) in r
  {
    if s == [] then [] else DayKeys(s[..|s| - 1]) + [DayKey(s[|s| - 1])]
  }

  /** How many records fall on `day`: the multiplicity of `day` among the
      records' day keys. */
  function CountOnDay(s: seq<Event>, day: int): (n: nat)
    ensures n > 0 <==> day in DayKeys(s)
    ensures n > 0 <==> exists e :: e in s && DayKey(e) == day
  {
    var keys := DayKeys(s);
    assert forall i :: 0 <= i < |s| ==> s[i] in s && keys[i] == DayKey(s[i]);
    multiset(keys)[day]
  }

  /** The records that fall on `day`, in input order. */
  function OnDay(s: seq<Event>, day: int): (r: seq<Event>)
    ensures |r| == CountOnDay(s, day)
    ensures forall e :: e in r ==> e in s && DayKey(e) == day
  {
    if s == [] then []
    else
      var prefix, e := s[..|s| - 1], s[|s| - 1];
      assert s == prefix + [e];
      assert multiset(DayKeys(s)) == multiset(DayKeys(prefix)) + multiset{DayKey(e)};
      OnDay(prefix, day) + (if DayKey(e) == day then [e] else [])
  }

  /** Appending a record appends its day key. */
  lemma DayKeysSnoc(s: seq<Event>, e: Event)
    ensures DayKeys(s + [e]) == DayKeys(s) + [DayKey(e)]
  {
    assert (s + [e])[..|s|] == s;
  }

  /** Appending a record appends it to its own day's records only. */
  lemma OnDaySnoc(s: seq<Event>, e: Event, day: int)
    ensures OnDay(s + [e], day) == OnDay(s, day) + (if DayKey(e) == day then [e] else [])
  {
    assert (s + [e])[..|s|] == s;
  }

  /** The key list of a Map is a repetition-free listing of its keys. */
  ghost predicate KeysListed(g: Grouping)
  {
    Distinct(g.keys) && forall k :: k in g.keys <==> k in g.groups
  }

  /** The group step for one record: append it to its key's group, opening
      the group (and listing its key last) if the key is new; every other
      group stays as it was, and the key list stays a listing of the keys. */
  function AddToGroup(g: Grouping, e: Event): (r: Grouping)
    ensures DayKey(e) in r.groups
    ensures r.groups[DayKey(e)]
         == (if DayKey(e) in g.groups then g.groups[DayKey(e)] else []) + [e]
    ensures forall k :: k != DayKey(e) ==>
      (k in r.groups <==> k in g.groups) && (k in g.groups ==> r.groups[k] == g.groups[k])
    ensures r.keys == if DayKey(e) in g.groups then g.keys else g.keys + [DayKey(e)]
    ensures KeysListed(g) ==> KeysListed(r)
  {
    var k := DayKey(e);
    if k in g.groups then Grouping(g.keys, g.groups[k := g.groups[k] + [e]])
    else Grouping(g.keys + [k], g.groups[k := [e]])
  }

  /** `g` is what grouping `s` by day must give: a group for exactly the days
      that occur, each holding that day's records in input order, and the
      days listed in first-occurrence order. */
  ghost predicate GroupedBy(g: Grouping, s: seq<Event>)
  {
    && (forall k :: k in g.groups <==> k in DayKeys(s))
    && (forall k :: k in g.groups ==> g.groups[k] == OnDay(s, k))
    && g.keys == Dedup(DayKeys(s))
  }

  /** The group step keeps the key list and the key set right. */
  lemma AddToGroupKeys(g: Grouping, s: seq<Event>, e: Event)
    requires forall k :: k in g.groups <==> k in DayKeys(s)
    requires g.keys == Dedup(DayKeys(s))
    ensures forall k :: k in AddToGroup(g, e).groups <==> k in DayKeys(s + [e])
    ensures AddToGroup(g, e).keys == Dedup(DayKeys(s + [e]))
  {
    DayKeysSnoc(s, e);
    DedupSnoc(DayKeys(s), DayKey(e));
  }

  /** The group step keeps one day's group equal to that day's records. */
  lemma AddToGroupRecordsOn(g: Grouping, s: seq<Event>, e: Event, day: int)
    requires DayKey(e) in g.groups <==> DayKey(e) in DayKeys(s)
    requires day in g.groups ==> g.groups[day] == OnDay(s, day)
    requires day in AddToGroup(g, e).groups
    ensures AddToGroup(g, e).groups[day] == OnDay(s + [e], day)
  {
    OnDaySnoc(s, e, day);
    if day == DayKey(e) && day !in g.groups {
      assert |OnDay(s, day)| == 0;
    }
  }

  /** The group step keeps every group equal to its day's records. */
  lemma AddToGroupRecords(g: Grouping, s: seq<Event>, e: Event)
    requires forall k :: k in g.groups <==> k in DayKeys(s)
    requires forall k :: k in g.groups ==> g.groups[k] == OnDay(s, k)
    ensures forall k :: k in AddToGroup(g, e).groups ==> AddToGroup(g, e).groups[k] == OnDay(s + [e], k)
  {
    forall day | day in AddToGroup(g, e).groups
      ensures AddToGroup(g, e).groups[day] == OnDay(s + [e], day)
    {
      AddToGroupRecordsOn(g, s, e, day);
    }
  }

  /** The group step keeps the grouping correct for the records seen so far. */
  lemma AddToGroupStep(g: Grouping, s: seq<Event>, e: Event)
    requires GroupedBy(g, s)
    ensures GroupedBy(AddToGroup(g, e), s + [e])
  {
    AddToGroupKeys(g, s, e);
    AddToGroupRecords(g, s, e);
  }

  /** `group(s, d => d.event_date.toISOString().split('T')[0])`: one group per
      day key that occurs, holding exactly the records of that day in input
      order, with keys listed in first-occurrence order. */
  function Group(s: seq<Event>): (g: Grouping)
    ensures forall k :: k in g.groups <==> k in DayKeys(s)
    ensures forall k :: k in g.groups ==> g.groups[k] == OnDay(s, k)
    ensures g.keys == Dedup(DayKeys(s))
  {
    if s == [] then Grouping([], map[])
    else
      var prefix, e := s[..|s| - 1], s[|s| - 1];
      assert s == prefix + [e];
      AddToGroupStep(Group(prefix), prefix, e);
      AddToGroup(Group(prefix), e)
  }

  /** `(grouped.get(day) || []).length`: a day without a group counts 0. */
  function GroupSize(g: Grouping, day: int): (n: nat)
    ensures day !in g.groups ==> n == 0
    ensures day in g.groups ==> n == |g.groups[day]|
  {
    if day in g.groups then |g.groups[day]| else 0
  }

  /** The size of a day's group is the number of records on that day, and 0
      for a day no record falls on. */
  lemma GroupSizeIsCount(s: seq<Event>, day: int)
    ensures GroupSize(Group(s), day) == CountOnDay(s, day)
  {
  }

  /** `dates.map((date) => ({date, battles: ..., explosions: ...}))` */
  function RowsFor(dates: seq<int>, battlesByDate: Grouping, explosionsByDate: Grouping): (rows: seq<Row>)
    ensures |rows| == |dates|
    ensures forall i :: 0 <= i < |dates| ==>
      rows[i] == Row(dates[i], GroupSize(battlesByDate, dates[i]), GroupSize(explosionsByDate, dates[i]))
  {
    if dates == [] then []
    else
      [Row(dates[0], GroupSize(battlesByDate, dates[0]), GroupSize(explosionsByDate, dates[0]))]
      + RowsFor(dates[1..], battlesByDate, explosionsByDate)
  }

  /** Rows built from the distinct union of both categories' days: each
      row's day is some record's day, every record's day has a row, and no
      day has two. */
  lemma RowsForCoverDays(dates: seq<int>, battlesByDate: Grouping, explosionsByDate: Grouping,
                         battles: seq<Event>, explosions: seq<Event>)
    requires Distinct(dates)
    requires forall d :: d in dates <==> d in DayKeys(battles) || d in DayKeys(explosions)
    ensures var rows := RowsFor(dates, battlesByDate, explosionsByDate);
      && (forall i :: 0 <= i < |rows| ==>
            rows[i].date in DayKeys(battles) || rows[i].date in DayKeys(explosions))
      && DatesOf(rows) == dates
      && Distinct(DatesOf(rows))
  {
    var rows := RowsFor(dates, battlesByDate, explosionsByDate);
    assert DatesOf(rows) == dates;
  }

  /** Rows whose group sizes count each day's records report those counts,
      and 0 exactly for a category that has no record on the row's day. */
  lemma RowsForCountDays(dates: seq<int>, battlesByDate: Grouping, explosionsByDate: Grouping,
                         battles: seq<Event>, explosions: seq<Event>)
    requires forall d :: GroupSize(battlesByDate, d) == CountOnDay(battles, d)
    requires forall d :: GroupSize(explosionsByDate, d) == CountOnDay(explosions, d)
    ensures var rows := RowsFor(dates, battlesByDate, explosionsByDate);
      && (forall i :: 0 <= i < |rows| ==>
            rows[i].battles == CountOnDay(battles, rows[i].date) &&
            rows[i].explosions == CountOnDay(explosions, rows[i].date))
      && (forall i :: 0 <= i < |rows| ==>
            (rows[i].battles > 0 <==> rows[i].date in DayKeys(battles)) &&
            (rows[i].explosions > 0 <==> rows[i].date in DayKeys(explosions)))
  {
    var rows := RowsFor(dates, battlesByDate, explosionsByDate);
    forall i | 0 <= i < |rows|
      ensures rows[i].battles > 0 <==> rows[i].date in DayKeys(battles)
      ensures rows[i].explosions > 0 <==> rows[i].date in DayKeys(explosions)
    {
    }
  }

  /** aggregateDataByDate: one row per day that some battle or explosion
      falls on, no day twice, every record's day present, each row counting
      the battles and explosions of its day, a category without records on
      the day counting 0; no rows exactly when there are no records. */
  function AggregateDataByDate(battles: seq<Event>, explosions: seq<Event>): (rows: seq<Row>)
    ensures forall i :: 0 <= i < |rows| ==>
      rows[i].date in DayKeys(battles) || rows[i].date in DayKeys(explosions)
    ensures forall d :: d in DayKeys(battles) || d in DayKeys(explosions) ==> d in DatesOf(rows)
    ensures Distinct(DatesOf(rows))
    ensures forall i :: 0 <= i < |rows| ==>
      rows[i].battles == CountOnDay(battles, rows[i].date) &&
      rows[i].explosions == CountOnDay(explosions, rows[i].date)
    ensures forall i :: 0 <= i < |rows| ==>
      (rows[i].battles > 0 <==> rows[i].date in DayKeys(battles)) &&
      (rows[i].explosions > 0 <==> rows[i].date in DayKeys(explosions))
  {
    var battlesByDate := Group(battles);
    var explosionsByDate := Group(explosions);
    var dates := Dedup(battlesByDate.keys + explosionsByDate.keys);
    forall d ensures GroupSize(battlesByDate, d) == CountOnDay(battles, d)
               && GroupSize(explosionsByDate, d) == CountOnDay(explosions, d) {
      GroupSizeIsCount(battles, d);
      GroupSizeIsCount(explosions, d);
    }
    RowsForCoverDays(dates, battlesByDate, explosionsByDate, battles, explosions);
    assert forall d :: d in DayKeys(battles) || d in DayKeys(explosions) ==> d in dates;
    RowsForCountDays(dates, battlesByDate, explosionsByDate, battles, explosions);
    RowsFor(dates, battlesByDate, explosionsByDate)
  }

  /** The dates of the rows, in order. */
  function DatesOf(rows: seq<Row>): (r: seq<int>)
    ensures |r| == |rows|
    ensures forall i :: 0 <= i < |rows| ==> r[i] == rows[i].date
  {
    if rows == [] then [] else [rows[0].date] + DatesOf(rows[1..])
  }

  /** Every battle's and every explosion's day has a row, and there are no
      rows exactly when there are no records. */
  lemma EveryRecordHasRow(battles: seq<Event>, explosions: seq<Event>)
    ensures var rows := AggregateDataByDate(battles, explosions);
      && (forall e :: e in battles || e in explosions ==>
            exists i :: 0 <= i < |rows| && rows[i].date == DayKey(e))
      && (rows == [] <==> battles == [] && explosions == [])
  {
    var rows := AggregateDataByDate(battles, explosions);
    forall e | e in battles || e in explosions
      ensures exists i :: 0 <= i < |rows| && rows[i].date == DayKey(e)
    {
      assert DayKey(e) in DatesOf(rows);
      var i :| 0 <= i < |rows| && DatesOf(rows)[i] == DayKey(e);
      assert rows[i].date == DayKey(e);
    }
    assert battles != [] ==> battles[0] in battles;
    assert explosions != [] ==> explosions[0] in explosions;
  }

  /** The sum of one column. */
  function ColumnTotal(rows: seq<Row>, c: Category): int
  {
    if rows == [] then 0 else rows[0].Count(c) + ColumnTotal(rows[1..], c)
  }

  /** Rows come in the order the day-key Set was filled: the days of the
      battles in first-occurrence order, then the days that only explosions
      fall on, in first-occurrence order. */
  lemma AggregateDateOrder(battles: seq<Event>, explosions: seq<Event>)
    ensures DatesOf(AggregateDataByDate(battles, explosions))
         == Dedup(DayKeys(battles)) + Without(Dedup(DayKeys(explosions)), DayKeys(battles))
  {
    var bk, ek := Dedup(DayKeys(battles)), Dedup(DayKeys(explosions));
    var rows := AggregateDataByDate(battles, explosions);
    assert DatesOf(rows) == Dedup(bk + ek);
    DedupAppend(bk, ek);
    DedupOfDistinct(bk);
    DedupOfDistinct(ek);
    WithoutSameValues(ek, bk, DayKeys(battles));
  }

  /** How often `day` occurs in `days`. */
  function Occurrences(day: int, days: seq<int>): nat
  {
    if days == [] then 0 else (if days[0] == day then 1 else 0) + Occurrences(day, days[1..])
  }

  /** Sum over `days` of the number of records on each day. */
  function SumCounts(s: seq<Event>, days: seq<int>): int
  {
    if days == [] then 0 else CountOnDay(s, days[0]) + SumCounts(s, days[1..])
  }

  /** A day listed once among distinct days occurs exactly once. */
  lemma {:induction false} OccursOnce(day: int, days: seq<int>)
    requires Distinct(days) && day in days
    ensures Occurrences(day, days) == 1
  {
    assert Distinct(days[1..]);
    if days[0] == day {
      assert day !in days[1..];
      OccursAbsent(day, days[1..]);
    } else {
      OccursOnce(day, days[1..]);
    }
  }

  /** A day not listed occurs zero times. */
  lemma {:induction false} OccursAbsent(day: int, days: seq<int>)
    requires day !in days
    ensures Occurrences(day, days) == 0
  {
    if days != [] {
      OccursAbsent(day, days[1..]);
    }
  }

  /** One more record adds one to the count of its own day, wherever that
      day is listed. */
  lemma {:induction false} SumCountsSnoc(s: seq<Event>, e: Event, days: seq<int>)
    ensures SumCounts(s + [e], days) == SumCounts(s, days) + Occurrences(DayKey(e), days)
  {
    if days != [] {
      assert (s + [e])[..|s|] == s;
      assert multiset(DayKeys(s + [e])) == multiset(DayKeys(s)) + multiset{DayKey(e)};
      SumCountsSnoc(s, e, days[1..]);
    }
  }

  /** Summing the per-day counts over distinct days that include every
      record's day counts every record once. */
  lemma {:induction false} SumCountsCoversAll(s: seq<Event>, days: seq<int>)
    requires Distinct(days)
    requires forall i :: 0 <= i < |s| ==> DayKey(s[i]) in days
    ensures SumCounts(s, days) == |s|
  {
    if s == [] {
      SumCountsEmpty(days);
    } else {
      var prefix, e := s[..|s| - 1], s[|s| - 1];
      assert s == prefix + [e];
      SumCountsCoversAll(prefix, days);
      SumCountsSnoc(prefix, e, days);
      OccursOnce(DayKey(e), days);
    }
  }

  /** No records, no counts. */
  lemma {:induction false} SumCountsEmpty(days: seq<int>)
    ensures SumCounts([], days) == 0
  {
    if days != [] {
      SumCountsEmpty(days[1..]);
    }
  }

  /** A column whose every entry counts the records on its row's day sums to
      the per-day counts over the rows' days. */
  lemma {:induction false} ColumnIsSumCounts(rows: seq<Row>, s: seq<Event>, c: Category)
    requires forall i :: 0 <= i < |rows| ==> rows[i].Count(c) == CountOnDay(s, rows[i].date)
    ensures ColumnTotal(rows, c) == SumCounts(s, DatesOf(rows))
  {
    if rows != [] {
      assert DatesOf(rows)[1..] == DatesOf(rows[1..]);
      ColumnIsSumCounts(rows[1..], s, c);
    }
  }

  /** Days that include every key of `s` include every record's day. */
  lemma RecordDaysListed(s: seq<Event>, days: seq<int>)
    requires forall d :: d in DayKeys(s) ==> d in days
    ensures forall i :: 0 <= i < |s| ==> DayKey(s[i]) in days
  {
    forall i | 0 <= i < |s| ensures DayKey(s[i]) in days {
      assert DayKeys(s)[i] == DayKey(s[i]);
    }
  }

  /** No record is lost or counted twice: the battles column sums to the
      number of battles and the explosions column to the number of
      explosions. */
  lemma ColumnTotals(battles: seq<Event>, explosions: seq<Event>)
    ensures ColumnTotal(AggregateDataByDate(battles, explosions), Battles) == |battles|
    ensures ColumnTotal(AggregateDataByDate(battles, explosions), Explosions) == |explosions|
  {
    var rows := AggregateDataByDate(battles, explosions);
    var days := DatesOf(rows);
    RecordDaysListed(battles, days);
    RecordDaysListed(explosions, days);
    ColumnIsSumCounts(rows, battles, Battles);
    ColumnIsSumCounts(rows, explosions, Explosions);
    SumCountsCoversAll(battles, days);
    SumCountsCoversAll(explosions, days);
  }

  /** The days of the rows when each category has exactly one day, and the
      days differ: the battles' day, then the explosions' day. */
  lemma OneBattleOneExplosionDays(battles: seq<Event>, explosions: seq<Event>, b: int, x: int)
    requires DayKeys(battles) == [b] && DayKeys(explosions) == [x] && b != x
    ensures DatesOf(AggregateDataByDate(battles, explosions)) == [b, x]
  {
    AggregateDateOrder(battles, explosions);
    TwoDistinctValues(b, x);
  }

  /** One battle and one explosion on different days give two rows, the
      battle's day first, each category counting 0 on the other's day. */
  lemma OneBattleOneExplosion(battle: Event, explosion: Event)
    requires DayKey(battle) != DayKey(explosion)
    ensures AggregateDataByDate([battle], [explosion])
         == [Row(DayKey(battle), 1, 0), Row(DayKey(explosion), 0, 1)]
  {
    var b, x := DayKey(battle), DayKey(explosion);
    var rows := AggregateDataByDate([battle], [explosion]);
    assert DayKeys([battle]) == [b] && DayKeys([explosion]) == [x];
    OneBattleOneExplosionDays([battle], [explosion], b, x);
    assert |rows| == 2 && rows[0].date == b && rows[1].date == x;
    assert rows == [rows[0], rows[1]];
  }

  /** One battle on 2023-01-01 and one explosion on 2023-01-02 (UTC
      midnight): rows for day 19358 (1 battle, 0 explosions) and day 19359
      (0 battles, 1 explosion). */
  lemma TwoDayExample()
    ensures AggregateDataByDate([Event(0, 1_672_531_200_000)], [Event(0, 1_672_617_600_000)])
         == [Row(19358, 1, 0), Row(19359, 0, 1)]
  {
    var battle, explosion := Event(0, 1_672_531_200_000), Event(0, 1_672_617_600_000);
    assert DayKey(battle) == 19358 && DayKey(explosion) == 19359;
    OneBattleOneExplosion(battle, explosion);
  }
}
