/** The engagement chart's data: the windowed events counted into one bucket per UTC calendar day. */
module Chart {
  import opened Wrappers
  import opened Seqs
  import opened Events

  /** The event types with their own counter in every bucket, in series order. */
  const EventTypes: seq<string> := ["course_progress", "user_engagement", "video_play", "quiz_attempt"]

  /** The name of the single series drawn when the chart is not detailed. */
  const TotalSeriesName: string := "Total Engagement"

  /** The UTC calendar day of a timestamp as a day number since 1970-01-01, the key
      `toISOString().split('T')[0]` names (division rounds down, also before 1970). */
  function Day(ts: int): (d: int)
    ensures d * MsPerDay <= ts < (d + 1) * MsPerDay
  {
    ts / MsPerDay
  }

  /** Going back `i` whole days from an instant goes back `i` calendar days. */
  lemma DayShift(now: int, i: int)
    ensures Day(now - i * MsPerDay) == Day(now) - i
  {
    var q, r := now / MsPerDay, now % MsPerDay;
    assert now == q * MsPerDay + r && 0 <= r < MsPerDay;
    assert now - i * MsPerDay == (q - i) * MsPerDay + r;
  }

  /** One counter per entry of `EventTypes`. */
  type Counters = s: seq<nat> | |s| == 4 witness [0, 0, 0, 0]

  /** One day's counters: the total and one count per entry of `EventTypes`. */
  datatype Bucket = Bucket(total: nat, perType: Counters)

  /** A freshly initialised bucket. */
  const Zero: Bucket := Bucket(0, [0, 0, 0, 0])

  /** The day keys in the order the initialising loop creates them: today, yesterday, ... */
  function InitDays(now: int, daysBack: nat): (days: seq<int>)
    ensures |days| == daysBack
    ensures forall i :: 0 <= i < daysBack ==> days[i] == Day(now) - i
  {
    forall i | 0 <= i < daysBack
      ensures Day(now - i * MsPerDay) == Day(now) - i
    {
      DayShift(now, i);
    }
    seq(daysBack, (i: int) => Day(now - i * MsPerDay))
  }

  /** The initialising loop: one zeroed bucket for each of the last `daysBack` calendar days. */
  function InitBuckets(now: int, daysBack: nat): (buckets: map<int, Bucket>)
    ensures forall d :: d in buckets <==> Day(now) - daysBack < d <= Day(now)
    ensures |buckets| == daysBack
    ensures forall d :: d in buckets ==> buckets[d] == Zero
  {
    var days := InitDays(now, daysBack);
    assert forall d :: d in days <==> Day(now) - daysBack < d <= Day(now) by {
      forall d | Day(now) - daysBack < d <= Day(now)
        ensures d in days
      {
        assert days[Day(now) - d] == d;
      }
    }
    var buckets := map d | d in days :: Zero;
    assert Distinct(days);
    DistinctCardinality(days);
    assert buckets.Keys == set d | d in days;
    buckets
  }

  /** Counting one event into its bucket: the total goes up by one, and the event type's counter
      goes up by one when the name is one of `EventTypes`. */
  function Bump(k: Bucket, name: string): (k': Bucket)
    ensures k'.total == k.total + 1
    ensures forall i :: 0 <= i < |EventTypes| ==>
              k'.perType[i] == k.perType[i] + (if EventTypes[i] == name then 1 else 0)
    ensures Sum(k'.perType) == Sum(k.perType) + (if name in EventTypes then 1 else 0)
  {
    if name in EventTypes then
      var i := IndexOf(EventTypes, name);
      SumIncrement(k.perType, i);
      Bucket(k.total + 1, k.perType[i := k.perType[i] + 1])
    else Bucket(k.total + 1, k.perType)
  }

  /** One step of the counting loop: an event whose day has a bucket is counted into it;
      any other event is dropped. */
  function Add(buckets: map<int, Bucket>, e: Event): (r: map<int, Bucket>)
    requires e.ts.Some?
    ensures r.Keys == buckets.Keys
  {
    var d := Day(e.ts.value);
    if d in buckets then buckets[d := Bump(buckets[d], e.name)] else buckets
  }

  /** The counting loop over `events`, in order. */
  function Tally(buckets: map<int, Bucket>, events: seq<Event>): (r: map<int, Bucket>)
    requires AllTimed(events)
    ensures r.Keys == buckets.Keys
  {
    if |events| == 0 then buckets
    else
      var prefix := events[..|events| - 1];
      assert forall x :: x in prefix ==> x in events;
      Add(Tally(buckets, prefix), events[|events| - 1])
  }

  /** The events on day `d`, as a filter predicate. */
  function OnDay(d: int): Event -> bool
  {
    (e: Event) => e.ts.Some? && Day(e.ts.value) == d
  }

  /** The events on day `d` named `name`, as a filter predicate. */
  function OnDayNamed(d: int, name: string): Event -> bool
  {
    (e: Event) => e.ts.Some? && Day(e.ts.value) == d && e.name == name
  }

  /** Counting adds to each bucket exactly the events on its day, and to each type counter exactly
      the events on its day with that name. */
  lemma TallyCounts(buckets: map<int, Bucket>, events: seq<Event>, d: int)
    requires AllTimed(events)
    requires d in buckets
    ensures Tally(buckets, events)[d].total == buckets[d].total + |Filter(events, OnDay(d))|
    ensures forall i :: 0 <= i < |EventTypes| ==>
              Tally(buckets, events)[d].perType[i] == buckets[d].perType[i] + |Filter(events, OnDayNamed(d, EventTypes[i]))|
  {
    TallyTotal(buckets, events, d);
    forall i | 0 <= i < |EventTypes|
      ensures Tally(buckets, events)[d].perType[i] == buckets[d].perType[i] + |Filter(events, OnDayNamed(d, EventTypes[i]))|
    {
      TallyType(buckets, events, d, i);
    }
  }

  /** `TallyCounts` for the total. */
  lemma {:induction false} TallyTotal(buckets: map<int, Bucket>, events: seq<Event>, d: int)
    requires AllTimed(events)
    requires d in buckets
    ensures Tally(buckets, events)[d].total == buckets[d].total + |Filter(events, OnDay(d))|
  {
    if |events| > 0 {
      var prefix := events[..|events| - 1];
      var e := events[|events| - 1];
      assert events == prefix + [e];
      assert forall x :: x in prefix ==> x in events;
      assert e in events;
      TallyTotal(buckets, prefix, d);
      FilterSnoc(prefix, e, OnDay(d));
    }
  }

  /** `TallyCounts` for the counter of type `i`. */
  lemma {:induction false} TallyType(buckets: map<int, Bucket>, events: seq<Event>, d: int, i: nat)
    requires AllTimed(events)
    requires d in buckets && i < |EventTypes|
    ensures Tally(buckets, events)[d].perType[i] == buckets[d].perType[i] + |Filter(events, OnDayNamed(d, EventTypes[i]))|
  {
    if |events| > 0 {
      var prefix := events[..|events| - 1];
      var e := events[|events| - 1];
      assert events == prefix + [e];
      assert forall x :: x in prefix ==> x in events;
      assert e in events;
      TallyType(buckets, prefix, d, i);
      FilterSnoc(prefix, e, OnDayNamed(d, EventTypes[i]));
    }
  }

  /** In every bucket the type counters together never exceed the total. */
  lemma {:induction false} TallyTypesWithinTotal(buckets: map<int, Bucket>, events: seq<Event>, d: int)
    requires AllTimed(events)
    requires d in buckets
    requires Sum(buckets[d].perType) <= buckets[d].total
    ensures Sum(Tally(buckets, events)[d].perType) <= Tally(buckets, events)[d].total
  {
    if |events| > 0 {
      var prefix := events[..|events| - 1];
      assert forall x :: x in prefix ==> x in events;
      TallyTypesWithinTotal(buckets, prefix, d);
    }
  }

  /** The totals of the buckets listed in `dates` (the total-engagement series). */
  function Totals(buckets: map<int, Bucket>, dates: seq<int>): (r: seq<nat>)
    requires forall i :: 0 <= i < |dates| ==> dates[i] in buckets
    ensures |r| == |dates|
    ensures forall i :: 0 <= i < |dates| ==> r[i] == buckets[dates[i]].total
  {
    seq<nat>(|dates|, (i: int) requires 0 <= i < |dates| => buckets[dates[i]].total)
  }

  /** The series of one type counter over the buckets listed in `dates`. */
  function TypeCounts(buckets: map<int, Bucket>, dates: seq<int>, k: nat): (r: seq<nat>)
    requires k < |EventTypes|
    requires forall i :: 0 <= i < |dates| ==> dates[i] in buckets
    ensures |r| == |dates|
    ensures forall i :: 0 <= i < |dates| ==> r[i] == buckets[dates[i]].perType[k]
  {
    seq<nat>(|dates|, (i: int) requires 0 <= i < |dates| => buckets[dates[i]].perType[k])
  }

  /** Events whose day has a bucket in `buckets`, as a filter predicate. */
  function Bucketed(keys: set<int>): Event -> bool
  {
    (e: Event) => e.ts.Some? && Day(e.ts.value) in keys
  }

  /** Counting one event raises the summed totals by one exactly when its day has a bucket. */
  lemma AddTotals(buckets: map<int, Bucket>, e: Event, dates: seq<int>)
    requires e.ts.Some?
    requires Distinct(dates)
    requires forall i :: 0 <= i < |dates| ==> dates[i] in buckets
    requires forall d :: d in buckets ==> d in dates
    ensures Sum(Totals(Add(buckets, e), dates)) ==
              Sum(Totals(buckets, dates)) + (if Day(e.ts.value) in buckets then 1 else 0)
  {
    var d := Day(e.ts.value);
    var before, after := Totals(buckets, dates), Totals(Add(buckets, e), dates);
    if d in buckets {
      var j :| 0 <= j < |dates| && dates[j] == d;
      assert after == before[j := before[j] + 1];
      SumIncrement(before, j);
    } else {
      assert after == before;
    }
  }

  /** The summed totals count exactly the events whose day has a bucket. */
  lemma {:induction false} TallyTotals(buckets: map<int, Bucket>, events: seq<Event>, dates: seq<int>)
    requires AllTimed(events)
    requires Distinct(dates)
    requires forall i :: 0 <= i < |dates| ==> dates[i] in buckets
    requires forall d :: d in buckets ==> d in dates
    ensures Sum(Totals(Tally(buckets, events), dates)) ==
              Sum(Totals(buckets, dates)) + |Filter(events, Bucketed(buckets.Keys))|
  {
    if |events| > 0 {
      var prefix := events[..|events| - 1];
      var e := events[|events| - 1];
      assert events == prefix + [e];
      assert forall x :: x in prefix ==> x in events;
      assert e in events;
      TallyTotals(buckets, prefix, dates);
      AddTotals(Tally(buckets, prefix), e, dates);
      FilterSnoc(prefix, e, Bucketed(buckets.Keys));
    }
  }

  // ---------------------------------------------------------------------------
  // The chart data

  /** The bucket table after counting the windowed events. */
  function ChartBuckets(events: seq<Event>, range: TimeRange, now: int): (buckets: map<int, Bucket>)
    ensures forall d :: d in buckets <==> Day(now) - DaysBack(range) < d <= Day(now)
  {
    Tally(InitBuckets(now, DaysBack(range)), Window(events, Cutoff(now, range)))
  }

  /** Every bucket holds exactly the windowed events of its day, and per type exactly those of its
      day with that name; so the type counters together never exceed the total. */
  lemma ChartBucketCounts(events: seq<Event>, range: TimeRange, now: int, d: int)
    requires d in ChartBuckets(events, range, now)
    ensures var filtered := Window(events, Cutoff(now, range));
      && ChartBuckets(events, range, now)[d].total == |Filter(filtered, OnDay(d))|
      && (forall k :: 0 <= k < |EventTypes| ==>
            ChartBuckets(events, range, now)[d].perType[k] == |Filter(filtered, OnDayNamed(d, EventTypes[k]))|)
      && Sum(ChartBuckets(events, range, now)[d].perType) <= ChartBuckets(events, range, now)[d].total
  {
    var init := InitBuckets(now, DaysBack(range));
    var filtered := Window(events, Cutoff(now, range));
    assert AllTimed(filtered);
    TallyFromZero(init, filtered, d);
  }

  /** `TallyCounts` and `TallyTypesWithinTotal` for a bucket that starts at zero. */
  lemma TallyFromZero(buckets: map<int, Bucket>, events: seq<Event>, d: int)
    requires AllTimed(events)
    requires d in buckets && buckets[d] == Zero
    ensures var k := Tally(buckets, events)[d];
      && k.total == |Filter(events, OnDay(d))|
      && (forall i :: 0 <= i < |EventTypes| ==> k.perType[i] == |Filter(events, OnDayNamed(d, EventTypes[i]))|)
      && Sum(k.perType) <= k.total
  {
    TallyCounts(buckets, events, d);
    SumZeros(Zero.perType);
    TallyTypesWithinTotal(buckets, events, d);
  }

  /** Storing one more event changes the buckets exactly when the event is inside the window and its
      day has a bucket: then that bucket alone is bumped. */
  lemma ChartAppend(events: seq<Event>, e: Event, range: TimeRange, now: int)
    ensures var before, after := ChartBuckets(events, range, now), ChartBuckets(events + [e], range, now);
      if InWindow(e, Cutoff(now, range)) && Day(e.ts.value) in before
      then after == before[Day(e.ts.value) := Bump(before[Day(e.ts.value)], e.name)]
      else after == before
  {
    var c := Cutoff(now, range);
    var init := InitBuckets(now, DaysBack(range));
    WindowConcat(events, [e], c);
    var f := Window(events, c);
    if InWindow(e, c) {
      assert Window(events + [e], c) == f + [e];
      assert (f + [e])[..|f + [e]| - 1] == f;
      assert forall x :: x in f + [e] ==> x.ts.Some?;
      assert Tally(init, f + [e]) == Add(Tally(init, f), e);
    } else {
      assert Window(events + [e], c) == f;
    }
  }

  /** The window reaches into the calendar day before the first bucket: unless `now` is the last
      millisecond of its day, an event one millisecond after the cutoff is inside the window but
      falls on a day without a bucket, so it is dropped. */
  lemma PartialDayDropped(events: seq<Event>, e: Event, range: TimeRange, now: int)
    requires now % MsPerDay != MsPerDay - 1
    requires e.ts == Some(Cutoff(now, range) + 1)
    ensures InWindow(e, Cutoff(now, range))
    ensures Day(e.ts.value) !in ChartBuckets(events, range, now)
    ensures ChartBuckets(events + [e], range, now) == ChartBuckets(events, range, now)
  {
    var n := DaysBack(range);
    assert e.ts.value == (now + 1) - n * MsPerDay;
    DayShift(now + 1, n);
    DayNext(now);
    assert Day(e.ts.value) == Day(now) - n;
    ChartAppend(events, e, range, now);
  }

  /** One millisecond later is the same day, unless it is the day's last millisecond. */
  lemma DayNext(ts: int)
    requires ts % MsPerDay != MsPerDay - 1
    ensures Day(ts + 1) == Day(ts)
  {
    var q, r := ts / MsPerDay, ts % MsPerDay;
    assert ts + 1 == q * MsPerDay + (r + 1) && 0 <= r + 1 < MsPerDay;
  }

  /** The bucket days in ascending order: `Object.keys` in creation order, sorted. They are the
      last `daysBack` calendar days, oldest first, each once. */
  function SortedDays(now: int, daysBack: nat): (dates: seq<int>)
    ensures |dates| == daysBack
    ensures forall i :: 0 <= i < daysBack ==> dates[i] == Day(now) - daysBack + 1 + i
  {
    var keys := InitDays(now, daysBack);
    var ascending := Reverse(keys);
    assert Sorted(ascending);
    SortedUnique(Sort(keys), ascending);
    Sort(keys)
  }

  /** One chart series: its name and one value per date. */
  datatype Series = Series(name: string, data: seq<nat>)

  /** What the chart draws: the dates, and the series over them. */
  datatype ChartData = ChartData(dates: seq<int>, series: seq<Series>)

  /** The chart's summed total counts every windowed event whose day has a bucket, and no other. */
  lemma ChartTotalsSum(events: seq<Event>, range: TimeRange, now: int)
    ensures var buckets := ChartBuckets(events, range, now);
      var filtered := Window(events, Cutoff(now, range));
      && Sum(Totals(buckets, SortedDays(now, DaysBack(range)))) == |Filter(filtered, Bucketed(buckets.Keys))|
      && |Filter(filtered, Bucketed(buckets.Keys))| <= |filtered|
      && (|Filter(filtered, Bucketed(buckets.Keys))| == |filtered| <==>
            forall e :: e in filtered ==> Day(e.ts.value) in buckets)
  {
    var n := DaysBack(range);
    var init := InitBuckets(now, n);
    var filtered := Window(events, Cutoff(now, range));
    var dates := SortedDays(now, n);
    assert AllTimed(filtered);
    SortedDaysCover(now, n);
    TallyTotals(init, filtered, dates);
    ZeroTotals(init, dates);
    FilterKeepsAll(filtered, Bucketed(init.Keys));
  }

  /** The sorted days are distinct and are exactly the initial bucket keys. */
  lemma SortedDaysCover(now: int, n: nat)
    ensures var dates, init := SortedDays(now, n), InitBuckets(now, n);
      && Distinct(dates)
      && (forall i :: 0 <= i < |dates| ==> dates[i] in init)
      && (forall d :: d in init ==> d in dates)
  {
    var dates, init := SortedDays(now, n), InitBuckets(now, n);
    forall d | d in init
      ensures d in dates
    {
      assert dates[d - (Day(now) - n + 1)] == d;
    }
  }

  /** Before counting, the total series is all zeros. */
  lemma ZeroTotals(buckets: map<int, Bucket>, dates: seq<int>)
    requires forall i :: 0 <= i < |dates| ==> dates[i] in buckets && buckets[dates[i]].total == 0
    ensures Sum(Totals(buckets, dates)) == 0
  {
    SumZeros(Totals(buckets, dates));
  }

  /** The detailed series: one per event type, in `EventTypes` order, over `dates`. */
  function DetailedSeries(buckets: map<int, Bucket>, dates: seq<int>): (series: seq<Series>)
    requires forall i :: 0 <= i < |dates| ==> dates[i] in buckets
    ensures |series| == |EventTypes|
    ensures forall k :: 0 <= k < |EventTypes| ==>
              series[k].name == EventTypes[k] && series[k].data == TypeCounts(buckets, dates, k)
  {
    seq(|EventTypes|, (k: int) requires 0 <= k < |EventTypes| => Series(EventTypes[k], TypeCounts(buckets, dates, k)))
  }

  /** The `chartData` computation: the dates in ascending order and, in detailed mode, one series per
      event type, otherwise the single total series. */
  function EngagementChartData(events: seq<Event>, range: TimeRange, now: int, detailed: bool): (c: ChartData)
    ensures |c.dates| == DaysBack(range)
    ensures forall i :: 0 <= i < |c.dates| ==> c.dates[i] == Day(now) - DaysBack(range) + 1 + i
    ensures forall i :: 0 <= i < |c.dates| ==> c.dates[i] in ChartBuckets(events, range, now)
    ensures detailed ==> |c.series| == |EventTypes|
    ensures detailed ==> forall k :: 0 <= k < |EventTypes| ==>
              c.series[k].name == EventTypes[k] && c.series[k].data == TypeCounts(ChartBuckets(events, range, now), c.dates, k)
    ensures !detailed ==> c.series == [Series(TotalSeriesName, Totals(ChartBuckets(events, range, now), c.dates))]
  {
    var buckets := ChartBuckets(events, range, now);
    var dates := SortedDays(now, DaysBack(range));
    var series := if detailed then DetailedSeries(buckets, dates) else [Series(TotalSeriesName, Totals(buckets, dates))];
    ChartData(dates, series)
  }

  /** Every series has one value per date; the detailed series count, per date, the windowed events of
      that type on that day, and the total series counts all windowed events of the day and sums to at
      most the number of windowed events. */
  lemma ChartSeriesCounts(events: seq<Event>, range: TimeRange, now: int, detailed: bool)
    ensures var c, filtered := EngagementChartData(events, range, now, detailed), Window(events, Cutoff(now, range));
      && (forall k :: 0 <= k < |c.series| ==> |c.series[k].data| == |c.dates|)
      && (detailed ==> forall k, i :: 0 <= k < |EventTypes| && 0 <= i < |c.dates| ==>
            c.series[k].data[i] == |Filter(filtered, OnDayNamed(c.dates[i], EventTypes[k]))|)
      && (!detailed ==> forall i :: 0 <= i < |c.dates| ==>
            c.series[0].data[i] == |Filter(filtered, OnDay(c.dates[i]))|)
      && (!detailed ==> Sum(c.series[0].data) <= |filtered|)
  {
    if detailed {
      DetailedSeriesCounts(events, range, now);
    } else {
      TotalSeriesCounts(events, range, now);
    }
  }

  /** `ChartSeriesCounts` in detailed mode. */
  lemma DetailedSeriesCounts(events: seq<Event>, range: TimeRange, now: int)
    ensures var c, filtered := EngagementChartData(events, range, now, true), Window(events, Cutoff(now, range));
      && |c.series| == |EventTypes|
      && (forall k :: 0 <= k < |c.series| ==> |c.series[k].data| == |c.dates|)
      && (forall k, i :: 0 <= k < |EventTypes| && 0 <= i < |c.dates| ==>
            c.series[k].data[i] == |Filter(filtered, OnDayNamed(c.dates[i], EventTypes[k]))|)
  {
    var c, filtered := EngagementChartData(events, range, now, true), Window(events, Cutoff(now, range));
    var buckets := ChartBuckets(events, range, now);
    forall k, i | 0 <= k < |EventTypes| && 0 <= i < |c.dates|
      ensures c.series[k].data[i] == |Filter(filtered, OnDayNamed(c.dates[i], EventTypes[k]))|
    {
      assert c.series[k].data == TypeCounts(buckets, c.dates, k);
      ChartBucketCounts(events, range, now, c.dates[i]);
    }
  }

  /** `ChartSeriesCounts` for the single total series. */
  lemma TotalSeriesCounts(events: seq<Event>, range: TimeRange, now: int)
    ensures var c, filtered := EngagementChartData(events, range, now, false), Window(events, Cutoff(now, range));
      && |c.series| == 1
      && |c.series[0].data| == |c.dates|
      && (forall i :: 0 <= i < |c.dates| ==> c.series[0].data[i] == |Filter(filtered, OnDay(c.dates[i]))|)
      && Sum(c.series[0].data) <= |filtered|
  {
    var c, filtered := EngagementChartData(events, range, now, false), Window(events, Cutoff(now, range));
    var buckets := ChartBuckets(events, range, now);
    forall i | 0 <= i < |c.dates|
      ensures c.series[0].data[i] == |Filter(filtered, OnDay(c.dates[i]))|
    {
      assert c.series[0].data[i] == buckets[c.dates[i]].total;
      ChartBucketCounts(events, range, now, c.dates[i]);
    }
    assert c.dates == SortedDays(now, DaysBack(range));
    ChartTotalsSum(events, range, now);
  }

  /** `ChartBucketCounts` for every bucket at once. */
  lemma ChartCountsAll(events: seq<Event>, range: TimeRange, now: int)
    ensures var buckets, filtered := ChartBuckets(events, range, now), Window(events, Cutoff(now, range));
      forall d :: d in buckets ==>
        && buckets[d].total == |Filter(filtered, OnDay(d))|
        && forall k :: 0 <= k < |EventTypes| ==> buckets[d].perType[k] == |Filter(filtered, OnDayNamed(d, EventTypes[k]))|
  {
    forall d | d in ChartBuckets(events, range, now)
    {
      ChartBucketCounts(events, range, now, d);
    }
  }
}
