/** The analytics event as the aggregation code reads it, the time-range selector and the
    time-window filter shared by the dashboard metrics and the engagement chart. */
module Events {
  import opened Wrappers
  import opened Seqs

  /** An event after its stored properties have been read: `ts` is the parsed `timestamp` in
      milliseconds since the epoch (`None` when it does not parse, which JavaScript turns into
      an invalid date), `userId` is `None` for a null, missing or non-string id. */
  datatype Event = Event(name: string, ts: Option<int>, userId: Option<string>, sessionId: string)

  /** The four time ranges the dashboard offers. */
  datatype TimeRange = LastDay | LastWeek | LastMonth | LastQuarter

  /** Milliseconds in one day (`24 * 60 * 60 * 1000`). */
  const MsPerDay: int := 24 * 60 * 60 * 1000

  /** The selector key the dashboard stores for a range: always one of the `rangeMap` keys. */
  function Key(range: TimeRange): (k: string)
    ensures k in {"1d", "7d", "30d", "90d"}
  {
    match range
    case LastDay => "1d"
    case LastWeek => "7d"
    case LastMonth => "30d"
    case LastQuarter => "90d"
  }

  /** The `rangeMap` lookup: the number of days a range reaches back. */
  function DaysBack(range: TimeRange): (n: nat)
    ensures 1 <= n <= 90
  {
    match range
    case LastDay => 1
    case LastWeek => 7
    case LastMonth => 30
    case LastQuarter => 90
  }

  /** Reads a selector key back; a key outside the four has no range. */
  function FromKey(key: string): (r: Option<TimeRange>)
    ensures r.Some? <==> key in {"1d", "7d", "30d", "90d"}
  {
    if key == "1d" then Some(LastDay)
    else if key == "7d" then Some(LastWeek)
    else if key == "30d" then Some(LastMonth)
    else if key == "90d" then Some(LastQuarter)
    else None
  }

  /** Each range's key reads back as that range, and the keys name 1, 7, 30 and 90 days. */
  lemma KeyRoundTrip(range: TimeRange)
    ensures FromKey(Key(range)) == Some(range)
    ensures Key(range) == "1d" ==> DaysBack(range) == 1
    ensures Key(range) == "7d" ==> DaysBack(range) == 7
    ensures Key(range) == "30d" ==> DaysBack(range) == 30
    ensures Key(range) == "90d" ==> DaysBack(range) == 90
  {
  }

  /** The window's lower bound: `now` minus `DaysBack(range)` whole days. */
  function Cutoff(now: int, range: TimeRange): (c: int)
    ensures c < now
    ensures now - c == DaysBack(range) * 86400000
  {
    now - DaysBack(range) * MsPerDay
  }

  /** An event is inside the window when its timestamp parses and lies strictly after the cutoff. */
  predicate InWindow(e: Event, cutoff: int)
  {
    e.ts.Some? && e.ts.value > cutoff
  }

  /** `InWindow` as a filter predicate. */
  function InWindowPred(cutoff: int): Event -> bool
  {
    (e: Event) => InWindow(e, cutoff)
  }

  /** The `filteredData` step: the events strictly after the cutoff, in their stored order. */
  function Window(events: seq<Event>, cutoff: int): (r: seq<Event>)
    ensures |r| <= |events|
    ensures forall e :: e in r <==> e in events && e.ts.Some? && e.ts.value > cutoff
  {
    Filter(events, InWindowPred(cutoff))
  }

  /** Windowing keeps relative order: the window of a concatenation is the concatenation of windows,
      and an appended event is appended to the window exactly when it is inside it. */
  lemma WindowConcat(a: seq<Event>, b: seq<Event>, cutoff: int)
    ensures Window(a + b, cutoff) == Window(a, cutoff) + Window(b, cutoff)
    ensures |b| == 1 ==> Window(a + b, cutoff) == Window(a, cutoff) + (if InWindow(b[0], cutoff) then b else [])
  {
    FilterConcat(a, b, InWindowPred(cutoff));
    if |b| == 1 {
      FilterSnoc(a, b[0], InWindowPred(cutoff));
      assert b == [b[0]];
    }
  }

  /** An event exactly at the cutoff, or with an unparsable timestamp, is never kept. */
  lemma WindowBoundary(e: Event, events: seq<Event>, cutoff: int)
    requires e.ts == Some(cutoff) || e.ts.None?
    ensures e !in Window(events, cutoff)
  {
  }

  /** The window depends only on which events there are and how often, not on their order. */
  lemma WindowPermutation(events: seq<Event>, events': seq<Event>, cutoff: int)
    requires multiset(events) == multiset(events')
    ensures multiset(Window(events, cutoff)) == multiset(Window(events', cutoff))
  {
    FilterPermutation(events, events', InWindowPred(cutoff));
  }

  /** Every event of the sequence carries a parsed timestamp. */
  ghost predicate AllTimed(events: seq<Event>)
  {
    forall e :: e in events ==> e.ts.Some?
  }
}
