/** The dashboard metrics: `getMetrics` and its four `calculate*` helpers. */
module Metrics {
  import opened Wrappers
  import opened Seqs
  import opened Events

  const Enrollment: string := "course_enrollment"
  const Completion: string := "course_completion"

  /** The event names the engagement rate counts. */
  const EngagementNames: set<string> := {"course_progress", "user_engagement", "video_play", "quiz_attempt"}

  /** Milliseconds in one minute (the `/ 1000 / 60` conversion). */
  const MsPerMinute: real := 60000.0

  // ---------------------------------------------------------------------------
  // Users and named-event counts

  /** The distinct `userId` values (`new Set(data.map(e => e.userId))`); a null id is one value. */
  function UserIds(s: seq<Event>): (ids: set<Option<string>>)
    ensures forall u :: u in ids <==> exists i :: 0 <= i < |s| && s[i].userId == u
    ensures |ids| <= |s|
    ensures |ids| == 0 <==> |s| == 0
  {
    if |s| == 0 then {}
    else
      var rest := UserIds(s[1..]);
      assert forall i :: 1 <= i < |s| ==> s[1..][i - 1] == s[i];
      {s[0].userId} + rest
  }

  /** The user ids depend only on which events occur, not on their order or multiplicity. */
  lemma UserIdsPermutation(s: seq<Event>, t: seq<Event>)
    requires multiset(s) == multiset(t)
    ensures UserIds(s) == UserIds(t)
  {
    forall u | u in UserIds(s)
      ensures u in UserIds(t)
    {
      var i :| 0 <= i < |s| && s[i].userId == u;
      assert s[i] in multiset(t);
      var j :| 0 <= j < |t| && t[j] == s[i];
    }
    forall u | u in UserIds(t)
      ensures u in UserIds(s)
    {
      var j :| 0 <= j < |t| && t[j].userId == u;
      assert t[j] in multiset(s);
      var i :| 0 <= i < |s| && s[i] == t[j];
    }
  }

  /** Membership of an event's name in `names`, as a filter predicate. */
  function NamedPred(names: set<string>): Event -> bool
  {
    (e: Event) => e.name in names
  }

  /** The number of events whose name is in `names` (`data.filter(...).length`). */
  function CountNamed(s: seq<Event>, names: set<string>): (n: nat)
    ensures n <= |s|
    ensures n == 0 <==> forall e :: e in s ==> e.name !in names
    ensures n == |s| <==> forall e :: e in s ==> e.name in names
  {
    FilterKeepsAll(s, NamedPred(names));
    var kept := Filter(s, NamedPred(names));
    assert |kept| > 0 ==> kept[0] in kept;
    |kept|
  }

  /** Counting named events is insensitive to order. */
  lemma CountNamedPermutation(s: seq<Event>, t: seq<Event>, names: set<string>)
    requires multiset(s) == multiset(t)
    ensures CountNamed(s, names) == CountNamed(t, names)
  {
    FilterPermutation(s, t, NamedPred(names));
  }

  /** Appending one event raises a named count by one exactly when its name is counted. */
  lemma CountNamedSnoc(s: seq<Event>, e: Event, names: set<string>)
    ensures CountNamed(s + [e], names) == CountNamed(s, names) + (if e.name in names then 1 else 0)
  {
    FilterSnoc(s, e, NamedPred(names));
  }

  // ---------------------------------------------------------------------------
  // Rates

  /** `rate` is `part` as a percentage of the non-zero `whole`. */
  predicate IsPercentage(rate: real, part: nat, whole: nat)
  {
    whole > 0 && rate * (whole as real) == 100.0 * (part as real)
  }

  /** `(part / whole) * 100` behind a divide-by-zero guard: 0 when `whole` is 0. */
  function Percent(part: nat, whole: nat): (rate: real)
    ensures rate >= 0.0
    ensures whole == 0 ==> rate == 0.0
    ensures whole > 0 ==> IsPercentage(rate, part, whole)
    ensures rate == 0.0 <==> whole == 0 || part == 0
    ensures whole > 0 ==> (rate <= 100.0 <==> part <= whole)
    ensures whole > 0 ==> (rate == 100.0 <==> part == whole)
  {
    if whole > 0 then
      PercentScales(part, whole);
      (part as real / whole as real) * 100.0
    else 0.0
  }

  lemma PercentScales(part: nat, whole: nat)
    requires whole > 0
    ensures var rate := (part as real / whole as real) * 100.0;
      && IsPercentage(rate, part, whole)
      && (rate <= 100.0 <==> part <= whole)
      && (rate == 100.0 <==> part == whole)
      && (rate == 0.0 <==> part == 0)
  {
    var w, p := whole as real, part as real;
    var q := p / w;
    assert q * w == p;
    var rate := q * 100.0;
    assert rate * w == 100.0 * (q * w);
    assert (rate - 100.0) * w == 100.0 * (p - w);
    SignOfProduct(rate - 100.0, w);
    SignOfProduct(rate, w);
  }

  /** Multiplying by a positive number keeps the sign. */
  lemma SignOfProduct(x: real, w: real)
    requires w > 0.0
    ensures x <= 0.0 <==> x * w <= 0.0
    ensures x == 0.0 <==> x * w == 0.0
  {
    if x > 0.0 {
      assert x * w > 0.0;
    } else if x < 0.0 {
      assert (-x) * w > 0.0;
    }
  }

  /** `calculateConversionRate`: enrollment events per distinct user, as a percentage; 0 without users.
      It counts events, not enrolled users, so it is not bounded by 100. */
  function ConversionRate(s: seq<Event>): (rate: real)
    ensures rate >= 0.0
    ensures |s| == 0 ==> rate == 0.0
    ensures rate == 0.0 <==> |s| == 0 || CountNamed(s, {Enrollment}) == 0
    ensures |s| > 0 ==> IsPercentage(rate, CountNamed(s, {Enrollment}), |UserIds(s)|)
  {
    var visitors := |UserIds(s)|;
    var conversions := CountNamed(s, {Enrollment});
    assert |s| > 0 ==> visitors > 0;
    Percent(conversions, visitors)
  }

  /** `calculateEngagementRate`: the percentage of events with an engagement name; 0 for no events. */
  function EngagementRate(s: seq<Event>): (rate: real)
    ensures 0.0 <= rate <= 100.0
    ensures rate == 0.0 <==> forall e :: e in s ==> e.name !in EngagementNames
    ensures rate == 100.0 <==> |s| > 0 && forall e :: e in s ==> e.name in EngagementNames
    ensures |s| > 0 ==> IsPercentage(rate, CountNamed(s, EngagementNames), |s|)
  {
    var engaged := CountNamed(s, EngagementNames);
    Percent(engaged, |s|)
  }

  /** `calculateCourseCompletionRate`: completion events per enrollment event, as a percentage;
      0 without enrollments. */
  function CompletionRate(s: seq<Event>): (rate: real)
    ensures rate >= 0.0
    ensures CountNamed(s, {Enrollment}) == 0 ==> rate == 0.0
    ensures CountNamed(s, {Enrollment}) > 0 ==>
              IsPercentage(rate, CountNamed(s, {Completion}), CountNamed(s, {Enrollment}))
    ensures CountNamed(s, {Enrollment}) > 0 ==>
              (rate <= 100.0 <==> CountNamed(s, {Completion}) <= CountNamed(s, {Enrollment}))
  {
    var enrollments := CountNamed(s, {Enrollment});
    var completions := CountNamed(s, {Completion});
    Percent(completions, enrollments)
  }

  // ---------------------------------------------------------------------------
  // Sessions

  /** The set of session ids that occur in `data`. */
  function SessionIds(data: seq<Event>): set<string>
  {
    set e | e in data :: e.sessionId
  }

  /** A session's recorded bounds in `calculateAvgSessionDuration`. */
  datatype Span = Span(start: int, end: int)

  /** The `sessions` object: its keys in insertion (first-seen) order, and each key's span.
      `Object.values` lists integer-like keys first, but the enumeration order does not matter:
      `SumDurationsReorder` makes the summed durations independent of it. */
  datatype SessionTable = SessionTable(order: seq<string>, spans: map<string, Span>)

  /** One `forEach` step: a new session opens with start = end = the event's time; a known session
      only has its end raised, never its start lowered. */
  function Visit(t: SessionTable, e: Event): (t': SessionTable)
    requires e.ts.Some?
    ensures t'.spans.Keys == t.spans.Keys + {e.sessionId}
    ensures t'.order == if e.sessionId in t.spans then t.order else t.order + [e.sessionId]
  {
    var sid := e.sessionId;
    var time := e.ts.value;
    if sid !in t.spans then SessionTable(t.order + [sid], t.spans[sid := Span(time, time)])
    else if time > t.spans[sid].end then t.(spans := t.spans[sid := t.spans[sid].(end := time)])
    else t
  }

  /** A visit changes only the visited event's session: it opens it at the event's time, or raises
      its end to the event's time when that is later. */
  lemma VisitSpans(t: SessionTable, e: Event, sid: string)
    requires e.ts.Some?
    requires sid in t.spans || sid == e.sessionId
    ensures sid in Visit(t, e).spans
    ensures sid != e.sessionId ==> Visit(t, e).spans[sid] == t.spans[sid]
    ensures sid == e.sessionId && sid !in t.spans ==> Visit(t, e).spans[sid] == Span(e.ts.value, e.ts.value)
    ensures sid == e.sessionId && sid in t.spans ==>
              Visit(t, e).spans[sid] == Span(t.spans[sid].start, if e.ts.value > t.spans[sid].end then e.ts.value else t.spans[sid].end)
  {
  }

  /** The `sessions` object after visiting every event of `data` in order. */
  function TrackSessions(data: seq<Event>): (t: SessionTable)
    requires AllTimed(data)
    ensures t.spans.Keys == SessionIds(data)
    ensures forall k :: 0 <= k < |t.order| ==> t.order[k] in t.spans
    ensures forall sid :: sid in t.spans ==> sid in t.order
    ensures Distinct(t.order)
    ensures forall sid :: sid in t.spans ==> t.spans[sid].start <= t.spans[sid].end
  {
    if |data| == 0 then SessionTable([], map[])
    else
      var prefix := data[..|data| - 1];
      var last := data[|data| - 1];
      assert data == prefix + [last];
      assert SessionIds(data) == SessionIds(prefix) + {last.sessionId};
      var t := TrackSessions(prefix);
      VisitKeepsTable(t, last);
      Visit(t, last)
  }

  /** A visit adds the event's session to the table and keeps the table's shape: the enumeration
      lists exactly the keys, each once, and every span is ordered. */
  lemma VisitKeepsTable(t: SessionTable, e: Event)
    requires e.ts.Some?
    requires forall k :: 0 <= k < |t.order| ==> t.order[k] in t.spans
    requires forall sid :: sid in t.spans ==> sid in t.order
    requires Distinct(t.order)
    requires forall sid :: sid in t.spans ==> t.spans[sid].start <= t.spans[sid].end
    ensures var t' := Visit(t, e);
      && t'.spans.Keys == t.spans.Keys + {e.sessionId}
      && (forall k :: 0 <= k < |t'.order| ==> t'.order[k] in t'.spans)
      && (forall sid :: sid in t'.spans ==> sid in t'.order)
      && Distinct(t'.order)
      && (forall sid :: sid in t'.spans ==> t'.spans[sid].start <= t'.spans[sid].end)
  {
    var sid := e.sessionId;
    if sid !in t.spans {
      var order := t.order + [sid];
      assert forall k :: 0 <= k < |t.order| ==> order[k] == t.order[k];
      assert order[|t.order|] == sid;
    }
  }

  /** The summed session lengths in minutes, over the sessions listed in `order`. */
  function TotalMinutes(order: seq<string>, spans: map<string, Span>): (total: real)
    requires forall sid :: sid in order ==> sid in spans
    ensures (forall sid :: sid in order ==> spans[sid].start <= spans[sid].end) ==> total >= 0.0
  {
    if |order| == 0 then 0.0
    else (spans[order[0]].end - spans[order[0]].start) as real / MsPerMinute + TotalMinutes(order[1..], spans)
  }

  /** `calculateAvgSessionDuration`: the mean session length in minutes; 0 when there are no events. */
  function AvgSessionDuration(data: seq<Event>): (minutes: real)
    requires AllTimed(data)
    ensures minutes >= 0.0
    ensures |data| == 0 ==> minutes == 0.0
  {
    var t := TrackSessions(data);
    Mean(TotalMinutes(t.order, t.spans), |t.order|)
  }

  /** `m` is the mean of `count` values summing to `total`. */
  predicate IsMean(m: real, total: real, count: nat)
  {
    count > 0 && m * (count as real) == total
  }

  /** `total / count` behind the `durations.length > 0` guard. */
  function Mean(total: real, count: nat): (m: real)
    ensures count == 0 ==> m == 0.0
    ensures total >= 0.0 ==> m >= 0.0
    ensures count > 0 ==> IsMean(m, total, count)
  {
    if count > 0 then
      var m := total / (count as real);
      assert m * (count as real) == total;
      assert total >= 0.0 ==> m >= 0.0 by {
        if m < 0.0 {
          assert m * (count as real) < 0.0;
        }
      }
      m
    else 0.0
  }

  // ---------------------------------------------------------------------------
  // Reference definitions of a session's bounds, independent of the fold

  /** The position of the first event of session `sid`. */
  function FirstIndex(data: seq<Event>, sid: string): (i: nat)
    requires sid in SessionIds(data)
    ensures i < |data| && data[i].sessionId == sid
    ensures forall j :: 0 <= j < i ==> data[j].sessionId != sid
  {
    if data[0].sessionId == sid then 0
    else
      assert sid in SessionIds(data[1..]) by {
        var e :| e in data && e.sessionId == sid;
        assert e != data[0];
        assert data == [data[0]] + data[1..];
      }
      var k := FirstIndex(data[1..], sid);
      assert forall j :: 1 <= j < k + 1 ==> data[j] == data[1..][j - 1];
      k + 1
  }

  /** The timestamp of session `sid`'s first event. */
  function FirstSeen(data: seq<Event>, sid: string): int
    requires AllTimed(data)
    requires sid in SessionIds(data)
  {
    var i := FirstIndex(data, sid);
    assert data[i] in data;
    data[i].ts.value
  }

  /** The largest timestamp among session `sid`'s events. */
  function Latest(data: seq<Event>, sid: string): (r: int)
    requires AllTimed(data)
    requires sid in SessionIds(data)
    ensures forall i :: 0 <= i < |data| && data[i].sessionId == sid ==> data[i].ts.value <= r
    ensures exists i :: 0 <= i < |data| && data[i].sessionId == sid && data[i].ts.value == r
  {
    assert data[0] in data;
    assert data == [data[0]] + data[1..];
    assert forall i :: 1 <= i < |data| ==> data[i] == data[1..][i - 1];
    var here := data[0].ts.value;
    if sid !in SessionIds(data[1..]) then
      assert data[0].sessionId == sid;
      here
    else
      var later := Latest(data[1..], sid);
      if data[0].sessionId == sid && here > later then here else later
  }

  /** Any attained upper bound of a session's timestamps is its `Latest`. */
  lemma LatestIs(data: seq<Event>, sid: string, r: int, i: nat)
    requires AllTimed(data)
    requires i < |data| && data[i].sessionId == sid && data[i].ts == Some(r)
    requires forall j :: 0 <= j < |data| && data[j].sessionId == sid ==> data[j].ts.value <= r
    ensures sid in SessionIds(data)
    ensures Latest(data, sid) == r
  {
    assert data[i] in data;
    var k :| 0 <= k < |data| && data[k].sessionId == sid && data[k].ts.value == Latest(data, sid);
  }

  /** Any position holding the session's first event is its `FirstIndex`. */
  lemma FirstIndexIs(data: seq<Event>, sid: string, i: nat)
    requires i < |data| && data[i].sessionId == sid
    requires forall j :: 0 <= j < i ==> data[j].sessionId != sid
    ensures sid in SessionIds(data)
    ensures FirstIndex(data, sid) == i
  {
    assert data[i] in data;
  }

  /** The fold's span of every session is (first-seen timestamp, largest timestamp). */
  lemma {:induction false} TrackSessionsSpans(data: seq<Event>, sid: string)
    requires AllTimed(data)
    requires sid in SessionIds(data)
    ensures TrackSessions(data).spans[sid] == Span(FirstSeen(data, sid), Latest(data, sid))
  {
    var p := data[..|data| - 1];
    var e := data[|data| - 1];
    assert data == p + [e];
    assert e in data;
    assert AllTimed(p) by {
      forall x | x in p ensures x.ts.Some? { assert x in data; }
    }
    var tp := TrackSessions(p);
    assert TrackSessions(data) == Visit(tp, e);
    if sid in SessionIds(p) {
      TrackSessionsSpans(p, sid);
      VisitSpans(tp, e, sid);
      BoundsSnocKnown(p, e, sid);
    } else {
      BoundsSnocNew(p, e, sid);
      VisitSpans(tp, e, sid);
    }
  }

  /** Appending an event to a known session keeps its first-seen time and raises its latest time
      to the event's time when that is later. */
  lemma BoundsSnocKnown(p: seq<Event>, e: Event, sid: string)
    requires AllTimed(p) && e.ts.Some?
    requires sid in SessionIds(p)
    ensures AllTimed(p + [e]) && sid in SessionIds(p + [e])
    ensures FirstSeen(p + [e], sid) == FirstSeen(p, sid)
    ensures Latest(p + [e], sid) ==
              if e.sessionId == sid && e.ts.value > Latest(p, sid) then e.ts.value else Latest(p, sid)
  {
    var data := p + [e];
    assert AllTimed(data) by {
      forall x | x in data
        ensures x.ts.Some?
      {
        assert x in p || x == e;
      }
    }
    var i := FirstIndex(p, sid);
    assert data[i] == p[i];
    FirstIndexIs(data, sid, i);
    LatestSnoc(p, e, sid);
  }

  /** `BoundsSnocKnown` for the latest time. */
  lemma LatestSnoc(p: seq<Event>, e: Event, sid: string)
    requires AllTimed(p) && AllTimed(p + [e])
    requires sid in SessionIds(p)
    ensures sid in SessionIds(p + [e])
    ensures Latest(p + [e], sid) ==
              if e.sessionId == sid && e.ts.value > Latest(p, sid) then e.ts.value else Latest(p, sid)
  {
    var data := p + [e];
    var lp := Latest(p, sid);
    var k :| 0 <= k < |p| && p[k].sessionId == sid && p[k].ts.value == lp;
    var r := if e.sessionId == sid && e.ts.value > lp then e.ts.value else lp;
    forall j | 0 <= j < |data| && data[j].sessionId == sid
      ensures data[j].ts.value <= r
    {
      if j < |p| {
        assert data[j] == p[j];
      }
    }
    if e.sessionId == sid && e.ts.value > lp {
      LatestIs(data, sid, r, |p|);
    } else {
      assert data[k] == p[k];
      LatestIs(data, sid, r, k);
    }
  }

  /** Appending the first event of a session opens it at that event's time. */
  lemma BoundsSnocNew(p: seq<Event>, e: Event, sid: string)
    requires AllTimed(p) && e.ts.Some?
    requires sid !in SessionIds(p) && sid in SessionIds(p + [e])
    ensures e.sessionId == sid
    ensures AllTimed(p + [e])
    ensures FirstSeen(p + [e], sid) == e.ts.value && Latest(p + [e], sid) == e.ts.value
  {
    var data := p + [e];
    assert forall j :: 0 <= j < |p| ==> data[j] == p[j] && p[j] in p;
    assert forall x :: x in data ==> x in p || x == e;
    FirstIndexIs(data, sid, |p|);
    LatestIs(data, sid, e.ts.value, |p|);
  }

  /** A session's length in minutes by the reference bounds. */
  function Duration(data: seq<Event>, sid: string): (minutes: real)
    requires AllTimed(data)
    requires sid in SessionIds(data)
    ensures minutes >= 0.0
  {
    var i := FirstIndex(data, sid);
    assert data[i] in data;
    (Latest(data, sid) - FirstSeen(data, sid)) as real / MsPerMinute
  }

  /** The summed reference durations of the sessions listed in `ids`. */
  function SumDurations(data: seq<Event>, ids: seq<string>): real
    requires AllTimed(data)
    requires forall sid :: sid in ids ==> sid in SessionIds(data)
  {
    if |ids| == 0 then 0.0 else Duration(data, ids[0]) + SumDurations(data, ids[1..])
  }

  lemma {:induction false} SumDurationsConcat(data: seq<Event>, a: seq<string>, b: seq<string>)
    requires AllTimed(data)
    requires forall sid :: sid in a ==> sid in SessionIds(data)
    requires forall sid :: sid in b ==> sid in SessionIds(data)
    ensures forall sid :: sid in a + b ==> sid in SessionIds(data)
    ensures SumDurations(data, a + b) == SumDurations(data, a) + SumDurations(data, b)
  {
    if |a| == 0 {
      assert a + b == b;
    } else {
      assert (a + b)[1..] == a[1..] + b;
      SumDurationsConcat(data, a[1..], b);
    }
  }

  /** Taking one session out of the list takes its duration out of the sum. */
  lemma SumDurationsPick(data: seq<Event>, b: seq<string>, k: nat)
    requires AllTimed(data)
    requires k < |b|
    requires forall sid :: sid in b ==> sid in SessionIds(data)
    ensures forall sid :: sid in b[..k] + b[k + 1..] ==> sid in SessionIds(data)
    ensures SumDurations(data, b) == Duration(data, b[k]) + SumDurations(data, b[..k] + b[k + 1..])
  {
    assert b == b[..k] + [b[k]] + b[k + 1..];
    SumDurationsConcat(data, b[..k], [b[k]]);
    SumDurationsConcat(data, b[..k] + [b[k]], b[k + 1..]);
    SumDurationsConcat(data, b[..k], b[k + 1..]);
    assert SumDurations(data, [b[k]]) == Duration(data, b[k]);
  }

  /** The sum over sessions does not depend on the order they are listed in. */
  lemma {:induction false} SumDurationsReorder(data: seq<Event>, a: seq<string>, b: seq<string>)
    requires AllTimed(data)
    requires forall sid :: sid in a ==> sid in SessionIds(data)
    requires Distinct(a) && Distinct(b) && |a| == |b|
    requires forall x :: x in a <==> x in b
    ensures forall sid :: sid in b ==> sid in SessionIds(data)
    ensures SumDurations(data, a) == SumDurations(data, b)
  {
    assert forall sid :: sid in b ==> sid in SessionIds(data) by {
      forall j | 0 <= j < |b|
        ensures b[j] in SessionIds(data)
      {
        assert b[j] in a;
      }
    }
    if |a| > 0 {
      var x := a[0];
      assert x in b;
      var k :| 0 <= k < |b| && b[k] == x;
      var b' := b[..k] + b[k + 1..];
      DistinctRemove(b, k);
      DistinctRemove(a, 0);
      assert a[..0] + a[1..] == a[1..];
      assert forall y :: y in a[1..] <==> y in b' by {
        forall y
          ensures y in a[1..] <==> y in b'
        {
          assert y in a[1..] <==> y in a && y != x;
          assert y in b' <==> y in b && y != x;
        }
      }
      SumDurationsReorder(data, a[1..], b');
      SumDurationsPick(data, b, k);
    }
  }

  /** The fold's summed minutes agree with the reference durations. */
  lemma {:induction false} TotalMinutesIsSumDurations(data: seq<Event>, order: seq<string>)
    requires AllTimed(data)
    requires forall sid :: sid in order ==> sid in SessionIds(data)
    ensures forall sid :: sid in order ==> sid in TrackSessions(data).spans
    ensures TotalMinutes(order, TrackSessions(data).spans) == SumDurations(data, order)
  {
    if |order| > 0 {
      TrackSessionsSpans(data, order[0]);
      TotalMinutesIsSumDurations(data, order[1..]);
    }
  }

  /** The average session length is the mean, over the distinct sessions, of (largest timestamp
      minus first-seen timestamp) in minutes, whatever order the sessions are listed in. */
  lemma AvgSessionDurationIsMean(data: seq<Event>, ids: seq<string>)
    requires AllTimed(data)
    requires Distinct(ids)
    requires forall sid :: sid in ids <==> sid in SessionIds(data)
    ensures |ids| == 0 ==> AvgSessionDuration(data) == 0.0
    ensures |ids| > 0 ==> IsMean(AvgSessionDuration(data), SumDurations(data, ids), |ids|)
  {
    var t := TrackSessions(data);
    TotalMinutesIsSumDurations(data, t.order);
    DistinctCardinality(t.order);
    DistinctCardinality(ids);
    assert (set x | x in t.order) == (set x | x in ids);
    assert |t.order| == |ids|;
    SumDurationsReorder(data, t.order, ids);
  }

  /** One session in chronological order: along the sequence, that session's timestamps never
      decrease (other sessions' events may sit between them in any order). */
  ghost predicate Chronological(data: seq<Event>, sid: string)
    requires AllTimed(data)
  {
    forall i, j :: 0 <= i < j < |data| && data[i].sessionId == sid && data[j].sessionId == sid ==>
      data[i].ts.value <= data[j].ts.value
  }

  /** When a session's events are stored in time order, its length is its last event's time minus
      its first's. */
  lemma ChronologicalDuration(data: seq<Event>, sid: string, first: nat, last: nat)
    requires AllTimed(data)
    requires Chronological(data, sid)
    requires first <= last < |data|
    requires data[first].sessionId == sid && data[last].sessionId == sid
    requires forall j :: 0 <= j < first ==> data[j].sessionId != sid
    requires forall j :: last < j < |data| ==> data[j].sessionId != sid
    ensures sid in SessionIds(data)
    ensures Duration(data, sid) == (data[last].ts.value - data[first].ts.value) as real / MsPerMinute
  {
    assert data[last] in data;
    forall j | 0 <= j < |data| && data[j].sessionId == sid
      ensures data[j].ts.value <= data[last].ts.value
    {
      if j != last {
        assert j < last;
      }
    }
    LatestIs(data, sid, data[last].ts.value, last);
    FirstIndexIs(data, sid, first);
  }

  // ---------------------------------------------------------------------------
  // getMetrics

  /** The object `getMetrics` returns. */
  datatype DashboardMetrics = DashboardMetrics(
    totalEvents: nat,
    uniqueUsers: nat,
    avgSessionDuration: real,
    conversionRate: real,
    engagementRate: real,
    courseCompletionRate: real)

  /** The windowed events carry parsed timestamps, as the session fold needs. */
  lemma WindowTimed(events: seq<Event>, cutoff: int)
    ensures AllTimed(Window(events, cutoff))
  {
  }

  /** `getMetrics`: the six metrics over the events strictly after `now` minus the range's days. */
  function GetMetrics(events: seq<Event>, range: TimeRange, now: int): (m: DashboardMetrics)
    ensures m.totalEvents <= |events|
    ensures m.totalEvents == |Window(events, Cutoff(now, range))|
    ensures m.uniqueUsers <= m.totalEvents
    ensures m.uniqueUsers == 0 <==> m.totalEvents == 0
    ensures m.avgSessionDuration >= 0.0 && m.conversionRate >= 0.0 && m.courseCompletionRate >= 0.0
    ensures 0.0 <= m.engagementRate <= 100.0
    ensures m.totalEvents == 0 ==>
              m.avgSessionDuration == 0.0 && m.conversionRate == 0.0 && m.engagementRate == 0.0 && m.courseCompletionRate == 0.0
  {
    var filtered := Window(events, Cutoff(now, range));
    WindowTimed(events, Cutoff(now, range));
    DashboardMetrics(
      |filtered|,
      |UserIds(filtered)|,
      AvgSessionDuration(filtered),
      ConversionRate(filtered),
      EngagementRate(filtered),
      CompletionRate(filtered))
  }

  /** Every metric but the average session length depends only on the multiset of stored events:
      reordering the store leaves them unchanged. */
  lemma MetricsPermutation(events: seq<Event>, events': seq<Event>, range: TimeRange, now: int)
    requires multiset(events) == multiset(events')
    ensures var m, m' := GetMetrics(events, range, now), GetMetrics(events', range, now);
      && m.totalEvents == m'.totalEvents
      && m.uniqueUsers == m'.uniqueUsers
      && m.conversionRate == m'.conversionRate
      && m.engagementRate == m'.engagementRate
      && m.courseCompletionRate == m'.courseCompletionRate
  {
    var c := Cutoff(now, range);
    var f, f' := Window(events, c), Window(events', c);
    WindowPermutation(events, events', c);
    assert |f| == |multiset(f)| == |multiset(f')| == |f'|;
    UserIdsPermutation(f, f');
    CountNamedPermutation(f, f', {Enrollment});
    CountNamedPermutation(f, f', {Completion});
    CountNamedPermutation(f, f', EngagementNames);
  }

  /** Storing one more event raises the event count by one exactly when it falls in the window. */
  lemma MetricsAppend(events: seq<Event>, e: Event, range: TimeRange, now: int)
    ensures GetMetrics(events + [e], range, now).totalEvents ==
              GetMetrics(events, range, now).totalEvents + (if InWindow(e, Cutoff(now, range)) then 1 else 0)
  {
    WindowConcat(events, [e], Cutoff(now, range));
  }

  // ---------------------------------------------------------------------------
  // Worked examples

  /** One session with two events ten minutes apart lasts ten minutes. */
  lemma TenMinuteSession()
    ensures AvgSessionDuration([Event("page_view", Some(0), None, "s1"), Event("page_view", Some(600000), None, "s1")]) == 10.0
  {
    var data := [Event("page_view", Some(0), None, "s1"), Event("page_view", Some(600000), None, "s1")];
    assert data[..1] == [data[0]];
    assert [data[0]][..0] == [];
    assert TrackSessions([data[0]]) == Visit(SessionTable([], map[]), data[0]);
    var t := TrackSessions(data);
    assert t == Visit(TrackSessions([data[0]]), data[1]);
    assert t == SessionTable(["s1"], map["s1" := Span(0, 600000)]);
    assert TotalMinutes(t.order, t.spans) == 10.0;
  }

  /** The first-seen time is never lowered: a session whose later-stored event is earlier counts as
      zero minutes, although its events are ten minutes apart. */
  lemma OutOfOrderSession()
    ensures AvgSessionDuration([Event("page_view", Some(600000), None, "s1"), Event("page_view", Some(0), None, "s1")]) == 0.0
  {
    var data := [Event("page_view", Some(600000), None, "s1"), Event("page_view", Some(0), None, "s1")];
    assert data[..1] == [data[0]];
    assert [data[0]][..0] == [];
    assert TrackSessions([data[0]]) == Visit(SessionTable([], map[]), data[0]);
    var t := TrackSessions(data);
    assert t == Visit(TrackSessions([data[0]]), data[1]);
    assert t == SessionTable(["s1"], map["s1" := Span(600000, 600000)]);
    assert TotalMinutes(t.order, t.spans) == 0.0;
  }

  /** User A enrolls and user B only views a page: the conversion rate is 50. */
  lemma HalfConversion()
    ensures ConversionRate([Event(Enrollment, Some(1), Some("A"), "s1"), Event("page_view", Some(2), Some("B"), "s2")]) == 50.0
  {
    var s := [Event(Enrollment, Some(1), Some("A"), "s1"), Event("page_view", Some(2), Some("B"), "s2")];
    assert UserIds(s) == {Some("A"), Some("B")};
    assert Filter(s, NamedPred({Enrollment})) == [s[0]];
  }

  /** One user enrolling twice gives a conversion rate of 200: events are counted, not users. */
  lemma ConversionAboveHundred()
    ensures ConversionRate([Event(Enrollment, Some(1), Some("A"), "s1"), Event(Enrollment, Some(2), Some("A"), "s1")]) == 200.0
  {
    var s := [Event(Enrollment, Some(1), Some("A"), "s1"), Event(Enrollment, Some(2), Some("A"), "s1")];
    assert UserIds(s) == {Some("A")};
    assert Filter(s, NamedPred({Enrollment})) == s;
  }

  /** Five enrollments and two completions give a completion rate of 40. */
  lemma FortyPercentCompletion()
    ensures var enroll, complete := Event(Enrollment, Some(1), None, "s1"), Event(Completion, Some(2), None, "s1");
      CompletionRate([enroll, enroll, enroll, enroll, enroll] + [complete, complete]) == 40.0
  {
    var enroll, complete := Event(Enrollment, Some(1), None, "s1"), Event(Completion, Some(2), None, "s1");
    var enrolls, completes := [enroll, enroll, enroll, enroll, enroll], [complete, complete];
    FilterConcat(enrolls, completes, NamedPred({Enrollment}));
    FilterConcat(enrolls, completes, NamedPred({Completion}));
    assert CountNamed(enrolls, {Enrollment}) == 5 && CountNamed(completes, {Enrollment}) == 0;
    assert CountNamed(enrolls, {Completion}) == 0 && CountNamed(completes, {Completion}) == 2;
    assert Percent(2, 5) == 40.0;
  }
}
