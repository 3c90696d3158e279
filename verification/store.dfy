/** The browser-side event store and session id (`analytics.js`), over an explicit model of the
    browser's storage. */
module Store {
  import opened Wrappers
  import Events

  /** A property value as it survives the JSON round trip through storage (booleans and arrays
      are not modelled). */
  datatype Value = Null | Str(s: string) | Num(n: int) | Obj(fields: map<string, Value>)

  /** An event's property bag. */
  type Props = map<string, Value>

  /** An event as stored: its name and its properties. */
  datatype Record = Record(name: string, properties: Props)

  /** The storage the module touches: the `localStorage` string entries other than
      `analytics_events` (such as `userId`), in `local`; the decoded `analytics_events` list, in
      `events` (`None` when the key is absent); and `sessionStorage`. The `analytics_events` key
      lives in `events` only and is never an entry of `local`. */
  datatype Browser = Browser(local: map<string, string>, events: Option<seq<Record>>, session: map<string, string>)

  /** What the browser supplies at the moment of a call: the clock as an ISO-8601 string and in
      milliseconds, the page URL, the user agent, and the random suffix of a new session id. */
  datatype Env = Env(isoNow: string, clockMs: int, href: string, userAgent: string, randomSuffix: string)

  const SessionKey: string := "session_id"
  const SessionPrefix: string := "session_"

  /** The properties `trackEvent` always sets itself. */
  const Reserved: set<string> := {"timestamp", "userId", "sessionId", "url", "userAgent"}

  /** The decimal digits of a natural number. */
  function NatToString(n: nat): (s: string)
    ensures |s| > 0
    ensures forall i :: 0 <= i < |s| ==> '0' <= s[i] <= '9'
    decreases n
  {
    var digit := ['0' + (n % 10) as char];
    if n < 10 then digit else NatToString(n / 10) + digit
  }

  /** A number's decimal text (`String(n)` for an integer). */
  function IntToString(n: int): string
  {
    if n < 0 then "-" + NatToString(-n) else NatToString(n)
  }

  /** A new session id: `session_`, the clock in milliseconds, `_`, the random suffix. */
  function FreshSessionId(env: Env): (id: string)
    ensures |id| > |SessionPrefix| && id[..|SessionPrefix|] == SessionPrefix
  {
    var id := SessionPrefix + IntToString(env.clockMs) + "_" + env.randomSuffix;
    assert id[..|SessionPrefix|] == SessionPrefix;
    id
  }

  /** `getSessionId`: the stored id when there is a non-empty one; otherwise a fresh id, which is
      stored. Nothing outside `sessionStorage`'s `session_id` changes. */
  function GetSessionId(b: Browser, env: Env): (r: (string, Browser))
    ensures SessionKey in b.session && b.session[SessionKey] != "" ==> r == (b.session[SessionKey], b)
    ensures !(SessionKey in b.session && b.session[SessionKey] != "") ==>
              && r.0 == FreshSessionId(env)
              && |r.0| > |SessionPrefix| && r.0[..|SessionPrefix|] == SessionPrefix
              && r.1 == b.(session := b.session[SessionKey := r.0])
    ensures r.1.local == b.local && r.1.events == b.events
    ensures SessionKey in r.1.session && r.1.session[SessionKey] == r.0 && r.0 != ""
  {
    if SessionKey in b.session && b.session[SessionKey] != "" then (b.session[SessionKey], b)
    else
      var id := FreshSessionId(env);
      (id, b.(session := b.session[SessionKey := id]))
  }

  /** Once a session id exists, every later call returns it and changes nothing. */
  lemma SessionIdStable(b: Browser, env: Env, env': Env)
    ensures var (id, b') := GetSessionId(b, env);
      GetSessionId(b', env') == (id, b')
  {
  }

  /** `getAnalyticsData`: the stored list, or the empty list when nothing is stored. */
  function GetAnalyticsData(b: Browser): (events: seq<Record>)
    ensures b.events.None? ==> events == []
    ensures b.events.Some? ==> events == b.events.value
  {
    b.events.GetOr([])
  }

  /** `clearAnalyticsData`: removes the stored list, and nothing else. */
  function ClearAnalyticsData(b: Browser): (b': Browser)
    ensures GetAnalyticsData(b') == []
    ensures b'.local == b.local && b'.session == b.session
  {
    b.(events := None)
  }

  /** Clearing twice is clearing once. */
  lemma ClearIdempotent(b: Browser)
    ensures ClearAnalyticsData(ClearAnalyticsData(b)) == ClearAnalyticsData(b)
  {
  }

  /** The value of a stored string entry as `getItem` returns it: `null` when absent. */
  function GetItem(m: map<string, string>, key: string): (v: Value)
    ensures key in m ==> v == Str(m[key])
    ensures key !in m ==> v == Null
  {
    if key in m then Str(m[key]) else Null
  }

  /** The properties `trackEvent` sets itself, given the session id. */
  function ReservedProps(b: Browser, env: Env, sessionId: string): (p: Props)
    ensures p.Keys == Reserved
  {
    map["timestamp" := Str(env.isoNow),
        "userId" := GetItem(b.local, "userId"),
        "sessionId" := Str(sessionId),
        "url" := Str(env.href),
        "userAgent" := Str(env.userAgent)]
  }

  /** `trackEvent`: builds the record (caller properties first, then the reserved ones, which win)
      and appends it to the stored list. */
  function TrackEvent(b: Browser, env: Env, name: string, properties: Props): (b': Browser)
    ensures |GetAnalyticsData(b')| == |GetAnalyticsData(b)| + 1
    ensures GetAnalyticsData(b')[..|GetAnalyticsData(b)|] == GetAnalyticsData(b)
    ensures b'.local == b.local
  {
    var (sessionId, b1) := GetSessionId(b, env);
    var record := Record(name, properties + ReservedProps(b, env, sessionId));
    var b' := b1.(events := Some(GetAnalyticsData(b1) + [record]));
    assert GetAnalyticsData(b')[..|GetAnalyticsData(b)|] == GetAnalyticsData(b);
    b'
  }

  /** The record `trackEvent` appends: it carries the given name; a reserved key holds the value
      `trackEvent` sets, whatever the caller passed under it; every other caller key keeps its value;
      and there are no other keys. */
  lemma TrackedRecord(b: Browser, env: Env, name: string, properties: Props)
    ensures var r := Last(TrackEvent(b, env, name, properties));
      var sessionId := GetSessionId(b, env).0;
      && r.name == name
      && r.properties.Keys == properties.Keys + Reserved
      && r.properties["timestamp"] == Str(env.isoNow)
      && r.properties["userId"] == GetItem(b.local, "userId")
      && r.properties["sessionId"] == Str(sessionId)
      && r.properties["url"] == Str(env.href)
      && r.properties["userAgent"] == Str(env.userAgent)
      && forall k :: k in properties && k !in Reserved ==> r.properties[k] == properties[k]
  {
  }

  /** The last stored record. */
  function Last(b: Browser): Record
    requires |GetAnalyticsData(b)| > 0
  {
    GetAnalyticsData(b)[|GetAnalyticsData(b)| - 1]
  }

  /** `trackCourseProgress`: appends one `course_progress` record in category `learning`. */
  function TrackCourseProgress(b: Browser, env: Env, moduleId: Value, lessonId: Value, progress: Value): (b': Browser)
    ensures |GetAnalyticsData(b')| == |GetAnalyticsData(b)| + 1
    ensures GetAnalyticsData(b')[..|GetAnalyticsData(b)|] == GetAnalyticsData(b)
    ensures Last(b').name == "course_progress"
    ensures Last(b').properties.Keys == {"moduleId", "lessonId", "progress", "category"} + Reserved
    ensures Last(b').properties["category"] == Str("learning")
    ensures Last(b').properties["moduleId"] == moduleId
    ensures Last(b').properties["lessonId"] == lessonId
    ensures Last(b').properties["progress"] == progress
  {
    var properties := map["moduleId" := moduleId, "lessonId" := lessonId, "progress" := progress, "category" := Str("learning")];
    TrackedRecord(b, env, "course_progress", properties);
    assert "moduleId" !in Reserved && "lessonId" !in Reserved && "progress" !in Reserved && "category" !in Reserved;
    TrackEvent(b, env, "course_progress", properties)
  }

  /** `trackEngagement`: appends one `user_engagement` record in category `engagement`; a missing
      duration is passed as `Null`, the default. */
  function TrackEngagement(b: Browser, env: Env, action: Value, element: Value, duration: Value): (b': Browser)
    ensures |GetAnalyticsData(b')| == |GetAnalyticsData(b)| + 1
    ensures GetAnalyticsData(b')[..|GetAnalyticsData(b)|] == GetAnalyticsData(b)
    ensures Last(b').name == "user_engagement"
    ensures Last(b').properties.Keys == {"action", "element", "duration", "category"} + Reserved
    ensures Last(b').properties["category"] == Str("engagement")
    ensures Last(b').properties["action"] == action
    ensures Last(b').properties["element"] == element
    ensures Last(b').properties["duration"] == duration
  {
    var properties := map["action" := action, "element" := element, "duration" := duration, "category" := Str("engagement")];
    TrackedRecord(b, env, "user_engagement", properties);
    assert "action" !in Reserved && "element" !in Reserved && "duration" !in Reserved && "category" !in Reserved;
    TrackEvent(b, env, "user_engagement", properties)
  }

  /** `trackPerformance`: appends one `performance` record in category `performance`; a missing
      context is passed as `Obj(map[])`, the default. */
  function TrackPerformance(b: Browser, env: Env, metric: Value, value: Value, context: Value): (b': Browser)
    ensures |GetAnalyticsData(b')| == |GetAnalyticsData(b)| + 1
    ensures GetAnalyticsData(b')[..|GetAnalyticsData(b)|] == GetAnalyticsData(b)
    ensures Last(b').name == "performance"
    ensures Last(b').properties.Keys == {"metric", "value", "context", "category"} + Reserved
    ensures Last(b').properties["category"] == Str("performance")
    ensures Last(b').properties["metric"] == metric
    ensures Last(b').properties["value"] == value
    ensures Last(b').properties["context"] == context
  {
    var properties := map["metric" := metric, "value" := value, "context" := context, "category" := Str("performance")];
    TrackedRecord(b, env, "performance", properties);
    assert "metric" !in Reserved && "value" !in Reserved && "context" !in Reserved && "category" !in Reserved;
    TrackEvent(b, env, "performance", properties)
  }

  /** After clearing, the store holds exactly the events tracked since. */
  lemma ClearThenTrack(b: Browser, env: Env, name: string, properties: Props)
    ensures |GetAnalyticsData(TrackEvent(ClearAnalyticsData(b), env, name, properties))| == 1
  {
  }

  // ---------------------------------------------------------------------------
  // Reading records back as events for the dashboard

  /** How the dashboard reads a stored record. The timestamp goes through `new Date(...)`: a string
      through the date parser `parse`, a number as that many milliseconds, null as the epoch, and a
      missing value or an object as an invalid date. A string `userId` is kept, anything else
      reads as null. The session id becomes an object key, so it is converted to its text. */
  function ToEvent(r: Record, parse: string -> Option<int>): (e: Events.Event)
    ensures e.name == r.name
  {
    var p := r.properties;
    Events.Event(
      r.name,
      if "timestamp" in p then DateOf(p["timestamp"], parse) else None,
      if "userId" in p && p["userId"].Str? then Some(p["userId"].s) else None,
      if "sessionId" in p then KeyText(p["sessionId"]) else "undefined")
  }

  /** `new Date(v)` in epoch milliseconds, `None` for an invalid date. */
  function DateOf(v: Value, parse: string -> Option<int>): Option<int>
  {
    match v
    case Str(s) => parse(s)
    case Num(n) => Some(n)
    case Null => Some(0)
    case Obj(_) => None
  }

  /** The text a value turns into when used as an object key. */
  function KeyText(v: Value): string
  {
    match v
    case Str(s) => s
    case Num(n) => IntToString(n)
    case Null => "null"
    case Obj(_) => "[object Object]"
  }

  /** The stored list read as events. */
  function ToEvents(records: seq<Record>, parse: string -> Option<int>): (events: seq<Events.Event>)
    ensures |events| == |records|
    ensures forall i :: 0 <= i < |records| ==> events[i] == ToEvent(records[i], parse)
  {
    seq(|records|, (i: int) requires 0 <= i < |records| => ToEvent(records[i], parse))
  }

  /** A tracked record reads back with the clock's parsed time, the stored user id and the session id. */
  lemma TrackedEvent(b: Browser, env: Env, name: string, properties: Props, parse: string -> Option<int>)
    ensures var e := ToEvent(Last(TrackEvent(b, env, name, properties)), parse);
      && e.name == name
      && e.ts == parse(env.isoNow)
      && e.userId == (if "userId" in b.local then Some(b.local["userId"]) else None)
      && e.sessionId == GetSessionId(b, env).0
  {
    TrackedRecord(b, env, name, properties);
  }

  /** Tracking appends one event to what the dashboard reads: the metrics see the old events followed
      by the new one. */
  lemma TrackAppendsEvent(b: Browser, env: Env, name: string, properties: Props, parse: string -> Option<int>)
    ensures var before, after := GetAnalyticsData(b), GetAnalyticsData(TrackEvent(b, env, name, properties));
      ToEvents(after, parse) == ToEvents(before, parse) + [ToEvent(after[|after| - 1], parse)]
  {
  }
}
