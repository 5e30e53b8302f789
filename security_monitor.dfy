// The security-event monitor: events grouped by kind and caller, alerts when
// a kind passes its threshold within its window, scrubbing of sensitive
// details, metrics and clean-up. Times are milliseconds since the epoch; the
// clock and the alert ids are parameters.
module SecurityMonitoring {
  import opened Wrappers
  import Text
  import JsValue
  import Sorting
  import JsMath

  datatype EventType =
    | AuthSuccess | AuthFail | RateLimit | ValidationFail | FsSuspect
    | ApiAbuse | DbError | SessionCreated | SessionTerminated | SuspiciousActivity

  datatype Severity = Info | Warn | Error

  function TypeName(t: EventType): string
  {
    match t
    case AuthSuccess => "AUTH_SUCCESS"
    case AuthFail => "AUTH_FAIL"
    case RateLimit => "RATE_LIMIT"
    case ValidationFail => "VALIDATION_FAIL"
    case FsSuspect => "FS_SUSPECT"
    case ApiAbuse => "API_ABUSE"
    case DbError => "DB_ERROR"
    case SessionCreated => "SESSION_CREATED"
    case SessionTerminated => "SESSION_TERMINATED"
    case SuspiciousActivity => "SUSPICIOUS_ACTIVITY"
  }

  /** The kind a name stands for. */
  function KindOfName(s: string): Option<EventType>
  {
    if s == "AUTH_SUCCESS" then Some(AuthSuccess)
    else if s == "AUTH_FAIL" then Some(AuthFail)
    else if s == "RATE_LIMIT" then Some(RateLimit)
    else if s == "VALIDATION_FAIL" then Some(ValidationFail)
    else if s == "FS_SUSPECT" then Some(FsSuspect)
    else if s == "API_ABUSE" then Some(ApiAbuse)
    else if s == "DB_ERROR" then Some(DbError)
    else if s == "SESSION_CREATED" then Some(SessionCreated)
    else if s == "SESSION_TERMINATED" then Some(SessionTerminated)
    else if s == "SUSPICIOUS_ACTIVITY" then Some(SuspiciousActivity)
    else None
  }

  /** Names read back as their kind, and none holds the key separator. */
  lemma TypeNameRoundTrip(t: EventType)
    ensures KindOfName(TypeName(t)) == Some(t)
    ensures ':' !in TypeName(t)
  {
  }

  /** An event; `details` is the record of extra fields. */
  datatype SecurityEvent = SecurityEvent(
    kind: EventType, severity: Severity,
    requestId: Option<string>, ip: Option<string>, userId: Option<string>,
    userAgent: Option<string>, endpoint: Option<string>,
    details: map<string, JsValue.Value>, timestamp: int)

  datatype Threshold = Threshold(kind: EventType, maxEvents: nat, windowMinutes: nat, severity: Severity)

  datatype SecurityAlert = SecurityAlert(id: string, threshold: Threshold, events: seq<SecurityEvent>,
                                         triggeredAt: int, resolved: bool)

  const MinuteMs: int := 60 * 1000
  const HourMs: int := 60 * 60 * 1000
  const DayMs: int := 24 * 60 * 60 * 1000
  const WeekMs: int := 7 * 24 * 60 * 60 * 1000

  const Thresholds: seq<Threshold> := [
    Threshold(AuthFail, 5, 5, Warn),
    Threshold(ValidationFail, 10, 1, Warn),
    Threshold(FsSuspect, 1, 1, Error),
    Threshold(ApiAbuse, 3, 1, Error),
    Threshold(RateLimit, 3, 1, Info),
    Threshold(DbError, 5, 5, Error)
  ]

  /** The threshold of a kind, read off the table kind by kind. */
  function ThresholdOf(kind: EventType): (r: Option<Threshold>)
    ensures r.Some? ==> r.value in Thresholds && r.value.kind == kind
    ensures r.None? ==> forall t :: t in Thresholds ==> t.kind != kind
  {
    match kind
    case AuthFail => Some(Thresholds[0])
    case ValidationFail => Some(Thresholds[1])
    case FsSuspect => Some(Thresholds[2])
    case ApiAbuse => Some(Thresholds[3])
    case RateLimit => Some(Thresholds[4])
    case DbError => Some(Thresholds[5])
    case _ => None
  }

  // ---------------------------------------------------------------- scrubbing

  const SensitiveFields: seq<string> := ["password", "token", "apiKey", "secret", "key"]
  const Redacted: string := "[REDACTED]"
  const CardMark: string := "[CARD]"

  /** A separator the card pattern allows between groups: `[\s-]`. */
  predicate IsCardSeparator(c: char) { Text.IsSpace(c) || c == '-' }

  predicate FourDigitsAt(s: string, i: nat)
  {
    i + 4 <= |s| && Text.IsDigit(s[i]) && Text.IsDigit(s[i + 1]) && Text.IsDigit(s[i + 2]) && Text.IsDigit(s[i + 3])
  }

  /** The length of `([\s-]?\d{4}){n}` at the start of `s`; the optional separator never needs backtracking. */
  function GroupsLength(s: string, n: nat): (r: Option<nat>)
    ensures r.Some? ==> 4 * n <= r.value <= |s|
  {
    if n == 0 then Some(0)
    else
      var skip := if |s| > 0 && IsCardSeparator(s[0]) then 1 else 0;
      if !FourDigitsAt(s, skip) then None
      else
        match GroupsLength(s[skip + 4..], n - 1)
        case None => None
        case Some(l) => Some(skip + 4 + l)
  }

  /**
   * The length of a match of `\d{4}[\s-]?\d{4}[\s-]?\d{4}[\s-]?\d{4}\b` at the
   * start of `s`. The leading `\b` is the caller's business.
   */
  function CardLength(s: string): (r: Option<nat>)
    ensures r.Some? ==> 16 <= r.value <= |s|
    ensures r.Some? ==> r.value == |s| || !Text.IsWordChar(s[r.value])
  {
    if !FourDigitsAt(s, 0) then None
    else
      match GroupsLength(s[4..], 3)
      case None => None
      case Some(l) => if 4 + l == |s| || !Text.IsWordChar(s[4 + l]) then Some(4 + l) else None
  }

  /**
   * The global replacement scanning from the left; `afterWord` says whether the
   * character before `s` is a word character, in which case no `\b` precedes a
   * digit and no match can start there.
   */
  function ScrubFrom(s: string, afterWord: bool): string
    decreases |s|
  {
    if |s| == 0 then ""
    else if !afterWord && CardLength(s).Some? then CardMark + ScrubFrom(s[CardLength(s).value..], true)
    else [s[0]] + ScrubFrom(s[1..], Text.IsWordChar(s[0]))
  }

  predicate NoDigits(s: string) { forall i :: 0 <= i < |s| ==> !Text.IsDigit(s[i]) }

  /** `scrubCreditCardNumbers`: every card-like run of sixteen digits becomes `[CARD]`. */
  function ScrubCreditCardNumbers(s: string): (r: string)
    ensures NoDigits(s) ==> r == s
  {
    if NoDigits(s) then NoDigitsUnchanged(s, false); ScrubFrom(s, false)
    else ScrubFrom(s, false)
  }

  /** Text without digits is never touched. */
  lemma {:induction false} NoDigitsUnchanged(s: string, afterWord: bool)
    requires NoDigits(s)
    ensures ScrubFrom(s, afterWord) == s
    decreases |s|
  {
    if |s| > 0 {
      assert !FourDigitsAt(s, 0);
      NoDigitsUnchanged(s[1..], Text.IsWordChar(s[0]));
      assert s == [s[0]] + s[1..];
    }
  }

  /** A digit-free prefix is copied and leaves the scan in the state its last character sets. */
  lemma {:induction false} ScrubPastPrefix(a: string, x: string, afterWord: bool)
    requires NoDigits(a)
    ensures ScrubFrom(a + x, afterWord) == a + ScrubFrom(x, if |a| == 0 then afterWord else Text.IsWordChar(a[|a| - 1]))
    decreases |a|
  {
    if |a| == 0 {
      assert a + x == x;
    } else {
      var s := a + x;
      var tail := a[1..];
      assert s[0] == a[0] && !FourDigitsAt(s, 0);
      assert CardLength(s).None?;
      assert s[1..] == tail + x;
      assert ScrubFrom(s, afterWord) == [a[0]] + ScrubFrom(tail + x, Text.IsWordChar(a[0]));
      ScrubPastPrefix(tail, x, Text.IsWordChar(a[0]));
      var last := Text.IsWordChar(a[|a| - 1]);
      if |a| > 1 {
        assert tail[|tail| - 1] == a[|a| - 1];
      }
      assert ScrubFrom(tail + x, Text.IsWordChar(a[0])) == tail + ScrubFrom(x, last);
      assert a == [a[0]] + tail;
    }
  }

  /** A card number standing between digit-free text is replaced, and only it. */
  lemma CardBetween(a: string, card: string, b: string)
    requires NoDigits(a) && NoDigits(b)
    requires |a| == 0 || !Text.IsWordChar(a[|a| - 1])
    requires CardLength(card + b) == Some(|card|)
    ensures ScrubCreditCardNumbers(a + card + b) == a + CardMark + b
  {
    assert a + card + b == a + (card + b);
    ScrubPastPrefix(a, card + b, false);
    assert (card + b)[|card|..] == b;
    NoDigitsUnchanged(b, true);
  }

  /** The card number `4111 1111 1111 1111` followed by ` today` is matched up to the space. */
  lemma SpacedCardLength()
    ensures CardLength("4111 1111 1111 1111" + " today") == Some(19)
  {
    var t := " today";
    var g := " 1111";
    var s1 := g + t;
    assert s1[5..] == t;
    assert GroupsLength(s1, 1) == Some(5);
    var s2 := g + s1;
    assert s2[5..] == s1;
    assert GroupsLength(s2, 2) == Some(10);
    var s3 := g + s2;
    assert s3[5..] == s2;
    assert GroupsLength(s3, 3) == Some(15);
    var s := "4111" + s3;
    assert s[4..] == s3;
    assert s[19] == ' ';
    assert s == "4111 1111 1111 1111" + " today";
  }

  /** A spaced card number inside a sentence is masked. */
  lemma CardInSentence()
    ensures ScrubCreditCardNumbers("paid with " + "4111 1111 1111 1111" + " today") == "paid with " + CardMark + " today"
  {
    SpacedCardLength();
    assert NoDigits("paid with ") && NoDigits(" today");
    CardBetween("paid with ", "4111 1111 1111 1111", " today");
  }

  /** `password`, `token`, ...: each truthy one is overwritten with `[REDACTED]`. */
  function Redact(d: map<string, JsValue.Value>, fields: seq<string>): map<string, JsValue.Value>
  {
    if |fields| == 0 then d
    else
      var f := fields[0];
      Redact(if f in d && JsValue.Truthy(d[f]) then d[f := JsValue.Str(Redacted)] else d, fields[1..])
  }

  lemma {:induction false} RedactProperties(d: map<string, JsValue.Value>, fields: seq<string>)
    ensures Redact(d, fields).Keys == d.Keys
    ensures forall k :: k in d ==>
      Redact(d, fields)[k] == if k in fields && JsValue.Truthy(d[k]) then JsValue.Str(Redacted) else d[k]
  {
    if |fields| > 0 {
      var f := fields[0];
      var d1 := if f in d && JsValue.Truthy(d[f]) then d[f := JsValue.Str(Redacted)] else d;
      RedactProperties(d1, fields[1..]);
      assert fields == [f] + fields[1..];
    }
  }

  /** What one field of the details becomes. */
  function ScrubbedField(k: string, v: JsValue.Value): JsValue.Value
  {
    if k in SensitiveFields && JsValue.Truthy(v) then JsValue.Str(Redacted)
    else if v.Str? then JsValue.Str(ScrubCreditCardNumbers(v.s))
    else v
  }

  /**
   * Redaction of the sensitive fields, then card masking of every string
   * field: the same keys, each field scrubbed on its own.
   */
  function ScrubDetails(d: map<string, JsValue.Value>): (r: map<string, JsValue.Value>)
    ensures r.Keys == d.Keys
    ensures forall k :: k in d ==> r[k] == ScrubbedField(k, d[k])
  {
    RedactProperties(d, SensitiveFields);
    NoDigitsUnchanged(Redacted, false);
    var redacted := Redact(d, SensitiveFields);
    map k | k in redacted :: if redacted[k].Str? then JsValue.Str(ScrubCreditCardNumbers(redacted[k].s)) else redacted[k]
  }

  /** `scrubSensitiveData`: only the details change. */
  function ScrubEvent(e: SecurityEvent): (r: SecurityEvent)
    ensures r.(details := e.details) == e
    ensures r.details == ScrubDetails(e.details)
  {
    e.(details := ScrubDetails(e.details))
  }

  /** Sensitive fields never carry their value out, and the rest keep theirs unless they are text. */
  lemma ScrubbedFieldProperties(k: string, v: JsValue.Value)
    ensures k in SensitiveFields && JsValue.Truthy(v) ==> ScrubbedField(k, v) == JsValue.Str(Redacted)
    ensures k in SensitiveFields && !JsValue.Truthy(v) ==> !JsValue.Truthy(ScrubbedField(k, v))
    ensures !v.Str? && !(k in SensitiveFields && JsValue.Truthy(v)) ==> ScrubbedField(k, v) == v
    ensures v.Str? && NoDigits(v.s) ==> ScrubbedField(k, v).Str? && NoDigits(ScrubbedField(k, v).s)
  {
    if v.Str? && NoDigits(v.s) {
      NoDigitsUnchanged(v.s, false);
      NoDigitsUnchanged(Redacted, false);
    }
    if k in SensitiveFields && !JsValue.Truthy(v) && v.Str? {
      assert v.s == "";
    }
  }

  // ---------------------------------------------------------------- keys

  /** `userId || ip || 'unknown'`. */
  function Identifier(e: SecurityEvent): string
  {
    Text.OrElse(e.userId, Text.OrElse(e.ip, "unknown"))
  }

  /** `getEventKey`: the kind's name, a colon, the identifier. */
  function EventKey(e: SecurityEvent): string
  {
    TypeName(e.kind) + ":" + Identifier(e)
  }

  /** A key names its kind before the first colon and its identifier after it. */
  lemma EventKeyRoundTrip(e: SecurityEvent)
    ensures KindOfName(Text.Split(EventKey(e), ':')[0]) == Some(e.kind)
    ensures EventKey(e)[|TypeName(e.kind)| + 1..] == Identifier(e)
  {
    TypeNameRoundTrip(e.kind);
    Text.SplitFirstPiece(TypeName(e.kind), ':', Identifier(e));
  }

  /** Events share a key exactly when they share a kind and an identifier. */
  lemma SameKeySameCaller(e1: SecurityEvent, e2: SecurityEvent)
    ensures EventKey(e1) == EventKey(e2) <==> e1.kind == e2.kind && Identifier(e1) == Identifier(e2)
  {
    if EventKey(e1) == EventKey(e2) {
      EventKeyRoundTrip(e1);
      EventKeyRoundTrip(e2);
    }
  }

  // ---------------------------------------------------------------- stored events

  /** The events after the cutoff, in order: `events.filter(e => time(e) > cutoff)`. */
  function Since(evs: seq<SecurityEvent>, cutoff: int): (r: seq<SecurityEvent>)
    ensures |r| <= |evs|
    ensures forall x :: x in r <==> x in evs && x.timestamp > cutoff
  {
    if |evs| == 0 then [] else (if evs[0].timestamp > cutoff then [evs[0]] else []) + Since(evs[1..], cutoff)
  }

  lemma {:induction false} SinceAppend(a: seq<SecurityEvent>, b: seq<SecurityEvent>, cutoff: int)
    ensures Since(a + b, cutoff) == Since(a, cutoff) + Since(b, cutoff)
  {
    if |a| == 0 {
      assert a + b == b;
    } else {
      assert (a + b)[1..] == a[1..] + b;
      SinceAppend(a[1..], b, cutoff);
    }
  }

  /** Filtering by an earlier cutoff first changes nothing. */
  lemma {:induction false} SinceOfSince(evs: seq<SecurityEvent>, a: int, b: int)
    requires a <= b
    ensures Since(Since(evs, a), b) == Since(evs, b)
  {
    if |evs| > 0 {
      SinceOfSince(evs[1..], a, b);
      var head := if evs[0].timestamp > a then [evs[0]] else [];
      SinceAppend(head, Since(evs[1..], a), b);
    }
  }

  /** A JavaScript `Map` from keys to event lists, with its insertion order. */
  datatype EventMap = EventMap(lists: map<string, seq<SecurityEvent>>, order: seq<string>)

  ghost predicate Distinct(s: seq<string>)
  {
    forall i, j :: 0 <= i < j < |s| ==> s[i] != s[j]
  }

  ghost predicate WellFormed(m: EventMap)
  {
    (forall k :: k in m.lists <==> k in m.order) && Distinct(m.order)
  }

  /** `events.get(key) || []`. */
  function ListOf(m: EventMap, key: string): seq<SecurityEvent>
  {
    if key in m.lists then m.lists[key] else []
  }

  /** `storeEvent`: append to the key's list, then keep that list's last day. */
  function Store(m: EventMap, e: SecurityEvent, now: int): EventMap
  {
    var key := EventKey(e);
    EventMap(m.lists[key := Since(ListOf(m, key) + [e], now - DayMs)],
             if key in m.lists then m.order else m.order + [key])
  }

  /** Storing touches the event's own key only, and that list holds just its last day. */
  lemma StoreProperties(m: EventMap, e: SecurityEvent, now: int)
    requires WellFormed(m)
    ensures var s := Store(m, e, now); var key := EventKey(e);
      WellFormed(s)
      && s.lists[key] == Since(ListOf(m, key), now - DayMs) + (if e.timestamp > now - DayMs then [e] else [])
      && (forall x :: x in s.lists[key] ==> x.timestamp > now - DayMs)
      && (forall k :: k != key ==> (k in s.lists <==> k in m.lists) && (k in m.lists ==> s.lists[k] == m.lists[k]))
      && (key in m.lists ==> s.order == m.order)
  {
    var key := EventKey(e);
    SinceAppend(ListOf(m, key), [e], now - DayMs);
    var s := Store(m, e, now);
    if key !in m.lists {
      forall i, j | 0 <= i < j < |s.order| ensures s.order[i] != s.order[j] {
        if j == |m.order| {
          assert s.order[i] == m.order[i];
        }
      }
    }
  }

  // ---------------------------------------------------------------- thresholds

  function WindowStart(t: Threshold, now: int): int
  {
    now - t.windowMinutes * MinuteMs
  }

  /** The alert one threshold raises for the key's list, if it applies and is reached. */
  function AlertFor(t: Threshold, e: SecurityEvent, list: seq<SecurityEvent>, now: int, id: string): seq<SecurityAlert>
  {
    if t.kind != e.kind then []
    else
      var recent := Since(list, WindowStart(t, now));
      if |recent| >= t.maxEvents then [SecurityAlert(id, t, recent, now, false)] else []
  }

  /** `checkThresholds` over a list of thresholds, in order. */
  function NewAlerts(ts: seq<Threshold>, e: SecurityEvent, list: seq<SecurityEvent>, now: int, id: string): seq<SecurityAlert>
  {
    if |ts| == 0 then []
    else NewAlerts(ts[..|ts| - 1], e, list, now, id) + AlertFor(ts[|ts| - 1], e, list, now, id)
  }

  lemma NewAlertsStep(ts: seq<Threshold>, i: nat, e: SecurityEvent, list: seq<SecurityEvent>, now: int, id: string)
    requires i < |ts|
    ensures NewAlerts(ts[..i + 1], e, list, now, id) == NewAlerts(ts[..i], e, list, now, id) + AlertFor(ts[i], e, list, now, id)
  {
    assert ts[..i + 1][..i] == ts[..i];
  }

  lemma {:induction false} NewAlertsOther(ts: seq<Threshold>, e: SecurityEvent, list: seq<SecurityEvent>, now: int, id: string)
    requires forall t :: t in ts ==> t.kind != e.kind
    ensures NewAlerts(ts, e, list, now, id) == []
  {
    if |ts| > 0 {
      NewAlertsOther(ts[..|ts| - 1], e, list, now, id);
    }
  }

  /** With exactly one threshold of the event's kind, only that one speaks. */
  lemma {:induction false} NewAlertsOne(ts: seq<Threshold>, i: nat, e: SecurityEvent,
                                         list: seq<SecurityEvent>, now: int, id: string)
    requires i < |ts| && ts[i].kind == e.kind
    requires forall j :: 0 <= j < |ts| && j != i ==> ts[j].kind != e.kind
    ensures NewAlerts(ts, e, list, now, id) == AlertFor(ts[i], e, list, now, id)
  {
    var init := ts[..|ts| - 1];
    if i == |ts| - 1 {
      forall t | t in init ensures t.kind != e.kind {
        var j :| 0 <= j < |init| && init[j] == t;
      }
      NewAlertsOther(init, e, list, now, id);
    } else {
      NewAlertsOne(init, i, e, list, now, id);
    }
  }

  /** No kind has two thresholds. */
  lemma ThresholdKindsDistinct()
    ensures forall i, j :: 0 <= i < j < |Thresholds| ==> Thresholds[i].kind != Thresholds[j].kind
  {
  }

  /**
   * The alerting rule: one unresolved alert, carrying the window's events, when
   * the kind has a threshold and the key holds that many events in its window;
   * none otherwise.
   */
  lemma AlertRule(e: SecurityEvent, list: seq<SecurityEvent>, now: int, id: string)
    ensures NewAlerts(Thresholds, e, list, now, id) ==
      match ThresholdOf(e.kind)
      case None => []
      case Some(t) =>
        var recent := Since(list, WindowStart(t, now));
        if |recent| >= t.maxEvents then [SecurityAlert(id, t, recent, now, false)] else []
  {
    match ThresholdOf(e.kind)
    case None =>
      NewAlertsOther(Thresholds, e, list, now, id);
    case Some(t) =>
      var i :| 0 <= i < |Thresholds| && Thresholds[i] == t;
      ThresholdKindsDistinct();
      NewAlertsOne(Thresholds, i, e, list, now, id);
  }

  /** A stored list counted over a window of at most a day: the old window's events and the new one. */
  lemma StoredWindow(list: seq<SecurityEvent>, e: SecurityEvent, now: int, windowStart: int)
    requires now - DayMs <= windowStart < e.timestamp
    ensures Since(Since(list + [e], now - DayMs), windowStart) == Since(list, windowStart) + [e]
  {
    SinceOfSince(list + [e], now - DayMs, windowStart);
    SinceAppend(list, [e], windowStart);
  }

  /**
   * While a key stays over its threshold every further event raises another
   * alert: the window's count only grows by the new event.
   */
  lemma AlertsAgainWhileOver(m: EventMap, e: SecurityEvent, now: int, id: string, t: Threshold)
    requires e.timestamp == now
    requires ThresholdOf(e.kind) == Some(t)
    requires |Since(ListOf(m, EventKey(e)), WindowStart(t, now))| + 1 >= t.maxEvents
    ensures |NewAlerts(Thresholds, e, Store(m, e, now).lists[EventKey(e)], now, id)| == 1
  {
    var key := EventKey(e);
    var stored := Store(m, e, now).lists[key];
    StoredList(m, e, now);
    ThresholdWithinDay(t);
    StoredWindow(ListOf(m, key), e, now, WindowStart(t, now));
    AlertRule(e, stored, now, id);
  }

  lemma StoredList(m: EventMap, e: SecurityEvent, now: int)
    ensures Store(m, e, now).lists[EventKey(e)] == Since(ListOf(m, EventKey(e)) + [e], now - DayMs)
  {
  }

  /** Every threshold window is between one minute and one day long. */
  lemma ThresholdWithinDay(t: Threshold)
    requires t in Thresholds
    ensures MinuteMs <= t.windowMinutes * MinuteMs <= DayMs
  {
    assert 1 <= t.windowMinutes <= 5;
  }

  /** Kinds without a threshold never alert. */
  lemma UnthresholdedNeverAlert(e: SecurityEvent, list: seq<SecurityEvent>, now: int, id: string)
    requires e.kind in {AuthSuccess, SessionCreated, SessionTerminated, SuspiciousActivity}
    ensures NewAlerts(Thresholds, e, list, now, id) == []
  {
    AlertRule(e, list, now, id);
  }

  // ---------------------------------------------------------------- alerts

  /** `alerts.filter(a => time(a.triggeredAt) > cutoff)`. */
  function AlertsSince(alerts: seq<SecurityAlert>, cutoff: int): (r: seq<SecurityAlert>)
    ensures |r| <= |alerts|
    ensures forall a :: a in r <==> a in alerts && a.triggeredAt > cutoff
  {
    if |alerts| == 0 then []
    else (if alerts[0].triggeredAt > cutoff then [alerts[0]] else []) + AlertsSince(alerts[1..], cutoff)
  }

  /** The index `alerts.find` stops at, or -1. */
  function FirstWithId(alerts: seq<SecurityAlert>, id: string): (i: int)
    ensures -1 <= i < |alerts|
    ensures i >= 0 ==> alerts[i].id == id && forall j :: 0 <= j < i ==> alerts[j].id != id
    ensures i == -1 <==> forall j :: 0 <= j < |alerts| ==> alerts[j].id != id
  {
    if |alerts| == 0 then -1
    else if alerts[0].id == id then 0
    else
      var k := FirstWithId(alerts[1..], id);
      assert forall j :: 1 <= j < |alerts| ==> alerts[j] == alerts[1..][j - 1];
      if k == -1 then -1 else k + 1
  }

  /** `resolveAlert` on the alert list. */
  function Resolve(alerts: seq<SecurityAlert>, id: string): seq<SecurityAlert>
  {
    var i := FirstWithId(alerts, id);
    if i < 0 then alerts else alerts[i := alerts[i].(resolved := true)]
  }

  /** `alerts.filter(a => !a.resolved).length`. */
  function ActiveCount(alerts: seq<SecurityAlert>): nat
  {
    if |alerts| == 0 then 0 else (if alerts[0].resolved then 0 else 1) + ActiveCount(alerts[1..])
  }

  lemma {:induction false} ActiveCountUpdate(alerts: seq<SecurityAlert>, i: nat, a: SecurityAlert)
    requires i < |alerts|
    ensures ActiveCount(alerts[i := a]) == ActiveCount(alerts) - (if alerts[i].resolved then 0 else 1) + (if a.resolved then 0 else 1)
  {
    if i > 0 {
      assert alerts[i := a][1..] == alerts[1..][i - 1 := a];
      ActiveCountUpdate(alerts[1..], i - 1, a);
    }
  }

  /**
   * Resolving marks the first alert with the id and nothing else; an unknown
   * id changes nothing; the active count drops by one when that alert was open.
   */
  lemma ResolveProperties(alerts: seq<SecurityAlert>, id: string)
    ensures var r := Resolve(alerts, id); var i := FirstWithId(alerts, id);
      |r| == |alerts|
      && (i < 0 ==> r == alerts)
      && (i >= 0 ==> r[i] == alerts[i].(resolved := true)
                     && (forall j :: 0 <= j < |r| && j != i ==> r[j] == alerts[j]))
      && ActiveCount(r) == ActiveCount(alerts) - (if i >= 0 && !alerts[i].resolved then 1 else 0)
  {
    var i := FirstWithId(alerts, id);
    if i >= 0 {
      ActiveCountUpdate(alerts, i, alerts[i].(resolved := true));
    }
  }

  /** The cutoff `new Date(now - hours * 3600000)`, in whole milliseconds. */
  function HoursAgo(now: int, hours: real): int
  {
    JsMath.Trunc(now as real - hours * HourMs as real)
  }

  // ---------------------------------------------------------------- metrics

  /** The lists of a map, concatenated in its order. */
  function AllEvents(order: seq<string>, lists: map<string, seq<SecurityEvent>>): seq<SecurityEvent>
  {
    if |order| == 0 then []
    else AllEvents(order[..|order| - 1], lists) + (if order[|order| - 1] in lists then lists[order[|order| - 1]] else [])
  }

  /** The running totals of `getSecurityMetrics`; `ipOrder` is the insertion order of `ipCounts`. */
  datatype Tally = Tally(byType: map<EventType, nat>, ipCounts: map<string, nat>, ipOrder: seq<string>)

  const NoTally: Tally := Tally(map[], map[], [])

  function CountStep(t: Tally, e: SecurityEvent): Tally
  {
    var byType := t.byType[e.kind := (if e.kind in t.byType then t.byType[e.kind] else 0) + 1];
    if Text.TruthyString(e.ip) then
      var ip := e.ip.value;
      if ip in t.ipCounts then Tally(byType, t.ipCounts[ip := t.ipCounts[ip] + 1], t.ipOrder)
      else Tally(byType, t.ipCounts[ip := 1], t.ipOrder + [ip])
    else Tally(byType, t.ipCounts, t.ipOrder)
  }

  function TallyOf(evs: seq<SecurityEvent>): Tally
  {
    if |evs| == 0 then NoTally else CountStep(TallyOf(evs[..|evs| - 1]), evs[|evs| - 1])
  }

  /** The number of events of a kind. */
  function CountKind(evs: seq<SecurityEvent>, k: EventType): nat
  {
    if |evs| == 0 then 0 else CountKind(evs[..|evs| - 1], k) + (if evs[|evs| - 1].kind == k then 1 else 0)
  }

  /** The number of events from an address. */
  function CountIp(evs: seq<SecurityEvent>, ip: string): nat
  {
    if |evs| == 0 then 0
    else CountIp(evs[..|evs| - 1], ip) + (if Text.TruthyString(evs[|evs| - 1].ip) && evs[|evs| - 1].ip.value == ip then 1 else 0)
  }

  /** The tallies count every kind and every address, and list each address once. */
  lemma {:induction false} TallyProperties(evs: seq<SecurityEvent>)
    ensures var t := TallyOf(evs);
      (forall k :: k in t.byType <==> CountKind(evs, k) > 0)
      && (forall k :: k in t.byType ==> t.byType[k] == CountKind(evs, k))
      && (forall ip :: ip in t.ipCounts <==> CountIp(evs, ip) > 0)
      && (forall ip :: ip in t.ipCounts ==> t.ipCounts[ip] == CountIp(evs, ip))
      && (forall ip :: ip in t.ipCounts <==> ip in t.ipOrder)
      && Distinct(t.ipOrder)
  {
    if |evs| > 0 {
      var init := evs[..|evs| - 1];
      TallyProperties(init);
      var p := TallyOf(init);
      var e := evs[|evs| - 1];
      if Text.TruthyString(e.ip) && e.ip.value !in p.ipCounts {
        var o := p.ipOrder + [e.ip.value];
        forall i, j | 0 <= i < j < |o| ensures o[i] != o[j] {
          if j == |p.ipOrder| {
            assert o[i] == p.ipOrder[i];
          }
        }
      }
    }
  }

  datatype IpCount = IpCount(ip: string, eventCount: nat)

  function CountKey(c: IpCount): real { c.eventCount as real }

  function IpOf(c: IpCount): string { c.ip }

  /** `Object.entries(ipCounts).map(...)`. */
  function IpEntries(t: Tally): (r: seq<IpCount>)
    ensures |r| == |t.ipOrder|
    ensures forall i :: 0 <= i < |r| ==> r[i].ip == t.ipOrder[i]
  {
    seq(|t.ipOrder|, i requires 0 <= i < |t.ipOrder| =>
      IpCount(t.ipOrder[i], if t.ipOrder[i] in t.ipCounts then t.ipCounts[t.ipOrder[i]] else 0))
  }

  /** Sorted by count, most first, and cut to ten. */
  function TopIPs(t: Tally): (top: seq<IpCount>)
    ensures |top| == if |t.ipOrder| < 10 then |t.ipOrder| else 10
  {
    Sorting.SortDescProperties(IpEntries(t), CountKey);
    Sorting.Take(Sorting.SortDesc(IpEntries(t), CountKey), 10)
  }

  /** The entries list each address once, with its true count. */
  lemma EntriesProperties(evs: seq<SecurityEvent>)
    ensures var entries := IpEntries(TallyOf(evs));
      Sorting.DistinctBy(entries, IpOf)
      && (forall c :: c in entries ==> c.eventCount == CountIp(evs, c.ip) > 0)
      && (forall ip :: CountIp(evs, ip) > 0 ==> IpCount(ip, CountIp(evs, ip)) in entries)
  {
    var t := TallyOf(evs);
    TallyProperties(evs);
    var entries := IpEntries(t);
    forall i, j | 0 <= i < j < |entries| ensures IpOf(entries[i]) != IpOf(entries[j]) {
      assert t.ipOrder[i] != t.ipOrder[j];
    }
    forall c | c in entries ensures c.eventCount == CountIp(evs, c.ip) > 0 {
      var i :| 0 <= i < |entries| && entries[i] == c;
      assert t.ipOrder[i] in t.ipCounts;
    }
    forall ip | CountIp(evs, ip) > 0 ensures IpCount(ip, CountIp(evs, ip)) in entries {
      var i :| 0 <= i < |t.ipOrder| && t.ipOrder[i] == ip;
      assert entries[i] == IpCount(ip, CountIp(evs, ip));
    }
  }

  /** At most ten addresses, most events first, each once. */
  lemma TopIPsShape(evs: seq<SecurityEvent>)
    ensures var top := TopIPs(TallyOf(evs));
      |top| <= 10 && Sorting.SortedDesc(top, CountKey) && Sorting.DistinctBy(top, IpOf)
  {
    var entries := IpEntries(TallyOf(evs));
    EntriesProperties(evs);
    Sorting.TakeSortDesc(entries, CountKey, 10);
    Sorting.SortDescDistinct(entries, CountKey, IpOf);
    var top := TopIPs(TallyOf(evs));
    assert top == Sorting.SortDesc(entries, CountKey)[..|top|];
  }

  /**
   * Each listed address carries its true count; one left out has no more
   * events than any listed, and with fewer than ten listed none is left out.
   */
  lemma TopIPsCounts(evs: seq<SecurityEvent>)
    ensures var top := TopIPs(TallyOf(evs));
      (forall c :: c in top ==> c.eventCount == CountIp(evs, c.ip) > 0)
      && (forall ip, c :: CountIp(evs, ip) > 0 && c in top && (forall d :: d in top ==> d.ip != ip) ==>
            c.eventCount >= CountIp(evs, ip))
      && (|top| < 10 ==> forall ip :: CountIp(evs, ip) > 0 ==> exists c :: c in top && c.ip == ip)
  {
    var entries := IpEntries(TallyOf(evs));
    EntriesProperties(evs);
    Sorting.TakeSortDesc(entries, CountKey, 10);
    var top := TopIPs(TallyOf(evs));
    forall ip, c | CountIp(evs, ip) > 0 && c in top && (forall d :: d in top ==> d.ip != ip)
      ensures c.eventCount >= CountIp(evs, ip)
    {
      assert IpCount(ip, CountIp(evs, ip)) !in top;
      assert CountKey(c) >= CountKey(IpCount(ip, CountIp(evs, ip)));
    }
    if |top| < 10 {
      forall ip | CountIp(evs, ip) > 0 ensures exists c :: c in top && c.ip == ip {
        assert IpCount(ip, CountIp(evs, ip)) in multiset(top);
      }
    }
  }

  datatype SecurityMetrics = SecurityMetrics(totalEvents: nat, activeAlerts: nat,
                                             eventsByType: map<EventType, nat>, topIPs: seq<IpCount>)

  /** What `getSecurityMetrics` reports for a stored state. */
  function MetricsOf(m: EventMap, alerts: seq<SecurityAlert>): SecurityMetrics
  {
    var all := AllEvents(m.order, m.lists);
    var t := TallyOf(all);
    SecurityMetrics(|all|, ActiveCount(alerts), t.byType, TopIPs(t))
  }

  // ---------------------------------------------------------------- cleanup

  /** `events.filter(key => key !== k)` on the insertion order, as `Map.delete` leaves it. */
  function RemoveKey(order: seq<string>, k: string): (r: seq<string>)
    ensures forall x :: x in r <==> x in order && x != k
  {
    if |order| == 0 then [] else (if order[0] == k then [] else [order[0]]) + RemoveKey(order[1..], k)
  }

  lemma {:induction false} RemoveKeyDistinct(order: seq<string>, k: string)
    requires Distinct(order)
    ensures Distinct(RemoveKey(order, k))
  {
    if |order| > 0 {
      RemoveKeyDistinct(order[1..], k);
      var rest := RemoveKey(order[1..], k);
      var r := RemoveKey(order, k);
      if order[0] != k {
        forall i, j | 0 <= i < j < |r| ensures r[i] != r[j] {
          if i == 0 {
            assert r[j] == rest[j - 1];
            assert order[0] !in order[1..];
          } else {
            assert r[i] == rest[i - 1] && r[j] == rest[j - 1];
          }
        }
      }
    }
  }

  /** One iteration of the clean-up loop: keep the key's last day, or delete the key. */
  function CleanStep(m: EventMap, k: string, cutoff: int): EventMap
  {
    if k !in m.lists then m
    else
      var kept := Since(m.lists[k], cutoff);
      if |kept| == 0 then EventMap(m.lists - {k}, RemoveKey(m.order, k))
      else EventMap(m.lists[k := kept], m.order)
  }

  /** The clean-up loop over the keys `ks`, in order. */
  function CleanKeys(m: EventMap, ks: seq<string>, cutoff: int): EventMap
  {
    if |ks| == 0 then m else CleanStep(CleanKeys(m, ks[..|ks| - 1], cutoff), ks[|ks| - 1], cutoff)
  }

  lemma CleanStepWellFormed(m: EventMap, k: string, cutoff: int)
    requires WellFormed(m)
    ensures WellFormed(CleanStep(m, k, cutoff))
  {
    RemoveKeyDistinct(m.order, k);
  }

  /** After cleaning the keys `ks`: those are trimmed to their last day or gone, the others untouched. */
  lemma {:induction false} CleanKeysProperties(m: EventMap, ks: seq<string>, cutoff: int)
    requires WellFormed(m) && Distinct(ks)
    ensures var c := CleanKeys(m, ks, cutoff);
      WellFormed(c)
      && (forall k :: k in ks ==> (k in c.lists <==> k in m.lists && |Since(m.lists[k], cutoff)| > 0))
      && (forall k :: k in ks && k in c.lists ==> c.lists[k] == Since(m.lists[k], cutoff))
      && (forall k :: k !in ks ==> (k in c.lists <==> k in m.lists) && (k in c.lists ==> c.lists[k] == m.lists[k]))
  {
    if |ks| > 0 {
      var init := ks[..|ks| - 1];
      var k := ks[|ks| - 1];
      assert Distinct(init);
      assert k !in init;
      CleanKeysProperties(m, init, cutoff);
      CleanStepWellFormed(CleanKeys(m, init, cutoff), k, cutoff);
      assert forall x :: x in ks ==> x in init || x == k;
    }
  }

  /**
   * `cleanup` on the events: a key stays exactly when it has events from the
   * last day, and then holds just those.
   */
  lemma CleanupProperties(m: EventMap, cutoff: int)
    requires WellFormed(m)
    ensures var c := CleanKeys(m, m.order, cutoff);
      WellFormed(c)
      && (forall k :: k in c.lists <==> k in m.lists && |Since(m.lists[k], cutoff)| > 0)
      && (forall k :: k in c.lists ==> c.lists[k] == Since(m.lists[k], cutoff))
      && (forall k, x :: k in c.lists && x in c.lists[k] ==> x.timestamp > cutoff)
  {
    CleanKeysProperties(m, m.order, cutoff);
  }

  // ---------------------------------------------------------------- the monitor

  class SecurityMonitor {
    var events: EventMap
    var alerts: seq<SecurityAlert>

    ghost predicate Valid()
      reads this
    {
      WellFormed(events)
    }

    constructor()
      ensures Valid()
      ensures events == EventMap(map[], []) && alerts == []
    {
      events := EventMap(map[], []);
      alerts := [];
    }

    /**
     * `logSecurityEvent`: stamp the event with the time, scrub it, store it
     * and check its thresholds.
     */
    method LogSecurityEvent(event: SecurityEvent, now: int, alertId: string)
      requires Valid()
      modifies this
      ensures Valid()
      ensures var e := ScrubEvent(event.(timestamp := now));
        events == Store(old(events), e, now)
        && alerts == old(alerts) + NewAlerts(Thresholds, e, events.lists[EventKey(e)], now, alertId)
    {
      var full := event.(timestamp := now);
      var scrubbed := ScrubEvent(full);
      StoreEvent(scrubbed, now);
      CheckThresholds(scrubbed, now, alertId);
    }

    method StoreEvent(e: SecurityEvent, now: int)
      requires Valid()
      modifies this
      ensures Valid()
      ensures events == Store(old(events), e, now) && alerts == old(alerts)
    {
      StoreProperties(events, e, now);
      var key := EventKey(e);
      if key !in events.lists {
        events := EventMap(events.lists[key := []], events.order + [key]);
      }
      var list := events.lists[key] + [e];
      events := events.(lists := events.lists[key := Since(list, now - DayMs)]);
    }

    method CheckThresholds(e: SecurityEvent, now: int, alertId: string)
      modifies this
      ensures events == old(events)
      ensures alerts == old(alerts) + NewAlerts(Thresholds, e, ListOf(events, EventKey(e)), now, alertId)
    {
      ghost var list := ListOf(events, EventKey(e));
      var i := 0;
      while i < |Thresholds|
        invariant 0 <= i <= |Thresholds|
        invariant events == old(events)
        invariant alerts == old(alerts) + NewAlerts(Thresholds[..i], e, list, now, alertId)
      {
        NewAlertsStep(Thresholds, i, e, list, now, alertId);
        CheckOne(Thresholds[i], e, now, alertId);
        i := i + 1;
      }
      assert Thresholds[..i] == Thresholds;
    }

    /** One threshold of the loop: alert when it applies and its window is full. */
    method CheckOne(t: Threshold, e: SecurityEvent, now: int, alertId: string)
      modifies this
      ensures events == old(events)
      ensures alerts == old(alerts) + AlertFor(t, e, ListOf(events, EventKey(e)), now, alertId)
    {
      if t.kind == e.kind {
        var list := ListOf(events, EventKey(e));
        var recent := Since(list, now - t.windowMinutes * MinuteMs);
        if |recent| >= t.maxEvents {
          TriggerAlert(t, recent, now, alertId);
        }
      }
    }

    method TriggerAlert(t: Threshold, recent: seq<SecurityEvent>, now: int, alertId: string)
      modifies this
      ensures events == old(events)
      ensures alerts == old(alerts) + [SecurityAlert(alertId, t, recent, now, false)]
    {
      alerts := alerts + [SecurityAlert(alertId, t, recent, now, false)];
    }

    /** `getRecentAlerts`, by default over the last day. */
    function GetRecentAlerts(hours: Option<real>, now: int): (r: seq<SecurityAlert>)
      reads this
      ensures forall a :: a in r <==> a in alerts && a.triggeredAt > HoursAgo(now, if hours.Some? then hours.value else 24.0)
    {
      AlertsSince(alerts, HoursAgo(now, if hours.Some? then hours.value else 24.0))
    }

    method ResolveAlert(alertId: string) returns (found: bool)
      modifies this
      ensures found <==> exists i :: 0 <= i < |old(alerts)| && old(alerts)[i].id == alertId
      ensures alerts == Resolve(old(alerts), alertId) && events == old(events)
    {
      var i := FirstWithId(alerts, alertId);
      if i >= 0 {
        alerts := alerts[i := alerts[i].(resolved := true)];
        found := true;
      } else {
        found := false;
      }
    }

    method GetSecurityMetrics() returns (r: SecurityMetrics)
      requires Valid()
      ensures r == MetricsOf(events, alerts)
    {
      var total := 0;
      var tally := NoTally;
      var i := 0;
      while i < |events.order|
        invariant 0 <= i <= |events.order|
        invariant total == |AllEvents(events.order[..i], events.lists)|
        invariant tally == TallyOf(AllEvents(events.order[..i], events.lists))
      {
        var list := events.lists[events.order[i]];
        ghost var done := AllEvents(events.order[..i], events.lists);
        total := total + |list|;
        tally := CountList(tally, done, list);
        assert events.order[..i + 1][..i] == events.order[..i];
        i := i + 1;
      }
      assert events.order[..i] == events.order;
      r := SecurityMetrics(total, ActiveCount(alerts), tally.byType, TopIPs(tally));
    }

    /** The inner loop of the metrics: count one list's events. */
    method CountList(t: Tally, ghost done: seq<SecurityEvent>, list: seq<SecurityEvent>) returns (r: Tally)
      requires t == TallyOf(done)
      ensures r == TallyOf(done + list)
    {
      r := t;
      assert done + list[..0] == done;
      var j := 0;
      while j < |list|
        invariant 0 <= j <= |list|
        invariant r == TallyOf(done + list[..j])
      {
        assert (done + list[..j + 1])[..|done + list[..j + 1]| - 1] == done + list[..j];
        r := CountStep(r, list[j]);
        j := j + 1;
      }
      assert list[..j] == list;
    }

    /** `cleanup`: events older than a day, then alerts older than a week. */
    method Cleanup(now: int)
      requires Valid()
      modifies this
      ensures Valid()
      ensures events == CleanKeys(old(events), old(events).order, now - DayMs)
      ensures alerts == AlertsSince(old(alerts), now - WeekMs)
    {
      CleanEvents(now - DayMs);
      CleanKeysProperties(old(events), old(events).order, now - DayMs);
      alerts := AlertsSince(alerts, now - WeekMs);
    }

    /** The clean-up loop over the entries; deleting the current entry does not disturb the iteration. */
    method CleanEvents(cutoff: int)
      modifies this
      ensures events == CleanKeys(old(events), old(events).order, cutoff) && alerts == old(alerts)
    {
      var keys := events.order;
      var i := 0;
      while i < |keys|
        invariant 0 <= i <= |keys|
        invariant events == CleanKeys(old(events), keys[..i], cutoff) && alerts == old(alerts)
      {
        var k := keys[i];
        assert keys[..i + 1][..i] == keys[..i];
        if k in events.lists {
          var kept := Since(events.lists[k], cutoff);
          if |kept| == 0 {
            events := EventMap(events.lists - {k}, RemoveKey(events.order, k));
          } else {
            events := events.(lists := events.lists[k := kept]);
          }
        }
        i := i + 1;
      }
      assert keys[..i] == keys;
    }
  }
}
