/**
 The fetch loop of packages/display/src/fetch-loop.ts: one request out at a time, each answer's effect on cache,
 callbacks and timer, and a conditional-request cache as sections 13.1.2 and 15.4.5 of RFC 9110 have it.

 `Loop` is everything the loop holds, with the clock and a trace of what it did. The functions on it say what each step
 comes to; the class does the steps as the program does, and is proved to come to the same.
 */
module FetchLoop {
  import opened Wrappers
  import opened Texts
  import opened Instants
  import C = Contract
  import J = Json
  import P = Parse

  const STALE_CONTENT_LIMIT := 24 * 60 * 60 * SECOND
  const REQUEST_TIMEOUT := 30 * SECOND
  const RETRY_SECONDS := 60
  const CLOCK_SKEW := 5 * 60 * SECOND

  // ---------- What is kept, asked and answered ----------

  /** A cache entry as it is read back: its content and ETag are whatever JSON is there, its time may be none. */
  datatype CacheEntry = CacheEntry(content: J.Json, etag: J.Json, fetchedAt: Option<int>)

  /** An entry that is still a document. */
  datatype Cached = Cached(content: C.ScreenContent, etag: Option<Text>, fetchedAt: int)

  datatype RetryHeader = NoHeader | InSeconds(seconds: nat) | AtDate(time: int) | Unreadable

  /**
   What `fetch` gives: a 200 with its size and the JSON of its body if it is JSON, the other answers, or a rejection.
   */
  datatype Reply =
    | Document(bytes: nat, json: Option<J.Json>, etag: Option<Text>)
    | NotModified
    | Unauthorized(deviceRealm: bool, tokenInvalid: bool)
    | NotFound
    | TooMany(header: RetryHeader)
    | OtherStatus
    | Rejected

  datatype Answer =
    | Content(content: C.ScreenContent, etag: Option<Text>)
    | Unchanged
    | Refused
    | SwitchedOff
    | SlowDown(retryAfter: int)
    | Other

  /** The caller: the time zones its runtime knows, and whether it listens for a pause. */
  datatype Caller = Caller(zones: set<Text>, hearsPause: bool)

  function Held(low: int, high: int, n: int): int {
    if n < low then low else if n > high then high else n
  }

  function CeilSeconds(ms: int): int {
    (ms + SECOND - 1) / SECOND
  }

  function RetryAfter(header: RetryHeader, now: int): int {
    match header
    case NoHeader => RETRY_SECONDS
    case InSeconds(seconds) => Held(1, RETRY_SECONDS, seconds)
    case AtDate(time) => Held(1, RETRY_SECONDS, CeilSeconds(time - now))
    case Unreadable => RETRY_SECONDS
  }

  /** `read`. */
  function Read(reply: Reply, now: int, caller: Caller): Answer {
    match reply
    case Document(bytes, json, etag) =>
      if bytes > C.DOCUMENT_BYTES || json.None? then Other
      else
        var content := P.DocumentOf(json.value, caller.zones);
        if content.Ok? then Content(content.value, etag) else Other
    case NotModified => Unchanged
    case Unauthorized(deviceRealm, tokenInvalid) => if deviceRealm && tokenInvalid then Refused else Other
    case NotFound => SwitchedOff
    case TooMany(header) => SlowDown(RetryAfter(header, now))
    case OtherStatus => Other
    case Rejected => Other
  }

  // ---------- The state ----------

  datatype Event =
    | Asked(ifNoneMatch: Option<Text>)
    | Wrote(entry: CacheEntry)
    | Cleared
    | Shown(content: C.ScreenContent, fetchedAt: int, stale: bool)
    | Revoked
    | Paused
    | Disconnected(lastFetchedAt: Option<int>)
    | Armed(ms: int)

  datatype Request = Request(id: nat, cached: Option<Cached>, ifNoneMatch: Option<Text>, sentAt: int)

  datatype OnScreen = OnScreen(content: C.ScreenContent, fetchedAt: int)

  /** `open` has the requests sent whose promise has not settled. */
  datatype Loop = Loop(now: int, stopped: bool, timer: Option<int>, inFlight: Option<Request>, unconditional: bool,
                       lastFetchedAt: Option<int>,
                       cache: Option<CacheEntry>, sent: nat, open: set<nat>, trace: seq<Event>,
                       screen: Option<OnScreen>)

  function ScreenAfter(screen: Option<OnScreen>, e: Event): Option<OnScreen> {
    match e
    case Shown(content, fetchedAt, _) => Some(OnScreen(content, fetchedAt))
    case Revoked => None
    case Paused => None
    case Disconnected(_) => None
    case _ => screen
  }

  function Emit(s: Loop, e: Event): Loop {
    s.(trace := s.trace + [e], screen := ScreenAfter(s.screen, e))
  }

  function EtagOf(etag: J.Json): Option<Text> {
    if etag.Str? then Some(etag.t) else None
  }

  /** A cache entry parsed anew: nothing unless its time is one and its content is a document. */
  function Reading(entry: CacheEntry, caller: Caller): Option<Cached> {
    if entry.fetchedAt.None? then None
    else
      var content := P.DocumentOf(entry.content, caller.zones);
      if content.Ok? then Some(Cached(content.value, EtagOf(entry.etag), entry.fetchedAt.value)) else None
  }

  function CacheRead(s: Loop, caller: Caller): Option<Cached> {
    if s.cache.Some? then Reading(s.cache.value, caller) else None
  }

  function ClearCache(s: Loop): Loop {
    Emit(s.(cache := None), Cleared)
  }

  function WriteCache(s: Loop, entry: CacheEntry): Loop {
    Emit(s.(cache := Some(entry)), Wrote(entry))
  }

  /** What `readCache` leaves: an entry that is no document is cleared. */
  function AfterRead(s: Loop, caller: Caller): Loop {
    if s.cache.Some? && CacheRead(s, caller).None? then ClearCache(s) else s
  }

  predicate Fresh(now: int, fetchedAt: int) {
    -CLOCK_SKEW < now - fetchedAt < STALE_CONTENT_LIMIT
  }

  function Stop(s: Loop): Loop {
    s.(stopped := true, timer := None, inFlight := None)
  }

  function Revoke(s: Loop): Loop {
    Emit(ClearCache(Stop(s)), Revoked)
  }

  function Next(s: Loop, seconds: int): Loop {
    if s.stopped then s else Emit(s.(timer := Some(s.now + seconds * SECOND)), Armed(seconds * SECOND))
  }

  function Remember(s: Loop, fetchedAt: int): Loop {
    s.(lastFetchedAt := Some(if s.lastFetchedAt.Some? && s.lastFetchedAt.value > fetchedAt then s.lastFetchedAt.value
                             else fetchedAt))
  }

  /** `request`, up to where it waits for the answer. */
  function Ask(s: Loop, token: Option<Text>, caller: Caller): Loop {
    if s.stopped || s.inFlight.Some? then s
    else if token.None? || token.value == [] then Revoke(s)
    else
      var cached := CacheRead(s, caller);
      var ifNoneMatch := if cached.Some? && !s.unconditional then cached.value.etag else None;
      var t := AfterRead(s, caller);
      Emit(t.(inFlight := Some(Request(s.sent, cached, ifNoneMatch, s.now)), sent := s.sent + 1,
              open := s.open + {s.sent}),
           Asked(ifNoneMatch))
  }

  function RefreshNow(s: Loop, token: Option<Text>, caller: Caller): Loop {
    if s.stopped || s.inFlight.Some? then s else Ask(s.(timer := None), token, caller)
  }

  /** What a callback may do before it returns. */
  datatype Call = CallRefreshNow(token: Option<Text>) | CallStop

  function React(s: Loop, calls: seq<Call>, caller: Caller): Loop {
    if calls == [] then s
    else
      var before := React(s, calls[..|calls| - 1], caller);
      match calls[|calls| - 1]
      case CallRefreshNow(token) => RefreshNow(before, token, caller)
      case CallStop => Stop(before)
  }

  function Unreachable(s: Loop, calls: seq<Call>, caller: Caller): Loop {
    var cached := CacheRead(s, caller);
    var t := if cached.Some? then Remember(AfterRead(s, caller), cached.value.fetchedAt) else AfterRead(s, caller);
    var told := if cached.Some? && Fresh(s.now, cached.value.fetchedAt) then
                  Emit(t, Shown(cached.value.content, cached.value.fetchedAt, true))
                else Emit(ClearCache(t), Disconnected(t.lastFetchedAt));
    Next(React(told, calls, caller), RETRY_SECONDS)
  }

  function ShowFresh(s: Loop, content: C.ScreenContent, calls: seq<Call>, caller: Caller): Loop {
    Next(React(Emit(Remember(s, s.now), Shown(content, s.now, false)), calls, caller),
         Held(C.REFRESH_SECONDS_MIN, C.REFRESH_SECONDS_MAX, content.refreshSeconds))
  }

  function EntryOf(content: C.ScreenContent, etag: Option<Text>, fetchedAt: int): CacheEntry {
    CacheEntry(P.DocumentJson(content), P.OptionalText(etag), Some(fetchedAt))
  }

  function Handle(s: Loop, answer: Answer, cached: Option<Cached>, calls: seq<Call>, caller: Caller): Loop {
    match answer
    case Content(content, etag) => ShowFresh(WriteCache(s.(unconditional := false), EntryOf(content, etag, s.now)),
                                             content, calls, caller)
    case Unchanged =>
      if cached.None? then Unreachable(s.(unconditional := true), calls, caller)
      else ShowFresh(WriteCache(s, EntryOf(cached.value.content, cached.value.etag, s.now)), cached.value.content,
                     calls, caller)
    case Refused => Revoke(s)
    case SwitchedOff =>
      Next(React(Emit(ClearCache(s), if caller.hearsPause then Paused else Disconnected(None)), calls, caller),
           RETRY_SECONDS)
    case SlowDown(retryAfter) =>
      var current := CacheRead(s, caller);
      if current.Some? && !Fresh(s.now, current.value.fetchedAt) then Unreachable(s, calls, caller)
      else Next(AfterRead(s, caller), retryAfter)
    case Other => Unreachable(s, calls, caller)
  }

  /** The promise of a request settles; what is left of `request` runs. */
  function Settle(s: Loop, id: nat, reply: Reply, headersAt: int, calls: seq<Call>, caller: Caller): Loop {
    var t := s.(open := s.open - {id});
    if s.stopped || s.inFlight.None? || s.inFlight.value.id != id then t
    else Handle(t.(inFlight := None), Read(reply, headersAt, caller), s.inFlight.value.cached, calls, caller)
  }

  function TimerFires(s: Loop, token: Option<Text>, caller: Caller): Loop {
    Ask(s.(timer := None), token, caller)
  }

  /** The loop when it is started. */
  function Start(now: int, cache: Option<CacheEntry>, token: Option<Text>, caller: Caller): Loop {
    var s := Loop(now, false, None, None, false, None, cache, 0, {}, [], None);
    var cached := CacheRead(s, caller);
    var t := AfterRead(s, caller);
    var told := if cached.None? then t
                else if Fresh(now, cached.value.fetchedAt) then
                  Emit(Remember(t, cached.value.fetchedAt), Shown(cached.value.content, cached.value.fetchedAt, true))
                else ClearCache(Remember(t, cached.value.fetchedAt));
    Ask(told, token, caller)
  }

  // ---------- Runs ----------

  /** A server's document at an answer, its size and its strong ETag. */
  datatype Server = Server(document: J.Json, bytes: nat, etag: Option<Text>)

  datatype Step =
    | TimerStep(at: int, token: Option<Text>)
    | SettleStep(at: int, headersAt: int, id: nat, reply: Reply, calls: seq<Call>, server: Server)
    | RefreshStep(at: int, token: Option<Text>)
    | StopStep(at: int)
    | WaitStep(at: int)

  function Do(s: Loop, step: Step, caller: Caller): Loop {
    var t := s.(now := step.at);
    match step
    case TimerStep(_, token) => TimerFires(t, token, caller)
    case SettleStep(_, headersAt, id, reply, calls, _) => Settle(t, id, reply, headersAt, calls, caller)
    case RefreshStep(_, token) => RefreshNow(t, token, caller)
    case StopStep(_) => Stop(t)
    case WaitStep(_) => t
  }

  /**
   The clock never goes back, no timer is late, and a request is aborted, and so settles, when it has taken 30 seconds.
   */
  predicate Possible(s: Loop, step: Step) {
    && s.now <= step.at
    && (s.timer.Some? ==> step.at <= s.timer.value)
    && (s.inFlight.Some? ==> step.at <= s.inFlight.value.sentAt + REQUEST_TIMEOUT)
    && (step.TimerStep? ==> s.timer == Some(step.at))
    && (step.SettleStep? ==> step.id in s.open)
  }

  function Run(s: Loop, steps: seq<Step>, caller: Caller): Loop {
    if steps == [] then s else Do(Run(s, steps[..|steps| - 1], caller), steps[|steps| - 1], caller)
  }

  predicate PossibleRun(s: Loop, steps: seq<Step>, caller: Caller) {
    steps == []
    || (PossibleRun(s, steps[..|steps| - 1], caller)
        && Possible(Run(s, steps[..|steps| - 1], caller), steps[|steps| - 1]))
  }

  // ---------- The invariant ----------

  ghost predicate OneInFlight(s: Loop) {
    && |s.open| <= 1
    && (forall id :: id in s.open ==> id < s.sent)
    && (s.inFlight.Some? ==> s.open == {s.inFlight.value.id})
    && (!s.stopped && s.inFlight.None? ==> s.open == {})
    && (s.stopped ==> s.timer.None? && s.inFlight.None?)
  }

  ghost predicate RevokedIsLast(s: Loop) {
    forall i :: 0 <= i < |s.trace| && s.trace[i].Revoked? ==> i == |s.trace| - 1 && s.stopped && s.cache.None?
  }

  ghost predicate DelaysHeld(s: Loop) {
    forall i :: 0 <= i < |s.trace| && s.trace[i].Armed? ==> SECOND <= s.trace[i].ms <= RETRY_SECONDS * SECOND
  }

  /** Content on screen is what the cache still holds. */
  ghost predicate ScreenCached(s: Loop, caller: Caller) {
    s.screen.Some? && !s.stopped ==>
      CacheRead(s, caller).Some? && CacheRead(s, caller).value.content == s.screen.value.content
      && CacheRead(s, caller).value.fetchedAt == s.screen.value.fetchedAt
  }

  /** What is on screen is younger than a day, and `ms` more, at `time`. */
  predicate YoungAt(s: Loop, time: int, ms: int) {
    s.screen.Some? ==> time - s.screen.value.fetchedAt < STALE_CONTENT_LIMIT + ms
  }

  ghost predicate Timely(s: Loop) {
    && (s.timer.Some?
        ==> s.now <= s.timer.value <= s.now + RETRY_SECONDS * SECOND
            && YoungAt(s, s.timer.value, RETRY_SECONDS * SECOND))
    && (s.inFlight.Some? ==> s.inFlight.value.sentAt <= s.now <= s.inFlight.value.sentAt + REQUEST_TIMEOUT
                             && YoungAt(s, s.inFlight.value.sentAt, RETRY_SECONDS * SECOND))
  }

  /** What a request saw in the cache is a document within its limits. */
  ghost predicate SawDocument(cached: Option<Cached>, caller: Caller) {
    cached.Some? ==> C.ValidDocument(cached.value.content, caller.zones)
  }

  ghost predicate Core(s: Loop, caller: Caller) {
    && OneInFlight(s) && RevokedIsLast(s) && DelaysHeld(s) && ScreenCached(s, caller) && Timely(s)
    && (s.inFlight.Some? ==> SawDocument(s.inFlight.value.cached, caller))
  }

  ghost predicate Alive(s: Loop) {
    !s.stopped ==> s.timer.Some? || s.inFlight.Some?
  }

  ghost predicate Inv(s: Loop, caller: Caller) {
    Core(s, caller) && Alive(s)
  }

  /** A state in the middle of a step: nothing asked yet, and what is on screen younger than a day. */
  ghost predicate Ready(s: Loop, caller: Caller) {
    Core(s, caller) && (!s.stopped ==> YoungAt(s, s.now, 0))
  }

  lemma ReadIsDocument(s: Loop, caller: Caller)
    ensures SawDocument(CacheRead(s, caller), caller)
  {
    hide P.DocumentOf, C.ValidDocument;
    if s.cache.Some? {
      P.DocumentSound(s.cache.value.content, caller.zones);
    }
  }

  lemma EmitKeeps(s: Loop, e: Event)
    requires RevokedIsLast(s) && DelaysHeld(s) && !s.stopped
    requires !e.Revoked? && (e.Armed? ==> SECOND <= e.ms <= RETRY_SECONDS * SECOND)
    ensures RevokedIsLast(Emit(s, e)) && DelaysHeld(Emit(s, e))
  {
  }

  lemma StopKeeps(s: Loop, caller: Caller)
    requires Core(s, caller)
    ensures Core(Stop(s), caller)
  {
  }

  lemma RevokeKeeps(s: Loop, caller: Caller)
    requires Core(s, caller) && !s.stopped
    ensures Core(Revoke(s), caller) && Revoke(s).stopped
  {
    var t := Emit(ClearCache(Stop(s)), Revoked);
    assert forall i :: 0 <= i < |s.trace| ==> t.trace[i] == s.trace[i];
  }

  lemma AfterReadKeeps(s: Loop, caller: Caller)
    requires Core(s, caller) && !s.stopped
    ensures Core(AfterRead(s, caller), caller)
    ensures CacheRead(AfterRead(s, caller), caller) == CacheRead(s, caller)
    ensures AfterRead(s, caller).screen == s.screen
  {
    hide Reading;
    if s.cache.Some? && CacheRead(s, caller).None? {
      EmitKeeps(s.(cache := None), Cleared);
    }
  }

  lemma AskKeeps(s: Loop, token: Option<Text>, caller: Caller)
    requires Core(s, caller) && s.timer.None? && (!s.stopped ==> YoungAt(s, s.now, RETRY_SECONDS * SECOND))
    ensures Core(Ask(s, token, caller), caller)
    ensures Alive(Ask(s, token, caller))
    ensures !Ask(s, token, caller).stopped ==> !s.stopped && Ask(s, token, caller).screen == s.screen
    ensures Ask(s, token, caller).now == s.now && Ask(s, token, caller).timer.None?
  {
    hide Reading;
    if s.stopped || s.inFlight.Some? {
    } else if token.None? || token.value == [] {
      RevokeKeeps(s, caller);
    } else {
      AfterReadKeeps(s, caller);
      ReadIsDocument(s, caller);
      AskSends(s, token, caller);
    }
  }

  lemma AskSends(s: Loop, token: Option<Text>, caller: Caller)
    requires Core(AfterRead(s, caller), caller) && SawDocument(CacheRead(s, caller), caller)
             && AfterRead(s, caller).screen == s.screen
    requires !s.stopped && s.inFlight.None? && s.timer.None? && token.Some? && token.value != []
             && YoungAt(s, s.now, RETRY_SECONDS * SECOND)
    requires CacheRead(AfterRead(s, caller), caller) == CacheRead(s, caller)
    ensures Core(Ask(s, token, caller), caller) && !Ask(s, token, caller).stopped
            && Ask(s, token, caller).inFlight.Some?
    ensures Ask(s, token, caller).screen == s.screen && Ask(s, token, caller).now == s.now
            && Ask(s, token, caller).timer.None?
  {
    hide SawDocument, RevokedIsLast, DelaysHeld, Reading;
    var t := AfterRead(s, caller);
    var r := Ask(s, token, caller);
    EmitOn(t, t.(inFlight := r.inFlight, sent := r.sent, open := r.open), Asked(r.inFlight.value.ifNoneMatch));
    assert r.open == {s.sent};
  }

  lemma EmitOn(s: Loop, t: Loop, e: Event)
    requires RevokedIsLast(s) && DelaysHeld(s) && !s.stopped && !t.stopped && t.trace == s.trace
    requires !e.Revoked? && !e.Armed?
    ensures RevokedIsLast(Emit(t, e)) && DelaysHeld(Emit(t, e))
  {
    EmitKeeps(t, e);
  }

  lemma RefreshKeeps(s: Loop, token: Option<Text>, caller: Caller)
    requires Core(s, caller) && (!s.stopped ==> YoungAt(s, s.now, RETRY_SECONDS * SECOND))
    ensures Core(RefreshNow(s, token, caller), caller)
    ensures Alive(s) ==> Alive(RefreshNow(s, token, caller))
    ensures !RefreshNow(s, token, caller).stopped ==> !s.stopped && RefreshNow(s, token, caller).screen == s.screen
    ensures RefreshNow(s, token, caller).now == s.now
  {
    hide Ask, Reading;
    if !s.stopped && s.inFlight.None? {
      assert Core(s.(timer := None), caller);
      AskKeeps(s.(timer := None), token, caller);
    }
  }

  lemma {:induction false} ReactKeeps(s: Loop, calls: seq<Call>, caller: Caller)
    requires Ready(s, caller)
    ensures Ready(React(s, calls, caller), caller) && React(s, calls, caller).now == s.now
    ensures !React(s, calls, caller).stopped ==> !s.stopped && React(s, calls, caller).screen == s.screen
  {
    hide RefreshNow, Core;
    if calls != [] {
      var before := React(s, calls[..|calls| - 1], caller);
      ReactKeeps(s, calls[..|calls| - 1], caller);
      match calls[|calls| - 1] {
        case CallRefreshNow(token) => RefreshKeeps(before, token, caller);
        case CallStop => StopKeeps(before, caller);
      }
    }
  }

  lemma NextKeeps(s: Loop, seconds: int, caller: Caller)
    requires Ready(s, caller) && 1 <= seconds <= RETRY_SECONDS
    ensures Inv(Next(s, seconds), caller)
    ensures Next(s, seconds).screen == s.screen && Next(s, seconds).stopped == s.stopped
  {
    hide Reading;
    if !s.stopped {
      EmitKeeps(s.(timer := Some(s.now + seconds * SECOND)), Armed(seconds * SECOND));
    }
  }

  /** Where a step stands when its request has settled: nothing in flight, nothing stopped. */
  ghost predicate Settling(s: Loop, caller: Caller) {
    Core(s, caller) && !s.stopped && s.inFlight.None?
  }

  /** The cache may be cleared or written when nothing on screen is said to be held by it. */
  ghost predicate BareCore(s: Loop) {
    && OneInFlight(s) && RevokedIsLast(s) && DelaysHeld(s) && !s.stopped && s.inFlight.None?
    && (s.timer.Some? ==> s.now <= s.timer.value <= s.now + RETRY_SECONDS * SECOND)
  }

  lemma TellBare(s: Loop, e: Event, caller: Caller)
    requires BareCore(s)
    requires e.Shown? || e.Paused? || e.Disconnected?
    requires e.Shown? ==> CacheRead(s, caller).Some? && CacheRead(s, caller).value.content == e.content
                          && CacheRead(s, caller).value.fetchedAt == e.fetchedAt
                          && s.now - e.fetchedAt < STALE_CONTENT_LIMIT
    ensures Ready(Emit(s, e), caller)
  {
    hide Reading;
    EmitKeeps(s, e);
  }

  lemma UnreachableKeeps(s: Loop, calls: seq<Call>, caller: Caller)
    requires BareCore(s)
    ensures Inv(Unreachable(s, calls, caller), caller)
  {
    hide Reading, React, Next, Inv, Core, Ready;
    var cached := CacheRead(s, caller);
    var t := if cached.Some? then Remember(AfterRead(s, caller), cached.value.fetchedAt) else AfterRead(s, caller);
    if s.cache.Some? && cached.None? {
      EmitKeeps(s.(cache := None), Cleared);
    }
    assert BareCore(t) && CacheRead(t, caller) == cached;
    var told;
    if cached.Some? && Fresh(s.now, cached.value.fetchedAt) {
      told := Emit(t, Shown(cached.value.content, cached.value.fetchedAt, true));
      TellBare(t, Shown(cached.value.content, cached.value.fetchedAt, true), caller);
    } else {
      EmitKeeps(t.(cache := None), Cleared);
      told := Emit(ClearCache(t), Disconnected(t.lastFetchedAt));
      TellBare(ClearCache(t), Disconnected(t.lastFetchedAt), caller);
    }
    ReactKeeps(told, calls, caller);
    NextKeeps(React(told, calls, caller), RETRY_SECONDS, caller);
  }

  /** What was written is read back as it is. */
  lemma WrittenIsRead(content: C.ScreenContent, etag: Option<Text>, fetchedAt: int, caller: Caller)
    requires C.ValidDocument(content, caller.zones)
    ensures Reading(EntryOf(content, etag, fetchedAt), caller) == Some(Cached(content, etag, fetchedAt))
  {
    hide P.DocumentOf, P.DocumentJson, C.ValidDocument;
    P.ReadBackIff(content, caller.zones);
  }

  lemma ShowFreshKeeps(s: Loop, content: C.ScreenContent, etag: Option<Text>, calls: seq<Call>, caller: Caller)
    requires BareCore(s) && C.ValidDocument(content, caller.zones)
    ensures Inv(ShowFresh(WriteCache(s, EntryOf(content, etag, s.now)), content, calls, caller), caller)
  {
    hide Reading, EntryOf, React, Next, Inv, Core, Ready, C.ValidDocument;
    WrittenIsRead(content, etag, s.now, caller);
    var entry := EntryOf(content, etag, s.now);
    EmitKeeps(s.(cache := Some(entry)), Wrote(entry));
    var t := Remember(WriteCache(s, entry), s.now);
    assert BareCore(t) && CacheRead(t, caller) == Reading(entry, caller);
    TellBare(t, Shown(content, s.now, false), caller);
    var told := Emit(t, Shown(content, s.now, false));
    ReactKeeps(told, calls, caller);
    NextKeeps(React(told, calls, caller), Held(C.REFRESH_SECONDS_MIN, C.REFRESH_SECONDS_MAX, content.refreshSeconds),
              caller);
  }

  lemma AnswerShape(reply: Reply, now: int, caller: Caller)
    ensures Read(reply, now, caller).Content? ==> C.ValidDocument(Read(reply, now, caller).content, caller.zones)
    ensures Read(reply, now, caller).SlowDown? ==> 1 <= Read(reply, now, caller).retryAfter <= RETRY_SECONDS
  {
    hide P.DocumentOf, C.ValidDocument;
    if reply.Document? && reply.json.Some? {
      P.DocumentSound(reply.json.value, caller.zones);
    }
  }

  lemma HandleKeeps(s: Loop, answer: Answer, cached: Option<Cached>, calls: seq<Call>, caller: Caller)
    requires Settling(s, caller) && SawDocument(cached, caller)
    requires answer.Content? ==> C.ValidDocument(answer.content, caller.zones)
    requires answer.SlowDown? ==> 1 <= answer.retryAfter <= RETRY_SECONDS
    ensures Inv(Handle(s, answer, cached, calls, caller), caller)
  {
    hide Reading, EntryOf, React, Next, Unreachable, ShowFresh, C.ValidDocument, CacheRead;
    match answer {
      case Content(content, etag) => ShowFreshKeeps(s.(unconditional := false), content, etag, calls, caller);
      case Unchanged =>
        if cached.None? {
          UnreachableKeeps(s.(unconditional := true), calls, caller);
        } else {
          ShowFreshKeeps(s, cached.value.content, cached.value.etag, calls, caller);
        }
      case Refused => RevokeKeeps(s, caller);
      case SwitchedOff =>
        EmitKeeps(s.(cache := None), Cleared);
        var e := if caller.hearsPause then Paused else Disconnected(None);
        TellBare(ClearCache(s), e, caller);
        ReactKeeps(Emit(ClearCache(s), e), calls, caller);
        NextKeeps(React(Emit(ClearCache(s), e), calls, caller), RETRY_SECONDS, caller);
      case SlowDown(retryAfter) =>
        var current := CacheRead(s, caller);
        if current.Some? && !Fresh(s.now, current.value.fetchedAt) {
          UnreachableKeeps(s, calls, caller);
        } else {
          AfterReadKeeps(s, caller);
          NextKeeps(AfterRead(s, caller), retryAfter, caller);
        }
      case Other => UnreachableKeeps(s, calls, caller);
    }
  }

  // ---------- Every run keeps it ----------

  lemma SettleKeeps(s: Loop, id: nat, reply: Reply, headersAt: int, calls: seq<Call>, caller: Caller)
    requires Inv(s, caller) && id in s.open
    ensures Inv(Settle(s, id, reply, headersAt, calls, caller), caller)
  {
    hide Reading, Handle, Read, SawDocument, C.ValidDocument;
    var t := s.(open := s.open - {id});
    if s.stopped || s.inFlight.None? || s.inFlight.value.id != id {
      assert |t.open| <= |s.open|;
    } else {
      AnswerShape(reply, headersAt, caller);
      assert t.open == {};
      HandleKeeps(t.(inFlight := None), Read(reply, headersAt, caller), s.inFlight.value.cached, calls, caller);
    }
  }

  /** Time passes no further than a timer or a request's timeout allows. */
  lemma WaitKeeps(s: Loop, at: int, caller: Caller)
    requires Inv(s, caller) && Possible(s, WaitStep(at))
    ensures Inv(s.(now := at), caller)
  {
    hide Reading, SawDocument;
  }

  /** No step breaks the invariant, whatever the answer, and whatever the callbacks do before they return. */
  lemma StepKeeps(s: Loop, step: Step, caller: Caller)
    requires Inv(s, caller) && Possible(s, step)
    ensures Inv(Do(s, step, caller), caller)
  {
    hide Core, Ask, Settle, Reading;
    WaitKeeps(s, step.at, caller);
    var t := s.(now := step.at);
    match step {
      case TimerStep(_, token) => TimerKeeps(t, token, caller);
      case SettleStep(_, headersAt, id, reply, calls, _) => SettleKeeps(t, id, reply, headersAt, calls, caller);
      case RefreshStep(_, token) =>
        if !t.stopped && t.inFlight.None? {
          YoungNow(t, caller);
          RefreshKeeps(t, token, caller);
        }
      case StopStep(_) => StopKeeps(t, caller);
      case WaitStep(_) =>
    }
  }

  lemma YoungNow(s: Loop, caller: Caller)
    requires Inv(s, caller)
    ensures !s.stopped && s.inFlight.None? ==> YoungAt(s, s.now, RETRY_SECONDS * SECOND)
  {
  }

  lemma TimerKeeps(s: Loop, token: Option<Text>, caller: Caller)
    requires Inv(s, caller) && s.timer == Some(s.now)
    ensures Inv(TimerFires(s, token, caller), caller)
  {
    hide Reading, Ask, SawDocument;
    AskKeeps(s.(timer := None), token, caller);
  }

  /** The loop starts in the invariant, whatever the cache holds. */
  lemma StartKeeps(now: int, cache: Option<CacheEntry>, token: Option<Text>, caller: Caller)
    ensures Inv(Start(now, cache, token, caller), caller)
  {
    hide Reading, Ask, SawDocument;
    var s := Loop(now, false, None, None, false, None, cache, 0, {}, [], None);
    var cached := CacheRead(s, caller);
    AfterReadKeeps(s, caller);
    var t := AfterRead(s, caller);
    if cached.None? {
      AskKeeps(t, token, caller);
    } else if Fresh(now, cached.value.fetchedAt) {
      var u := Remember(t, cached.value.fetchedAt);
      TellBare(u, Shown(cached.value.content, cached.value.fetchedAt, true), caller);
      AskKeeps(Emit(u, Shown(cached.value.content, cached.value.fetchedAt, true)), token, caller);
    } else {
      var u := Remember(t, cached.value.fetchedAt);
      EmitKeeps(u.(cache := None), Cleared);
      AskKeeps(ClearCache(u), token, caller);
    }
  }

  lemma {:induction false} RunKeeps(s: Loop, steps: seq<Step>, caller: Caller)
    requires Inv(s, caller) && PossibleRun(s, steps, caller)
    ensures Inv(Run(s, steps, caller), caller)
  {
    hide Inv, Do, Possible;
    if steps != [] {
      RunKeeps(s, steps[..|steps| - 1], caller);
      StepKeeps(Run(s, steps[..|steps| - 1], caller), steps[|steps| - 1], caller);
    }
  }

  /**
   Over every run: at most one request is out, a loop that is not stopped has a timer or a request in flight, and every
   delay it arms is 1 to 60 seconds.
   */
  lemma NeverDiesNeverDoubles(now: int, cache: Option<CacheEntry>, token: Option<Text>, steps: seq<Step>,
                              caller: Caller)
    requires PossibleRun(Start(now, cache, token, caller), steps, caller)
    ensures var r := Run(Start(now, cache, token, caller), steps, caller);
            && |r.open| <= 1
            && (!r.stopped ==> r.timer.Some? || r.inFlight.Some?)
            && (r.stopped ==> r.timer.None? && r.inFlight.None?)
            && forall i :: 0 <= i < |r.trace| && r.trace[i].Armed? ==> SECOND <= r.trace[i].ms <= RETRY_SECONDS * SECOND
  {
    hide Start, Run, PossibleRun, CacheRead;
    StartKeeps(now, cache, token, caller);
    RunKeeps(Start(now, cache, token, caller), steps, caller);
  }

  /**
   Over every run, whatever sequence of answers arrives: what is on screen while the loop runs is younger than a day and
   a minute and a half, and the cache still holds it.
   */
  lemma NeverStaler(now: int, cache: Option<CacheEntry>, token: Option<Text>, steps: seq<Step>, caller: Caller)
    requires PossibleRun(Start(now, cache, token, caller), steps, caller)
    ensures var r := Run(Start(now, cache, token, caller), steps, caller);
            !r.stopped && r.screen.Some? ==>
              && r.now - r.screen.value.fetchedAt < STALE_CONTENT_LIMIT + RETRY_SECONDS * SECOND + REQUEST_TIMEOUT
              && CacheRead(r, caller).Some? && CacheRead(r, caller).value.fetchedAt == r.screen.value.fetchedAt
              && CacheRead(r, caller).value.content == r.screen.value.content
  {
    hide Start, Run, PossibleRun, CacheRead;
    StartKeeps(now, cache, token, caller);
    RunKeeps(Start(now, cache, token, caller), steps, caller);
  }

  /** Once stopped, no step asks, writes, clears, or calls back. */
  lemma StoppedStays(s: Loop, step: Step, caller: Caller)
    requires s.stopped
    ensures var r := Do(s, step, caller);
            r.stopped && r.trace == s.trace && r.cache == s.cache && r.screen == s.screen && r.sent == s.sent
  {
    hide Handle, Read, Reading;
  }

  lemma {:induction false} StoppedForever(s: Loop, steps: seq<Step>, caller: Caller)
    requires s.stopped
    ensures Run(s, steps, caller).stopped && Run(s, steps, caller).trace == s.trace
            && Run(s, steps, caller).cache == s.cache
  {
    hide Do;
    if steps != [] {
      StoppedForever(s, steps[..|steps| - 1], caller);
      StoppedStays(Run(s, steps[..|steps| - 1], caller), steps[|steps| - 1], caller);
    }
  }

  /**
   Over every run a revocation is told at most once, is the last thing the loop does, and leaves nothing in the cache.
   */
  lemma RevokedOnceAndLast(now: int, cache: Option<CacheEntry>, token: Option<Text>, steps: seq<Step>, more: seq<Step>,
                           caller: Caller)
    requires PossibleRun(Start(now, cache, token, caller), steps, caller)
    ensures var r := Run(Start(now, cache, token, caller), steps, caller);
            (exists i :: 0 <= i < |r.trace| && r.trace[i].Revoked?) ==>
              && r.stopped && r.cache.None?
              && (forall i :: 0 <= i < |r.trace| && r.trace[i].Revoked? ==> i == |r.trace| - 1)
              && Run(r, more, caller).trace == r.trace && Run(r, more, caller).cache.None?
  {
    hide Start, Run, PossibleRun, CacheRead;
    StartKeeps(now, cache, token, caller);
    RunKeeps(Start(now, cache, token, caller), steps, caller);
    var r := Run(Start(now, cache, token, caller), steps, caller);
    if r.stopped {
      StoppedForever(r, more, caller);
    }
  }

  // ---------- The conditional cache refines plain fetching ----------

  /** `documentOf` is the document each strong ETag of the server names. */
  type Documents = Text -> J.Json

  ghost predicate Paired(documentOf: Documents, cached: Option<Cached>, caller: Caller) {
    cached.Some? && cached.value.etag.Some?
    ==> P.DocumentOf(documentOf(cached.value.etag.value), caller.zones) == Ok(cached.value.content)
  }

  /** The content cached is the parse of the document its ETag names, also in what a request in flight saw of it. */
  ghost predicate EtagSound(s: Loop, documentOf: Documents, caller: Caller) {
    && Paired(documentOf, CacheRead(s, caller), caller)
    && (s.inFlight.Some? ==>
          && Paired(documentOf, s.inFlight.value.cached, caller)
          && (s.inFlight.value.ifNoneMatch.Some? ==>
                s.inFlight.value.cached.Some? && s.inFlight.value.cached.value.etag == s.inFlight.value.ifNoneMatch
                && !s.unconditional))
  }

  /**
   The server: an ETag names one document; a 200 with JSON within the size the contract allows carries the document and
   its ETag; and a 304 comes only when `If-None-Match` is the document's ETag. A 200 with anything else may come at any
   time.
   */
  ghost predicate Honest(s: Loop, step: Step, documentOf: Documents) {
    step.SettleStep? ==>
      && step.server.bytes <= C.DOCUMENT_BYTES
      && (step.server.etag.Some? ==> documentOf(step.server.etag.value) == step.server.document)
      && (step.reply.Document? && step.reply.json.Some? && step.reply.bytes <= C.DOCUMENT_BYTES
          ==> step.reply == PlainReply(step.server))
      && (step.reply.NotModified? && s.inFlight.Some? && s.inFlight.value.id == step.id ==>
            s.inFlight.value.ifNoneMatch.Some? && s.inFlight.value.ifNoneMatch == step.server.etag)
  }

  function PlainReply(server: Server): Reply {
    Document(server.bytes, Some(server.document), server.etag)
  }

  /** The step with a server that never answers 304. */
  function Plain(step: Step): Step {
    if step.SettleStep? && step.reply.NotModified? then step.(reply := PlainReply(step.server)) else step
  }

  function PlainSteps(steps: seq<Step>): (r: seq<Step>)
    ensures |r| == |steps|
  {
    seq(|steps|, i requires 0 <= i < |steps| => Plain(steps[i]))
  }

  ghost predicate HonestRun(s: Loop, steps: seq<Step>, documentOf: Documents, caller: Caller) {
    steps == [] || (HonestRun(s, steps[..|steps| - 1], documentOf, caller)
                    && Honest(Run(s, steps[..|steps| - 1], caller), steps[|steps| - 1], documentOf))
  }

  lemma EtagAsk(s: Loop, token: Option<Text>, documentOf: Documents, caller: Caller)
    requires EtagSound(s, documentOf, caller)
    ensures EtagSound(Ask(s, token, caller), documentOf, caller)
  {
    hide Reading;
  }

  lemma EtagRefresh(s: Loop, token: Option<Text>, documentOf: Documents, caller: Caller)
    requires EtagSound(s, documentOf, caller)
    ensures EtagSound(RefreshNow(s, token, caller), documentOf, caller)
  {
    hide Ask, Reading;
    EtagAsk(s.(timer := None), token, documentOf, caller);
  }

  lemma {:induction false} EtagReact(s: Loop, calls: seq<Call>, documentOf: Documents, caller: Caller)
    requires EtagSound(s, documentOf, caller)
    ensures EtagSound(React(s, calls, caller), documentOf, caller)
  {
    hide RefreshNow, Reading;
    if calls != [] {
      EtagReact(s, calls[..|calls| - 1], documentOf, caller);
      match calls[|calls| - 1] {
        case CallRefreshNow(token) => EtagRefresh(React(s, calls[..|calls| - 1], caller), token, documentOf, caller);
        case CallStop =>
      }
    }
  }

  lemma EtagUnreachable(s: Loop, calls: seq<Call>, documentOf: Documents, caller: Caller)
    requires EtagSound(s, documentOf, caller) && s.inFlight.None?
    ensures EtagSound(Unreachable(s, calls, caller), documentOf, caller)
  {
    hide React, Reading;
    var cached := CacheRead(s, caller);
    var t := if cached.Some? then Remember(AfterRead(s, caller), cached.value.fetchedAt) else AfterRead(s, caller);
    var told := if cached.Some? && Fresh(s.now, cached.value.fetchedAt) then
                  Emit(t, Shown(cached.value.content, cached.value.fetchedAt, true))
                else Emit(ClearCache(t), Disconnected(t.lastFetchedAt));
    assert EtagSound(told, documentOf, caller);
    EtagReact(told, calls, documentOf, caller);
  }

  lemma EtagShowFresh(s: Loop, content: C.ScreenContent, etag: Option<Text>, calls: seq<Call>, documentOf: Documents,
                      caller: Caller)
    requires s.inFlight.None? && C.ValidDocument(content, caller.zones)
             && Paired(documentOf, Some(Cached(content, etag, s.now)), caller)
    ensures EtagSound(ShowFresh(WriteCache(s, EntryOf(content, etag, s.now)), content, calls, caller), documentOf,
                      caller)
  {
    hide React, Reading, EntryOf, C.ValidDocument;
    WrittenIsRead(content, etag, s.now, caller);
    var told := Emit(Remember(WriteCache(s, EntryOf(content, etag, s.now)), s.now), Shown(content, s.now, false));
    assert EtagSound(told, documentOf, caller);
    EtagReact(told, calls, documentOf, caller);
  }

  lemma EtagHandle(s: Loop, answer: Answer, cached: Option<Cached>, calls: seq<Call>, documentOf: Documents,
                   caller: Caller)
    requires EtagSound(s, documentOf, caller) && s.inFlight.None? && SawDocument(cached, caller)
             && Paired(documentOf, cached, caller)
    requires answer.Content?
             ==> C.ValidDocument(answer.content, caller.zones)
                 && Paired(documentOf, Some(Cached(answer.content, answer.etag, s.now)), caller)
    ensures EtagSound(Handle(s, answer, cached, calls, caller), documentOf, caller)
  {
    hide React, Reading, EntryOf, Unreachable, ShowFresh, C.ValidDocument;
    match answer {
      case Content(content, etag) => EtagShowFresh(s.(unconditional := false), content, etag, calls, documentOf,
                                                   caller);
      case Unchanged =>
        if cached.None? {
          EtagUnreachable(s.(unconditional := true), calls, documentOf, caller);
        } else {
          EtagShowFresh(s, cached.value.content, cached.value.etag, calls, documentOf, caller);
        }
      case Refused =>
      case SwitchedOff => EtagReact(Emit(ClearCache(s), if caller.hearsPause then Paused else Disconnected(None)),
                                    calls, documentOf, caller);
      case SlowDown(retryAfter) => EtagUnreachable(s, calls, documentOf, caller);
      case Other => EtagUnreachable(s, calls, documentOf, caller);
    }
  }

  /** The (content, ETag) pairing survives every step against the server: writes, restamps, and being read again. */
  lemma EtagStep(s: Loop, step: Step, documentOf: Documents, caller: Caller)
    requires Inv(s, caller) && EtagSound(s, documentOf, caller) && Honest(s, step, documentOf)
    ensures EtagSound(Do(s, step, caller), documentOf, caller)
  {
    hide Ask, Handle, Reading, P.DocumentOf, C.ValidDocument;
    var t := s.(now := step.at);
    match step {
      case TimerStep(_, token) => EtagAsk(t.(timer := None), token, documentOf, caller);
      case SettleStep(_, headersAt, id, reply, calls, server) =>
        var u := t.(open := s.open - {id});
        if !s.stopped && s.inFlight.Some? && s.inFlight.value.id == id {
          AnswerShape(reply, headersAt, caller);
          EtagHandle(u.(inFlight := None), Read(reply, headersAt, caller), s.inFlight.value.cached, calls, documentOf,
                     caller);
        }
      case RefreshStep(_, token) => EtagRefresh(t, token, documentOf, caller);
      case StopStep(_) =>
      case WaitStep(_) =>
    }
  }

  /**
   A 304 from the server does exactly what the whole document would have done: the same cache, the same content shown,
   the same timer, the same trace.
   */
  lemma NotModifiedIsPlain(s: Loop, step: Step, documentOf: Documents, caller: Caller)
    requires Inv(s, caller) && EtagSound(s, documentOf, caller) && Honest(s, step, documentOf)
    ensures Do(s, step, caller) == Do(s, Plain(step), caller)
  {
    hide ShowFresh, Unreachable, Reading, EntryOf, P.DocumentOf, C.ValidDocument;
    if step.SettleStep? && step.reply.NotModified? && !s.stopped && s.inFlight.Some? && s.inFlight.value.id == step.id {
      var request := s.inFlight.value;
      var plain := Read(PlainReply(step.server), step.headersAt, caller);
      assert P.DocumentOf(step.server.document, caller.zones) == Ok(request.cached.value.content);
      assert plain == Content(request.cached.value.content, request.cached.value.etag);
      var t := s.(now := step.at, open := s.open - {step.id}, inFlight := None);
      assert t.(unconditional := false) == t;
    }
  }

  /**
   Over every run against the server, the loop with its conditional cache is in the very state it would be in had every
   304 been the document in full.
   */
  lemma {:induction false} RefinesPlainFetching(s: Loop, steps: seq<Step>, documentOf: Documents, caller: Caller)
    requires Inv(s, caller) && EtagSound(s, documentOf, caller)
    requires PossibleRun(s, steps, caller) && HonestRun(s, steps, documentOf, caller)
    ensures Run(s, steps, caller) == Run(s, PlainSteps(steps), caller)
    ensures EtagSound(Run(s, steps, caller), documentOf, caller)
  {
    hide Inv, Do, Possible, EtagSound, Honest, Plain;
    if steps != [] {
      var front, last := steps[..|steps| - 1], steps[|steps| - 1];
      RefinesPlainFetching(s, front, documentOf, caller);
      RunKeeps(s, front, caller);
      NotModifiedIsPlain(Run(s, front, caller), last, documentOf, caller);
      EtagStep(Run(s, front, caller), last, documentOf, caller);
      var plain := PlainSteps(steps);
      assert plain[..|plain| - 1] == PlainSteps(front);
      assert plain[|plain| - 1] == Plain(last);
    }
  }

  /** What a step added to the trace shows as fresh only `given`, fetched at `at`. */
  ghost predicate ShowsOnly(s: Loop, r: Loop, given: Option<C.ScreenContent>, at: int) {
    && s.trace <= r.trace
    && forall i ::
         |s.trace| <= i < |r.trace| && r.trace[i].Shown? && !r.trace[i].stale
         ==> given == Some(r.trace[i].content) && r.trace[i].fetchedAt == at
  }

  lemma ShowsOnlyJoin(a: Loop, b: Loop, c: Loop, given: Option<C.ScreenContent>, at: int)
    requires ShowsOnly(a, b, given, at) && (ShowsOnly(b, c, given, at) || ShowsOnly(b, c, None, at))
    ensures ShowsOnly(a, c, given, at)
  {
    forall i | |a.trace| <= i < |c.trace| && c.trace[i].Shown? && !c.trace[i].stale
      ensures given == Some(c.trace[i].content) && c.trace[i].fetchedAt == at
    {
      if i < |b.trace| {
        assert c.trace[i] == b.trace[i];
      }
    }
  }

  lemma EmitShows(s: Loop, e: Event, given: Option<C.ScreenContent>, at: int)
    requires e.Shown? && !e.stale ==> given == Some(e.content) && e.fetchedAt == at
    ensures ShowsOnly(s, Emit(s, e), given, at)
  {
  }

  lemma AskShows(s: Loop, token: Option<Text>, caller: Caller, at: int)
    ensures ShowsOnly(s, Ask(s, token, caller), None, at)
  {
    hide Reading;
  }

  lemma {:induction false} ReactShows(s: Loop, calls: seq<Call>, caller: Caller, at: int)
    ensures ShowsOnly(s, React(s, calls, caller), None, at)
  {
    hide Ask;
    if calls != [] {
      var before := React(s, calls[..|calls| - 1], caller);
      ReactShows(s, calls[..|calls| - 1], caller, at);
      match calls[|calls| - 1] {
        case CallRefreshNow(token) =>
          AskShows(before.(timer := None), token, caller, at);
          ShowsOnlyJoin(s, before, RefreshNow(before, token, caller), None, at);
        case CallStop =>
      }
    }
  }

  /**
   Telling the caller, letting its callback do as it likes, and arming the timer show nothing fresh but what was told.
   */
  lemma TellShows(a: Loop, s: Loop, e: Event, calls: seq<Call>, seconds: int, given: Option<C.ScreenContent>,
                  caller: Caller, at: int)
    requires ShowsOnly(a, s, given, at)
    requires e.Shown? && !e.stale ==> given == Some(e.content) && e.fetchedAt == at
    ensures ShowsOnly(a, Next(React(Emit(s, e), calls, caller), seconds), given, at)
  {
    hide React;
    var told := Emit(s, e);
    EmitShows(s, e, given, at);
    ShowsOnlyJoin(a, s, told, given, at);
    ReactShows(told, calls, caller, at);
    ShowsOnlyJoin(a, told, React(told, calls, caller), given, at);
    ShowsOnlyJoin(a, React(told, calls, caller), Next(React(told, calls, caller), seconds), given, at);
  }

  lemma UnreachableShows(s: Loop, calls: seq<Call>, caller: Caller, at: int)
    ensures ShowsOnly(s, Unreachable(s, calls, caller), None, at)
  {
    hide React, Reading, Next;
    var cached := CacheRead(s, caller);
    var t := if cached.Some? then Remember(AfterRead(s, caller), cached.value.fetchedAt) else AfterRead(s, caller);
    if cached.Some? && Fresh(s.now, cached.value.fetchedAt) {
      TellShows(s, t, Shown(cached.value.content, cached.value.fetchedAt, true), calls, RETRY_SECONDS, None, caller,
                at);
    } else {
      TellShows(s, ClearCache(t), Disconnected(t.lastFetchedAt), calls, RETRY_SECONDS, None, caller, at);
    }
  }

  function FreshOf(answer: Answer, cached: Option<Cached>): Option<C.ScreenContent> {
    if answer.Content? then Some(answer.content)
    else if answer.Unchanged? && cached.Some? then Some(cached.value.content) else None
  }

  lemma HandleShows(s: Loop, answer: Answer, cached: Option<Cached>, calls: seq<Call>, caller: Caller)
    ensures ShowsOnly(s, Handle(s, answer, cached, calls, caller), FreshOf(answer, cached), s.now)
  {
    hide React, Reading, Unreachable, Next, EntryOf;
    match answer {
      case Content(content, etag) =>
        var t := Remember(WriteCache(s.(unconditional := false), EntryOf(content, etag, s.now)), s.now);
        TellShows(s, t, Shown(content, s.now, false), calls,
                  Held(C.REFRESH_SECONDS_MIN, C.REFRESH_SECONDS_MAX, content.refreshSeconds), Some(content), caller,
                  s.now);
      case Unchanged =>
        if cached.None? {
          UnreachableShows(s.(unconditional := true), calls, caller, s.now);
        } else {
          var content := cached.value.content;
          var t := Remember(WriteCache(s, EntryOf(content, cached.value.etag, s.now)), s.now);
          TellShows(s, t, Shown(content, s.now, false), calls,
                    Held(C.REFRESH_SECONDS_MIN, C.REFRESH_SECONDS_MAX, content.refreshSeconds), Some(content), caller,
                    s.now);
        }
      case Refused =>
      case SwitchedOff =>
        TellShows(s, ClearCache(s), if caller.hearsPause then Paused else Disconnected(None), calls, RETRY_SECONDS,
                  None, caller, s.now);
      case SlowDown(retryAfter) =>
        UnreachableShows(s, calls, caller, s.now);
        SlowDownShows(s, retryAfter, caller);
      case Other => UnreachableShows(s, calls, caller, s.now);
    }
  }

  lemma SlowDownShows(s: Loop, seconds: int, caller: Caller)
    ensures ShowsOnly(s, Next(AfterRead(s, caller), seconds), None, s.now)
  {
    hide Reading;
  }

  /** What the answer a step brings gives the loop to show as fresh: a document, or a 304 for the one it has. */
  function GivenFresh(s: Loop, step: Step, caller: Caller): Option<C.ScreenContent> {
    if step.SettleStep? && !s.stopped && s.inFlight.Some? && s.inFlight.value.id == step.id then
      FreshOf(Read(step.reply, step.headersAt, caller), s.inFlight.value.cached)
    else None
  }

  /** A step shows as fresh nothing but that, stamped with its moment. */
  lemma StepShows(s: Loop, step: Step, caller: Caller)
    ensures ShowsOnly(s, Do(s, step, caller), GivenFresh(s, step, caller), step.at)
  {
    hide Ask, Handle, Read, Reading;
    var t := s.(now := step.at);
    match step {
      case TimerStep(_, token) => AskShows(t.(timer := None), token, caller, step.at);
      case SettleStep(_, headersAt, id, reply, calls, server) =>
        if !s.stopped && s.inFlight.Some? && s.inFlight.value.id == id {
          var u := t.(open := s.open - {id}, inFlight := None);
          HandleShows(u, Read(reply, headersAt, caller), s.inFlight.value.cached, calls, caller);
        }
      case RefreshStep(_, token) => AskShows(t.(timer := None), token, caller, step.at);
      case StopStep(_) =>
      case WaitStep(_) =>
    }
  }

  ghost predicate ShownFresh(trace: seq<Event>, i: nat) {
    i < |trace| && trace[i].Shown? && !trace[i].stale
  }

  /**
   Whatever a step hands over as fresh is the parse of the server's document at that answer, stamped with the moment of
   the answer; and only an answer hands anything over as fresh.
   */
  lemma FreshIsServers(s: Loop, step: Step, documentOf: Documents, caller: Caller)
    requires Inv(s, caller) && EtagSound(s, documentOf, caller) && Honest(s, step, documentOf)
    ensures var r := Do(s, step, caller);
            && s.trace <= r.trace
            && forall i: nat :: |s.trace| <= i && ShownFresh(r.trace, i) ==>
                             step.SettleStep?
                             && P.DocumentOf(step.server.document, caller.zones) == Ok(r.trace[i].content)
                             && r.trace[i].fetchedAt == step.at
  {
    hide Do, Reading, P.DocumentOf, C.ValidDocument;
    StepShows(s, step, caller);
  }

  /** The server's document at some answer of a run is what is shown, stamped with that answer's moment. */
  ghost predicate Served(steps: seq<Step>, content: C.ScreenContent, at: int, caller: Caller) {
    exists k ::
      0 <= k < |steps| && steps[k].SettleStep? && P.DocumentOf(steps[k].server.document, caller.zones) == Ok(content)
      && at == steps[k].at
  }

  lemma {:induction false} FreshOverSteps(s: Loop, steps: seq<Step>, documentOf: Documents, caller: Caller)
    requires Inv(s, caller) && EtagSound(s, documentOf, caller)
    requires PossibleRun(s, steps, caller) && HonestRun(s, steps, documentOf, caller)
    ensures var r := Run(s, steps, caller);
            s.trace <= r.trace
            && forall i: nat ::
                 |s.trace| <= i && ShownFresh(r.trace, i)
                 ==> Served(steps, r.trace[i].content, r.trace[i].fetchedAt, caller)
  {
    hide Inv, Do, Possible, EtagSound, Honest, P.DocumentOf;
    if steps != [] {
      var front, last := steps[..|steps| - 1], steps[|steps| - 1];
      FreshOverSteps(s, front, documentOf, caller);
      RunKeeps(s, front, caller);
      RefinesPlainFetching(s, front, documentOf, caller);
      var t, r := Run(s, front, caller), Run(s, steps, caller);
      FreshIsServers(t, last, documentOf, caller);
      forall i: nat | |s.trace| <= i && ShownFresh(r.trace, i)
        ensures Served(steps, r.trace[i].content, r.trace[i].fetchedAt, caller)
      {
        if i < |t.trace| {
          assert r.trace[i] == t.trace[i] && ShownFresh(t.trace, i);
          var k :| 0 <= k < |front| && front[k].SettleStep?
                   && P.DocumentOf(front[k].server.document, caller.zones) == Ok(r.trace[i].content)
                   && r.trace[i].fetchedAt == front[k].at;
          assert steps[k] == front[k];
        } else {
          assert steps[|steps| - 1] == last;
        }
      }
    }
  }

  lemma StartShows(now: int, cache: Option<CacheEntry>, token: Option<Text>, caller: Caller)
    ensures forall i: nat :: !ShownFresh(Start(now, cache, token, caller).trace, i)
  {
    hide Ask, Reading;
    var s := Loop(now, false, None, None, false, None, cache, 0, {}, [], None);
    var cached := CacheRead(s, caller);
    var t := AfterRead(s, caller);
    var told := if cached.None? then t
                else if Fresh(now, cached.value.fetchedAt) then
                  Emit(Remember(t, cached.value.fetchedAt), Shown(cached.value.content, cached.value.fetchedAt, true))
                else ClearCache(Remember(t, cached.value.fetchedAt));
    assert ShowsOnly(s, told, None, now);
    AskShows(told, token, caller, now);
    ShowsOnlyJoin(s, told, Start(now, cache, token, caller), None, now);
  }

  /**
   Over every run from the start against the server, all that is ever handed over as fresh is the parse of the server's
   document at one of the answers, stamped with the moment of that answer.
   */
  lemma FreshOverRun(now: int, cache: Option<CacheEntry>, token: Option<Text>, steps: seq<Step>, documentOf: Documents,
                     caller: Caller)
    requires cache.Some? ==> Paired(documentOf, Reading(cache.value, caller), caller)
    requires PossibleRun(Start(now, cache, token, caller), steps, caller)
             && HonestRun(Start(now, cache, token, caller), steps, documentOf, caller)
    ensures var r := Run(Start(now, cache, token, caller), steps, caller);
            forall i: nat :: ShownFresh(r.trace, i) ==> Served(steps, r.trace[i].content, r.trace[i].fetchedAt, caller)
  {
    hide Inv, Start, Run, PossibleRun, HonestRun, EtagSound, Paired, Served, Reading;
    var s := Start(now, cache, token, caller);
    StartKeeps(now, cache, token, caller);
    StartEtag(now, cache, token, documentOf, caller);
    FreshOverSteps(s, steps, documentOf, caller);
    StartShows(now, cache, token, caller);
    var r := Run(s, steps, caller);
    assert forall i: nat :: i < |s.trace| && ShownFresh(r.trace, i) ==> ShownFresh(s.trace, i);
  }

  lemma ShowFreshDelay(s: Loop, content: C.ScreenContent, calls: seq<Call>, caller: Caller)
    ensures RearmedFresh(ShowFresh(s, content, calls, caller))
  {
    hide React;
  }

  /** A loop still running asks again in 30 to 60 seconds, and has last armed its timer for that. */
  ghost predicate RearmedFresh(r: Loop) {
    !r.stopped ==>
      && r.timer.Some? && 30 * SECOND <= r.timer.value - r.now <= 60 * SECOND
      && r.trace != [] && r.trace[|r.trace| - 1] == Armed(r.timer.value - r.now)
  }

  /**
   After any step that shows something fresh, which only a 200 or a 304 does, the loop asks again in 30 to 60 seconds.
   */
  lemma FreshDelay(s: Loop, step: Step, i: nat, caller: Caller)
    requires Inv(s, caller) && Possible(s, step) && |s.trace| <= i && ShownFresh(Do(s, step, caller).trace, i)
    ensures step.SettleStep? && (step.reply.Document? || step.reply.NotModified?) && RearmedFresh(Do(s, step, caller))
  {
    hide ShowFresh, Unreachable, Reading, Inv, P.DocumentOf, RearmedFresh, RetryAfter;
    StepShows(s, step, caller);
    var answer := Read(step.reply, step.headersAt, caller);
    var t := s.(now := step.at, open := s.open - {step.id}, inFlight := None);
    if answer.Content? {
      ShowFreshDelay(WriteCache(t.(unconditional := false), EntryOf(answer.content, answer.etag, t.now)),
                     answer.content, step.calls, caller);
    } else {
      var cached := s.inFlight.value.cached.value;
      ShowFreshDelay(WriteCache(t, EntryOf(cached.content, cached.etag, t.now)), cached.content, step.calls, caller);
    }
  }

  /** A cache that pairs its content with the ETag it came with is all the pairing needs to begin with. */
  lemma StartEtag(now: int, cache: Option<CacheEntry>, token: Option<Text>, documentOf: Documents, caller: Caller)
    requires cache.Some? ==> Paired(documentOf, Reading(cache.value, caller), caller)
    ensures EtagSound(Start(now, cache, token, caller), documentOf, caller)
  {
    hide Ask, Reading;
    var s := Loop(now, false, None, None, false, None, cache, 0, {}, [], None);
    var cached := CacheRead(s, caller);
    var t := AfterRead(s, caller);
    var told := if cached.None? then t
                else if Fresh(now, cached.value.fetchedAt) then
                  Emit(Remember(t, cached.value.fetchedAt), Shown(cached.value.content, cached.value.fetchedAt, true))
                else ClearCache(Remember(t, cached.value.fetchedAt));
    assert EtagSound(told, documentOf, caller);
    EtagAsk(told, token, documentOf, caller);
  }

  // ---------- What each answer does ----------

  /** A step that brings the answer to the request in flight of a loop that runs. */
  predicate Awaited(s: Loop, step: Step) {
    step.SettleStep? && !s.stopped && s.inFlight.Some? && s.inFlight.value.id == step.id
  }

  /** The document the cache holds, with when it was fetched: an entry with a time, whose content is a document. */
  function StillCached(s: Loop, caller: Caller): Option<OnScreen> {
    if s.cache.None? || s.cache.value.fetchedAt.None? then None
    else
      var content := P.DocumentOf(s.cache.value.content, caller.zones);
      if content.Ok? then Some(OnScreen(content.value, s.cache.value.fetchedAt.value)) else None
  }

  /** It is younger than a day, and not from more than five minutes ahead. */
  predicate YoungEnough(held: Option<OnScreen>, at: int) {
    held.Some? && at - held.value.fetchedAt < DAY && held.value.fetchedAt - at < 5 * MINUTE
  }

  /** Reading a cache entry that is no document clears it. */
  function Discarded(s: Loop, caller: Caller): seq<Event> {
    if s.cache.Some? && StillCached(s, caller).None? then [Cleared] else []
  }

  /** The latest of a fetch remembered and the one in the cache. */
  function LatestFetch(last: Option<int>, held: Option<OnScreen>): Option<int> {
    if held.None? then last
    else if last.Some? && last.value > held.value.fetchedAt then last else Some(held.value.fetchedAt)
  }

  /** `request` finds no token. */
  predicate NoToken(token: Option<Text>) {
    token.None? || token.value == []
  }

  /** A loop still running after a step has last armed its timer, for so many seconds. */
  predicate Rearmed(r: Loop, seconds: int) {
    !r.stopped
    ==> r.timer == Some(r.now + seconds * SECOND) && r.trace != [] && r.trace[|r.trace| - 1] == Armed(seconds * SECOND)
  }

  lemma CacheReadIs(s: Loop, caller: Caller)
    ensures CacheRead(s, caller).Some? <==> StillCached(s, caller).Some?
    ensures CacheRead(s, caller).Some? ==>
              && CacheRead(s, caller).value.content == StillCached(s, caller).value.content
              && CacheRead(s, caller).value.fetchedAt == StillCached(s, caller).value.fetchedAt
              && s.cache.Some? && CacheRead(s, caller).value.etag == EtagOf(s.cache.value.etag)
    ensures AfterRead(s, caller).trace == s.trace + Discarded(s, caller)
    ensures AfterRead(s, caller).cache == if StillCached(s, caller).Some? then s.cache else None
    ensures AfterRead(s, caller).(cache := s.cache, trace := s.trace) == s
  {
    hide P.DocumentOf;
  }

  lemma AskOnly(s: Loop, token: Option<Text>, caller: Caller)
    ensures Ask(s, token, caller).now == s.now && s.trace <= Ask(s, token, caller).trace
    ensures s.cache.None? ==> Ask(s, token, caller).cache.None?
    ensures Ask(s, token, caller).unconditional == s.unconditional
    ensures Ask(s, token, caller).lastFetchedAt == s.lastFetchedAt
  {
    hide Reading;
  }

  /** Callbacks move neither the clock nor what is remembered, and write nothing. */
  lemma {:induction false} ReactOnly(s: Loop, calls: seq<Call>, caller: Caller)
    ensures React(s, calls, caller).now == s.now && s.trace <= React(s, calls, caller).trace
    ensures s.cache.None? ==> React(s, calls, caller).cache.None?
    ensures React(s, calls, caller).unconditional == s.unconditional
    ensures React(s, calls, caller).lastFetchedAt == s.lastFetchedAt
  {
    hide Ask;
    if calls != [] {
      var before := React(s, calls[..|calls| - 1], caller);
      ReactOnly(s, calls[..|calls| - 1], caller);
      if calls[|calls| - 1].CallRefreshNow? {
        AskOnly(before.(timer := None), calls[|calls| - 1].token, caller);
      }
    }
  }

  /** The caller is told, its callback does as it likes, and the timer is armed. */
  lemma ToldThenArmed(s: Loop, e: Event, calls: seq<Call>, seconds: int, caller: Caller)
    requires !s.stopped
    ensures var r := Next(React(Emit(s, e), calls, caller), seconds);
            && s.trace + [e] <= r.trace && r.now == s.now && Rearmed(r, seconds)
            && r.unconditional == s.unconditional && r.lastFetchedAt == s.lastFetchedAt
            && (s.cache.None? ==> r.cache.None?)
            && (calls == [] ==> r.trace == s.trace + [e, Armed(seconds * SECOND)] && r.cache == s.cache && !r.stopped)
  {
    hide React;
    ReactOnly(Emit(s, e), calls, caller);
    ReactNothing(Emit(s, e), caller);
  }

  lemma ReactNothing(s: Loop, caller: Caller)
    ensures React(s, [], caller) == s
  {
  }

  /** A token refused stops the loop for good: the cache is cleared and the caller told, and nothing else is done. */
  lemma RefusedStops(s: Loop, step: Step, caller: Caller)
    requires Awaited(s, step) && step.reply == Unauthorized(true, true)
    ensures var r := Do(s, step, caller);
            && r.stopped && r.cache.None? && r.timer.None? && r.inFlight.None? && r.screen.None?
            && r.trace == s.trace + [Cleared, Revoked]
  {
  }

  /** The screen switched off: the cache is cleared, the caller told to pause, and the loop asks again in a minute. */
  lemma SwitchedOffPauses(s: Loop, step: Step, caller: Caller)
    requires Awaited(s, step) && step.reply.NotFound?
    ensures var r := Do(s, step, caller);
            var told := [Cleared, if caller.hearsPause then Paused else Disconnected(None)];
            && s.trace + told <= r.trace && r.cache.None? && Rearmed(r, 60)
            && (step.calls == [] ==> !r.stopped && r.trace == s.trace + told + [Armed(60 * SECOND)])
  {
    hide React, Next;
    var t := s.(now := step.at, open := s.open - {step.id}, inFlight := None);
    ToldThenArmed(ClearCache(t), if caller.hearsPause then Paused else Disconnected(None), step.calls, 60, caller);
  }

  /**
   `Retry-After` held to 1 to 60 seconds: the seconds it has, or those until the date it has, begun ones counted, and a
   minute when it has neither.
   */
  predicate WaitsFor(header: RetryHeader, headersAt: int, seconds: int) {
    && 1 <= seconds <= 60
    && match header
       case InSeconds(n) => (seconds > 1 ==> seconds <= n) && (seconds < 60 ==> n <= seconds)
       case AtDate(time) => (seconds > 1 ==> headersAt + (seconds - 1) * SECOND < time)
                            && (seconds < 60 ==> time <= headersAt + seconds * SECOND)
       case _ => seconds == 60
  }

  lemma WaitsForHeader(header: RetryHeader, headersAt: int)
    ensures WaitsFor(header, headersAt, RetryAfter(header, headersAt))
  {
  }

  /** Asked to slow down with nothing in the cache that is too old: nothing is shown, and the loop waits as told. */
  lemma SlowedDown(s: Loop, step: Step, caller: Caller)
    requires Awaited(s, step) && step.reply.TooMany?
             && (StillCached(s, caller).Some? ==> YoungEnough(StillCached(s, caller), step.at))
    ensures exists seconds ::
              && WaitsFor(step.reply.header, step.headersAt, seconds)
              && var r := Do(s, step, caller);
                 && r.trace == s.trace + Discarded(s, caller) + [Armed(seconds * SECOND)]
                 && r.timer == Some(step.at + seconds * SECOND) && r.screen == s.screen && !r.stopped
                 && r.cache == if StillCached(s, caller).Some? then s.cache else None
  {
    hide Unreachable, CacheRead, AfterRead, StillCached, Discarded, WaitsFor, RetryAfter;
    var t := s.(now := step.at, open := s.open - {step.id}, inFlight := None);
    CacheOnly(s, t, caller);
    CacheReadIs(t, caller);
    var seconds := RetryAfter(step.reply.header, step.headersAt);
    WaitsForHeader(step.reply.header, step.headersAt);
    var r := Do(s, step, caller);
    assert r == Next(AfterRead(t, caller), seconds);
    assert r.trace == s.trace + Discarded(s, caller) + [Armed(seconds * SECOND)];
  }

  lemma CacheOnly(s: Loop, t: Loop, caller: Caller)
    requires t.cache == s.cache
    ensures StillCached(t, caller) == StillCached(s, caller) && Discarded(t, caller) == Discarded(s, caller)
  {
    hide P.DocumentOf;
  }

  /**
   An answer that says nothing of the screen: none at all, a status the contract does not name, a 401 that is not the
   instance refusing the token, a body that is too long or no document, or a 304 to a request with nothing in the cache.
   */
  predicate SaysNothing(s: Loop, step: Step, caller: Caller)
    requires Awaited(s, step)
  {
    match step.reply
    case Document(bytes, json, _) =>
      bytes > C.DOCUMENT_BYTES || json.None? || P.DocumentOf(json.value, caller.zones).Err?
    case NotModified => s.inFlight.value.cached.None?
    case Unauthorized(deviceRealm, tokenInvalid) => !deviceRealm || !tokenInvalid
    case OtherStatus => true
    case Rejected => true
    case _ => false
  }

  /** It, or being asked to slow down with a document too old, is as if the instance could not be reached. */
  predicate Unreached(s: Loop, step: Step, caller: Caller)
    requires Awaited(s, step)
  {
    || SaysNothing(s, step, caller)
    || (step.reply.TooMany? && StillCached(s, caller).Some? && !YoungEnough(StillCached(s, caller), step.at))
  }

  /**
   Then the document in the cache is shown, as stale, exactly when it is young enough; otherwise the cache is cleared
   and the caller told of the latest fetch. The loop asks again in a minute.
   */
  lemma UnreachedShowsCached(s: Loop, step: Step, caller: Caller)
    requires Awaited(s, step) && Unreached(s, step, caller)
    ensures var r, held := Do(s, step, caller), StillCached(s, caller);
            var told := Discarded(s, caller) + if YoungEnough(held, step.at) then
                          [Shown(held.value.content, held.value.fetchedAt, true)]
                        else [Cleared, Disconnected(LatestFetch(s.lastFetchedAt, held))];
            && s.trace + told <= r.trace && Rearmed(r, 60) && r.lastFetchedAt == LatestFetch(s.lastFetchedAt, held)
            && r.unconditional == (s.unconditional || step.reply.NotModified?)
            && (!YoungEnough(held, step.at) ==> r.cache.None?)
            && (step.calls == [] ==>
                  && !r.stopped && r.trace == s.trace + told + [Armed(60 * SECOND)]
                  && (YoungEnough(held, step.at) ==> r.cache == s.cache))
  {
    hide Unreachable, CacheRead, AfterRead, StillCached, Discarded, RetryAfter, LatestFetch, P.DocumentOf, ShowFresh;
    var t := s.(now := step.at, open := s.open - {step.id}, inFlight := None,
                unconditional := s.unconditional || step.reply.NotModified?);
    CacheOnly(s, t, caller);
    CacheReadIs(t, caller);
    ReadNothing(s, step, caller);
    UnreachableTells(t, step.calls, caller);
  }

  lemma ReadNothing(s: Loop, step: Step, caller: Caller)
    requires Awaited(s, step) && Unreached(s, step, caller)
    ensures var t := s.(now := step.at, open := s.open - {step.id}, inFlight := None,
                        unconditional := s.unconditional || step.reply.NotModified?);
            Do(s, step, caller) == Unreachable(t, step.calls, caller)
  {
    hide Unreachable, StillCached, CacheRead, RetryAfter, P.DocumentOf, ShowFresh, AfterRead;
    var t := s.(now := step.at, open := s.open - {step.id}, inFlight := None);
    CacheOnly(s, t, caller);
    CacheReadIs(t, caller);
    assert t == t.(unconditional := s.unconditional);
  }

  lemma UnreachableTells(s: Loop, calls: seq<Call>, caller: Caller)
    requires !s.stopped
    ensures var r, held := Unreachable(s, calls, caller), StillCached(s, caller);
            var told := Discarded(s, caller) + if YoungEnough(held, s.now) then
                          [Shown(held.value.content, held.value.fetchedAt, true)]
                        else [Cleared, Disconnected(LatestFetch(s.lastFetchedAt, held))];
            && s.trace + told <= r.trace && Rearmed(r, 60) && r.lastFetchedAt == LatestFetch(s.lastFetchedAt, held)
            && r.unconditional == s.unconditional
            && (!YoungEnough(held, s.now) ==> r.cache.None?)
            && (calls == [] ==>
                  && !r.stopped && r.trace == s.trace + told + [Armed(60 * SECOND)]
                  && (YoungEnough(held, s.now) ==> r.cache == s.cache))
  {
    hide React, Next, CacheRead, AfterRead, StillCached, Discarded, Rearmed;
    CacheReadIs(s, caller);
    var cached, held := CacheRead(s, caller), StillCached(s, caller);
    var t := if cached.Some? then Remember(AfterRead(s, caller), cached.value.fetchedAt) else AfterRead(s, caller);
    if cached.Some? && Fresh(s.now, cached.value.fetchedAt) {
      ToldThenArmed(t, Shown(held.value.content, held.value.fetchedAt, true), calls, 60, caller);
    } else {
      assert ClearCache(t).trace == s.trace + (Discarded(s, caller) + [Cleared]);
      ToldThenArmed(ClearCache(t), Disconnected(t.lastFetchedAt), calls, 60, caller);
    }
  }

  /** What a 200 or a 304 gives the loop, with its ETag: the document in its body, or the one the request had. */
  function Given(s: Loop, step: Step, caller: Caller): Option<(C.ScreenContent, Option<Text>)>
    requires Awaited(s, step)
  {
    match step.reply
    case Document(bytes, json, etag) =>
      if bytes > C.DOCUMENT_BYTES || json.None? || P.DocumentOf(json.value, caller.zones).Err? then None
      else Some((P.DocumentOf(json.value, caller.zones).value, etag))
    case NotModified =>
      if s.inFlight.value.cached.None? then None
      else Some((s.inFlight.value.cached.value.content, s.inFlight.value.cached.value.etag))
    case _ => None
  }

  /**
   A document that comes is written to the cache with its ETag and the moment, shown as fresh, and asked for again after
   its own seconds. A request asks unconditionally no more once a whole document has come.
   */
  lemma DocumentTaken(s: Loop, step: Step, caller: Caller)
    requires Inv(s, caller) && Awaited(s, step) && Given(s, step, caller).Some?
    ensures var r, content, etag := Do(s, step, caller), Given(s, step, caller).value.0,
            Given(s, step, caller).value.1;
            var entry := CacheEntry(P.DocumentJson(content), P.OptionalText(etag), Some(step.at));
            && s.trace + [Wrote(entry), Shown(content, step.at, false)] <= r.trace
            && Rearmed(r, content.refreshSeconds) && r.unconditional == (s.unconditional && step.reply.NotModified?)
            && r.lastFetchedAt == LatestFetch(s.lastFetchedAt, Some(OnScreen(content, step.at)))
            && (step.calls == [] ==>
                  && !r.stopped && r.cache == Some(entry)
                  && r.trace == s.trace + [Wrote(entry), Shown(content, step.at, false),
                                           Armed(content.refreshSeconds * SECOND)])
  {
    hide ShowFresh, WriteCache, P.DocumentOf, P.DocumentJson, P.OptionalText, Given, Rearmed, LatestFetch, Inv,
         C.ValidDocument;
    var content, etag := Given(s, step, caller).value.0, Given(s, step, caller).value.1;
    var t := s.(now := step.at, open := s.open - {step.id}, inFlight := None,
                unconditional := s.unconditional && step.reply.NotModified?);
    ReadGiven(s, step, caller);
    GivenHeld(s, step, caller);
    ShowFreshTells(t, content, etag, step.calls, caller);
  }

  lemma ReadGiven(s: Loop, step: Step, caller: Caller)
    requires Awaited(s, step) && Given(s, step, caller).Some?
    ensures var content, etag := Given(s, step, caller).value.0, Given(s, step, caller).value.1;
            var t := s.(now := step.at, open := s.open - {step.id}, inFlight := None,
                        unconditional := s.unconditional && step.reply.NotModified?);
            Do(s, step, caller)
            == ShowFresh(WriteCache(t, EntryOf(content, etag, step.at)), content, step.calls, caller)
  {
    hide ShowFresh, WriteCache, EntryOf, P.DocumentOf, RetryAfter, CacheRead, Unreachable;
    var t := s.(now := step.at, open := s.open - {step.id}, inFlight := None);
    assert t == t.(unconditional := s.unconditional);
  }

  lemma GivenHeld(s: Loop, step: Step, caller: Caller)
    requires Inv(s, caller) && Awaited(s, step) && Given(s, step, caller).Some?
    ensures C.ValidDocument(Given(s, step, caller).value.0, caller.zones)
  {
    hide P.DocumentOf, C.ValidDocument;
    if step.reply.Document? {
      P.DocumentSound(step.reply.json.value, caller.zones);
    }
  }

  lemma ShowFreshTells(s: Loop, content: C.ScreenContent, etag: Option<Text>, calls: seq<Call>, caller: Caller)
    requires !s.stopped && C.ValidDocument(content, caller.zones)
    ensures var r := ShowFresh(WriteCache(s, EntryOf(content, etag, s.now)), content, calls, caller);
            var entry := CacheEntry(P.DocumentJson(content), P.OptionalText(etag), Some(s.now));
            && s.trace + [Wrote(entry), Shown(content, s.now, false)] <= r.trace
            && Rearmed(r, content.refreshSeconds) && r.unconditional == s.unconditional
            && r.lastFetchedAt == LatestFetch(s.lastFetchedAt, Some(OnScreen(content, s.now)))
            && (calls == [] ==>
                  && !r.stopped && r.cache == Some(entry)
                  && r.trace == s.trace + [Wrote(entry), Shown(content, s.now, false),
                                           Armed(content.refreshSeconds * SECOND)])
  {
    hide React, Next, P.DocumentJson, P.OptionalText, Rearmed, C.ValidDocument, Held;
    OwnSeconds(content, caller);
    var t := Remember(WriteCache(s, EntryOf(content, etag, s.now)), s.now);
    ToldThenArmed(t, Shown(content, s.now, false), calls, content.refreshSeconds, caller);
  }

  lemma OwnSeconds(content: C.ScreenContent, caller: Caller)
    requires C.ValidDocument(content, caller.zones)
    ensures Held(C.REFRESH_SECONDS_MIN, C.REFRESH_SECONDS_MAX, content.refreshSeconds) == content.refreshSeconds
  {
    hide C.ValidSlide, C.ValidWindow, IsInstant;
  }

  /** A revocation is told beyond the trace a step began with. */
  ghost predicate TellsRevoked(s: Loop, r: Loop) {
    exists i :: |s.trace| <= i < |r.trace| && r.trace[i].Revoked?
  }

  /** The first thing a callback does is to have the loop ask, without a token. */
  predicate AsksInVain(calls: seq<Call>) {
    calls != [] && calls[0].CallRefreshNow? && NoToken(calls[0].token)
  }

  /** Asked to slow down with nothing too old in the cache, the loop calls nobody back. */
  predicate Quiet(s: Loop, step: Step, caller: Caller) {
    step.SettleStep? && step.reply.TooMany?
    && (StillCached(s, caller).Some? ==> YoungEnough(StillCached(s, caller), step.at))
  }

  /**
   A step in which the loop finds its token refused, or none where it is to ask: on its timer, on `refreshNow`, or on a
   callback's.
   */
  predicate LosesToken(s: Loop, step: Step, caller: Caller) {
    match step
    case TimerStep(_, token) => !s.stopped && s.inFlight.None? && NoToken(token)
    case RefreshStep(_, token) => !s.stopped && s.inFlight.None? && NoToken(token)
    case SettleStep(_, _, _, reply, calls, _) =>
      Awaited(s, step) && (reply == Unauthorized(true, true) || (!Quiet(s, step, caller) && AsksInVain(calls)))
    case _ => false
  }

  /** The loop has ended for good: stopped, with nothing in the cache, and the caller told as its last act. */
  predicate Ended(r: Loop) {
    r.stopped && r.cache.None? && |r.trace| >= 2 && r.trace[|r.trace| - 2..] == [Cleared, Revoked]
  }

  /** A revocation is told in exactly those steps, and ends the loop. */
  lemma RevokedIff(s: Loop, step: Step, caller: Caller)
    ensures TellsRevoked(s, Do(s, step, caller)) <==> LosesToken(s, step, caller)
    ensures LosesToken(s, step, caller) ==> Ended(Do(s, step, caller))
  {
    hide Ask, Handle, Read, TellsRevoked, StillCached, Ended, AsksInVain;
    var t := s.(now := step.at);
    NothingRevoked(s, t);
    NothingRevoked(s, t.(timer := None));
    match step {
      case TimerStep(_, token) => AskRevokes(s, t.(timer := None), token, caller);
      case RefreshStep(_, token) => AskRevokes(s, t.(timer := None), token, caller);
      case SettleStep(_, headersAt, id, reply, calls, server) =>
        var u := t.(open := s.open - {id}, inFlight := None);
        NothingRevoked(s, t.(open := s.open - {id}));
        if Awaited(s, step) {
          CacheOnly(s, u, caller);
          HandleRevokes(s, u, Read(reply, headersAt, caller), s.inFlight.value.cached, calls, caller);
          ReadRefused(reply, headersAt, caller);
        }
      case StopStep(_) => NothingRevoked(s, Stop(t));
      case WaitStep(_) =>
    }
  }

  lemma NothingRevoked(s: Loop, r: Loop)
    requires r.trace == s.trace
    ensures !TellsRevoked(s, r)
  {
  }

  lemma ReadRefused(reply: Reply, headersAt: int, caller: Caller)
    ensures Read(reply, headersAt, caller).Refused? <==> reply == Unauthorized(true, true)
    ensures Read(reply, headersAt, caller).SlowDown? <==> reply.TooMany?
  {
    hide P.DocumentOf, RetryAfter;
  }

  lemma RevokeEnds(a: Loop, s: Loop)
    requires a.trace <= s.trace
    ensures TellsRevoked(a, Revoke(s)) && Ended(Revoke(s))
  {
    var r := Revoke(s);
    assert r.trace == s.trace + [Cleared, Revoked];
    assert r.trace[|r.trace| - 1].Revoked?;
  }

  lemma AskRevokes(a: Loop, s: Loop, token: Option<Text>, caller: Caller)
    requires a.trace <= s.trace && !TellsRevoked(a, s)
    ensures var r := Ask(s, token, caller);
            var lost := !s.stopped && s.inFlight.None? && NoToken(token);
            && a.trace <= r.trace && (TellsRevoked(a, r) <==> lost) && (lost ==> Ended(r))
            && (!s.stopped && s.inFlight.None? ==> r.stopped || r.inFlight.Some?)
            && (s.stopped || s.inFlight.Some? ==> r == s)
  {
    hide Reading, Ended;
    if !s.stopped && s.inFlight.None? && NoToken(token) {
      RevokeEnds(a, s);
    }
  }

  /** Once a callback has asked or stopped, nothing it does tells a revocation. */
  lemma {:induction false} ReactRevokes(a: Loop, s: Loop, calls: seq<Call>, caller: Caller)
    requires a.trace <= s.trace && !TellsRevoked(a, s) && !s.stopped && s.inFlight.None?
    ensures var r := React(s, calls, caller);
            && a.trace <= r.trace && (TellsRevoked(a, r) <==> AsksInVain(calls)) && (AsksInVain(calls) ==> Ended(r))
            && (calls != [] ==> r.stopped || r.inFlight.Some?)
  {
    hide Ask, TellsRevoked, Ended, NoToken;
    if calls != [] {
      var front := calls[..|calls| - 1];
      var before := React(s, front, caller);
      ReactRevokes(a, s, front, caller);
      match calls[|calls| - 1] {
        case CallRefreshNow(token) =>
          EndedStopped(before);
          SameTrace(a, before, before.(timer := None));
          if !before.stopped && before.inFlight.None? {
            AskRevokes(a, before.(timer := None), token, caller);
          }
        case CallStop => SameTrace(a, before, Stop(before));
      }
    }
  }

  lemma EndedStopped(s: Loop)
    ensures Ended(s) ==> s.stopped
  {
  }

  lemma SameTrace(a: Loop, s: Loop, r: Loop)
    requires r.trace == s.trace
    ensures TellsRevoked(a, r) <==> TellsRevoked(a, s)
    ensures r.stopped && r.cache == s.cache ==> (Ended(s) ==> Ended(r))
  {
  }

  lemma OneMoreEvent(a: Loop, s: Loop, t: Loop, e: Event)
    requires a.trace <= s.trace && !TellsRevoked(a, s) && t.trace == s.trace && !e.Revoked?
    ensures a.trace <= Emit(t, e).trace && !TellsRevoked(a, Emit(t, e))
  {
  }

  lemma NextRevokes(a: Loop, s: Loop, seconds: int)
    requires a.trace <= s.trace && (TellsRevoked(a, s) ==> Ended(s))
    ensures var r := Next(s, seconds);
            a.trace <= r.trace && (TellsRevoked(a, r) <==> TellsRevoked(a, s)) && (TellsRevoked(a, s) ==> Ended(r))
  {
    if !s.stopped {
      OneMoreEvent(a, s, s.(timer := Some(s.now + seconds * SECOND)), Armed(seconds * SECOND));
    }
  }

  lemma TellRevokes(a: Loop, s: Loop, e: Event, calls: seq<Call>, seconds: int, caller: Caller)
    requires a.trace <= s.trace && !TellsRevoked(a, s) && !s.stopped && s.inFlight.None? && !e.Revoked?
    ensures var r := Next(React(Emit(s, e), calls, caller), seconds);
            (TellsRevoked(a, r) <==> AsksInVain(calls)) && (AsksInVain(calls) ==> Ended(r))
  {
    hide React, Next, TellsRevoked, Ended, AsksInVain;
    OneMoreEvent(a, s, s, e);
    ReactRevokes(a, Emit(s, e), calls, caller);
    NextRevokes(a, React(Emit(s, e), calls, caller), seconds);
  }

  lemma AfterReadRevokes(a: Loop, s: Loop, caller: Caller)
    requires a.trace <= s.trace && !TellsRevoked(a, s)
    ensures var r := AfterRead(s, caller);
            && a.trace <= r.trace && !TellsRevoked(a, r) && r.stopped == s.stopped && r.inFlight == s.inFlight
  {
    hide Reading, TellsRevoked;
    OneMoreEvent(a, s, s.(cache := None), Cleared);
  }

  lemma UnreachableRevokes(a: Loop, s: Loop, calls: seq<Call>, caller: Caller)
    requires a.trace <= s.trace && !TellsRevoked(a, s) && !s.stopped && s.inFlight.None?
    ensures var r := Unreachable(s, calls, caller);
            (TellsRevoked(a, r) <==> AsksInVain(calls)) && (AsksInVain(calls) ==> Ended(r))
  {
    hide React, Next, TellsRevoked, Ended, AsksInVain, CacheRead, AfterRead, Fresh;
    AfterReadRevokes(a, s, caller);
    var cached := CacheRead(s, caller);
    var t := if cached.Some? then Remember(AfterRead(s, caller), cached.value.fetchedAt) else AfterRead(s, caller);
    SameTrace(a, AfterRead(s, caller), t);
    if cached.Some? && Fresh(s.now, cached.value.fetchedAt) {
      TellRevokes(a, t, Shown(cached.value.content, cached.value.fetchedAt, true), calls, RETRY_SECONDS, caller);
    } else {
      OneMoreEvent(a, t, t.(cache := None), Cleared);
      TellRevokes(a, ClearCache(t), Disconnected(t.lastFetchedAt), calls, RETRY_SECONDS, caller);
    }
  }

  lemma ShowFreshRevokes(a: Loop, s: Loop, entry: CacheEntry, content: C.ScreenContent, calls: seq<Call>,
                         caller: Caller)
    requires a.trace <= s.trace && !TellsRevoked(a, s) && !s.stopped && s.inFlight.None?
    ensures var r := ShowFresh(WriteCache(s, entry), content, calls, caller);
            (TellsRevoked(a, r) <==> AsksInVain(calls)) && (AsksInVain(calls) ==> Ended(r))
  {
    hide React, Next, TellsRevoked, Ended, AsksInVain;
    OneMoreEvent(a, s, s.(cache := Some(entry)), Wrote(entry));
    var t := WriteCache(s, entry);
    SameTrace(a, t, Remember(t, t.now));
    TellRevokes(a, Remember(t, t.now), Shown(content, t.now, false), calls,
                Held(C.REFRESH_SECONDS_MIN, C.REFRESH_SECONDS_MAX, content.refreshSeconds), caller);
  }

  lemma HandleRevokes(a: Loop, s: Loop, answer: Answer, cached: Option<Cached>, calls: seq<Call>, caller: Caller)
    requires s.trace == a.trace && !s.stopped && s.inFlight.None?
    ensures var r, held := Handle(s, answer, cached, calls, caller), StillCached(s, caller);
            var lost := answer.Refused? || (AsksInVain(calls)
                        && !(answer.SlowDown? && (held.Some? ==> YoungEnough(held, s.now))));
            (TellsRevoked(a, r) <==> lost) && (lost ==> Ended(r))
  {
    hide React, Next, TellsRevoked, Ended, AsksInVain, CacheRead, AfterRead, StillCached, Unreachable, ShowFresh,
         EntryOf;
    NothingRevoked(a, s);
    CacheReadIs(s, caller);
    match answer {
      case Content(content, etag) =>
        NothingRevoked(a, s.(unconditional := false));
        ShowFreshRevokes(a, s.(unconditional := false), EntryOf(content, etag, s.now), content, calls, caller);
      case Unchanged =>
        NothingRevoked(a, s.(unconditional := true));
        if cached.None? {
          UnreachableRevokes(a, s.(unconditional := true), calls, caller);
        } else {
          ShowFreshRevokes(a, s, EntryOf(cached.value.content, cached.value.etag, s.now), cached.value.content, calls,
                           caller);
        }
      case Refused => RevokeEnds(a, s);
      case SwitchedOff =>
        OneMoreEvent(a, s, s.(cache := None), Cleared);
        TellRevokes(a, ClearCache(s), if caller.hearsPause then Paused else Disconnected(None), calls, RETRY_SECONDS,
                    caller);
      case SlowDown(retryAfter) =>
        UnreachableRevokes(a, s, calls, caller);
        AfterReadRevokes(a, s, caller);
        NextRevokes(a, AfterRead(s, caller), retryAfter);
      case Other => UnreachableRevokes(a, s, calls, caller);
    }
  }

  // ---------- The latest fetch ----------

  /** What the caller has on screen: the last content it was shown, when it has not been told since to take it away. */
  ghost function LastShown(trace: seq<Event>): Option<OnScreen> {
    if trace == [] then None
    else
      var last := trace[|trace| - 1];
      if last.Shown? then Some(OnScreen(last.content, last.fetchedAt))
      else if last.Revoked? || last.Paused? || last.Disconnected? then None else LastShown(trace[..|trace| - 1])
  }

  /**
   What is on screen is what was told last; what is remembered is no earlier than the fetch of anything shown, nor is
   what the caller was told before.
   */
  ghost predicate Remembers(s: Loop) {
    && s.screen == LastShown(s.trace)
    && (forall i :: 0 <= i < |s.trace| && s.trace[i].Shown?
                    ==> s.lastFetchedAt.Some? && s.trace[i].fetchedAt <= s.lastFetchedAt.value)
    && forall i, j :: 0 <= i < j < |s.trace| && s.trace[i].Shown? && s.trace[j].Disconnected?
                      && s.trace[j].lastFetchedAt.Some?
                      ==> s.trace[i].fetchedAt <= s.trace[j].lastFetchedAt.value
  }

  lemma RemembersMore(s: Loop, e: Event)
    requires Remembers(s)
    requires e.Shown? ==> s.lastFetchedAt.Some? && e.fetchedAt <= s.lastFetchedAt.value
    requires e.Disconnected? ==> e.lastFetchedAt.None? || e.lastFetchedAt == s.lastFetchedAt
    ensures Remembers(Emit(s, e))
  {
    assert Emit(s, e).trace[..|s.trace|] == s.trace;
  }

  lemma RemembersSame(s: Loop, r: Loop)
    requires Remembers(s) && r.trace == s.trace && r.screen == s.screen
             && (r.lastFetchedAt == s.lastFetchedAt
                 || (r.lastFetchedAt.Some?
                     && (s.lastFetchedAt.None? || s.lastFetchedAt.value <= r.lastFetchedAt.value)))
    ensures Remembers(r)
  {
  }

  lemma RemembersCleared(s: Loop, caller: Caller)
    requires Remembers(s)
    ensures Remembers(ClearCache(s)) && Remembers(AfterRead(s, caller))
  {
    hide Remembers, Reading;
    RemembersSame(s, s.(cache := None));
    RemembersMore(s.(cache := None), Cleared);
  }

  lemma RemembersAsk(s: Loop, token: Option<Text>, caller: Caller)
    requires Remembers(s)
    ensures Remembers(Ask(s, token, caller))
  {
    hide Remembers, Reading, Emit;
    if s.stopped || s.inFlight.Some? {
    } else if NoToken(token) {
      RemembersSame(s, Stop(s));
      RemembersCleared(Stop(s), caller);
      RemembersMore(ClearCache(Stop(s)), Revoked);
    } else {
      RemembersCleared(s, caller);
      var t, r := AfterRead(s, caller), Ask(s, token, caller);
      AskedLast(s, token, caller);
      var u := t.(inFlight := r.inFlight, sent := r.sent, open := r.open);
      RemembersSame(t, u);
      RemembersMore(u, Asked(r.inFlight.value.ifNoneMatch));
    }
  }

  lemma AskedLast(s: Loop, token: Option<Text>, caller: Caller)
    requires !s.stopped && s.inFlight.None? && !NoToken(token)
    ensures var t, r := AfterRead(s, caller), Ask(s, token, caller);
            && r.inFlight.Some?
            && r == Emit(t.(inFlight := r.inFlight, sent := r.sent, open := r.open),
                         Asked(r.inFlight.value.ifNoneMatch))
  {
    hide Reading, AfterRead, CacheRead;
  }

  lemma {:induction false} RemembersReact(s: Loop, calls: seq<Call>, caller: Caller)
    requires Remembers(s)
    ensures Remembers(React(s, calls, caller))
  {
    hide Remembers, Ask;
    if calls != [] {
      var before := React(s, calls[..|calls| - 1], caller);
      RemembersReact(s, calls[..|calls| - 1], caller);
      match calls[|calls| - 1] {
        case CallRefreshNow(token) =>
          RemembersSame(before, before.(timer := None));
          RemembersAsk(before.(timer := None), token, caller);
        case CallStop => RemembersSame(before, Stop(before));
      }
    }
  }

  lemma RemembersTold(s: Loop, e: Event, calls: seq<Call>, seconds: int, caller: Caller)
    requires Remembers(s)
    requires e.Shown? ==> s.lastFetchedAt.Some? && e.fetchedAt <= s.lastFetchedAt.value
    requires e.Disconnected? ==> e.lastFetchedAt.None? || e.lastFetchedAt == s.lastFetchedAt
    ensures Remembers(Next(React(Emit(s, e), calls, caller), seconds))
  {
    hide Remembers, React, Emit;
    RemembersMore(s, e);
    RemembersReact(Emit(s, e), calls, caller);
    var t := React(Emit(s, e), calls, caller);
    RemembersSame(t, t.(timer := Some(t.now + seconds * SECOND)));
    RemembersMore(t.(timer := Some(t.now + seconds * SECOND)), Armed(seconds * SECOND));
  }

  lemma RemembersUnreachable(s: Loop, calls: seq<Call>, caller: Caller)
    requires Remembers(s)
    ensures Remembers(Unreachable(s, calls, caller))
  {
    hide Remembers, React, Next, CacheRead, AfterRead, Emit;
    RemembersCleared(s, caller);
    var cached := CacheRead(s, caller);
    var t := if cached.Some? then Remember(AfterRead(s, caller), cached.value.fetchedAt) else AfterRead(s, caller);
    RemembersSame(AfterRead(s, caller), t);
    if cached.Some? && Fresh(s.now, cached.value.fetchedAt) {
      RemembersTold(t, Shown(cached.value.content, cached.value.fetchedAt, true), calls, RETRY_SECONDS, caller);
    } else {
      RemembersCleared(t, caller);
      ClearedLast(t);
      RemembersTold(ClearCache(t), Disconnected(t.lastFetchedAt), calls, RETRY_SECONDS, caller);
    }
  }

  lemma ClearedLast(s: Loop)
    ensures ClearCache(s).lastFetchedAt == s.lastFetchedAt
  {
  }

  lemma RemembersShow(s: Loop, entry: CacheEntry, content: C.ScreenContent, calls: seq<Call>, caller: Caller)
    requires Remembers(s)
    ensures Remembers(ShowFresh(WriteCache(s, entry), content, calls, caller))
  {
    hide Remembers, React, Next;
    RemembersSame(s, s.(cache := Some(entry)));
    RemembersMore(s.(cache := Some(entry)), Wrote(entry));
    var t := WriteCache(s, entry);
    RemembersSame(t, Remember(t, t.now));
    RemembersTold(Remember(t, t.now), Shown(content, t.now, false), calls,
                  Held(C.REFRESH_SECONDS_MIN, C.REFRESH_SECONDS_MAX, content.refreshSeconds), caller);
  }

  lemma RemembersHandle(s: Loop, answer: Answer, cached: Option<Cached>, calls: seq<Call>, caller: Caller)
    requires Remembers(s)
    ensures Remembers(Handle(s, answer, cached, calls, caller))
  {
    hide Remembers, React, Next, CacheRead, AfterRead, Unreachable, ShowFresh, WriteCache, EntryOf, Emit;
    RemembersSame(s, s.(unconditional := false));
    RemembersSame(s, s.(unconditional := true));
    RemembersCleared(s, caller);
    match answer {
      case Content(content, etag) =>
        RemembersShow(s.(unconditional := false), EntryOf(content, etag, s.now), content, calls, caller);
      case Unchanged =>
        if cached.None? {
          RemembersUnreachable(s.(unconditional := true), calls, caller);
        } else {
          RemembersShow(s, EntryOf(cached.value.content, cached.value.etag, s.now), cached.value.content, calls,
                        caller);
        }
      case Refused =>
        RemembersSame(s, Stop(s));
        RemembersCleared(Stop(s), caller);
        RemembersMore(ClearCache(Stop(s)), Revoked);
      case SwitchedOff =>
        RemembersTold(ClearCache(s), if caller.hearsPause then Paused else Disconnected(None), calls, RETRY_SECONDS,
                      caller);
      case SlowDown(retryAfter) =>
        RemembersUnreachable(s, calls, caller);
        RemembersArmed(AfterRead(s, caller), retryAfter);
      case Other => RemembersUnreachable(s, calls, caller);
    }
  }

  lemma RemembersArmed(s: Loop, seconds: int)
    requires Remembers(s)
    ensures Remembers(Next(s, seconds))
  {
    hide Remembers, Emit;
    RemembersSame(s, s.(timer := Some(s.now + seconds * SECOND)));
    RemembersMore(s.(timer := Some(s.now + seconds * SECOND)), Armed(seconds * SECOND));
  }

  lemma RemembersStep(s: Loop, step: Step, caller: Caller)
    requires Remembers(s)
    ensures Remembers(Do(s, step, caller))
  {
    hide Remembers, Ask, Handle, Read;
    var t := s.(now := step.at);
    RemembersSame(s, t);
    RemembersSame(s, t.(timer := None));
    match step {
      case TimerStep(_, token) => RemembersAsk(t.(timer := None), token, caller);
      case SettleStep(_, headersAt, id, reply, calls, _) =>
        RemembersSame(s, t.(open := s.open - {id}));
        RemembersSame(s, t.(open := s.open - {id}, inFlight := None));
        if Awaited(s, step) {
          RemembersHandle(t.(open := s.open - {id}, inFlight := None), Read(reply, headersAt, caller),
                          s.inFlight.value.cached, calls, caller);
        }
      case RefreshStep(_, token) => RemembersAsk(t.(timer := None), token, caller);
      case StopStep(_) => RemembersSame(s, Stop(t));
      case WaitStep(_) =>
    }
  }

  lemma RemembersStart(now: int, cache: Option<CacheEntry>, token: Option<Text>, caller: Caller)
    ensures Remembers(Start(now, cache, token, caller))
  {
    hide Remembers, Ask, CacheRead, AfterRead, Emit;
    var s := Loop(now, false, None, None, false, None, cache, 0, {}, [], None);
    assert Remembers(s) by { NothingShown(s); }
    RemembersCleared(s, caller);
    var cached, t := CacheRead(s, caller), AfterRead(s, caller);
    if cached.None? {
      RemembersAsk(t, token, caller);
    } else {
      var u := Remember(t, cached.value.fetchedAt);
      RemembersSame(t, u);
      if Fresh(now, cached.value.fetchedAt) {
        var e := Shown(cached.value.content, cached.value.fetchedAt, true);
        RemembersMore(u, e);
        RemembersAsk(Emit(u, e), token, caller);
      } else {
        RemembersCleared(u, caller);
        RemembersAsk(ClearCache(u), token, caller);
      }
    }
  }

  lemma NothingShown(s: Loop)
    requires s.trace == [] && s.screen.None?
    ensures Remembers(s)
  {
  }

  lemma {:induction false} RemembersRun(s: Loop, steps: seq<Step>, caller: Caller)
    requires Remembers(s)
    ensures Remembers(Run(s, steps, caller))
  {
    hide Remembers, Do;
    if steps != [] {
      RemembersRun(s, steps[..|steps| - 1], caller);
      RemembersStep(Run(s, steps[..|steps| - 1], caller), steps[|steps| - 1], caller);
    }
  }

  /**
   Over every run, what is on screen is what was told last; and a time the caller is told as the latest fetch when it is
   told of a disconnection is no earlier than the fetch of anything it was shown before, the cache cleared since or not.
   */
  lemma ToldLatestFetch(now: int, cache: Option<CacheEntry>, token: Option<Text>, steps: seq<Step>, caller: Caller)
    ensures var r := Run(Start(now, cache, token, caller), steps, caller);
            && r.screen == LastShown(r.trace)
            && (forall i :: 0 <= i < |r.trace| && r.trace[i].Shown?
                            ==> r.lastFetchedAt.Some? && r.trace[i].fetchedAt <= r.lastFetchedAt.value)
            && forall i, j :: 0 <= i < j < |r.trace| && r.trace[i].Shown? && r.trace[j].Disconnected?
                              && r.trace[j].lastFetchedAt.Some?
                              ==> r.trace[i].fetchedAt <= r.trace[j].lastFetchedAt.value
  {
    hide Run, Start;
    RemembersStart(now, cache, token, caller);
    RemembersRun(Start(now, cache, token, caller), steps, caller);
  }

  // ---------- What is asked ----------

  /**
   Whenever the loop asks, on its timer or on `refreshNow`, the request has the ETag of the document still in the cache,
   unless a 304 has come to a request with nothing in it since the last whole document.
   */
  lemma AsksWithEtag(s: Loop, step: Step, caller: Caller)
    requires !s.stopped && s.inFlight.None?
             && ((step.TimerStep? && !NoToken(step.token)) || (step.RefreshStep? && !NoToken(step.token)))
    ensures var r := Do(s, step, caller);
            var etag := if s.unconditional || StillCached(s, caller).None? || !s.cache.value.etag.Str? then None
                        else Some(s.cache.value.etag.t);
            && r.trace == s.trace + Discarded(s, caller) + [Asked(etag)] && r.timer.None? && !r.stopped
            && r.inFlight.Some? && r.inFlight.value.ifNoneMatch == etag && r.inFlight.value.sentAt == step.at
            && r.inFlight.value.id == s.sent && r.open == s.open + {s.sent}
            && (r.inFlight.value.cached.Some? <==> StillCached(s, caller).Some?)
  {
    hide CacheRead, AfterRead, StillCached, Discarded;
    var t := s.(now := step.at, timer := None);
    CacheOnly(s, t, caller);
    CacheReadIs(t, caller);
    CachedIsThere(s, caller);
  }

  lemma CachedIsThere(s: Loop, caller: Caller)
    ensures StillCached(s, caller).Some? ==> s.cache.Some?
  {
    hide P.DocumentOf;
  }

  /** Nothing but those two answers changes whether the loop asks unconditionally. */
  lemma UnconditionalSince(s: Loop, step: Step, caller: Caller)
    ensures Do(s, step, caller).unconditional
            == if !Awaited(s, step) then s.unconditional
               else if Given(s, step, caller).Some? then s.unconditional && step.reply.NotModified?
               else s.unconditional || step.reply.NotModified?
  {
    hide React, Next, P.DocumentOf, RetryAfter, CacheRead, AfterRead, Ask, EntryOf;
    var t := s.(now := step.at);
    if step.SettleStep? && Awaited(s, step) {
      var u := t.(open := s.open - {step.id}, inFlight := None);
      HandleUnconditional(u, Read(step.reply, step.headersAt, caller), s.inFlight.value.cached, step.calls, caller);
    } else if step.TimerStep? || step.RefreshStep? {
      AskOnly(t.(timer := None), step.token, caller);
    }
  }

  lemma HandleUnconditional(s: Loop, answer: Answer, cached: Option<Cached>, calls: seq<Call>, caller: Caller)
    requires !s.stopped
    ensures Handle(s, answer, cached, calls, caller).unconditional
            == if answer.Content? then false else s.unconditional || (answer.Unchanged? && cached.None?)
  {
    hide React, EntryOf, Reading;
    match answer {
      case Content(content, etag) =>
        var t := Remember(WriteCache(s.(unconditional := false), EntryOf(content, etag, s.now)), s.now);
        ReactOnly(Emit(t, Shown(content, s.now, false)), calls, caller);
      case Unchanged =>
        if cached.None? {
          UnreachableTells(s.(unconditional := true), calls, caller);
        } else {
          var t := Remember(WriteCache(s, EntryOf(cached.value.content, cached.value.etag, s.now)), s.now);
          ReactOnly(Emit(t, Shown(cached.value.content, s.now, false)), calls, caller);
        }
      case Refused =>
      case SwitchedOff =>
        ReactOnly(Emit(ClearCache(s), if caller.hearsPause then Paused else Disconnected(None)), calls, caller);
      case SlowDown(retryAfter) => UnreachableTells(s, calls, caller);
      case Other => UnreachableTells(s, calls, caller);
    }
  }

  /**
   A loop that starts shows what the cache holds when it is young enough, as stale; clears it when it is not, or is no
   document; and asks, or without a token ends.
   */
  lemma StartTells(now: int, cache: Option<CacheEntry>, token: Option<Text>, caller: Caller)
    ensures var s := Loop(now, false, None, None, false, None, cache, 0, {}, [], None);
            var r, held := Start(now, cache, token, caller), StillCached(s, caller);
            var told := if YoungEnough(held, now) then [Shown(held.value.content, held.value.fetchedAt, true)]
                        else if cache.Some? then [Cleared] else [];
            var etag := if YoungEnough(held, now) && cache.value.etag.Str? then Some(cache.value.etag.t) else None;
            && r.trace == told + (if NoToken(token) then [Cleared, Revoked] else [Asked(etag)])
            && r.lastFetchedAt == LatestFetch(None, held) && (r.inFlight.Some? <==> !NoToken(token))
  {
    hide CacheRead, AfterRead, StillCached, Discarded;
    var s := Loop(now, false, None, None, false, None, cache, 0, {}, [], None);
    CacheReadIs(s, caller);
    CachedIsThere(s, caller);
    StartDiscards(s, caller);
    var held := StillCached(s, caller);
    var t := AfterRead(s, caller);
    var told := if held.None? then t
                else if Fresh(now, held.value.fetchedAt) then
                  Emit(Remember(t, held.value.fetchedAt), Shown(held.value.content, held.value.fetchedAt, true))
                else ClearCache(Remember(t, held.value.fetchedAt));
    assert Start(now, cache, token, caller) == Ask(told, token, caller);
    if YoungEnough(held, now) {
      CacheOnly(s, told, caller);
    } else {
      assert told.cache.None?;
      NothingCached(told, caller);
    }
    CacheReadIs(told, caller);
  }

  lemma StartDiscards(s: Loop, caller: Caller)
    ensures Discarded(s, caller) == if s.cache.Some? && StillCached(s, caller).None? then [Cleared] else []
  {
  }

  lemma NothingCached(s: Loop, caller: Caller)
    requires s.cache.None?
    ensures StillCached(s, caller).None? && Discarded(s, caller) == []
  {
  }

  // ---------- The program ----------

  /**
   `startFetchLoop`. The fields are its closure variables and the caller's cache; the clock is the caller's. The trace,
   what is on screen and the requests out are only looked at in proofs.
   */
  class FetchLoop {
    const caller: Caller
    var now: int
    var stopped: bool
    var timer: Option<int>
    var inFlight: Option<Request>
    var unconditional: bool
    var lastFetchedAt: Option<int>
    var cache: Option<CacheEntry>
    var sent: nat
    ghost var open: set<nat>
    ghost var trace: seq<Event>
    ghost var screen: Option<OnScreen>

    ghost function State(): Loop
      reads this
    {
      Loop(now, stopped, timer, inFlight, unconditional, lastFetchedAt, cache, sent, open, trace, screen)
    }

    /** Shows what the cache holds when it is young enough, and asks. */
    constructor (caller: Caller, now: int, cache: Option<CacheEntry>, token: Option<Text>)
      ensures this.caller == caller
      ensures State() == Start(now, cache, token, caller)
    {
      this.caller := caller;
      this.now := now;
      this.stopped, this.timer, this.inFlight, this.unconditional, this.lastFetchedAt := false, None, None, false, None;
      this.cache, this.sent, this.open, this.trace, this.screen := cache, 0, {}, [], None;
      new;
      hide Reading, Ask;
      var cachedAtStart := ReadCache();
      if cachedAtStart.Some? {
        RememberFetch(cachedAtStart.value.fetchedAt);
        if Fresh(now, cachedAtStart.value.fetchedAt) {
          Tell(Shown(cachedAtStart.value.content, cachedAtStart.value.fetchedAt, true));
        } else {
          Clear();
        }
      }
      RequestContent(token);
    }

    ghost method Tell(e: Event)
      modifies this`trace, this`screen
      ensures State() == Emit(old(State()), e)
    {
      trace := trace + [e];
      screen := ScreenAfter(screen, e);
    }

    method Clear()
      modifies this`cache, this`trace, this`screen
      ensures State() == ClearCache(old(State()))
    {
      cache := None;
      Tell(Cleared);
    }

    method Write(entry: CacheEntry)
      modifies this`cache, this`trace, this`screen
      ensures State() == WriteCache(old(State()), entry)
    {
      cache := Some(entry);
      Tell(Wrote(entry));
    }

    method ReadCache() returns (cached: Option<Cached>)
      modifies this`cache, this`trace, this`screen
      ensures cached == CacheRead(old(State()), caller)
      ensures State() == AfterRead(old(State()), caller)
    {
      if cache.None? {
        return None;
      }
      cached := Reading(cache.value, caller);
      if cached.None? {
        Clear();
      }
    }

    method StopLoop()
      modifies this`stopped, this`timer, this`inFlight
      ensures State() == Stop(old(State()))
    {
      stopped := true;
      timer := None;
      inFlight := None;
    }

    method RevokeToken()
      modifies this
      ensures State() == Revoke(old(State()))
    {
      StopLoop();
      Clear();
      Tell(Revoked);
    }

    method Arm(seconds: int)
      modifies this
      ensures State() == Next(old(State()), seconds)
    {
      if stopped {
        return;
      }
      timer := Some(now + seconds * SECOND);
      Tell(Armed(seconds * SECOND));
    }

    method RememberFetch(fetchedAt: int)
      modifies this`lastFetchedAt
      ensures State() == Remember(old(State()), fetchedAt)
    {
      if lastFetchedAt.None? || lastFetchedAt.value <= fetchedAt {
        lastFetchedAt := Some(fetchedAt);
      }
    }

    /** `request`, up to where it waits. */
    method RequestContent(token: Option<Text>)
      modifies this
      ensures State() == Ask(old(State()), token, caller)
    {
      hide Reading;
      if stopped || inFlight.Some? {
        return;
      }
      if token.None? || token.value == [] {
        RevokeToken();
        return;
      }
      var cached := ReadCache();
      var ifNoneMatch := None;
      if cached.Some? && cached.value.etag.Some? && !unconditional {
        ifNoneMatch := cached.value.etag;
      }
      inFlight := Some(Request(sent, cached, ifNoneMatch, now));
      open := open + {sent};
      sent := sent + 1;
      Tell(Asked(ifNoneMatch));
    }

    method Refresh(token: Option<Text>)
      modifies this
      ensures State() == RefreshNow(old(State()), token, caller)
    {
      hide Ask, Reading;
      if stopped || inFlight.Some? {
        return;
      }
      timer := None;
      RequestContent(token);
    }

    /** A callback, which may call the loop before it returns. */
    method Callback(calls: seq<Call>)
      modifies this
      ensures State() == React(old(State()), calls, caller)
    {
      hide RefreshNow, Stop;
      for i := 0 to |calls|
        invariant State() == React(old(State()), calls[..i], caller)
      {
        assert calls[..i + 1][..i] == calls[..i];
        match calls[i] {
          case CallRefreshNow(token) => Refresh(token);
          case CallStop => StopLoop();
        }
      }
      assert calls[..|calls|] == calls;
    }

    method TellUnreachable(calls: seq<Call>)
      modifies this
      ensures State() == Unreachable(old(State()), calls, caller)
    {
      hide React, Reading;
      var cached := ReadCache();
      if cached.Some? {
        RememberFetch(cached.value.fetchedAt);
      }
      if cached.Some? && Fresh(now, cached.value.fetchedAt) {
        Tell(Shown(cached.value.content, cached.value.fetchedAt, true));
      } else {
        Clear();
        Tell(Disconnected(lastFetchedAt));
      }
      Callback(calls);
      Arm(RETRY_SECONDS);
    }

    method Show(content: C.ScreenContent, fetchedAt: int, calls: seq<Call>)
      requires fetchedAt == now
      modifies this
      ensures State() == ShowFresh(old(State()), content, calls, caller)
    {
      hide React;
      RememberFetch(fetchedAt);
      Tell(Shown(content, fetchedAt, false));
      Callback(calls);
      Arm(Held(C.REFRESH_SECONDS_MIN, C.REFRESH_SECONDS_MAX, content.refreshSeconds));
    }

    method HandleAnswer(answer: Answer, cached: Option<Cached>, calls: seq<Call>)
      modifies this
      ensures State() == Handle(old(State()), answer, cached, calls, caller)
    {
      hide React, Reading, ShowFresh, Unreachable, EntryOf;
      match answer {
        case Content(content, etag) =>
          unconditional := false;
          Write(EntryOf(content, etag, now));
          Show(content, now, calls);
        case Unchanged =>
          if cached.None? {
            unconditional := true;
            TellUnreachable(calls);
            return;
          }
          Write(EntryOf(cached.value.content, cached.value.etag, now));
          Show(cached.value.content, now, calls);
        case Refused =>
          RevokeToken();
        case SwitchedOff =>
          Clear();
          if caller.hearsPause {
            Tell(Paused);
          } else {
            Tell(Disconnected(None));
          }
          Callback(calls);
          Arm(RETRY_SECONDS);
        case SlowDown(retryAfter) =>
          var current := ReadCache();
          if current.Some? && !Fresh(now, current.value.fetchedAt) {
            TellUnreachable(calls);
            return;
          }
          Arm(retryAfter);
        case Other =>
          TellUnreachable(calls);
      }
    }

    /** The timer is due: it is forgotten, and the content asked for. */
    method OnTimer(token: Option<Text>)
      modifies this
      ensures State() == TimerFires(old(State()), token, caller)
    {
      hide Ask;
      timer := None;
      RequestContent(token);
    }

    /** The promise of request `id` settles. */
    method OnSettled(id: nat, reply: Reply, headersAt: int, calls: seq<Call>)
      modifies this
      ensures State() == Settle(old(State()), id, reply, headersAt, calls, caller)
    {
      hide Handle, Read;
      open := open - {id};
      if stopped || inFlight.None? || inFlight.value.id != id {
        return;
      }
      var cached := inFlight.value.cached;
      inFlight := None;
      HandleAnswer(Read(reply, headersAt, caller), cached, calls);
    }

    /** A step at its moment. */
    method Perform(step: Step)
      modifies this
      ensures State() == Do(old(State()), step, caller)
    {
      hide TimerFires, Settle, RefreshNow;
      now := step.at;
      match step {
        case TimerStep(_, token) => OnTimer(token);
        case SettleStep(_, headersAt, id, reply, calls, _) => OnSettled(id, reply, headersAt, calls);
        case RefreshStep(_, token) => Refresh(token);
        case StopStep(_) => StopLoop();
        case WaitStep(_) =>
      }
    }
  }
}
