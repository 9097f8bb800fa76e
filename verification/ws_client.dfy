/**
 * The browser's socket service (`WebSocketService`): the listener registry,
 * the reconnect counter, how an incoming message is dispatched to events,
 * and the size fields of the fallback beep's WAV header.
 */
module WsClient {
  import opened Basics
  import W = WalkingManager
  import Routes

  // ---------------------------------------------------------------------
  // Listener registry
  // ---------------------------------------------------------------------

  /** Listeners per event name, in registration order; `C` stands for a callback compared by identity. */
  type Registry<C> = map<string, seq<C>>

  /** `on`: append the callback to the event's list, creating it if needed. */
  function On<C>(reg: Registry<C>, event: string, cb: C): (r: Registry<C>)
    ensures r.Keys == reg.Keys + {event}
    ensures r[event] == (if event in reg then reg[event] else []) + [cb]
    ensures forall e :: e in reg && e != event ==> r[e] == reg[e]
  {
    reg[event := (if event in reg then reg[event] else []) + [cb]]
  }

  /** `s` with every copy of `x` removed, the rest in order (`filter(cb => cb !== x)`). */
  function Without<C(==)>(s: seq<C>, x: C): (r: seq<C>)
    ensures x !in r
    ensures forall i :: 0 <= i < |r| ==> r[i] in s
    ensures forall y :: y in s && y != x ==> y in r
    ensures x !in s ==> r == s
  {
    if |s| == 0 then []
    else
      assert s == [s[0]] + s[1..];
      (if s[0] == x then [] else [s[0]]) + Without(s[1..], x)
  }

  /** Every other callback keeps all its copies. */
  lemma {:induction false} WithoutKeepsOthers<C>(s: seq<C>, x: C)
    ensures forall y :: y != x ==> multiset(Without(s, x))[y] == multiset(s)[y]
  {
    if |s| > 0 {
      WithoutKeepsOthers(s[1..], x);
      assert s == [s[0]] + s[1..];
      var head := if s[0] == x then [] else [s[0]];
      assert Without(s, x) == head + Without(s[1..], x);
      assert multiset(Without(s, x)) == multiset(head) + multiset(Without(s[1..], x));
      assert multiset(s) == multiset([s[0]]) + multiset(s[1..]);
    }
  }

  /** Removing copies respects the order of a list built in two parts. */
  lemma {:induction false} WithoutConcat<C>(a: seq<C>, b: seq<C>, x: C)
    ensures Without(a + b, x) == Without(a, x) + Without(b, x)
  {
    if |a| > 0 {
      var head := if a[0] == x then [] else [a[0]];
      assert (a + b)[0] == a[0];
      assert (a + b)[1..] == a[1..] + b;
      assert Without(a + b, x) == head + Without(a[1..] + b, x);
      WithoutConcat(a[1..], b, x);
      assert Without(a, x) == head + Without(a[1..], x);
    } else {
      assert a + b == b;
    }
  }

  /** `off(event, cb)` removes every copy of `cb`; `off(event)` drops the event. */
  function Off<C(==)>(reg: Registry<C>, event: string, cb: Option<C>): (r: Registry<C>)
    ensures event !in reg ==> r == reg
    ensures event in reg && cb.None? ==> r == reg - {event}
    ensures event in reg && cb.Some? ==> r.Keys == reg.Keys && cb.value !in r[event]
    ensures forall e :: e in reg && e != event ==> e in r && r[e] == reg[e]
  {
    if event !in reg then reg
    else if cb.None? then reg - {event}
    else reg[event := Without(reg[event], cb.value)]
  }

  /** `emit`: the callbacks called, in the order they are called. */
  function Emit<C>(reg: Registry<C>, event: string): (calls: seq<C>)
    ensures event !in reg ==> calls == []
    ensures event in reg ==> calls == reg[event]
  {
    if event in reg then reg[event] else []
  }

  /** A new listener is called last, after every earlier one. */
  lemma EmitAfterOn<C>(reg: Registry<C>, event: string, cb: C)
    ensures Emit(On(reg, event, cb), event) == Emit(reg, event) + [cb]
  {
  }

  /** Registering and then removing a callback is the same as just removing it. */
  lemma OffUndoesOn<C>(reg: Registry<C>, event: string, cb: C)
    ensures Emit(Off(On(reg, event, cb), event, Some(cb)), event) == Emit(Off(reg, event, Some(cb)), event)
  {
    if event in reg {
      WithoutConcat(reg[event], [cb], cb);
    }
    assert Without([cb], cb) == [];
  }

  // ---------------------------------------------------------------------
  // Reconnect counter
  // ---------------------------------------------------------------------

  /** `maxReconnectAttempts`. */
  const MaxReconnectAttempts: int := 5

  /** The close code of a normal closure. */
  const NormalClosure: int := 1000

  /** `this.socket`: none, or a socket in one of its ready states. */
  datatype Sock = NoSocket | Connecting | Open | Closed

  /** The service's connection bookkeeping; `pending` counts reconnect timers not yet fired. */
  datatype Client = Client(socket: Sock, connected: bool, attempts: int, pending: nat)

  const Initial := Client(NoSocket, false, 0, 0)

  /** `connect`: a no-op on an open socket, otherwise a new socket starts connecting. */
  function Connect(c: Client): (r: Client)
    ensures c.socket == Open ==> r == c
    ensures c.socket != Open ==> r == c.(socket := Connecting)
  {
    if c.socket == Open then c else c.(socket := Connecting)
  }

  /** `onopen`: connected, and the attempt count starts over. */
  function Opened(c: Client): (r: Client)
    ensures r.connected && r.attempts == 0 && r.socket == Open && r.pending == c.pending
  {
    Client(Open, true, 0, c.pending)
  }

  /**
   * `onclose` with a close code: only an abnormal closure counts an attempt
   * and schedules a reconnect timer.  The handler does not touch
   * `this.socket`, whose ready state becomes closed.  The event is the close
   * of the current socket: a late close of a socket that `connect` has
   * since replaced is not modelled.
   */
  function CloseEvent(c: Client, code: int): (r: Client)
    ensures !r.connected
    ensures code == NormalClosure ==> r.attempts == c.attempts && r.pending == c.pending
    ensures code != NormalClosure ==> r.attempts == c.attempts + 1 && r.pending == c.pending + 1
    ensures r.socket == (if c.socket == NoSocket then NoSocket else Closed)
  {
    var c1 := c.(connected := false, socket := if c.socket == NoSocket then NoSocket else Closed);
    if code != NormalClosure then c1.(attempts := c1.attempts + 1, pending := c1.pending + 1) else c1
  }

  /** A reconnect timer fires: it reconnects only while the count is within the maximum. */
  function TimerFires(c: Client): (r: Client)
    ensures c.pending == 0 ==> r == c
    ensures c.pending > 0 ==> r.pending == c.pending - 1 && r.attempts == c.attempts
    ensures c.pending > 0 && (c.socket == NoSocket || c.socket == Closed) ==>
      (r.socket == Connecting <==> c.attempts <= MaxReconnectAttempts)
    ensures c.pending > 0 && c.attempts > MaxReconnectAttempts ==> r.socket == c.socket
  {
    if c.pending == 0 then c
    else
      var c1 := c.(pending := c.pending - 1);
      if c1.attempts <= MaxReconnectAttempts then Connect(c1) else c1
  }

  /** `disconnect` as written: the count is set to the maximum, which a pending timer still accepts. */
  function DisconnectAsWritten(c: Client): (r: Client)
    ensures r.socket == NoSocket && r.attempts == MaxReconnectAttempts && r.pending == c.pending
  {
    c.(socket := NoSocket, attempts := MaxReconnectAttempts)
  }

  /** `disconnect` with the count set past the maximum, so that no pending timer reconnects. */
  function Disconnect(c: Client): (r: Client)
    ensures r.socket == NoSocket && r.attempts > MaxReconnectAttempts && r.pending == c.pending
  {
    c.(socket := NoSocket, attempts := MaxReconnectAttempts + 1)
  }

  /** What can happen to the service after the user asked to disconnect. */
  datatype Event = TimerFired | SocketClosed(code: int)

  function Apply(c: Client, e: Event): Client {
    match e
    case TimerFired => TimerFires(c)
    case SocketClosed(code) => CloseEvent(c, code)
  }

  function Run(c: Client, events: seq<Event>): Client
    decreases |events|
  {
    if |events| == 0 then c else Run(Apply(c, events[0]), events[1..])
  }

  /**
   * As written, a reconnect scheduled before the user disconnects still
   * fires and opens a new socket.
   */
  lemma PendingTimerReconnectsAfterDisconnect(c: Client)
    requires c.pending > 0
    ensures Run(DisconnectAsWritten(c), [TimerFired]).socket == Connecting
  {
  }

  /** After the corrected disconnect, no timer or late close event ever opens a socket again. */
  lemma {:induction false} NoReconnectAfterDisconnect(c: Client, events: seq<Event>)
    requires c.socket == NoSocket && c.attempts > MaxReconnectAttempts
    ensures Run(c, events).socket == NoSocket
    ensures Run(c, events).attempts > MaxReconnectAttempts
    decreases |events|
  {
    if |events| > 0 {
      NoReconnectAfterDisconnect(Apply(c, events[0]), events[1..]);
    }
  }

  lemma DisconnectStaysDisconnected(c: Client, events: seq<Event>)
    ensures Run(Disconnect(c), events).socket == NoSocket
  {
    NoReconnectAfterDisconnect(Disconnect(c), events);
  }

  /** One failed reconnect cycle: the socket closes abnormally and the timer it scheduled fires. */
  function FailedCycles(c: Client, k: nat): Client
    decreases k
  {
    if k == 0 then c else TimerFires(CloseEvent(FailedCycles(c, k - 1), 1006))
  }

  /**
   * From an open socket, the k-th consecutive abnormal closure counts k
   * attempts and reconnects exactly while k is at most five.
   */
  lemma {:induction false} ReconnectsAtMostFiveTimes(c: Client, k: nat)
    requires c.socket == Open && c.attempts == 0 && c.pending == 0
    ensures FailedCycles(c, k).attempts == k && FailedCycles(c, k).pending == 0
    ensures k > 0 ==> (FailedCycles(c, k).socket == Connecting <==> k <= MaxReconnectAttempts)
  {
    if k > 0 {
      ReconnectsAtMostFiveTimes(c, k - 1);
    }
  }

  // ---------------------------------------------------------------------
  // Message dispatch
  // ---------------------------------------------------------------------

  /** Whether reading `data.data.message` would throw: `data.data` is missing or null. */
  predicate DataUnreadable(m: map<string, Json>) {
    Get(m, "data", JNull) == JNull
  }

  /** The events a fall alert raises, in order. */
  const FallEvents: seq<string> := ["show_emergency_modal", "fall_detected", "show_emergency_modal"]

  /** The events a CRITICAL declaration raises, in order. */
  const CriticalEvents: seq<string> := ["show_critical_modal", "emergency_critical", "show_critical_modal"]

  /**
   * `onmessage` for a message that decoded to `parsed` (`None`: not JSON):
   * the names of the events emitted, in order.  An exception inside the
   * handler is caught, so it emits nothing after the point of failure.
   */
  function Dispatch(parsed: Option<Json>): (events: seq<string>)
    ensures parsed.None? || parsed == Some(JNull) ==> events == []
    ensures parsed.Some? && parsed.value != JNull && !parsed.value.JObj? ==> events == ["message"]
    ensures parsed.Some? && parsed.value.JObj? ==>
      var m := parsed.value.fields;
      var kind := Get(m, "type", JNull);
      && (kind == JStr("fall_alert") ==> events == if DataUnreadable(m) then [] else FallEvents)
      && (kind == JStr("emergency_declared") ==> events == if DataUnreadable(m) then [] else CriticalEvents)
      && (kind == JStr("emergency_resolved") ==> events == ["emergency_resolved"])
      && (kind == JStr("emergency_confirmed_critical") ==> events == ["emergency_confirmed_critical"])
      && (kind == JStr("health_check_response") ==> events == ["health_check_received"])
    // Any other message is passed on once as `message`, followed by a state update when it carries one.
    ensures parsed.Some? && parsed.value.JObj? && !IsHandledType(Get(parsed.value.fields, "type", JNull)) ==>
      && |events| >= 1 && events[0] == "message" && "message" !in events[1..]
      && (events[1..] == ["user_state_update"] <==> JsTruthy(Get(parsed.value.fields, "user_state", JNull)))
      && (events[1..] == [] <==> !JsTruthy(Get(parsed.value.fields, "user_state", JNull)))
  {
    match parsed
    case None => []
    case Some(doc) =>
      if doc == JNull then []
      else if !doc.JObj? then ["message"]
      else
        var m := doc.fields;
        var kind := Get(m, "type", JNull);
        if kind == JStr("fall_alert") then (if DataUnreadable(m) then [] else FallEvents)
        else if kind == JStr("emergency_declared") then (if DataUnreadable(m) then [] else CriticalEvents)
        else if kind == JStr("emergency_resolved") then ["emergency_resolved"]
        else if kind == JStr("emergency_confirmed_critical") then ["emergency_confirmed_critical"]
        else if kind == JStr("health_check_response") then ["health_check_received"]
        else ["message"] + (if JsTruthy(Get(m, "user_state", JNull)) then ["user_state_update"] else [])
  }

  /**
   * JavaScript truthiness of a parsed value: objects and arrays are truthy
   * even when empty, unlike Python's.
   */
  predicate JsTruthy(j: Json) {
    match j
    case JNull => false
    case JBool(b) => b
    case JNum(n) => n != 0.0
    case JStr(s) => |s| > 0
    case JArr(_) => true
    case JObj(_) => true
  }

  /** An empty user state still raises `user_state_update`; an empty string does not. */
  lemma EmptyUserStateIsTruthy()
    ensures Dispatch(Some(JObj(map["user_state" := JObj(map[])]))) == ["message", "user_state_update"]
    ensures Dispatch(Some(JObj(map["user_state" := JArr([])]))) == ["message", "user_state_update"]
    ensures Dispatch(Some(JObj(map["user_state" := JStr("")]))) == ["message"]
  {
  }

  /** The message types with a handler of their own. */
  predicate IsHandledType(kind: Json) {
    kind in {JStr("fall_alert"), JStr("emergency_declared"), JStr("emergency_resolved"),
             JStr("emergency_confirmed_critical"), JStr("health_check_response")}
  }

  /** Every alert the server broadcasts reaches its own handler in the browser, never the generic `message`. */
  lemma ServerAlertsReachTheirHandlers(u: string, record: map<string, Json>, secs: int, kind: Json, timestamp: string)
    ensures Dispatch(Some(JObj(W.FallAlert(u, record)))) == FallEvents
    ensures Dispatch(Some(JObj(W.DeclaredAlert(u, secs, timestamp)))) == CriticalEvents
    ensures Dispatch(Some(JObj(Routes.ResolvedAlert(u, secs, kind, timestamp)))) == ["emergency_resolved"]
    ensures Dispatch(Some(JObj(Routes.ConfirmedAlert(u, secs, kind, timestamp)))) == ["emergency_confirmed_critical"]
  {
    FallAlertDispatched(u, record);
    DeclaredAlertDispatched(u, secs, timestamp);
    ResolvedAlertDispatched(u, secs, kind, timestamp);
    ConfirmedAlertDispatched(u, secs, kind, timestamp);
  }

  /** The fall alert shows the emergency modal. */
  lemma FallAlertDispatched(u: string, record: map<string, Json>)
    ensures Dispatch(Some(JObj(W.FallAlert(u, record)))) == FallEvents
  {
  }

  /** The declaration shows the critical modal. */
  lemma DeclaredAlertDispatched(u: string, secs: int, timestamp: string)
    ensures Dispatch(Some(JObj(W.DeclaredAlert(u, secs, timestamp)))) == CriticalEvents
  {
  }

  /** The resolution reaches its own handler. */
  lemma ResolvedAlertDispatched(u: string, secs: int, kind: Json, timestamp: string)
    ensures Dispatch(Some(JObj(Routes.ResolvedAlert(u, secs, kind, timestamp)))) == ["emergency_resolved"]
  {
  }

  /** The confirmation reaches its own handler. */
  lemma ConfirmedAlertDispatched(u: string, secs: int, kind: Json, timestamp: string)
    ensures Dispatch(Some(JObj(Routes.ConfirmedAlert(u, secs, kind, timestamp)))) == ["emergency_confirmed_critical"]
  {
  }

  // ---------------------------------------------------------------------
  // Fallback beep
  // ---------------------------------------------------------------------

  /** `sampleRate` of the beep. */
  const BeepRate: nat := 8000

  /** The numeric fields of the 44-byte WAV header `_generateBeepData` writes, and the buffer length. */
  datatype WavHeader = WavHeader(
    bufferLength: nat, riffSize: nat, fmtSize: nat, format: nat, channels: nat,
    sampleRate: nat, byteRate: nat, blockAlign: nat, bitsPerSample: nat, dataSize: nat)

  /** `_generateBeepData` for a beep of `samples` samples (`Math.floor(8000 * duration)`). */
  function BeepHeader(samples: nat): (h: WavHeader)
    ensures h.bufferLength == 44 + 2 * samples
    ensures h.dataSize == 2 * samples
  {
    WavHeader(44 + samples * 2, 36 + samples * 2, 16, 1, 1, BeepRate, BeepRate * 2, 2, 16, samples * 2)
  }

  /** What a well-formed mono PCM WAV file's header must satisfy. */
  predicate WellFormedPcm(h: WavHeader) {
    && h.format == 1 && h.fmtSize == 16
    && h.blockAlign == h.channels * (h.bitsPerSample / 8)
    && h.byteRate == h.sampleRate * h.blockAlign
    // The RIFF chunk holds "WAVE", the fmt chunk and the data chunk with their 8-byte headers.
    && h.riffSize == 4 + (8 + h.fmtSize) + (8 + h.dataSize)
    && h.bufferLength == h.riffSize + 8
  }

  /** The beep's header is a well-formed PCM header for every length, with a 16-bit slot per sample. */
  lemma BeepHeaderWellFormed(samples: nat)
    ensures WellFormedPcm(BeepHeader(samples))
    ensures BeepHeader(samples).dataSize == samples * (BeepHeader(samples).bitsPerSample / 8)
  {
  }
}
