/**
 * The device's delivery path: a bounded telemetry queue that evicts its
 * oldest item, a bounded alert queue that rejects when full, the drain loop
 * that serves alerts first, and the reconnect loop with capped exponential
 * backoff.  The three device programs share this shape and differ in their
 * queue sizes and in whether a failed alert goes back into the queue.
 */
module DataSender {
  import opened Basics

  /** Queue sizes and alert-retry behaviour of one device program. */
  datatype Policy = Policy(telemetryCap: nat, alertCap: nat, retryAlerts: bool)
  {
    predicate Valid() {
      telemetryCap > 0 && alertCap > 0
    }
  }

  /** `SafeDataSender` of the walking client: 50 / 100, failed alerts go back into the queue. */
  const WalkingClientPolicy: Policy := Policy(50, 100, true)
  /** `SafeDataSender` of the real-time client: 100 / 100, failed alerts go back into the queue. */
  const RealtimeClientPolicy: Policy := Policy(100, 100, true)
  /** `OptimizedDataSender` of the compact client: 20 / 50, a failed alert is dropped. */
  const CompactClientPolicy: Policy := Policy(20, 50, false)

  // ---------------------------------------------------------------------
  // Bounded queues
  // ---------------------------------------------------------------------

  /** `add_imu_data`: `put_nowait`, and on `queue.Full` drop the oldest and put again. */
  function PushTelemetry<T>(q: seq<T>, x: T, cap: nat): (r: seq<T>)
    requires 0 < cap && |q| <= cap
    ensures |r| <= cap
    ensures |q| < cap ==> r == q + [x]
    ensures |q| == cap ==> r == q[1..] + [x]
  {
    DequeAppend(q, x, cap)
  }

  /** The outcome of `add_fall_data`: the queue afterwards and whether the alert was admitted. */
  datatype Admission<T> = Admission(queue: seq<T>, admitted: bool)

  /** `add_fall_data`: `put_nowait`; on `queue.Full` the alert is refused and nothing changes. */
  function PushAlert<T>(q: seq<T>, x: T, cap: nat): (r: Admission<T>)
    requires |q| <= cap
    ensures |r.queue| <= cap
    ensures r.admitted <==> |q| < cap
    ensures r.admitted ==> r.queue == q + [x]
    ensures !r.admitted ==> r.queue == q
  {
    if |q| < cap then Admission(q + [x], true) else Admission(q, false)
  }

  /** Eviction keeps exactly the newest `cap` items of everything offered. */
  lemma {:induction false} TelemetryKeepsNewest<T>(q: seq<T>, xs: seq<T>, cap: nat)
    requires 0 < cap && |q| <= cap
    ensures |PushAllTelemetry(q, xs, cap)| == Min(|q| + |xs|, cap)
    ensures PushAllTelemetry(q, xs, cap) == (q + xs)[|q| + |xs| - |PushAllTelemetry(q, xs, cap)|..]
    decreases |xs|
  {
    if |xs| > 0 {
      var q1 := PushTelemetry(q, xs[0], cap);
      TelemetryKeepsNewest(q1, xs[1..], cap);
      var r := PushAllTelemetry(q1, xs[1..], cap);
      assert r == PushAllTelemetry(q, xs, cap);
      var d := |q| + 1 - |q1|;
      PushShift(q, xs, cap);
      assert (q1 + xs[1..])[|q1| + |xs| - 1 - |r|..] == (q + xs)[d..][|q1| + |xs| - 1 - |r|..];
    } else {
      assert q + xs == q;
    }
  }

  lemma PushShift<T>(q: seq<T>, xs: seq<T>, cap: nat)
    requires 0 < cap && |q| <= cap && |xs| > 0
    ensures PushTelemetry(q, xs[0], cap) + xs[1..] == (q + xs)[|q| + 1 - |PushTelemetry(q, xs[0], cap)|..]
  {
    var q1 := PushTelemetry(q, xs[0], cap);
    assert q + xs == q + [xs[0]] + xs[1..];
    if |q| == cap {
      assert q1 == q[1..] + [xs[0]];
    }
  }

  function PushAllTelemetry<T>(q: seq<T>, xs: seq<T>, cap: nat): (r: seq<T>)
    requires 0 < cap && |q| <= cap
    ensures |r| <= cap
    decreases |xs|
  {
    if |xs| == 0 then q else PushAllTelemetry(PushTelemetry(q, xs[0], cap), xs[1..], cap)
  }

  // ---------------------------------------------------------------------
  // Drain loop
  // ---------------------------------------------------------------------

  /** The sender's queues and its socket flags (`websocket` set, `connected`). */
  datatype Sender<T> = Sender(telemetry: seq<T>, alerts: seq<T>, hasSocket: bool, connected: bool)
  {
    predicate Fits(p: Policy) {
      |telemetry| <= p.telemetryCap && |alerts| <= p.alertCap
    }
  }

  /** Whether `websocket.send` completes or raises. */
  datatype SendOutcome = Delivered | SendFailed

  /** The sender after one pass of `send_loop`, and the item handed to the socket, if any. */
  datatype Tick<T> = Tick(next: Sender<T>, sent: Option<T>)

  /**
   * One pass of `send_loop` followed by `_send_data`.  A dequeued alert that
   * cannot be sent is put back with `put_nowait`, which appends it at the back.
   */
  function DrainTick<T>(p: Policy, s: Sender<T>, outcome: SendOutcome): (t: Tick<T>)
    requires p.Valid() && s.Fits(p)
    ensures t.next.Fits(p)
    ensures t.next.hasSocket == s.hasSocket && t.next.connected == s.connected
    // A pending alert is always served before any telemetry.
    ensures |s.alerts| > 0 ==> t.next.telemetry == s.telemetry
    ensures |s.alerts| > 0 && t.sent.Some? ==> t.sent.value == s.alerts[0]
    // Telemetry is served only while connected and no alert is pending.
    ensures t.next.telemetry != s.telemetry ==>
      |s.alerts| == 0 && s.connected && |s.telemetry| > 0 && t.next.telemetry == s.telemetry[1..]
    ensures |s.alerts| == 0 && t.sent.Some? ==> s.connected && |s.telemetry| > 0 && t.sent.value == s.telemetry[0]
    // Something reaches the socket exactly when an item was due, a socket exists and the send succeeded.
    ensures t.sent.Some? <==>
      (|s.alerts| > 0 || (s.connected && |s.telemetry| > 0)) && s.hasSocket && outcome == Delivered
    // An alert that is not delivered goes back into the queue under a retrying policy.
    ensures p.retryAlerts && |s.alerts| > 0 ==>
      multiset(t.next.alerts) + (if t.sent.Some? then multiset{t.sent.value} else multiset{}) == multiset(s.alerts)
    // Telemetry is never put back.
    ensures |t.next.telemetry| <= |s.telemetry|
  {
    if |s.alerts| > 0 then
      var a := s.alerts[0];
      var rest := s.alerts[1..];
      assert s.alerts == [a] + rest;
      if s.hasSocket && outcome == Delivered then Tick(s.(alerts := rest), Some(a))
      else if p.retryAlerts then Tick(s.(alerts := PushAlert(rest, a, p.alertCap).queue), None)
      else Tick(s.(alerts := rest), None)
    else if s.connected && |s.telemetry| > 0 then
      var x := s.telemetry[0];
      var next := s.(telemetry := s.telemetry[1..]);
      if s.hasSocket && outcome == Delivered then Tick(next, Some(x)) else Tick(next, None)
    else Tick(s, None)
  }

  /** Under a retrying policy a pending alert is never lost, whatever the socket does. */
  lemma AlertsNeverLostWhenRetrying<T>(p: Policy, s: Sender<T>, outcome: SendOutcome)
    requires p.Valid() && s.Fits(p) && p.retryAlerts
    requires |s.alerts| > 0
    ensures var t := DrainTick(p, s, outcome);
      t.sent == Some(s.alerts[0]) || s.alerts[0] in t.next.alerts
  {
    var t := DrainTick(p, s, outcome);
    if t.sent.None? {
      assert t.next.alerts == s.alerts[1..] + [s.alerts[0]];
      assert t.next.alerts[|t.next.alerts| - 1] == s.alerts[0];
    }
  }

  /** Under the compact client's policy a failed alert send loses the alert. */
  lemma CompactClientLosesFailedAlert<T>(s: Sender<T>)
    requires s.Fits(CompactClientPolicy)
    requires |s.alerts| > 0 && !s.hasSocket
    ensures var t := DrainTick(CompactClientPolicy, s, SendFailed);
      t.sent.None? && t.next.alerts == s.alerts[1..]
  {
  }

  /**
   * With two alerts pending and no socket, one pass swaps them: the back
   * re-enqueue does not preserve the order in which falls were detected.
   */
  lemma RequeueReordersAlerts<T>(p: Policy, a: T, b: T)
    requires p.Valid() && p.retryAlerts && p.alertCap >= 2
    ensures DrainTick(p, Sender([], [a, b], false, false), SendFailed).next.alerts == [b, a]
  {
    assert [a, b][1..] == [b];
  }

  /**
   * The drain with the evidently intended retry: a failed alert is put back
   * at the front of the queue, so the alert queue stays in detection order.
   */
  function DrainTickInOrder<T>(p: Policy, s: Sender<T>, outcome: SendOutcome): (t: Tick<T>)
    requires p.Valid() && s.Fits(p)
    ensures t.next.Fits(p)
    ensures |s.alerts| > 0 ==> t.next.telemetry == s.telemetry
    ensures t.next.telemetry != s.telemetry ==>
      |s.alerts| == 0 && s.connected && |s.telemetry| > 0 && t.next.telemetry == s.telemetry[1..]
    ensures t.sent.Some? <==>
      (|s.alerts| > 0 || (s.connected && |s.telemetry| > 0)) && s.hasSocket && outcome == Delivered
    // Alerts leave only from the front, and only by being delivered.
    ensures p.retryAlerts ==>
      if |s.alerts| > 0 && t.sent.Some? then t.sent.value == s.alerts[0] && t.next.alerts == s.alerts[1..]
      else t.next.alerts == s.alerts
  {
    if |s.alerts| > 0 then
      var a := s.alerts[0];
      if s.hasSocket && outcome == Delivered then Tick(s.(alerts := s.alerts[1..]), Some(a))
      else if p.retryAlerts then Tick(s, None)
      else Tick(s.(alerts := s.alerts[1..]), None)
    else if s.connected && |s.telemetry| > 0 then
      var x := s.telemetry[0];
      var next := s.(telemetry := s.telemetry[1..]);
      if s.hasSocket && outcome == Delivered then Tick(next, Some(x)) else Tick(next, None)
    else Tick(s, None)
  }

  /** Alerts delivered by the in-order drain go out in the order they were queued. */
  lemma {:induction false} InOrderDeliversInQueueOrder<T>(p: Policy, s: Sender<T>, outcomes: seq<SendOutcome>)
    requires p.Valid() && s.Fits(p) && p.retryAlerts
    ensures var r := RunInOrder(p, s, outcomes);
      s.alerts == r.sent + r.next.alerts
    decreases |outcomes|
  {
    if |outcomes| > 0 {
      var t := DrainTickInOrder(p, s, outcomes[0]);
      InOrderDeliversInQueueOrder(p, t.next, outcomes[1..]);
      if |s.alerts| > 0 && t.sent.Some? {
        assert s.alerts == [s.alerts[0]] + s.alerts[1..];
      }
    }
  }

  /** The alerts handed to the socket and the sender after a run of in-order drain passes. */
  datatype Drained<T> = Drained(next: Sender<T>, sent: seq<T>)

  /** Repeated in-order drain passes, recording only delivered alerts. */
  function RunInOrder<T>(p: Policy, s: Sender<T>, outcomes: seq<SendOutcome>): (r: Drained<T>)
    requires p.Valid() && s.Fits(p)
    ensures r.next.Fits(p)
    decreases |outcomes|
  {
    if |outcomes| == 0 then Drained(s, [])
    else
      var t := DrainTickInOrder(p, s, outcomes[0]);
      var rest := RunInOrder(p, t.next, outcomes[1..]);
      var delivered := if |s.alerts| > 0 && t.sent.Some? then [t.sent.value] else [];
      Drained(rest.next, delivered + rest.sent)
  }

  // ---------------------------------------------------------------------
  // Reconnect loop
  // ---------------------------------------------------------------------

  const InitialDelay: nat := 1
  const MaxDelay: nat := 30

  /** The delay slept after a round, and the delay carried into the next one. */
  datatype Backoff = Backoff(slept: nat, next: nat)

  /**
   * One round of `websocket_handler`: a successful connect resets the delay
   * to 1; when the round ends the handler sleeps for the current delay and
   * then doubles it, capped at 30 seconds.
   */
  function HandlerRound(delay: nat, connected: bool): (b: Backoff)
    requires InitialDelay <= delay <= MaxDelay
    ensures InitialDelay <= b.slept <= MaxDelay && InitialDelay <= b.next <= MaxDelay
    ensures connected ==> b.slept == InitialDelay
    ensures !connected ==> b.slept == delay
    ensures b.next >= b.slept && (b.next == MaxDelay || b.next == 2 * b.slept)
  {
    var slept := if connected then InitialDelay else delay;
    Backoff(slept, if 2 * slept < MaxDelay then 2 * slept else MaxDelay)
  }

  function Pow2(k: nat): nat {
    if k == 0 then 1 else 2 * Pow2(k - 1)
  }

  function Min(a: int, b: int): int {
    if a < b then a else b
  }

  /** After `k` failed attempts in a row from a reset, the next sleep is min(2^k, 30) seconds. */
  lemma {:induction false} DelayAfterFailures(k: nat)
    ensures DelayAfter(k) == Min(Pow2(k), MaxDelay)
  {
    if k > 0 {
      DelayAfterFailures(k - 1);
    }
  }

  /** The delay held after a connect followed by `k` failed attempts. */
  function DelayAfter(k: nat): (d: nat)
    ensures InitialDelay <= d <= MaxDelay
  {
    if k == 0 then InitialDelay else HandlerRound(DelayAfter(k - 1), false).next
  }
}
