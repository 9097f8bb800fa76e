/**
 * The device's state manager (`ImprovedStateManager`): Daily, Walking and
 * Fall, with fall priority and cooldown and confirmation periods on both
 * walking transitions.  Clock readings are passed in explicitly.
 */
module StateManager {
  import opened Basics

  /** The device's `UserState` enum; Emergency is declared but never entered here. */
  datatype DeviceState = Daily | Walking | Fall | Emergency

  /** The wire value of each device state. */
  function DeviceLabel(s: DeviceState): (l: string)
    ensures |l| > 0
  {
    match s
    case Daily => "Idle"
    case Walking => "Walking"
    case Fall => "Fall"
    case Emergency => "Emergency"
  }

  /** The four wire values are pairwise distinct. */
  lemma DeviceLabelInjective(s: DeviceState, t: DeviceState)
    ensures DeviceLabel(s) == DeviceLabel(t) <==> s == t
  {
  }

  const FallCooldownMs: int := 10000
  const WalkingConfirmMs: int := 3000
  const IdleConfirmMs: int := 8000
  const FallRecoveryMs: int := 5000

  datatype Manager = Manager(
    state: DeviceState,
    stateStart: Stamp,
    lastFall: Option<Stamp>,
    pendingWalk: Option<Stamp>)
  {
    /** A walking start can only be pending while in Daily. */
    predicate Valid() {
      pendingWalk.Some? ==> state == Daily
    }
  }

  function Initial(now: Stamp): Manager {
    Manager(Daily, now, None, None)
  }

  /** `_can_detect_fall`: no fall accepted yet, or the cooldown has strictly elapsed. */
  predicate CanDetectFall(m: Manager, now: Stamp) {
    m.lastFall.None? || now - m.lastFall.value > FallCooldownMs
  }

  /** The manager after one cycle, and whether `update_state` reported a transition. */
  datatype Update = Update(next: Manager, changed: bool)

  /** `update_state(is_walking, fall_detected)` at clock reading `now`. */
  function UpdateState(m: Manager, isWalking: bool, fallDetected: bool, now: Stamp): (u: Update)
    ensures m.Valid() ==> u.next.Valid()
    // A reported transition always restarts the state clock; no report means no transition.
    ensures u.changed ==> u.next.stateStart == now
    ensures !u.changed ==> u.next.state == m.state && u.next.stateStart == m.stateStart
                           && u.next.lastFall == m.lastFall
    // An accepted fall overrides everything else and clears a pending walking start.
    ensures fallDetected && CanDetectFall(m, now) ==>
      u.changed && u.next == Manager(Fall, now, Some(now), None)
    // Only an accepted fall enters Fall or records a fall time.
    ensures (u.next.lastFall != m.lastFall || (u.next.state == Fall && m.state != Fall)) ==>
      fallDetected && CanDetectFall(m, now)
    // Emergency is never entered.
    ensures u.next.state == Emergency ==> m.state == Emergency
    // Daily to Walking only after a pending start at least three seconds old.
    ensures m.state == Daily && u.next.state == Walking <==>
      m.state == Daily && !(fallDetected && CanDetectFall(m, now)) && isWalking
      && m.pendingWalk.Some? && now - m.pendingWalk.value >= WalkingConfirmMs
    // A non-walking cycle in Daily cancels a pending start.
    ensures m.state == Daily && !isWalking ==> u.next.pendingWalk.None?
    // A walking cycle in Daily starts the confirmation clock if it is not running.
    ensures m.state == Daily && isWalking && m.pendingWalk.None? && !(fallDetected && CanDetectFall(m, now)) ==>
      u.next == m.(pendingWalk := Some(now)) && !u.changed
    // Walking to Daily: strictly more than eight seconds after Walking began.
    ensures m.state == Walking && u.next.state == Daily <==>
      m.state == Walking && !(fallDetected && CanDetectFall(m, now)) && !isWalking
      && now - m.stateStart > IdleConfirmMs
    // Fall to Daily: strictly more than five seconds after the fall.
    ensures m.state == Fall && u.next.state == Daily <==>
      m.state == Fall && !(fallDetected && CanDetectFall(m, now)) && now - m.stateStart > FallRecoveryMs
    // Outside Daily the pending start is never touched except by a fall.
    ensures m.state != Daily && !u.changed ==> u.next.pendingWalk == m.pendingWalk
  {
    if fallDetected && CanDetectFall(m, now) then
      Update(Manager(Fall, now, Some(now), None), true)
    else if m.state == Daily && isWalking then
      if m.pendingWalk.None? then Update(m.(pendingWalk := Some(now)), false)
      else if now - m.pendingWalk.value >= WalkingConfirmMs then
        Update(m.(state := Walking, stateStart := now, pendingWalk := None), true)
      else Update(m, false)
    else if m.state == Daily && !isWalking then
      Update(m.(pendingWalk := None), false)
    else if m.state == Walking && !isWalking then
      if now - m.stateStart > IdleConfirmMs then Update(m.(state := Daily, stateStart := now), true)
      else Update(m, false)
    else if m.state == Fall then
      if now - m.stateStart > FallRecoveryMs then Update(m.(state := Daily, stateStart := now), true)
      else Update(m, false)
    else Update(m, false)
  }

  /** `should_send_data`: everything but Daily is reported. */
  predicate ShouldSendData(m: Manager) {
    m.state != Daily
  }

  // ---------------------------------------------------------------------
  // Traces
  // ---------------------------------------------------------------------

  /** One detector verdict delivered to the manager. */
  datatype Input = Input(isWalking: bool, fallDetected: bool, now: Stamp)

  /** The manager after the given cycles, most recent last. */
  function Run(m: Manager, inputs: seq<Input>): Manager
    decreases |inputs|
  {
    if |inputs| == 0 then m
    else
      var last := inputs[|inputs| - 1];
      UpdateState(Run(m, inputs[..|inputs| - 1]), last.isWalking, last.fallDetected, last.now).next
  }

  /** Every cycle from `j` up to (excluding) `n` reported walking, and cycle `j` happened at `p`. */
  ghost predicate WalkingSince(inputs: seq<Input>, j: int, n: int, p: int) {
    0 <= j < n <= |inputs| && inputs[j].now == p
    && forall k :: j <= k < n ==> inputs[k].isWalking
  }

  /** A running confirmation clock always started at a walking cycle with no non-walking cycle since. */
  lemma {:induction false} PendingWalkHistory(m0: Manager, inputs: seq<Input>, n: nat)
    requires m0.pendingWalk.None?
    requires n <= |inputs|
    ensures var m := Run(m0, inputs[..n]);
      m.pendingWalk.Some? ==> m.state == Daily && exists j :: WalkingSince(inputs, j, n, m.pendingWalk.value)
  {
    if n > 0 {
      assert inputs[..n][..n - 1] == inputs[..n - 1];
      PendingWalkHistory(m0, inputs, n - 1);
      var before := Run(m0, inputs[..n - 1]);
      var x := inputs[n - 1];
      var after := UpdateState(before, x.isWalking, x.fallDetected, x.now).next;
      assert Run(m0, inputs[..n]) == after;
      if after.pendingWalk.Some? {
        if before.pendingWalk.None? {
          assert WalkingSince(inputs, n - 1, n, after.pendingWalk.value);
        } else {
          var j :| WalkingSince(inputs, j, n - 1, before.pendingWalk.value);
          assert WalkingSince(inputs, j, n, after.pendingWalk.value);
        }
      }
    }
  }

  /**
   * Daily to Walking commits only after the detector has reported walking on
   * every cycle of a span lasting at least `walking_confirm_time`.
   */
  lemma WalkingNeedsContinuousWalking(m0: Manager, inputs: seq<Input>, n: nat)
    requires m0.pendingWalk.None?
    requires n < |inputs|
    requires Run(m0, inputs[..n]).state == Daily && Run(m0, inputs[..n + 1]).state == Walking
    ensures exists j :: 0 <= j <= n && inputs[n].now - inputs[j].now >= WalkingConfirmMs
                        && forall k :: j <= k <= n ==> inputs[k].isWalking
  {
    PendingWalkHistory(m0, inputs, n);
    assert inputs[..n + 1][..n] == inputs[..n];
    var before := Run(m0, inputs[..n]);
    var j :| WalkingSince(inputs, j, n, before.pendingWalk.value);
    assert inputs[n].now - inputs[j].now >= WalkingConfirmMs;
  }

  /** Starting anywhere but Emergency, no sequence of cycles reaches Emergency. */
  lemma {:induction false} NeverEmergency(m0: Manager, inputs: seq<Input>)
    requires m0.state != Emergency
    ensures Run(m0, inputs).state != Emergency
    decreases |inputs|
  {
    if |inputs| > 0 {
      NeverEmergency(m0, inputs[..|inputs| - 1]);
    }
  }

  /** Two accepted falls are always more than the cooldown apart. */
  lemma FallsRespectCooldown(m: Manager, x: Input)
    requires m.lastFall.Some?
    requires UpdateState(m, x.isWalking, x.fallDetected, x.now).next.lastFall != m.lastFall
    ensures x.now - m.lastFall.value > FallCooldownMs
  {
  }
}
