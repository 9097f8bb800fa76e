/**
 * The compact device program: a 100-sample detector that thresholds the
 * window's standard deviation, and a three-state manager whose Walking
 * transitions need no confirmation period.
 */
module SimpleClient {
  import opened Basics

  const BufferSize: nat := 100
  const StdThreshold: real := 0.15
  const WalkingThreshold: nat := 5
  const IdleThreshold: nat := 10

  datatype Detector = Detector(window: seq<real>, isWalking: bool, walkCount: nat, idleCount: nat)
  {
    predicate Valid() {
      |window| <= BufferSize && (walkCount == 0 || idleCount == 0)
    }
  }

  const Initial: Detector := Detector([], false, 0, 0)

  /**
   * `add_data` given the new magnitude and the standard deviation of the
   * window it completes; the result's `isWalking` is the returned verdict.
   */
  function AddSample(d: Detector, magnitude: real, std: real): (r: Detector)
    requires d.Valid()
    ensures r.Valid()
    ensures r.window == DequeAppend(d.window, magnitude, BufferSize)
    ensures |r.window| < BufferSize ==> r == d.(window := r.window)
    // Once the window is full, each sample is an active or an idle cycle.
    ensures |r.window| == BufferSize && std > StdThreshold ==> r.walkCount == d.walkCount + 1 && r.idleCount == 0
    ensures |r.window| == BufferSize && std <= StdThreshold ==> r.idleCount == d.idleCount + 1 && r.walkCount == 0
    // Walking turns on after five active cycles in a row and off after ten idle cycles in a row.
    ensures !d.isWalking ==> (r.isWalking <==> |r.window| == BufferSize && r.walkCount >= WalkingThreshold)
    ensures d.isWalking ==> (!r.isWalking <==> |r.window| == BufferSize && r.idleCount >= IdleThreshold)
  {
    var w := DequeAppend(d.window, magnitude, BufferSize);
    if |w| < BufferSize then d.(window := w)
    else
      var active := std > StdThreshold;
      var walkCount := if active then d.walkCount + 1 else 0;
      var idleCount := if active then 0 else d.idleCount + 1;
      var isWalking :=
        if !d.isWalking && walkCount >= WalkingThreshold then true
        else if d.isWalking && idleCount >= IdleThreshold then false
        else d.isWalking;
      Detector(w, isWalking, walkCount, idleCount)
  }

  /** The device's `UserState` in this program: three states only. */
  datatype DeviceState = Daily | Walking | Fall

  const FallCooldownMs: int := 10000
  const WalkingHoldMs: int := 5000
  const FallRecoveryMs: int := 3000

  datatype Manager = Manager(state: DeviceState, stateStart: Stamp, lastFall: Option<Stamp>)

  predicate CanDetectFall(m: Manager, now: Stamp) {
    m.lastFall.None? || now - m.lastFall.value > FallCooldownMs
  }

  datatype Update = Update(next: Manager, changed: bool)

  /** `SimpleStateManager.update_state` at clock reading `now`. */
  function UpdateState(m: Manager, isWalking: bool, fallDetected: bool, now: Stamp): (u: Update)
    ensures u.changed <==> u.next != m
    ensures u.changed ==> u.next.stateStart == now
    // An accepted fall takes priority over every walking transition.
    ensures fallDetected && CanDetectFall(m, now) ==> u.next == Manager(Fall, now, Some(now))
    ensures u.next.lastFall != m.lastFall ==> fallDetected && CanDetectFall(m, now)
    // Daily to Walking is immediate.
    ensures !(fallDetected && CanDetectFall(m, now)) && m.state == Daily ==>
      (u.next.state == Walking <==> isWalking)
    // Walking to Daily after more than five seconds in Walking; Fall to Daily after more than three.
    ensures !(fallDetected && CanDetectFall(m, now)) && m.state == Walking ==>
      (u.next.state == Daily <==> !isWalking && now - m.stateStart > WalkingHoldMs)
    ensures !(fallDetected && CanDetectFall(m, now)) && m.state == Fall ==>
      (u.next.state == Daily <==> now - m.stateStart > FallRecoveryMs)
    ensures u.next.state == Fall ==> m.state == Fall || fallDetected
  {
    if fallDetected && CanDetectFall(m, now) then
      Update(Manager(Fall, now, Some(now)), true)
    else if m.state == Daily && isWalking then
      Update(m.(state := Walking, stateStart := now), true)
    else if m.state == Walking && !isWalking then
      if now - m.stateStart > WalkingHoldMs then Update(m.(state := Daily, stateStart := now), true)
      else Update(m, false)
    else if m.state == Fall then
      if now - m.stateStart > FallRecoveryMs then Update(m.(state := Daily, stateStart := now), true)
      else Update(m, false)
    else Update(m, false)
  }

  /** Cycles of the full-window detector with a given standard deviation each. */
  function RunFull(d: Detector, stds: seq<real>): (r: Detector)
    requires d.Valid() && |d.window| == BufferSize
    ensures r.Valid() && |r.window| == BufferSize
    decreases |stds|
  {
    if |stds| == 0 then d
    else RunFull(AddSample(d, 0.0, stds[0]), stds[1..])
  }

  /** The number of active cycles (deviation above the threshold) among `stds`. */
  function ActiveCount(stds: seq<real>): (n: nat)
    ensures n <= |stds|
  {
    if |stds| == 0 then 0
    else (if stds[0] > StdThreshold then 1 else 0) + ActiveCount(stds[1..])
  }

  /**
   * From a full detector that is not walking, walking cannot turn on while
   * the current streak plus every active cycle still to come stays below
   * five: an idle cycle resets the streak, and only active ones extend it.
   */
  lemma {:induction false} NoWalkingBeforeFiveActiveCycles(d: Detector, stds: seq<real>)
    requires d.Valid() && |d.window| == BufferSize && !d.isWalking
    requires d.walkCount + ActiveCount(stds) < WalkingThreshold
    ensures !RunFull(d, stds).isWalking && RunFull(d, stds).walkCount <= d.walkCount + ActiveCount(stds)
    decreases |stds|
  {
    if |stds| > 0 {
      NoWalkingBeforeFiveActiveCycles(AddSample(d, 0.0, stds[0]), stds[1..]);
    }
  }

  /**
   * A run of active cycles extends the streak by one each, and walking is
   * on at its end exactly when it already was or the streak reached five.
   */
  lemma {:induction false} ActiveCyclesStartWalking(d: Detector, stds: seq<real>)
    requires d.Valid() && |d.window| == BufferSize
    requires forall i :: 0 <= i < |stds| ==> stds[i] > StdThreshold
    ensures RunFull(d, stds).walkCount == d.walkCount + |stds|
    ensures |stds| > 0 ==> RunFull(d, stds).idleCount == 0
    ensures |stds| > 0 ==> (RunFull(d, stds).isWalking <==> d.isWalking || d.walkCount + |stds| >= WalkingThreshold)
    decreases |stds|
  {
    if |stds| > 0 {
      ActiveCyclesStartWalking(AddSample(d, 0.0, stds[0]), stds[1..]);
    }
  }
}
