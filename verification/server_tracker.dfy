/**
 * The server's per-user state mirror (`UserStateTracker`): it records the
 * state label the device reports, when that state began, when the last
 * valid report arrived, when a fall was last entered, and the open walking
 * session, if any.
 */
module ServerTracker {
  import opened Basics

  /** The server's `UserState` enum, whose values are Korean labels. */
  datatype ServerState = Daily | Walking | Fall | Emergency

  function ServerLabel(s: ServerState): (l: string)
    ensures |l| > 0
  {
    match s
    case Daily => "일상"
    case Walking => "걷기"
    case Fall => "낙상"
    case Emergency => "응급"
  }

  /** `UserState(value)`: the member whose value is exactly `v`, or the ValueError case. */
  function ParseServerState(v: Json): (r: Option<ServerState>)
    ensures r.Some? ==> v == JStr(ServerLabel(r.value))
  {
    if v == JStr("일상") then Some(Daily)
    else if v == JStr("걷기") then Some(Walking)
    else if v == JStr("낙상") then Some(Fall)
    else if v == JStr("응급") then Some(Emergency)
    else None
  }

  /** Every server label is recognised as its own state. */
  lemma ParseServerLabel(s: ServerState)
    ensures ParseServerState(JStr(ServerLabel(s))) == Some(s)
  {
  }

  /** The label assumed when a report carries no `state` key. */
  const DefaultLabel: Json := JStr("일상")

  /** A session id as returned by the store. */
  type SessionId = Json

  datatype Tracker = Tracker(
    state: ServerState,
    stateStart: Stamp,
    lastUpdate: Stamp,
    fallTime: Option<Stamp>,
    session: Option<SessionId>)

  /** A tracker as created on first connection: Daily since `now`, nothing else recorded. */
  function NewTracker(now: Stamp): Tracker {
    Tracker(Daily, now, now, None, None)
  }

  /** The tracker after a report, and whether the report changed the state. */
  datatype TrackerUpdate = TrackerUpdate(next: Tracker, changed: bool)

  /** `update_from_raspberry(state_info)` at clock reading `now`. */
  function UpdateFromRaspberry(t: Tracker, stateInfo: map<string, Json>, now: Stamp): (u: TrackerUpdate)
    // An unknown label is rejected: no change and nothing recorded.
    ensures ParseServerState(Get(stateInfo, "state", DefaultLabel)).None? ==> u == TrackerUpdate(t, false)
    // A missing label reads as Daily.
    ensures "state" !in stateInfo ==> u.next.state == Daily
    // A recognised label is mirrored, and a change is reported exactly when it differs.
    ensures ParseServerState(Get(stateInfo, "state", DefaultLabel)).Some? ==>
      var s := ParseServerState(Get(stateInfo, "state", DefaultLabel)).value;
      && u.next.state == s
      && (u.changed <==> s != t.state)
      && u.next.lastUpdate == now
      && u.next.stateStart == (if u.changed then now else t.stateStart)
      && u.next.fallTime == (if u.changed && s == Fall then Some(now) else t.fallTime)
      && u.next.session == t.session
  {
    match ParseServerState(Get(stateInfo, "state", DefaultLabel))
    case None => TrackerUpdate(t, false)
    case Some(s) =>
      if s != t.state then
        TrackerUpdate(t.(state := s, stateStart := now, lastUpdate := now,
                         fallTime := if s == Fall then Some(now) else t.fallTime), true)
      else TrackerUpdate(t.(lastUpdate := now), false)
  }

  /** Repeating a report changes nothing further except the update time. */
  lemma UpdateIdempotent(t: Tracker, stateInfo: map<string, Json>, now: Stamp, later: Stamp)
    ensures var u := UpdateFromRaspberry(t, stateInfo, now);
      var v := UpdateFromRaspberry(u.next, stateInfo, later);
      !v.changed && v.next == u.next.(lastUpdate := v.next.lastUpdate)
  {
  }
}
