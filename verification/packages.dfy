/**
 * The messages the device puts on the wire (`create_imu_package`,
 * `create_fall_package`, `get_state_info`) and how the server's first
 * routing step receives them.
 */
module Packages {
  import opened Basics
  import StateManager
  import ServerTracker
  import Frames
  import WalkingManager

  /** One accelerometer and gyroscope reading. */
  datatype Reading = Reading(accX: real, accY: real, accZ: real, gyrX: real, gyrY: real, gyrZ: real)

  /** The six wire keys of a telemetry record, in the order the device writes them. */
  function ImuFields(user: string, timestamp: string, x: Reading): map<string, Json> {
    map["user_id" := JStr(user), "timestamp" := JStr(timestamp),
        "acc_x" := JNum(x.accX), "acc_y" := JNum(x.accY), "acc_z" := JNum(x.accZ),
        "gyr_x" := JNum(x.gyrX), "gyr_y" := JNum(x.gyrY), "gyr_z" := JNum(x.gyrZ)]
  }

  /** Adds `state_info` to a package when it is truthy. */
  function WithStateInfo(package: map<string, Json>, stateInfo: map<string, Json>): (r: map<string, Json>)
    ensures |stateInfo| > 0 ==> r == package["state_info" := JObj(stateInfo)]
    ensures |stateInfo| == 0 ==> r == package
  {
    if |stateInfo| > 0 then package["state_info" := JObj(stateInfo)] else package
  }

  /** A device package: its type, its data, and the state info when it is non-empty. */
  function Package(kind: string, data: Json, stateInfo: map<string, Json>): (p: Json)
    ensures p.JObj? && p.fields.Keys == {"type", "data"} + (if |stateInfo| > 0 then {"state_info"} else {})
    ensures p.fields["type"] == JStr(kind) && p.fields["data"] == data
    // The state info travels exactly when it is non-empty, as the device's truthiness test says.
    ensures "state_info" in p.fields <==> |stateInfo| > 0
    ensures |stateInfo| > 0 ==> p.fields["state_info"] == JObj(stateInfo)
  {
    assert "state_info" != "type" && "state_info" != "data" by { assert "state_info"[0] != "type"[0] && "state_info"[0] != "data"[0]; }
    JObj(WithStateInfo(map["type" := JStr(kind), "data" := data], stateInfo))
  }

  /** `create_imu_package`. */
  function ImuPackage(user: string, timestamp: string, x: Reading, stateInfo: map<string, Json>): (p: Json)
    ensures p.JObj? && p.fields.Keys == {"type", "data"} + (if |stateInfo| > 0 then {"state_info"} else {})
    ensures p.fields["type"] == JStr("imu_data") && p.fields["data"] == JObj(ImuFields(user, timestamp, x))
    ensures "state_info" in p.fields <==> |stateInfo| > 0
    ensures |stateInfo| > 0 ==> p.fields["state_info"] == JObj(stateInfo)
  {
    Package("imu_data", JObj(ImuFields(user, timestamp, x)), stateInfo)
  }

  function Vector(a: real, b: real, c: real): Json {
    JObj(map["x" := JNum(a), "y" := JNum(b), "z" := JNum(c)])
  }

  /** The data of a fall package: always `fall_detected: True`, with the model's probability as confidence. */
  function FallData(user: string, timestamp: string, probability: real, x: Reading): (d: map<string, Json>)
    ensures d.Keys == {"user_id", "timestamp", "fall_detected", "confidence_score", "sensor_data"}
    ensures d["user_id"] == JStr(user) && d["fall_detected"] == JBool(true)
    ensures d["confidence_score"] == JNum(probability)
  {
    var sensor := JObj(map["acceleration" := Vector(x.accX, x.accY, x.accZ),
                           "gyroscope" := Vector(x.gyrX, x.gyrY, x.gyrZ)]);
    map["user_id" := JStr(user), "timestamp" := JStr(timestamp),
        "fall_detected" := JBool(true), "confidence_score" := JNum(probability),
        "sensor_data" := sensor]
  }

  /** `create_fall_package`. */
  function FallPackage(user: string, timestamp: string, probability: real, x: Reading,
                       stateInfo: map<string, Json>): (p: Json)
    ensures p.JObj? && p.fields.Keys == {"type", "data"} + (if |stateInfo| > 0 then {"state_info"} else {})
    ensures p.fields["type"] == JStr("fall_detection") && p.fields["data"].JObj?
    ensures var d := p.fields["data"].fields;
      && d.Keys == {"user_id", "timestamp", "fall_detected", "confidence_score", "sensor_data"}
      && d["user_id"] == JStr(user) && d["fall_detected"] == JBool(true)
      && d["confidence_score"] == JNum(probability)
    ensures "state_info" in p.fields <==> |stateInfo| > 0
    ensures |stateInfo| > 0 ==> p.fields["state_info"] == JObj(stateInfo)
  {
    Package("fall_detection", JObj(FallData(user, timestamp, probability, x)), stateInfo)
  }

  /** Seconds as the device reports them, from two clock readings in milliseconds. */
  function Seconds(from: int, to: int): real {
    (to - from) as real / 1000.0
  }

  /** `get_state_info` at clock reading `now`. */
  function StateInfo(m: StateManager.Manager, now: Stamp): (info: map<string, Json>)
    ensures "state" in info && "duration" in info && "can_detect_fall" in info
    ensures info["state"] == JStr(StateManager.DeviceLabel(m.state))
    ensures "pending_walking" in info <==> m.pendingWalk.Some?
    ensures info["can_detect_fall"] == JBool(StateManager.CanDetectFall(m, now))
  {
    var base := map["state" := JStr(StateManager.DeviceLabel(m.state)),
                    "duration" := JNum(Seconds(m.stateStart, now)),
                    "can_detect_fall" := JBool(StateManager.CanDetectFall(m, now))];
    if m.pendingWalk.Some? then base["pending_walking" := JNum(Seconds(m.pendingWalk.value, now))] else base
  }

  // ---------------------------------------------------------------------
  // Server-side reading
  // ---------------------------------------------------------------------

  /** Reads the six components back out of a telemetry record, if all are numbers. */
  function ReadingOf(data: Json): Option<Reading> {
    if data.JObj? && "acc_x" in data.fields && "acc_y" in data.fields && "acc_z" in data.fields
       && "gyr_x" in data.fields && "gyr_y" in data.fields && "gyr_z" in data.fields
       && data.fields["acc_x"].JNum? && data.fields["acc_y"].JNum? && data.fields["acc_z"].JNum?
       && data.fields["gyr_x"].JNum? && data.fields["gyr_y"].JNum? && data.fields["gyr_z"].JNum?
    then Some(Reading(data.fields["acc_x"].n, data.fields["acc_y"].n, data.fields["acc_z"].n,
                      data.fields["gyr_x"].n, data.fields["gyr_y"].n, data.fields["gyr_z"].n))
    else None
  }

  /**
   * A telemetry package is routed to the IMU path with its record intact:
   * the six components come back unchanged, and the state information is
   * passed along exactly when the device attached some.
   */
  lemma ImuPackageRoundTrip(user: string, timestamp: string, x: Reading, stateInfo: map<string, Json>)
    ensures var r := Frames.RouteFrame(Some(ImuPackage(user, timestamp, x, stateInfo)));
      && r.ImuFrame?
      && ReadingOf(r.data) == Some(x)
      && r.stateInfo == (if |stateInfo| > 0 then JObj(stateInfo) else JNull)
  {
  }

  /** A fall package is routed to the fall path, with `fall_detected` true and the probability as confidence. */
  lemma FallPackageRoute(user: string, timestamp: string, p: real, x: Reading, stateInfo: map<string, Json>)
    ensures var r := Frames.RouteFrame(Some(FallPackage(user, timestamp, p, x, stateInfo)));
      && r.FallFrame? && r.data.JObj?
      && r.data.fields["fall_detected"] == JBool(true)
      && r.data.fields["confidence_score"] == JNum(p)
  {
  }

  /**
   * The device's fall data has an object as `sensor_data` and no `acc_x`, so
   * the walking server's CSV backup turns it into JSON text, and the
   * broadcast `fall_alert` carries that text.
   */
  lemma DeviceSensorDataSentAsText(user: string, timestamp: string, p: real, x: Reading)
    ensures WalkingManager.CsvEncodesSensorData(FallData(user, timestamp, p, x))
  {
    var d := FallData(user, timestamp, p, x);
    assert "acc_x" !in d.Keys;
  }

  // ---------------------------------------------------------------------
  // The label mismatch between device and server
  // ---------------------------------------------------------------------

  /**
   * The device's own state report is never understood by the server: every
   * device label falls into the tracker's ValueError case.
   */
  lemma DeviceReportRejected(m: StateManager.Manager, now: Stamp, t: ServerTracker.Tracker, later: Stamp)
    ensures ServerTracker.UpdateFromRaspberry(t, StateInfo(m, now), later) == ServerTracker.TrackerUpdate(t, false)
  {
  }

  /** The server state a device state stands for. */
  function ServerStateOf(s: StateManager.DeviceState): ServerTracker.ServerState {
    match s
    case Daily => ServerTracker.Daily
    case Walking => ServerTracker.Walking
    case Fall => ServerTracker.Fall
    case Emergency => ServerTracker.Emergency
  }

  /** `get_state_info` with the state written in the server's vocabulary. */
  function StateInfoForServer(m: StateManager.Manager, now: Stamp): (info: map<string, Json>)
    ensures info.Keys == StateInfo(m, now).Keys
    ensures forall k :: k in info && k != "state" ==> info[k] == StateInfo(m, now)[k]
  {
    StateInfo(m, now)["state" := JStr(ServerTracker.ServerLabel(ServerStateOf(m.state)))]
  }

  /** With server labels, the tracker mirrors the device state after every report. */
  lemma ServerMirrorsDevice(m: StateManager.Manager, now: Stamp, t: ServerTracker.Tracker, later: Stamp)
    ensures var u := ServerTracker.UpdateFromRaspberry(t, StateInfoForServer(m, now), later);
      && u.next.state == ServerStateOf(m.state)
      && (u.changed <==> t.state != ServerStateOf(m.state))
  {
    ServerTracker.ParseServerLabel(ServerStateOf(m.state));
  }
}
