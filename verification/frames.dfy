/**
 * How both server connection managers read an incoming text frame
 * (`handle_received_data`): the `type` field routes it to the IMU path,
 * the fall path, or the legacy path, and the legacy path recognises old
 * fall and sensor messages by their fields.
 */
module Frames {
  import opened Basics

  /** Where a decoded frame goes. */
  datatype Frame =
    | ImuFrame(data: Json, stateInfo: Json)
    | FallFrame(data: Json, stateInfo: Json)
    | LegacyFrame(message: map<string, Json>)
    | Unreadable

  /**
   * `handle_received_data` up to the call of a processing path.  `parsed`
   * is the result of `json.loads`, `None` when the text is not JSON.  A
   * document without `.get` or a typed frame without `data` raises, which
   * the manager logs.
   */
  function RouteFrame(parsed: Option<Json>): (f: Frame)
    ensures f.Unreadable? <==>
      parsed.None? || !parsed.value.JObj?
      || (Get(parsed.value.fields, "type", JNull) in {JStr("imu_data"), JStr("fall_detection")}
          && "data" !in parsed.value.fields)
    ensures f.ImuFrame? <==>
      parsed.Some? && parsed.value.JObj? && Get(parsed.value.fields, "type", JNull) == JStr("imu_data")
      && "data" in parsed.value.fields
    ensures f.FallFrame? <==>
      parsed.Some? && parsed.value.JObj? && Get(parsed.value.fields, "type", JNull) == JStr("fall_detection")
      && "data" in parsed.value.fields
    ensures (f.ImuFrame? || f.FallFrame?) ==>
      f.data == parsed.value.fields["data"] && f.stateInfo == Get(parsed.value.fields, "state_info", JNull)
    // Everything else, including a frame with no `type`, is handed whole to the legacy path.
    ensures f.LegacyFrame? ==> f.message == parsed.value.fields
  {
    match parsed
    case None => Unreadable
    case Some(doc) =>
      if !doc.JObj? then Unreadable
      else
        var m := doc.fields;
        var kind := Get(m, "type", JStr("unknown"));
        if kind == JStr("imu_data") then
          if "data" in m then ImuFrame(m["data"], Get(m, "state_info", JNull)) else Unreadable
        else if kind == JStr("fall_detection") then
          if "data" in m then FallFrame(m["data"], Get(m, "state_info", JNull)) else Unreadable
        else LegacyFrame(m)
  }

  // ---------------------------------------------------------------------
  // Legacy messages
  // ---------------------------------------------------------------------

  /** `is_fall` of `_process_legacy_data`. */
  predicate IsLegacyFall(m: map<string, Json>) {
    Get(m, "event", JNull) == JStr("fall_detected")
    || Get(m, "fall_detected", JNull) == JBool(true)
    || "fall_alert" in m
    || "emergency" in m
  }

  /** The confidence of a legacy fall: `probability`, else `confidence_score`, else 0.8. */
  function LegacyConfidence(m: map<string, Json>): (c: Json)
    ensures "probability" in m ==> c == m["probability"]
    ensures "probability" !in m && "confidence_score" in m ==> c == m["confidence_score"]
    ensures "probability" !in m && "confidence_score" !in m ==> c == JNum(0.8)
  {
    Get(m, "probability", Get(m, "confidence_score", JNum(0.8)))
  }

  /** The fall record built from a legacy fall message; the message itself travels as `sensor_data`. */
  function LegacyFallRecord(u: string, m: map<string, Json>, timestamp: string): (r: map<string, Json>)
    ensures r.Keys == {"user_id", "timestamp", "fall_detected", "confidence_score", "sensor_data"}
    ensures r["fall_detected"] == JBool(true)
    ensures r["confidence_score"] == LegacyConfidence(m)
    ensures r["sensor_data"] == JObj(m) && r["user_id"] == JStr(u)
  {
    map["user_id" := JStr(u),
        "timestamp" := JStr(timestamp),
        "fall_detected" := JBool(true),
        "confidence_score" := LegacyConfidence(m),
        "sensor_data" := JObj(m)]
  }

  /** A value indexable by `['x']`, `['y']` and `['z']` without raising. */
  predicate HasAxes(v: Json) {
    v.JObj? && "x" in v.fields && "y" in v.fields && "z" in v.fields
  }

  /** The six-component sensor record built from a legacy `accel`/`gyro` message. */
  function LegacyImuRecord(u: string, m: map<string, Json>, timestamp: string): (r: map<string, Json>)
    requires "accel" in m && "gyro" in m && HasAxes(m["accel"]) && HasAxes(m["gyro"])
    ensures r.Keys == {"user_id", "timestamp", "acc_x", "acc_y", "acc_z", "gyr_x", "gyr_y", "gyr_z"}
    // Each component lands in its own field.
    ensures r["acc_x"] == m["accel"].fields["x"] && r["acc_y"] == m["accel"].fields["y"]
            && r["acc_z"] == m["accel"].fields["z"]
    ensures r["gyr_x"] == m["gyro"].fields["x"] && r["gyr_y"] == m["gyro"].fields["y"]
            && r["gyr_z"] == m["gyro"].fields["z"]
  {
    var a := m["accel"].fields;
    var g := m["gyro"].fields;
    map["user_id" := JStr(u), "timestamp" := JStr(timestamp),
        "acc_x" := a["x"], "acc_y" := a["y"], "acc_z" := a["z"],
        "gyr_x" := g["x"], "gyr_y" := g["y"], "gyr_z" := g["z"]]
  }

  /** What a legacy message turns into. */
  datatype Legacy =
    | LegacyFall(record: map<string, Json>)
    | LegacyImu(record: map<string, Json>)
    | LegacyIgnored
    | LegacyMalformed

  /** `_process_legacy_data` up to the call of a processing path. */
  function ClassifyLegacy(u: string, m: map<string, Json>, timestamp: string): (l: Legacy)
    ensures l.LegacyFall? <==> IsLegacyFall(m)
    ensures l.LegacyFall? ==> l.record == LegacyFallRecord(u, m, timestamp)
    // A sensor message is recognised only when it is not a fall and carries both vectors.
    ensures l.LegacyImu? <==>
      !IsLegacyFall(m) && "accel" in m && "gyro" in m && HasAxes(m["accel"]) && HasAxes(m["gyro"])
    ensures l.LegacyImu? ==> l.record == LegacyImuRecord(u, m, timestamp)
    ensures l.LegacyMalformed? <==>
      !IsLegacyFall(m) && "accel" in m && "gyro" in m && !(HasAxes(m["accel"]) && HasAxes(m["gyro"]))
    ensures l.LegacyIgnored? <==> !IsLegacyFall(m) && ("accel" !in m || "gyro" !in m)
  {
    if IsLegacyFall(m) then LegacyFall(LegacyFallRecord(u, m, timestamp))
    else if "accel" in m && "gyro" in m then
      if HasAxes(m["accel"]) && HasAxes(m["gyro"]) then LegacyImu(LegacyImuRecord(u, m, timestamp))
      else LegacyMalformed
    else LegacyIgnored
  }
}
