/**
 * The server's basic connection manager (`WebSocketManager`), used when
 * walking mode is off: connections and telemetry batches only, no state
 * tracking, no emergency timers.  Sockets, batching and the fall record's
 * defaults are shared with the walking-mode manager.
 */
module BasicManager {
  import opened Basics
  import opened Frames
  import W = WalkingManager

  datatype Server = Server(
    conns: map<string, W.Socket>,
    dataBuffers: map<string, seq<Json>>,
    batches: map<string, seq<Json>>)

  /** `IMU_BUFFER_MAX`: the cap applied to a batch after the flush check. */
  const ImuBufferMax: nat := 50

  /** `connect`: register the socket and create empty buffers for a new user. */
  function Connect(s: Server, u: string): (r: Server)
    ensures r.conns == s.conns[u := W.Fresh]
    ensures r.dataBuffers.Keys == s.dataBuffers.Keys + {u} && r.batches.Keys == s.batches.Keys + {u}
    ensures forall k :: k in s.batches ==> r.batches[k] == s.batches[k]
    ensures u !in s.batches ==> r.batches[u] == []
  {
    Server(s.conns[u := W.Fresh],
           if u in s.dataBuffers then s.dataBuffers else s.dataBuffers[u := []],
           if u in s.batches then s.batches else s.batches[u := []])
  }

  /** `disconnect`: only the connection entry goes; buffered records stay. */
  function Disconnect(s: Server, u: string): (r: Server)
    ensures r.conns == s.conns - {u}
    ensures r.dataBuffers == s.dataBuffers && r.batches == s.batches
  {
    s.(conns := s.conns - {u})
  }

  /** The tail-keeping cap of a batch, as written. */
  function CapBatch(batch: seq<Json>): (r: seq<Json>)
    ensures |r| <= ImuBufferMax
    ensures |batch| <= ImuBufferMax ==> r == batch
    ensures |batch| > ImuBufferMax ==> r == batch[|batch| - ImuBufferMax..]
  {
    if |batch| > ImuBufferMax then batch[|batch| - ImuBufferMax..] else batch
  }

  /** Every batch is shorter than a flush. */
  ghost predicate BatchesBelowFlush(s: Server) {
    forall k :: k in s.batches ==> |s.batches[k]| < W.ImuBatchSize
  }

  /** What a frame did to the server. */
  datatype Handled = Handled(next: Server, flushed: seq<Json>, alert: Option<map<string, Json>>,
                             recipients: set<string>, failed: bool)

  /**
   * `_process_imu_data`: batch the record with a timestamp, hand a full
   * batch to the store, cap the batch, back the record up, and acknowledge
   * to the sender (a raising acknowledgement drops the sender's
   * connection).  A record left in the batch is the one the CSV backup
   * rewrote in place; `sensorText` is what `json.dumps` makes of its sensor data.
   */
  function ProcessImu(s: Server, u: string, data: Json, timestamp: string, sensorText: string): (h: Handled)
    ensures h.failed <==> W.TimestampedRecord(data, timestamp).None?
    ensures h.failed ==> h.next == s && h.flushed == []
    ensures h.alert.None?
    // Below the cap, the record joins the batch and a full batch is handed to the store whole.
    ensures var prev := if u in s.batches then s.batches[u] else [];
      !h.failed && |prev| < ImuBufferMax ==>
        var rec := W.TimestampedRecord(data, timestamp).value;
        && u in h.next.batches
        && (h.flushed != [] <==> |prev| + 1 >= W.ImuBatchSize)
        && (h.flushed != [] ==> h.flushed == prev + [rec] && h.next.batches[u] == [])
        && (h.flushed == [] ==> h.next.batches[u] == prev + [W.CsvRecord(rec, sensorText)])
    ensures !h.failed ==>
      h.next.conns == if u in s.conns && s.conns[u].connected && s.conns[u].sendRaises then s.conns - {u} else s.conns
    ensures !h.failed ==> forall k :: k in s.batches && k != u ==> k in h.next.batches && h.next.batches[k] == s.batches[k]
    // Batches never reach the flush size between frames.
    ensures BatchesBelowFlush(s) ==> BatchesBelowFlush(h.next)
  {
    var record := W.TimestampedRecord(data, timestamp);
    if record.None? then Handled(s, [], None, {}, true)
    else
      var prev := if u in s.batches then s.batches[u] else [];
      var b := W.AddToBatch(prev, record.value);
      var kept := if b.flushed == [] then prev + [W.CsvRecord(record.value, sensorText)] else b.batch;
      var s1 := s.(batches := s.batches[u := CapBatch(kept)]);
      var s2 := if u in s1.conns && s1.conns[u].connected && s1.conns[u].sendRaises then Disconnect(s1, u) else s1;
      Handled(s2, b.flushed, None, {}, false)
  }

  /** Between frames the 50-item cap never cuts anything: batches stay below the flush size of 5. */
  lemma CapNeverTriggers(s: Server, u: string, data: Json, timestamp: string, sensorText: string)
    requires BatchesBelowFlush(s) && W.TimestampedRecord(data, timestamp).Some?
    ensures var prev := if u in s.batches then s.batches[u] else [];
      var rec := W.TimestampedRecord(data, timestamp).value;
      var b := W.AddToBatch(prev, rec);
      var kept := if b.flushed == [] then prev + [W.CsvRecord(rec, sensorText)] else b.batch;
      CapBatch(kept) == kept && |kept| < W.ImuBatchSize
  {
  }

  /**
   * A payload that is not an object is still batched and acknowledged when
   * it already "contains" a timestamp: the string `"timestamp"` and the list
   * `["timestamp"]` pass as they are, while a string without it fails.
   */
  lemma NonObjectPayloads(s: Server, u: string, timestamp: string, sensorText: string)
    ensures W.TimestampedRecord(JStr("timestamp"), timestamp) == Some(JStr("timestamp"))
    ensures W.TimestampedRecord(JArr([JStr("timestamp")]), timestamp) == Some(JArr([JStr("timestamp")]))
    ensures !ProcessImu(s, u, JStr("timestamp"), timestamp, sensorText).failed
    ensures ProcessImu(s, u, JStr(""), timestamp, sensorText).failed
    ensures ProcessImu(s, u, JNull, timestamp, sensorText).failed
  {
    assert IsPrefix("timestamp", "timestamp");
  }

  /** The basic manager's `fall_alert`: no sensor data and no emergency level. */
  function FallAlert(u: string, record: map<string, Json>): (a: map<string, Json>)
    ensures a.Keys == {"type", "data"} && a["type"] == JStr("fall_alert") && a["data"].JObj?
    ensures a["data"].fields.Keys == {"user_id", "timestamp", "confidence_score", "message"}
    ensures a["data"].fields["confidence_score"] == Get(record, "confidence_score", JNum(0.0))
    ensures a["data"].fields["user_id"] == JStr(u)
  {
    assert "type" != "data" by { assert "type"[0] != "data"[0]; }
    assert "user_id" != "message" by { assert "user_id"[0] != "message"[0]; }
    map["type" := JStr("fall_alert"),
        "data" := JObj(map[
          "user_id" := JStr(u),
          "timestamp" := Get(record, "timestamp", JNull),
          "confidence_score" := Get(record, "confidence_score", JNum(0.0)),
          "message" := JStr("🚨 사용자 " + u + "에게 낙상이 감지되었습니다!")])]
  }

  /**
   * `_process_fall_data`: complete the record, and broadcast the alert to
   * every CONNECTED observer whose send completes; the others lose their
   * connection entry after the loop.  The store's outcome changes nothing.
   */
  function ProcessFall(s: Server, u: string, data: Json, timestamp: string): (h: Handled)
    ensures h.failed <==> !data.JObj?
    ensures h.failed ==> h.next == s
    ensures h.flushed == []
    ensures !h.failed ==>
      && h.alert == Some(FallAlert(u, W.FallRecord(data.fields, timestamp)))
      && h.recipients == W.Reachable(s.conns)
      && h.next.conns.Keys == h.recipients
      && (forall k :: k in h.next.conns ==> h.next.conns[k] == s.conns[k])
      && h.next.batches == s.batches && h.next.dataBuffers == s.dataBuffers
  {
    if !data.JObj? then Handled(s, [], None, {}, true)
    else
      var ok := W.Reachable(s.conns);
      var next := s.(conns := map k | k in s.conns && k in ok :: s.conns[k]);
      Handled(next, [], Some(FallAlert(u, W.FallRecord(data.fields, timestamp))), ok, false)
  }

  /** `handle_received_data` for a frame that decoded to `parsed` (`None`: not JSON). */
  function HandleFrame(s: Server, u: string, parsed: Option<Json>, timestamp: string, sensorText: string): (h: Handled)
    ensures RouteFrame(parsed).Unreadable? ==> h.failed && h.next == s
    ensures RouteFrame(parsed).ImuFrame? ==> h == ProcessImu(s, u, RouteFrame(parsed).data, timestamp, sensorText)
    ensures RouteFrame(parsed).FallFrame? ==> h == ProcessFall(s, u, RouteFrame(parsed).data, timestamp)
    // A legacy fall and a legacy sensor message go through the same paths as typed frames.
    ensures RouteFrame(parsed).LegacyFrame? ==>
      match ClassifyLegacy(u, RouteFrame(parsed).message, timestamp)
      case LegacyFall(record) => h == ProcessFall(s, u, JObj(record), timestamp)
      case LegacyImu(record) => h == ProcessImu(s, u, JObj(record), timestamp, sensorText)
      case LegacyIgnored => h == Handled(s, [], None, {}, false)
      case LegacyMalformed => h.failed && h.next == s
  {
    match RouteFrame(parsed)
    case Unreadable => Handled(s, [], None, {}, true)
    case ImuFrame(data, _) => ProcessImu(s, u, data, timestamp, sensorText)
    case FallFrame(data, _) => ProcessFall(s, u, data, timestamp)
    case LegacyFrame(m) =>
      match ClassifyLegacy(u, m, timestamp)
      case LegacyFall(record) => ProcessFall(s, u, JObj(record), timestamp)
      case LegacyImu(record) => ProcessImu(s, u, JObj(record), timestamp, sensorText)
      case LegacyIgnored => Handled(s, [], None, {}, false)
      case LegacyMalformed => Handled(s, [], None, {}, true)
  }

  /** Every legacy fall message raises an alert to every reachable observer, with its confidence preserved. */
  lemma LegacyFallAlerts(s: Server, u: string, m: map<string, Json>, timestamp: string, sensorText: string)
    requires IsLegacyFall(m)
    requires Get(m, "type", JNull) !in {JStr("imu_data"), JStr("fall_detection")}
    ensures var h := HandleFrame(s, u, Some(JObj(m)), timestamp, sensorText);
      && h.alert.Some? && h.recipients == W.Reachable(s.conns)
      && h.alert.value["data"].fields["confidence_score"] == LegacyConfidence(m)
  {
    var record := LegacyFallRecord(u, m, timestamp);
    assert W.FallRecord(record, timestamp)["confidence_score"] == record["confidence_score"];
  }
}
