/**
 * The server's connection manager in walking mode
 * (`ImprovedWebSocketManager`): per-user connections, buffers and state
 * trackers, the fall emergency timers, walking-session bookkeeping,
 * broadcasting to every observer, and the periodic escalation sweep.
 *
 * Sockets are modelled by what the manager can observe of them: whether
 * their state is CONNECTED and whether a send raises.  The store is
 * modelled by its mode (mock or live) and by the outcome of each call.
 */
module WalkingManager {
  import opened Basics
  import opened ServerTracker
  import opened Frames

  /** What the manager can observe of one observer's socket. */
  datatype Socket = Socket(connected: bool, sendRaises: bool)

  /** A freshly accepted socket. */
  const Fresh: Socket := Socket(true, false)

  /** `supabase_client.is_mock`. */
  datatype Backend = Mock | Live

  datatype Server = Server(
    conns: map<string, Socket>,
    dataBuffers: map<string, seq<Json>>,
    batches: map<string, seq<Json>>,
    trackers: map<string, Tracker>,
    timers: map<string, Stamp>,
    monitorRunning: bool)

  const Empty: Server := Server(map[], map[], map[], map[], map[], false)

  const ImuBatchSize: nat := 5
  const EmergencyAfterMs: int := 15000
  const SweepIntervalMs: int := 5000
  const SweepRetryMs: int := 30000

  // ---------------------------------------------------------------------
  // Connect and disconnect
  // ---------------------------------------------------------------------

  /** `connect(websocket, user_id)` at clock reading `now`. */
  function Connect(s: Server, u: string, now: Stamp): (r: Server)
    ensures r.conns == s.conns[u := Fresh]
    ensures u in r.dataBuffers && u in r.batches && u in r.trackers
    // Existing buffers and trackers survive a reconnect.
    ensures forall k :: k in s.dataBuffers ==> k in r.dataBuffers && r.dataBuffers[k] == s.dataBuffers[k]
    ensures forall k :: k in s.batches ==> k in r.batches && r.batches[k] == s.batches[k]
    ensures forall k :: k in s.trackers ==> k in r.trackers && r.trackers[k] == s.trackers[k]
    ensures u !in s.trackers ==> r.trackers[u] == NewTracker(now)
    ensures r.timers == s.timers
    ensures r.monitorRunning
  {
    Server(
      s.conns[u := Fresh],
      if u in s.dataBuffers then s.dataBuffers else s.dataBuffers[u := []],
      if u in s.batches then s.batches else s.batches[u := []],
      if u in s.trackers then s.trackers else s.trackers[u := NewTracker(now)],
      s.timers,
      true)
  }

  /** `disconnect(user_id)`: tear down everything held for a connected user. */
  function Disconnect(s: Server, u: string): (r: Server)
    ensures u !in s.conns ==> r == s
    ensures u in s.conns ==>
      && r.conns == s.conns - {u}
      && r.dataBuffers == s.dataBuffers - {u}
      && r.batches == s.batches - {u}
      && r.trackers == s.trackers - {u}
      && r.timers == s.timers - {u}
      && (r.monitorRunning <==> s.monitorRunning && |r.conns| > 0)
  {
    if u !in s.conns then s
    else
      var conns := s.conns - {u};
      Server(conns, s.dataBuffers - {u}, s.batches - {u}, s.trackers - {u}, s.timers - {u},
             s.monitorRunning && |conns| > 0)
  }

  /** The leftover telemetry `disconnect` hands to the store before dropping the batch. */
  function DisconnectLeftovers(s: Server, u: string): (items: seq<Json>)
    ensures u in s.conns && u in s.batches ==> items == s.batches[u]
    ensures u !in s.conns ==> items == []
  {
    if u in s.conns && u in s.batches then s.batches[u] else []
  }

  /** Disconnecting a whole set of users, in any order. */
  function DisconnectAll(s: Server, d: set<string>): (r: Server)
    ensures r.conns == s.conns - d
    ensures r.dataBuffers == s.dataBuffers - (d * s.conns.Keys)
    ensures r.batches == s.batches - (d * s.conns.Keys)
    ensures r.trackers == s.trackers - (d * s.conns.Keys)
    ensures r.timers == s.timers - (d * s.conns.Keys)
    ensures r.monitorRunning <==> s.monitorRunning && (|r.conns| > 0 || d * s.conns.Keys == {})
  {
    var gone := d * s.conns.Keys;
    var conns := s.conns - d;
    Server(conns, s.dataBuffers - gone, s.batches - gone, s.trackers - gone, s.timers - gone,
           s.monitorRunning && (|conns| > 0 || gone == {}))
  }

  /** Disconnecting a set one user at a time gives the same server as all at once. */
  lemma DisconnectAllStep(s: Server, d: set<string>, u: string)
    requires u in d
    ensures DisconnectAll(s, d) == DisconnectAll(Disconnect(s, u), d - {u})
  {
    if u in s.conns {
      var s1 := Disconnect(s, u);
      var gone := d * s.conns.Keys;
      var gone1 := (d - {u}) * s1.conns.Keys;
      assert s1.conns.Keys == s.conns.Keys - {u};
      assert gone1 == gone - {u};
      MinusStep(s.conns, d, u);
      MinusStep(s.dataBuffers, gone, u);
      MinusStep(s.batches, gone, u);
      MinusStep(s.trackers, gone, u);
      MinusStep(s.timers, gone, u);
    } else {
      assert (d - {u}) * s.conns.Keys == d * s.conns.Keys;
      assert s.conns - (d - {u}) == s.conns - d;
    }
  }

  /** Removing one key and then the rest of a set removes the whole set. */
  lemma MinusStep<V>(m: map<string, V>, g: set<string>, u: string)
    requires u in g
    ensures (m - {u}) - (g - {u}) == m - g
  {
  }

  // ---------------------------------------------------------------------
  // Broadcast
  // ---------------------------------------------------------------------

  /** The observers a send reaches: CONNECTED sockets whose send completes. */
  function Reachable(conns: map<string, Socket>): (ok: set<string>)
    ensures ok <= conns.Keys
    ensures forall k :: k in conns ==> (k in ok <==> conns[k].connected && !conns[k].sendRaises)
  {
    set k | k in conns && conns[k].connected && !conns[k].sendRaises
  }

  /** The server after a broadcast, the observers that received it, and the alert as sent. */
  datatype Broadcasted = Broadcasted(next: Server, recipients: set<string>, sentCount: nat, alert: map<string, Json>)

  /** Adds `data.timestamp` to an alert that has none. */
  function Stamped(alert: map<string, Json>, timestamp: string): (a: map<string, Json>)
    requires "data" in alert && alert["data"].JObj?
    ensures a.Keys == alert.Keys && "data" in a && a["data"].JObj? && "timestamp" in a["data"].fields
    ensures "timestamp" in alert["data"].fields ==> a == alert
    ensures forall k :: k in alert && k != "data" ==> a[k] == alert[k]
    ensures forall k :: k in alert["data"].fields ==> k in a["data"].fields && a["data"].fields[k] == alert["data"].fields[k]
  {
    var data := alert["data"].fields;
    if "timestamp" in data then alert else alert["data" := JObj(data["timestamp" := JStr(timestamp)])]
  }

  /**
   * `_broadcast_alert`: send to every connection; a failing or non-connected
   * observer is noted and disconnected only after the loop, so it never stops
   * delivery to the others.
   */
  function Broadcast(s: Server, alert: map<string, Json>, timestamp: string): (b: Broadcasted)
    requires "data" in alert && alert["data"].JObj?
    ensures b.recipients == Reachable(s.conns)
    ensures b.sentCount == |b.recipients|
    ensures b.next == DisconnectAll(s, s.conns.Keys - b.recipients)
    ensures b.next.conns.Keys == b.recipients
    ensures b.alert == Stamped(alert, timestamp)
    // Recipients keep their socket and their timer; the others lose their timer with their connection.
    ensures forall k :: k in b.recipients ==> b.next.conns[k] == s.conns[k]
    ensures forall k :: k in b.next.timers ==> k in s.timers && b.next.timers[k] == s.timers[k]
    ensures forall k :: k in s.timers && k in b.recipients ==> k in b.next.timers
    ensures forall k :: k in s.timers && k in s.conns && k !in b.recipients ==> k !in b.next.timers
    ensures forall k :: k in s.timers && k !in s.conns ==> k in b.next.timers
  {
    var ok := Reachable(s.conns);
    Broadcasted(DisconnectAll(s, s.conns.Keys - ok), ok, |ok|, Stamped(alert, timestamp))
  }

  // ---------------------------------------------------------------------
  // Walking sessions and state changes
  // ---------------------------------------------------------------------

  /** The outcome of one store call: the value it returned, or an exception. */
  datatype Call = Returned(value: Json) | Raised

  /** `_start_walking_session`: in live mode the store's id becomes the open session. */
  function StartWalkingSession(t: Tracker, backend: Backend, save: Call): (r: Tracker)
    ensures r == t.(session := r.session)
    ensures backend == Mock || save.Raised? ==> r == t
    ensures backend == Live && save.Returned? && save.value != JNull ==> r.session == Some(save.value)
  {
    if backend == Live && save.Returned? then t.(session := if save.value == JNull then None else Some(save.value))
    else t
  }

  /** The update request `_end_walking_session` sends to the store, if any. */
  function EndSessionRequest(trackers: map<string, Tracker>, u: string, backend: Backend): (req: Option<SessionId>)
    ensures req.Some? <==> backend == Live && u in trackers && trackers[u].session.Some?
    ensures req.Some? ==> req == trackers[u].session
  {
    if u in trackers && trackers[u].session.Some? && backend == Live then trackers[u].session else None
  }

  /** `_end_walking_session`: the session is forgotten unless the live update raised. */
  function EndWalkingSession(t: Tracker, backend: Backend, update: Call): (r: Tracker)
    ensures r == t.(session := r.session)
    ensures r.session.Some? <==> t.session.Some? && backend == Live && update.Raised?
  {
    if t.session.None? then t
    else if backend == Live && update.Raised? then t
    else t.(session := None)
  }

  /** Store outcomes for the session calls a state change may make. */
  datatype SessionCalls = SessionCalls(start: Call, end: Call)

  /** `_handle_state_change` for a user whose tracker has just changed state. */
  function HandleStateChange(s: Server, u: string, backend: Backend, calls: SessionCalls): (r: Server)
    requires u in s.trackers
    ensures r == s.(trackers := r.trackers, timers := r.timers)
    ensures u in r.trackers && r.trackers == s.trackers[u := r.trackers[u]]
    ensures r.trackers[u] == s.trackers[u].(session := r.trackers[u].session)
    // A session is opened only in Walking and only when none is open.
    ensures r.trackers[u].session != s.trackers[u].session && r.trackers[u].session.Some? ==>
      s.trackers[u].state == Walking && s.trackers[u].session.None?
    // A session is closed only when the user is no longer Walking.
    ensures s.trackers[u].session.Some? && r.trackers[u].session.None? ==> s.trackers[u].state != Walking
    // Walking keeps an open session open.
    ensures s.trackers[u].state == Walking && s.trackers[u].session.Some? ==> r.trackers[u].session == s.trackers[u].session
    // The emergency timer is disarmed exactly on a change into Daily.
    ensures r.timers == if s.trackers[u].state == Daily then s.timers - {u} else s.timers
  {
    var t := s.trackers[u];
    var t1 :=
      if t.state == Walking && t.session.None? then StartWalkingSession(t, backend, calls.start)
      else if t.state != Walking && t.session.Some? then EndWalkingSession(t, backend, calls.end)
      else t;
    s.(trackers := s.trackers[u := t1],
       timers := if t.state == Daily then s.timers - {u} else s.timers)
  }

  /** After any state change a user has at most the one session the tracker holds, and none outside Walking unless closing it failed. */
  lemma SessionOnlyWhileWalking(s: Server, u: string, backend: Backend, calls: SessionCalls)
    requires u in s.trackers
    requires s.trackers[u].state != Walking ==> s.trackers[u].session.None? || calls.end.Returned? || backend == Mock
    ensures var r := HandleStateChange(s, u, backend, calls);
      r.trackers[u].session.Some? ==> r.trackers[u].state == Walking
  {
  }

  /** `update_from_raspberry` followed, on a change, by `_handle_state_change`. */
  function ApplyStateInfo(s: Server, u: string, stateInfo: map<string, Json>, now: Stamp,
                          backend: Backend, calls: SessionCalls): (r: Server)
    ensures u !in s.trackers ==> r == s
    ensures r.conns == s.conns && r.batches == s.batches && r.dataBuffers == s.dataBuffers
    ensures r.trackers.Keys == s.trackers.Keys
    ensures u in s.trackers ==> r.trackers[u].state == UpdateFromRaspberry(s.trackers[u], stateInfo, now).next.state
    ensures forall k :: k in s.timers && (k != u || u !in s.trackers || r.trackers[u].state != Daily) ==>
      k in r.timers && r.timers[k] == s.timers[k]
    ensures forall k :: k in r.timers ==> k in s.timers && r.timers[k] == s.timers[k]
  {
    if u !in s.trackers then s
    else
      var up := UpdateFromRaspberry(s.trackers[u], stateInfo, now);
      var s1 := s.(trackers := s.trackers[u := up.next]);
      if up.changed then HandleStateChange(s1, u, backend, calls) else s1
  }

  // ---------------------------------------------------------------------
  // Telemetry and fall frames
  // ---------------------------------------------------------------------

  /** The batch after one record, and the records handed to the store by a flush. */
  datatype Batched = Batched(batch: seq<Json>, flushed: seq<Json>)

  /** Append a record to the batch and flush the whole batch once it holds five. */
  function AddToBatch(batch: seq<Json>, item: Json): (b: Batched)
    ensures b.batch + b.flushed == batch + [item]
    ensures |b.batch| < ImuBatchSize || |batch| >= ImuBatchSize
    ensures b.flushed != [] <==> |batch| + 1 >= ImuBatchSize
    ensures b.flushed != [] ==> b.batch == []
  {
    var all := batch + [item];
    if |all| >= ImuBatchSize then Batched([], all) else Batched(all, [])
  }

  /** A record as stored: its own timestamp if it has one, otherwise the server's. */
  function WithTimestamp(record: map<string, Json>, timestamp: string): (r: map<string, Json>)
    ensures r.Keys == record.Keys + {"timestamp"}
    ensures forall k :: k in record ==> r[k] == record[k]
    ensures "timestamp" !in record ==> r["timestamp"] == JStr(timestamp)
  {
    if "timestamp" in record then record else record["timestamp" := JStr(timestamp)]
  }

  /**
   * `if 'timestamp' not in data: data['timestamp'] = …`: the record that is
   * batched, or None where the test or the assignment raises.  On a string
   * `in` is a substring test and on a list a membership test, so a string or
   * list already holding "timestamp" passes through unchanged, any other
   * string or list raises on the item assignment, and null, a number or a
   * boolean raises on `in` itself.
   */
  function TimestampedRecord(data: Json, timestamp: string): (r: Option<Json>)
    ensures data.JObj? ==> r == Some(JObj(WithTimestamp(data.fields, timestamp)))
    ensures data.JStr? ==> (r.Some? <==> Contains(data.s, "timestamp")) && (r.Some? ==> r.value == data)
    ensures data.JArr? ==> (r.Some? <==> JStr("timestamp") in data.items) && (r.Some? ==> r.value == data)
    ensures !data.JObj? && !data.JStr? && !data.JArr? ==> r.None?
  {
    match data
    case JObj(fields) => Some(JObj(WithTimestamp(fields, timestamp)))
    case JStr(text) => if Contains(text, "timestamp") then Some(data) else None
    case JArr(items) => if JStr("timestamp") in items then Some(data) else None
    case _ => None
  }

  /** What happened to a frame routed to the IMU or fall path. */
  datatype Handled = Handled(next: Server, flushed: seq<Json>, broadcast: Option<Broadcasted>, failed: bool)

  /** `if state_info and user_id in trackers`: a truthy non-object raises before anything else happens. */
  predicate StateInfoRaises(stateInfo: Json, s: Server, u: string) {
    Truthy(stateInfo) && u in s.trackers && !stateInfo.JObj?
  }

  function ApplyIfPresent(s: Server, u: string, stateInfo: Json, now: Stamp, backend: Backend,
                          calls: SessionCalls): (r: Server)
    requires !StateInfoRaises(stateInfo, s, u)
    ensures !Truthy(stateInfo) ==> r == s
    ensures r.conns == s.conns && r.batches == s.batches && r.trackers.Keys == s.trackers.Keys
    ensures forall k :: k in r.timers ==> k in s.timers && r.timers[k] == s.timers[k]
  {
    if Truthy(stateInfo) && u in s.trackers then ApplyStateInfo(s, u, stateInfo.fields, now, backend, calls) else s
  }

  /** `_safe_send` to the sender itself raises only on a CONNECTED socket whose send fails. */
  predicate EchoFails(s: Server, u: string) {
    u in s.conns && s.conns[u].connected && s.conns[u].sendRaises
  }

  /** The acknowledgement sent back to the sender; a raising send disconnects it. */
  function Echo(s: Server, u: string): (r: Server)
    ensures EchoFails(s, u) ==> r == Disconnect(s, u)
    ensures !EchoFails(s, u) ==> r == s
  {
    if EchoFails(s, u) then Disconnect(s, u) else s
  }

  /**
   * A batched record as `_save_to_csv` leaves it.  Only an object can be
   * rewritten: on a string or a list the `sensor_data` lookup raises inside
   * the backup's own handler and the record stays as it was.
   */
  function CsvRecord(record: Json, sensorText: string): (r: Json)
    ensures record.JObj? ==> r == JObj(AfterCsv(record.fields, sensorText))
    ensures !record.JObj? ==> r == record
  {
    if record.JObj? then JObj(AfterCsv(record.fields, sensorText)) else record
  }

  /**
   * `_process_imu_data`: mirror the reported state, batch the record (with
   * a timestamp added when it has none), back it up, and acknowledge it to
   * the sender.  The batch holds the very dictionary the CSV backup
   * rewrites, so a record that stays in the batch is the rewritten one,
   * while a flush hands the store the records before the backup ran.
   */
  function ProcessImu(s: Server, u: string, data: Json, stateInfo: Json, now: Stamp, timestamp: string,
                      sensorText: string, backend: Backend, calls: SessionCalls): (h: Handled)
    ensures StateInfoRaises(stateInfo, s, u) ==> h == Handled(s, [], None, true)
    ensures h.broadcast.None?
    ensures h.failed ==> h.next.conns == s.conns
    ensures !h.failed ==> h.next.conns == if EchoFails(s, u) then s.conns - {u} else s.conns
    // The record joins the batch; a full batch is handed to the store as a whole.
    // Past the state report, the frame fails exactly when stamping the record raises.
    ensures !StateInfoRaises(stateInfo, s, u) ==> (h.failed <==> TimestampedRecord(data, timestamp).None?)
    ensures !h.failed ==>
      var prev := if u in s.batches then s.batches[u] else [];
      && TimestampedRecord(data, timestamp).Some?
      && (var rec := TimestampedRecord(data, timestamp).value;
          && (|prev| + 1 >= ImuBatchSize <==> h.flushed == prev + [rec])
          && (!EchoFails(s, u) ==>
                && u in h.next.batches
                && h.next.batches[u] == if h.flushed == [] then prev + [CsvRecord(rec, sensorText)] else []))
    // A sender whose acknowledgement raises is torn down.
    ensures !h.failed && EchoFails(s, u) ==> u !in h.next.batches && u !in h.next.trackers
    // A truthy state report moves the sender's tracker exactly as `update_from_raspberry` does.
    ensures var reported := !StateInfoRaises(stateInfo, s, u) && Truthy(stateInfo) && u in s.trackers;
      reported && (h.failed || !EchoFails(s, u)) ==>
        && stateInfo.JObj? && u in h.next.trackers
        && h.next.trackers[u] == ApplyStateInfo(s, u, stateInfo.fields, now, backend, calls).trackers[u]
    ensures !Truthy(stateInfo) && (h.failed || !EchoFails(s, u)) ==> h.next.trackers == s.trackers
  {
    if StateInfoRaises(stateInfo, s, u) then Handled(s, [], None, true)
    else
      var s1 := ApplyIfPresent(s, u, stateInfo, now, backend, calls);
      var record := TimestampedRecord(data, timestamp);
      if record.None? then Handled(s1, [], None, true)
      else
        var prev := if u in s1.batches then s1.batches[u] else [];
        var b := AddToBatch(prev, record.value);
        var kept := if b.flushed == [] then prev + [CsvRecord(record.value, sensorText)] else b.batch;
        Handled(Echo(s1.(batches := s1.batches[u := kept]), u), b.flushed, None, false)
  }

  /** The `fall_alert` the server broadcasts for a processed fall record. */
  function FallAlert(u: string, record: map<string, Json>): (a: map<string, Json>)
    ensures "type" in a && a["type"] == JStr("fall_alert")
    ensures "data" in a && a["data"].JObj?
    ensures var d := a["data"].fields;
      && "emergency_level" in d && d["emergency_level"] == JStr("HIGH")
      && "user_id" in d && d["user_id"] == JStr(u)
      && "confidence_score" in d && d["confidence_score"] == Get(record, "confidence_score", JNum(0.0))
      && "sensor_data" in d && d["sensor_data"] == Get(record, "sensor_data", JObj(map[]))
  {
    assert "type" != "data" by { assert "type"[0] != "data"[0]; }
    assert "user_id" != "message" by { assert "user_id"[0] != "message"[0]; }
    map["type" := JStr("fall_alert"),
        "data" := JObj(map[
          "user_id" := JStr(u),
          "timestamp" := Get(record, "timestamp", JNull),
          "confidence_score" := Get(record, "confidence_score", JNum(0.0)),
          "message" := JStr("🚨 사용자 " + u + "에게 낙상이 감지되었습니다!"),
          "sensor_data" := Get(record, "sensor_data", JObj(map[])),
          "emergency_level" := JStr("HIGH")])]
  }

  /** A fall record after the server's defaults: a timestamp, `fall_detected` and a 0.8 confidence when absent. */
  function FallRecord(data: map<string, Json>, timestamp: string): (r: map<string, Json>)
    ensures r.Keys == data.Keys + {"timestamp", "fall_detected", "confidence_score"}
    ensures r["fall_detected"] == Get(data, "fall_detected", JBool(true))
    ensures r["confidence_score"] == Get(data, "confidence_score", JNum(0.8))
    ensures forall k :: k in data ==> r[k] == data[k]
  {
    assert "timestamp" != "fall_detected" && "timestamp" != "confidence_score" && "fall_detected" != "confidence_score";
    SetDefault(SetDefault(WithTimestamp(data, timestamp), "fall_detected", JBool(true)), "confidence_score", JNum(0.8))
  }

  /**
   * `_save_to_csv` takes a record without `acc_x` for a fall record, and
   * then replaces a `sensor_data` that is not already a string by its JSON
   * text, in place, before any file is opened.
   */
  predicate CsvEncodesSensorData(record: map<string, Json>) {
    "acc_x" !in record && "sensor_data" in record && !record["sensor_data"].JStr?
  }

  /**
   * The fall record as `_save_to_csv` leaves it; `sensorText` is what
   * `json.dumps` makes of the sensor data.
   */
  function AfterCsv(record: map<string, Json>, sensorText: string): (r: map<string, Json>)
    ensures r.Keys == record.Keys
    ensures CsvEncodesSensorData(record) ==> r["sensor_data"] == JStr(sensorText)
    ensures !CsvEncodesSensorData(record) ==> r == record
    ensures forall k :: k in record && k != "sensor_data" ==> r[k] == record[k]
  {
    if CsvEncodesSensorData(record) then record["sensor_data" := JStr(sensorText)] else record
  }

  /** The timer a processed fall arms: only when the live store accepted the record. */
  function ArmTimer(s: Server, u: string, now: Stamp, backend: Backend, save: Call): (r: Server)
    ensures r == s.(timers := r.timers)
    ensures backend == Live && save.Returned? ==> r.timers == s.timers[u := now]
    ensures backend == Mock || save.Raised? ==> r.timers == s.timers
  {
    if backend == Live && save.Returned? then s.(timers := s.timers[u := now]) else s
  }

  /**
   * `_process_fall_data`: mirror the reported state, complete the record,
   * arm the emergency timer when the live store accepted the record, and
   * broadcast the fall alert in every case.
   */
  function ProcessFall(s: Server, u: string, data: Json, stateInfo: Json, now: Stamp, timestamp: string,
                       sensorText: string, backend: Backend, save: Call, calls: SessionCalls): (h: Handled)
    ensures StateInfoRaises(stateInfo, s, u) ==> h == Handled(s, [], None, true)
    ensures h.flushed == []
    ensures h.failed <==> StateInfoRaises(stateInfo, s, u) || !data.JObj?
    // The alert goes out whenever the record could be processed, whatever the store did.
    ensures h.broadcast.Some? <==> !h.failed
    ensures !h.failed ==>
      data.JObj?
      && h.broadcast.value.alert == Stamped(FallAlert(u, AfterCsv(FallRecord(data.fields, timestamp), sensorText)), timestamp)
    // Sensor data that is not a string, in a record without `acc_x`, goes out as JSON text.
    ensures !h.failed && CsvEncodesSensorData(data.fields) ==>
      h.broadcast.value.alert["data"].fields["sensor_data"] == JStr(sensorText)
    // A timer is new or re-armed only for this user, by a live store that accepted the record.
    ensures forall k :: k in h.next.timers && (k !in s.timers || h.next.timers[k] != s.timers[k]) ==>
      k == u && !h.failed && backend == Live && save.Returned? && h.next.timers[u] == now
    ensures !h.failed && backend == Live && save.Returned? && u in Reachable(s.conns) ==>
      u in h.next.timers && h.next.timers[u] == now
  {
    if StateInfoRaises(stateInfo, s, u) then Handled(s, [], None, true)
    else
      var s1 := ApplyIfPresent(s, u, stateInfo, now, backend, calls);
      if !data.JObj? then Handled(s1, [], None, true)
      else
        var s2 := ArmTimer(s1, u, now, backend, save);
        assert forall k :: k in s2.timers && (k !in s.timers || s2.timers[k] != s.timers[k]) ==>
          k == u && backend == Live && save.Returned? && s2.timers[u] == now;
        assert s2.conns == s.conns;
        var record := FallRecord(data.fields, timestamp);
        assert CsvEncodesSensorData(data.fields) ==> CsvEncodesSensorData(record);
        var b := Broadcast(s2, FallAlert(u, AfterCsv(record, sensorText)), timestamp);
        Handled(b.next, [], Some(b), false)
  }

  /**
   * `handle_received_data` for a frame that decoded to `parsed` (`None`:
   * not JSON).  Legacy messages carry no state information.
   */
  function HandleFrame(s: Server, u: string, parsed: Option<Json>, now: Stamp, timestamp: string,
                       sensorText: string, backend: Backend, save: Call, calls: SessionCalls): (h: Handled)
    ensures RouteFrame(parsed).Unreadable? ==> h == Handled(s, [], None, true)
    ensures RouteFrame(parsed).ImuFrame? ==>
      h == ProcessImu(s, u, RouteFrame(parsed).data, RouteFrame(parsed).stateInfo, now, timestamp, sensorText, backend, calls)
    ensures RouteFrame(parsed).FallFrame? ==>
      h == ProcessFall(s, u, RouteFrame(parsed).data, RouteFrame(parsed).stateInfo, now, timestamp, sensorText, backend, save, calls)
    // A legacy fall always reaches the broadcast.
    ensures RouteFrame(parsed).LegacyFrame? && IsLegacyFall(RouteFrame(parsed).message) ==> h.broadcast.Some?
    ensures RouteFrame(parsed).LegacyFrame? && ClassifyLegacy(u, RouteFrame(parsed).message, timestamp).LegacyIgnored? ==>
      h == Handled(s, [], None, false)
  {
    match RouteFrame(parsed)
    case Unreadable => Handled(s, [], None, true)
    case ImuFrame(data, info) => ProcessImu(s, u, data, info, now, timestamp, sensorText, backend, calls)
    case FallFrame(data, info) => ProcessFall(s, u, data, info, now, timestamp, sensorText, backend, save, calls)
    case LegacyFrame(m) =>
      match ClassifyLegacy(u, m, timestamp)
      case LegacyFall(record) => ProcessFall(s, u, JObj(record), JNull, now, timestamp, sensorText, backend, save, calls)
      case LegacyImu(record) => ProcessImu(s, u, JObj(record), JNull, now, timestamp, sensorText, backend, calls)
      case LegacyIgnored => Handled(s, [], None, false)
      case LegacyMalformed => Handled(s, [], None, true)
  }

  // ---------------------------------------------------------------------
  // Escalation sweep
  // ---------------------------------------------------------------------

  /** Whole seconds elapsed between two clock readings, as `int(duration)` gives them. */
  function WholeSeconds(from: int, to: int): int
    requires from <= to
  {
    (to - from) / 1000
  }

  /** The `emergency_declared` alert for user `u`, `secs` seconds after the fall. */
  function DeclaredAlert(u: string, secs: int, timestamp: string): (a: map<string, Json>)
    ensures "type" in a && a["type"] == JStr("emergency_declared")
    ensures "data" in a && a["data"].JObj?
    ensures var d := a["data"].fields;
      && "timestamp" in d
      && "emergency_level" in d && d["emergency_level"] == JStr("CRITICAL")
      && "user_id" in d && d["user_id"] == JStr(u)
      && "duration_seconds" in d && d["duration_seconds"] == JNum(secs as real)
  {
    assert "type" != "data" by { assert "type"[0] != "data"[0]; }
    assert "user_id" != "message" by { assert "user_id"[0] != "message"[0]; }
    map["type" := JStr("emergency_declared"),
        "data" := JObj(map[
          "user_id" := JStr(u),
          "message" := JStr("🚨 응급상황! 사용자 " + u + "가 15초간 움직이지 않습니다!"),
          "duration_seconds" := JNum(secs as real),
          "emergency_level" := JStr("CRITICAL"),
          "timestamp" := JStr(timestamp)])]
  }

  /** The iteration order of `list(emergency_timers.items())`: every armed user exactly once. */
  ghost predicate Enumerates(order: seq<string>, timers: map<string, Stamp>) {
    |order| == |timers.Keys|
    && (forall k :: k in timers <==> k in order)
    && (forall i, j :: 0 <= i < j < |order| ==> order[i] != order[j])
  }

  predicate Expired(timers: map<string, Stamp>, k: string, now: int) {
    k in timers && now - timers[k] >= EmergencyAfterMs
  }

  /**
   * Disarm `u`'s timer and broadcast `alert`: what the sweep, the manual
   * resolution and the confirmation all do.  The alert goes out with its
   * fields other than `data` as given.
   */
  function DisarmAndBroadcast(cur: Server, u: string, alert: map<string, Json>, timestamp: string): (b: Broadcasted)
    requires "data" in alert && alert["data"].JObj?
    ensures b.next.conns.Keys <= cur.conns.Keys
    ensures forall k :: k in b.next.timers ==> k in cur.timers && k != u && b.next.timers[k] == cur.timers[k]
    ensures forall k :: k in cur.timers && k != u && k !in b.next.timers ==> k in cur.conns && k !in b.next.conns
    ensures forall k :: k in cur.timers && k != u && k in Reachable(cur.conns) ==> k in b.next.timers
    ensures u !in b.next.timers
    ensures forall k :: k in Reachable(cur.conns) ==> k in b.next.conns && b.next.conns[k] == cur.conns[k]
    ensures forall k :: k in cur.conns && k !in Reachable(cur.conns) ==> k !in b.next.timers
    ensures b.alert.Keys == alert.Keys && forall k :: k in alert && k != "data" ==> b.alert[k] == alert[k]
    ensures "data" in b.alert && b.alert["data"].JObj?
    ensures forall k :: k in alert["data"].fields ==>
      k in b.alert["data"].fields && b.alert["data"].fields[k] == alert["data"].fields[k]
  {
    Broadcast(cur.(timers := cur.timers - {u}), alert, timestamp)
  }

  /** Disarm `u`'s timer, armed at `armed`, and broadcast its emergency declaration. */
  function Declare(cur: Server, u: string, armed: Stamp, now: Stamp, timestamp: string): (b: Broadcasted)
    requires armed <= now
    ensures b.next.conns.Keys <= cur.conns.Keys
    ensures forall k :: k in b.next.timers ==> k in cur.timers && k != u && b.next.timers[k] == cur.timers[k]
    // A timer disappears only for `u` or for an observer the broadcast disconnected.
    ensures forall k :: k in cur.timers && k != u && k !in b.next.timers ==> k in cur.conns && k !in b.next.conns
    ensures forall k :: k in cur.timers && k != u && k in Reachable(cur.conns) ==> k in b.next.timers
    ensures u !in b.next.timers
    ensures forall k :: k in Reachable(cur.conns) ==> k in b.next.conns && b.next.conns[k] == cur.conns[k]
    ensures forall k :: k in cur.conns && k !in Reachable(cur.conns) ==> k !in b.next.timers
  {
    DisarmAndBroadcast(cur, u, DeclaredAlert(u, WholeSeconds(armed, now), timestamp), timestamp)
  }

  /** Every user in `us` has a snapshot entry old enough to be declared. */
  predicate AllExpired(snapshot: map<string, Stamp>, now: Stamp, us: seq<string>) {
    forall k :: 0 <= k < |us| ==> us[k] in snapshot && now - snapshot[us[k]] >= EmergencyAfterMs
  }

  /** The server after one sweep, the users declared in order, and whether the sweep was cut short. */
  datatype Swept = Swept(next: Server, declared: seq<string>, aborted: bool)

  /**
   * One pass of `_emergency_monitor` from position `i` of the snapshot, as
   * written: an expired entry whose timer has meanwhile disappeared (its
   * user was disconnected by an earlier broadcast of this same pass) makes
   * `del` raise KeyError, which ends the pass.
   */
  function SweepAsWritten(cur: Server, snapshot: map<string, Stamp>, order: seq<string>, i: nat,
                          now: Stamp, timestamp: string, declared: seq<string>): (w: Swept)
    requires i <= |order| && forall k :: k in order ==> k in snapshot
    // The pass only appends users whose snapshot entry has expired.
    ensures AllExpired(snapshot, now, declared) ==> AllExpired(snapshot, now, w.declared)
    // A pass that is not cut short is exactly the corrected sweep.
    ensures !w.aborted ==> w == Sweep(cur, snapshot, order, i, now, timestamp, declared)
    decreases |order| - i
  {
    if i == |order| then Swept(cur, declared, false)
    else
      var u := order[i];
      if now - snapshot[u] >= EmergencyAfterMs then
        if u !in cur.timers then Swept(cur, declared, true)
        else
          assert AllExpired(snapshot, now, declared) ==> AllExpired(snapshot, now, declared + [u]);
          SweepAsWritten(Declare(cur, u, snapshot[u], now, timestamp).next, snapshot, order, i + 1, now, timestamp, declared + [u])
      else SweepAsWritten(cur, snapshot, order, i + 1, now, timestamp, declared)
  }

  /**
   * A reachable user whose armed timer has expired is declared by the pass
   * as written, unless an earlier entry cuts the pass short, in which case
   * the user's timer is still armed for the retry.
   */
  lemma {:induction false} SweepAsWrittenReachesExpired(cur: Server, snapshot: map<string, Stamp>, order: seq<string>,
                                                        i: nat, now: Stamp, timestamp: string, declared: seq<string>,
                                                        u: string)
    requires i <= |order| && forall k :: k in order ==> k in snapshot
    requires u in order[i..] && Expired(snapshot, u, now)
    requires u in cur.timers && u in Reachable(cur.conns)
    ensures var w := SweepAsWritten(cur, snapshot, order, i, now, timestamp, declared);
      u in w.declared || (w.aborted && u in w.next.timers)
    decreases |order| - i
  {
    var v := order[i];
    if now - snapshot[v] >= EmergencyAfterMs {
      if v in cur.timers {
        var next := Declare(cur, v, snapshot[v], now, timestamp).next;
        if v == u {
          SweepAsWrittenExtends(next, snapshot, order, i + 1, now, timestamp, declared + [u]);
          var w := SweepAsWritten(next, snapshot, order, i + 1, now, timestamp, declared + [u]);
          assert w.declared[|declared|] == (declared + [u])[|declared|] == u;
        } else {
          assert u in order[i + 1..];
          SweepAsWrittenReachesExpired(next, snapshot, order, i + 1, now, timestamp, declared + [v], u);
        }
      }
    } else {
      assert u in order[i + 1..];
      SweepAsWrittenReachesExpired(cur, snapshot, order, i + 1, now, timestamp, declared, u);
    }
  }

  /** A pass as written only ever appends to the users it has declared. */
  lemma {:induction false} SweepAsWrittenExtends(cur: Server, snapshot: map<string, Stamp>, order: seq<string>,
                                                 i: nat, now: Stamp, timestamp: string, declared: seq<string>)
    requires i <= |order| && forall k :: k in order ==> k in snapshot
    ensures declared <= SweepAsWritten(cur, snapshot, order, i, now, timestamp, declared).declared
    decreases |order| - i
  {
    if i < |order| {
      var v := order[i];
      if now - snapshot[v] >= EmergencyAfterMs {
        if v in cur.timers {
          var next := Declare(cur, v, snapshot[v], now, timestamp).next;
          SweepAsWrittenExtends(next, snapshot, order, i + 1, now, timestamp, declared + [v]);
        }
      } else {
        SweepAsWrittenExtends(cur, snapshot, order, i + 1, now, timestamp, declared);
      }
    }
  }

  /** The sweep with the evidently intended handling: an entry already disarmed is skipped. */
  function Sweep(cur: Server, snapshot: map<string, Stamp>, order: seq<string>, i: nat,
                 now: Stamp, timestamp: string, declared: seq<string>): (w: Swept)
    requires i <= |order| && forall k :: k in order ==> k in snapshot
    ensures !w.aborted
    decreases |order| - i
  {
    if i == |order| then Swept(cur, declared, false)
    else
      var u := order[i];
      if now - snapshot[u] >= EmergencyAfterMs && u in cur.timers then
        Sweep(Declare(cur, u, snapshot[u], now, timestamp).next, snapshot, order, i + 1, now, timestamp, declared + [u])
      else Sweep(cur, snapshot, order, i + 1, now, timestamp, declared)
  }

  /** The delay before the next pass: 5 s normally, 30 s after a pass that raised. */
  function NextSweepDelay(w: Swept): (ms: int)
    ensures ms == SweepIntervalMs || ms == SweepRetryMs
    ensures ms == SweepRetryMs <==> w.aborted
  {
    if w.aborted then SweepRetryMs else SweepIntervalMs
  }

  /** What holds part-way through a sweep over the snapshot `snap`. */
  ghost predicate SweepInv(snap: map<string, Stamp>, order: seq<string>, i: nat, now: int,
                           cur: Server, declared: seq<string>, conns0: map<string, Socket>) {
    && i <= |order|
    // Timers are never added or re-armed during a sweep.
    && (forall k :: k in cur.timers ==> k in snap && cur.timers[k] == snap[k])
    // Users only ever leave the connection table.
    && cur.conns.Keys <= conns0.Keys
    // Observers that could be reached at the start keep their connection.
    && (forall k :: k in Reachable(conns0) ==> k in cur.conns && cur.conns[k] == conns0[k])
    // Every declared user was expired, came from the snapshot already visited, and appears once.
    && (forall j :: 0 <= j < |declared| ==> Expired(snap, declared[j], now) && declared[j] in order[..i])
    && (forall j, l :: 0 <= j < l < |declared| ==> declared[j] != declared[l])
    && (forall k :: k in declared ==> k !in cur.timers)
    // A visited expired entry is disarmed.
    && (forall j :: 0 <= j < i && Expired(snap, order[j], now) ==> order[j] !in cur.timers)
    // A timer disappears only by being declared or by its user being disconnected.
    && (forall k :: k in snap && k !in cur.timers ==> k in declared || k !in cur.conns)
  }

  /** Declaring the user at position `i` keeps `SweepInv`. */
  lemma DeclareKeepsInvariant(snap: map<string, Stamp>, order: seq<string>, i: nat, now: Stamp, timestamp: string,
                              cur: Server, declared: seq<string>, conns0: map<string, Socket>)
    requires i < |order| && forall k :: k in order ==> k in snap
    requires SweepInv(snap, order, i, now, cur, declared, conns0)
    requires Expired(snap, order[i], now) && order[i] in cur.timers
    ensures SweepInv(snap, order, i + 1, now, Declare(cur, order[i], snap[order[i]], now, timestamp).next,
                     declared + [order[i]], conns0)
  {
    assert order[i] !in declared;
    DeclaredListGrows(snap, order, i, now, declared);
    DeclareKeepsTimers(snap, order, i, now, timestamp, cur, declared);
    DeclareKeepsConns(cur, order[i], snap[order[i]], now, timestamp, conns0);
  }

  /** The timer conjuncts of `SweepInv` survive declaring `order[i]`. */
  lemma DeclareKeepsTimers(snap: map<string, Stamp>, order: seq<string>, i: nat, now: Stamp, timestamp: string,
                           cur: Server, declared: seq<string>)
    requires i < |order| && order[i] in snap && Expired(snap, order[i], now) && order[i] in cur.timers
    requires forall k :: k in cur.timers ==> k in snap && cur.timers[k] == snap[k]
    requires forall k :: k in declared ==> k !in cur.timers
    requires forall j :: 0 <= j < i && Expired(snap, order[j], now) ==> order[j] !in cur.timers
    requires forall k :: k in snap && k !in cur.timers ==> k in declared || k !in cur.conns
    ensures var next, d1 := Declare(cur, order[i], snap[order[i]], now, timestamp).next, declared + [order[i]];
      && (forall k :: k in next.timers ==> k in snap && next.timers[k] == snap[k])
      && (forall k :: k in d1 ==> k !in next.timers)
      && (forall j :: 0 <= j < i + 1 && Expired(snap, order[j], now) ==> order[j] !in next.timers)
      && (forall k :: k in snap && k !in next.timers ==> k in d1 || k !in next.conns)
  {
    var u := order[i];
    var next := Declare(cur, u, snap[u], now, timestamp).next;
    var d1 := declared + [u];
    forall k | k in snap && k !in next.timers
      ensures k in d1 || k !in next.conns
    {
      if k !in cur.timers {
        assert k in declared || k !in cur.conns;
      }
    }
  }

  /** The connection conjuncts of `SweepInv` survive a declaration. */
  lemma DeclareKeepsConns(cur: Server, u: string, armed: Stamp, now: Stamp, timestamp: string,
                          conns0: map<string, Socket>)
    requires armed <= now
    requires cur.conns.Keys <= conns0.Keys
    requires forall k :: k in Reachable(conns0) ==> k in cur.conns && cur.conns[k] == conns0[k]
    ensures var next := Declare(cur, u, armed, now, timestamp).next;
      && next.conns.Keys <= conns0.Keys
      && (forall k :: k in Reachable(conns0) ==> k in next.conns && next.conns[k] == conns0[k])
  {
    var next := Declare(cur, u, armed, now, timestamp).next;
    forall k | k in Reachable(conns0)
      ensures k in next.conns && next.conns[k] == conns0[k]
    {
      assert k in Reachable(cur.conns);
    }
  }

  /** The declared list stays a duplicate-free list of expired, visited users when `order[i]` joins it. */
  lemma DeclaredListGrows(snap: map<string, Stamp>, order: seq<string>, i: nat, now: int, declared: seq<string>)
    requires i < |order| && order[i] in snap && Expired(snap, order[i], now) && order[i] !in declared
    requires forall j :: 0 <= j < |declared| ==> Expired(snap, declared[j], now) && declared[j] in order[..i]
    requires forall j, l :: 0 <= j < l < |declared| ==> declared[j] != declared[l]
    ensures var d1 := declared + [order[i]];
      && (forall j :: 0 <= j < |d1| ==> Expired(snap, d1[j], now) && d1[j] in order[..i + 1])
      && (forall j, l :: 0 <= j < l < |d1| ==> d1[j] != d1[l])
  {
    var u := order[i];
    var d1 := declared + [u];
    assert order[..i + 1] == order[..i] + [u];
    forall j | 0 <= j < |d1|
      ensures Expired(snap, d1[j], now) && d1[j] in order[..i + 1]
    {
      if j < |declared| {
        assert d1[j] == declared[j];
      }
    }
    forall j, l | 0 <= j < l < |d1|
      ensures d1[j] != d1[l]
    {
      if l < |declared| {
        assert d1[j] == declared[j] && d1[l] == declared[l];
      } else {
        assert d1[j] == declared[j];
      }
    }
  }

  /** Passing over the user at position `i` without declaring keeps `SweepInv`. */
  lemma SkipKeepsInvariant(snap: map<string, Stamp>, order: seq<string>, i: nat, now: Stamp,
                           cur: Server, declared: seq<string>, conns0: map<string, Socket>)
    requires i < |order| && forall k :: k in order ==> k in snap
    requires SweepInv(snap, order, i, now, cur, declared, conns0)
    requires !(Expired(snap, order[i], now) && order[i] in cur.timers)
    ensures SweepInv(snap, order, i + 1, now, cur, declared, conns0)
  {
    assert order[..i + 1] == order[..i] + [order[i]];
    forall j | 0 <= j < |declared|
      ensures declared[j] in order[..i + 1]
    {
      assert declared[j] in order[..i];
    }
  }

  /** The corrected sweep keeps `SweepInv` to the end of the snapshot. */
  lemma {:induction false} SweepKeepsInvariant(cur: Server, snap: map<string, Stamp>, order: seq<string>, i: nat,
                                               now: Stamp, timestamp: string, declared: seq<string>, conns0: map<string, Socket>)
    requires forall k :: k in order ==> k in snap
    requires SweepInv(snap, order, i, now, cur, declared, conns0)
    ensures var w := Sweep(cur, snap, order, i, now, timestamp, declared);
      SweepInv(snap, order, |order|, now, w.next, w.declared, conns0)
    decreases |order| - i
  {
    if i < |order| {
      var u := order[i];
      if now - snap[u] >= EmergencyAfterMs && u in cur.timers {
        DeclareKeepsInvariant(snap, order, i, now, timestamp, cur, declared, conns0);
        SweepKeepsInvariant(Declare(cur, u, snap[u], now, timestamp).next, snap, order, i + 1, now, timestamp,
                            declared + [u], conns0);
      } else {
        SkipKeepsInvariant(snap, order, i, now, cur, declared, conns0);
        SweepKeepsInvariant(cur, snap, order, i + 1, now, timestamp, declared, conns0);
      }
    }
  }

  /**
   * One corrected pass of the escalation sweep: every timer at least 15 s
   * old is disarmed; each declared user had such a timer and is declared
   * once; an expired timer goes undeclared only when its user was
   * disconnected by a failed broadcast; and the timers left are the
   * unexpired ones, unchanged.
   */
  lemma SweepEscalatesExpired(s: Server, order: seq<string>, now: Stamp, timestamp: string)
    requires Enumerates(order, s.timers)
    ensures var w := Sweep(s, s.timers, order, 0, now, timestamp, []);
      && !w.aborted
      && (forall k :: k in w.next.timers ==>
            k in s.timers && w.next.timers[k] == s.timers[k] && now - s.timers[k] < EmergencyAfterMs)
      && (forall j :: 0 <= j < |w.declared| ==> Expired(s.timers, w.declared[j], now))
      && (forall j, l :: 0 <= j < l < |w.declared| ==> w.declared[j] != w.declared[l])
      && (forall k :: Expired(s.timers, k, now) ==> k in w.declared || k !in w.next.conns)
      && (forall k :: Expired(s.timers, k, now) && k in Reachable(s.conns) ==> k in w.declared)
  {
    var w := Sweep(s, s.timers, order, 0, now, timestamp, []);
    assert SweepInv(s.timers, order, 0, now, s, [], s.conns);
    SweepKeepsInvariant(s, s.timers, order, 0, now, timestamp, [], s.conns);
    FinishedSweep(s.timers, order, now, w.next, w.declared, s.conns);
  }

  /** At the end of the snapshot the invariant says every expired timer was dealt with. */
  lemma FinishedSweep(snap: map<string, Stamp>, order: seq<string>, now: int,
                      cur: Server, declared: seq<string>, conns0: map<string, Socket>)
    requires forall k :: k in snap ==> k in order
    requires SweepInv(snap, order, |order|, now, cur, declared, conns0)
    ensures forall k :: k in cur.timers ==> now - snap[k] < EmergencyAfterMs
    ensures forall k :: Expired(snap, k, now) ==> k in declared || k !in cur.conns
    ensures forall k :: Expired(snap, k, now) && k in Reachable(conns0) ==> k in declared
  {
    assert order[..|order|] == order;
    forall k | k in cur.timers
      ensures now - snap[k] < EmergencyAfterMs
    {
      var j :| 0 <= j < |order| && order[j] == k;
    }
    forall k | Expired(snap, k, now)
      ensures k in declared || k !in cur.conns
    {
      var j :| 0 <= j < |order| && order[j] == k;
    }
  }

  /** Three observers with timers armed at the same instant; the second one's socket is broken. */
  const BrokenMiddle: Server :=
    Server(map["a" := Fresh, "b" := Socket(true, true), "c" := Fresh], map[], map[], map[],
           map["a" := 1, "b" := 1, "c" := 1], true)

  /** Declaring the first user disconnects the broken observer and its timer with it. */
  lemma FirstDeclarationDropsBroken(now: Stamp)
    requires now > EmergencyAfterMs
    ensures var next := Declare(BrokenMiddle, "a", 1, now, "t").next;
      "a" !in next.timers && "b" !in next.timers && "c" in next.timers
  {
    var s := BrokenMiddle;
    assert "a" != "c" by { assert "a"[0] != "c"[0]; }
    assert "b" in s.conns && s.conns["b"].sendRaises;
    assert "c" in s.conns && s.conns["c"] == Fresh && "c" in s.timers;
    DeclareSplitsObservers(s, "a", 1, now, "t", "b", "c");
  }

  /** A declaration drops the timer of an unreachable observer and keeps a reachable one's. */
  lemma DeclareSplitsObservers(cur: Server, u: string, armed: Stamp, now: Stamp, timestamp: string,
                               broken: string, reached: string)
    requires armed <= now
    requires broken in cur.conns && broken !in Reachable(cur.conns)
    requires reached in cur.timers && reached != u && reached in Reachable(cur.conns)
    ensures var next := Declare(cur, u, armed, now, timestamp).next;
      u !in next.timers && broken !in next.timers && reached in next.timers
  {
  }

  /**
   * Three expired timers, and the second user's socket is broken.  The
   * first declaration disconnects that user and removes its timer, so the
   * sweep as written stops on KeyError: the third user's emergency stays
   * armed and undeclared until the pass after the 30 s back-off, while the
   * corrected sweep declares it at once.
   */
  lemma SweepAbandonsLaterTimers(now: Stamp)
    requires now > EmergencyAfterMs
    ensures var w := SweepAsWritten(BrokenMiddle, BrokenMiddle.timers, ["a", "b", "c"], 0, now, "t", []);
      && w.aborted && w.declared == ["a"] && "c" in w.next.timers
      && NextSweepDelay(w) == SweepRetryMs
  {
    BrokenMiddleSweepsFirstAndThird(now);
    SweepAsWrittenStopsAtSecond(BrokenMiddle, ["a", "b", "c"], now, "t", []);
    assert [] + ["a"] == ["a"];
  }

  /**
   * A sweep as written whose first declaration disarms the second entry
   * stops there, raising, with only the first declared.
   */
  lemma SweepAsWrittenStopsAtSecond(s: Server, order: seq<string>, now: Stamp, timestamp: string, declared: seq<string>)
    requires |order| == 3 && forall k :: k in order ==> k in s.timers
    requires Expired(s.timers, order[0], now) && order[0] in s.timers
    requires var after := Declare(s, order[0], s.timers[order[0]], now, timestamp).next;
      Expired(s.timers, order[1], now) && order[1] !in after.timers
    ensures SweepAsWritten(s, s.timers, order, 0, now, timestamp, declared)
         == Swept(Declare(s, order[0], s.timers[order[0]], now, timestamp).next, declared + [order[0]], true)
  {
  }

  /** One declaring step of the corrected sweep. */
  lemma SweepDeclareStep(cur: Server, snap: map<string, Stamp>, order: seq<string>, i: nat, now: Stamp,
                         timestamp: string, declared: seq<string>)
    requires i < |order| && forall k :: k in order ==> k in snap
    requires Expired(snap, order[i], now) && order[i] in cur.timers
    ensures Sweep(cur, snap, order, i, now, timestamp, declared)
         == Sweep(Declare(cur, order[i], snap[order[i]], now, timestamp).next, snap, order, i + 1, now, timestamp,
                  declared + [order[i]])
  {
  }

  /** One skipping step of the corrected sweep. */
  lemma SweepSkipStep(cur: Server, snap: map<string, Stamp>, order: seq<string>, i: nat, now: Stamp,
                      timestamp: string, declared: seq<string>)
    requires i < |order| && forall k :: k in order ==> k in snap
    requires !(Expired(snap, order[i], now) && order[i] in cur.timers)
    ensures Sweep(cur, snap, order, i, now, timestamp, declared) == Sweep(cur, snap, order, i + 1, now, timestamp, declared)
  {
  }

  /** The last entry of the snapshot, expired and still armed, is declared and disarmed. */
  lemma SweepLastDeclares(cur: Server, snap: map<string, Stamp>, order: seq<string>, now: Stamp,
                          timestamp: string, declared: seq<string>)
    requires |order| > 0 && forall k :: k in order ==> k in snap
    requires Expired(snap, order[|order| - 1], now) && order[|order| - 1] in cur.timers
    ensures var w := Sweep(cur, snap, order, |order| - 1, now, timestamp, declared);
      w.declared == declared + [order[|order| - 1]] && order[|order| - 1] !in w.next.timers
  {
  }

  /** `BrokenMiddle` meets the conditions of `SweepFirstAndThird` and `SweepAsWrittenStopsAtSecond`. */
  lemma BrokenMiddleSweepsFirstAndThird(now: Stamp)
    requires now > EmergencyAfterMs
    ensures var s, order := BrokenMiddle, ["a", "b", "c"];
      && |order| == 3 && (forall k :: k in order ==> k in s.timers)
      && Expired(s.timers, order[0], now) && order[0] in s.timers
      && var after := Declare(s, order[0], s.timers[order[0]], now, "t").next;
        && Expired(s.timers, order[1], now) && order[1] !in after.timers
        && Expired(s.timers, order[2], now) && order[2] in after.timers
  {
    FirstDeclarationDropsBroken(now);
    var order := ["a", "b", "c"];
    assert order[0] == "a" && order[1] == "b" && order[2] == "c";
    assert BrokenMiddle.timers["a"] == 1 && BrokenMiddle.timers["c"] == 1;
  }

  /** The declared list of `SweepSkipsDisarmed`, written out. */
  lemma DeclaredFirstAndThird()
    ensures var order := ["a", "b", "c"]; [] + [order[0]] + [order[2]] == ["a", "c"]
  {
  }

  /** On the same server the corrected sweep declares both users it can still reach. */
  lemma SweepSkipsDisarmed(now: Stamp)
    requires now > EmergencyAfterMs
    ensures var w := Sweep(BrokenMiddle, BrokenMiddle.timers, ["a", "b", "c"], 0, now, "t", []);
      !w.aborted && w.declared == ["a", "c"] && "c" !in w.next.timers
  {
    BrokenMiddleSweepsFirstAndThird(now);
    SweepFirstAndThird(BrokenMiddle, ["a", "b", "c"], now, "t", []);
    DeclaredFirstAndThird();
  }

  /**
   * A three-entry sweep whose first declaration disarms the second entry
   * and leaves the third armed declares the first and the third.
   */
  lemma SweepFirstAndThird(s: Server, order: seq<string>, now: Stamp, timestamp: string, declared: seq<string>)
    requires |order| == 3 && forall k :: k in order ==> k in s.timers
    requires Expired(s.timers, order[0], now) && order[0] in s.timers
    requires var after := Declare(s, order[0], s.timers[order[0]], now, timestamp).next;
      && !(Expired(s.timers, order[1], now) && order[1] in after.timers)
      && Expired(s.timers, order[2], now) && order[2] in after.timers
    ensures var w := Sweep(s, s.timers, order, 0, now, timestamp, declared);
      w.declared == declared + [order[0]] + [order[2]] && order[2] !in w.next.timers
  {
    var after := Declare(s, order[0], s.timers[order[0]], now, timestamp).next;
    SweepDeclareStep(s, s.timers, order, 0, now, timestamp, declared);
    SweepSkipThenDeclare(after, s.timers, order, now, timestamp, declared + [order[0]]);
  }

  /** Past a disarmed entry, the last expired and armed entry is declared and disarmed. */
  lemma SweepSkipThenDeclare(cur: Server, snap: map<string, Stamp>, order: seq<string>, now: Stamp,
                             timestamp: string, declared: seq<string>)
    requires |order| == 3 && forall k :: k in order ==> k in snap
    requires !(Expired(snap, order[1], now) && order[1] in cur.timers)
    requires Expired(snap, order[2], now) && order[2] in cur.timers
    ensures var w := Sweep(cur, snap, order, 1, now, timestamp, declared);
      w.declared == declared + [order[2]] && order[2] !in w.next.timers
  {
    SweepSkipStep(cur, snap, order, 1, now, timestamp, declared);
    SweepLastDeclares(cur, snap, order, now, timestamp, declared);
  }

  // ---------------------------------------------------------------------
  // Sessions left open on disconnect
  // ---------------------------------------------------------------------

  /**
   * `disconnect` schedules `_end_walking_session` as a task, which runs only
   * after `disconnect` has returned, by which time the tracker is gone: the
   * store never receives the update that closes the session.  For a user
   * with no connection `disconnect` schedules nothing at all.
   */
  function DeferredSessionClose(s: Server, u: string, backend: Backend): (req: Option<SessionId>)
    ensures u in s.conns ==> req.None?
    ensures u !in s.conns ==> req.None?
  {
    if u in s.conns then EndSessionRequest(Disconnect(s, u).trackers, u, backend) else None
  }

  /** Closing the session before the teardown, as the disconnect evidently intends. */
  function SessionCloseBeforeTeardown(s: Server, u: string, backend: Backend): (req: Option<SessionId>)
    ensures req.Some? <==> u in s.conns && backend == Live && u in s.trackers && s.trackers[u].session.Some?
    ensures req.Some? ==> req == s.trackers[u].session
  {
    if u in s.conns then EndSessionRequest(s.trackers, u, backend) else None
  }

  /** A user disconnecting mid-walk against the live store: only the corrected order closes the session. */
  lemma DisconnectLeavesSessionOpen(s: Server, u: string)
    requires u in s.conns && u in s.trackers && s.trackers[u].session.Some?
    ensures DeferredSessionClose(s, u, Live).None?
    ensures SessionCloseBeforeTeardown(s, u, Live) == s.trackers[u].session
  {
  }

  // ---------------------------------------------------------------------
  // Status query
  // ---------------------------------------------------------------------

  /** The `message` of a status report. */
  datatype StatusMessage = SinceFall(elapsedMs: int) | WalkingNow | FallDetected | Normal

  datatype Status =
    | Unknown
    | Known(state: ServerState, isConnected: bool, session: Option<SessionId>, message: StatusMessage)

  /** `get_user_status` at clock reading `now`. */
  function UserStatus(s: Server, u: string, now: Stamp): (st: Status)
    ensures st.Unknown? <==> u !in s.trackers
    ensures st.Known? ==> st.state == s.trackers[u].state && (st.isConnected <==> u in s.conns)
    // An armed timer outranks every state message.
    ensures st.Known? ==> (st.message.SinceFall? <==> u in s.timers)
    ensures st.Known? && u in s.timers ==> st.message.elapsedMs == now - s.timers[u]
    ensures st.Known? && u !in s.timers ==>
      (st.message == WalkingNow <==> st.state == Walking)
      && (st.message == FallDetected <==> st.state == Fall)
  {
    if u !in s.trackers then Unknown
    else
      var t := s.trackers[u];
      var msg :=
        if u in s.timers then SinceFall(now - s.timers[u])
        else if t.state == Walking then WalkingNow
        else if t.state == Fall then FallDetected
        else Normal;
      Known(t.state, u in s.conns, t.session, msg)
  }

  /** The fixed texts of the state messages. */
  function MessageText(m: StatusMessage): string
    requires !m.SinceFall?
  {
    match m
    case WalkingNow => "🚶 보행 중"
    case FallDetected => "🚨 낙상 감지됨"
    case Normal => "✅ 정상 상태"
  }
}
