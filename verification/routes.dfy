/**
 * The HTTP and socket routes that sit on top of the connection managers:
 * the per-user socket loop, the manual emergency controls (resolve and
 * confirm-help-needed), the two emergency views, and the risk tiers of
 * the two screening tests.  Which manager is installed is decided once at
 * start-up; only the walking-mode manager keeps emergency timers.
 */
module Routes {
  import opened Basics
  import W = WalkingManager
  import B = BasicManager

  /** The installed connection manager. */
  datatype Manager = WalkingMode(s: W.Server) | BasicMode(b: B.Server)

  /** `hasattr(websocket_manager, 'emergency_timers')`. */
  predicate HasTimers(m: Manager) {
    m.WalkingMode?
  }

  /** `int(x)` on a duration given in milliseconds: whole seconds, truncated toward zero. */
  function IntSeconds(ms: int): (secs: int)
    ensures ms >= 0 ==> 0 <= secs && secs * 1000 <= ms < (secs + 1) * 1000
    ensures ms < 0 ==> secs <= 0 && (secs - 1) * 1000 < ms <= secs * 1000
  {
    if ms >= 0 then ms / 1000 else -((-ms) / 1000)
  }

  // ---------------------------------------------------------------------
  // The socket loop
  // ---------------------------------------------------------------------

  /** One thing `receive_text` can produce: a text frame, or an exception with its message. */
  datatype Event = Received(text: string) | Raised(message: string, errorReplyRaises: bool)

  /** What the loop sends back. */
  datatype Reply = Pong | DisconnectAck | ErrorReply(message: string)

  /** Exception messages that mean the peer is gone. */
  predicate IsClosure(message: string) {
    Contains(message, "no close frame received or sent") || Contains(message, "Connection closed")
  }

  /** Whether an event ends the loop. */
  predicate Ends(e: Event) {
    match e
    case Received(t) => Strip(t) == "disconnect"
    case Raised(msg, replyRaises) => IsClosure(msg) || replyRaises
  }

  /** Whether a text frame is passed on to the manager. */
  predicate IsData(e: Event) {
    e.Received? && Strip(e.text) != "ping" && Strip(e.text) != "disconnect"
  }

  /** The loop's effect: replies sent, frames passed on, and whether it ended (`consumed` events read). */
  datatype Session = Session(replies: seq<Reply>, passedOn: seq<string>, closed: bool, consumed: nat)

  /** The frames among `events` that reach the manager, in order. */
  function DataTexts(events: seq<Event>): (texts: seq<string>)
    ensures |texts| <= |events|
  {
    if |events| == 0 then []
    else (if IsData(events[0]) then [events[0].text] else []) + DataTexts(events[1..])
  }

  /** Every frame passed on is the text of a data event; all-data events pass on all, none pass on nothing. */
  lemma {:induction false} DataTextsAreDataFrames(events: seq<Event>)
    ensures forall t :: t in DataTexts(events) ==> exists j :: 0 <= j < |events| && IsData(events[j]) && events[j].text == t
    ensures (forall j :: 0 <= j < |events| ==> IsData(events[j])) ==> |DataTexts(events)| == |events|
    ensures (forall j :: 0 <= j < |events| ==> !IsData(events[j])) ==> DataTexts(events) == []
  {
    if |events| > 0 {
      var rest := events[1..];
      DataTextsAreDataFrames(rest);
      forall t | t in DataTexts(events)
        ensures exists j :: 0 <= j < |events| && IsData(events[j]) && events[j].text == t
      {
        if IsData(events[0]) && t == events[0].text {
          assert IsData(events[0]) && events[0].text == t;
        } else {
          assert t in DataTexts(rest);
          var j :| 0 <= j < |rest| && IsData(rest[j]) && rest[j].text == t;
          assert events[j + 1] == rest[j];
        }
      }
      if forall j :: 0 <= j < |events| ==> IsData(events[j]) {
        assert forall j :: 0 <= j < |rest| ==> IsData(rest[j]) by {
          forall j | 0 <= j < |rest| ensures IsData(rest[j]) { assert rest[j] == events[j + 1]; }
        }
      }
      if forall j :: 0 <= j < |events| ==> !IsData(events[j]) {
        assert forall j :: 0 <= j < |rest| ==> !IsData(rest[j]) by {
          forall j | 0 <= j < |rest| ensures !IsData(rest[j]) { assert rest[j] == events[j + 1]; }
        }
      }
    }
  }

  /** The loop of `websocket_endpoint` over the events it receives. */
  function Serve(events: seq<Event>): (r: Session)
    ensures r.consumed <= |events|
    ensures |r.passedOn| <= r.consumed
  {
    if |events| == 0 then Session([], [], false, 0)
    else if Ends(events[0]) then Session(EndReplies(events[0]), [], true, 1)
    else
      var rest := Serve(events[1..]);
      Session(StepReplies(events[0]) + rest.replies,
              (if IsData(events[0]) then [events[0].text] else []) + rest.passedOn,
              rest.closed, rest.consumed + 1)
  }

  /** The loop ends exactly at the first ending event, and reads every event when there is none. */
  lemma {:induction false} ServeStopsAtFirstEnd(events: seq<Event>)
    ensures var r := Serve(events);
      && (r.closed <==> exists j :: 0 <= j < |events| && Ends(events[j]))
      && (r.closed ==> r.consumed > 0 && Ends(events[r.consumed - 1]))
      && (forall j :: 0 <= j < r.consumed - 1 ==> !Ends(events[j]))
      && (!r.closed ==> r.consumed == |events|)
    decreases |events|
  {
    if |events| > 0 && !Ends(events[0]) {
      var tail := events[1..];
      ServeStopsAtFirstEnd(tail);
      ServeStep(events);
      var rest := Serve(tail);
      assert forall j :: 1 <= j < |events| ==> events[j] == tail[j - 1];
      if exists j :: 0 <= j < |events| && Ends(events[j]) {
        var j :| 0 <= j < |events| && Ends(events[j]);
        assert Ends(tail[j - 1]);
      }
      if rest.closed {
        assert Ends(events[rest.consumed]);
      }
    }
  }

  /** Past an event that does not end it, the loop goes on with the rest. */
  lemma ServeStep(events: seq<Event>)
    requires |events| > 0 && !Ends(events[0])
    ensures var r, rest := Serve(events), Serve(events[1..]);
      && r.passedOn == (if IsData(events[0]) then [events[0].text] else []) + rest.passedOn
      && r.closed == rest.closed && r.consumed == rest.consumed + 1
  {
  }

  /** An event that ends the loop passes nothing on. */
  lemma ServeEndsAtHead(events: seq<Event>)
    requires |events| > 0 && Ends(events[0])
    ensures Serve(events).passedOn == [] && Serve(events).consumed == 1
    ensures DataTexts(events[..1]) == []
  {
    assert events[..1][1..] == [];
  }

  /** The data frames of a prefix, one event at a time. */
  lemma DataTextsOfPrefix(events: seq<Event>, n: nat)
    requires n < |events|
    ensures DataTexts(events[..n + 1])
         == (if IsData(events[0]) then [events[0].text] else []) + DataTexts(events[1..][..n])
  {
    assert events[..n + 1][0] == events[0];
    assert events[..n + 1][1..] == events[1..][..n];
  }

  /** Exactly the data frames read before the end reach the manager, in order. */
  lemma {:induction false} ServePassesDataOn(events: seq<Event>)
    ensures Serve(events).passedOn == DataTexts(events[..Serve(events).consumed])
    decreases |events|
  {
    if |events| > 0 {
      if Ends(events[0]) {
        ServeEndsAtHead(events);
      } else {
        var tail := events[1..];
        ServePassesDataOn(tail);
        ServeStep(events);
        DataTextsOfPrefix(events, Serve(tail).consumed);
      }
    }
  }

  /** The reply to the event that ends the loop: an acknowledgement for `disconnect`, nothing otherwise. */
  function EndReplies(e: Event): seq<Reply> {
    if e.Received? then [DisconnectAck] else []
  }

  /** The reply to an event the loop survives: a pong, nothing, or the error truncated to 100 characters. */
  function StepReplies(e: Event): seq<Reply> {
    match e
    case Received(t) => if Strip(t) == "ping" then [Pong] else []
    case Raised(msg, _) => [ErrorReply(msg[..if |msg| < 100 then |msg| else 100])]
  }

  /** Whatever ends the session, the manager forgets the user: the `finally` clause. */
  function EndSession(m: Manager, u: string): (r: Manager)
    ensures r.WalkingMode? <==> m.WalkingMode?
    ensures r.WalkingMode? && u in m.s.conns ==> u !in r.s.conns && u !in r.s.trackers && u !in r.s.timers
    ensures r.WalkingMode? && u !in m.s.conns ==> r == m
    ensures r.BasicMode? ==> u !in r.b.conns && r.b.batches == m.b.batches
  {
    match m
    case WalkingMode(s) => WalkingMode(W.Disconnect(s, u))
    case BasicMode(b) => BasicMode(B.Disconnect(b, u))
  }

  /** A ping is answered and the loop goes on; nothing is passed to the manager. */
  lemma {:induction false} PingsKeepSessionOpen(events: seq<Event>)
    requires forall j :: 0 <= j < |events| ==> events[j] == Received("ping")
    ensures Serve(events) == Session(seq(|events|, _ => Pong), [], false, |events|)
  {
    if |events| > 0 {
      PingsKeepSessionOpen(events[1..]);
      assert [Pong] + seq(|events| - 1, _ => Pong) == seq(|events|, _ => Pong);
    }
  }

  /**
   * Control words are compared after `strip()`, which also removes Unicode
   * white space: a no-break space or an ideographic space around them
   * changes nothing.
   */
  lemma PaddedControlWords()
    ensures Ends(Received("disconnect\U{A0}"))
    ensures !IsData(Received("\U{3000}ping\U{A0}"))
    ensures StepReplies(Received("\U{3000}ping\U{A0}")) == [Pong]
  {
    StripsNoBreakSpace();
    StripsIdeographicSpace();
  }

  lemma StripsNoBreakSpace()
    ensures Strip("disconnect\U{A0}") == "disconnect"
  {
    assert "disconnect\U{A0}"[..|"disconnect\U{A0}"| - 1] == "disconnect";
  }

  lemma StripsIdeographicSpace()
    ensures Strip("\U{3000}ping\U{A0}") == "ping"
  {
    assert "\U{3000}ping\U{A0}"[1..] == "ping\U{A0}";
    assert "ping\U{A0}"[..|"ping\U{A0}"| - 1] == "ping";
  }

  // ---------------------------------------------------------------------
  // Manual emergency controls
  // ---------------------------------------------------------------------

  /** The HTTP answer of an emergency control. */
  datatype Answer =
    | NotWalkingMode
    | NoActiveEmergency
    | Resolved(durationSeconds: int, resolutionType: Json)
    | Confirmed(helpType: Json)
    /** An exception turned into HTTP 500. */
    | ServerError

  /** The manager after a control, the alert it broadcast if any, and the answer. */
  datatype Controlled = Controlled(next: Manager, alert: Option<map<string, Json>>, answer: Answer)

  /** An alert was broadcast and carries `type`. */
  predicate AlertOfType(alert: Option<map<string, Json>>, kind: string) {
    alert.Some? && "type" in alert.value && alert.value["type"] == JStr(kind)
  }

  /** An alert whose data names the CRITICAL emergency level. */
  predicate MarksCritical(alert: Option<map<string, Json>>) {
    && alert.Some? && "data" in alert.value && alert.value["data"].JObj?
    && "emergency_level" in alert.value["data"].fields
    && alert.value["data"].fields["emergency_level"] == JStr("CRITICAL")
  }

  /** The `emergency_resolved` alert. */
  function ResolvedAlert(u: string, secs: int, resolutionType: Json, timestamp: string): (a: map<string, Json>)
    ensures "data" in a && a["data"].JObj? && "timestamp" in a["data"].fields
    ensures "type" in a && a["type"] == JStr("emergency_resolved")
  {
    assert "type" != "data" by { assert "type"[0] != "data"[0]; }
    map["type" := JStr("emergency_resolved"),
        "data" := JObj(map[
          "user_id" := JStr(u),
          "message" := JStr("사용자 " + u + "가 괜찮다고 응답했습니다. 응급상황이 해제됩니다."),
          "resolution_type" := resolutionType,
          "duration_seconds" := JNum(secs as real),
          "resolved_by" := JStr("user_response"),
          "timestamp" := JStr(timestamp)])]
  }

  /** `resolve_emergency` at clock reading `now`: disarm the timer and tell every observer. */
  function Resolve(m: Manager, u: string, request: map<string, Json>, now: Stamp, timestamp: string): (c: Controlled)
    ensures !HasTimers(m) ==> c == Controlled(m, None, NotWalkingMode)
    ensures HasTimers(m) && u !in m.s.timers ==> c == Controlled(m, None, NoActiveEmergency)
    ensures HasTimers(m) && u in m.s.timers ==>
      && c.next.WalkingMode? && u !in c.next.s.timers
      && AlertOfType(c.alert, "emergency_resolved")
      && c.answer == Resolved(IntSeconds(now - m.s.timers[u]), Get(request, "resolution_type", JStr("user_ok")))
      // Other timers are touched only by disconnecting observers the alert could not reach.
      && (forall k :: k in c.next.s.timers ==> k in m.s.timers && c.next.s.timers[k] == m.s.timers[k])
  {
    match m
    case BasicMode(_) => Controlled(m, None, NotWalkingMode)
    case WalkingMode(s) =>
      if u !in s.timers then Controlled(m, None, NoActiveEmergency)
      else
        var secs := IntSeconds(now - s.timers[u]);
        var kind := Get(request, "resolution_type", JStr("user_ok"));
        var alert := ResolvedAlert(u, secs, kind, timestamp);
        var b := W.DisarmAndBroadcast(s, u, alert, timestamp);
        assert "type" != "data" by { assert "type"[0] != "data"[0]; }
        assert m.s == s && secs == IntSeconds(now - m.s.timers[u]);
        Controlled(WalkingMode(b.next), Some(b.alert), Resolved(secs, kind))
  }

  /** The `emergency_confirmed_critical` alert. */
  function ConfirmedAlert(u: string, secs: int, helpType: Json, timestamp: string): (a: map<string, Json>)
    ensures "data" in a && a["data"].JObj? && "timestamp" in a["data"].fields
    ensures "type" in a && a["type"] == JStr("emergency_confirmed_critical")
    ensures "emergency_level" in a["data"].fields && a["data"].fields["emergency_level"] == JStr("CRITICAL")
  {
    assert "type" != "data" by { assert "type"[0] != "data"[0]; }
    map["type" := JStr("emergency_confirmed_critical"),
        "data" := JObj(map[
          "user_id" := JStr(u),
          "message" := JStr("🚨 긴급! 사용자 " + u + "가 도움이 필요하다고 응답했습니다!"),
          "confirmation_type" := helpType,
          "duration_seconds" := JNum(secs as real),
          "emergency_level" := JStr("CRITICAL"),
          "confirmed_by" := JStr("user_response"),
          "timestamp" := JStr(timestamp)])]
  }

  /**
   * `confirm_help_needed` as written.  The function imports `time` in one
   * branch, which makes `time` a local name: the branch for a user with no
   * armed timer reads it unbound, raises, and answers HTTP 500 without
   * alerting anyone.  With a timer, the alert goes out but the timer stays
   * armed.
   */
  function ConfirmHelpAsWritten(m: Manager, u: string, request: map<string, Json>, now: Stamp,
                                timestamp: string): (c: Controlled)
    ensures !HasTimers(m) ==> c == Controlled(m, None, NotWalkingMode)
    ensures HasTimers(m) && u !in m.s.timers ==> c == Controlled(m, None, ServerError)
    ensures HasTimers(m) && u in m.s.timers ==>
      && c.next.WalkingMode? && AlertOfType(c.alert, "emergency_confirmed_critical") && MarksCritical(c.alert)
      && (u in W.Reachable(m.s.conns) ==> u in c.next.s.timers && c.next.s.timers[u] == m.s.timers[u])
  {
    match m
    case BasicMode(_) => Controlled(m, None, NotWalkingMode)
    case WalkingMode(s) =>
      if u !in s.timers then Controlled(m, None, ServerError)
      else
        var helpType := Get(request, "help_type", JStr("general_help"));
        var alert := ConfirmedAlert(u, IntSeconds(now - s.timers[u]), helpType, timestamp);
        var b := W.Broadcast(s, alert, timestamp);
        assert "type" != "data" by { assert "type"[0] != "data"[0]; }
        Controlled(WalkingMode(b.next), Some(b.alert), Confirmed(helpType))
  }

  /**
   * `confirm_help_needed` as evidently intended: the alert goes out with or
   * without an armed timer (one second when there is none), and the
   * confirmed emergency is taken off the escalation sweep.
   */
  function ConfirmHelp(m: Manager, u: string, request: map<string, Json>, now: Stamp,
                       timestamp: string): (c: Controlled)
    ensures !HasTimers(m) ==> c == Controlled(m, None, NotWalkingMode)
    ensures HasTimers(m) ==>
      && c.next.WalkingMode? && u !in c.next.s.timers
      && AlertOfType(c.alert, "emergency_confirmed_critical") && MarksCritical(c.alert)
      && c.answer == Confirmed(Get(request, "help_type", JStr("general_help")))
  {
    match m
    case BasicMode(_) => Controlled(m, None, NotWalkingMode)
    case WalkingMode(s) =>
      var secs := if u in s.timers then IntSeconds(now - s.timers[u]) else 1;
      var helpType := Get(request, "help_type", JStr("general_help"));
      var b := W.DisarmAndBroadcast(s, u, ConfirmedAlert(u, secs, helpType, timestamp), timestamp);
      assert "type" != "data" by { assert "type"[0] != "data"[0]; }
      Controlled(WalkingMode(b.next), Some(b.alert), Confirmed(helpType))
  }

  /**
   * As written, a confirmed emergency is declared a second time: once the
   * fall is 15 s old, the next sweep as written still finds the timer and
   * broadcasts `emergency_declared` for a user already confirmed CRITICAL,
   * unless an unrelated entry cuts that pass short, which leaves the timer
   * armed for the retry.  After the corrected confirmation the sweep never
   * declares that user.
   */
  lemma ConfirmedEmergencyDeclaredAgain(s: W.Server, u: string, request: map<string, Json>, now: Stamp,
                                        later: Stamp, timestamp: string, order: seq<string>, order2: seq<string>)
    requires u in s.timers && u in W.Reachable(s.conns)
    requires later - s.timers[u] >= W.EmergencyAfterMs
    requires W.Enumerates(order, ConfirmHelpAsWritten(WalkingMode(s), u, request, now, timestamp).next.s.timers)
    requires W.Enumerates(order2, ConfirmHelp(WalkingMode(s), u, request, now, timestamp).next.s.timers)
    ensures var after := ConfirmHelpAsWritten(WalkingMode(s), u, request, now, timestamp).next.s;
      var w := W.SweepAsWritten(after, after.timers, order, 0, later, timestamp, []);
      u in w.declared || (w.aborted && u in w.next.timers)
    ensures var fixed := ConfirmHelp(WalkingMode(s), u, request, now, timestamp).next.s;
      u !in W.Sweep(fixed, fixed.timers, order2, 0, later, timestamp, []).declared
  {
    var after := ConfirmHelpAsWritten(WalkingMode(s), u, request, now, timestamp).next.s;
    assert u in W.Reachable(after.conns);
    assert u in order[0..];
    W.SweepAsWrittenReachesExpired(after, after.timers, order, 0, later, timestamp, [], u);
    var fixed := ConfirmHelp(WalkingMode(s), u, request, now, timestamp).next.s;
    W.SweepEscalatesExpired(fixed, order2, later, timestamp);
  }

  // ---------------------------------------------------------------------
  // Emergency views
  // ---------------------------------------------------------------------

  datatype Level = Critical | Monitoring

  /** `"CRITICAL" if duration >= 15 else "MONITORING"`, with the duration in milliseconds. */
  function LevelOf(durationMs: int): (l: Level)
    ensures l == Critical <==> durationMs >= W.EmergencyAfterMs
  {
    if durationMs >= W.EmergencyAfterMs then Critical else Monitoring
  }

  /** One row of the emergency monitor. */
  datatype Row = Row(durationMs: int, level: Level)

  /** `get_emergency_monitor`: a row per armed timer, or nothing outside walking mode. */
  function MonitorView(m: Manager, now: Stamp): (rows: map<string, Row>)
    ensures !HasTimers(m) ==> rows == map[]
    ensures HasTimers(m) ==> rows.Keys == m.s.timers.Keys
    ensures HasTimers(m) ==> forall k :: k in rows ==>
      rows[k].durationMs == now - m.s.timers[k] && (rows[k].level == Critical <==> now - m.s.timers[k] >= W.EmergencyAfterMs)
  {
    match m
    case BasicMode(_) => map[]
    case WalkingMode(s) => map k | k in s.timers :: Row(now - s.timers[k], LevelOf(now - s.timers[k]))
  }

  /** The answer of `get_current_emergency_status`. */
  datatype Current = NoTimersHere | NoEmergency | Active(durationMs: int, level: Level, untilCriticalMs: int)

  /** `get_current_emergency_status` at clock reading `now`. */
  function CurrentEmergency(m: Manager, u: string, now: Stamp): (c: Current)
    ensures c.NoTimersHere? <==> !HasTimers(m)
    ensures c.Active? <==> HasTimers(m) && u in m.s.timers
    ensures c.Active? ==> c.durationMs == now - m.s.timers[u] && c.level == LevelOf(c.durationMs)
    // The countdown never goes negative and reaches zero exactly when the emergency is critical.
    ensures c.Active? ==> c.untilCriticalMs >= 0 && (c.untilCriticalMs == 0 <==> c.level == Critical)
    ensures c.Active? && c.level == Monitoring ==> c.durationMs + c.untilCriticalMs == W.EmergencyAfterMs
  {
    match m
    case BasicMode(_) => NoTimersHere
    case WalkingMode(s) =>
      if u !in s.timers then NoEmergency
      else
        var d := now - s.timers[u];
        Active(d, LevelOf(d), if W.EmergencyAfterMs - d > 0 then W.EmergencyAfterMs - d else 0)
  }

  // ---------------------------------------------------------------------
  // Screening tiers
  // ---------------------------------------------------------------------

  datatype CognitiveRisk = Normal | Mild | Moderate | Severe

  /** Severity order of the cognitive tiers. */
  function CognitiveRank(r: CognitiveRisk): nat {
    match r
    case Normal => 0
    case Mild => 1
    case Moderate => 2
    case Severe => 3
  }

  /** The cognitive test's tier for an overall score. */
  function CognitiveTier(score: int): (r: CognitiveRisk)
    ensures r == Normal <==> score >= 85
    ensures r == Mild <==> 70 <= score < 85
    ensures r == Moderate <==> 55 <= score < 70
    ensures r == Severe <==> score < 55
  {
    if score >= 85 then Normal else if score >= 70 then Mild else if score >= 55 then Moderate else Severe
  }

  /** A higher cognitive score never gives a more severe tier. */
  lemma CognitiveTierMonotone(a: int, b: int)
    requires a <= b
    ensures CognitiveRank(CognitiveTier(b)) <= CognitiveRank(CognitiveTier(a))
  {
  }

  datatype FallRisk = Low | Medium | High

  function FallRiskRank(r: FallRisk): nat {
    match r
    case Low => 0
    case Medium => 1
    case High => 2
  }

  /** The fall-risk test's tier for an overall risk score (higher is riskier). */
  function FallRiskTier(score: int): (r: FallRisk)
    ensures r == Low <==> score <= 30
    ensures r == Medium <==> 30 < score <= 60
    ensures r == High <==> score > 60
  {
    if score <= 30 then Low else if score <= 60 then Medium else High
  }

  /** A higher risk score never gives a lower tier. */
  lemma FallRiskTierMonotone(a: int, b: int)
    requires a <= b
    ensures FallRiskRank(FallRiskTier(a)) <= FallRiskRank(FallRiskTier(b))
  {
  }
}
