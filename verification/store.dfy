/**
 * The store wrappers around the database client: the common
 * mock-or-fallback executor, the normalisation of analysis records, how a
 * walking session's id is read from the insert result, the batch insert
 * of telemetry, and the health tiers of an ROC analysis.  The database is
 * abstract: each call is given the mode and what the operation would do.
 */
module Store {
  import opened Basics

  /** `is_mock`. */
  datatype Mode = Mock | Live

  /** What running the operation does: a response object with `.data`, a plain value, or an exception. */
  datatype Outcome =
    | Response(data: Json, count: Json)
    | Plain(value: Json)
    | Failure(error: string)

  /**
   * What `_execute_with_fallback` gives back: the result dictionary (its
   * `status` is always `success`), or the operation's exception, re-raised.
   */
  datatype Executed =
    | Result(data: Json, mock: bool, error: Option<string>, count: Option<Json>)
    | Reraised(raised: string)

  /** `_execute_with_fallback`; `fallback` is `JNull` for Python's `None`. */
  function Execute(mode: Mode, run: Outcome, fallback: Json): (r: Executed)
    // A mock store answers with the fallback and never looks at the operation.
    ensures mode == Mock ==> r == Result(fallback, true, None, None)
    ensures mode == Live && run.Response? ==> r == Result(run.data, false, None, Some(run.count))
    ensures mode == Live && run.Plain? ==> r == Result(run.value, false, None, None)
    // A failure is covered exactly when there is fallback data, and then it is reported as mock.
    ensures mode == Live && run.Failure? ==>
      (r.Reraised? <==> fallback == JNull)
      && (r.Reraised? ==> r.raised == run.error)
      && (r.Result? ==> r == Result(fallback, true, Some(run.error), None))
  {
    if mode == Mock then Result(fallback, true, None, None)
    else
      match run
      case Response(data, count) => Result(data, false, None, Some(count))
      case Plain(value) => Result(value, false, None, None)
      case Failure(e) => if fallback != JNull then Result(fallback, true, Some(e), None) else Reraised(e)
  }

  /** The mock flag of a result tells exactly whether the operation's own answer was lost or never asked for. */
  lemma MockFlagMeansNoRealData(mode: Mode, run: Outcome, fallback: Json)
    ensures var r := Execute(mode, run, fallback);
      r.Result? ==> (r.mock <==> mode == Mock || run.Failure?)
    ensures var r := Execute(mode, run, fallback);
      r.Result? && !r.mock ==> r.data == (if run.Response? then run.data else run.value)
  {
  }

  /** In mock mode the outcome of the operation makes no difference: it is never run. */
  lemma MockNeverRuns(run1: Outcome, run2: Outcome, fallback: Json)
    ensures Execute(Mock, run1, fallback) == Execute(Mock, run2, fallback)
    ensures Execute(Mock, run1, fallback).Result?
  {
  }

  // ---------------------------------------------------------------------
  // Analysis records
  // ---------------------------------------------------------------------

  /** The normalisation `save_analysis_result` applies before inserting. */
  function NormalizeAnalysis(data: map<string, Json>): (r: map<string, Json>)
    // `timestamp` moves to `analysis_timestamp` only when that key is free.
    ensures "timestamp" in data && "analysis_timestamp" !in data ==>
      "timestamp" !in r && "analysis_timestamp" in r && r["analysis_timestamp"] == data["timestamp"]
    ensures "analysis_timestamp" in data ==>
      "analysis_timestamp" in r && r["analysis_timestamp"] == data["analysis_timestamp"]
      && ("timestamp" in r <==> "timestamp" in data)
    // The two defaults never overwrite a value the caller gave.
    ensures "analysis_type" in r && r["analysis_type"] == Get(data, "analysis_type", JStr("gait_pattern"))
    ensures "ai_model_version" in r && r["ai_model_version"] == Get(data, "ai_model_version", JStr("v1.0"))
    // Every other field is kept as it was, and nothing is invented.
    ensures forall k :: k in data && k != "timestamp" ==> k in r && r[k] == data[k]
    ensures forall k :: k in r ==>
      k in data || k == "analysis_timestamp" || k == "analysis_type" || k == "ai_model_version"
  {
    var moved := if "timestamp" in data && "analysis_timestamp" !in data
                 then (data - {"timestamp"})["analysis_timestamp" := data["timestamp"]]
                 else data;
    SetDefault(SetDefault(moved, "analysis_type", JStr("gait_pattern")), "ai_model_version", JStr("v1.0"))
  }

  /** Normalising a normalised record changes nothing. */
  lemma NormalizeAnalysisIdempotent(data: map<string, Json>)
    ensures NormalizeAnalysis(NormalizeAnalysis(data)) == NormalizeAnalysis(data)
  {
  }

  /** `save_analysis_result`: normalise, then insert with the record as fallback. */
  function SaveAnalysisResult(mode: Mode, run: Outcome, data: map<string, Json>): (r: Executed)
    ensures r.Result?
    ensures r.mock ==> r.data == JObj(NormalizeAnalysis(data))
  {
    Execute(mode, run, JObj(NormalizeAnalysis(data)))
  }

  /** The health tiers of `_assess_health_from_roc`, best first. */
  datatype Health = Good | Fair | Caution | Danger

  function HealthRank(h: Health): nat {
    match h
    case Good => 0
    case Fair => 1
    case Caution => 2
    case Danger => 3
  }

  /** The Korean word the record stores for a tier. */
  function HealthWord(h: Health): string {
    match h
    case Good => "좋음"
    case Fair => "보통"
    case Caution => "주의"
    case Danger => "위험"
  }

  /** The tier for an ROC confidence. */
  function HealthOfConfidence(c: real): (h: Health)
    ensures h == Good <==> c >= 0.8
    ensures h == Fair <==> 0.6 <= c < 0.8
    ensures h == Caution <==> 0.4 <= c < 0.6
    ensures h == Danger <==> c < 0.4
  {
    if c >= 0.8 then Good else if c >= 0.6 then Fair else if c >= 0.4 then Caution else Danger
  }

  /** Higher confidence never gives a worse tier. */
  lemma HealthMonotone(a: real, b: real)
    requires a <= b
    ensures HealthRank(HealthOfConfidence(b)) <= HealthRank(HealthOfConfidence(a))
  {
  }

  /**
   * `_assess_health_from_roc`: the `confidence` entry, 0.0 when absent.  A
   * boolean compares as 0 or 1; any other non-number raises on comparison.
   */
  function AssessHealthFromRoc(roc: map<string, Json>): (h: Option<Health>)
    ensures "confidence" !in roc ==> h == Some(Danger)
    ensures "confidence" in roc && roc["confidence"].JNum? ==> h == Some(HealthOfConfidence(roc["confidence"].n))
    ensures h.None? <==> "confidence" in roc && !roc["confidence"].JNum? && !roc["confidence"].JBool?
  {
    match Get(roc, "confidence", JNum(0.0))
    case JNum(c) => Some(HealthOfConfidence(c))
    case JBool(b) => Some(HealthOfConfidence(if b then 1.0 else 0.0))
    case _ => None
  }

  /**
   * The record `save_roc_analysis` builds before handing it to
   * `save_analysis_result`; the formatted description and the
   * characteristics list are given.
   */
  function RocRecord(u: string, roc: map<string, Json>, timestamp: string, health: Health,
                     description: Json, characteristics: Json): (r: map<string, Json>)
    ensures r.Keys == {"user_id", "analysis_timestamp", "gait_pattern", "similarity_score", "confidence_level",
                       "health_assessment", "analysis_type", "pattern_description", "characteristics",
                       "ai_model_version"}
    ensures r["analysis_type"] == JStr("roc_walking") && r["health_assessment"] == JStr(HealthWord(health))
    ensures r["similarity_score"] == Get(roc, "confidence", JNum(0.0))
    ensures "timestamp" !in r
  {
    map["user_id" := JStr(u),
        "analysis_timestamp" := JStr(timestamp),
        "gait_pattern" := JStr(if Truthy(Get(roc, "walking", JBool(false))) then "정상보행" else "일상"),
        "similarity_score" := Get(roc, "confidence", JNum(0.0)),
        "confidence_level" := Get(roc, "confidence", JNum(0.0)),
        "health_assessment" := JStr(HealthWord(health)),
        "analysis_type" := JStr("roc_walking"),
        "pattern_description" := description,
        "characteristics" := characteristics,
        "ai_model_version" := JStr("ROC_v1.0")]
  }

  /** `save_roc_analysis` keeps its own analysis type and model version through the normalisation. */
  lemma RocRecordSurvivesNormalization(u: string, roc: map<string, Json>, timestamp: string, health: Health,
                                      description: Json, characteristics: Json)
    ensures NormalizeAnalysis(RocRecord(u, roc, timestamp, health, description, characteristics))
         == RocRecord(u, roc, timestamp, health, description, characteristics)
  {
  }

  /** A value that compares with `0` and formats with `:.3f`: a number, or a boolean as 0 or 1. */
  predicate IsNumeric(j: Json) {
    j.JNum? || j.JBool?
  }

  /**
   * `_extract_roc_characteristics` raises: a present `step_frequency` is
   * compared with 0, and a present `acc_mean` or `regularity` is formatted
   * as a float, so any of them that is not a number raises.
   */
  predicate CharacteristicsRaise(roc: map<string, Json>) {
    || ("step_frequency" in roc && !IsNumeric(roc["step_frequency"]))
    || ("acc_mean" in roc && !IsNumeric(roc["acc_mean"]))
    || ("regularity" in roc && !IsNumeric(roc["regularity"]))
  }

  /**
   * `save_roc_analysis`: `None` when assessing the health or extracting the
   * characteristics raises.  The stored record keeps the ROC analysis type
   * and the assessed tier.
   */
  function SaveRocAnalysis(mode: Mode, run: Outcome, u: string, roc: map<string, Json>, timestamp: string,
                           description: Json, characteristics: Json): (r: Option<Executed>)
    ensures r.None? <==> AssessHealthFromRoc(roc).None? || CharacteristicsRaise(roc)
    ensures r.Some? ==> r.value.Result?
    ensures r.Some? && r.value.mock ==>
      var rec := r.value.data;
      && rec.JObj? && "timestamp" !in rec.fields
      && "analysis_type" in rec.fields && "health_assessment" in rec.fields && "similarity_score" in rec.fields
      && rec.fields["analysis_type"] == JStr("roc_walking")
      && rec.fields["health_assessment"] == JStr(HealthWord(AssessHealthFromRoc(roc).value))
      && rec.fields["similarity_score"] == Get(roc, "confidence", JNum(0.0))
  {
    match AssessHealthFromRoc(roc)
    case None => None
    case Some(h) =>
      if CharacteristicsRaise(roc) then None
      else
      var rec := RocRecord(u, roc, timestamp, h, description, characteristics);
      RocRecordSurvivesNormalization(u, roc, timestamp, h, description, characteristics);
      var saved := SaveAnalysisResult(mode, run, rec);
      assert saved.mock ==> saved.data == JObj(rec);
      Some(saved)
  }

  /** A confident reading with a non-numeric mean is not saved; the same reading without the mean is. */
  lemma NonNumericMeanFailsSave(mode: Mode, run: Outcome, u: string, timestamp: string,
                                description: Json, characteristics: Json)
    ensures SaveRocAnalysis(mode, run, u, map["confidence" := JNum(0.9), "acc_mean" := JStr("x")], timestamp,
                            description, characteristics).None?
    ensures SaveRocAnalysis(mode, run, u, map["confidence" := JNum(0.9)], timestamp,
                            description, characteristics).Some?
  {
    var bad := map["confidence" := JNum(0.9), "acc_mean" := JStr("x")];
    var good := map["confidence" := JNum(0.9)];
    assert "acc_mean" != "confidence" by { assert "acc_mean"[0] != "confidence"[0]; }
    assert CharacteristicsRaise(bad) by { assert "acc_mean" in bad && bad["acc_mean"] == JStr("x"); }
    assert AssessHealthFromRoc(good).Some? && !CharacteristicsRaise(good) by {
      assert good.Keys == {"confidence"} && good["confidence"] == JNum(0.9);
    }
  }

  // ---------------------------------------------------------------------
  // Walking sessions
  // ---------------------------------------------------------------------

  /** What `save_walking_session` returns: an id, the provider's fresh mock id, or an exception. */
  datatype SessionIdResult = IdOf(id: Json) | FreshMockId | SessionRaised

  /**
   * The id extraction of `save_walking_session`: the head of a non-empty
   * list, else a dictionary's `id`; any other answer gives a fresh mock
   * id.  Indexing a head or dictionary that has no `id` raises.
   */
  function SessionIdOf(r: Executed): (s: SessionIdResult)
    ensures r.Reraised? ==> s == SessionRaised
    ensures r.Result? && r.data.JArr? && |r.data.items| > 0 ==>
      (s.IdOf? <==> r.data.items[0].JObj? && "id" in r.data.items[0].fields)
      && (s.IdOf? ==> s.id == r.data.items[0].fields["id"])
      && (!s.IdOf? ==> s == SessionRaised)
    ensures r.Result? && r.data.JObj? && |r.data.fields| > 0 ==>
      (s.IdOf? <==> "id" in r.data.fields) && (s.IdOf? ==> s.id == r.data.fields["id"])
      && (!s.IdOf? ==> s == SessionRaised)
    // A falsy answer, or one that is neither a list nor a dictionary, yields a fresh mock id.
    ensures r.Result? && (!Truthy(r.data) || !(r.data.JArr? || r.data.JObj?)) ==> s == FreshMockId
  {
    match r
    case Reraised(_) => SessionRaised
    case Result(data, _, _, _) =>
      if !Truthy(data) then FreshMockId
      else if data.JArr? then
        var head := data.items[0];
        if head.JObj? && "id" in head.fields then IdOf(head.fields["id"]) else SessionRaised
      else if data.JObj? then
        if "id" in data.fields then IdOf(data.fields["id"]) else SessionRaised
      else FreshMockId
  }

  /**
   * `save_walking_session`: default the quality, insert, and read the id
   * back.  The fallback record is `{"id": mockId, **session}`, so a session
   * that brings its own `id` keeps it.
   */
  function SaveWalkingSession(mode: Mode, run: Outcome, session: map<string, Json>, mockId: Json): (s: SessionIdResult)
    // The fallback record is always there, so a store failure is covered, never re-raised.
    ensures mode == Mock || run.Failure? ==> s == IdOf(Get(session, "id", mockId))
    // A live answer is read for an id as it came back.
    ensures mode == Live && run.Response? ==> s == SessionIdOf(Result(run.data, false, None, Some(run.count)))
    ensures mode == Live && run.Plain? ==> s == SessionIdOf(Result(run.value, false, None, None))
  {
    SessionIdOf(Execute(mode, run, JObj(SessionFallback(session, mockId))))
  }

  /**
   * The fallback record of `save_walking_session`: the session with its
   * quality defaulted, plus the mock id, and the session's own id wins.
   */
  function SessionFallback(session: map<string, Json>, mockId: Json): (f: map<string, Json>)
    ensures f.Keys == session.Keys + {"id", "session_quality"}
    ensures f["id"] == Get(session, "id", mockId)
    ensures f["session_quality"] == Get(session, "session_quality", JStr("unknown"))
    ensures forall k :: k in session ==> f[k] == session[k]
  {
    var withQuality := SetDefault(session, "session_quality", JStr("unknown"));
    assert "session_quality" != "id";
    map k | k in withQuality.Keys + {"id"} :: if k in withQuality then withQuality[k] else mockId
  }

  /** In mock mode a session always gets an id: its own if it had one, else the mock id. */
  lemma MockSessionId(run: Outcome, session: map<string, Json>, mockId: Json)
    ensures SaveWalkingSession(Mock, run, session, mockId) == IdOf(Get(session, "id", mockId))
  {
    var fallback := SessionFallback(session, mockId);
    assert "id" in fallback;
  }

  /** A live insert that answers with one row gives that row's id; a failed insert still yields an id. */
  lemma LiveSessionId(session: map<string, Json>, mockId: Json, row: map<string, Json>, count: Json, e: string)
    requires "id" in row
    ensures SaveWalkingSession(Live, Response(JArr([JObj(row)]), count), session, mockId) == IdOf(row["id"])
    ensures SaveWalkingSession(Live, Failure(e), session, mockId) == IdOf(Get(session, "id", mockId))
  {
    InsertedRowId(session, mockId, row, count);
    FailedInsertId(session, mockId, e);
  }

  /** A live insert answering with one row gives that row's id. */
  lemma InsertedRowId(session: map<string, Json>, mockId: Json, row: map<string, Json>, count: Json)
    requires "id" in row
    ensures SaveWalkingSession(Live, Response(JArr([JObj(row)]), count), session, mockId) == IdOf(row["id"])
  {
    assert [JObj(row)][0] == JObj(row);
  }

  /** A failed live insert falls back to the session's own id or the mock id. */
  lemma FailedInsertId(session: map<string, Json>, mockId: Json, e: string)
    ensures SaveWalkingSession(Live, Failure(e), session, mockId) == IdOf(Get(session, "id", mockId))
  {
    var fallback := SessionFallback(session, mockId);
    assert "id" in fallback && |fallback| > 0;
  }

  // ---------------------------------------------------------------------
  // Telemetry batches
  // ---------------------------------------------------------------------

  /** `save_imu_batch`: an empty batch is answered at once; otherwise one insert with the batch as fallback. */
  function SaveImuBatch(mode: Mode, run: Outcome, batch: seq<Json>): (r: Executed)
    ensures batch == [] ==> r == Result(JArr([]), mode == Mock, None, None)
    ensures batch != [] ==> r == Execute(mode, run, JArr(batch))
    // With the batch as fallback, a non-empty batch is never lost to an exception.
    ensures r.Result?
  {
    if batch == [] then Result(JArr([]), mode == Mock, None, None)
    else Execute(mode, run, JArr(batch))
  }

  /** An empty batch never reaches the store: the outcome of an insert makes no difference. */
  lemma EmptyBatchNeverRuns(mode: Mode, run1: Outcome, run2: Outcome)
    ensures SaveImuBatch(mode, run1, []) == SaveImuBatch(mode, run2, [])
    ensures SaveImuBatch(mode, run1, []).data == JArr([])
  {
  }
}
