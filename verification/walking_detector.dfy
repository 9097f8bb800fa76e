/**
 * The device's walking detector (`ImprovedWalkingDetector`): a 300-sample
 * window of acceleration magnitudes, peak counting, a three-factor
 * confidence score in tenths, and a debounced hysteresis over that score.
 *
 * The magnitude of a sample and the mean and standard deviation of the
 * window are floating-point numerics; they enter the model as real-valued
 * inputs.  Everything downstream of them is modelled exactly.
 */
module WalkingDetector {
  import opened Basics

  const BufferSize: nat := 300
  /** Peaks are searched in `range(20, len - 20)`. */
  const EdgeMargin: nat := 20
  /** A peak dominates the 21 samples centred on it. */
  const HalfWidth: nat := 10
  const MinPeakDistance: nat := 15
  const StdMin: real := 0.2
  const StdMax: real := 2.0
  const FreqMin: real := 1.2
  const FreqMax: real := 3.5
  /** Confidence is kept in tenths: the factors 0.4, 0.4, 0.2 are 4, 4, 2. */
  const StdWeight: nat := 4
  const FreqWeight: nat := 4
  const RegularityWeight: nat := 2
  const ConfidenceThreshold: nat := 7
  const DebounceMs: int := 1500
  const MinDurationMs: int := 2000
  const StartCount: nat := 3
  const StopCount: nat := 5

  // ---------------------------------------------------------------------
  // Peak detection
  // ---------------------------------------------------------------------

  /** Sample `i` exceeds the threshold and is the maximum of `a[i-10..i+10]`. */
  predicate IsPeakCandidate(a: seq<real>, thr: real, i: int) {
    && EdgeMargin <= i < |a| - EdgeMargin
    && a[i] > thr
    && forall j :: i - HalfWidth <= j <= i + HalfWidth ==> a[j] <= a[i]
  }

  /** The scan loop from index `i` on, with the peaks accepted so far in `acc`. */
  function ScanPeaks(a: seq<real>, thr: real, i: nat, acc: seq<nat>): seq<nat>
    decreases |a| - i
  {
    if i + EdgeMargin >= |a| then acc else ScanPeaks(a, thr, i + 1, ScanStep(a, thr, i, acc))
  }

  /** Index `i` is taken when it is a candidate at least 15 samples past the last peak taken. */
  function ScanStep(a: seq<real>, thr: real, i: nat, acc: seq<nat>): seq<nat> {
    if IsPeakCandidate(a, thr, i) && (|acc| == 0 || i - acc[|acc| - 1] >= MinPeakDistance) then acc + [i]
    else acc
  }

  /** The peak indices found in the window for threshold `thr`. */
  function FindPeaks(a: seq<real>, thr: real): seq<nat> {
    ScanPeaks(a, thr, EdgeMargin, [])
  }

  /** Candidate `c` lies within `MinPeakDistance` after some accepted peak. */
  predicate Suppressed(p: seq<nat>, c: int) {
    exists k :: 0 <= k < |p| && p[k] < c < p[k] + MinPeakDistance
  }

  /** Every listed index is a candidate, and consecutive peaks are far enough apart. */
  predicate SoundPeaks(a: seq<real>, thr: real, p: seq<nat>) {
    && (forall k :: 0 <= k < |p| ==> IsPeakCandidate(a, thr, p[k]))
    && (forall k :: 0 < k < |p| ==> p[k] - p[k - 1] >= MinPeakDistance)
  }

  /** Every candidate below `bound` was either accepted or suppressed by an accepted peak. */
  ghost predicate CompleteBelow(a: seq<real>, thr: real, p: seq<nat>, bound: int) {
    forall c :: IsPeakCandidate(a, thr, c) && c < bound ==> c in p || Suppressed(p, c)
  }

  /** The scan keeps every accepted index a candidate, with accepted peaks far enough apart. */
  lemma {:induction false} ScanPeaksSound(a: seq<real>, thr: real, i: nat, acc: seq<nat>)
    requires SoundPeaks(a, thr, acc)
    requires forall k :: 0 <= k < |acc| ==> acc[k] < i
    ensures SoundPeaks(a, thr, ScanPeaks(a, thr, i, acc))
    decreases |a| - i
  {
    if i + EdgeMargin < |a| {
      ScanStepSound(a, thr, i, acc);
      ScanPeaksSound(a, thr, i + 1, ScanStep(a, thr, i, acc));
    }
  }

  /** The scan accounts for every candidate: each is accepted or suppressed by an accepted peak. */
  lemma {:induction false} ScanPeaksComplete(a: seq<real>, thr: real, i: nat, acc: seq<nat>)
    requires forall k :: 0 <= k < |acc| ==> acc[k] < i
    requires CompleteBelow(a, thr, acc, i)
    ensures CompleteBelow(a, thr, ScanPeaks(a, thr, i, acc), |a|)
    decreases |a| - i
  {
    if i + EdgeMargin >= |a| {
      CompleteAtEnd(a, thr, i, acc);
    } else {
      ScanStepBelow(a, thr, i, acc);
      ScanStepComplete(a, thr, i, acc);
      ScanPeaksComplete(a, thr, i + 1, ScanStep(a, thr, i, acc));
    }
  }

  /** One scan step only ever appends the index it examines. */
  lemma ScanStepBelow(a: seq<real>, thr: real, i: nat, acc: seq<nat>)
    requires forall k :: 0 <= k < |acc| ==> acc[k] < i
    ensures var next := ScanStep(a, thr, i, acc);
      forall k :: 0 <= k < |next| ==> next[k] < i + 1
  {
  }

  /** Past the last index the scan examines, no further candidate exists. */
  lemma CompleteAtEnd(a: seq<real>, thr: real, i: nat, acc: seq<nat>)
    requires i + EdgeMargin >= |a|
    requires CompleteBelow(a, thr, acc, i)
    ensures CompleteBelow(a, thr, acc, |a|)
  {
    forall c | IsPeakCandidate(a, thr, c) && c < |a|
      ensures c in acc || Suppressed(acc, c)
    {
      assert c < i;
    }
  }

  /** One scan step keeps the accepted list sound and below the next index. */
  lemma ScanStepSound(a: seq<real>, thr: real, i: nat, acc: seq<nat>)
    requires SoundPeaks(a, thr, acc)
    requires forall k :: 0 <= k < |acc| ==> acc[k] < i
    ensures var next := ScanStep(a, thr, i, acc);
      SoundPeaks(a, thr, next) && forall k :: 0 <= k < |next| ==> next[k] < i + 1
  {
    var next := ScanStep(a, thr, i, acc);
    if next != acc {
      assert next == acc + [i];
      assert IsPeakCandidate(a, thr, i);
      forall k | 0 <= k < |next|
        ensures IsPeakCandidate(a, thr, next[k]) && next[k] < i + 1
      {
        if k < |acc| {
          assert next[k] == acc[k];
        } else {
          assert next[k] == i;
        }
      }
      forall k | 0 < k < |next|
        ensures next[k] - next[k - 1] >= MinPeakDistance
      {
        if k < |acc| {
          assert next[k] == acc[k] && next[k - 1] == acc[k - 1];
        } else {
          assert next[k] == i && next[k - 1] == acc[|acc| - 1];
        }
      }
    }
  }

  /** One scan step accounts for index `i` as accepted or suppressed. */
  lemma ScanStepComplete(a: seq<real>, thr: real, i: nat, acc: seq<nat>)
    requires forall k :: 0 <= k < |acc| ==> acc[k] < i
    requires CompleteBelow(a, thr, acc, i)
    ensures CompleteBelow(a, thr, ScanStep(a, thr, i, acc), i + 1)
  {
    var next := ScanStep(a, thr, i, acc);
    var accept := next != acc;
    forall c | IsPeakCandidate(a, thr, c) && c < i + 1
      ensures c in next || Suppressed(next, c)
    {
      if c < i {
        if c in acc {
          assert c in next;
        } else {
          var k :| 0 <= k < |acc| && acc[k] < c < acc[k] + MinPeakDistance;
          assert next[k] == acc[k];
        }
      } else if accept {
        assert next[|acc|] == c;
      } else {
        assert acc[|acc| - 1] < c < acc[|acc| - 1] + MinPeakDistance;
        assert next[|acc| - 1] == acc[|acc| - 1];
      }
    }
  }

  /**
   * The peaks found are exactly the greedy selection: each is a candidate,
   * consecutive peaks are at least 15 samples apart, and every candidate that
   * was not selected lies less than 15 samples after a selected peak.
   */
  lemma PeaksAreGreedySelection(a: seq<real>, thr: real)
    ensures SoundPeaks(a, thr, FindPeaks(a, thr))
    ensures forall c :: IsPeakCandidate(a, thr, c) ==>
      c in FindPeaks(a, thr) || Suppressed(FindPeaks(a, thr), c)
  {
    ScanPeaksSound(a, thr, EdgeMargin, []);
    ScanPeaksComplete(a, thr, EdgeMargin, []);
  }

  // ---------------------------------------------------------------------
  // Confidence
  // ---------------------------------------------------------------------

  /** `len(peaks) / 3.0` over a three-second window, or 0 with fewer than two peaks. */
  function StepFrequency(peakCount: nat): real {
    if peakCount > 1 then peakCount as real / 3.0 else 0.0
  }

  predicate StdInRange(std: real) {
    StdMin <= std <= StdMax
  }

  predicate FrequencyInRange(peakCount: nat) {
    FreqMin <= StepFrequency(peakCount) <= FreqMax
  }

  /** The cadence check accepts exactly 4 to 10 peaks in the window. */
  lemma FrequencyInRangeIff(peakCount: nat)
    ensures FrequencyInRange(peakCount) <==> 4 <= peakCount <= 10
  {
    if peakCount > 1 {
      var f := peakCount as real / 3.0;
      assert f * 3.0 == peakCount as real;
    }
  }

  function Intervals(p: seq<nat>): (d: seq<int>)
    ensures |p| > 0 ==> |d| == |p| - 1
    ensures |p| == 0 ==> |d| == 0
    ensures forall k :: 0 <= k < |d| ==> d[k] == p[k + 1] as int - p[k] as int
  {
    if |p| < 2 then [] else [p[1] as int - p[0] as int] + Intervals(p[1..])
  }

  function Sum(d: seq<int>): int {
    if |d| == 0 then 0 else d[0] + Sum(d[1..])
  }

  function SumSquares(d: seq<int>): int {
    if |d| == 0 then 0 else d[0] * d[0] + SumSquares(d[1..])
  }

  /**
   * `len(peaks) >= 3 and np.std(np.diff(peaks)) < 10`.  With m intervals the
   * population variance is SumSquares/m - (Sum/m)^2, so std < 10 is
   * m * SumSquares - Sum^2 < 100 * m^2, which is decided exactly here.
   */
  predicate RegularPeaks(p: seq<nat>) {
    |p| >= 3 &&
    var d := Intervals(p);
    var m := |d|;
    m * SumSquares(d) - Sum(d) * Sum(d) < 100 * m * m
  }

  /** The weighted sum of the satisfied checks, in tenths. */
  function ConfidenceTenths(std: real, peakCount: nat, regular: bool): (c: nat)
    ensures c <= 10 && c % 2 == 0
    ensures c >= ConfidenceThreshold <==> StdInRange(std) && FrequencyInRange(peakCount)
    ensures !StdInRange(std) && !FrequencyInRange(peakCount) && !regular ==> c == 0
    ensures StdInRange(std) && FrequencyInRange(peakCount) && regular ==> c == 10
  {
    (if StdInRange(std) then StdWeight else 0)
    + (if FrequencyInRange(peakCount) then FreqWeight else 0)
    + (if regular then RegularityWeight else 0)
  }

  // ---------------------------------------------------------------------
  // Detector state and step
  // ---------------------------------------------------------------------

  /** The numpy statistics of the full window: its mean and standard deviation. */
  datatype WindowStats = WindowStats(mean: real, std: real)

  datatype Detector = Detector(
    window: seq<real>,
    isWalking: bool,
    confidence: nat,
    walkingStart: Option<Stamp>,
    lastStateChange: int,
    walkCount: nat,
    idleCount: nat)
  {
    ghost predicate Valid() {
      |window| <= BufferSize && (walkCount == 0 || idleCount == 0) && confidence <= 10
    }
  }

  /** The detector as constructed: empty window, not walking, no state change yet (time 0). */
  const Initial: Detector := Detector([], false, 0, None, 0, 0, 0)

  /**
   * The decision half of `_analyze_with_stability`, after the score has been
   * stored in `d.confidence`: debounce, count the cycle, flip on or off.
   */
  function Decide(d: Detector, now: Stamp): (r: Detector)
    requires d.Valid()
    ensures r.Valid()
    ensures r.window == d.window && r.confidence == d.confidence
    // Inside the debounce interval nothing but the score moves.
    ensures now - d.lastStateChange < DebounceMs ==> r == d
    // Outside it, the two counters record consecutive positive or negative cycles.
    ensures now - d.lastStateChange >= DebounceMs ==>
      if d.confidence >= ConfidenceThreshold then r.walkCount == d.walkCount + 1 && r.idleCount == 0
      else r.idleCount == d.idleCount + 1 && r.walkCount == 0
    // Walking starts on the third consecutive positive cycle, never earlier.
    ensures !d.isWalking && now - d.lastStateChange >= DebounceMs ==>
      (r.isWalking <==> r.walkCount >= StartCount)
    ensures !d.isWalking && r.isWalking ==>
      r.walkingStart == Some(now) && r.lastStateChange == now && now - d.lastStateChange >= DebounceMs
    // Walking stops on the fifth consecutive negative cycle once it has lasted two seconds.
    ensures d.isWalking && now - d.lastStateChange >= DebounceMs ==>
      (!r.isWalking <==> r.idleCount >= StopCount && d.walkingStart.Some?
                         && now - d.walkingStart.value >= MinDurationMs)
    ensures d.isWalking && !r.isWalking ==> r.lastStateChange == now && now - d.lastStateChange >= DebounceMs
    ensures d.isWalking == r.isWalking ==> r.lastStateChange == d.lastStateChange && r.walkingStart == d.walkingStart
  {
    if now - d.lastStateChange < DebounceMs then d
    else
      var positive := d.confidence >= ConfidenceThreshold;
      var counted := d.(walkCount := if positive then d.walkCount + 1 else 0,
                        idleCount := if positive then 0 else d.idleCount + 1);
      if !d.isWalking && counted.walkCount >= StartCount then
        counted.(isWalking := true, walkingStart := Some(now), lastStateChange := now)
      else if d.isWalking && counted.idleCount >= StopCount && d.walkingStart.Some?
              && now - d.walkingStart.value >= MinDurationMs then
        counted.(isWalking := false, lastStateChange := now)
      else counted
  }

  /** `_analyze_with_stability` on a full window: score the window, then decide. */
  function Analyze(d: Detector, now: Stamp, stats: WindowStats): (r: Detector)
    requires d.Valid()
    ensures r.Valid()
    ensures r.window == d.window
    ensures var peaks := FindPeaks(d.window, stats.mean + 0.15 * stats.std);
      // A cycle counts as walking exactly when the deviation is in range and 4 to 10 peaks were found.
      && (r.confidence >= ConfidenceThreshold <==> StdInRange(stats.std) && 4 <= |peaks| <= 10)
      && (StdInRange(stats.std) && 4 <= |peaks| <= 10 && RegularPeaks(peaks) ==> r.confidence == 10)
      && (!StdInRange(stats.std) && !(4 <= |peaks| <= 10) && !RegularPeaks(peaks) ==> r.confidence == 0)
    // Inside the debounce interval only the score moves.
    ensures now - d.lastStateChange < DebounceMs ==> r == d.(confidence := r.confidence)
    // Outside it, a walking cycle extends the walking streak and any other cycle the idle streak.
    ensures now - d.lastStateChange >= DebounceMs ==>
      if r.confidence >= ConfidenceThreshold then r.walkCount == d.walkCount + 1 && r.idleCount == 0
      else r.idleCount == d.idleCount + 1 && r.walkCount == 0
    // Walking starts on the third walking cycle in a row, and stops on the fifth idle one after two seconds.
    ensures !d.isWalking && now - d.lastStateChange >= DebounceMs ==>
      (r.isWalking <==> r.confidence >= ConfidenceThreshold && d.walkCount + 1 >= StartCount)
    ensures d.isWalking && now - d.lastStateChange >= DebounceMs ==>
      (!r.isWalking <==> && r.confidence < ConfidenceThreshold && d.idleCount + 1 >= StopCount
                         && d.walkingStart.Some? && now - d.walkingStart.value >= MinDurationMs)
    ensures r.isWalking != d.isWalking ==> r.lastStateChange == now
    ensures !d.isWalking && r.isWalking ==> r.walkingStart == Some(now)
    ensures r.isWalking == d.isWalking ==> r.lastStateChange == d.lastStateChange && r.walkingStart == d.walkingStart
  {
    var peaks := FindPeaks(d.window, stats.mean + 0.15 * stats.std);
    FrequencyInRangeIff(|peaks|);
    Decide(d.(confidence := ConfidenceTenths(stats.std, |peaks|, RegularPeaks(peaks))), now)
  }

  /**
   * `add_data`: push the magnitude into the window and, once the window is
   * full, re-evaluate.  The reported pair is `(r.isWalking, r.confidence)`.
   */
  function AddSample(d: Detector, magnitude: real, now: Stamp, stats: WindowStats): (r: Detector)
    requires d.Valid()
    ensures r.Valid()
    ensures |r.window| == if |d.window| < BufferSize then |d.window| + 1 else BufferSize
    ensures r.window == DequeAppend(d.window, magnitude, BufferSize)
    // Until the window is full nothing but the window changes.
    ensures |r.window| < BufferSize ==> r == d.(window := r.window)
    // Once it is full, the window is scored and the decision step runs on the score.
    ensures |r.window| == BufferSize ==> r == Analyze(d.(window := r.window), now, stats)
  {
    var filled := d.(window := DequeAppend(d.window, magnitude, BufferSize));
    if |filled.window| >= BufferSize then Analyze(filled, now, stats) else filled
  }

  /** One input to the detector: a magnitude, the clock, and the window statistics. */
  datatype Sample = Sample(magnitude: real, now: Stamp, stats: WindowStats)

  function Run(d: Detector, samples: seq<Sample>): (r: Detector)
    requires d.Valid()
    ensures r.Valid()
    decreases |samples|
  {
    if |samples| == 0 then d
    else Run(AddSample(d, samples[0].magnitude, samples[0].now, samples[0].stats), samples[1..])
  }

  /**
   * Insufficient data gives no verdict: fewer than 300 samples after start-up
   * leave the detector not walking with confidence 0.
   */
  lemma {:induction false} NoVerdictBeforeWindowFills(samples: seq<Sample>)
    requires |samples| < BufferSize
    ensures var r := Run(Initial, samples);
      !r.isWalking && r.confidence == 0 && r.walkCount == 0 && r.idleCount == 0
      && |r.window| == |samples|
  {
    RunBelowCapacity(Initial, samples);
  }

  lemma {:induction false} RunBelowCapacity(d: Detector, samples: seq<Sample>)
    requires d.Valid()
    requires |d.window| + |samples| < BufferSize
    ensures Run(d, samples) == d.(window := Run(d, samples).window)
    ensures |Run(d, samples).window| == |d.window| + |samples|
    decreases |samples|
  {
    if |samples| > 0 {
      var next := AddSample(d, samples[0].magnitude, samples[0].now, samples[0].stats);
      RunBelowCapacity(next, samples[1..]);
    }
  }
}
