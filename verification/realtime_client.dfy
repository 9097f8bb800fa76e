/**
 * The real-time device program's own helpers: 16-bit two's-complement
 * decoding of sensor registers and the sliding-window prediction schedule
 * of its fall detector.  Its sender and reconnect loop are the shared
 * `DataSender` model under `RealtimeClientPolicy`.
 */
module RealtimeClient {
  import opened Basics

  /** `_read_word_2c`: combine a high and a low byte and read them as a signed 16-bit value. */
  function ReadWord2c(high: Byte, low: Byte): (v: int)
    ensures -32768 <= v <= 32767
    ensures high < 0x80 ==> v == high * 256 + low
    ensures high >= 0x80 ==> v == high * 256 + low - 65536
  {
    var val := high * 256 + low;
    if val >= 0x8000 then -((65535 - val) + 1) else val
  }

  /** The two bytes a signed 16-bit value is stored as, high byte first. */
  function EncodeWord(v: int): (bytes: (Byte, Byte))
    requires -32768 <= v <= 32767
  {
    var u := if v < 0 then v + 65536 else v;
    ((u / 256) as Byte, (u % 256) as Byte)
  }

  /** Decoding inverts encoding on the whole signed 16-bit range. */
  lemma DecodeEncode(v: int)
    requires -32768 <= v <= 32767
    ensures ReadWord2c(EncodeWord(v).0, EncodeWord(v).1) == v
  {
  }

  /** Encoding inverts decoding on every byte pair. */
  lemma EncodeDecode(high: Byte, low: Byte)
    ensures EncodeWord(ReadWord2c(high, low)) == (high, low)
  {
  }

  const SeqLength: nat := 150
  const Stride: nat := 5

  /** The prediction buffer (a `deque(maxlen=150)`) and the count of samples ever added. */
  datatype Predictor<T> = Predictor(buffer: seq<T>, counter: nat)
  {
    predicate Valid() {
      |buffer| <= SeqLength
    }
  }

  /** `add_data`: append to the bounded buffer and count the sample. */
  function AddData<T>(p: Predictor<T>, x: T): (r: Predictor<T>)
    requires p.Valid()
    ensures r.Valid()
    ensures r.counter == p.counter + 1
    ensures r.buffer == DequeAppend(p.buffer, x, SeqLength)
  {
    Predictor(DequeAppend(p.buffer, x, SeqLength), p.counter + 1)
  }

  /** `should_predict`: a full buffer and a counter on the stride. */
  predicate ShouldPredict<T>(p: Predictor<T>) {
    |p.buffer| == SeqLength && p.counter % Stride == 0
  }

  function AddAll<T>(p: Predictor<T>, xs: seq<T>): (r: Predictor<T>)
    requires p.Valid()
    ensures r.Valid()
    decreases |xs|
  {
    if |xs| == 0 then p else AddAll(AddData(p, xs[0]), xs[1..])
  }

  /** After `n` samples from a fresh detector the buffer holds min(n, 150) and the counter is n. */
  lemma {:induction false} AddAllCounts<T>(p: Predictor<T>, xs: seq<T>)
    requires p.Valid() && p.counter == |p.buffer|
    ensures AddAll(p, xs).counter == p.counter + |xs|
    ensures |AddAll(p, xs).buffer| == if p.counter + |xs| < SeqLength then p.counter + |xs| else SeqLength
    decreases |xs|
  {
    if |xs| > 0 {
      var p1 := AddData(p, xs[0]);
      if p1.counter == |p1.buffer| {
        AddAllCounts(p1, xs[1..]);
      } else {
        FullStaysFull(p1, xs[1..]);
      }
    }
  }

  lemma {:induction false} FullStaysFull<T>(p: Predictor<T>, xs: seq<T>)
    requires p.Valid() && |p.buffer| == SeqLength
    ensures AddAll(p, xs).counter == p.counter + |xs|
    ensures |AddAll(p, xs).buffer| == SeqLength
    decreases |xs|
  {
    if |xs| > 0 {
      FullStaysFull(AddData(p, xs[0]), xs[1..]);
    }
  }

  /**
   * From a fresh detector, a prediction is due after the n-th sample exactly
   * when at least 150 samples have arrived and n is a multiple of 5.
   */
  lemma PredictionSchedule<T>(xs: seq<T>)
    ensures ShouldPredict(AddAll(Predictor([], 0), xs)) <==> |xs| >= SeqLength && |xs| % Stride == 0
  {
    AddAllCounts(Predictor([], 0), xs);
  }
}
