/**
 * The pure helpers of the user-status panel: how a reported state label is
 * normalised to one of the panel's four labels, its display name, the
 * duration text, and the width of the emergency-timer bar.
 */
module StatusDisplay {
  import opened Basics
  import ServerTracker
  import Routes

  /** The four labels the panel keeps a state in. */
  predicate IsPanelLabel(s: string) {
    s == "보행" || s == "일상" || s == "낙상" || s == "응급"
  }

  /** None of the English keywords the panel looks for occurs in a lower-cased label. */
  predicate NoKeyword(low: string) {
    !Contains(low, "walk") && !Contains(low, "idle") && !Contains(low, "daily")
    && !Contains(low, "fall") && !Contains(low, "emergency")
  }

  /** The lower-cased label mentions idling or daily life. */
  predicate IdleLike(low: string) {
    Contains(low, "idle") || Contains(low, "daily")
  }

  /**
   * `normalizeStateValue` as written.  An empty (or missing) label becomes
   * `daily`; otherwise the lower-cased label is searched for `walk`, then
   * `idle`/`daily`, then `fall`, then `emergency`; a label with none of them
   * passes through only if it is already one of the four panel labels, and
   * anything else is shown as daily life.  The server's own walking label
   * `걷기` is not among the four.
   */
  function NormalizeAsWritten(state: string): (r: string)
    ensures state == "" <==> r == "daily"
    ensures state != "" ==> IsPanelLabel(r)
    ensures state != "" && Contains(ToLowerAscii(state), "walk") ==> r == "보행"
    ensures state != "" && !Contains(ToLowerAscii(state), "walk") && IdleLike(ToLowerAscii(state)) ==> r == "일상"
    ensures var low := ToLowerAscii(state);
      state != "" && !Contains(low, "walk") && !IdleLike(low) && Contains(low, "fall") ==> r == "낙상"
    ensures var low := ToLowerAscii(state);
      (state != "" && !Contains(low, "walk") && !IdleLike(low) && !Contains(low, "fall")
       && Contains(low, "emergency")) ==> r == "응급"
    // Korean labels carry no keyword: only the four panel labels survive, everything else reads as daily life.
    ensures state != "" && NoKeyword(ToLowerAscii(state)) ==> (r == state <==> IsPanelLabel(state))
    ensures state != "" && NoKeyword(ToLowerAscii(state)) && !IsPanelLabel(state) ==> r == "일상"
  {
    if state == "" then "daily"
    else
      var low := ToLowerAscii(state);
      if Contains(low, "walk") || low == "walking" then "보행"
      else if Contains(low, "idle") || low == "idle" || Contains(low, "daily") then "일상"
      else if Contains(low, "fall") then "낙상"
      else if Contains(low, "emergency") then "응급"
      else if IsPanelLabel(state) then state
      else "일상"
  }

  /** The panel label the server's state stands for. */
  function PanelLabel(s: ServerTracker.ServerState): string {
    match s
    case Daily => "일상"
    case Walking => "보행"
    case Fall => "낙상"
    case Emergency => "응급"
  }

  /** A label written without ASCII characters, such as a Hangul one. */
  predicate BeyondAscii(s: string) {
    forall i :: 0 <= i < |s| ==> s[i] as int >= 128
  }

  lemma {:induction false} MissingFirstChar(s: string, sub: string)
    requires |sub| > 0 && forall i :: 0 <= i < |s| ==> s[i] != sub[0]
    ensures !Contains(s, sub)
    decreases |s|
  {
    if |s| > 0 {
      assert !IsPrefix(sub, s) by {
        if |sub| <= |s| { assert s[..|sub|][0] == s[0]; }
      }
      MissingFirstChar(s[1..], sub);
    }
  }

  /** Lower-casing leaves a label beyond ASCII alone, and no English keyword occurs in it. */
  lemma BeyondAsciiHasNoKeyword(s: string)
    requires BeyondAscii(s)
    ensures ToLowerAscii(s) == s
    ensures NoKeyword(ToLowerAscii(s))
  {
    assert ToLowerAscii(s) == s;
    MissingFirstChar(s, "walk");
    MissingFirstChar(s, "idle");
    MissingFirstChar(s, "daily");
    MissingFirstChar(s, "fall");
    MissingFirstChar(s, "emergency");
  }

  lemma PanelLabelsHaveNoKeyword(s: ServerTracker.ServerState)
    ensures NoKeyword(ToLowerAscii(ServerTracker.ServerLabel(s)))
    ensures NoKeyword(ToLowerAscii(PanelLabel(s)))
  {
    BeyondAsciiHasNoKeyword(ServerTracker.ServerLabel(s));
    BeyondAsciiHasNoKeyword(PanelLabel(s));
  }

  /**
   * As written, the panel shows a walking user as in daily life: the
   * server's `걷기` is not one of the four pass-through labels.  The other
   * three server labels come through right.
   */
  lemma WalkingShownAsDaily()
    ensures NormalizeAsWritten(ServerTracker.ServerLabel(ServerTracker.Walking)) == "일상"
    ensures DisplayName(NormalizeAsWritten(ServerTracker.ServerLabel(ServerTracker.Walking))) == "일상생활"
    ensures forall s :: s != ServerTracker.Walking ==> NormalizeAsWritten(ServerTracker.ServerLabel(s)) == PanelLabel(s)
  {
    forall s | s != ServerTracker.Walking
      ensures NormalizeAsWritten(ServerTracker.ServerLabel(s)) == PanelLabel(s)
    {
      ServerLabelAsWritten(s);
    }
    ServerLabelAsWritten(ServerTracker.Walking);
  }

  /** One server label through the normalisation as written. */
  lemma ServerLabelAsWritten(s: ServerTracker.ServerState)
    ensures NormalizeAsWritten(ServerTracker.ServerLabel(s))
      == if s == ServerTracker.Walking then "일상" else PanelLabel(s)
  {
    var text := ServerTracker.ServerLabel(s);
    PanelLabelsHaveNoKeyword(s);
    assert text != "";
    assert IsPanelLabel(text) <==> s != ServerTracker.Walking;
  }

  /** `normalizeStateValue` with the server's walking label recognised as walking. */
  function Normalize(state: string): (r: string)
    ensures state == "" <==> r == "daily"
    ensures state != "" ==> IsPanelLabel(r)
    ensures state == ServerTracker.ServerLabel(ServerTracker.Walking) ==> r == "보행"
  {
    if state == "걷기" then "보행" else NormalizeAsWritten(state)
  }

  /** Every server label reaches the panel as the state it names. */
  lemma PanelMirrorsServer(s: ServerTracker.ServerState)
    ensures Normalize(ServerTracker.ServerLabel(s)) == PanelLabel(s)
    ensures DisplayName(Normalize(ServerTracker.ServerLabel(s))) == DisplayName(ServerTracker.ServerLabel(s))
  {
    PanelLabelsHaveNoKeyword(s);
  }

  /** Normalising is settled after one step for any label that was present. */
  lemma NormalizeIdempotent(state: string)
    requires state != ""
    ensures Normalize(Normalize(state)) == Normalize(state)
  {
    var r := Normalize(state);
    assert NoKeyword(ToLowerAscii(r)) by {
      if r == "보행" { PanelLabelsHaveNoKeyword(ServerTracker.Walking); }
      else if r == "일상" { PanelLabelsHaveNoKeyword(ServerTracker.Daily); }
      else if r == "낙상" { PanelLabelsHaveNoKeyword(ServerTracker.Fall); }
      else { PanelLabelsHaveNoKeyword(ServerTracker.Emergency); }
    }
  }

  /** The labels `getStateDisplayName` has a fixed name for. */
  predicate IsNamedLabel(s: string) {
    s in {"Walking", "걷기", "보행", "Idle", "일상", "daily", "Fall", "낙상", "Emergency", "응급"}
  }

  /** `getStateDisplayName`. */
  function DisplayName(state: string): (name: string)
    ensures IsNamedLabel(state) ==> name in {"보행 중", "일상생활", "낙상 감지", "응급상황"}
    ensures !IsNamedLabel(state) && state != "" ==> name == state + " (확인 중)"
    ensures state == "" ==> name == "연결 대기 중"
  {
    if state in {"Walking", "걷기", "보행"} then "보행 중"
    else if state in {"Idle", "일상", "daily"} then "일상생활"
    else if state in {"Fall", "낙상"} then "낙상 감지"
    else if state in {"Emergency", "응급"} then "응급상황"
    else if state != "" then state + " (확인 중)"
    else "연결 대기 중"
  }

  /** Whatever arrives, the panel never shows the "still checking" or "waiting" fallback after normalising. */
  lemma NormalizedNamesAreFixed(state: string)
    ensures IsNamedLabel(Normalize(state))
    ensures DisplayName(Normalize(state)) in {"보행 중", "일상생활", "낙상 감지", "응급상황"}
  {
  }

  // ---------------------------------------------------------------------
  // Durations
  // ---------------------------------------------------------------------

  /**
   * `formatDuration`.  For positive `seconds` every `Math.floor` in the
   * source is a digit group of the whole seconds `seconds.Floor`, which is
   * what the body computes with.
   */
  function FormatDuration(seconds: real): (text: string)
    ensures seconds <= 0.0 ==> text == "0초"
    ensures |text| >= 2
    // Below an hour the text ends in seconds; from an hour on it ends in minutes.
    ensures seconds < 3600.0 ==> text[|text| - 1] == '초'
    ensures seconds >= 3600.0 ==> text[|text| - 1] == '분'
  {
    if seconds <= 0.0 then "0초"
    else
      var n := seconds.Floor;
      if seconds < 60.0 then NatToString(n) + "초"
      else if seconds < 3600.0 then MinutesText(n)
      else HoursText(n)
  }

  /** How many decimal digits `s` starts with. */
  function LeadingDigits(s: string): (k: nat)
    ensures k <= |s|
    ensures forall i :: 0 <= i < k ==> IsDigit(s[i])
    ensures k < |s| ==> !IsDigit(s[k])
  {
    if |s| > 0 && IsDigit(s[0]) then 1 + LeadingDigits(s[1..]) else 0
  }

  lemma {:induction false} LeadingDigitsOfNumber(digits: string, rest: string)
    requires forall i :: 0 <= i < |digits| ==> IsDigit(digits[i])
    requires |rest| > 0 && !IsDigit(rest[0])
    ensures LeadingDigits(digits + rest) == |digits|
  {
    if |digits| > 0 {
      assert (digits + rest)[1..] == digits[1..] + rest;
      LeadingDigitsOfNumber(digits[1..], rest);
    }
  }

  /** Reads `<number><unit>` exactly. */
  function ReadNumberThen(s: string, unit: string): Option<nat> {
    var k := LeadingDigits(s);
    if k > 0 && s[k..] == unit then ParseNat(s[..k]) else None
  }

  lemma ReadNumberThenSpelled(n: nat, unit: string)
    requires |unit| > 0 && !IsDigit(unit[0])
    ensures ReadNumberThen(NatToString(n) + unit, unit) == Some(n)
  {
    var s := NatToString(n) + unit;
    LeadingDigitsOfNumber(NatToString(n), unit);
    assert s[..|NatToString(n)|] == NatToString(n);
    assert s[|NatToString(n)|..] == unit;
    ParseNatToString(n);
  }

  /** Reads a duration text back into whole seconds. */
  function ReadDuration(text: string): Option<nat> {
    var k := LeadingDigits(text);
    if k == 0 then None
    else
      match ParseNat(text[..k])
      case None => None
      case Some(a) => ReadUnits(a, text[k..])
  }

  /** Reads what follows the leading number `a` of a duration text. */
  function ReadUnits(a: nat, rest: string): Option<nat> {
    if rest == "초" then Some(a)
    else if |rest| > 2 && rest[..2] == "분 " then
      match ReadNumberThen(rest[2..], "초")
      case None => None
      case Some(b) => Some(a * 60 + b)
    else if |rest| > 3 && rest[..3] == "시간 " then
      match ReadNumberThen(rest[3..], "분")
      case None => None
      case Some(b) => Some(a * 3600 + b * 60)
    else None
  }

  lemma ReadLeadingNumber(n: nat, rest: string)
    requires |rest| > 0 && !IsDigit(rest[0])
    ensures ReadDuration(NatToString(n) + rest) == ReadUnits(n, rest)
  {
    LeadingDigitsOfNumber(NatToString(n), rest);
    ParseNatToString(n);
    var text := NatToString(n) + rest;
    assert text[..|NatToString(n)|] == NatToString(n);
    assert text[|NatToString(n)|..] == rest;
  }

  lemma ReadsBackUnderMinute(seconds: real)
    requires 0.0 < seconds < 60.0
    ensures ReadDuration(FormatDuration(seconds)) == Some(seconds.Floor as nat)
  {
    ReadLeadingNumber(seconds.Floor, "초");
  }

  lemma UnitsMinutesSeconds(m: nat, tail: string, sec: nat)
    requires tail == NatToString(sec) + "초"
    ensures ReadUnits(m, "분 " + tail) == Some(m * 60 + sec)
  {
    var rest := "분 " + tail;
    assert rest[..2] == "분 " && rest[2..] == tail;
    assert rest != "초" by { assert |rest| > 2; }
    ReadNumberThenSpelled(sec, "초");
  }

  lemma UnitsHoursMinutes(h: nat, tail: string, m: nat)
    requires tail == NatToString(m) + "분"
    ensures ReadUnits(h, "시간 " + tail) == Some(h * 3600 + m * 60)
  {
    var rest := "시간 " + tail;
    assert rest[..3] == "시간 " && rest[3..] == tail;
    assert rest != "초" by { assert |rest| > 3; }
    assert rest[..2] != "분 " by { assert rest[0] == '시'; }
    ReadNumberThenSpelled(m, "분");
  }

  /** `m분 s초` reads back as `m * 60 + s` seconds. */
  lemma ReadMinutesSeconds(m: nat, sec: nat)
    ensures ReadDuration(NatToString(m) + "분 " + NatToString(sec) + "초") == Some(m * 60 + sec)
  {
    var tail := NatToString(sec) + "초";
    var rest := "분 " + tail;
    assert NatToString(m) + "분 " + NatToString(sec) + "초" == NatToString(m) + rest;
    assert ReadDuration(NatToString(m) + rest) == Some(m * 60 + sec) by {
      ReadLeadingNumber(m, rest);
      UnitsMinutesSeconds(m, tail, sec);
    }
  }

  /** `h시간 m분` reads back as `h * 3600 + m * 60` seconds. */
  lemma ReadHoursMinutes(h: nat, m: nat)
    ensures ReadDuration(NatToString(h) + "시간 " + NatToString(m) + "분") == Some(h * 3600 + m * 60)
  {
    var tail := NatToString(m) + "분";
    var rest := "시간 " + tail;
    assert NatToString(h) + "시간 " + NatToString(m) + "분" == NatToString(h) + rest;
    assert ReadDuration(NatToString(h) + rest) == Some(h * 3600 + m * 60) by {
      ReadLeadingNumber(h, rest);
      UnitsHoursMinutes(h, tail, m);
    }
  }

  lemma ReadsBackUnderHour(seconds: real)
    requires 60.0 <= seconds < 3600.0
    ensures ReadDuration(FormatDuration(seconds)) == Some(seconds.Floor as nat)
  {
    FormatUnderHour(seconds);
    ReadMinutesText(seconds.Floor);
  }

  /** The text `formatDuration` gives from a minute to an hour, for `n` whole seconds. */
  function MinutesText(n: nat): string {
    NatToString(n / 60) + "분 " + NatToString(n % 60) + "초"
  }

  lemma FormatUnderHour(seconds: real)
    requires 60.0 <= seconds < 3600.0
    ensures FormatDuration(seconds) == MinutesText(seconds.Floor)
  {
  }

  lemma ReadMinutesText(n: nat)
    ensures ReadDuration(MinutesText(n)) == Some(n)
  {
    ReadMinutesSeconds(n / 60, n % 60);
  }

  /** Whole hours and whole minutes add up to the seconds less the odd seconds. */
  lemma HoursMinutesSplit(n: nat)
    ensures n / 3600 * 3600 + n % 3600 / 60 * 60 == n - n % 60
  {
    var h, r := n / 3600, n % 3600;
    var q, t := r / 60, r % 60;
    assert n == h * 3600 + r;
    assert r == q * 60 + t;
    var k := h * 60 + q;
    assert k * 60 == h * 3600 + q * 60;
    assert n == k * 60 + t;
    DivModUnique(n, k, t);
  }

  lemma DivModUnique(n: nat, k: nat, t: nat)
    requires t < 60 && n == k * 60 + t
    ensures n % 60 == t
  {
  }

  /** The text `formatDuration` gives from an hour on, for `n` whole seconds. */
  function HoursText(n: nat): string {
    NatToString(n / 3600) + "시간 " + NatToString(n % 3600 / 60) + "분"
  }

  lemma FormatFromHour(seconds: real)
    requires seconds >= 3600.0
    ensures FormatDuration(seconds) == HoursText(seconds.Floor)
  {
  }

  lemma ReadHoursText(n: nat)
    ensures ReadDuration(HoursText(n)) == Some(n - n % 60)
  {
    ReadHoursMinutes(n / 3600, n % 3600 / 60);
    HoursMinutesSplit(n);
  }

  lemma ReadsBackFromHour(seconds: real)
    requires seconds >= 3600.0
    ensures ReadDuration(FormatDuration(seconds)) == Some(seconds.Floor as nat - seconds.Floor as nat % 60)
  {
    FormatFromHour(seconds);
    ReadHoursText(seconds.Floor);
  }

  /**
   * The duration text reads back as the whole seconds it was made from;
   * from an hour on, the seconds are dropped.
   */
  lemma DurationReadsBack(seconds: real)
    ensures seconds <= 0.0 ==> ReadDuration(FormatDuration(seconds)) == Some(0)
    ensures 0.0 < seconds < 3600.0 ==> ReadDuration(FormatDuration(seconds)) == Some(seconds.Floor as nat)
    ensures seconds >= 3600.0 ==>
      ReadDuration(FormatDuration(seconds)) == Some(seconds.Floor as nat - seconds.Floor as nat % 60)
  {
    if seconds <= 0.0 {
      ReadLeadingNumber(0, "초");
      assert FormatDuration(seconds) == NatToString(0) + "초";
    } else if seconds < 60.0 {
      ReadsBackUnderMinute(seconds);
    } else if seconds < 3600.0 {
      ReadsBackUnderHour(seconds);
    } else {
      ReadsBackFromHour(seconds);
    }
  }

  // ---------------------------------------------------------------------
  // Emergency timer bar
  // ---------------------------------------------------------------------

  /** The timer bar's width in percent: `Math.min(timer / 15 * 100, 100)`. */
  function ProgressWidth(timerSeconds: real): (w: real)
    ensures w <= 100.0
    ensures timerSeconds >= 0.0 ==> w >= 0.0
    ensures w == 100.0 <==> timerSeconds >= 15.0
    ensures timerSeconds < 15.0 ==> w * 15.0 == timerSeconds * 100.0
  {
    var p := timerSeconds / 15.0 * 100.0;
    if p < 100.0 then p else 100.0
  }

  /** The bar fills exactly when the server would rate the emergency CRITICAL. */
  lemma BarFullIffCritical(durationMs: int)
    ensures ProgressWidth(durationMs as real / 1000.0) == 100.0 <==> Routes.LevelOf(durationMs) == Routes.Critical
  {
  }

  /** A longer-running timer never shows a shorter bar. */
  lemma ProgressMonotone(a: real, b: real)
    requires a <= b
    ensures ProgressWidth(a) <= ProgressWidth(b)
  {
  }
}
