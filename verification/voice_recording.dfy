/**
 * Two helpers of the recording tab: the `MM:SS` rendering of a duration and
 * the choice of a new recording's file name.
 */
module VoiceRecording {
  import opened Nullable
  import Decimal

  // ---------------------------------------------------------------------
  // formatDuration

  const MillisPerSecond: nat := 1000
  const MillisPerMinute: nat := 60_000
  const SecondsPerMinute: nat := 60

  /**
   * Java's `/` on `Long`: the quotient truncated toward zero, so the
   * remainder takes the dividend's sign and is smaller than the divisor.
   */
  function TruncDiv(a: int, d: nat): (q: int)
    requires d > 0
    ensures a >= 0 ==> 0 <= a - q * d < d
    ensures a < 0 ==> -(d as int) < a - q * d <= 0
  {
    if a >= 0 then a / d else -((-a) / d)
  }

  /** `TimeUnit.MILLISECONDS.toMinutes`. */
  function Minutes(ms: int): int {
    TruncDiv(ms, MillisPerMinute)
  }

  /** `toSeconds(ms) - MINUTES.toSeconds(toMinutes(ms))`; no `Long` overflow can occur. */
  function Seconds(ms: int): int {
    TruncDiv(ms, MillisPerSecond) - SecondsPerMinute * Minutes(ms)
  }

  /** `String.format("%02d", n)`: zero-padded to two characters, padding after the sign. */
  function Pad2(n: int): (s: string)
    ensures 2 <= |s|
    ensures n >= 0 ==> Decimal.AllDigits(s) && Decimal.Value(s) == n
    ensures 0 <= n < 100 ==> |s| == 2
    ensures n >= 10 ==> s[0] != '0'
    ensures n < 0 ==> s[0] == '-' && Decimal.AllDigits(s[1..]) && Decimal.Value(s[1..]) == -n && s[1] != '0'
  {
    Decimal.ValueOfFromNat(if n < 0 then -n else n);
    if n < 0 then "-" + Decimal.FromNat(-n)
    else if n < 10 then (Decimal.ValueLeadingZero(Decimal.FromNat(n)); "0" + Decimal.FromNat(n))
    else Decimal.FromNat(n)
  }

  /** `formatDuration`: "%02d:%02d" of the minutes and the seconds left over. */
  function FormatDuration(durationMs: int): string {
    Pad2(Minutes(durationMs)) + ":" + Pad2(Seconds(durationMs))
  }

  lemma DivOfDiv(a: nat)
    ensures a / MillisPerMinute == (a / MillisPerSecond) / SecondsPerMinute
  {
    var q := a / MillisPerSecond;
    var m := q / SecondsPerMinute;
    var rest := a - MillisPerMinute * m;
    assert a == MillisPerSecond * q + a % MillisPerSecond;
    assert q == SecondsPerMinute * m + q % SecondsPerMinute;
    assert rest == MillisPerSecond * (q % SecondsPerMinute) + a % MillisPerSecond;
    assert 0 <= rest < MillisPerMinute;
  }

  /**
   * For a non-negative duration the minutes are whole minutes, the seconds
   * lie in 0..59, and together they are the whole seconds: the sub-second
   * part is dropped.
   */
  lemma DurationFields(ms: int)
    requires ms >= 0
    ensures Minutes(ms) == ms / MillisPerMinute
    ensures 0 <= Seconds(ms) < SecondsPerMinute
    ensures SecondsPerMinute * Minutes(ms) + Seconds(ms) == ms / MillisPerSecond
    ensures Seconds(ms) == (ms / MillisPerSecond) % SecondsPerMinute
  {
    DivOfDiv(ms);
  }

  /** A negative duration gives non-positive fields with the same sum, seconds in -59..0. */
  lemma NegativeDurationFields(ms: int)
    requires ms < 0
    ensures Minutes(ms) == -((-ms) / MillisPerMinute)
    ensures -(SecondsPerMinute as int) < Seconds(ms) <= 0
    ensures SecondsPerMinute * Minutes(ms) + Seconds(ms) == TruncDiv(ms, MillisPerSecond)
  {
    DivOfDiv(-ms);
  }

  /** A parsed `M:SS` clock reading. */
  datatype Clock = Clock(minutes: nat, seconds: nat)

  /** Reads back digits, ':' and two digits. */
  function ParseClock(s: string): Nullable<Clock> {
    if |s| >= 4 && s[|s| - 3] == ':' && Decimal.AllDigits(s[..|s| - 3]) && Decimal.AllDigits(s[|s| - 2..])
    then NonNull(Clock(Decimal.Value(s[..|s| - 3]), Decimal.Value(s[|s| - 2..])))
    else Null
  }

  /** Reading a formatted duration back gives its whole minutes and leftover seconds. */
  lemma FormatDurationRoundTrip(ms: int)
    requires ms >= 0
    ensures ParseClock(FormatDuration(ms)) ==
            NonNull(Clock(ms / MillisPerMinute, (ms / MillisPerSecond) % SecondsPerMinute))
  {
    DurationFields(ms);
    var a := Pad2(Minutes(ms));
    var b := Pad2(Seconds(ms));
    var s := FormatDuration(ms);
    assert s == a + ":" + b;
    assert s[..|s| - 3] == a;
    assert s[|s| - 2..] == b;
  }

  /** Below 100 minutes the rendering is exactly five characters, `MM:SS`. */
  lemma FormatDurationWidth(ms: int)
    requires 0 <= ms < 100 * MillisPerMinute
    ensures |FormatDuration(ms)| == 5
    ensures FormatDuration(ms)[2] == ':'
  {
    DurationFields(ms);
  }

  // ---------------------------------------------------------------------
  // Recording file names

  const NamePrefix: string := "nagranie_"
  const NameSuffix: string := ".3gp"

  /** The base name for the next recording: one past the number already stored. */
  function RecordingFileName(recordingCount: nat): (name: string)
    ensures |name| > |NamePrefix| + |NameSuffix|
    ensures name[..|NamePrefix|] == NamePrefix
    ensures name[|name| - |NameSuffix|..] == NameSuffix
  {
    NamePrefix + Decimal.FromNat(recordingCount + 1) + NameSuffix
  }

  /** The recording number sits between prefix and suffix and can be read back. */
  lemma RecordingFileNameNumber(recordingCount: nat)
    ensures var name := RecordingFileName(recordingCount);
      var digits := name[|NamePrefix|..|name| - |NameSuffix|];
      Decimal.AllDigits(digits) && Decimal.Value(digits) == recordingCount + 1
  {
    var name := RecordingFileName(recordingCount);
    assert name[|NamePrefix|..|name| - |NameSuffix|] == Decimal.FromNat(recordingCount + 1);
    Decimal.ValueOfFromNat(recordingCount + 1);
  }

  /** Different recording counts give different file names. */
  lemma RecordingFileNameInjective(m: nat, n: nat)
    ensures RecordingFileName(m) == RecordingFileName(n) <==> m == n
  {
    if RecordingFileName(m) == RecordingFileName(n) {
      RecordingFileNameNumber(m);
      RecordingFileNameNumber(n);
    }
  }

  /** The name the collision branch builds: number, underscore, timestamp. */
  function TimestampedFileName(recordingCount: nat, timestamp: int): string {
    NamePrefix + Decimal.FromNat(recordingCount + 1) + "_" + Decimal.FromInt(timestamp) + NameSuffix
  }

  /**
   * The file `startRecording` records into, as written: the collision branch
   * only binds new locals that shadow `fileName` and `file`, so nothing reads
   * the timestamped name.
   */
  function StartRecordingFile(recordingCount: nat, fileExists: bool, timestamp: int): string {
    var fileName := RecordingFileName(recordingCount);
    if fileExists then
      var shadowedFileName := TimestampedFileName(recordingCount, timestamp);
      fileName
    else
      fileName
  }

  /** As written, the target never depends on whether the file exists: an existing file is reused. */
  lemma StartRecordingReusesExistingFile(recordingCount: nat, timestamp: int)
    ensures StartRecordingFile(recordingCount, true, timestamp) == RecordingFileName(recordingCount)
    ensures StartRecordingFile(recordingCount, true, timestamp) == StartRecordingFile(recordingCount, false, timestamp)
  {
  }

  /** The evidently intended choice: a timestamped name when the base name is taken. */
  function IntendedRecordingFile(recordingCount: nat, fileExists: bool, timestamp: int): (name: string)
    ensures !fileExists ==> name == RecordingFileName(recordingCount)
    ensures fileExists ==> name != RecordingFileName(recordingCount)
  {
    var n := Decimal.FromNat(recordingCount + 1);
    if fileExists then
      var t := TimestampedFileName(recordingCount, timestamp);
      assert t[|NamePrefix| + |n|] == '_';
      assert RecordingFileName(recordingCount)[|NamePrefix| + |n|] == '.';
      t
    else RecordingFileName(recordingCount)
  }
}
