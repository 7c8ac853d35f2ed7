/** The three display formatters of the upload form: a byte size, a transfer
    speed and a remaining time. Each is split into the numeric fields it
    selects (unit, rounded amount, minutes and seconds) and the string those
    fields are rendered to. */
module UploadFormat {
  import opened Common

  /** The step between two size units. */
  const Kilo: nat := 1024

  /** The size units, indexed by the power of 1024 they stand for. */
  const SizeUnits: seq<string> := ["Bytes", "KB", "MB", "GB", "TB"]

  function Pow1024(i: nat): (p: nat)
    ensures p >= 1
  {
    if i == 0 then 1 else Kilo * Pow1024(i - 1)
  }

  lemma {:induction false} Pow1024Monotone(i: nat, j: nat)
    requires i <= j
    ensures Pow1024(i) <= Pow1024(j)
  {
    if i < j {
      Pow1024Monotone(i, j - 1);
    }
  }

  /** `Math.floor(Math.log(bytes) / Math.log(1024))` on exact numbers: the
      largest power of 1024 that does not exceed `bytes`. */
  function UnitIndex(bytes: nat): (i: nat)
    requires bytes >= 1
    ensures Pow1024(i) <= bytes < Pow1024(i + 1)
  {
    if bytes < Kilo then 0
    else
      var j := UnitIndex(bytes / Kilo);
      assert Kilo * Pow1024(j) <= Kilo * (bytes / Kilo) <= bytes;
      assert bytes < Kilo * (bytes / Kilo + 1) <= Kilo * Pow1024(j + 1);
      1 + j
  }

  /** What `formatFileSize` shows: the literal zero label, or an amount in
      hundredths of a unit together with the index of that unit. */
  datatype SizeText = ZeroBytes | Scaled(hundredths: nat, unit: nat)

  /** Amount `n` lies in the unit interval [1, 1024) once scaled by `p`. */
  lemma ScaledIntoRange(n: nat, p: nat)
    requires 1 <= p <= n < Kilo * p
    ensures 1.0 <= n as real / p as real < 1024.0
  {
    var q := n as real / p as real;
    assert q * p as real == n as real;
  }

  /** The numeric part of `formatFileSize(bytes)`: zero gets its own label;
      otherwise the unit is the largest power of 1024 not above `bytes`, and
      the amount, rounded to two decimals as `toFixed(2)` does, lies within
      half a hundredth of `bytes / 1024^unit` and between 1.00 and 1024.00. */
  function SizeFields(bytes: nat): (t: SizeText)
    ensures t.ZeroBytes? <==> bytes == 0
    ensures t.Scaled? ==> Pow1024(t.unit) <= bytes < Pow1024(t.unit + 1)
    ensures t.Scaled? ==> 100 <= t.hundredths <= 102400
    ensures t.Scaled? ==>
              -0.005 < t.hundredths as real / 100.0 - bytes as real / Pow1024(t.unit) as real <= 0.005
  {
    if bytes == 0 then ZeroBytes
    else
      var i := UnitIndex(bytes);
      ScaledIntoRange(bytes, Pow1024(i));
      var h := RoundHalfUp(bytes as real / Pow1024(i) as real * 100.0);
      Scaled(h, i)
  }

  /** `sizes[i]`; past the last unit JavaScript yields `undefined`, which
      string concatenation writes as "undefined". */
  function UnitName(i: nat): string {
    if i < |SizeUnits| then SizeUnits[i] else "undefined"
  }

  /** `formatFileSize(bytes)`. */
  function FormatFileSize(bytes: nat): string {
    match SizeFields(bytes)
    case ZeroBytes => "0 Bytes"
    case Scaled(h, i) => ShortDecimal(h) + " " + UnitName(i)
  }

  /** Sizes below 1024^5 get one of the five named units; at 1024^5 and
      above the unit name is "undefined". */
  lemma UnitNamed(bytes: nat)
    requires bytes >= 1
    ensures SizeFields(bytes).unit < |SizeUnits| <==> bytes < Pow1024(5)
  {
    var i := SizeFields(bytes).unit;
    if i < 5 {
      Pow1024Monotone(i + 1, 5);
    } else {
      Pow1024Monotone(5, i);
    }
  }

  /** `formatFileSize` of a non-zero size is a number, a space and the unit
      name, where the unit is the largest power of 1024 not above the size
      and the number reads back (through `parseFloat`) within half a
      hundredth of the size in that unit, with no trailing fractional zero. */
  lemma FormatFileSizeReadsBack(bytes: nat)
    requires bytes >= 1
    ensures var s, t := FormatFileSize(bytes), SizeFields(bytes);
            var u := " " + UnitName(t.unit);
            && Pow1024(t.unit) <= bytes < Pow1024(t.unit + 1)
            && |u| < |s| && s[|s| - |u|..] == u
            && var n := s[..|s| - |u|];
               && ParseDecimal(n).Some?
               && -0.005 < ParseDecimal(n).value - bytes as real / Pow1024(t.unit) as real <= 0.005
               && (PointIndex(n) < |n| ==> n[|n| - 1] != '0')
  {
    var t := SizeFields(bytes);
    var n, u := ShortDecimal(t.hundredths), " " + UnitName(t.unit);
    assert FormatFileSize(bytes) == n + u;
    assert |n| > 0 by {
      ShortDecimalReadsBack(t.hundredths);
    }
    ShortDecimalParses(t.hundredths);
    SplitAtSuffix(n, u);
  }

  /** A text followed by a suffix splits back into the two. */
  lemma SplitAtSuffix(n: string, u: string)
    ensures var s := n + u; |s| - |u| == |n| && s[..|n|] == n && s[|s| - |u|..] == u
  {
  }

  lemma FormatFileSizeExamples()
    ensures FormatFileSize(0) == "0 Bytes"
    ensures FormatFileSize(1536) == "1.5 KB"
    ensures FormatFileSize(1048576) == "1 MB"
  {
    assert UnitIndex(1536) == 1;
    assert SizeFields(1536) == Scaled(150, 1);
    assert NatToString(50) == "50";
    assert UnitIndex(1048576) == 2 by {
      assert UnitIndex(1024) == 1;
    }
    assert SizeFields(1048576) == Scaled(100, 2);
  }

  /** What `formatSpeed` shows, by unit. */
  datatype SpeedText =
    | MegabytesPerSecond(hundredths: nat)
    | KilobytesPerSecond(hundredths: nat)
    | BytesPerSecond(whole: int)

  /** The numeric part of `formatSpeed(bytesPerSecond)`: MB/s strictly above
      1048576 B/s, KB/s strictly above 1024 B/s, B/s otherwise; MB/s and KB/s
      carry two decimals, B/s the nearest integer. */
  function SpeedFields(bytesPerSecond: real): (t: SpeedText)
    ensures t.MegabytesPerSecond? <==> bytesPerSecond > 1048576.0
    ensures t.KilobytesPerSecond? <==> 1024.0 < bytesPerSecond <= 1048576.0
    ensures t.BytesPerSecond? <==> bytesPerSecond <= 1024.0
    ensures t.MegabytesPerSecond? ==>
              t.hundredths >= 100 &&
              -0.005 < t.hundredths as real / 100.0 - bytesPerSecond / 1048576.0 <= 0.005
    ensures t.KilobytesPerSecond? ==>
              100 <= t.hundredths <= 102400 &&
              -0.005 < t.hundredths as real / 100.0 - bytesPerSecond / 1024.0 <= 0.005
    ensures t.BytesPerSecond? ==> t.whole <= 1024 && -0.5 < t.whole as real - bytesPerSecond <= 0.5
  {
    if bytesPerSecond > 1048576.0 then
      MegabytesPerSecond(RoundHalfUp(bytesPerSecond / 1048576.0 * 100.0))
    else if bytesPerSecond > 1024.0 then
      KilobytesPerSecond(RoundHalfUp(bytesPerSecond / 1024.0 * 100.0))
    else
      BytesPerSecond(RoundHalfUp(bytesPerSecond))
  }

  /** The text `formatSpeed` builds from its fields. */
  function RenderSpeed(t: SpeedText): string {
    match t
    case MegabytesPerSecond(h) => Fixed2(h) + " MB/s"
    case KilobytesPerSecond(h) => Fixed2(h) + " KB/s"
    case BytesPerSecond(n) => IntToString(n) + " B/s"
  }

  /** `formatSpeed(bytesPerSecond)`. */
  function FormatSpeed(bytesPerSecond: real): string {
    RenderSpeed(SpeedFields(bytesPerSecond))
  }

  /** Above 1024 B/s `formatSpeed` writes a number with exactly two
      decimals, a space and "MB/s" or "KB/s"; the number reads back within
      half a hundredth of the speed in that unit. */
  lemma FormatSpeedReadsBack(bytesPerSecond: real)
    requires bytesPerSecond > 1024.0
    ensures var s, mb := FormatSpeed(bytesPerSecond), bytesPerSecond > 1048576.0;
            var u, scale := (if mb then " MB/s" else " KB/s"), (if mb then 1048576.0 else 1024.0);
            && |u| < |s| && s[|s| - |u|..] == u
            && var n := s[..|s| - |u|];
               && ParseDecimal(n).Some?
               && -0.005 < ParseDecimal(n).value - bytesPerSecond / scale <= 0.005
               && PointIndex(n) == |n| - 3
  {
    var t := SpeedFields(bytesPerSecond);
    var u := if t.MegabytesPerSecond? then " MB/s" else " KB/s";
    Fixed2Parses(t.hundredths);
    SplitAtSuffix(Fixed2(t.hundredths), u);
  }

  lemma FormatSpeedExamples()
    ensures FormatSpeed(1536.0) == "1.50 KB/s"
    ensures FormatSpeed(1024.0) == "1024 B/s"
    ensures FormatSpeed(-3.0) == "-3 B/s"
  {
    assert SpeedFields(1536.0) == KilobytesPerSecond(150);
    assert NatToString(50) == "50";
    assert NatToString(1024) == "1024" by {
      assert NatToString(102) == "102" by {
        assert NatToString(10) == "10";
      }
    }
  }

  /** `x % m` of JavaScript for `x >= 0`: what is left after taking out
      whole multiples of `m`. It is below `m`, and what was taken out is a
      whole number of `m`s. */
  function Remainder(x: real, m: real): (r: real)
    requires x >= 0.0 && m > 0.0
    ensures 0.0 <= r < m
    ensures ((x - r) / m).Floor as real == (x - r) / m
  {
    var q := Floor(x / m);
    var fraction := x / m - q as real;
    assert fraction * m == x - m * q as real;
    assert fraction * m < m by {
      assert (1.0 - fraction) * m > 0.0;
    }
    assert (x - (x - m * q as real)) / m == q as real;
    x - m * q as real
  }

  /** What `formatTime` shows. */
  datatype TimeText =
    | UnderASecond
    | Seconds(seconds: int)
    | Minutes(minutes: int, seconds: int)
    | Hours(hours: int, minutes: int)

  /** The numeric part of `formatTime(seconds)`: the branch is chosen by the
      thresholds 1, 60 and 3600; the minute branch shows whole minutes 1..59
      and the remaining seconds rounded, which can be 60; the hour branch
      shows whole hours and whole remaining minutes 0..59. */
  function TimeFields(seconds: real): (t: TimeText)
    ensures t.UnderASecond? <==> seconds < 1.0
    ensures t.Seconds? <==> 1.0 <= seconds < 60.0
    ensures t.Minutes? <==> 60.0 <= seconds < 3600.0
    ensures t.Hours? <==> seconds >= 3600.0
    ensures t.Seconds? ==> 1 <= t.seconds <= 60 && -0.5 < t.seconds as real - seconds <= 0.5
    ensures t.Minutes? ==>
              1 <= t.minutes <= 59 && 0 <= t.seconds <= 60 &&
              60.0 * t.minutes as real <= seconds < 60.0 * (t.minutes + 1) as real &&
              -0.5 < t.seconds as real - (seconds - 60.0 * t.minutes as real) <= 0.5
    ensures t.Hours? ==>
              t.hours >= 1 && 0 <= t.minutes <= 59 &&
              3600.0 * t.hours as real + 60.0 * t.minutes as real <= seconds &&
              seconds < 3600.0 * t.hours as real + 60.0 * (t.minutes + 1) as real
  {
    if seconds < 1.0 then UnderASecond
    else if seconds < 60.0 then Seconds(RoundHalfUp(seconds))
    else if seconds < 3600.0 then
      var minutes := Floor(seconds / 60.0);
      assert minutes as real * 60.0 <= seconds;
      Minutes(minutes, RoundHalfUp(Remainder(seconds, 60.0)))
    else
      var hours := Floor(seconds / 3600.0);
      assert hours as real * 3600.0 <= seconds;
      var rest := Remainder(seconds, 3600.0);
      var minutes := Floor(rest / 60.0);
      assert minutes as real * 60.0 <= rest;
      Hours(hours, minutes)
  }

  /** The text `formatTime` builds from its fields. */
  function RenderTime(t: TimeText): string {
    match t
    case UnderASecond => "Less than a second"
    case Seconds(s) => IntToString(s) + " seconds"
    case Minutes(m, s) => IntToString(m) + ":" + PadStart2(IntToString(s)) + " minutes"
    case Hours(h, m) => IntToString(h) + ":" + PadStart2(IntToString(m)) + " hours"
  }

  /** `formatTime(seconds)`. */
  function FormatTime(seconds: real): string {
    RenderTime(TimeFields(seconds))
  }

  /** `s` ends with `suffix`. */
  predicate EndsWith(s: string, suffix: string) {
    |suffix| <= |s| && s[|s| - |suffix|..] == suffix
  }

  /** Which of the four endings of `formatTime` a text carries, when it is
      some head followed by one of the unit words. */
  lemma EndingOf(head: string, word: string)
    requires word == " seconds" || word == " minutes" || (word == " hours" && |head| >= 2)
    ensures var s := head + word;
            && s != "Less than a second"
            && (EndsWith(s, " seconds") <==> word == " seconds")
            && (EndsWith(s, " minutes") <==> word == " minutes")
            && (EndsWith(s, " hours") <==> word == " hours")
  {
    var s := head + word;
    assert s[|s| - 1] == 's';
    assert s[|s| - 6..] == word[|word| - 6..];
    if word == " hours" {
      assert s[|s| - 8..] == head[|head| - 2..] + word;
      assert s[|s| - 6] == ' ';
    } else {
      assert s[|s| - 8..] == word;
      assert s[|s| - 7] == word[1] && s[|s| - 6] == word[2];
    }
  }

  /** The unit word `formatTime` ends with follows the thresholds 1, 60 and
      3600 seconds, in both directions. */
  lemma FormatTimeUnitWord(seconds: real)
    ensures FormatTime(seconds) == "Less than a second" <==> seconds < 1.0
    ensures EndsWith(FormatTime(seconds), " seconds") <==> 1.0 <= seconds < 60.0
    ensures EndsWith(FormatTime(seconds), " minutes") <==> 60.0 <= seconds < 3600.0
    ensures EndsWith(FormatTime(seconds), " hours") <==> seconds >= 3600.0
  {
    match TimeFields(seconds)
    case UnderASecond =>
      var s := FormatTime(seconds);
      assert s[|s| - 1] == 'd';
    case Seconds(n) =>
      EndingOf(IntToString(n), " seconds");
    case Minutes(m, r) =>
      EndingOf(IntToString(m) + ":" + PadStart2(IntToString(r)), " minutes");
    case Hours(h, m) =>
      EndingOf(IntToString(h) + ":" + PadStart2(IntToString(m)), " hours");
  }

  lemma FormatTimeExamples()
    ensures FormatTime(0.5) == "Less than a second"
    ensures FormatTime(65.0) == "1:05 minutes"
    ensures FormatTime(3700.0) == "1:01 hours"
  {
    assert TimeFields(65.0) == Minutes(1, 5);
    assert TimeFields(3700.0) == Hours(1, 1);
  }

  /** Just under two minutes the seconds field rounds up to 60 instead of
      carrying into the minutes. */
  lemma FormatTimeSixtySeconds()
    ensures TimeFields(119.6) == Minutes(1, 60)
    ensures FormatTime(119.6) == "1:60 minutes"
  {
    assert TimeFields(119.6) == Minutes(1, 60);
    assert NatToString(60) == "60";
  }
}
