/** The content the transcript exporters build: the clock formatters, the
    speaker display names, and the plain-text, SubRip and JSON payloads.
    Only the content is modelled; the download is not. */
module Export {
  import opened Transcript

  // ------------------------------------------------------------ numbers

  /** `Math.trunc`. */
  function Trunc(y: real): int {
    if y >= 0.0 then y.Floor else -((-y).Floor)
  }

  /** JavaScript `x % m` for a positive divisor: the remainder takes the
      sign of `x`. */
  function JsRem(x: real, m: real): real
    requires m > 0.0
  {
    x - m * Trunc(x / m) as real
  }

  /** `Math.round`: halves round up. */
  function Round(x: real): int {
    (x + 0.5).Floor
  }

  lemma DivBounds(x: real, a: real, b: real, m: real)
    requires m > 0.0 && a * m <= x < b * m
    ensures a <= x / m < b
  {
  }

  /** Flooring a quotient by a whole divisor is integer division of the floor. */
  lemma FloorDiv(x: real, m: nat)
    requires x >= 0.0 && m > 0
    ensures (x / m as real).Floor == x.Floor / m
  {
    var n := x.Floor;
    var q := n / m;
    var mr := m as real;
    assert q * m <= n < q * m + m;
    assert (q * m) as real == q as real * mr;
    assert ((q + 1) * m) as real == (q + 1) as real * mr;
    DivBounds(x, q as real, (q + 1) as real, mr);
  }

  /** For a non-negative dividend the remainder is non-negative and its floor
      is the integer remainder of the floor. */
  lemma RemOfNonNegative(x: real, m: nat)
    requires x >= 0.0 && m > 0
    ensures 0.0 <= JsRem(x, m as real)
    ensures JsRem(x, m as real).Floor == x.Floor % m
  {
    FloorDiv(x, m);
    var n := x.Floor;
    assert n == (n / m) * m + n % m;
  }

  // ------------------------------------------------------------ strings

  function Digit(d: nat): char
    requires d < 10
  {
    (48 + d) as char
  }

  predicate IsDigit(c: char) {
    '0' <= c <= '9'
  }

  function DigitValue(c: char): int {
    c as int - 48
  }

  /** The decimal numeral of `n` (`n.toString()`). */
  function NatString(n: nat): (r: string)
    ensures |r| >= 1 && forall k :: 0 <= k < |r| ==> IsDigit(r[k])
    decreases n
  {
    if n < 10 then [Digit(n)] else NatString(n / 10) + [Digit(n % 10)]
  }

  /** `i.toString()` for an integer. */
  function IntString(i: int): string {
    if i < 0 then "-" + NatString(-i) else NatString(i)
  }

  /** The value of a string of decimal digits. */
  function ParseNat(s: string): int {
    if |s| == 0 then 0 else ParseNat(s[..|s| - 1]) * 10 + DigitValue(s[|s| - 1])
  }

  /** Reading a numeral back gives the number. */
  lemma {:induction false} NatStringRoundTrip(n: nat)
    ensures ParseNat(NatString(n)) == n
    decreases n
  {
    if n >= 10 {
      NatStringRoundTrip(n / 10);
      var s := NatString(n);
      assert s[..|s| - 1] == NatString(n / 10);
    }
  }

  /** Numerals of numbers below 10, 100 and 1000 have at most one, two and
      three digits. */
  lemma {:induction false} NatStringLength(n: nat)
    ensures n < 10 ==> |NatString(n)| == 1
    ensures n < 100 ==> |NatString(n)| <= 2
    ensures n < 1000 ==> |NatString(n)| <= 3
  {
    if n >= 10 {
      NatStringLength(n / 10);
    }
  }

  /** `s.padStart(width, c)`. */
  function PadStart(s: string, width: nat, c: char): (r: string)
    ensures |r| == if |s| >= width then |s| else width
  {
    if |s| >= width then s else seq(width - |s|, _ => c) + s
  }

  /** Leading zeros do not change the value of a numeral. */
  lemma {:induction false} LeadingZeros(z: string, s: string)
    requires forall k :: 0 <= k < |z| ==> z[k] == '0'
    ensures ParseNat(z + s) == ParseNat(s)
    decreases |s|
  {
    if |s| == 0 {
      assert z + s == z;
      ZerosParseToZero(z);
    } else {
      LeadingZeros(z, s[..|s| - 1]);
      assert (z + s)[..|z + s| - 1] == z + s[..|s| - 1];
    }
  }

  lemma {:induction false} ZerosParseToZero(z: string)
    requires forall k :: 0 <= k < |z| ==> z[k] == '0'
    ensures ParseNat(z) == 0
  {
    if |z| > 0 {
      ZerosParseToZero(z[..|z| - 1]);
    }
  }

  /** A zero-padded numeral reads back as the number and is all digits. */
  lemma PaddedRoundTrip(n: nat, width: nat)
    ensures ParseNat(PadStart(NatString(n), width, '0')) == n
    ensures forall k :: 0 <= k < |PadStart(NatString(n), width, '0')| ==> IsDigit(PadStart(NatString(n), width, '0')[k])
  {
    var s := NatString(n);
    NatStringRoundTrip(n);
    if |s| < width {
      LeadingZeros(seq(width - |s|, _ => '0'), s);
    }
  }

  // ------------------------------------------------------------- clocks

  /** `[hours, minutes, secs]` as formatTime and formatSRTTime compute them. */
  function Clock(seconds: real): (int, int, int) {
    ((seconds / 3600.0).Floor, (JsRem(seconds, 3600.0) / 60.0).Floor, JsRem(seconds, 60.0).Floor)
  }

  /** For a non-negative time, minutes and seconds are in 0..59 and the three
      fields add back up to the whole seconds. */
  lemma ClockSpec(seconds: real)
    requires seconds >= 0.0
    ensures var (h, m, s) := Clock(seconds);
      h >= 0 && 0 <= m <= 59 && 0 <= s <= 59 && h * 3600 + m * 60 + s == seconds.Floor
  {
    var n := seconds.Floor;
    FloorDiv(seconds, 3600);
    RemOfNonNegative(seconds, 3600);
    RemOfNonNegative(seconds, 60);
    FloorDiv(JsRem(seconds, 3600.0), 60);
    IntegerClock(n);
  }

  /** The same split on whole seconds. */
  lemma IntegerClock(n: nat)
    ensures 0 <= (n % 3600) / 60 <= 59 && 0 <= n % 60 <= 59
    ensures (n / 3600) * 3600 + ((n % 3600) / 60) * 60 + n % 60 == n
  {
    var r := n % 3600;
    var q := n / 3600;
    assert n == q * 3600 + r;
    assert r == (r / 60) * 60 + r % 60;
    assert n == (q * 60) * 60 + r;
    ModOfMultiple(q * 60, r, 60);
  }

  lemma ModOfMultiple(q: nat, r: nat, m: nat)
    requires m > 0
    ensures (q * m + r) % m == r % m
  {
    var a := q * m + r;
    assert r == (r / m) * m + r % m;
    assert a == (q + r / m) * m + r % m;
    DivModUnique(a, m, q + r / m, r % m);
  }

  /** Euclidean division has one quotient and remainder. */
  lemma DivModUnique(a: int, m: nat, q: int, r: int)
    requires m > 0 && 0 <= r < m && a == q * m + r
    ensures a / m == q && a % m == r
  {
    var q', r' := a / m, a % m;
    assert (q - q') * m == r' - r;
    if q - q' >= 1 {
      MulAtLeast(q - q', m);
    } else if q' - q >= 1 {
      MulAtLeast(q' - q, m);
    }
  }

  lemma MulAtLeast(k: int, m: nat)
    requires k >= 1
    ensures k * m >= m
  {
  }

  /** The formatTime template: `H:MM:SS` when there are hours, `M:SS`
      otherwise. */
  function ClockText(hours: int, minutes: int, secs: int): string {
    if hours > 0 then
      IntString(hours) + ":" + PadStart(IntString(minutes), 2, '0') + ":" + PadStart(IntString(secs), 2, '0')
    else IntString(minutes) + ":" + PadStart(IntString(secs), 2, '0')
  }

  /** formatTime. */
  function FormatTime(seconds: real): string {
    var (hours, minutes, secs) := Clock(seconds);
    ClockText(hours, minutes, secs)
  }

  lemma NoSeparatorInDigits(s: string)
    requires forall k :: 0 <= k < |s| ==> IsDigit(s[k])
    ensures ':' !in s && ',' !in s && '\n' !in s
  {
  }

  /** The fields of a zero-padded numeral of `n` below 10^width. */
  lemma Padded(n: nat, width: nat)
    requires 2 <= width <= 3 && (width == 2 ==> n < 100) && (width == 3 ==> n < 1000)
    ensures var p := PadStart(NatString(n), width, '0');
      |p| == width && ParseNat(p) == n && ':' !in p && ',' !in p && '\n' !in p
  {
    NatStringLength(n);
    PaddedRoundTrip(n, width);
    NoSeparatorInDigits(PadStart(NatString(n), width, '0'));
  }

  /** Minutes and seconds below 60 make a clock text whose ':'-separated
      fields read back as the hours (when there are any), the minutes and
      the seconds; every field after the first has two digits. */
  lemma ClockTextFields(hours: nat, minutes: nat, secs: nat)
    requires minutes < 60 && secs < 60
    ensures hours == 0 ==>
      && |Split(ClockText(hours, minutes, secs), ':')| == 2
      && |Split(ClockText(hours, minutes, secs), ':')[1]| == 2
      && ParseNat(Split(ClockText(hours, minutes, secs), ':')[0]) == minutes
      && ParseNat(Split(ClockText(hours, minutes, secs), ':')[1]) == secs
    ensures hours > 0 ==>
      && |Split(ClockText(hours, minutes, secs), ':')| == 3
      && |Split(ClockText(hours, minutes, secs), ':')[1]| == 2
      && |Split(ClockText(hours, minutes, secs), ':')[2]| == 2
      && ParseNat(Split(ClockText(hours, minutes, secs), ':')[0]) == hours
      && ParseNat(Split(ClockText(hours, minutes, secs), ':')[1]) == minutes
      && ParseNat(Split(ClockText(hours, minutes, secs), ':')[2]) == secs
  {
    Padded(minutes, 2);
    Padded(secs, 2);
    var pm, ps := PadStart(NatString(minutes), 2, '0'), PadStart(NatString(secs), 2, '0');
    SplitWithout(ps, ':');
    if hours == 0 {
      NatStringRoundTrip(minutes);
      NoSeparatorInDigits(NatString(minutes));
      SplitAfter(NatString(minutes), ':', ps);
    } else {
      NatStringRoundTrip(hours);
      NoSeparatorInDigits(NatString(hours));
      SplitAfter(pm, ':', ps);
      assert ClockText(hours, minutes, secs) == NatString(hours) + [':'] + (pm + [':'] + ps);
      SplitAfter(NatString(hours), ':', pm + [':'] + ps);
    }
  }

  /** A non-negative time is shown as `M:SS` below an hour and `H:MM:SS`
      from an hour on, and the fields add back up to its whole seconds. */
  lemma FormatTimeRoundTrip(seconds: real)
    requires seconds >= 0.0
    ensures seconds < 3600.0 ==>
      && |Split(FormatTime(seconds), ':')| == 2
      && |Split(FormatTime(seconds), ':')[1]| == 2
      && ParseNat(Split(FormatTime(seconds), ':')[0]) * 60
         + ParseNat(Split(FormatTime(seconds), ':')[1]) == seconds.Floor
    ensures seconds >= 3600.0 ==>
      && |Split(FormatTime(seconds), ':')| == 3
      && |Split(FormatTime(seconds), ':')[1]| == 2
      && |Split(FormatTime(seconds), ':')[2]| == 2
      && ParseNat(Split(FormatTime(seconds), ':')[0]) * 3600
         + ParseNat(Split(FormatTime(seconds), ':')[1]) * 60
         + ParseNat(Split(FormatTime(seconds), ':')[2]) == seconds.Floor
  {
    var (h, m, s) := Clock(seconds);
    ClockSpec(seconds);
    FloorDiv(seconds, 3600);
    ClockTextFields(h, m, s);
  }

  /** The formatSRTTime template: every field zero-padded, `HH:MM:SS,mmm`. */
  function SrtStamp(hours: int, minutes: int, secs: int, millis: int): string {
    PadStart(IntString(hours), 2, '0') + ":" + PadStart(IntString(minutes), 2, '0') + ":"
      + PadStart(IntString(secs), 2, '0') + "," + PadStart(IntString(millis), 3, '0')
  }

  /** `Math.floor((seconds % 1) * 1000)`. */
  function Millis(seconds: real): int {
    (JsRem(seconds, 1.0) * 1000.0).Floor
  }

  /** formatSRTTime. */
  function FormatSrtTime(seconds: real): string {
    var (hours, minutes, secs) := Clock(seconds);
    SrtStamp(hours, minutes, secs, Millis(seconds))
  }

  /** The milliseconds of a non-negative time are in 0..999 and are the
      thousandths of its fractional part. */
  lemma MillisSpec(seconds: real)
    requires seconds >= 0.0
    ensures 0 <= Millis(seconds) <= 999
    ensures Millis(seconds) == ((seconds - seconds.Floor as real) * 1000.0).Floor
  {
    assert seconds / 1.0 == seconds;
  }

  /** A SubRip stamp is its hours field, ':', its minutes field, ':' and
      the seconds and milliseconds fields joined by ','. */
  lemma SrtStampShape(hours: nat, minutes: nat, secs: nat, millis: nat)
    ensures SrtStamp(hours, minutes, secs, millis)
      == PadStart(NatString(hours), 2, '0') + [':'] + (PadStart(NatString(minutes), 2, '0') + [':']
         + (PadStart(NatString(secs), 2, '0') + [','] + PadStart(NatString(millis), 3, '0')))
  {
    var ph, pm := PadStart(NatString(hours), 2, '0'), PadStart(NatString(minutes), 2, '0');
    var ps, pms := PadStart(NatString(secs), 2, '0'), PadStart(NatString(millis), 3, '0');
    var tail := ps + [','] + pms;
    var x := ph + ":" + pm + ":";
    calc {
      SrtStamp(hours, minutes, secs, millis);
      x + ps + "," + pms;
      { Regroup(x, ps, ","); }
      x + (ps + ",") + pms;
      { Regroup(x, ps + ",", pms); }
      x + tail;
      { Regroup(ph + ":", pm, ":"); }
      (ph + ":") + (pm + ":") + tail;
      { Regroup(ph + ":", pm + ":", tail); }
      ph + [':'] + (pm + [':'] + tail);
    }
  }

  /** The fields of a SubRip stamp: it splits at ':' into three fields, the
      last of which splits at ',' into two; hours take at least two digits,
      minutes and seconds two, milliseconds three, and each reads back as
      its number. */
  lemma SrtStampFields(hours: nat, minutes: nat, secs: nat, millis: nat)
    requires minutes < 60 && secs < 60 && millis < 1000
    ensures |Split(SrtStamp(hours, minutes, secs, millis), ':')| == 3
    ensures |Split(SrtStamp(hours, minutes, secs, millis), ':')[0]| >= 2
    ensures |Split(SrtStamp(hours, minutes, secs, millis), ':')[1]| == 2
    ensures ParseNat(Split(SrtStamp(hours, minutes, secs, millis), ':')[0]) == hours
    ensures ParseNat(Split(SrtStamp(hours, minutes, secs, millis), ':')[1]) == minutes
    ensures Split(Split(SrtStamp(hours, minutes, secs, millis), ':')[2], ',')
      == [PadStart(NatString(secs), 2, '0'), PadStart(NatString(millis), 3, '0')]
    ensures ParseNat(PadStart(NatString(secs), 2, '0')) == secs
    ensures ParseNat(PadStart(NatString(millis), 3, '0')) == millis
    ensures |PadStart(NatString(secs), 2, '0')| == 2 && |PadStart(NatString(millis), 3, '0')| == 3
    ensures hours < 100 ==> |SrtStamp(hours, minutes, secs, millis)| == 12
  {
    var ph, pm := PadStart(NatString(hours), 2, '0'), PadStart(NatString(minutes), 2, '0');
    var ps, pms := PadStart(NatString(secs), 2, '0'), PadStart(NatString(millis), 3, '0');
    var tail := ps + [','] + pms;
    PaddedRoundTrip(hours, 2);
    NoSeparatorInDigits(ph);
    NatStringLength(hours);
    Padded(minutes, 2);
    Padded(secs, 2);
    Padded(millis, 3);
    SrtStampShape(hours, minutes, secs, millis);
    assert ':' !in tail;
    SplitThree(ph, pm, tail, ':');
    SplitTwo(ps, pms, ',');
  }

  /** A non-negative time's SubRip stamp splits at ':' into three fields and
      its last field at ',' into two; minutes and seconds take two digits
      and milliseconds three; the fields read back as the whole seconds and
      the thousandths of the fractional part. Below 100 hours the stamp is
      12 characters long. */
  lemma FormatSrtTimeRoundTrip(seconds: real)
    requires seconds >= 0.0
    ensures |Split(FormatSrtTime(seconds), ':')| == 3
    ensures |Split(FormatSrtTime(seconds), ':')[1]| == 2
    ensures |Split(Split(FormatSrtTime(seconds), ':')[2], ',')| == 2
    ensures |Split(Split(FormatSrtTime(seconds), ':')[2], ',')[0]| == 2
    ensures |Split(Split(FormatSrtTime(seconds), ':')[2], ',')[1]| == 3
    ensures ParseNat(Split(FormatSrtTime(seconds), ':')[0]) * 3600
      + ParseNat(Split(FormatSrtTime(seconds), ':')[1]) * 60
      + ParseNat(Split(Split(FormatSrtTime(seconds), ':')[2], ',')[0]) == seconds.Floor
    ensures ParseNat(Split(Split(FormatSrtTime(seconds), ':')[2], ',')[1])
      == ((seconds - seconds.Floor as real) * 1000.0).Floor
    ensures seconds < 360000.0 ==> |FormatSrtTime(seconds)| == 12
  {
    var (h, m, s) := Clock(seconds);
    ClockSpec(seconds);
    MillisSpec(seconds);
    FloorDiv(seconds, 3600);
    SrtStampFields(h, m, s, Millis(seconds));
  }

  // ------------------------------------------------------ speaker names

  const InterviewerName: string := "Интервьюер"
  const IntervieweeName: string := "Респондент"

  /** getSpeakerName: the display name of a diarization label. */
  function SpeakerName(speaker: string): string {
    if speaker == InterviewerLabel then InterviewerName
    else if speaker == IntervieweeLabel then IntervieweeName
    else speaker
  }

  /** A label is shown as the interviewer (interviewee) display name exactly
      when it is the interviewer (interviewee) label or already that name;
      any other label is shown as it is, so two labels other than the
      display names are shown alike only when they are equal. */
  lemma SpeakerNameSpec(a: string, b: string)
    ensures SpeakerName(a) == InterviewerName <==> a == InterviewerLabel || a == InterviewerName
    ensures SpeakerName(a) == IntervieweeName <==> a == IntervieweeLabel || a == IntervieweeName
    ensures a != InterviewerLabel && a != IntervieweeLabel ==> SpeakerName(a) == a
    ensures (a !in {InterviewerName, IntervieweeName} && b !in {InterviewerName, IntervieweeName}
      && SpeakerName(a) == SpeakerName(b)) ==> a == b
  {
  }

  /** `Math.round(x)` is within one half of `x`, and a confidence in [0, 1]
      is shown as a percentage in 0..100. */
  lemma RoundSpec(x: real)
    ensures -0.5 < Round(x) as real - x <= 0.5
    ensures 0.0 <= x <= 1.0 ==> 0 <= Round(x * 100.0) <= 100
  {
  }

  // --------------------------------------------------------- plain text

  /** The lines of a text, split at each line break. */
  function Lines(s: string): seq<string> {
    Split(s, '\n')
  }

  predicate OneLine(s: string) {
    '\n' !in s
  }

  /** Lines each followed by a line break. */
  function Terminated(lines: seq<string>): string {
    if |lines| == 0 then "" else lines[0] + "\n" + Terminated(lines[1..])
  }

  lemma {:induction false} TerminatedEndsWithBreak(lines: seq<string>)
    requires |lines| > 0
    ensures |Terminated(lines)| > 0 && Terminated(lines)[|Terminated(lines)| - 1] == '\n'
  {
    if |lines| > 1 {
      TerminatedEndsWithBreak(lines[1..]);
    }
  }

  /** Splitting terminated single lines at the line breaks gives the lines
      back, followed by the empty piece after the last break. */
  lemma {:induction false} TerminatedLines(lines: seq<string>)
    requires forall i :: 0 <= i < |lines| ==> OneLine(lines[i])
    ensures Lines(Terminated(lines)) == lines + [""]
  {
    if |lines| == 0 {
      SplitWithout("", '\n');
    } else {
      TerminatedLines(lines[1..]);
      SplitAfter(lines[0], '\n', Terminated(lines[1..]));
      assert lines == [lines[0]] + lines[1..];
    }
  }

  /** Terminating a concatenation terminates each part. */
  lemma {:induction false} TerminatedAppend(a: seq<string>, b: seq<string>)
    ensures Terminated(a + b) == Terminated(a) + Terminated(b)
  {
    if |a| == 0 {
      assert a + b == b;
    } else {
      var head, rest := a[0] + "\n", Terminated(a[1..]);
      assert a + b == [a[0]] + (a[1..] + b);
      TerminatedAppend(a[1..], b);
      calc {
        Terminated(a + b);
        head + Terminated(a[1..] + b);
        head + (rest + Terminated(b));
        (head + rest) + Terminated(b);
      }
    }
  }

  /** The lines of a sequence of blocks, one block after another. */
  function Flatten(blocks: seq<seq<string>>): seq<string> {
    if |blocks| == 0 then [] else Flatten(blocks[..|blocks| - 1]) + blocks[|blocks| - 1]
  }

  /** Blocks of `width` lines each: block k occupies lines width*k up to
      width*(k+1), and single lines stay single lines. */
  lemma {:induction false} FlattenUniform(blocks: seq<seq<string>>, width: nat)
    requires forall k :: 0 <= k < |blocks| ==> |blocks[k]| == width
    ensures |Flatten(blocks)| == width * |blocks|
    ensures forall k :: 0 <= k < |blocks| ==>
      width * k + width <= width * |blocks| && Flatten(blocks)[width * k..width * k + width] == blocks[k]
  {
    if |blocks| > 0 {
      var n := |blocks| - 1;
      var init := blocks[..n];
      FlattenUniform(init, width);
      assert Flatten(blocks) == Flatten(init) + blocks[n];
      assert blocks == init + [blocks[n]];
      UniformStep(Flatten(init), init, blocks[n], width);
    }
  }

  /** The step of FlattenUniform: one more block of `width` lines after
      `|init|` uniform blocks. */
  lemma UniformStep(g: seq<string>, init: seq<seq<string>>, last: seq<string>, width: nat)
    requires |last| == width && |g| == width * |init|
    requires forall k :: 0 <= k < |init| ==>
      width * k + width <= width * |init| && g[width * k..width * k + width] == init[k]
    ensures |g + last| == width * (|init| + 1)
    ensures forall k :: 0 <= k < |init| + 1 ==>
      width * k + width <= width * (|init| + 1) && (g + last)[width * k..width * k + width] == (init + [last])[k]
  {
    var n := |init|;
    MulSucc(n, width);
    forall k | 0 <= k < n + 1
      ensures width * k + width <= width * (n + 1) && (g + last)[width * k..width * k + width] == (init + [last])[k]
    {
      var lo := width * k;
      if k < n {
        assert lo + width <= |g| by {
          MulSucc(k, width);
          MulMonotone(k + 1, n, width);
        }
        SnocSlice(g, last, lo, width);
        assert (init + [last])[k] == init[k];
      } else {
        SnocSlice(g, last, lo, width);
      }
    }
  }

  /** A slice of `g + last` lies in `g`, or is `last` itself. */
  lemma SnocSlice<T>(g: seq<T>, last: seq<T>, lo: nat, w: nat)
    requires lo + w <= |g| || (lo == |g| && w == |last|)
    ensures lo + w <= |g| ==> (g + last)[lo..lo + w] == g[lo..lo + w]
    ensures lo == |g| && w == |last| ==> (g + last)[lo..lo + w] == last
  {
  }

  lemma MulSucc(k: nat, w: nat)
    ensures w * (k + 1) == w * k + w
  {
  }

  lemma MulMonotone(a: nat, b: nat, w: nat)
    requires a <= b
    ensures w * a <= w * b
  {
  }

  lemma {:induction false} FlattenOneLine(blocks: seq<seq<string>>)
    requires forall k, j :: 0 <= k < |blocks| && 0 <= j < |blocks[k]| ==> OneLine(blocks[k][j])
    ensures forall i :: 0 <= i < |Flatten(blocks)| ==> OneLine(Flatten(blocks)[i])
  {
    if |blocks| > 0 {
      FlattenOneLine(blocks[..|blocks| - 1]);
    }
  }

  /** Terminated blocks of single lines, `width` lines each, split back
      into the blocks' lines: block k at lines width*k up to width*(k+1),
      then one empty piece. */
  lemma TerminatedBlocks(blocks: seq<seq<string>>, width: nat)
    requires forall k :: 0 <= k < |blocks| ==> |blocks[k]| == width
    requires forall k, j :: 0 <= k < |blocks| && 0 <= j < |blocks[k]| ==> OneLine(blocks[k][j])
    ensures |Lines(Terminated(Flatten(blocks)))| == width * |blocks| + 1
    ensures Lines(Terminated(Flatten(blocks)))[width * |blocks|] == ""
    ensures forall k :: 0 <= k < |blocks| ==>
      width * k + width <= width * |blocks|
      && Lines(Terminated(Flatten(blocks)))[width * k..width * k + width] == blocks[k]
  {
    var f := Flatten(blocks);
    var lines := Lines(Terminated(f));
    assert lines == f + [""] by {
      FlattenOneLine(blocks);
      TerminatedLines(f);
    }
    FlattenUniform(blocks, width);
    BlocksBeforeEnd(f, blocks, width);
  }

  /** Appending the final empty piece keeps every block where it was. */
  lemma BlocksBeforeEnd(f: seq<string>, blocks: seq<seq<string>>, width: nat)
    requires |f| == width * |blocks|
    requires forall k :: 0 <= k < |blocks| ==>
      width * k + width <= width * |blocks| && f[width * k..width * k + width] == blocks[k]
    ensures forall k :: 0 <= k < |blocks| ==> (f + [""])[width * k..width * k + width] == blocks[k]
  {
    forall k | 0 <= k < |blocks|
      ensures (f + [""])[width * k..width * k + width] == blocks[k]
    {
      SliceOfAppend(f, [""], width * k, width * k + width);
    }
  }

  lemma SliceAfter<T>(a: seq<T>, b: seq<T>, i: nat, j: nat)
    requires i <= j <= |b|
    ensures (a + b)[|a| + i..|a| + j] == b[i..j]
  {
  }

  lemma SliceOfAppend<T>(a: seq<T>, b: seq<T>, i: nat, j: nat)
    requires i <= j <= |a|
    ensures (a + b)[i..j] == a[i..j]
  {
  }

  /** Rows whose label and text hold no line break. */
  predicate SingleLineRows(rows: seq<Row>) {
    forall i :: 0 <= i < |rows| ==> OneLine(rows[i].speakerLabel) && OneLine(rows[i].text)
  }

  /** `'='.repeat(80)`. */
  function Rule(): (r: string)
    ensures |r| == 80 && forall k :: 0 <= k < |r| ==> r[k] == '='
  {
    seq(80, _ => '=')
  }

  const CountCaption: string := "Всего сегментов: "

  /** The lines of the header exportToText writes before the entries. */
  function HeaderLines(filename: string, date: string, count: nat): seq<string> {
    ["Транскрипция: " + filename, "Дата: " + date, CountCaption + NatString(count), "", Rule(), ""]
  }

  /** The header as one string. */
  function TextHeader(filename: string, date: string, count: nat): string {
    Terminated(HeaderLines(filename, date, count))
  }

  /** The heading line of the entry of the row at `index`: its number from
      1, its time span, its speaker and its confidence as a percentage. */
  function Heading(index: nat, row: Row): string {
    "[" + NatString(index + 1) + "] " + TimeRange(row) + " | " + SpeakerName(row.speakerLabel) + " (" + Percent(row.confidence) + ")"
  }

  /** The time range of an entry: `start - end`. */
  function TimeRange(row: Row): string {
    FormatTime(row.startTime) + " - " + FormatTime(row.endTime)
  }

  /** A confidence as a rounded percentage. */
  function Percent(confidence: real): string {
    IntString(Round(confidence * 100.0)) + "%"
  }

  /** The lines of one entry: the heading, the text and a blank line. */
  function EntryLines(index: nat, row: Row): seq<string> {
    [Heading(index, row), row.text, ""]
  }

  /** The entry as one string. */
  function TextEntry(index: nat, row: Row): string {
    Terminated(EntryLines(index, row))
  }

  /** The entries of `rows`, in order. */
  function TextEntries(rows: seq<Row>): string {
    if |rows| == 0 then "" else TextEntries(rows[..|rows| - 1]) + TextEntry(|rows| - 1, rows[|rows| - 1])
  }

  /** The whole content exportToText downloads. */
  function TextContent(rows: seq<Row>, filename: string, date: string): string {
    TextHeader(filename, date, |rows|) + TextEntries(rows)
  }

  /** exportToText's content, built by appending one entry per row. */
  method ExportToText(rows: seq<Row>, filename: string, date: string) returns (content: string)
    ensures content == TextContent(rows, filename, date)
  {
    var entries := "";
    var i := 0;
    while i < |rows|
      invariant i <= |rows|
      invariant entries == TextEntries(rows[..i])
    {
      assert rows[..i + 1][..i] == rows[..i];
      entries := entries + TextEntry(i, rows[i]);
      i := i + 1;
    }
    assert rows[..i] == rows;
    content := TextHeader(filename, date, |rows|) + entries;
  }

  lemma NoBreakInNumeral(i: int)
    ensures OneLine(IntString(i)) && OneLine(PadStart(IntString(i), 2, '0')) && OneLine(PadStart(IntString(i), 3, '0'))
  {
    if i < 0 {
      NoSeparatorInDigits(NatString(-i));
    } else {
      NoSeparatorInDigits(NatString(i));
    }
  }

  lemma NoBreakInTimes(seconds: real)
    ensures OneLine(FormatTime(seconds)) && OneLine(FormatSrtTime(seconds))
  {
    var (h, m, s) := Clock(seconds);
    NoBreakInNumeral(h);
    NoBreakInNumeral(m);
    NoBreakInNumeral(s);
    NoBreakInNumeral(Millis(seconds));
  }

  lemma TimeRangeOneLine(row: Row)
    ensures OneLine(TimeRange(row))
  {
    var t0, t1 := FormatTime(row.startTime), FormatTime(row.endTime);
    NoBreakInTimes(row.startTime);
    NoBreakInTimes(row.endTime);
    assert TimeRange(row) == t0 + " - " + t1;
  }

  lemma HeadingOneLine(index: nat, row: Row)
    requires OneLine(row.speakerLabel)
    ensures OneLine(Heading(index, row))
  {
    var n, r, p := NatString(index + 1), TimeRange(row), Percent(row.confidence);
    var sp := SpeakerName(row.speakerLabel);
    NoSeparatorInDigits(n);
    TimeRangeOneLine(row);
    PercentOneLine(row.confidence);
    SpeakerNameOneLine(row.speakerLabel);
    var front := "[" + n + "] " + r;
    assert OneLine(front);
    assert Heading(index, row) == front + " | " + sp + " (" + p + ")";
  }

  /** A percentage holds no line break. */
  lemma PercentOneLine(confidence: real)
    ensures OneLine(Percent(confidence))
  {
    NoBreakInNumeral(Round(confidence * 100.0));
  }

  /** A display name holds a line break only when its label does. */
  lemma SpeakerNameOneLine(speaker: string)
    requires OneLine(speaker)
    ensures OneLine(SpeakerName(speaker))
  {
    if speaker == InterviewerLabel {
      assert SpeakerName(speaker) == InterviewerName;
    } else if speaker == IntervieweeLabel {
      assert SpeakerName(speaker) == IntervieweeName;
    }
  }

  /** Split into lines, an entry is its heading, its text and a blank line,
      followed by the empty piece after the closing line break. */
  lemma EntrySplit(index: nat, row: Row)
    requires OneLine(row.speakerLabel) && OneLine(row.text)
    ensures Lines(TextEntry(index, row)) == EntryLines(index, row) + [""]
  {
    HeadingOneLine(index, row);
    TerminatedLines(EntryLines(index, row));
  }

  /** Split into lines, the header is its six lines and a final empty piece. */
  lemma HeaderSplit(filename: string, date: string, count: nat)
    requires OneLine(filename) && OneLine(date)
    ensures Lines(TextHeader(filename, date, count)) == HeaderLines(filename, date, count) + [""]
  {
    NoSeparatorInDigits(NatString(count));
    assert OneLine(Rule());
    TerminatedLines(HeaderLines(filename, date, count));
  }

  /** The lines of every entry, entry after entry. */
  function EntryBlocks(rows: seq<Row>): seq<seq<string>> {
    seq(|rows|, k requires 0 <= k < |rows| => EntryLines(k, rows[k]))
  }

  /** The entries are their lines, each terminated. */
  lemma {:induction false} EntriesTerminated(rows: seq<Row>)
    ensures TextEntries(rows) == Terminated(Flatten(EntryBlocks(rows)))
  {
    if |rows| > 0 {
      var init := rows[..|rows| - 1];
      EntriesTerminated(init);
      assert EntryBlocks(rows)[..|rows| - 1] == EntryBlocks(init);
      TerminatedAppend(Flatten(EntryBlocks(init)), EntryLines(|init|, rows[|init|]));
    }
  }

  /** Split into lines, the entries of `rows` are the lines of each entry in
      row order, numbered from 1, followed by one empty piece. */
  lemma EntriesLayout(rows: seq<Row>)
    requires SingleLineRows(rows)
    ensures |Lines(TextEntries(rows))| == 3 * |rows| + 1 && Lines(TextEntries(rows))[3 * |rows|] == ""
    ensures forall k :: 0 <= k < |rows| ==> Lines(TextEntries(rows))[3 * k..3 * k + 3] == EntryLines(k, rows[k])
  {
    var blocks := EntryBlocks(rows);
    EntryBlocksOneLine(rows);
    EntriesTerminated(rows);
    TerminatedBlocks(blocks, 3);
    forall k | 0 <= k < |rows|
      ensures Lines(TextEntries(rows))[3 * k..3 * k + 3] == EntryLines(k, rows[k])
    {
      assert blocks[k] == EntryLines(k, rows[k]);
    }
  }

  /** Every entry is three lines, none holding a line break. */
  lemma EntryBlocksOneLine(rows: seq<Row>)
    requires SingleLineRows(rows)
    ensures forall k :: 0 <= k < |rows| ==> |EntryBlocks(rows)[k]| == 3
    ensures forall k, j :: 0 <= k < |rows| && 0 <= j < |EntryBlocks(rows)[k]| ==> OneLine(EntryBlocks(rows)[k][j])
  {
    forall k | 0 <= k < |rows| ensures OneLine(Heading(k, rows[k])) {
      HeadingOneLine(k, rows[k]);
    }
  }

  /** The layout of exportToText's content: the header's six lines (whose
      count line reads back as the number of rows, followed by the rule of
      80 '='), then three lines per row in row order, then one empty piece. */
  lemma TextLayout(rows: seq<Row>, filename: string, date: string)
    requires OneLine(filename) && OneLine(date) && SingleLineRows(rows)
    ensures |Lines(TextContent(rows, filename, date))| == 6 + 3 * |rows| + 1
    ensures Lines(TextContent(rows, filename, date))[..6] == HeaderLines(filename, date, |rows|)
    ensures ParseNat(Lines(TextContent(rows, filename, date))[2][|CountCaption|..]) == |rows|
    ensures Lines(TextContent(rows, filename, date))[4] == Rule()
    ensures forall k :: 0 <= k < |rows| ==>
      Lines(TextContent(rows, filename, date))[6 + 3 * k..9 + 3 * k] == EntryLines(k, rows[k])
    ensures Lines(TextContent(rows, filename, date))[6 + 3 * |rows|] == ""
  {
    HeaderThenEntries(rows, filename, date);
    EntriesLayout(rows);
    CountLineReads(filename, date, |rows|);
    AfterHeader(HeaderLines(filename, date, |rows|), Lines(TextEntries(rows)), rows);
  }

  /** Six header lines followed by the entries' lines: entry k sits six
      lines further down. */
  lemma AfterHeader(header: seq<string>, e: seq<string>, rows: seq<Row>)
    requires |header| == 6 && |e| == 3 * |rows| + 1 && e[3 * |rows|] == ""
    requires forall k :: 0 <= k < |rows| ==> e[3 * k..3 * k + 3] == EntryLines(k, rows[k])
    ensures |header + e| == 6 + 3 * |rows| + 1 && (header + e)[..6] == header
    ensures (header + e)[6 + 3 * |rows|] == ""
    ensures forall k :: 0 <= k < |rows| ==> (header + e)[6 + 3 * k..9 + 3 * k] == EntryLines(k, rows[k])
  {
    forall k | 0 <= k < |rows|
      ensures (header + e)[6 + 3 * k..9 + 3 * k] == EntryLines(k, rows[k])
    {
      SliceAfter(header, e, 3 * k, 3 * k + 3);
    }
  }

  /** The content's lines are the header's six lines, then the entries' lines. */
  lemma HeaderThenEntries(rows: seq<Row>, filename: string, date: string)
    requires OneLine(filename) && OneLine(date)
    ensures Lines(TextContent(rows, filename, date)) == HeaderLines(filename, date, |rows|) + Lines(TextEntries(rows))
  {
    HeaderSplit(filename, date, |rows|);
    TerminatedEndsWithBreak(HeaderLines(filename, date, |rows|));
    SplitConcat(TextHeader(filename, date, |rows|), TextEntries(rows), '\n');
  }

  /** The count line of the header reads back as the count. */
  lemma CountLineReads(filename: string, date: string, count: nat)
    ensures ParseNat(HeaderLines(filename, date, count)[2][|CountCaption|..]) == count
  {
    assert HeaderLines(filename, date, count)[2][|CountCaption|..] == NatString(count);
    NatStringRoundTrip(count);
  }

  // ------------------------------------------------------------ SubRip

  /** The time line of a block: `start --> end`. */
  function TimeSpan(row: Row): string {
    FormatSrtTime(row.startTime) + " --> " + FormatSrtTime(row.endTime)
  }

  /** The caption line of a block: `[speaker] text`. */
  function Caption(row: Row): string {
    "[" + SpeakerName(row.speakerLabel) + "] " + row.text
  }

  /** The lines of one block: the index from 1, the time span, the caption
      and a blank separator. */
  function BlockLines(index: nat, row: Row): seq<string> {
    [NatString(index + 1), TimeSpan(row), Caption(row), ""]
  }

  /** The block of the row at `index` as one string. */
  function SrtBlock(index: nat, row: Row): string {
    Terminated(BlockLines(index, row))
  }

  /** The whole content exportToSRT downloads. */
  function SrtContent(rows: seq<Row>): string {
    if |rows| == 0 then "" else SrtContent(rows[..|rows| - 1]) + SrtBlock(|rows| - 1, rows[|rows| - 1])
  }

  /** exportToSRT's content, built by appending one block per row. */
  method ExportToSrt(rows: seq<Row>) returns (content: string)
    ensures content == SrtContent(rows)
  {
    content := "";
    var i := 0;
    while i < |rows|
      invariant i <= |rows|
      invariant content == SrtContent(rows[..i])
    {
      assert rows[..i + 1][..i] == rows[..i];
      content := content + SrtBlock(i, rows[i]);
      i := i + 1;
    }
    assert rows[..i] == rows;
  }

  lemma TimeSpanOneLine(row: Row)
    ensures OneLine(TimeSpan(row))
  {
    var t0, t1 := FormatSrtTime(row.startTime), FormatSrtTime(row.endTime);
    NoBreakInTimes(row.startTime);
    NoBreakInTimes(row.endTime);
    assert TimeSpan(row) == t0 + " --> " + t1;
  }

  lemma CaptionOneLine(row: Row)
    requires OneLine(row.speakerLabel) && OneLine(row.text)
    ensures OneLine(Caption(row))
  {
    var sp := SpeakerName(row.speakerLabel);
    assert OneLine(sp);
    assert Caption(row) == "[" + sp + "] " + row.text;
  }

  lemma BlockSplit(index: nat, row: Row)
    requires OneLine(row.speakerLabel) && OneLine(row.text)
    ensures Lines(SrtBlock(index, row)) == BlockLines(index, row) + [""]
  {
    NoSeparatorInDigits(NatString(index + 1));
    TimeSpanOneLine(row);
    CaptionOneLine(row);
    TerminatedLines(BlockLines(index, row));
  }

  /** The lines of every block, block after block. */
  function SrtBlocks(rows: seq<Row>): seq<seq<string>> {
    seq(|rows|, k requires 0 <= k < |rows| => BlockLines(k, rows[k]))
  }

  /** The SubRip content is its blocks' lines, each terminated. */
  lemma {:induction false} SrtTerminated(rows: seq<Row>)
    ensures SrtContent(rows) == Terminated(Flatten(SrtBlocks(rows)))
  {
    if |rows| > 0 {
      var init := rows[..|rows| - 1];
      SrtTerminated(init);
      assert SrtBlocks(rows)[..|rows| - 1] == SrtBlocks(init);
      TerminatedAppend(Flatten(SrtBlocks(init)), BlockLines(|init|, rows[|init|]));
    }
  }

  lemma SrtBlocksOneLine(rows: seq<Row>)
    requires SingleLineRows(rows)
    ensures forall k, j :: 0 <= k < |rows| && 0 <= j < |SrtBlocks(rows)[k]| ==> OneLine(SrtBlocks(rows)[k][j])
  {
    forall k | 0 <= k < |rows|
      ensures forall j :: 0 <= j < |SrtBlocks(rows)[k]| ==> OneLine(SrtBlocks(rows)[k][j])
    {
      assert SrtBlocks(rows)[k] == BlockLines(k, rows[k]);
      BlockOneLine(k, rows[k]);
    }
  }

  /** No line of one subtitle block holds a line break. */
  lemma BlockOneLine(index: nat, row: Row)
    requires OneLine(row.speakerLabel) && OneLine(row.text)
    ensures forall j :: 0 <= j < |BlockLines(index, row)| ==> OneLine(BlockLines(index, row)[j])
  {
    TimeSpanOneLine(row);
    CaptionOneLine(row);
    NoSeparatorInDigits(NatString(index + 1));
  }

  /** The layout of exportToSRT's content: four lines per row in row order,
      block k numbered k + 1, then one empty piece. */
  lemma SrtLayout(rows: seq<Row>)
    requires SingleLineRows(rows)
    ensures |Lines(SrtContent(rows))| == 4 * |rows| + 1 && Lines(SrtContent(rows))[4 * |rows|] == ""
    ensures forall k :: 0 <= k < |rows| ==> Lines(SrtContent(rows))[4 * k..4 * k + 4] == BlockLines(k, rows[k])
  {
    var blocks := SrtBlocks(rows);
    SrtBlocksOneLine(rows);
    SrtTerminated(rows);
    TerminatedBlocks(blocks, 4);
    forall k | 0 <= k < |rows|
      ensures Lines(SrtContent(rows))[4 * k..4 * k + 4] == BlockLines(k, rows[k])
    {
      assert blocks[k] == BlockLines(k, rows[k]);
    }
  }

  /** The SubRip content is empty exactly when there are no rows. */
  lemma SrtContentEmpty(rows: seq<Row>)
    ensures SrtContent(rows) == "" <==> rows == []
  {
    if rows != [] {
      TerminatedEndsWithBreak(BlockLines(|rows| - 1, rows[|rows| - 1]));
    }
  }

  // -------------------------------------------------------------- JSON

  /** One entry of the exported JSON document. */
  datatype Entry = Entry(speaker: string, text: string, startTime: real, endTime: real, confidence: real)

  /** The object exportToJSON serialises. */
  datatype ExportData = ExportData(filename: string, exportDate: string, totalSegments: nat, transcriptions: seq<Entry>)

  /** exportToJSON's data: the segment count equals the number of entries,
      and entry i copies the speaker label, text, times and confidence of
      row i. */
  function JsonData(rows: seq<Row>, filename: string, exportDate: string): (d: ExportData)
    ensures d.filename == filename && d.exportDate == exportDate
    ensures d.totalSegments == |d.transcriptions| == |rows|
    ensures forall i :: 0 <= i < |rows| ==>
      d.transcriptions[i] == Entry(rows[i].speakerLabel, rows[i].text, rows[i].startTime, rows[i].endTime, rows[i].confidence)
  {
    ExportData(filename, exportDate, |rows|,
      seq(|rows|, i requires 0 <= i < |rows| =>
        Entry(rows[i].speakerLabel, rows[i].text, rows[i].startTime, rows[i].endTime, rows[i].confidence)))
  }
}
