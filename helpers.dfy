/** eporner_format_duration(): a number of seconds as "m:ss", or as
    "h:mm:ss" from one hour on. */
module Durations {
  import Text

  /** PHP's `%` on integers: the remainder takes the sign of the dividend. */
  function TruncMod(a: int, b: int): (r: int)
    requires b > 0
    ensures a >= 0 ==> 0 <= r < b && r == a % b
    ensures a < 0 ==> -b < r <= 0 && -r == (-a) % b
  {
    if a >= 0 then a % b else -((-a) % b)
  }

  /** floor($a / $b) for a positive divisor: Dafny's `/` already rounds
      down when the divisor is positive. */
  function FloorDiv(a: int, b: int): (q: int)
    requires b > 0
    ensures q * b <= a < q * b + b
  {
    a / b
  }

  function Hours(seconds: int): int { FloorDiv(seconds, 3600) }
  function Minutes(seconds: int): int { FloorDiv(TruncMod(seconds, 3600), 60) }
  function Secs(seconds: int): int { TruncMod(seconds, 60) }

  function FormatDuration(seconds: int): string
  {
    var hours := Hours(seconds);
    var minutes := Minutes(seconds);
    var secs := Secs(seconds);
    if hours > 0 then Text.IntToDecimal(hours) + ":" + Text.Pad2(minutes) + ":" + Text.Pad2(secs)
    else Text.IntToDecimal(minutes) + ":" + Text.Pad2(secs)
  }

  /** For a non-negative duration the three parts are whole hours, minutes
      below 60 and seconds below 60 that add up to the duration. */
  lemma Decomposition(seconds: int)
    requires seconds >= 0
    ensures Hours(seconds) * 3600 + Minutes(seconds) * 60 + Secs(seconds) == seconds
    ensures Hours(seconds) >= 0 && 0 <= Minutes(seconds) < 60 && 0 <= Secs(seconds) < 60
  {
    var h := seconds / 3600;
    var r := seconds % 3600;
    assert seconds == h * 3600 + r;
    var m := r / 60;
    assert r == m * 60 + r % 60;
    assert seconds % 60 == r % 60 by {
      assert seconds == (h * 60 + m) * 60 + r % 60;
    }
  }

  /** Below an hour the shape is "m:ss": the minutes, a colon and the
      seconds as two digits. */
  lemma ShortShape(seconds: int)
    requires 0 <= seconds < 3600
    ensures FormatDuration(seconds) == Text.IntToDecimal(Minutes(seconds)) + ":" + Text.Pad2(Secs(seconds))
    ensures |Text.Pad2(Secs(seconds))| == 2 && Text.AllDigits(Text.Pad2(Secs(seconds)))
  {
    Decomposition(seconds);
  }

  /** From an hour on the shape is "h:mm:ss", minutes and seconds as two
      digits each. */
  lemma LongShape(seconds: int)
    requires seconds >= 3600
    ensures FormatDuration(seconds) ==
      Text.IntToDecimal(Hours(seconds)) + ":" + Text.Pad2(Minutes(seconds)) + ":" + Text.Pad2(Secs(seconds))
    ensures |Text.Pad2(Minutes(seconds))| == 2 && |Text.Pad2(Secs(seconds))| == 2
  {
    Decomposition(seconds);
  }

  lemma Zero()
    ensures FormatDuration(0) == "0:00"
  {
    assert Text.Pad2(0) == "00";
  }

  /** Reading a duration back: the colon-separated numbers taken as digits
      in base 60. */
  function ReadDuration(t: string): int {
    ReadParts(Text.Split(t, ':'))
  }

  function ReadParts(parts: seq<string>): int {
    if |parts| == 0 then 0
    else ReadParts(parts[..|parts| - 1]) * 60 + Text.ParseIntPrefix(parts[|parts| - 1])
  }

  /** `%02d` of a number below 100 reads back as that number. */
  lemma Pad2Reads(n: int)
    requires 0 <= n < 100
    ensures Text.ParseIntPrefix(Text.Pad2(n)) == n && ':' !in Text.Pad2(n)
  {
    var p := Text.Pad2(n);
    Text.DigitRunOfDigits(p);
    assert Text.IsDigit(p[0]);
    assert forall i :: 0 <= i < |p| ==> p[i] != ':';
  }

  lemma {:induction false} DecimalReads(i: int)
    requires i >= 0
    ensures Text.ParseIntPrefix(Text.IntToDecimal(i)) == i && ':' !in Text.IntToDecimal(i)
  {
    Text.ParseIntOfDecimal(i);
    Text.DecimalHasNoSeparator(i, ':');
  }

  /** A formatted non-negative duration reads back as the same number of
      seconds. */
  lemma RoundTrip(seconds: int)
    requires seconds >= 0
    ensures ReadDuration(FormatDuration(seconds)) == seconds
  {
    Decomposition(seconds);
    if Hours(seconds) > 0 {
      LongRoundTrip(seconds);
    } else {
      ShortRoundTrip(seconds);
    }
  }

  /** "h:mm:ss" reads back as h * 3600 + mm * 60 + ss. */
  lemma LongRoundTrip(seconds: int)
    requires seconds >= 0 && Hours(seconds) > 0
    ensures ReadDuration(FormatDuration(seconds)) == Hours(seconds) * 3600 + Minutes(seconds) * 60 + Secs(seconds)
  {
    Decomposition(seconds);
    var h, m, s := Hours(seconds), Minutes(seconds), Secs(seconds);
    Pad2Reads(s);
    Pad2Reads(m);
    DecimalReads(h);
    var parts := [Text.IntToDecimal(h), Text.Pad2(m), Text.Pad2(s)];
    JoinThree(parts);
    Text.SplitJoin(parts, ':');
    ReadThree(parts);
  }

  lemma JoinThree(parts: seq<string>)
    requires |parts| == 3
    ensures Text.Join(parts, ":") == parts[0] + ":" + parts[1] + ":" + parts[2]
  {
    assert parts[1..][1..] == [parts[2]];
    assert Text.Join(parts[1..], ":") == parts[1] + ":" + parts[2];
  }

  lemma ReadThree(parts: seq<string>)
    requires |parts| == 3
    ensures ReadParts(parts) ==
      (Text.ParseIntPrefix(parts[0]) * 60 + Text.ParseIntPrefix(parts[1])) * 60 + Text.ParseIntPrefix(parts[2])
  {
    assert parts[..2][..1] == [parts[0]];
    assert parts[..2][..1][..0] == [];
  }

  /** "m:ss" reads back as m * 60 + ss. */
  lemma ShortRoundTrip(seconds: int)
    requires seconds >= 0 && Hours(seconds) <= 0
    ensures ReadDuration(FormatDuration(seconds)) == Minutes(seconds) * 60 + Secs(seconds)
  {
    Decomposition(seconds);
    var m, s := Minutes(seconds), Secs(seconds);
    Pad2Reads(s);
    DecimalReads(m);
    var parts := [Text.IntToDecimal(m), Text.Pad2(s)];
    assert Text.Join(parts, ":") == FormatDuration(seconds) by {
      assert parts[1..] == [Text.Pad2(s)];
    }
    Text.SplitJoin(parts, ':');
    assert parts[..1] == [Text.IntToDecimal(m)];
    assert parts[..1][..0] == [];
    assert ReadParts(parts[..1]) == m;
    assert ReadParts(parts) == m * 60 + s;
  }
}
