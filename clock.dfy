/**
  Match-clock arithmetic of the report: the "mm:ss" elimination times, the
  user's offset in seconds, and the match-duration label.

  An elimination time parses as 00:mm:ss on some date; adding the offset with
  DateTime.AddSeconds may move to another hour or day, but "mm:ss" shows only
  the position within the hour. So a shifted time is the parsed number of
  seconds plus the offset, taken modulo 3600 (the remainder is never
  negative, which is what moving back across an hour boundary gives).
*/
module Clock {
  import opened Wrappers
  import opened Text

  const SecondsPerHour: nat := 3600

  /**
    DateTime.ParseExact(t, "mm:ss", null): exactly two digits of minutes, the
    time separator, exactly two digits of seconds, neither above 59. The
    result is the number of seconds into the hour; None stands for the
    FormatException.
  */
  function ParseMinSec(t: string): (r: Option<nat>)
    ensures r.Some? ==> r.value < SecondsPerHour
  {
    if |t| == 5 && AllDigits(t[..2]) && t[2] == ':' && AllDigits(t[3..]) then
      var m, s := DigitsValue(t[..2]), DigitsValue(t[3..]);
      if m <= 59 && s <= 59 then Some(60 * m + s) else None
    else
      None
  }

  /** DateTime.ToString("mm:ss") of a time that lies `total` seconds into its hour. */
  function FormatMinSec(total: nat): (r: string)
    requires total < SecondsPerHour
    ensures |r| == 5
    ensures ParseMinSec(r) == Some(total)
  {
    var r := PadTwo(total / 60) + ":" + PadTwo(total % 60);
    assert r[..2] == PadTwo(total / 60) && r[3..] == PadTwo(total % 60);
    r
  }

  /** The value of AddSeconds(offset) as "mm:ss" shows it. */
  function ShiftTime(t: string, offset: int): (r: Option<string>)
    ensures r.Some? <==> ParseMinSec(t).Some?
    ensures r.Some? ==> ParseMinSec(r.value) == Some((ParseMinSec(t).value + offset) % SecondsPerHour)
  {
    match ParseMinSec(t)
    case None => None
    case Some(total) => Some(FormatMinSec((total + offset) % SecondsPerHour))
  }

  lemma TwoDigitsCanonical(s: string)
    requires |s| == 2 && AllDigits(s)
    ensures PadTwo(DigitsValue(s)) == s
  {
    var a, b := s[0] as int - '0' as int, s[1] as int - '0' as int;
    assert s[..1][..0] == [] && s[..1] == [s[0]];
    assert DigitsValue(s[..1]) == a;
    assert DigitsValue(s) == 10 * a + b;
    var n := 10 * a + b;
    assert n / 10 == a && n % 10 == b;
    if a == 0 {
      assert PadTwo(n) == "0" + [DigitChar(b)];
    } else {
      assert NatToString(n) == NatToString(a) + [DigitChar(b)];
      assert NatToString(a) == [DigitChar(a)];
    }
  }

  /** A time that parses is written back exactly as it was read. */
  lemma FormatParsed(t: string)
    requires ParseMinSec(t).Some?
    ensures FormatMinSec(ParseMinSec(t).value) == t
  {
    var m, s := DigitsValue(t[..2]), DigitsValue(t[3..]);
    TwoDigitsCanonical(t[..2]);
    TwoDigitsCanonical(t[3..]);
    var total := 60 * m + s;
    assert total / 60 == m && total % 60 == s;
    assert t == t[..2] + ":" + t[3..];
  }

  /** A zero offset leaves a well-formed time as it is. */
  lemma ShiftByZero(t: string)
    requires ParseMinSec(t).Some?
    ensures ShiftTime(t, 0) == Some(t)
  {
    FormatParsed(t);
  }

  lemma ModAdd(x: int, a: int, b: int)
    ensures ((x + a) % 3600 + b) % 3600 == (x + a + b) % 3600
  {
    var q := (x + a) / 3600;
    assert x + a == 3600 * q + (x + a) % 3600;
    assert (x + a + b) == ((x + a) % 3600 + b) + 3600 * q;
  }

  /** Shifting twice is shifting once by the sum of the offsets. */
  lemma ShiftCompose(t: string, a: int, b: int)
    requires ParseMinSec(t).Some?
    ensures ShiftTime(ShiftTime(t, a).value, b) == ShiftTime(t, a + b)
  {
    var x := ParseMinSec(t).value;
    ModAdd(x, a, b);
  }

  /** Shifting back by the same offset restores the recorded time. */
  lemma ShiftUndo(t: string, offset: int)
    requires ParseMinSec(t).Some?
    ensures ShiftTime(ShiftTime(t, offset).value, -offset) == Some(t)
  {
    ShiftCompose(t, offset, -offset);
    ShiftByZero(t);
  }

  lemma FormatExamples()
    ensures FormatMinSec(30) == "00:30"
    ensures FormatMinSec(35) == "00:35"
    ensures FormatMinSec(3590) == "59:50"
  {
    assert PadTwo(0) == "00";
    assert PadTwo(30) == "30" by { assert NatToString(30) == NatToString(3) + ['0']; }
    assert PadTwo(35) == "35" by { assert NatToString(35) == NatToString(3) + ['5']; }
    assert PadTwo(59) == "59" by { assert NatToString(59) == NatToString(5) + ['9']; }
    assert PadTwo(50) == "50" by { assert NatToString(50) == NatToString(5) + ['0']; }
  }

  /** An elimination at 00:30 is shown at 00:35 with an offset of 5 and at 59:50 with an offset of -40. */
  lemma ShiftExamples()
    ensures ShiftTime("00:30", 5) == Some("00:35")
    ensures ShiftTime("00:30", -40) == Some("59:50")
  {
    FormatExamples();
    assert ParseMinSec("00:30") == Some(30);
  }

  /**
    The duration label of RenderMatchResultFromTemplate: the whole minutes of
    the match (at least two digits, and more than 59 when the match is that
    long), a colon, and the two-digit seconds within the minute. Read back,
    the two numbers give exactly the whole seconds of the match.
  */
  function Duration(lengthInMs: nat): (r: string)
    ensures |r| >= 5 && r[|r| - 3] == ':'
    ensures ParseNat(r[..|r| - 3]) == Some(lengthInMs / 60000)
    ensures ParseNat(r[|r| - 2..]) == Some(lengthInMs / 1000 % 60)
    ensures 60 * (lengthInMs / 60000) + lengthInMs / 1000 % 60 == lengthInMs / 1000
  {
    var minutes, seconds := lengthInMs / 60000, lengthInMs / 1000 % 60;
    var k := lengthInMs / 1000;
    assert lengthInMs == 1000 * k + lengthInMs % 1000;
    assert k == 60 * (k / 60) + k % 60;
    assert lengthInMs == 60000 * (k / 60) + (1000 * (k % 60) + lengthInMs % 1000);
    assert minutes == k / 60;
    var r := PadTwo(minutes) + ":" + PadTwo(seconds);
    assert r[..|r| - 3] == PadTwo(minutes) && r[|r| - 2..] == PadTwo(seconds);
    r
  }
}
