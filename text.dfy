/**
  The pieces of .NET text handling the report code relies on: the decimal
  rendering of integers (Int32.ToString and the "D2" format), Int32.TryParse,
  String.ToUpper on identifiers, and the white-space classes used by
  String.IsNullOrWhiteSpace and by number parsing.
*/
module Text {
  import opened Wrappers

  predicate IsDigit(c: char) { '0' <= c <= '9' }

  predicate AllDigits(s: string) { forall i :: 0 <= i < |s| ==> IsDigit(s[i]) }

  function DigitChar(d: nat): (c: char)
    requires d < 10
    ensures IsDigit(c) && c as int - '0' as int == d
  {
    ('0' as int + d) as char
  }

  /** The decimal digits of n, without leading zeros, as Int32.ToString() writes a non-negative value. */
  function NatToString(n: nat): (r: string)
    ensures |r| >= 1 && AllDigits(r)
    ensures r[0] == '0' <==> n == 0
    decreases n
  {
    if n < 10 then [DigitChar(n)] else NatToString(n / 10) + [DigitChar(n % 10)]
  }

  /** The value of a string of decimal digits; leading zeros are allowed. */
  function DigitsValue(s: string): nat
    requires AllDigits(s)
    decreases |s|
  {
    if s == [] then 0 else 10 * DigitsValue(s[..|s| - 1]) + (s[|s| - 1] as int - '0' as int)
  }

  /** Reads a non-empty string of decimal digits. */
  function ParseNat(s: string): (r: Option<nat>)
    ensures r.Some? <==> |s| > 0 && AllDigits(s)
  {
    if |s| > 0 && AllDigits(s) then Some(DigitsValue(s)) else None
  }

  /** Reading back the decimal rendering gives the number. */
  lemma {:induction false} ParseNatToString(n: nat)
    ensures ParseNat(NatToString(n)) == Some(n)
  {
    var s := NatToString(n);
    if n < 10 {
      assert s[..|s| - 1] == [];
      assert DigitsValue(s) == 10 * DigitsValue([]) + (s[0] as int - '0' as int);
    } else {
      ParseNatToString(n / 10);
      assert s[..|s| - 1] == NatToString(n / 10);
    }
  }

  /** The rendering has one digit below 10, two below 100 and more above; its last two digits are those of n. */
  lemma {:induction false} NatToStringDigits(n: nat)
    ensures var r := NatToString(n);
      && (n < 10 <==> |r| == 1)
      && (10 <= n < 100 <==> |r| == 2)
      && r[|r| - 1] == DigitChar(n % 10)
      && (n >= 10 ==> r[|r| - 2] == DigitChar(n / 10 % 10))
  {
    if n >= 10 {
      NatToStringDigits(n / 10);
    }
  }

  /** Int32.ToString("D2") of a non-negative value: at least two digits, zero-padded on the left. */
  function PadTwo(n: nat): (r: string)
    ensures |r| >= 2 && AllDigits(r)
    ensures n < 100 ==> |r| == 2
    ensures ParseNat(r) == Some(n)
  {
    ParseNatToString(n);
    NatToStringDigits(n);
    if n < 10 then
      var r := "0" + NatToString(n);
      assert r[..1][..0] == [] && r[..1] == "0";
      assert DigitsValue(r[..1]) == 0;
      assert DigitsValue(r) == 10 * DigitsValue(r[..1]) + n;
      r
    else NatToString(n)
  }

  const Int32Min: int := -0x8000_0000
  const Int32Max: int := 0x7FFF_FFFF

  predicate IsInt32(v: int) { Int32Min <= v <= Int32Max }

  /** Int32.ToString() with the invariant culture's "-" sign. */
  function IntToString(v: int): string
  {
    if v < 0 then "-" + NatToString(-v) else NatToString(v)
  }

  /** The white space that Int32.Parse skips around a number: U+0009 to U+000D and U+0020. */
  predicate IsNumberWhite(c: char) { c == ' ' || '\t' <= c <= '\r' }

  function TrimNumberWhiteStart(s: string): string
  {
    if s != [] && IsNumberWhite(s[0]) then TrimNumberWhiteStart(s[1..]) else s
  }

  function TrimNumberWhiteEnd(s: string): string
  {
    if s != [] && IsNumberWhite(s[|s| - 1]) then TrimNumberWhiteEnd(s[..|s| - 1]) else s
  }

  /**
    Int32.TryParse(s, out v) with NumberStyles.Integer: optional white space
    around an optional sign and one or more decimal digits whose value fits in
    32 bits. None stands for TryParse returning false (and for Int32.Parse
    throwing).
  */
  function TryParseInt32(s: string): (r: Option<int>)
    ensures r.Some? ==> IsInt32(r.value)
  {
    var t := TrimNumberWhiteEnd(TrimNumberWhiteStart(s));
    if |t| > 0 && (t[0] == '+' || t[0] == '-') then
      match ParseNat(t[1..])
      case None => None
      case Some(n) =>
        var v := if t[0] == '-' then -(n as int) else n as int;
        if IsInt32(v) then Some(v) else None
    else
      match ParseNat(t)
      case None => None
      case Some(n) => if IsInt32(n) then Some(n) else None
  }

  /** Every 32-bit value survives a round trip through its decimal text. */
  lemma TryParseInt32OfToString(v: int)
    requires IsInt32(v)
    ensures TryParseInt32(IntToString(v)) == Some(v)
  {
    var n: nat := if v < 0 then -v else v;
    ParseNatToString(n);
    NatToStringDigits(n);
    var s := IntToString(v);
    assert TrimNumberWhiteStart(s) == s;
    assert TrimNumberWhiteEnd(s) == s;
    if v < 0 {
      assert s[1..] == NatToString(n);
    }
  }

  /**
    Char.IsWhiteSpace: the Unicode space, line and paragraph separators
    (categories Zs, Zl, Zp) together with U+0009 to U+000D, U+0085 and U+00A0.
  */
  predicate IsWhiteSpace(c: char)
  {
    || c == ' ' || '\t' <= c <= '\r' || c == '\U{85}' || c == '\U{A0}' || c == '\U{1680}'
    || '\U{2000}' <= c <= '\U{200A}' || c == '\U{2028}' || c == '\U{2029}'
    || c == '\U{202F}' || c == '\U{205F}' || c == '\U{3000}'
  }

  /** String.IsNullOrWhiteSpace, with None for a null reference. */
  predicate IsNullOrWhiteSpace(s: Option<string>)
    ensures s.None? || s == Some("") ==> IsNullOrWhiteSpace(s)
    ensures IsNullOrWhiteSpace(s) <==> s.None? || forall c :: c in s.value ==> IsWhiteSpace(c)
  {
    s.None? || forall i :: 0 <= i < |s.value| ==> IsWhiteSpace(s.value[i])
  }

  /** Null, empty and all-blank values are blank; a value with any other character is not. */
  lemma BlankExamples()
    ensures IsNullOrWhiteSpace(None) && IsNullOrWhiteSpace(Some("")) && IsNullOrWhiteSpace(Some(" \t\r\n"))
    ensures !IsNullOrWhiteSpace(Some("en")) && !IsNullOrWhiteSpace(Some(" en "))
  {
    assert "en"[0] == 'e';
    assert " en "[1] == 'e';
  }

  /** Char.ToUpper on the ASCII letters, which is all that replay identifiers contain. */
  function UpperChar(c: char): char
  {
    if 'a' <= c <= 'z' then (c as int - 32) as char else c
  }

  /** String.ToUpper, letter by letter. */
  function ToUpper(s: string): (r: string)
    ensures |r| == |s|
    ensures forall i :: 0 <= i < |s| ==> r[i] == UpperChar(s[i])
  {
    seq(|s|, i requires 0 <= i < |s| => UpperChar(s[i]))
  }

  /** Appending is associative; stated once so that long string expressions need not be re-associated by the solver. */
  lemma AppendAssociates(a: string, b: string, c: string)
    ensures (a + b) + c == a + (b + c)
  {
  }
  /** The last |b| characters of a + b are b. */
  lemma SuffixOfAppend(a: string, b: string)
    ensures (a + b)[|a + b| - |b|..] == b
  {
  }


  predicate EndsWith(s: string, suffix: string)
  {
    |suffix| <= |s| && s[|s| - |suffix|..] == suffix
  }
}
