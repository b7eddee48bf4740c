/**
  The rank label FormNumber of FortniteReplayHelper: the number followed by
  its English ordinal suffix, with one leading space below 10 so that ranks
  1 to 99 all take four characters (" 1st", "11th", "22nd"); zero and
  negative numbers are written plainly.
*/
module Ordinal {
  import opened Wrappers
  import opened Text

  function FormNumber(num: int): (r: string)
    ensures num <= 0 && IsInt32(num) ==> TryParseInt32(r) == Some(num)
    ensures num >= 1 ==> |r| >= 4 && (r[0] == ' ' <==> num < 10)
    ensures 1 <= num <= 99 ==> |r| == 4
  {
    if num <= 0 then
      assert IsInt32(num) ==> TryParseInt32(IntToString(num)) == Some(num) by {
        if IsInt32(num) { TryParseInt32OfToString(num); }
      }
      IntToString(num)
    else
      NatToStringDigits(num);
      var sp := if num < 10 then " " else "";
      if num % 100 == 11 || num % 100 == 12 || num % 100 == 13 then sp + NatToString(num) + "th"
      else if num % 10 == 1 then sp + NatToString(num) + "st"
      else if num % 10 == 2 then sp + NatToString(num) + "nd"
      else if num % 10 == 3 then sp + NatToString(num) + "rd"
      else sp + NatToString(num) + "th"
  }

  /**
    The English ordinal suffix as a reader finds it in the digits: a tens
    digit of 1 always gives "th" (11th, 112th); otherwise a units digit of
    1, 2 or 3 gives "st", "nd" or "rd", and any other digit "th".
  */
  function EnglishSuffix(digits: string): string
    requires |digits| >= 1
  {
    var units := digits[|digits| - 1];
    if |digits| >= 2 && digits[|digits| - 2] == '1' then "th"
    else if units == '1' then "st"
    else if units == '2' then "nd"
    else if units == '3' then "rd"
    else "th"
  }

  lemma LastTwoDigits(n: nat)
    ensures n % 100 == 10 * (n / 10 % 10) + n % 10
  {
    var q, r := n / 100, n % 100;
    assert n == 100 * q + r;
    assert n / 10 == 10 * q + r / 10;
    assert n % 10 == r % 10;
  }

  /** The suffix read from the digits is the one FormNumber picks from the remainders by 100 and by 10. */
  lemma SuffixOfDigits(n: nat)
    requires n >= 1
    ensures EnglishSuffix(NatToString(n)) ==
              if n % 100 == 11 || n % 100 == 12 || n % 100 == 13 then "th"
              else if n % 10 == 1 then "st"
              else if n % 10 == 2 then "nd"
              else if n % 10 == 3 then "rd"
              else "th"
  {
    var digits := NatToString(n);
    NatToStringDigits(n);
    LastTwoDigits(n);
    var tens, units := n / 10 % 10, n % 10;
    assert digits[|digits| - 1] == DigitChar(units);
    assert (|digits| >= 2 && digits[|digits| - 2] == '1') <==> n >= 10 && tens == 1 by {
      if n >= 10 {
        assert digits[|digits| - 2] == DigitChar(tens);
      }
    }
  }

  /** FormNumber agrees with the English rule applied to the decimal digits. */
  lemma FormNumberIsEnglishOrdinal(n: int)
    requires n >= 1
    ensures FormNumber(n) == (if n < 10 then " " else "") + NatToString(n) + EnglishSuffix(NatToString(n))
  {
    SuffixOfDigits(n);
  }

  /** Reads a rank label back: an optional leading space, decimal digits, a two-letter suffix. */
  function ParseOrdinal(s: string): Option<int>
  {
    var body := if |s| > 0 && s[0] == ' ' then s[1..] else s;
    if |body| >= 3 && body[|body| - 2..] in {"st", "nd", "rd", "th"} then
      match ParseNat(body[..|body| - 2])
      case Some(n) => Some(n)
      case None => None
    else None
  }

  /** A label made of an optional space, at least one digit and a known suffix reads back as its digits. */
  lemma ParseOrdinalOfParts(lead: string, digits: string, suffix: string)
    requires lead == " " || lead == ""
    requires |digits| >= 1 && AllDigits(digits)
    requires suffix in {"st", "nd", "rd", "th"}
    ensures ParseOrdinal(lead + digits + suffix) == ParseNat(digits)
  {
    var s := lead + digits + suffix;
    var body := if |s| > 0 && s[0] == ' ' then s[1..] else s;
    assert digits[0] != ' ';
    assert body == digits + suffix by {
      if lead == " " {
        assert s == " " + (digits + suffix);
      }
    }
    assert body[|body| - 2..] == suffix;
    assert body[..|body| - 2] == digits;
  }

  /** A positive rank label determines its number. */
  lemma FormNumberReadsBack(n: int)
    requires n >= 1
    ensures ParseOrdinal(FormNumber(n)) == Some(n)
  {
    FormNumberIsEnglishOrdinal(n);
    ParseNatToString(n);
    var digits := NatToString(n);
    ParseOrdinalOfParts(if n < 10 then " " else "", digits, EnglishSuffix(digits));
  }

  lemma FormNumberSmallExamples()
    ensures FormNumber(1) == " 1st" && FormNumber(2) == " 2nd" && FormNumber(3) == " 3rd" && FormNumber(4) == " 4th"
    ensures FormNumber(0) == "0" && FormNumber(-5) == "-5"
  {
  }

  lemma FormNumberTeenExamples()
    ensures FormNumber(11) == "11th" && FormNumber(12) == "12th" && FormNumber(13) == "13th"
  {
    assert NatToString(11) == "11";
    assert NatToString(12) == "12";
    assert NatToString(13) == "13";
  }

  lemma FormNumberTwentiesExamples()
    ensures FormNumber(21) == "21st" && FormNumber(22) == "22nd" && FormNumber(23) == "23rd"
  {
    assert NatToString(21) == "21";
    assert NatToString(22) == "22";
    assert NatToString(23) == "23";
  }

  lemma FormNumberHundredsExamples()
    ensures FormNumber(101) == "101st" && FormNumber(111) == "111th" && FormNumber(112) == "112th"
  {
    assert NatToString(10) == "10";
    assert NatToString(11) == "11";
    assert NatToString(101) == "101";
    assert NatToString(111) == "111";
    assert NatToString(112) == "112";
  }
}
