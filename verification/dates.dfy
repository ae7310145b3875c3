/** Calendar dates of the analysis window and their "YYYY-MM" rendering
    (`strftime("%Y-%m")`), with the parse that inverts it. */
module Dates {
  import opened Wrappers
  import opened Text

  /** The years a calendar date can carry. */
  const MinDateYear := 1
  const MaxDateYear := 9999

  predicate IsDateYear(year: int) {
    MinDateYear <= year <= MaxDateYear
  }

  datatype Date = Date(year: int, month: int, day: int)

  /** Chronological order of dates. */
  predicate Before(a: Date, b: Date) {
    a.year < b.year
    || (a.year == b.year && a.month < b.month)
    || (a.year == b.year && a.month == b.month && a.day < b.day)
  }

  predicate IsDigit(c: char) {
    '0' <= c <= '9'
  }

  function DigitChar(d: int): (c: char)
    requires 0 <= d < 10
    ensures IsDigit(c) && c as int - '0' as int == d
  {
    ('0' as int + d) as char
  }

  function Power10(width: nat): (p: nat)
    ensures p >= 1
  {
    if width == 0 then 1 else 10 * Power10(width - 1)
  }

  /** `n` written with exactly `width` decimal digits, zero-padded. */
  function Digits(n: nat, width: nat): (s: string)
    requires n < Power10(width)
    ensures |s| == width
    ensures forall i :: 0 <= i < |s| ==> IsDigit(s[i])
  {
    if width == 0 then ""
    else Digits(n / 10, width - 1) + [DigitChar(n % 10)]
  }

  /** The number a string of decimal digits spells. */
  function DigitsValue(s: string): int
    requires forall i :: 0 <= i < |s| ==> IsDigit(s[i])
  {
    if |s| == 0 then 0
    else DigitsValue(s[..|s| - 1]) * 10 + (s[|s| - 1] as int - '0' as int)
  }

  lemma {:induction false} DigitsRoundTrip(n: nat, width: nat)
    requires n < Power10(width)
    ensures DigitsValue(Digits(n, width)) == n
  {
    if width > 0 {
      DigitsRoundTrip(n / 10, width - 1);
      var s := Digits(n, width);
      assert s[..|s| - 1] == Digits(n / 10, width - 1);
    }
  }

  /** "YYYY-MM". */
  function FormatYearMonth(year: int, month: int): (s: string)
    requires 0 <= year <= MaxDateYear && 1 <= month <= 12
    ensures |s| == 7 && s[4] == '-'
  {
    Digits(year, 4) + "-" + Digits(month, 2)
  }

  function ParseYearMonth(s: string): Option<(int, int)> {
    if |s| == 7 && s[4] == '-'
       && (forall i :: 0 <= i < 4 ==> IsDigit(s[i]))
       && (forall i :: 5 <= i < 7 ==> IsDigit(s[i]))
    then Some((DigitsValue(s[..4]), DigitsValue(s[5..])))
    else None
  }

  lemma FormatYearMonthRoundTrip(year: int, month: int)
    requires 0 <= year <= MaxDateYear && 1 <= month <= 12
    ensures ParseYearMonth(FormatYearMonth(year, month)) == Some((year, month))
  {
    var s := FormatYearMonth(year, month);
    assert s[..4] == Digits(year, 4);
    assert s[5..] == Digits(month, 2);
    DigitsRoundTrip(year, 4);
    DigitsRoundTrip(month, 2);
  }

  /** Comparing two strings that start with equally long prefixes compares
      the prefixes first and the rests only on a tie. */
  lemma {:induction false} StrLessConcat(p1: string, s1: string, p2: string, s2: string)
    requires |p1| == |p2|
    ensures StrLess(p1 + s1, p2 + s2) <==> StrLess(p1, p2) || (p1 == p2 && StrLess(s1, s2))
  {
    if |p1| == 0 {
      assert p1 + s1 == s1 && p2 + s2 == s2;
    } else {
      assert (p1 + s1)[1..] == p1[1..] + s1;
      assert (p2 + s2)[1..] == p2[1..] + s2;
      StrLessConcat(p1[1..], s1, p2[1..], s2);
      if p1[0] == p2[0] && p1[1..] == p2[1..] {
        assert p1 == p2 by {
          assert p1 == [p1[0]] + p1[1..] && p2 == [p2[0]] + p2[1..];
        }
      }
    }
  }

  /** Zero-padded numerals of one width sort as the numbers do. */
  lemma {:induction false} DigitsOrder(a: nat, b: nat, width: nat)
    requires a < Power10(width) && b < Power10(width)
    ensures StrLess(Digits(a, width), Digits(b, width)) <==> a < b
  {
    if width == 0 {
    } else {
      DigitsOrder(a / 10, b / 10, width - 1);
      StrLessConcat(Digits(a / 10, width - 1), [DigitChar(a % 10)], Digits(b / 10, width - 1), [DigitChar(b % 10)]);
      if Digits(a / 10, width - 1) == Digits(b / 10, width - 1) {
        DigitsRoundTrip(a / 10, width - 1);
        DigitsRoundTrip(b / 10, width - 1);
      }
      assert StrLess([DigitChar(a % 10)], [DigitChar(b % 10)]) <==> a % 10 < b % 10 by {
        assert [DigitChar(a % 10)][1..] == [] && [DigitChar(b % 10)][1..] == [];
      }
      if a / 10 != b / 10 {
        StrLessIrreflexive(Digits(a / 10, width - 1));
      }
    }
  }

  /** "YYYY-MM" strings sort chronologically. */
  lemma FormatYearMonthOrder(y1: int, m1: int, y2: int, m2: int)
    requires 0 <= y1 <= MaxDateYear && 1 <= m1 <= 12
    requires 0 <= y2 <= MaxDateYear && 1 <= m2 <= 12
    ensures StrLess(FormatYearMonth(y1, m1), FormatYearMonth(y2, m2)) <==> y1 < y2 || (y1 == y2 && m1 < m2)
  {
    var a, b := Digits(y1, 4), Digits(y2, 4);
    var ra, rb := "-" + Digits(m1, 2), "-" + Digits(m2, 2);
    assert FormatYearMonth(y1, m1) == a + ra;
    assert FormatYearMonth(y2, m2) == b + rb;
    StrLessConcat(a, ra, b, rb);
    DigitsOrder(y1, y2, 4);
    StrLessConcat("-", Digits(m1, 2), "-", Digits(m2, 2));
    DigitsOrder(m1, m2, 2);
    StrLessIrreflexive("-");
    if a == b {
      DigitsRoundTrip(y1, 4);
      DigitsRoundTrip(y2, 4);
    }
  }
}
