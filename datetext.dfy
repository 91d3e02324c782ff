/**
 * Decimal text of dates. The web client builds the request date as
 * `${year}-${month}-${day}` with month and day left-padded to two digits
 * (the full-date form of section 5.6 of RFC 3339); the API prints dates into
 * its error messages with the .NET custom format "yyyy-MM-dd". ParseDate is the
 * reading of that text back into a date.
 */
module DateText {
  import opened Wrappers
  import opened Calendar

  predicate IsDigit(c: char) {
    '0' <= c <= '9'
  }

  function DigitChar(n: int): (c: char)
    requires 0 <= n < 10
    ensures IsDigit(c) && DigitValue(c) == n
  {
    ('0' as int + n) as char
  }

  function DigitValue(c: char): int
    requires IsDigit(c)
  {
    c as int - '0' as int
  }

  /** Every character of `s` is a decimal digit. */
  predicate AllDigits(s: string) {
    |s| == 0 || (AllDigits(s[..|s| - 1]) && IsDigit(s[|s| - 1]))
  }

  /** The decimal numeral of `n` without leading zeros (JavaScript String(n), .NET n.ToString()). */
  function Decimal(n: nat): (s: string)
    ensures 1 <= |s| && AllDigits(s)
    ensures s[0] == '0' ==> n == 0
    ensures n < 10 <==> |s| == 1
    ensures n < 100 ==> |s| <= 2
    ensures s[|s| - 1] == DigitChar(n % 10)
  {
    if n < 10 then
      assert [DigitChar(n)][..0] == [];
      [DigitChar(n)]
    else
      var s := Decimal(n / 10) + [DigitChar(n % 10)];
      assert s[..|s| - 1] == Decimal(n / 10);
      s
  }

  /** Left-pads `s` with `c` up to `width` characters (JavaScript padStart; the minimum digit count of a .NET format). */
  function PadStart(s: string, width: nat, c: char): (r: string)
    ensures |r| == if |s| < width then width else |s|
    ensures r[|r| - |s|..] == s
    ensures forall i :: 0 <= i < |r| - |s| ==> r[i] == c
  {
    if |s| >= width then s else seq(width - |s|, _ => c) + s
  }

  /** Two-digit text of a month or day number below 100: String(n).padStart(2, '0'). */
  function TwoDigits(n: nat): (s: string)
    requires n < 100
    ensures s == [DigitChar(n / 10), DigitChar(n % 10)]
  {
    PaddedDigits(n);
    PadStart(Decimal(n), 2, '0')
  }

  lemma PaddedDigits(n: nat)
    requires n < 100
    ensures PadStart(Decimal(n), 2, '0') == [DigitChar(n / 10), DigitChar(n % 10)]
  {
    if n < 10 {
      PadOne(DigitChar(n));
    } else {
      assert Decimal(n) == [DigitChar(n / 10)] + [DigitChar(n % 10)];
    }
  }

  lemma PadOne(c: char)
    ensures PadStart([c], 2, '0') == ['0', c]
  {
  }

  /** The value of a non-empty run of digits, most significant first. */
  function DigitsValue(s: string): nat
    requires 1 <= |s| && AllDigits(s)
  {
    if |s| == 1 then DigitValue(s[0])
    else DigitsValue(s[..|s| - 1]) * 10 + DigitValue(s[|s| - 1])
  }

  /** A decimal numeral, leading zeros allowed; None unless `s` is one or more digits. */
  function ParseNumber(s: string): Option<nat> {
    if 1 <= |s| && AllDigits(s) then Some(DigitsValue(s)) else None
  }

  /** Dates whose month and day fit in two digits: every valid date, and all that the text below needs. */
  predicate Printable(d: Date) {
    0 <= d.year && 0 <= d.month < 100 && 0 <= d.day < 100
  }

  lemma ValidIsPrintable(d: Date)
    requires Valid(d)
    ensures Printable(d)
  {
  }

  /** The date of the request: `${year}-${MM}-${DD}` built from the date's UTC components. */
  function RequestDate(d: Date): string
    requires Printable(d)
  {
    Decimal(d.year) + ['-'] + TwoDigits(d.month) + ['-'] + TwoDigits(d.day)
  }

  /** The request date is the year's numeral, a dash, the 1-based month in two digits, a dash and the day in two digits. */
  lemma RequestDateShape(d: Date)
    requires Printable(d)
    ensures var s := RequestDate(d);
      |s| == |Decimal(d.year)| + 6
      && s[..|s| - 6] == Decimal(d.year)
      && s[|s| - 6] == '-' && s[|s| - 3] == '-'
      && s[|s| - 5..|s| - 3] == [DigitChar(d.month / 10), DigitChar(d.month % 10)]
      && s[|s| - 2..] == [DigitChar(d.day / 10), DigitChar(d.day % 10)]
  {
    DashedShape(RequestDate(d), Decimal(d.year), TwoDigits(d.month), TwoDigits(d.day));
  }

  lemma DashedShape(s: string, y: string, m: string, dd: string)
    requires |m| == 2 && |dd| == 2 && s == y + ['-'] + m + ['-'] + dd
    ensures |s| == |y| + 6 && s[..|s| - 6] == y && s[|s| - 6] == '-' && s[|s| - 3] == '-'
    ensures s[|s| - 5..|s| - 3] == m && s[|s| - 2..] == dd
  {
    assert s[..|y|] == y;
    assert s[|y| + 1..|y| + 3] == m;
    assert s[|y| + 4..] == dd;
  }

  /** The same date in the .NET custom format "yyyy-MM-dd": the year is padded to four digits. */
  function DotNetDate(d: Date): (s: string)
    requires Printable(d)
  {
    PadStart(Decimal(d.year), 4, '0') + "-" + TwoDigits(d.month) + "-" + TwoDigits(d.day)
  }

  /** For four-digit years the client's request date and the API's "yyyy-MM-dd" text coincide. */
  lemma FourDigitYearsAgree(d: Date)
    requires Printable(d) && 1000 <= d.year
    ensures RequestDate(d) == DotNetDate(d)
  {
    assert Pow10(3) == 1000;
    DecimalLength(d.year, 4);
  }

  lemma {:induction false} DecimalLength(n: nat, k: nat)
    requires 1 <= k
    ensures Pow10(k - 1) <= n ==> k <= |Decimal(n)|
  {
    if k > 1 && Pow10(k - 1) <= n {
      DecimalLength(n / 10, k - 1);
    }
  }

  function Pow10(k: nat): nat {
    if k == 0 then 1 else 10 * Pow10(k - 1)
  }

  /** Reads `<year>-<MM>-<DD>` back: the year is every digit before the last six characters. */
  function ParseDate(s: string): (r: Option<Date>)
    ensures r.Some? ==> |s| >= 7 && s[|s| - 6] == '-' && s[|s| - 3] == '-'
  {
    if |s| < 7 || s[|s| - 6] != '-' || s[|s| - 3] != '-' then None
    else
      match (ParseNumber(s[..|s| - 6]), ParseNumber(s[|s| - 5..|s| - 3]), ParseNumber(s[|s| - 2..]))
      case (Some(y), Some(m), Some(d)) => Some(Date(y, m, d))
      case _ => None
  }

  /** Reading the decimal numeral of `n` gives `n` back. */
  lemma {:induction false} DecimalRoundTrip(n: nat)
    ensures ParseNumber(Decimal(n)) == Some(n)
  {
    if n >= 10 {
      DecimalRoundTrip(n / 10);
      var s := Decimal(n);
      assert s[..|s| - 1] == Decimal(n / 10);
    }
  }

  lemma TwoDigitsRoundTrip(n: nat)
    requires n < 100
    ensures ParseNumber([DigitChar(n / 10), DigitChar(n % 10)]) == Some(n)
  {
    var s := [DigitChar(n / 10), DigitChar(n % 10)];
    assert AllDigits(s);
    assert s[..1] == [DigitChar(n / 10)];
    assert DigitsValue(s[..1]) == n / 10;
    assert DigitsValue(s) == (n / 10) * 10 + n % 10;
  }

  /** The request date of every printable (in particular every valid) date reads back as that date. */
  lemma RequestDateRoundTrip(d: Date)
    requires Printable(d)
    ensures ParseDate(RequestDate(d)) == Some(d)
  {
    var s := RequestDate(d);
    RequestDateShape(d);
    assert ParseNumber(s[..|s| - 6]) == Some(d.year) by {
      DecimalRoundTrip(d.year);
    }
    assert ParseNumber(s[|s| - 5..|s| - 3]) == Some(d.month) by {
      TwoDigitsRoundTrip(d.month);
    }
    assert ParseNumber(s[|s| - 2..]) == Some(d.day) by {
      TwoDigitsRoundTrip(d.day);
    }
    ParseDashed(s, d);
  }

  lemma ParseDashed(s: string, d: Date)
    requires |s| >= 7 && s[|s| - 6] == '-' && s[|s| - 3] == '-'
    requires Printable(d)
    requires ParseNumber(s[..|s| - 6]) == Some(d.year)
    requires ParseNumber(s[|s| - 5..|s| - 3]) == Some(d.month)
    requires ParseNumber(s[|s| - 2..]) == Some(d.day)
    ensures ParseDate(s) == Some(d)
  {
  }
}
