/**
 Decimal rendering of numbers and the three file-name shapes the downloader
 builds: `<category>_<YYYYMMDD><ext>` for a daily file, `<category>_<year>.zip`
 for an annual archive and `<key>_<YYYYMM>.zip` for a monthly archive.
 */
module Naming {
  import opened Calendar

  /** The tail every archive name ends with. */
  const ArchiveExt: string := ".zip"

  predicate IsDigit(c: char) {
    '0' <= c <= '9'
  }

  predicate AllDigits(s: string) {
    forall i :: 0 <= i < |s| ==> IsDigit(s[i])
  }

  function DigitChar(k: nat): (c: char)
    requires k < 10
    ensures IsDigit(c)
  {
    ('0' as int + k) as char
  }

  function DigitValue(c: char): (k: nat)
    requires IsDigit(c)
    ensures k < 10
  {
    c as int - '0' as int
  }

  function Pow10(w: nat): (p: nat)
    ensures p >= 1
  {
    if w == 0 then 1 else 10 * Pow10(w - 1)
  }

  /** The number a string of decimal digits denotes. */
  function ValueOf(s: string): nat
    requires AllDigits(s)
  {
    if s == [] then 0 else 10 * ValueOf(s[..|s| - 1]) + DigitValue(s[|s| - 1])
  }

  /**
   The last `w` decimal digits of `n`, padded on the left with zeros: what
   `strftime` writes for `%Y` (w = 4), `%m` and `%d` (w = 2).
   */
  function Digits(n: nat, w: nat): (s: string)
    ensures |s| == w && AllDigits(s)
  {
    if w == 0 then [] else Digits(n / 10, w - 1) + [DigitChar(n % 10)]
  }

  /** A number below 10^w survives a round trip through its w-digit rendering. */
  lemma {:induction false} DigitsRoundTrip(n: nat, w: nat)
    requires n < Pow10(w)
    ensures ValueOf(Digits(n, w)) == n
  {
    if w > 0 {
      assert n / 10 < Pow10(w - 1);
      DigitsRoundTrip(n / 10, w - 1);
      var s := Digits(n, w);
      assert s[..|s| - 1] == Digits(n / 10, w - 1);
    }
  }

  /** Zero padding never maps two numbers in range to the same digits. */
  lemma DigitsInjective(a: nat, b: nat, w: nat)
    requires a < Pow10(w) && b < Pow10(w)
    requires Digits(a, w) == Digits(b, w)
    ensures a == b
  {
    DigitsRoundTrip(a, w);
    DigitsRoundTrip(b, w);
  }

  /** `str(n)`: the decimal digits of n without padding. */
  function Decimal(n: nat): (s: string)
    ensures 1 <= |s| && AllDigits(s)
  {
    if n < 10 then [DigitChar(n)] else Decimal(n / 10) + [DigitChar(n % 10)]
  }

  /** `str(n)` reads back as n. */
  lemma {:induction false} DecimalRoundTrip(n: nat)
    ensures ValueOf(Decimal(n)) == n
  {
    if n >= 10 {
      DecimalRoundTrip(n / 10);
      var s := Decimal(n);
      assert s[..|s| - 1] == Decimal(n / 10);
    }
  }

  /** A number with exactly w digits prints the same with or without padding. */
  lemma {:induction false} DecimalIsPadded(n: nat, w: nat)
    requires 1 <= w && Pow10(w - 1) <= n < Pow10(w)
    ensures Decimal(n) == Digits(n, w)
  {
    if w > 1 {
      assert Pow10(w - 2) <= n / 10 < Pow10(w - 1);
      DecimalIsPadded(n / 10, w - 1);
    }
  }

  /** Years the four-digit formats render exactly. */
  predicate FourDigitYear(y: nat) {
    1000 <= y <= 9999
  }

  /** `strftime('%Y%m%d')`. */
  function YearMonthDay(d: Date): (s: string)
    ensures |s| == 8 && AllDigits(s)
  {
    Digits(d.year, 4) + Digits(d.month, 2) + Digits(d.day, 2)
  }

  /** `strftime('%Y%m')`. */
  function YearMonth(y: nat, m: nat): (s: string)
    ensures |s| == 6 && AllDigits(s)
  {
    Digits(y, 4) + Digits(m, 2)
  }

  /** The name of one part of a daily file. */
  function DailyName(category: string, d: Date, ext: string): string {
    category + "_" + YearMonthDay(d) + ext
  }

  /** The name of a year's archive; the year is printed with `str`. */
  function AnnualName(category: string, y: nat): string {
    category + "_" + Decimal(y) + ArchiveExt
  }

  /** The name of a month's archive. */
  function MonthlyName(key: string, y: nat, m: nat): string {
    key + "_" + YearMonth(y, m) + ArchiveExt
  }

  /** A daily name is the category, `_`, eight digits and the part suffix. */
  lemma DailyNameShape(category: string, d: Date, ext: string)
    ensures var name := DailyName(category, d, ext);
      && |name| == |category| + 9 + |ext|
      && name[..|category| + 1] == category + "_" && name[|category| + 9..] == ext
      && AllDigits(name[|category| + 1..|category| + 9])
  {
    var name := DailyName(category, d, ext);
    assert name[|category| + 1..|category| + 9] == YearMonthDay(d);
  }

  /** An annual name is the category, `_`, the year in decimal, which reads back as the year, and `.zip`. */
  lemma AnnualNameShape(category: string, y: nat)
    ensures var name := AnnualName(category, y);
      && |name| == |category| + 1 + |Decimal(y)| + 4
      && name[..|category| + 1] == category + "_" && name[|name| - 4..] == ArchiveExt
      && AllDigits(name[|category| + 1..|name| - 4]) && ValueOf(name[|category| + 1..|name| - 4]) == y
  {
    DecimalRoundTrip(y);
    var name := AnnualName(category, y);
    assert name[|category| + 1..|name| - 4] == Decimal(y);
  }

  /** A monthly name is the key, `_`, six digits and `.zip`. */
  lemma MonthlyNameShape(key: string, y: nat, m: nat)
    ensures var name := MonthlyName(key, y, m);
      && |name| == |key| + 11
      && name[..|key| + 1] == key + "_" && name[|key| + 7..] == ArchiveExt
      && AllDigits(name[|key| + 1..|key| + 7])
  {
    var name := MonthlyName(key, y, m);
    assert name[|key| + 1..|key| + 7] == YearMonth(y, m);
  }

  /** Splitting a concatenation at a known length recovers both parts. */
  lemma SplitAt(a: string, b: string, c: string, d: string)
    requires |a| == |c| && a + b == c + d
    ensures a == c && b == d
  {
    assert a == (a + b)[..|a|];
    assert c == (c + d)[..|c|];
    assert b == (a + b)[|a|..];
    assert d == (c + d)[|c|..];
  }

  /** The eight digits of `%Y%m%d` determine the date. */
  lemma YearMonthDayInjective(a: Date, b: Date)
    requires FourDigitYear(a.year) && FourDigitYear(b.year) && Valid(a) && Valid(b)
    requires YearMonthDay(a) == YearMonthDay(b)
    ensures a == b
  {
    SplitAt(Digits(a.year, 4) + Digits(a.month, 2), Digits(a.day, 2),
            Digits(b.year, 4) + Digits(b.month, 2), Digits(b.day, 2));
    SplitAt(Digits(a.year, 4), Digits(a.month, 2), Digits(b.year, 4), Digits(b.month, 2));
    assert Pow10(4) == 10000 && Pow10(2) == 100;
    DigitsInjective(a.year, b.year, 4);
    DigitsInjective(a.month, b.month, 2);
    DigitsInjective(a.day, b.day, 2);
  }

  /** The six digits of `%Y%m` determine the year and the month. */
  lemma YearMonthInjective(y1: nat, m1: nat, y2: nat, m2: nat)
    requires FourDigitYear(y1) && FourDigitYear(y2) && 1 <= m1 <= 12 && 1 <= m2 <= 12
    requires YearMonth(y1, m1) == YearMonth(y2, m2)
    ensures y1 == y2 && m1 == m2
  {
    SplitAt(Digits(y1, 4), Digits(m1, 2), Digits(y2, 4), Digits(m2, 2));
    assert Pow10(4) == 10000 && Pow10(2) == 100;
    DigitsInjective(y1, y2, 4);
    DigitsInjective(m1, m2, 2);
  }

  /** A four-digit year prints as four digits, so `str(year)` is `%Y`. */
  lemma FourDigitYearDecimal(y: nat)
    requires FourDigitYear(y)
    ensures Decimal(y) == Digits(y, 4)
  {
    assert Pow10(3) == 1000 && Pow10(4) == 10000;
    DecimalIsPadded(y, 4);
  }
}
