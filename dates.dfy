/** The import date of a product: a strict `DD/MM/YYYY` reader with a
    Gregorian calendar check, the canonical rendering of a date, and the
    "later than" comparison used by the future-date rule. */
module Dates {
  import opened Optional

  datatype Date = Date(day: int, month: int, year: int)

  /** Gregorian leap years: every fourth year, except centuries not divisible by 400. */
  predicate IsLeapYear(y: int) {
    (y % 4 == 0 && y % 100 != 0) || y % 400 == 0
  }

  function DaysInMonth(month: int, year: int): int
    requires 1 <= month <= 12
  {
    if month == 2 then (if IsLeapYear(year) then 29 else 28)
    else if month == 4 || month == 6 || month == 9 || month == 11 then 30
    else 31
  }

  /** A real calendar date whose year fits the four digits of the format. */
  predicate IsRealDate(d: Date) {
    && 0 <= d.year <= 9999
    && 1 <= d.month <= 12
    && 1 <= d.day <= DaysInMonth(d.month, d.year)
  }

  // ---------------------------------------------------------------------
  // Decimal digits

  predicate IsDigit(c: char) {
    '0' <= c <= '9'
  }

  predicate AllDigits(s: string) {
    forall i | 0 <= i < |s| :: IsDigit(s[i])
  }

  function DigitValue(c: char): int {
    c as int - '0' as int
  }

  function Pow10(n: nat): (p: nat)
    ensures p >= 1
  {
    if n == 0 then 1 else 10 * Pow10(n - 1)
  }

  function DigitChar(v: int): (c: char)
    requires 0 <= v <= 9
    ensures IsDigit(c)
  {
    ('0' as int + v) as char
  }

  /** The value of a run of decimal digits, most significant first. */
  function DecimalValue(s: string): (n: nat)
    requires AllDigits(s)
    ensures n < Pow10(|s|)
  {
    if s == [] then 0
    else DecimalValue(s[..|s| - 1]) * 10 + DigitValue(s[|s| - 1])
  }

  /** `n` written with exactly `width` digits, zero-padded on the left. */
  function Digits(n: nat, width: nat): (s: string)
    ensures |s| == width && AllDigits(s)
  {
    if width == 0 then [] else Digits(n / 10, width - 1) + [DigitChar(n % 10)]
  }

  lemma {:induction false} DecimalValueOfDigits(n: nat, width: nat)
    requires n < Pow10(width)
    ensures DecimalValue(Digits(n, width)) == n
  {
    if width > 0 {
      var s := Digits(n, width);
      DecimalValueOfDigits(n / 10, width - 1);
      assert s[..|s| - 1] == Digits(n / 10, width - 1);
    }
  }

  lemma TenfoldPlusDigit(a: nat, v: int)
    requires 0 <= v <= 9
    ensures (a * 10 + v) / 10 == a && (a * 10 + v) % 10 == v
  {
  }

  lemma {:induction false} DigitsOfDecimalValue(s: string)
    requires AllDigits(s)
    ensures Digits(DecimalValue(s), |s|) == s
  {
    if s != [] {
      var init := s[..|s| - 1];
      var v := DigitValue(s[|s| - 1]);
      assert IsDigit(s[|s| - 1]) && 0 <= v <= 9;
      DigitsOfDecimalValue(init);
      TenfoldPlusDigit(DecimalValue(init), v);
      assert DigitChar(v) == s[|s| - 1];
      assert Digits(DecimalValue(s), |s|) == Digits(DecimalValue(init), |s| - 1) + [DigitChar(v)];
      assert s == init + [s[|s| - 1]];
    }
  }

  // ---------------------------------------------------------------------
  // The strict reader and the canonical rendering

  /** The canonical `DD/MM/YYYY` text of a date. */
  function Format(d: Date): (s: string)
    requires IsRealDate(d)
    ensures |s| == 10
  {
    Digits(d.day, 2) + "/" + Digits(d.month, 2) + "/" + Digits(d.year, 4)
  }

  /** Strict `DD/MM/YYYY`: exactly two digits, a slash, two digits, a slash
      and four digits, nothing before or after, denoting a real date.
      Whatever it accepts is exactly the canonical text of the date it returns. */
  function ParseStrict(s: string): (r: Option<Date>)
    ensures r.Some? ==> IsRealDate(r.value) && Format(r.value) == s
  {
    if |s| == 10 && s[2] == '/' && s[5] == '/'
       && AllDigits(s[0..2]) && AllDigits(s[3..5]) && AllDigits(s[6..10])
    then
      var d := Date(DecimalValue(s[0..2]), DecimalValue(s[3..5]), DecimalValue(s[6..10]));
      if IsRealDate(d) then
        DigitsOfDecimalValue(s[0..2]);
        DigitsOfDecimalValue(s[3..5]);
        DigitsOfDecimalValue(s[6..10]);
        assert s == s[0..2] + "/" + s[3..5] + "/" + s[6..10];
        Some(d)
      else None
    else None
  }

  /** Every real date is read back from its canonical text. */
  lemma FormatThenParse(d: Date)
    requires IsRealDate(d)
    ensures ParseStrict(Format(d)) == Some(d)
  {
    var s := Format(d);
    assert s[0..2] == Digits(d.day, 2);
    assert s[3..5] == Digits(d.month, 2);
    assert s[6..10] == Digits(d.year, 4);
    DecimalValueOfDigits(d.day, 2);
    DecimalValueOfDigits(d.month, 2);
    DecimalValueOfDigits(d.year, 4);
  }

  /** The reader accepts a text exactly when it is the canonical text of a real date. */
  lemma ParseStrictCharacterised(s: string, d: Date)
    ensures ParseStrict(s) == Some(d) <==> IsRealDate(d) && Format(d) == s
  {
    if IsRealDate(d) && Format(d) == s {
      FormatThenParse(d);
    }
  }

  /** The 29th of February exists exactly in leap years. */
  lemma LeapDay(y: int)
    requires 0 <= y <= 9999
    ensures IsRealDate(Date(29, 2, y)) <==> IsLeapYear(y)
  {
  }

  lemma TwoDigitValue(s: string)
    requires |s| == 2 && AllDigits(s)
    ensures DecimalValue(s) == 10 * DigitValue(s[0]) + DigitValue(s[1])
  {
    assert s[..1][..0] == [];
  }

  lemma FourDigitValue(s: string)
    requires |s| == 4 && AllDigits(s)
    ensures DecimalValue(s) == 1000 * DigitValue(s[0]) + 100 * DigitValue(s[1]) + 10 * DigitValue(s[2]) + DigitValue(s[3])
  {
    assert s[..3][..2] == s[..2];
    TwoDigitValue(s[..2]);
  }

  /** The fields the reader takes from a well-shaped text, digit by digit. */
  lemma ParseFields(s: string)
    requires |s| == 10 && s[2] == '/' && s[5] == '/'
    requires IsDigit(s[0]) && IsDigit(s[1]) && IsDigit(s[3]) && IsDigit(s[4])
    requires IsDigit(s[6]) && IsDigit(s[7]) && IsDigit(s[8]) && IsDigit(s[9])
    ensures var d := Date(10 * DigitValue(s[0]) + DigitValue(s[1]),
                          10 * DigitValue(s[3]) + DigitValue(s[4]),
                          1000 * DigitValue(s[6]) + 100 * DigitValue(s[7]) + 10 * DigitValue(s[8]) + DigitValue(s[9]));
            ParseStrict(s) == if IsRealDate(d) then Some(d) else None
  {
    assert AllDigits(s[0..2]) && AllDigits(s[3..5]) && AllDigits(s[6..10]);
    TwoDigitValue(s[0..2]);
    TwoDigitValue(s[3..5]);
    FourDigitValue(s[6..10]);
  }

  /** February 2024 has no 31st day. */
  lemma NoThirtyFirstOfFebruary()
    ensures ParseStrict("31/02/2024") == None
  {
    ParseFields("31/02/2024");
  }

  /** 2023 is not a leap year. */
  lemma NoLeapDayIn2023()
    ensures ParseStrict("29/02/2023") == None
  {
    ParseFields("29/02/2023");
    assert 2023 % 4 == 3;
  }

  /** Single-digit fields, other separators and short years are refused. */
  lemma MalformedTexts()
    ensures ParseStrict("1/2/2024") == None
    ensures ParseStrict("01-02-2024") == None
    ensures ParseStrict("01/02/24") == None
  {
  }

  lemma LeapDayIn2024()
    ensures ParseStrict("29/02/2024") == Some(Date(29, 2, 2024))
  {
    ParseFields("29/02/2024");
    assert IsLeapYear(2024);
  }

  // ---------------------------------------------------------------------
  // Calendar order

  /** `a` is a later calendar day than `b`. */
  predicate IsAfter(a: Date, b: Date) {
    || a.year > b.year
    || (a.year == b.year && a.month > b.month)
    || (a.year == b.year && a.month == b.month && a.day > b.day)
  }

  /** A date as the number `YYYYMMDD`: an independent reading of calendar order. */
  function Stamp(d: Date): int {
    d.year * 10000 + d.month * 100 + d.day
  }

  lemma IsAfterIsStampOrder(a: Date, b: Date)
    requires IsRealDate(a) && IsRealDate(b)
    ensures IsAfter(a, b) <==> Stamp(a) > Stamp(b)
  {
    var ra, rb := a.month * 100 + a.day, b.month * 100 + b.day;
    assert 101 <= ra < 10000 && 101 <= rb < 10000;
    if a.year > b.year {
      assert a.year * 10000 >= b.year * 10000 + 10000;
    } else if a.year < b.year {
      assert b.year * 10000 >= a.year * 10000 + 10000;
    }
  }
}
