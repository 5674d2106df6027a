/** The `YYYY/MM/DD` date-bound validator (`validate_date_format`, identical in
    both generations of the server). */
module Dates {
  import opened Wrappers
  import opened Strings

  /** Gregorian leap years. */
  predicate IsLeapYear(y: int) {
    y % 4 == 0 && (y % 100 != 0 || y % 400 == 0)
  }

  function DaysInMonth(y: int, m: int): int
    requires 1 <= m <= 12
  {
    if m == 2 then (if IsLeapYear(y) then 29 else 28)
    else if m == 4 || m == 6 || m == 9 || m == 11 then 30
    else 31
  }

  /** A real calendar day that Python's `datetime` can represent with a
      four-digit year (years 1 to 9999). */
  predicate IsCalendarDate(y: int, m: int, d: int) {
    1 <= y <= 9999 && 1 <= m <= 12 && 1 <= d <= DaysInMonth(y, m)
  }

  /** The pattern `^\d{4}/\d{2}/\d{2}$` together with the full-match rule of
      `strptime`: exactly ten characters, digits around two slashes. */
  predicate HasDateShape(s: string) {
    && |s| == 10
    && IsDigit(s[0]) && IsDigit(s[1]) && IsDigit(s[2]) && IsDigit(s[3]) && s[4] == '/'
    && IsDigit(s[5]) && IsDigit(s[6]) && s[7] == '/'
    && IsDigit(s[8]) && IsDigit(s[9])
  }

  /** The year, month and day a well-shaped string spells. */
  function ParseDate(s: string): Option<(nat, nat, nat)> {
    if HasDateShape(s) then Some((DigitsValue(s[0..4]), DigitsValue(s[5..7]), DigitsValue(s[8..10])))
    else None
  }

  /** `validate_date_format`: an absent or empty bound is valid; otherwise the text
      must have the strict shape and name a real day. */
  function ValidateDate(s: Option<string>): bool {
    if !Filled(s) then true
    else
      match ParseDate(s.value)
      case None => false
      case Some((y, m, d)) => IsCalendarDate(y, m, d)
  }

  /** `n` written with exactly `w` digits, zero-padded on the left. */
  function Fixed(n: nat, w: nat): (r: string)
    ensures |r| == w && AllDigits(r)
  {
    if w == 0 then "" else Fixed(n / 10, w - 1) + [DigitChar(n % 10)]
  }

  function Pow10(w: nat): nat {
    if w == 0 then 1 else 10 * Pow10(w - 1)
  }

  /** Reading a zero-padded number back gives the number. */
  lemma {:induction false} FixedValue(n: nat, w: nat)
    requires n < Pow10(w)
    ensures DigitsValue(Fixed(n, w)) == n
  {
    if w > 0 {
      var r := Fixed(n, w);
      assert r[..|r| - 1] == Fixed(n / 10, w - 1);
      FixedValue(n / 10, w - 1);
    }
  }

  /** Every digit string is the zero-padded form of its value. */
  lemma {:induction false} FixedOfValue(s: string)
    requires AllDigits(s)
    ensures Fixed(DigitsValue(s), |s|) == s
  {
    if |s| > 0 {
      var t := s[..|s| - 1];
      var c := s[|s| - 1];
      var v := DigitsValue(s);
      assert v == 10 * DigitsValue(t) + DigitValue(c);
      assert v / 10 == DigitsValue(t) && v % 10 == DigitValue(c);
      FixedOfValue(t);
      assert s == t + [c];
    }
  }

  /** The canonical `YYYY/MM/DD` text of a day. */
  function FormatDate(y: nat, m: nat, d: nat): string {
    Fixed(y, 4) + "/" + Fixed(m, 2) + "/" + Fixed(d, 2)
  }

  lemma ParseFormatDate(y: nat, m: nat, d: nat)
    requires y < 10000 && m < 100 && d < 100
    ensures ParseDate(FormatDate(y, m, d)) == Some((y, m, d))
  {
    var s := FormatDate(y, m, d);
    assert s[0..4] == Fixed(y, 4) && s[5..7] == Fixed(m, 2) && s[8..10] == Fixed(d, 2);
    FixedValue(y, 4);
    FixedValue(m, 2);
    FixedValue(d, 2);
  }

  lemma FormatParseDate(s: string)
    requires HasDateShape(s)
    ensures ParseDate(s).Some?
    ensures var (y, m, d) := ParseDate(s).value; FormatDate(y, m, d) == s
  {
    FixedOfValue(s[0..4]);
    FixedOfValue(s[5..7]);
    FixedOfValue(s[8..10]);
    DateFields(s);
  }

  /** A well-shaped date is its three digit fields around two slashes. */
  lemma DateFields(s: string)
    requires HasDateShape(s)
    ensures s == s[0..4] + "/" + s[5..7] + "/" + s[8..10]
  {
  }

  /** A non-empty bound is accepted exactly when it is the canonical text of a
      real calendar day. */
  lemma ValidateDateCharacterization(s: string)
    ensures ValidateDate(Some(s)) <==> s == "" || exists y: nat, m: nat, d: nat :: IsCalendarDate(y, m, d) && s == FormatDate(y, m, d)
  {
    if s != "" {
      if ValidateDate(Some(s)) {
        FormatParseDate(s);
        var (y, m, d) := ParseDate(s).value;
        assert IsCalendarDate(y, m, d) && s == FormatDate(y, m, d);
      }
      if exists y: nat, m: nat, d: nat :: IsCalendarDate(y, m, d) && s == FormatDate(y, m, d) {
        var y: nat, m: nat, d: nat :| IsCalendarDate(y, m, d) && s == FormatDate(y, m, d);
        ParseFormatDate(y, m, d);
      }
    }
  }

  lemma DigitsValue2(a: char, b: char)
    requires IsDigit(a) && IsDigit(b)
    ensures DigitsValue([a, b]) == 10 * DigitValue(a) + DigitValue(b)
  {
    assert [a, b][..1] == [a];
    assert [a][..0] == [];
    assert DigitsValue([a]) == DigitValue(a);
  }

  lemma DigitsValue4(a: char, b: char, c: char, d: char)
    requires IsDigit(a) && IsDigit(b) && IsDigit(c) && IsDigit(d)
    ensures DigitsValue([a, b, c, d]) == 1000 * DigitValue(a) + 100 * DigitValue(b) + 10 * DigitValue(c) + DigitValue(d)
  {
    assert [a, b, c, d][..3] == [a, b, c];
    assert [a, b, c][..2] == [a, b];
    DigitsValue2(a, b);
  }

  /** The day a well-shaped ten-character text spells, digit by digit. */
  lemma ParseDateDigits(s: string)
    requires HasDateShape(s)
    ensures ParseDate(s) == Some((
      1000 * DigitValue(s[0]) + 100 * DigitValue(s[1]) + 10 * DigitValue(s[2]) + DigitValue(s[3]),
      10 * DigitValue(s[5]) + DigitValue(s[6]),
      10 * DigitValue(s[8]) + DigitValue(s[9])))
  {
    assert s[0..4] == [s[0], s[1], s[2], s[3]];
    assert s[5..7] == [s[5], s[6]];
    assert s[8..10] == [s[8], s[9]];
    DigitsValue4(s[0], s[1], s[2], s[3]);
    DigitsValue2(s[5], s[6]);
    DigitsValue2(s[8], s[9]);
  }

  /** An absent or empty bound means "no filter" and is accepted. */
  lemma ValidateDateAbsent()
    ensures ValidateDate(None) && ValidateDate(Some(""))
  {
  }

  /** 29 February of the leap year 2024 is accepted. */
  lemma ValidateDateLeapDay()
    ensures ValidateDate(Some("2024/02/29"))
  {
    ParseDateDigits("2024/02/29");
  }

  /** 29 February of the common year 2023 is rejected. */
  lemma ValidateDateNotLeap()
    ensures !ValidateDate(Some("2023/02/29"))
  {
    ParseDateDigits("2023/02/29");
  }

  /** Month 13 is rejected. */
  lemma ValidateDateMonth13()
    ensures !ValidateDate(Some("2024/13/01"))
  {
    ParseDateDigits("2024/13/01");
  }

  /** 31 April is rejected. */
  lemma ValidateDateApril31()
    ensures !ValidateDate(Some("2024/04/31"))
  {
    ParseDateDigits("2024/04/31");
  }

  /** Year 0 is rejected. */
  lemma ValidateDateYearZero()
    ensures !ValidateDate(Some("0000/01/01"))
  {
    ParseDateDigits("0000/01/01");
  }

  /** A dash-separated date does not have the required shape. */
  lemma ValidateDateDashes()
    ensures !ValidateDate(Some("2024-02-29"))
  {
    assert "2024-02-29"[4] == '-';
  }
}
