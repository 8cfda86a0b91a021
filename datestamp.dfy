/**
 * Calendar dates and their eight-digit `YYYYMMDD` stamps, the form in which the
 * launcher names a day's staging folder. A stamp is read back by `ParseStamp`,
 * which accepts exactly the stamps of valid dates.
 */
module DateStamp {
  import opened Wrappers

  /** A calendar day, as the stat output of the training input is parsed into. */
  datatype Date = Date(year: int, month: int, day: int)

  predicate IsLeapYear(y: int)
  {
    y % 4 == 0 && (y % 100 != 0 || y % 400 == 0)
  }

  function DaysInMonth(y: int, m: int): (d: nat)
    requires 1 <= m <= 12
    ensures 28 <= d <= 31
  {
    if m == 2 then (if IsLeapYear(y) then 29 else 28)
    else if m == 4 || m == 6 || m == 9 || m == 11 then 30
    else 31
  }

  /** The dates a four-digit-year parse can produce: years 1 to 9999 of the Gregorian
      calendar, months 1 to 12, and a day that exists in that month. */
  predicate ValidDate(d: Date)
  {
    1 <= d.year <= 9999 && 1 <= d.month <= 12 && 1 <= d.day <= DaysInMonth(d.year, d.month)
  }

  predicate IsDigit(c: char)
  {
    '0' <= c <= '9'
  }

  predicate AllDigits(s: string)
  {
    forall i :: 0 <= i < |s| ==> IsDigit(s[i])
  }

  function Pow10(w: nat): (p: nat)
    ensures p >= 1
  {
    if w == 0 then 1 else 10 * Pow10(w - 1)
  }

  function DigitChar(v: nat): (c: char)
    requires v < 10
    ensures IsDigit(c)
  {
    (48 + v) as char
  }

  /** `n` in decimal, left-padded with zeros to exactly `width` digits. */
  function Padded(n: nat, width: nat): (s: string)
    requires n < Pow10(width)
    ensures |s| == width && AllDigits(s)
  {
    if width == 0 then "" else Padded(n / 10, width - 1) + [DigitChar(n % 10)]
  }

  /** The number a string of decimal digits denotes. */
  function DigitsValue(s: string): (v: nat)
    requires AllDigits(s)
    ensures v < Pow10(|s|)
  {
    if s == [] then 0 else 10 * DigitsValue(s[..|s| - 1]) + (s[|s| - 1] as int - 48)
  }

  /** Reading back a padded number gives the number. */
  lemma {:induction false} PaddedValue(n: nat, width: nat)
    requires n < Pow10(width)
    ensures DigitsValue(Padded(n, width)) == n
  {
    if width > 0 {
      var s := Padded(n, width);
      assert s[..|s| - 1] == Padded(n / 10, width - 1);
      PaddedValue(n / 10, width - 1);
    }
  }

  /** Padding the value of a digit string to its own length gives the string back. */
  lemma {:induction false} ValuePadded(s: string)
    requires AllDigits(s)
    ensures Padded(DigitsValue(s), |s|) == s
  {
    if s != [] {
      var v := DigitsValue(s);
      var init := s[..|s| - 1];
      var last := s[|s| - 1] as int - 48;
      assert v / 10 == DigitsValue(init) && v % 10 == last;
      ValuePadded(init);
      assert s == init + [s[|s| - 1]];
    }
  }

  /** The `YYYYMMDD` stamp of a date: four digits of year, two of month, two of day. */
  function Stamp(d: Date): (s: string)
    requires ValidDate(d)
    ensures |s| == 8 && AllDigits(s)
  {
    Padded(d.year, 4) + Padded(d.month, 2) + Padded(d.day, 2)
  }

  /** The date an eight-digit stamp denotes, or None when it is not one of a valid date. */
  function ParseStamp(s: string): (r: Option<Date>)
  {
    if |s| == 8 && AllDigits(s) then
      var d := Date(DigitsValue(s[..4]), DigitsValue(s[4..6]), DigitsValue(s[6..]));
      if ValidDate(d) then Some(d) else None
    else
      None
  }

  /** The stamp of a valid date reads back as that date. */
  lemma StampRoundTrip(d: Date)
    requires ValidDate(d)
    ensures ParseStamp(Stamp(d)) == Some(d)
  {
    var s := Stamp(d);
    assert s[..4] == Padded(d.year, 4);
    assert s[4..6] == Padded(d.month, 2);
    assert s[6..] == Padded(d.day, 2);
    PaddedValue(d.year, 4);
    PaddedValue(d.month, 2);
    PaddedValue(d.day, 2);
  }

  /** A string that reads back as a date is that date's stamp, and the date is valid. */
  lemma ParseStampSound(s: string, d: Date)
    requires ParseStamp(s) == Some(d)
    ensures ValidDate(d) && Stamp(d) == s
  {
    assert |s| == 8 && AllDigits(s);
    var y, m, dd := s[..4], s[4..6], s[6..];
    assert AllDigits(y) && AllDigits(m) && AllDigits(dd);
    assert d == Date(DigitsValue(y), DigitsValue(m), DigitsValue(dd)) && ValidDate(d);
    ValuePadded(y);
    ValuePadded(m);
    ValuePadded(dd);
    assert Stamp(d) == y + m + dd;
    assert y + m + dd == s;
  }

  /** Distinct valid dates have distinct stamps. */
  lemma StampInjective(d1: Date, d2: Date)
    requires ValidDate(d1) && ValidDate(d2) && Stamp(d1) == Stamp(d2)
    ensures d1 == d2
  {
    StampRoundTrip(d1);
    StampRoundTrip(d2);
  }

  /** The stamp of 1 March 2024 is 20240301. */
  lemma StampOfMarchFirst2024()
    ensures ValidDate(Date(2024, 3, 1)) && Stamp(Date(2024, 3, 1)) == "20240301"
  {
    assert DaysInMonth(2024, 3) == 31;
    assert Pow10(1) == 10 && Pow10(2) == 100 && Pow10(3) == 1000 && Pow10(4) == 10000;
    assert DigitChar(0) == '0' && DigitChar(1) == '1' && DigitChar(2) == '2';
    assert DigitChar(3) == '3' && DigitChar(4) == '4';
    assert Padded(0, 0) == "" && Padded(2, 1) == Padded(0, 0) + "2";
    assert Padded(20, 2) == Padded(2, 1) + "0";
    assert Padded(202, 3) == Padded(20, 2) + "2";
    assert Padded(2024, 4) == Padded(202, 3) + "4";
    assert Padded(0, 1) == Padded(0, 0) + "0";
    assert Padded(3, 2) == Padded(0, 1) + "3";
    assert Padded(1, 2) == Padded(0, 1) + "1";
  }
}
