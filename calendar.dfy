/**
 * Calendar dates and the snapshot file-name convention `YYYY-MM-DD_projects.csv`.
 *
 * A snapshot file is recognised by the regular expression
 * `(\d{4}-\d{2}-\d{2})_projects\.csv$`, applied with `search`, and its date is
 * then read with `strptime('%Y-%m-%d')`, which refuses a date that is not on
 * the Gregorian calendar (month 13, 31 April, 29 February of a common year,
 * year 0). The canonical name of a date is written with
 * `strftime('%Y-%m-%d') + '_projects.csv'`.
 */
module Calendar {
  import opened Wrappers

  datatype Date = Date(year: int, month: int, day: int)

  /** The Gregorian leap-year rule. */
  predicate IsLeapYear(y: int) {
    y % 4 == 0 && (y % 100 != 0 || y % 400 == 0)
  }

  function DaysInMonth(y: int, m: int): (n: int)
    requires 1 <= m <= 12
    ensures 28 <= n <= 31
    ensures n == 29 <==> m == 2 && IsLeapYear(y)
  {
    if m == 2 then (if IsLeapYear(y) then 29 else 28)
    else if m == 4 || m == 6 || m == 9 || m == 11 then 30
    else 31
  }

  /** A date the Python `datetime` type can hold (years 1 to 9999). */
  predicate ValidDate(d: Date) {
    && 1 <= d.year <= 9999
    && 1 <= d.month <= 12
    && 1 <= d.day <= DaysInMonth(d.year, d.month)
  }

  /** Chronological order: `a` is on or before `b`. */
  predicate DateLe(a: Date, b: Date) {
    a.year < b.year || (a.year == b.year && (a.month < b.month || (a.month == b.month && a.day <= b.day)))
  }

  predicate DateLt(a: Date, b: Date) {
    DateLe(a, b) && a != b
  }

  /** Chronological order is total and transitive. */
  lemma DateLeTotal(a: Date, b: Date)
    ensures DateLe(a, b) || DateLe(b, a)
  {
  }

  lemma DateLeTrans(a: Date, b: Date, c: Date)
    requires DateLe(a, b) && DateLe(b, c)
    ensures DateLe(a, c)
  {
  }

  const Suffix: string := "_projects.csv"

  predicate IsDigit(c: char) {
    '0' <= c <= '9'
  }

  predicate AllDigits(s: string) {
    forall i :: 0 <= i < |s| ==> IsDigit(s[i])
  }

  /** The value of a run of decimal digits, most significant first. */
  function DecimalValue(s: string): nat
    requires AllDigits(s)
  {
    if s == [] then 0
    else DecimalValue(s[..|s| - 1]) * 10 + (s[|s| - 1] as int - '0' as int)
  }

  /** The ten characters `DDDD-DD-DD` that the regular expression captures. */
  predicate IsDatePattern(s: string) {
    && |s| == 10
    && AllDigits(s[0..4]) && s[4] == '-'
    && AllDigits(s[5..7]) && s[7] == '-'
    && AllDigits(s[8..10])
  }

  /**
   * The captured date field, when `name` matches the pattern. `$` matches at
   * the end of the name or just before a final newline, and `search` accepts
   * any characters before the match.
   */
  function DateField(name: string): (r: Option<string>)
    ensures r.Some? ==> IsDatePattern(r.value)
  {
    FieldAtEnd(if |name| > 0 && name[|name| - 1] == '\n' then name[..|name| - 1] else name)
  }

  /** The date field that ends `core` just before the suffix, if there is one. */
  function FieldAtEnd(core: string): (r: Option<string>)
    ensures r.Some? ==> IsDatePattern(r.value)
  {
    if |core| >= 23 && core[|core| - 13..] == Suffix && IsDatePattern(core[|core| - 23..|core| - 13])
    then Some(core[|core| - 23..|core| - 13])
    else None
  }

  /** `_extract_date_from_filename`: the date a snapshot file name stands for. */
  function ExtractDate(name: string): (r: Option<Date>)
    ensures r.Some? ==> ValidDate(r.value)
    ensures r.Some? ==> DateField(name).Some?
  {
    match DateField(name)
    case None => None
    case Some(s) =>
      var d := Date(DecimalValue(s[0..4]), DecimalValue(s[5..7]), DecimalValue(s[8..10]));
      if ValidDate(d) then Some(d) else None
  }

  function Digit(n: nat): (c: char)
    requires n < 10
    ensures IsDigit(c)
  {
    (n + '0' as int) as char
  }

  function Pad2(n: nat): (s: string)
    requires n < 100
    ensures |s| == 2 && AllDigits(s)
  {
    [Digit(n / 10), Digit(n % 10)]
  }

  function Pad4(n: nat): (s: string)
    requires n < 10000
    ensures |s| == 4 && AllDigits(s)
  {
    [Digit(n / 1000), Digit(n / 100 % 10), Digit(n / 10 % 10), Digit(n % 10)]
  }

  /** Four, two and two zero-padded digits joined by dashes. */
  function FieldsText(y: nat, m: nat, d: nat): (s: string)
    requires y < 10000 && m < 100 && d < 100
    ensures IsDatePattern(s)
  {
    Pad4(y) + "-" + Pad2(m) + "-" + Pad2(d)
  }

  /** `strftime('%Y-%m-%d')`. */
  function FormatDate(d: Date): (s: string)
    requires ValidDate(d)
    ensures IsDatePattern(s)
  {
    FieldsText(d.year, d.month, d.day)
  }

  /** The file name the extrapolator looks a date up by. */
  function FileName(d: Date): string
    requires ValidDate(d)
  {
    FormatDate(d) + Suffix
  }

  lemma Pad2Value(n: nat)
    requires n < 100
    ensures DecimalValue(Pad2(n)) == n
  {
    var s := Pad2(n);
    assert s[..1][..0] == [];
    assert s[..1] == [Digit(n / 10)];
    assert DecimalValue(s[..1]) == n / 10;
    assert s[1] as int - '0' as int == n % 10;
  }

  lemma Pad4Value(n: nat)
    requires n < 10000
    ensures DecimalValue(Pad4(n)) == n
  {
    var s := Pad4(n);
    assert s[..3][..2][..1][..0] == [];
    assert s[..3][..2][..1] == [Digit(n / 1000)];
    assert s[..3][..2] == [Digit(n / 1000), Digit(n / 100 % 10)];
    assert s[..3] == [Digit(n / 1000), Digit(n / 100 % 10), Digit(n / 10 % 10)];
    assert DecimalValue(s[..3][..2][..1]) == n / 1000;
    assert DecimalValue(s[..3][..2]) == n / 1000 * 10 + n / 100 % 10 == n / 100;
    assert DecimalValue(s[..3]) == n / 100 * 10 + n / 10 % 10 == n / 10;
    assert DecimalValue(s) == n / 10 * 10 + n % 10;
  }

  /**
   * A name of the form `YYYY-MM-DD_projects.csv` gives a date exactly when its
   * digits form a date on the calendar, and then that date.
   */
  lemma ExtractDateOfFields(y: nat, m: nat, d: nat)
    requires y < 10000 && m < 100 && d < 100
    ensures ExtractDate(FieldsText(y, m, d) + Suffix)
         == if ValidDate(Date(y, m, d)) then Some(Date(y, m, d)) else None
  {
    var f := FieldsText(y, m, d);
    var name := f + Suffix;
    assert name[|name| - 1] == 'v';
    assert name[|name| - 13..] == Suffix;
    assert name[|name| - 23..|name| - 13] == f;
    assert f[0..4] == Pad4(y);
    assert f[5..7] == Pad2(m);
    assert f[8..10] == Pad2(d);
    Pad4Value(y);
    Pad2Value(m);
    Pad2Value(d);
  }

  /** Parsing the canonical name of a date gives that date back. */
  lemma FileNameRoundTrip(d: Date)
    requires ValidDate(d)
    ensures ExtractDate(FileName(d)) == Some(d)
  {
    ExtractDateOfFields(d.year, d.month, d.day);
  }

  /** Distinct dates have distinct canonical file names. */
  lemma FileNameInjective(a: Date, b: Date)
    requires ValidDate(a) && ValidDate(b)
    ensures FileName(a) == FileName(b) ==> a == b
  {
    FileNameRoundTrip(a);
    FileNameRoundTrip(b);
  }

  /**
   * Whatever precedes the last 24 characters of a name does not matter: the
   * match is anchored at the end, so a directory part or any other prefix
   * leaves the result unchanged.
   */
  lemma {:induction false} ExtractDateIgnoresPrefix(prefix: string, name: string)
    requires |name| >= 24
    ensures ExtractDate(prefix + name) == ExtractDate(name)
  {
    DateFieldIgnoresPrefix(prefix, name);
  }

  lemma DateFieldIgnoresPrefix(prefix: string, name: string)
    requires |name| >= 24
    ensures DateField(prefix + name) == DateField(name)
  {
    var full := prefix + name;
    assert full[|full| - 1] == name[|name| - 1];
    var core := if name[|name| - 1] == '\n' then name[..|name| - 1] else name;
    var fcore := if full[|full| - 1] == '\n' then full[..|full| - 1] else full;
    assert fcore == prefix + core;
    FieldAtEndIgnoresPrefix(prefix, core);
  }

  lemma FieldAtEndIgnoresPrefix(prefix: string, core: string)
    requires |core| >= 23
    ensures FieldAtEnd(prefix + core) == FieldAtEnd(core)
  {
    var full := prefix + core;
    var tail, ftail := core[|core| - 13..], full[|full| - 13..];
    var field, ffield := core[|core| - 23..|core| - 13], full[|full| - 23..|full| - 13];
    assert ftail == tail;
    assert ffield == field;
  }

  /** 29 February is a valid snapshot date exactly in leap years. */
  lemma LeapDayRule(y: int)
    requires 1 <= y <= 9999
    ensures ValidDate(Date(y, 2, 29)) <==> IsLeapYear(y)
  {
  }

  /** 29 February parses in a leap year and gives no date in a common year. */
  lemma LeapDayExamples()
    ensures ExtractDate(FieldsText(2024, 2, 29) + Suffix) == Some(Date(2024, 2, 29))
    ensures ExtractDate(FieldsText(2023, 2, 29) + Suffix) == None
  {
    ExtractDateOfFields(2024, 2, 29);
    ExtractDateOfFields(2023, 2, 29);
  }

  /** The century rule: 1900 is a common year, 2000 a leap year. */
  lemma CenturyExamples()
    ensures ExtractDate(FieldsText(1900, 2, 29) + Suffix) == None
    ensures ExtractDate(FieldsText(2000, 2, 29) + Suffix) == Some(Date(2000, 2, 29))
  {
    ExtractDateOfFields(1900, 2, 29);
    ExtractDateOfFields(2000, 2, 29);
  }

  /** Month 13 and 31 April match the pattern but not the calendar. */
  lemma OutOfRangeExamples()
    ensures ExtractDate(FieldsText(2024, 13, 1) + Suffix) == None
    ensures ExtractDate(FieldsText(2024, 4, 31) + Suffix) == None
  {
    ExtractDateOfFields(2024, 13, 1);
    ExtractDateOfFields(2024, 4, 31);
  }

  /** Day 0 and year 0 are refused as well. */
  lemma ZeroFieldExamples()
    ensures ExtractDate(FieldsText(2024, 1, 0) + Suffix) == None
    ensures ExtractDate(FieldsText(0, 1, 1) + Suffix) == None
  {
    ExtractDateOfFields(2024, 1, 0);
    ExtractDateOfFields(0, 1, 1);
  }

  /** Names that do not end in the pattern give no date. */
  lemma NonMatchingExamples()
    ensures ExtractDate("2024-01-01_projects.csv.bak") == None
    ensures ExtractDate("2024-1-01_projects.csv") == None
  {
    var e := "2024-01-01_projects.csv.bak";
    assert e[|e| - 1] == 'k';
    assert e[|e| - 13..][0] == 'j';
  }
}
