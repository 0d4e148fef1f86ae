/** Calendar dates and the three textual date formats the application uses:
`%Y-%m-%d` (read with `strptime`), `%d.%B.%Y` (written by the form) and
`%d-%b-%Y` (written by the tracker), in the C locale.
 */
module Dates {
  import opened Wrappers
  import Text

  datatype Date = Date(year: int, month: int, day: int)

  predicate IsLeap(y: int) {
    y % 4 == 0 && (y % 100 != 0 || y % 400 == 0)
  }

  function DaysInMonth(y: int, m: int): int
    requires 1 <= m <= 12
  {
    if m == 2 then (if IsLeap(y) then 29 else 28)
    else if m == 4 || m == 6 || m == 9 || m == 11 then 30
    else 31
  }

  /** A date Python's `datetime.date` accepts. */
  predicate Valid(d: Date) {
    && 1 <= d.year <= 9999
    && 1 <= d.month <= 12
    && 1 <= d.day <= DaysInMonth(d.year, d.month)
  }

  /** Full month names, `%B`. */
  const MonthNames: seq<string> := [
    "January", "February", "March", "April", "May", "June",
    "July", "August", "September", "October", "November", "December"
  ]

  function MonthName(m: int): (name: string)
    requires 1 <= m <= 12
    ensures |name| >= 3
    ensures '.' !in name && '/' !in name && '-' !in name
  {
    MonthNames[m - 1]
  }

  /** Abbreviated month names, `%b`: the first three letters of the full name. */
  function MonthAbbr(m: int): (abbr: string)
    requires 1 <= m <= 12
    ensures |abbr| == 3 && Text.StartsWith(MonthName(m), abbr)
  {
    MonthName(m)[..3]
  }

  /** Position of `name` among the month names, 1-based. */
  function MonthNumber(name: string): (m: Option<int>)
    ensures m.Some? ==> 1 <= m.value <= 12 && MonthName(m.value) == name
    ensures m.None? ==> forall k :: 1 <= k <= 12 ==> MonthName(k) != name
  {
    if name in MonthNames then
      var k :| 0 <= k < 12 && MonthNames[k] == name;
      Some(k + 1)
    else
      None
  }

  predicate IsDigit(c: char) {
    '0' <= c <= '9'
  }

  predicate AllDigits(s: string) {
    forall k :: 0 <= k < |s| ==> IsDigit(s[k])
  }

  function Digit(n: nat): (c: char)
    requires n < 10
    ensures IsDigit(c) && c as int == 48 + n
  {
    (48 + n) as char
  }

  function DigitValue(c: char): (n: nat)
    requires IsDigit(c)
    ensures n < 10 && Digit(n) == c
  {
    (c as int) - 48
  }

  /** Python's `str(n)` for a natural number. */
  function Decimal(n: nat): (s: string)
    ensures |s| >= 1 && AllDigits(s)
  {
    if n < 10 then [Digit(n)] else Decimal(n / 10) + [Digit(n % 10)]
  }

  lemma NoSeparatorInDigits(s: string, c: char)
    requires AllDigits(s) && !IsDigit(c)
    ensures c !in s
  {
    forall k | 0 <= k < |s|
      ensures s[k] != c
    {
      assert IsDigit(s[k]);
    }
  }

  /** The number a string of decimal digits denotes (Python's `int(s)`). */
  function DecimalValue(s: string): nat
    requires AllDigits(s)
  {
    if s == [] then 0 else DecimalValue(s[..|s| - 1]) * 10 + DigitValue(s[|s| - 1])
  }

  lemma {:induction false} DecimalRoundTrip(n: nat)
    ensures DecimalValue(Decimal(n)) == n
  {
    if n >= 10 {
      DecimalRoundTrip(n / 10);
      var s := Decimal(n);
      assert s[..|s| - 1] == Decimal(n / 10);
    }
  }

  /** Four-digit numbers print as four characters. */
  lemma DecimalLength4(n: nat)
    requires 1000 <= n <= 9999
    ensures |Decimal(n)| == 4
  {
    assert Decimal(n) == Decimal(n / 10) + [Digit(n % 10)];
    assert Decimal(n / 10) == Decimal(n / 100) + [Digit(n / 10 % 10)];
    assert Decimal(n / 100) == Decimal(n / 1000) + [Digit(n / 100 % 10)];
  }

  /** Two digits with a leading zero, as `%d` and `%m` print them. */
  function Pad2(n: nat): (s: string)
    requires n < 100
    ensures |s| == 2 && AllDigits(s)
    ensures DecimalValue(s) == n
  {
    var s := [Digit(n / 10), Digit(n % 10)];
    assert s[..1] == [Digit(n / 10)];
    assert s[..1][..0] == [];
    assert DecimalValue(s[..1]) == DigitValue(Digit(n / 10)) == n / 10;
    assert DigitValue(s[1]) == n % 10;
    s
  }

  /** `d.strftime("%d.%B.%Y")`, the value a date field of the form yields. */
  function FormatDotted(d: Date): (s: string)
    requires Valid(d)
  {
    Pad2(d.day) + "." + MonthName(d.month) + "." + Decimal(d.year)
  }

  /** `d.strftime("%d-%b-%Y")`, the tracker's date of a new entry. */
  function FormatDashed(d: Date): (s: string)
    requires Valid(d)
  {
    Pad2(d.day) + "-" + MonthAbbr(d.month) + "-" + Decimal(d.year)
  }

  /** Texts `strptime`'s `%m` directive accepts: `1[0-2]|0[1-9]|[1-9]`. */
  predicate MonthField(s: string) {
    || (|s| == 2 && s[0] == '1' && '0' <= s[1] <= '2')
    || (|s| == 2 && s[0] == '0' && '1' <= s[1] <= '9')
    || (|s| == 1 && '1' <= s[0] <= '9')
  }

  /** Texts `strptime`'s `%d` directive accepts: `3[01]|[12]\d|0[1-9]|[1-9]| [1-9]`. */
  predicate DayField(s: string) {
    || (|s| == 2 && s[0] == '3' && '0' <= s[1] <= '1')
    || (|s| == 2 && '1' <= s[0] <= '2' && IsDigit(s[1]))
    || (|s| == 2 && s[0] == '0' && '1' <= s[1] <= '9')
    || (|s| == 1 && '1' <= s[0] <= '9')
    || (|s| == 2 && s[0] == ' ' && '1' <= s[1] <= '9')
  }

  function DayFieldValue(s: string): nat
    requires DayField(s)
  {
    if s[0] == ' ' then DigitValue(s[1]) else DecimalValue(s)
  }

  /** `datetime.strptime(s, "%Y-%m-%d").date()`; `None` where Python raises.

  The year is exactly four digits, month and day are the directive
  alternatives above, the whole text must be consumed, and the date must
  exist in the calendar.
   */
  function ParseYmd(s: string): (r: Option<Date>)
    ensures r.Some? ==> Valid(r.value)
    ensures r.Some? ==> 8 <= |s| <= 10 && AllDigits(s[..4]) && s[4] == '-'
  {
    if |s| < 5 || !AllDigits(s[..4]) || s[4] != '-' then None
    else
      var rest := s[5..];
      if '-' !in rest then None
      else
        var k := Text.FirstIndex(rest, '-');
        var ms := rest[..k];
        var ds := rest[k + 1..];
        if !MonthField(ms) || !DayField(ds) then None
        else
          var d := Date(DecimalValue(s[..4]), DecimalValue(ms), DayFieldValue(ds));
          if Valid(d) then Some(d) else None
  }

  /** The ISO form `YYYY-MM-DD` of a date with a four-digit year. */
  function IsoDate(d: Date): string
    requires Valid(d) && d.year >= 1000
  {
    Decimal(d.year) + "-" + Pad2(d.month) + "-" + Pad2(d.day)
  }

  /** Every ISO date with a four-digit year parses back to itself. */
  lemma ParseIsoDate(d: Date)
    requires Valid(d) && d.year >= 1000
    ensures ParseYmd(IsoDate(d)) == Some(d)
  {
    var y := Decimal(d.year);
    DecimalLength4(d.year);
    DecimalRoundTrip(d.year);
    var s := IsoDate(d);
    assert s[..4] == y;
    assert s[4] == '-';
    var rest := s[5..];
    assert rest == Pad2(d.month) + "-" + Pad2(d.day);
    Text.SeparatorAt(Pad2(d.month), Pad2(d.day), '-');
  }

  /** A date the form wrote can never be read back by `ParseYmd`. */
  lemma DottedIsNotYmd(d: Date)
    requires Valid(d)
    ensures ParseYmd(FormatDotted(d)) == None
  {
    var s := FormatDotted(d);
    assert s[2] == '.';
    assert !AllDigits(s[..4]) by { assert s[..4][2] == '.'; }
  }

  /** The inverse of `FormatDotted` for four-digit years: day field,
  full month name and four-digit year separated by dots. */
  function ParseDotted(s: string): (r: Option<Date>)
    ensures r.Some? ==> Valid(r.value)
  {
    var parts := Text.SplitOn(s, '.');
    if |parts| != 3 || !DayField(parts[0]) || |parts[2]| != 4 || !AllDigits(parts[2]) then None
    else
      match MonthNumber(parts[1])
      case None => None
      case Some(m) =>
        var d := Date(DecimalValue(parts[2]), m, DayFieldValue(parts[0]));
        if Valid(d) then Some(d) else None
  }

  /** A two-digit day of the month is one `%d` accepts, with its own value. */
  lemma Pad2IsDayField(n: nat)
    requires 1 <= n <= 31
    ensures DayField(Pad2(n)) && DayFieldValue(Pad2(n)) == n
  {
    var s := Pad2(n);
    assert s[0] == Digit(n / 10) && s[1] == Digit(n % 10);
  }

  /** Month names are distinct, so a name determines its month. */
  lemma MonthNumberOfName(m: int)
    requires 1 <= m <= 12
    ensures MonthNumber(MonthName(m)) == Some(m)
  {
  }

  /** Formatting with `%d.%B.%Y` and parsing back gives the same date. */
  lemma ParseFormatDotted(d: Date)
    requires Valid(d) && d.year >= 1000
    ensures ParseDotted(FormatDotted(d)) == Some(d)
  {
    var day := Pad2(d.day);
    var month := MonthName(d.month);
    var year := Decimal(d.year);
    DecimalLength4(d.year);
    DecimalRoundTrip(d.year);
    NoSeparatorInDigits(day, '.');
    NoSeparatorInDigits(year, '.');
    var parts := [day, month, year];
    assert Text.JoinWith(parts, '.') == FormatDotted(d) by {
      Text.JoinCons(month, [year], '.');
      Text.JoinCons(day, [month, year], '.');
      assert parts == [day] + [month, year];
    }
    Text.SplitJoin(parts, '.');
    Pad2IsDayField(d.day);
    MonthNumberOfName(d.month);
  }
}
