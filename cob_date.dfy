/**
 * `parse_cob_date` of `roller.py`: a completion date "YYYY/MM/DD" is stripped
 * of surrounding whitespace, read by `strptime` with the year/month/day format,
 * which also checks the calendar, and printed again without the separators as
 * the close-of-business date "YYYYMMDD".
 *
 * The fields are matched as CPython's `_strptime` matches them: the year is
 * exactly four digits; the month is one of `1[0-2]`, `0[1-9]`, `[1-9]`, tried
 * in that order and followed by '/'; the day is the first of `3[01]`,
 * `[12]\d`, `0[1-9]`, `[1-9]`, ` [1-9]` that matches, and it must use up the
 * rest of the string ("unconverted data remains" otherwise).
 */
module CobDate {
  import opened Wrappers
  import opened Text
  import LineParser

  function DigitChar(k: nat): char
    requires k < 10
  {
    ('0' as int + k) as char
  }

  /** Two decimal digits, zero-padded, as `%m` and `%d` print them. */
  function Pad2(n: nat): (s: string)
    requires n < 100
    ensures |s| == 2 && AllDigits(s)
  {
    [DigitChar(n / 10), DigitChar(n % 10)]
  }

  /** Four decimal digits, zero-padded. */
  function Digits4(n: nat): (s: string)
    requires n < 10000
    ensures |s| == 4 && AllDigits(s)
  {
    [DigitChar(n / 1000), DigitChar(n / 100 % 10), DigitChar(n / 10 % 10), DigitChar(n % 10)]
  }

  function DigitValue(c: char): int
  {
    c as int - '0' as int
  }

  lemma NumOfOne(s: string)
    requires |s| == 1 && AllDigits(s)
    ensures NumOf(s) == DigitValue(s[0])
  {
    assert s[..0] == [];
  }

  lemma NumOfTwo(s: string)
    requires |s| == 2 && AllDigits(s)
    ensures NumOf(s) == 10 * DigitValue(s[0]) + DigitValue(s[1])
  {
    assert s[..1] == [s[0]];
    NumOfOne(s[..1]);
  }

  lemma Pad2Value(n: nat)
    requires n < 100
    ensures NumOf(Pad2(n)) == n
  {
    NumOfTwo(Pad2(n));
  }

  lemma Digits4Value(n: nat)
    requires n < 10000
    ensures NumOf(Digits4(n)) == n
  {
    var s := Digits4(n);
    assert s[..1][..0] == [];
    assert s[..2][..1] == s[..1];
    assert s[..3][..2] == s[..2];
    assert s[..|s| - 1] == s[..3];
    assert NumOf(s[..1]) == n / 1000;
    assert NumOf(s[..2]) == n / 100;
    assert NumOf(s[..3]) == n / 10;
  }

  /** The Gregorian leap-year rule. */
  predicate IsLeap(y: nat)
  {
    y % 4 == 0 && (y % 100 != 0 || y % 400 == 0)
  }

  function DaysInMonth(y: nat, m: nat): (n: nat)
    requires 1 <= m <= 12
    ensures 28 <= n <= 31
  {
    if m == 2 then (if IsLeap(y) then 29 else 28)
    else if m == 4 || m == 6 || m == 9 || m == 11 then 30
    else 31
  }

  /** A date `datetime` accepts: year from 1, month 1 to 12, day within the month. */
  predicate ValidDate(y: nat, m: nat, d: nat)
  {
    y >= 1 && 1 <= m <= 12 && 1 <= d <= DaysInMonth(y, m)
  }

  /** The length of the `%m` field at the start of `s`, when one matches and a '/' follows. */
  function MatchMonth(s: string): (r: Option<nat>)
    ensures r.Some? ==>
      (1 <= r.value <= 2 && r.value < |s| && s[r.value] == '/'
       && AllDigits(s[..r.value]) && 1 <= NumOf(s[..r.value]) <= 12)
  {
    if |s| >= 3 && s[0] == '1' && '0' <= s[1] <= '2' && s[2] == '/' then
      NumOfTwo(s[..2]);
      Some(2)
    else if |s| >= 3 && s[0] == '0' && '1' <= s[1] <= '9' && s[2] == '/' then
      NumOfTwo(s[..2]);
      Some(2)
    else if |s| >= 2 && '1' <= s[0] <= '9' && s[1] == '/' then
      NumOfOne(s[..1]);
      Some(1)
    else None
  }

  /** The length of the first `%d` alternative matching at the start of `s`, or 0. */
  function DayMatchLength(s: string): (n: nat)
    ensures n <= 2 && n <= |s|
  {
    if |s| >= 2 && s[0] == '3' && '0' <= s[1] <= '1' then 2
    else if |s| >= 2 && '1' <= s[0] <= '2' && IsDigit(s[1]) then 2
    else if |s| >= 2 && s[0] == '0' && '1' <= s[1] <= '9' then 2
    else if |s| >= 1 && '1' <= s[0] <= '9' then 1
    else if |s| >= 2 && s[0] == ' ' && '1' <= s[1] <= '9' then 2
    else 0
  }

  /** The day `s` denotes when the `%d` field matches all of it. */
  function MatchDay(s: string): (r: Option<nat>)
    ensures r.Some? ==> 1 <= r.value <= 31
  {
    var n := DayMatchLength(s);
    if n == 0 || n != |s| then None
    else if s[0] == ' ' then
      NumOfOne(s[1..]);
      Some(NumOf(s[1..]))
    else if n == 1 then
      NumOfOne(s);
      Some(NumOf(s))
    else
      NumOfTwo(s);
      Some(NumOf(s))
  }

  /** `strptime` with the year/month/day format: the three numbers, or `None` for the ValueError. */
  function Strptime(t: string): (r: Option<(nat, nat, nat)>)
    ensures r.Some? ==>
      (|t| >= 4 && AllDigits(t[..4]) && r.value.0 == NumOf(t[..4])
       && ValidDate(r.value.0, r.value.1, r.value.2))
  {
    if |t| < 5 || !AllDigits(t[..4]) || t[4] != '/' then None
    else
      match MatchMonth(t[5..])
      case None => None
      case Some(ml) =>
        var m := NumOf(t[5..][..ml]);
        match MatchDay(t[6 + ml..])
        case None => None
        case Some(d) =>
          var y := NumOf(t[..4]);
          if ValidDate(y, m, d) then Some((y, m, d)) else None
  }

  /** `parse_cob_date`: strip, parse, and print the date as "YYYYMMDD"; `None` is the
      ValueError. The year is printed as the four digits that were read. */
  function ParseCobDate(s: string): (r: Option<string>)
    ensures r.Some? ==>
      (|r.value| == 8 && AllDigits(r.value) && StartsWith(Strip(s), r.value[..4])
       && ValidDate(NumOf(r.value[..4]), NumOf(r.value[4..6]), NumOf(r.value[6..])))
  {
    var t := Strip(s);
    match Strptime(t)
    case None => None
    case Some((y, m, d)) =>
      var out := t[..4] + Pad2(m) + Pad2(d);
      Pad2Value(m);
      Pad2Value(d);
      assert out[..4] == t[..4] && out[4..6] == Pad2(m) && out[6..] == Pad2(d);
      Some(out)
  }

  lemma MonthOfPad2(m: nat, rest: string)
    requires m < 100
    ensures MatchMonth(Pad2(m) + "/" + rest) == if 1 <= m <= 12 then Some(2) else None
  {
  }

  lemma DayOfPad2(d: nat)
    requires d < 100
    ensures MatchDay(Pad2(d)) == if 1 <= d <= 31 then Some(d) else None
  {
    if 1 <= d <= 31 {
      Pad2Value(d);
    }
  }

  /** A canonical "YYYY/MM/DD", with any whitespace around it, is accepted exactly when it is a
      real date, and then becomes "YYYYMMDD": month 13, 30 February and 29 February of a
      common year are all refused. */
  lemma CanonicalDate(a: string, y: nat, m: nat, d: nat, b: string)
    requires AllSpace(a) && AllSpace(b) && y < 10000 && m < 100 && d < 100
    ensures ParseCobDate(a + Digits4(y) + "/" + Pad2(m) + "/" + Pad2(d) + b)
            == if ValidDate(y, m, d) then Some(Digits4(y) + Pad2(m) + Pad2(d)) else None
  {
    var t := Digits4(y) + "/" + Pad2(m) + "/" + Pad2(d);
    assert a + Digits4(y) + "/" + Pad2(m) + "/" + Pad2(d) + b == a + t + b;
    assert !IsSpace(t[|t| - 1]);
    StripSurrounded(a, t, b);
    assert t[..4] == Digits4(y);
    Digits4Value(y);
    assert t[5..] == Pad2(m) + "/" + Pad2(d);
    MonthOfPad2(m, Pad2(d));
    if 1 <= m <= 12 {
      assert t[5..][..2] == Pad2(m);
      Pad2Value(m);
      assert t[8..] == Pad2(d);
      DayOfPad2(d);
    }
  }

  /** The month and day may also be written with one digit; the output pads them. */
  lemma ShortFields(y: nat, m: nat, d: nat)
    requires y < 10000 && 1 <= m <= 9 && 1 <= d <= 9
    ensures ParseCobDate(Digits4(y) + "/" + [DigitChar(m)] + "/" + [DigitChar(d)])
            == if ValidDate(y, m, d) then Some(Digits4(y) + Pad2(m) + Pad2(d)) else None
  {
    var t := Digits4(y) + "/" + [DigitChar(m)] + "/" + [DigitChar(d)];
    assert "" + t + "" == t;
    StripSurrounded("", t, "");
    assert t[..4] == Digits4(y);
    Digits4Value(y);
    var rest := t[5..];
    assert rest == [DigitChar(m)] + "/" + [DigitChar(d)];
    assert MatchMonth(rest) == Some(1);
    NumOfOne(rest[..1]);
    assert t[7..] == [DigitChar(d)];
    NumOfOne(t[7..]);
    assert MatchDay(t[7..]) == Some(d);
    assert Strptime(t) == if ValidDate(y, m, d) then Some((y, m, d)) else None;
  }

  /** The two stages agree: a "DD/MM/YYYY" token that `parse_date` reordered is accepted by
      `parse_cob_date` exactly when it is a real date, and gives "YYYYMMDD". */
  lemma ReorderedDate(d: nat, m: nat, y: nat)
    requires y < 10000 && m < 100 && d < 100
    ensures LineParser.ParseDate(Pad2(d) + "/" + Pad2(m) + "/" + Digits4(y)).Some?
    ensures ParseCobDate(LineParser.ParseDate(Pad2(d) + "/" + Pad2(m) + "/" + Digits4(y)).value)
            == if ValidDate(y, m, d) then Some(Digits4(y) + Pad2(m) + Pad2(d)) else None
  {
    LineParser.ParseDateOfParts(Pad2(d), Pad2(m), Digits4(y));
    CanonicalDate("", y, m, d, "");
    assert "" + Digits4(y) + "/" + Pad2(m) + "/" + Pad2(d) + "" == Digits4(y) + "/" + Pad2(m) + "/" + Pad2(d);
  }
}
