/**
 * The part of java.time the modelled code uses: ISO dates, parsing with
 * DateTimeFormatter.ofPattern (strict parsing, SMART resolution) into a
 * LocalDate or a YearMonth, and printing a YearMonth as "yyyy.MM".
 */
module Dates {
  import opened JavaLang
  import opened Strings

  /** A LocalDate; a YearMonth is represented by its first day. */
  datatype Date = Date(year: int, month: int, day: int)

  const MAX_YEAR: int := 999_999_999

  predicate IsLeap(y: int) {
    y % 4 == 0 && (y % 100 != 0 || y % 400 == 0)
  }

  function DaysInMonth(y: int, m: int): (n: int)
    requires 1 <= m <= 12
    ensures 28 <= n <= 31
  {
    if m == 2 then (if IsLeap(y) then 29 else 28)
    else if m == 4 || m == 6 || m == 9 || m == 11 then 30
    else 31
  }

  predicate Valid(d: Date) {
    -MAX_YEAR <= d.year <= MAX_YEAR && 1 <= d.month <= 12 && 1 <= d.day <= DaysInMonth(d.year, d.month)
  }

  /** LocalDate.isBefore. */
  predicate Before(a: Date, b: Date) {
    a.year < b.year || (a.year == b.year && (a.month < b.month || (a.month == b.month && a.day < b.day)))
  }

  /** One letter group or literal character of a formatter pattern. */
  datatype Field =
    | YearOfEra              // yyyy
    | Month(padded: bool)    // MM when padded, M otherwise
    | Day(padded: bool)      // dd when padded, d otherwise
    | Lit(c: char)           // any other character, matched exactly

  /** A pattern: a sequence of fields, or "yyyyMMdd", whose adjacent numbers share one run of digits. */
  datatype Pattern = Fields(fields: seq<Field>) | CompactYearMonthDay

  /** The numbers read so far; 0 stands for a field the pattern lacks. */
  datatype Values = Values(year: int, month: int, day: int)

  /** Length of the run of ASCII digits starting at index i. */
  function DigitRun(s: string, i: nat): (n: nat)
    requires i <= |s|
    ensures i + n <= |s|
    ensures AllDigits(s[i..i + n])
    ensures i + n == |s| || !IsDigit(s[i + n])
    decreases |s| - i
  {
    if i < |s| && IsDigit(s[i]) then
      var n := DigitRun(s, i + 1);
      assert s[i..i + 1 + n] == [s[i]] + s[i + 1..i + 1 + n];
      1 + n
    else 0
  }

  /**
   * Strict parsing of the fields from index i. A year takes exactly four
   * digits, or a '+' sign and five to nineteen digits; a padded month or
   * day exactly two digits; an unpadded one one to nineteen digits; the
   * whole input must be consumed.
   */
  function Scan(s: string, i: nat, fs: seq<Field>, v: Values): (r: Option<Values>)
    requires i <= |s|
    decreases |fs|
  {
    if fs == [] then (if i == |s| then Some(v) else None)
    else match fs[0]
      case Lit(c) =>
        if i < |s| && s[i] == c then Scan(s, i + 1, fs[1..], v) else None
      case YearOfEra =>
        if i < |s| && s[i] == '+' then
          var n := DigitRun(s, i + 1);
          if 5 <= n <= 19 then Scan(s, i + 1 + n, fs[1..], v.(year := DigitsValue(s[i + 1..i + 1 + n])))
          else None
        else
          var n := DigitRun(s, i);
          if n == 4 then Scan(s, i + n, fs[1..], v.(year := DigitsValue(s[i..i + n]))) else None
      case Month(padded) =>
        var n := DigitRun(s, i);
        if (padded && n == 2) || (!padded && 1 <= n <= 19) then
          Scan(s, i + n, fs[1..], v.(month := DigitsValue(s[i..i + n])))
        else None
      case Day(padded) =>
        var n := DigitRun(s, i);
        if (padded && n == 2) || (!padded && 1 <= n <= 19) then
          Scan(s, i + n, fs[1..], v.(day := DigitsValue(s[i..i + n])))
        else None
  }

  /**
   * "yyyyMMdd": the month and day are the last four digits of one run;
   * the year is the rest, four digits unsigned or five to nineteen after '+'.
   */
  function ScanCompact(s: string): (r: Option<Values>)
  {
    var signed := |s| > 0 && s[0] == '+';
    var start := if signed then 1 else 0;
    var digits := s[start..];
    if !AllDigits(digits) then None
    else if (!signed && |digits| == 8) || (signed && 9 <= |digits| <= 23) then
      var y := |digits| - 4;
      Some(Values(DigitsValue(digits[..y]), DigitsValue(digits[y..y + 2]), DigitsValue(digits[y + 2..])))
    else None
  }

  function ScanPattern(s: string, p: Pattern): Option<Values> {
    match p
    case Fields(fs) => Scan(s, 0, fs, Values(0, 0, 0))
    case CompactYearMonthDay => ScanCompact(s)
  }

  /** The year-of-era range 1..999999999 and the month range 1..12. */
  predicate ValidYearMonth(v: Values) {
    1 <= v.year <= MAX_YEAR && 1 <= v.month <= 12
  }

  /** LocalDate.parse(s, pattern): a day of 29 to 31 is clamped to the month's length. */
  function ParseLocalDate(s: string, p: Pattern): (r: Option<Date>)
    ensures r.Some? ==> Valid(r.value) && r.value.year >= 1
    ensures r.Some? <==> (ScanPattern(s, p).Some? && ValidYearMonth(ScanPattern(s, p).value)
                          && 1 <= ScanPattern(s, p).value.day <= 31)
  {
    var v := ScanPattern(s, p);
    if v.Some? && ValidYearMonth(v.value) && 1 <= v.value.day <= 31 then
      var last := DaysInMonth(v.value.year, v.value.month);
      Some(Date(v.value.year, v.value.month, if v.value.day <= last then v.value.day else last))
    else None
  }

  /** YearMonth.parse(s, pattern).atDay(1). */
  function ParseYearMonth(s: string, p: Pattern): (r: Option<Date>)
    ensures r.Some? ==> Valid(r.value) && r.value.day == 1 && r.value.year >= 1
    ensures r.Some? <==> ScanPattern(s, p).Some? && ValidYearMonth(ScanPattern(s, p).value)
  {
    var v := ScanPattern(s, p);
    if v.Some? && ValidYearMonth(v.value) then Some(Date(v.value.year, v.value.month, 1)) else None
  }

  /** Year-of-era as "yyyy" prints it: at least four digits, '+' before more than four. */
  function YearOfEraText(year: int): (t: string)
    ensures |t| >= 4
  {
    var yoe := if year >= 1 then year else 1 - year;
    (if yoe >= 10000 then "+" else "") + ZeroPad(yoe, 4)
  }

  /** date.format(ofPattern("yyyy.MM")). */
  function FormatYearMonth(d: Date): (t: string)
    requires 1 <= d.month <= 12
  {
    YearOfEraText(d.year) + "." + ZeroPad(d.month, 2)
  }

  const YEAR_DOT_MONTH: Pattern := Fields([YearOfEra, Lit('.'), Month(true)])

  lemma {:induction false} DigitsValueConcat(a: string, b: string)
    requires AllDigits(a) && AllDigits(b)
    ensures AllDigits(a + b)
    ensures DigitsValue(a + b) == DigitsValue(a) * Pow10(|b|) + DigitsValue(b)
    decreases |b|
  {
    assert AllDigits(a + b) by {
      assert forall i :: 0 <= i < |a + b| ==> (a + b)[i] == if i < |a| then a[i] else b[i - |a|];
    }
    if b != [] {
      var b' := b[..|b| - 1];
      var ab := a + b;
      var last := b[|b| - 1] as int - '0' as int;
      DigitsValueConcat(a, b');
      assert DigitsValue(ab) == DigitsValue(a + b') * 10 + last by {
        assert ab[..|ab| - 1] == a + b';
        assert ab[|ab| - 1] == b[|b| - 1];
      }
      var va, vb', p := DigitsValue(a), DigitsValue(b'), Pow10(|b'|);
      assert DigitsValue(b) == vb' * 10 + last;
      ShiftDecimal(va, p, vb', last);
    } else {
      assert a + b == a;
    }
  }

  lemma ShiftDecimal(va: int, p: int, vb: int, last: int)
    ensures (va * p + vb) * 10 + last == va * (10 * p) + (vb * 10 + last)
  {}

  function Pow10(n: nat): (p: nat)
    ensures p >= 1
  {
    if n == 0 then 1 else 10 * Pow10(n - 1)
  }

  lemma {:induction false} ZerosValue(k: nat)
    ensures DigitsValue(Zeros(k)) == 0
  {
    if k > 0 {
      ZerosValue(k - 1);
      DigitsValueConcat(['0'], Zeros(k - 1));
      assert Zeros(k) == ['0'] + Zeros(k - 1);
      assert DigitsValue(['0']) == 0 by { assert ['0'][..0] == []; }
    }
  }

  lemma ZeroPadValue(n: nat, width: nat)
    ensures DigitsValue(ZeroPad(n, width)) == n
  {
    var d := NatToString(n);
    if |d| < width {
      ZerosValue(width - |d|);
      LeadingZerosValue(Zeros(width - |d|), d);
    }
  }

  /** Leading zeros do not change the value of a digit string. */
  lemma LeadingZerosValue(z: string, d: string)
    requires AllDigits(z) && AllDigits(d) && DigitsValue(z) == 0
    ensures AllDigits(z + d) && DigitsValue(z + d) == DigitsValue(d)
  {
    DigitsValueConcat(z, d);
    assert DigitsValue(z) * Pow10(|d|) == 0;
  }

  /** The digits of a number below 10^k number at most k. */
  lemma {:induction false} NatToStringLength(n: nat, k: nat)
    requires k >= 1 && n < Pow10(k)
    ensures |NatToString(n)| <= k
    decreases n
  {
    if n >= 10 {
      assert k >= 2;
      assert n / 10 < Pow10(k - 1);
      NatToStringLength(n / 10, k - 1);
    }
  }

  lemma {:induction false} NatToStringLong(n: nat, k: nat)
    requires Pow10(k) <= n
    ensures |NatToString(n)| > k
    decreases n
  {
    if k > 0 {
      NatToStringLong(n / 10, k - 1);
    }
  }

  /** The pieces of `sign + yt + "." + mt` at their offsets. */
  lemma YearDotMonthSlices(s: string, sign: string, yt: string, mt: string)
    requires sign == "" || sign == "+"
    requires AllDigits(yt) && |yt| > 0 && |mt| == 2
    requires s == sign + yt + "." + mt
    ensures |s| == |sign| + |yt| + 3
    ensures s[|sign|..|sign| + |yt|] == yt && s[|sign| + |yt|] == '.'
    ensures s[|sign| + |yt| + 1..|sign| + |yt| + 3] == mt
    ensures s[0] == '+' <==> sign == "+"
  {
    var i := |sign|;
    var j := i + |yt|;
    assert forall k :: 0 <= k < |yt| ==> s[i + k] == yt[k];
    assert forall k :: 0 <= k < 2 ==> s[j + 1 + k] == mt[k];
    assert s[0] == if sign == "+" then '+' else yt[0];
  }

  /** "yyyy.MM" reads a year text, a dot and a two-digit month. */
  lemma {:induction false} ScanYearDotMonth(s: string, sign: string, yt: string, mt: string)
    requires sign == "" || sign == "+"
    requires AllDigits(yt) && AllDigits(mt) && |mt| == 2
    requires (sign == "" && |yt| == 4) || (sign == "+" && 5 <= |yt| <= 19)
    requires s == sign + yt + "." + mt
    ensures ScanPattern(s, YEAR_DOT_MONTH) == Some(Values(DigitsValue(yt), DigitsValue(mt), 0))
  {
    var fs := [YearOfEra, Lit('.'), Month(true)];
    var i := |sign|;
    var j := i + |yt|;
    YearDotMonthSlices(s, sign, yt, mt);
    DigitRunExact(s, i, |yt|);
    var v1 := Values(DigitsValue(yt), 0, 0);
    ScanDotMonth(s, j, mt, v1);
    assert fs[1..] == [Lit('.'), Month(true)];
    assert Scan(s, 0, fs, Values(0, 0, 0)) == Scan(s, j, [Lit('.'), Month(true)], v1);
  }

  /** A dot and a two-digit month ending the text are read as the month. */
  lemma ScanDotMonth(s: string, j: nat, mt: string, v: Values)
    requires |s| == j + 3 && s[j] == '.' && s[j + 1..] == mt && AllDigits(mt)
    ensures Scan(s, j, [Lit('.'), Month(true)], v) == Some(v.(month := DigitsValue(mt)))
  {
    DigitRunExact(s, j + 1, 2);
    assert s[j + 1..j + 3] == mt;
    assert Scan(s, j + 3, [], v.(month := DigitsValue(mt))) == Some(v.(month := DigitsValue(mt)));
    assert [Lit('.'), Month(true)][1..] == [Month(true)];
  }

  /** The printed month: two digits that read back as the month. */
  lemma MonthText(m: int)
    requires 1 <= m <= 12
    ensures |ZeroPad(m, 2)| == 2 && AllDigits(ZeroPad(m, 2)) && DigitsValue(ZeroPad(m, 2)) == m
  {
    ZeroPadValue(m, 2);
    NatToStringLength(m, 2);
  }

  /** The printed year: four digits below 10000, otherwise '+' and five to nine digits. */
  lemma YearText(y: int)
    requires 1 <= y <= MAX_YEAR
    ensures AllDigits(ZeroPad(y, 4)) && DigitsValue(ZeroPad(y, 4)) == y
    ensures y < 10000 ==> |ZeroPad(y, 4)| == 4 && YearOfEraText(y) == ZeroPad(y, 4)
    ensures y >= 10000 ==> 5 <= |ZeroPad(y, 4)| <= 19 && YearOfEraText(y) == "+" + ZeroPad(y, 4)
  {
    ZeroPadValue(y, 4);
    if y >= 10000 {
      NatToStringLong(y, 4);
      NatToStringLength(y, 9);
    } else {
      NatToStringLength(y, 4);
    }
  }

  /** Reading a printed year-month back with "yyyy.MM" gives the same year and month. */
  lemma FormatThenParseYearMonth(d: Date)
    requires 1 <= d.year <= MAX_YEAR && 1 <= d.month <= 12
    ensures ParseYearMonth(FormatYearMonth(d), YEAR_DOT_MONTH) == Some(Date(d.year, d.month, 1))
  {
    var s := FormatYearMonth(d);
    var v := Values(d.year, d.month, 0);
    assert ScanPattern(s, YEAR_DOT_MONTH) == Some(v) by {
      var yt := ZeroPad(d.year, 4);
      var mt := ZeroPad(d.month, 2);
      YearText(d.year);
      MonthText(d.month);
      var sign := if d.year >= 10000 then "+" else "";
      assert s == sign + yt + "." + mt;
      ScanYearDotMonth(s, sign, yt, mt);
    }
    assert ValidYearMonth(v);
  }

  /** A digit run of length n that is followed by a non-digit or the end. */
  lemma {:induction false} DigitRunExact(s: string, i: nat, n: nat)
    requires i + n <= |s| && AllDigits(s[i..i + n])
    requires i + n == |s| || !IsDigit(s[i + n])
    ensures DigitRun(s, i) == n
    decreases n
  {
    if n > 0 {
      assert IsDigit(s[i..i + n][0]);
      assert s[i + 1..i + n] == s[i..i + n][1..];
      DigitRunExact(s, i + 1, n - 1);
    }
  }

  lemma ScanLit(s: string, i: nat, c: char, fs: seq<Field>, v: Values)
    requires i < |s| && s[i] == c
    ensures Scan(s, i, [Lit(c)] + fs, v) == Scan(s, i + 1, fs, v)
  {
    assert ([Lit(c)] + fs)[1..] == fs;
  }

  /** An unsigned four-digit year. */
  lemma ScanYear(s: string, i: nat, fs: seq<Field>, v: Values)
    requires i + 4 <= |s| && AllDigits(s[i..i + 4]) && (i + 4 == |s| || !IsDigit(s[i + 4]))
    ensures Scan(s, i, [YearOfEra] + fs, v) == Scan(s, i + 4, fs, v.(year := DigitsValue(s[i..i + 4])))
  {
    DigitRunExact(s, i, 4);
    assert IsDigit(s[i..i + 4][0]);
    assert ([YearOfEra] + fs)[1..] == fs;
  }

  /** A two-digit month or day. */
  lemma ScanTwoDigits(s: string, i: nat, f: Field, fs: seq<Field>, v: Values)
    requires f == Month(true) || f == Day(true)
    requires i + 2 <= |s| && AllDigits(s[i..i + 2]) && (i + 2 == |s| || !IsDigit(s[i + 2]))
    ensures Scan(s, i, [f] + fs, v)
         == Scan(s, i + 2, fs, if f.Month? then v.(month := DigitsValue(s[i..i + 2])) else v.(day := DigitsValue(s[i..i + 2])))
  {
    DigitRunExact(s, i, 2);
    assert ([f] + fs)[1..] == fs;
  }
}
