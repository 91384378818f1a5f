/**
 * CareerParser: turns the free-text career field of the open API, one
 * career per line such as "2020.05 ~ 현재 / 위원장 / 행정안전위원회",
 * into Career records.
 */
module CareerParser {
  import opened JavaLang
  import opened Strings
  import opened Split
  import opened Dates

  /** Career: four strings, the constructor storing "" for null. */
  datatype Career = Career(title: string, position: string, organization: string, period: string)

  /** Integer.parseInt: an optional sign and one or more ASCII digits, within the `int` range. */
  function ParseInt(s: string): (r: Option<int>)
    ensures r.Some? ==> IsInt32(r.value)
    ensures r.Some? ==> |s| > 0 && (IsDigit(s[0]) || s[0] == '-' || s[0] == '+')
    ensures |s| > 0 && AllDigits(s) && DigitsValue(s) <= 0x7FFF_FFFF ==> r == Some(DigitsValue(s))
    ensures |s| > 0 && AllDigits(s) && DigitsValue(s) > 0x7FFF_FFFF ==> r.None?
  {
    var signed := |s| > 0 && (s[0] == '-' || s[0] == '+');
    var digits := s[if signed then 1 else 0..];
    if digits == [] || !AllDigits(digits) then None
    else
      var v: int := if signed && s[0] == '-' then 0 - DigitsValue(digits) else DigitsValue(digits);
      if IsInt32(v) then Some(v) else None
  }

  /** Integer.toString and Integer.parseInt are inverse on every `int`. */
  lemma ParseIntToString(n: int)
    requires IsInt32(n)
    ensures ParseInt(IntToString(n)) == Some(n)
  {
    var s := IntToString(n);
    if n >= 0 {
      assert s[0..] == s;
    } else {
      assert s[1..] == NatToString(-n);
    }
  }

  /** The entries of the pattern array: a YearMonth pattern, or "yyyy", read with parseInt. */
  datatype CareerPattern = YearMonthOf(p: Pattern) | YearOnly

  const CAREER_PATTERNS: seq<CareerPattern> := [
    YearMonthOf(Fields([YearOfEra, Lit('.'), Month(true)])),
    YearMonthOf(Fields([YearOfEra, Lit('-'), Month(true)])),
    YearMonthOf(Fields([YearOfEra, Lit('/'), Month(true)])),
    YearMonthOf(Fields([YearOfEra, Lit('.'), Month(false)])),
    YearMonthOf(Fields([YearOfEra, Lit('-'), Month(false)])),
    YearMonthOf(Fields([YearOfEra, Lit('/'), Month(false)])),
    YearMonthOf(Fields([YearOfEra, Lit('년'), Lit(' '), Month(true), Lit('월')])),
    YearMonthOf(Fields([YearOfEra, Lit('년'), Lit(' '), Month(false), Lit('월')])),
    YearOnly
  ]

  /**
   * LocalDate.of(Integer.parseInt(s), 1, 1); a NumberFormatException or a
   * year outside ±999999999 ends in the outer catch, which returns null.
   */
  function YearStart(s: string): (r: Option<Date>)
    ensures r.Some? ==> Valid(r.value) && r.value.month == 1 && r.value.day == 1
  {
    match ParseInt(s)
    case None => None
    case Some(y) => if -MAX_YEAR <= y <= MAX_YEAR then Some(Date(y, 1, 1)) else None
  }

  /** The date the patterns read, trying them in order; "yyyy" always ends the search. */
  function FirstReading(ps: seq<CareerPattern>, s: string): (r: Option<Date>)
    ensures r.Some? ==> Valid(r.value) && r.value.day == 1
  {
    if ps == [] then None
    else match ps[0]
      case YearOnly => YearStart(s)
      case YearMonthOf(p) =>
        var d := ParseYearMonth(s, p);
        if d.Some? then d else FirstReading(ps[1..], s)
  }

  /** What parseDateOrNull returns. */
  function DateOrNullOf(dateStr: Option<string>): (r: Option<Date>)
    ensures IsNullOrBlank(dateStr) ==> r.None?
    ensures dateStr.Some? && Trim(dateStr.value) == "현재" ==> r.None?
    ensures r.Some? ==> Valid(r.value) && r.value.day == 1
  {
    if IsNullOrBlank(dateStr) || Trim(dateStr.value) == "현재" then None
    else FirstReading(CAREER_PATTERNS, Trim(dateStr.value))
  }

  /** parseDateOrNull: tries the patterns in order on the trimmed text. */
  method ParseDateOrNull(dateStr: Option<string>) returns (r: Option<Date>)
    ensures r == DateOrNullOf(dateStr)
  {
    if dateStr.None? || IsBlank(dateStr.value) || Trim(dateStr.value) == "현재" {
      return None;
    }
    var trimmed := Trim(dateStr.value);
    var i := 0;
    while i < |CAREER_PATTERNS|
      invariant 0 <= i <= |CAREER_PATTERNS|
      invariant FirstReading(CAREER_PATTERNS[i..], trimmed) == FirstReading(CAREER_PATTERNS, trimmed)
    {
      var rest := CAREER_PATTERNS[i..];
      assert rest[1..] == CAREER_PATTERNS[i + 1..];
      match CAREER_PATTERNS[i]
      case YearOnly =>
        return YearStart(trimmed);
      case YearMonthOf(p) =>
        var d := ParseYearMonth(trimmed, p);
        if d.Some? {
          return d;
        }
      i := i + 1;
    }
    return None;
  }

  /** A month printed as "yyyy.MM" reads back as the first day of that month. */
  lemma FormattedMonthReadsBack(d: Date)
    requires 1 <= d.year <= MAX_YEAR && 1 <= d.month <= 12
    ensures DateOrNullOf(Some(FormatYearMonth(d))) == Some(Date(d.year, d.month, 1))
  {
    var t := FormatYearMonth(d);
    assert t != [] && !IsTrimSpace(t[0]) && !IsTrimSpace(t[|t| - 1]) by {
      var y := YearOfEraText(d.year);
      var m := ZeroPad(d.month, 2);
      assert t == y + "." + m;
      assert t[0] == y[0] && t[|t| - 1] == m[|m| - 1];
      assert !IsTrimSpace(y[0]) by {
        if d.year < 10000 {
          assert IsDigit(ZeroPad(d.year, 4)[0]);
        } else {
          assert y[0] == '+';
        }
      }
      assert IsDigit(m[|m| - 1]);
    }
    assert Trim(t) == t;
    assert !IsBlank(t);
    assert t != "현재" by {
      assert t[0] != '현';
    }
    FormatThenParseYearMonth(d);
  }

  /** formatPeriod: "start ~ end" as yyyy.MM, "현재" standing for an open end. */
  function FormatPeriod(startDate: Option<Date>, endDate: Option<Date>): (r: string)
    requires startDate.Some? ==> 1 <= startDate.value.month <= 12
    requires endDate.Some? ==> 1 <= endDate.value.month <= 12
    ensures startDate.None? ==> r == ""
    ensures startDate.Some? && endDate.None? ==> r == FormatYearMonth(startDate.value) + " ~ 현재"
    ensures startDate.Some? && endDate.Some? ==>
      r == FormatYearMonth(startDate.value) + " ~ " + FormatYearMonth(endDate.value)
  {
    if startDate.None? then ""
    else
      var end := if endDate.None? then "현재" else FormatYearMonth(endDate.value);
      FormatYearMonth(startDate.value) + " ~ " + end
  }

  /** createSimpleCareer: the trimmed line as title, every other field empty. */
  function SimpleCareer(line: string): (c: Career)
    ensures c.title == Trim(line) && c.position == "" && c.organization == "" && c.period == ""
  {
    Career(Trim(line), "", "", "")
  }

  /** The start and end dates of a period split on a separator; an empty split throws. */
  function RangeDates(periodParts: seq<string>): (r: Result<(Option<Date>, Option<Date>)>)
    ensures r.Thrown? <==> periodParts == []
    ensures r.Ok? ==> r.value.0 == DateOrNullOf(Some(Trim(periodParts[0])))
    ensures r.Ok? && |periodParts| == 1 ==> r.value.1.None?
  {
    if periodParts == [] then Thrown(IndexOutOfBounds)
    else
      var startDate := DateOrNullOf(Some(Trim(periodParts[0])));
      var endDate :=
        if |periodParts| > 1 then
          var endText := Trim(periodParts[1]);
          if endText == "현재" then None else DateOrNullOf(Some(endText))
        else None;
      Ok((startDate, endDate))
  }

  /** The dates of the period segment: a "~" range, else a "-" range, else a single date. */
  function PeriodDates(period: string): (r: Result<(Option<Date>, Option<Date>)>)
    ensures r.Ok? ==> (r.value.0.Some? ==> Valid(r.value.0.value)) && (r.value.1.Some? ==> Valid(r.value.1.value))
  {
    if Contains(period, "~") then RangeDates(JavaSplit(period, Literal("~")))
    else if Contains(period, "-") then RangeDates(JavaSplit(period, Literal("-")))
    else Ok((DateOrNullOf(Some(period)), None))
  }

  /** The career read from the parts of a line; None stands for the exception parseCareerLine catches. */
  function CareerFromParts(line: string, parts: seq<string>): (r: Option<Career>)
    ensures r.Some? ==> r.value.title == line || r.value.title == Trim(line)
  {
    if |parts| < 2 then Some(SimpleCareer(line))
    else match PeriodDates(Trim(parts[0]))
      case Thrown(_) => None
      case Ok(dates) =>
        Some(Career(line, Trim(parts[1]), if |parts| > 2 then Trim(parts[2]) else "",
                    FormatPeriod(dates.0, dates.1)))
  }

  /** parseCareerLine: " / " separates the segments if present, otherwise " - ". */
  function ParseCareerLine(line: string): (r: Option<Career>)
    ensures !Contains(line, " / ") && !Contains(line, " - ") ==> r == Some(SimpleCareer(line))
    ensures r.Some? ==> r.value.title == line || r.value.title == Trim(line)
  {
    if Contains(line, " / ") then CareerFromParts(line, JavaSplit(Trim(line), Literal(" / ")))
    else if Contains(line, " - ") then CareerFromParts(line, JavaSplit(Trim(line), Literal(" - ")))
    else Some(SimpleCareer(line))
  }

  /** The parts parseCareerLine splits a line into, when it has a separator. */
  function LineParts(line: string): seq<string> {
    if Contains(line, " / ") then JavaSplit(Trim(line), Literal(" / "))
    else JavaSplit(Trim(line), Literal(" - "))
  }

  /** The text consists of one character repeated. */
  predicate OnlyChar(s: string, c: char) {
    |s| > 0 && forall j :: 0 <= j < |s| ==> s[j] == c
  }

  /**
   * parseCareerLine returns null exactly when the line has a separator,
   * splits into at least two parts, and its period is nothing but '~'
   * (or, without any '~', nothing but '-'): the period's split is then
   * empty and reading its first element throws.
   */
  lemma ParseCareerLineNull(line: string)
    ensures ParseCareerLine(line).None? <==>
      (Contains(line, " / ") || Contains(line, " - ")) && |LineParts(line)| >= 2
      && (OnlyChar(Trim(LineParts(line)[0]), '~') || OnlyChar(Trim(LineParts(line)[0]), '-'))
  {
    if Contains(line, " / ") || Contains(line, " - ") {
      var parts := LineParts(line);
      assert ParseCareerLine(line) == CareerFromParts(line, parts);
      if |parts| >= 2 {
        PeriodThrowsOnlyOnSeparators(Trim(parts[0]));
      }
    }
  }

  /** Reading the period throws exactly when it is nothing but '~', or nothing but '-'. */
  lemma PeriodThrowsOnlyOnSeparators(period: string)
    ensures PeriodDates(period).Thrown? <==> OnlyChar(period, '~') || OnlyChar(period, '-')
  {
    assert "~" == ['~'] && "-" == ['-'];
    ContainsChar(period, '~');
    ContainsChar(period, '-');
    assert OnlyChar(period, '~') ==> period[0] == '~';
    assert OnlyChar(period, '-') ==> period[0] == '-';
    if '~' in period {
      SplitOnCharEmpty(period, '~');
      assert !OnlyChar(period, '-') by {
        var i :| 0 <= i < |period| && period[i] == '~';
      }
    } else if '-' in period {
      SplitOnCharEmpty(period, '-');
    }
  }

  /** A line with a separator becomes a Career titled by the untrimmed line, position from segment 2, organization from segment 3. */
  lemma ParsedCareerFields(line: string)
    requires Contains(line, " / ") || Contains(line, " - ")
    requires |LineParts(line)| >= 2 && ParseCareerLine(line).Some?
    ensures ParseCareerLine(line).value.title == line
    ensures ParseCareerLine(line).value.position == Trim(LineParts(line)[1])
    ensures ParseCareerLine(line).value.organization
         == if |LineParts(line)| > 2 then Trim(LineParts(line)[2]) else ""
  {
    var parts := LineParts(line);
    assert ParseCareerLine(line) == CareerFromParts(line, parts);
    match PeriodDates(Trim(parts[0]))
    case Ok(dates) =>
      assert ParseCareerLine(line).value ==
        Career(line, Trim(parts[1]), if |parts| > 2 then Trim(parts[2]) else "", FormatPeriod(dates.0, dates.1));
    case Thrown(_) =>
  }

  /** The careers the lines yield: blank lines skipped, lines parseCareerLine rejects dropped. */
  function CollectCareers(lines: seq<string>): (cs: seq<Career>)
    ensures |cs| <= NonBlankCount(lines)
    ensures TitledAll(cs)
  {
    if lines == [] then [] else NextCareers(CollectCareers(lines[..|lines| - 1]), lines[|lines| - 1])
  }

  /** The list after one more line: unchanged for a blank or rejected line, else one Career longer. */
  function NextCareers(prev: seq<Career>, line: string): (cs: seq<Career>)
    ensures IsBlank(line) ==> cs == prev
    ensures cs == prev || (!IsBlank(line) && ParseCareerLine(line).Some? && cs == prev + [ParseCareerLine(line).value])
    ensures !IsBlank(line) && ParseCareerLine(line).Some? ==> cs == prev + [ParseCareerLine(line).value]
    ensures ParseCareerLine(line).None? ==> cs == prev
    ensures TitledAll(prev) ==> TitledAll(cs)
  {
    if IsBlank(line) then prev
    else match ParseCareerLine(line)
      case None => prev
      case Some(c) =>
        ParsedTitleNotBlank(line);
        TitledAllAppend(prev, c);
        prev + [c]
  }

  /** A Career read from a non-blank line is titled by the line or by the trimmed line, neither blank. */
  lemma ParsedTitleNotBlank(line: string)
    requires !IsBlank(line) && ParseCareerLine(line).Some?
    ensures !IsBlank(ParseCareerLine(line).value.title)
  {
    if ParseCareerLine(line).value.title != line {
      assert !IsTrimSpace(Trim(line)[0]);
    }
  }

  lemma TitledAllAppend(prev: seq<Career>, c: Career)
    requires !IsBlank(c.title)
    ensures TitledAll(prev) ==> TitledAll(prev + [c])
  {
    var cs := prev + [c];
    if TitledAll(prev) {
      forall i | 0 <= i < |cs| ensures !IsBlank(cs[i].title) {
        if i < |prev| {
          assert cs[i] == prev[i];
        }
      }
    }
  }

  /** Every career has a title that is not blank. */
  predicate TitledAll(cs: seq<Career>) {
    forall i :: 0 <= i < |cs| ==> !IsBlank(cs[i].title)
  }

  /** Number of lines that are not blank. */
  function NonBlankCount(lines: seq<string>): nat {
    if lines == [] then 0
    else NonBlankCount(lines[..|lines| - 1]) + if IsBlank(lines[|lines| - 1]) then 0 else 1
  }

  /** What parseCareers returns for a text. */
  function CareersOf(careersText: Option<string>): (cs: seq<Career>)
    ensures !IsPresent(careersText) ==> cs == []
    ensures TitledAll(cs)
  {
    if !IsPresent(careersText) then [] else CollectCareers(JavaSplit(careersText.value, LineBreak))
  }

  /** parseCareers: one pass over the lines of the text, appending each career read. */
  method ParseCareers(careersText: Option<string>) returns (careers: seq<Career>)
    ensures careers == CareersOf(careersText)
  {
    careers := [];
    if careersText.None? || careersText.value == [] {
      return;
    }
    var lines := JavaSplit(careersText.value, LineBreak);
    var i := 0;
    while i < |lines|
      invariant 0 <= i <= |lines|
      invariant careers == CollectCareers(lines[..i])
    {
      var line := lines[i];
      assert lines[..i + 1][..i] == lines[..i];
      assert CollectCareers(lines[..i + 1]) == NextCareers(careers, line);
      if !IsBlank(line) {
        var career := ParseCareerLine(line);
        if career.Some? {
          careers := careers + [career.value];
        }
      }
      i := i + 1;
    }
    assert lines[..|lines|] == lines;
  }
}
