/**
 * BillUtils: reading the dates of the bill open API in any of eight
 * layouts, and deriving a bill's status from the free-text processing
 * result.
 */
module BillUtils {
  import opened JavaLang
  import opened Strings
  import opened Dates
  import opened DomainTypes

  /** The layouts tried in order: yyyy-MM-dd, yyyyMMdd, yyyy.MM.dd, yyyy/MM/dd, yyyy년 MM월 dd일, yyyy-M-d, yyyy.M.d, yyyy/M/d. */
  const DATE_PATTERNS: seq<Pattern> := [
    Fields([YearOfEra, Lit('-'), Month(true), Lit('-'), Day(true)]),
    CompactYearMonthDay,
    Fields([YearOfEra, Lit('.'), Month(true), Lit('.'), Day(true)]),
    Fields([YearOfEra, Lit('/'), Month(true), Lit('/'), Day(true)]),
    Fields([YearOfEra, Lit('년'), Lit(' '), Month(true), Lit('월'), Lit(' '), Day(true), Lit('일')]),
    Fields([YearOfEra, Lit('-'), Month(false), Lit('-'), Day(false)]),
    Fields([YearOfEra, Lit('.'), Month(false), Lit('.'), Day(false)]),
    Fields([YearOfEra, Lit('/'), Month(false), Lit('/'), Day(false)])
  ]

  /** The date read by the first pattern that accepts s. */
  function FirstParse(patterns: seq<Pattern>, s: string): (r: Option<Date>)
    ensures r.Some? ==> Valid(r.value) && r.value.year >= 1
    ensures r.None? <==> forall k :: 0 <= k < |patterns| ==> ParseLocalDate(s, patterns[k]).None?
    ensures r.Some? ==> exists k :: 0 <= k < |patterns| && r == ParseLocalDate(s, patterns[k])
                          && forall j :: 0 <= j < k ==> ParseLocalDate(s, patterns[j]).None?
  {
    if patterns == [] then None
    else
      var d := ParseLocalDate(s, patterns[0]);
      assert forall k :: 1 <= k < |patterns| ==> patterns[k] == patterns[1..][k - 1];
      if d.Some? then d
      else
        var r := FirstParse(patterns[1..], s);
        if r.Some? then
          var k' :| 0 <= k' < |patterns[1..]| && r == ParseLocalDate(s, patterns[1..][k'])
                    && forall j :: 0 <= j < k' ==> ParseLocalDate(s, patterns[1..][j]).None?;
          assert r == ParseLocalDate(s, patterns[k' + 1]);
          r
        else r
  }

  /** What parseDate returns: null for a null or empty argument, else the first layout that reads the trimmed text. */
  function ParseDateOf(dateStr: Option<string>): Option<Date> {
    if !IsPresent(dateStr) then None else FirstParse(DATE_PATTERNS, Trim(dateStr.value))
  }

  /** The loop of parseDate: the first pattern that reads `clean`, tried in order. */
  method TryPatterns(patterns: seq<Pattern>, clean: string) returns (r: Option<Date>)
    ensures r == FirstParse(patterns, clean)
  {
    var i := 0;
    while i < |patterns|
      invariant 0 <= i <= |patterns|
      invariant FirstParse(patterns[i..], clean) == FirstParse(patterns, clean)
    {
      FirstParseStep(patterns[i..], clean);
      assert patterns[i..][0] == patterns[i] && patterns[i..][1..] == patterns[i + 1..];
      var parsed := ParseLocalDate(clean, patterns[i]);
      if parsed.Some? {
        return parsed;
      }
      i := i + 1;
    }
    return None;
  }

  /** parseDate: tries the layouts in order and returns the first date read. */
  method ParseDate(dateStr: Option<string>) returns (r: Option<Date>)
    ensures r == ParseDateOf(dateStr)
    ensures r.Some? ==> Valid(r.value)
  {
    if dateStr.None? || |dateStr.value| == 0 {
      return None;
    }
    var clean := Trim(dateStr.value);
    r := TryPatterns(DATE_PATTERNS, clean);
  }

  /** No layout reads the empty text. */
  lemma NoPatternReadsEmpty(k: nat)
    requires k < |DATE_PATTERNS|
    ensures ParseLocalDate("", DATE_PATTERNS[k]).None?
  {
    assert DATE_PATTERNS[k].Fields? ==> DATE_PATTERNS[k].fields[0] == YearOfEra;
  }

  /** safeParseDateWithLogging: null for a blank argument, else parseDate. */
  function SafeParseDate(dateStr: Option<string>): (r: Option<Date>)
    ensures IsNullOrBlank(dateStr) ==> r.None?
  {
    if IsNullOrBlank(dateStr) then None else ParseDateOf(dateStr)
  }

  /** The blank test in safeParseDateWithLogging changes nothing: parseDate already yields null there. */
  lemma SafeParseDateAgrees(dateStr: Option<string>)
    ensures SafeParseDate(dateStr) == ParseDateOf(dateStr)
  {
    if IsNullOrBlank(dateStr) && IsPresent(dateStr) {
      assert Trim(dateStr.value) == [];
      forall k | 0 <= k < |DATE_PATTERNS| ensures ParseLocalDate("", DATE_PATTERNS[k]).None? {
        NoPatternReadsEmpty(k);
      }
    }
  }

  /** Text around the date is ignored: parsing the trimmed text gives the same date. */
  lemma ParseDateIgnoresSurroundingSpace(s: string)
    requires !IsBlank(s)
    ensures ParseDateOf(Some(s)) == ParseDateOf(Some(Trim(s)))
  {
    var t := Trim(s);
    assert t != [] && IsTrimmed(t);
    assert Trim(t) == t;
  }

  lemma DigitsExamples()
    ensures DigitsValue("2024") == 2024 && DigitsValue("2023") == 2023
    ensures DigitsValue("07") == 7 && DigitsValue("01") == 1 && DigitsValue("02") == 2
    ensures DigitsValue("30") == 30 && DigitsValue("7") == 7 && DigitsValue("1") == 1
  {
    assert DigitsValue("2") == 2;
    assert DigitsValue("20") == 20;
    assert DigitsValue("202") == 202 by { assert "202"[..2] == "20"; }
    assert DigitsValue("2024") == 2024 by { assert "2024"[..3] == "202"; }
    assert DigitsValue("2023") == 2023 by { assert "2023"[..3] == "202"; }
  }

  lemma FirstParseStep(patterns: seq<Pattern>, s: string)
    requires patterns != []
    ensures FirstParse(patterns, s)
         == if ParseLocalDate(s, patterns[0]).Some? then ParseLocalDate(s, patterns[0]) else FirstParse(patterns[1..], s)
  {
  }

  /** "yyyy-MM-dd" reads "2024-07-01" as 1 July 2024. */
  lemma ParseIsoDateExample()
    ensures ParseDateOf(Some("2024-07-01")) == Some(Date(2024, 7, 1))
  {
    DigitsExamples();
    assert AllDigits("2024") && AllDigits("07") && AllDigits("01");
    IsoLayoutReads("2024-07-01", "2024", "07", "01");
  }

  /** A day past the end of the month is clamped to its last day: "2023-02-30" reads as 28 February 2023. */
  lemma ParseClampsDayExample()
    ensures ParseDateOf(Some("2023-02-30")) == Some(Date(2023, 2, 28))
  {
    DigitsExamples();
    assert AllDigits("2023") && AllDigits("02") && AllDigits("30");
    IsoLayoutReads("2023-02-30", "2023", "02", "30");
    assert !IsLeap(2023);
  }

  /** Where the fields of a "yyyy-MM-dd" text sit. */
  lemma IsoLayoutSlices(s: string, y: string, m: string, d: string)
    requires |y| == 4 && |m| == 2 && |d| == 2
    requires s == y + "-" + m + "-" + d
    ensures |s| == 10 && s[0..4] == y && s[4] == '-' && s[5..7] == m && s[7] == '-' && s[8..10] == d
  {
    assert s[0..4] == y by {
      assert forall k :: 0 <= k < 4 ==> s[k] == y[k];
    }
    assert s[5..7] == m by {
      assert forall k :: 0 <= k < 2 ==> s[5 + k] == m[k];
    }
    assert s[8..10] == d by {
      assert forall k :: 0 <= k < 2 ==> s[8 + k] == d[k];
    }
  }

  /** A "yyyy-MM-dd" text starts and ends with a digit, so trimming leaves it unchanged. */
  lemma IsoLayoutTrimmed(s: string, y: string, m: string, d: string)
    requires |y| == 4 && |m| == 2 && |d| == 2 && AllDigits(y) && AllDigits(d)
    requires s == y + "-" + m + "-" + d
    ensures s != [] && IsTrimmed(s)
  {
    assert s[0] == y[0] && s[|s| - 1] == d[1];
    assert IsDigit(s[0]) && IsDigit(s[|s| - 1]);
  }

  lemma IsoLayoutScan(s: string, y: string, m: string, d: string)
    requires |y| == 4 && |m| == 2 && |d| == 2 && AllDigits(y) && AllDigits(m) && AllDigits(d)
    requires s == y + "-" + m + "-" + d
    ensures ScanPattern(s, DATE_PATTERNS[0]) == Some(Values(DigitsValue(y), DigitsValue(m), DigitsValue(d)))
  {
    IsoLayoutSlices(s, y, m, d);
    var v0 := Values(0, 0, 0);
    var v1 := v0.(year := DigitsValue(y));
    var v2 := v1.(month := DigitsValue(m));
    var v3 := v2.(day := DigitsValue(d));
    assert [YearOfEra] + [Lit('-'), Month(true), Lit('-'), Day(true)] == [YearOfEra, Lit('-'), Month(true), Lit('-'), Day(true)];
    assert [Lit('-')] + [Month(true), Lit('-'), Day(true)] == [Lit('-'), Month(true), Lit('-'), Day(true)];
    assert [Month(true)] + [Lit('-'), Day(true)] == [Month(true), Lit('-'), Day(true)];
    assert [Lit('-')] + [Day(true)] == [Lit('-'), Day(true)];
    assert [Day(true)] + [] == [Day(true)];
    assert Scan(s, 0, [YearOfEra, Lit('-'), Month(true), Lit('-'), Day(true)], v0)
        == Scan(s, 4, [Lit('-'), Month(true), Lit('-'), Day(true)], v1) by {
      ScanYear(s, 0, [Lit('-'), Month(true), Lit('-'), Day(true)], v0);
    }
    assert Scan(s, 4, [Lit('-'), Month(true), Lit('-'), Day(true)], v1)
        == Scan(s, 5, [Month(true), Lit('-'), Day(true)], v1) by {
      ScanLit(s, 4, '-', [Month(true), Lit('-'), Day(true)], v1);
    }
    assert Scan(s, 5, [Month(true), Lit('-'), Day(true)], v1)
        == Scan(s, 7, [Lit('-'), Day(true)], v2) by {
      ScanTwoDigits(s, 5, Month(true), [Lit('-'), Day(true)], v1);
    }
    assert Scan(s, 7, [Lit('-'), Day(true)], v2) == Scan(s, 8, [Day(true)], v2) by {
      ScanLit(s, 7, '-', [Day(true)], v2);
    }
    assert Scan(s, 8, [Day(true)], v2) == Scan(s, 10, [], v3) by {
      ScanTwoDigits(s, 8, Day(true), [], v2);
    }
    assert Scan(s, 10, [], v3) == Some(v3);
    assert DATE_PATTERNS[0] == Fields([YearOfEra, Lit('-'), Month(true), Lit('-'), Day(true)]);
  }

  lemma ParsedWhenScanned(s: string, p: Pattern, v: Values)
    requires ScanPattern(s, p) == Some(v) && ValidYearMonth(v) && 1 <= v.day <= 31
    ensures ParseLocalDate(s, p).Some?
  {
  }

  /** A trimmed text the first layout reads is read by that layout. */
  lemma FirstLayoutReads(s: string)
    requires s != [] && IsTrimmed(s) && ParseLocalDate(s, DATE_PATTERNS[0]).Some?
    ensures ParseDateOf(Some(s)) == ParseLocalDate(s, DATE_PATTERNS[0])
  {
    FirstParseStep(DATE_PATTERNS, s);
  }

  lemma IsoLayoutReads(s: string, y: string, m: string, d: string)
    requires |y| == 4 && |m| == 2 && |d| == 2 && AllDigits(y) && AllDigits(m) && AllDigits(d)
    requires s == y + "-" + m + "-" + d
    requires 1 <= DigitsValue(y) <= MAX_YEAR && 1 <= DigitsValue(m) <= 12 && 1 <= DigitsValue(d) <= 31
    ensures ParseDateOf(Some(s)) == ParseLocalDate(s, DATE_PATTERNS[0])
    ensures ScanPattern(s, DATE_PATTERNS[0]) == Some(Values(DigitsValue(y), DigitsValue(m), DigitsValue(d)))
  {
    IsoLayoutScan(s, y, m, d);
    IsoLayoutTrimmed(s, y, m, d);
    ParsedWhenScanned(s, DATE_PATTERNS[0], Values(DigitsValue(y), DigitsValue(m), DigitsValue(d)));
    FirstLayoutReads(s);
  }

  /** The keyword groups tried in order, with the status each selects. */
  const STATUS_RULES: seq<(seq<string>, BillStatus)> := [
    (["원안가결", "수정가결"], PASSED),
    (["폐기", "부결"], REJECTED),
    (["대안반영"], ALTERNATIVE),
    (["철회"], WITHDRAWN),
    (["위원회"], IN_COMMITTEE),
    (["본회의"], IN_PLENARY)
  ]

  /** determineBillStatus. */
  function DetermineBillStatus(processResult: Option<string>): (r: BillStatus)
    ensures r == PROPOSED <==> !IsPresent(processResult)
    ensures r != EXPIRED
  {
    if !IsPresent(processResult) then PROPOSED
    else
      var s := processResult.value;
      if Contains(s, "원안가결") || Contains(s, "수정가결") then PASSED
      else if Contains(s, "폐기") || Contains(s, "부결") then REJECTED
      else if Contains(s, "대안반영") then ALTERNATIVE
      else if Contains(s, "철회") then WITHDRAWN
      else if Contains(s, "위원회") then IN_COMMITTEE
      else if Contains(s, "본회의") then IN_PLENARY
      else PROCESSING
  }

  /** The status is that of the first keyword group the text contains, PROCESSING when none. */
  lemma BillStatusIsFirstMatchingGroup(s: string)
    requires |s| > 0
    ensures DetermineBillStatus(Some(s)) == Classify(STATUS_RULES, s, PROCESSING)
  {
    var r := STATUS_RULES;
    ClassifyStep(r, s, PROCESSING);
    ClassifyStep(r[1..], s, PROCESSING);
    ClassifyStep(r[2..], s, PROCESSING);
    ClassifyStep(r[3..], s, PROCESSING);
    ClassifyStep(r[4..], s, PROCESSING);
    ClassifyStep(r[5..], s, PROCESSING);
    assert r[1..][1..] == r[2..] && r[2..][1..] == r[3..] && r[3..][1..] == r[4..];
    assert r[4..][1..] == r[5..] && r[5..][1..] == [];
    ContainsAnyTwo(s, "원안가결", "수정가결");
    ContainsAnyTwo(s, "폐기", "부결");
    ContainsAnyOne(s, "대안반영");
    ContainsAnyOne(s, "철회");
    ContainsAnyOne(s, "위원회");
    ContainsAnyOne(s, "본회의");
  }

  /** "대안반영폐기" (merged into an alternative, then discarded) counts as rejected, not as alternative. */
  lemma AlternativeDiscardedIsRejected()
    ensures DetermineBillStatus(Some("대안반영폐기")) == REJECTED
  {
    var s := "대안반영폐기";
    AbsentFirstChar(s, "원안가결");
    AbsentFirstChar(s, "수정가결");
    assert OccursAt(s, "폐기", 4);
  }

  /** A pass keyword wins over every later keyword. */
  lemma PassedTakesPrecedence(s: string)
    requires Contains(s, "원안가결") || Contains(s, "수정가결")
    ensures DetermineBillStatus(Some(s)) == PASSED
  {
  }
}
