/**
 * StatementApiMapper: the helpers that turn a statement from the
 * assembly news API into the application's record: content checks, the
 * link to the original article, the statement type and the phrases and
 * checkable claims pulled out of the text.
 */
module StatementApiMapper {
  import opened JavaLang
  import opened Strings
  import opened Split
  import opened Collections
  import opened DomainTypes
  import StatementRelevanceService

  /** isInvalidContent. */
  function IsInvalidContent(title: Option<string>, content: Option<string>): (b: bool)
    ensures !b ==> content.Some? && |content.value| >= 10
    ensures b <==> (title.None? || (forall i :: 0 <= i < |title.value| ==> IsTrimSpace(title.value[i]))
                    || content.None? || (forall i :: 0 <= i < |content.value| ==> IsTrimSpace(content.value[i]))
                    || |content.value| < 10)
  {
    IsNullOrBlank(title) || IsNullOrBlank(content) || |content.value| < 10
  }

  // ------------------------------------------------------------ original URL

  const NEWS_URL_PREFIX: string := "https://assembly.news.go.kr/news/"
  const SLUG_LIMIT: nat := 50

  /** The characters a slug keeps: `[a-zA-Z0-9가-힣]`. */
  predicate IsSlugChar(c: char) {
    IsAsciiLetter(c) || IsDigit(c) || IsHangul(c)
  }

  /** `replaceAll("[^a-zA-Z0-9가-힣]", "-")`. */
  function DashOthers(s: string): (r: string)
    ensures |r| == |s|
    ensures forall i :: 0 <= i < |s| ==> r[i] == if IsSlugChar(s[i]) then s[i] else '-'
  {
    if s == [] then [] else [if IsSlugChar(s[0]) then s[0] else '-'] + DashOthers(s[1..])
  }

  /** The text with its dashes taken out. */
  function WithoutDashes(s: string): (r: string)
    ensures |r| <= |s| && '-' !in r
  {
    if s == [] then [] else (if s[0] == '-' then [] else [s[0]]) + WithoutDashes(s[1..])
  }

  /** The slug characters of the text, in order. */
  function SlugChars(s: string): (r: string)
    ensures |r| <= |s| && forall c :: c in r ==> IsSlugChar(c)
  {
    if s == [] then [] else (if IsSlugChar(s[0]) then [s[0]] else []) + SlugChars(s[1..])
  }

  /** Dashing the other characters leaves the slug characters, in order, between the dashes. */
  lemma {:induction false} DashOthersKeepsSlugChars(s: string)
    ensures WithoutDashes(DashOthers(s)) == SlugChars(s)
    decreases |s|
  {
    if s != [] {
      var d := DashOthers(s);
      assert d[1..] == DashOthers(s[1..]);
      DashOthersKeepsSlugChars(s[1..]);
    }
  }

  predicate NoDoubleDash(s: string) {
    forall i :: 0 <= i < |s| - 1 ==> !(s[i] == '-' && s[i + 1] == '-')
  }

  /** `replaceAll("-{2,}", "-")`: each run of two or more dashes becomes one. */
  function CollapseDashes(s: string): (r: string)
    ensures |r| <= |s|
    ensures r == [] <==> s == []
    ensures r != [] ==> r[0] == s[0]
    ensures NoDoubleDash(r)
    ensures forall c :: c in r ==> c in s
    ensures NoDoubleDash(s) ==> r == s
  {
    if s == [] then []
    else if |s| >= 2 && s[0] == '-' && s[1] == '-' then
      var r := CollapseDashes(s[1..]);
      assert forall c :: c in s[1..] ==> c in s;
      r
    else
      var t := CollapseDashes(s[1..]);
      assert forall c :: c in s[1..] ==> c in s;
      assert NoDoubleDash(s) ==> NoDoubleDash(s[1..]) by {
        if NoDoubleDash(s) {
          forall i | 0 <= i < |s[1..]| - 1 ensures !(s[1..][i] == '-' && s[1..][i + 1] == '-') {
            assert s[1..][i] == s[i + 1] && s[1..][i + 1] == s[i + 2];
          }
        }
      }
      var r := [s[0]] + t;
      assert forall i :: 1 <= i < |r| ==> r[i] == t[i - 1];
      assert forall c :: c in r ==> c == s[0] || c in t;
      r
  }

  /** Collapsing removes dashes only: the other characters stay, in order. */
  lemma {:induction false} CollapseKeepsNonDashes(s: string)
    ensures WithoutDashes(CollapseDashes(s)) == WithoutDashes(s)
    decreases |s|
  {
    if s != [] {
      CollapseKeepsNonDashes(s[1..]);
      if !(|s| >= 2 && s[0] == '-' && s[1] == '-') {
        var r := CollapseDashes(s);
        assert r == [s[0]] + CollapseDashes(s[1..]);
        assert r[0] == s[0] && r[1..] == CollapseDashes(s[1..]);
      }
    }
  }

  /** A double dash collapses as a single one would, wherever it stands. */
  lemma {:induction false} CollapseDoubleDash(a: string, b: string)
    ensures CollapseDashes(a + "--" + b) == CollapseDashes(a + "-" + b)
    decreases |a|
  {
    var s := a + "--" + b;
    var t := a + "-" + b;
    if a == [] {
      assert s[1..] == t;
    } else {
      assert s[0] == t[0] == a[0] && s[1] == t[1];
      assert s[1..] == a[1..] + "--" + b && t[1..] == a[1..] + "-" + b;
      CollapseDoubleDash(a[1..], b);
    }
  }

  /** The title's slug: at most 50 characters, non-slug characters dashed, dash runs collapsed. */
  function Slug(title: string): (r: string)
    ensures |r| <= SLUG_LIMIT && |r| <= |title|
    ensures NoDoubleDash(r)
    ensures forall c :: c in r ==> IsSlugChar(c) || c == '-'
    ensures WithoutDashes(r) == SlugChars(if |title| > SLUG_LIMIT then title[..SLUG_LIMIT] else title)
  {
    var cut := if |title| > SLUG_LIMIT then title[..SLUG_LIMIT] else title;
    var dashed := DashOthers(cut);
    assert forall c :: c in dashed ==> IsSlugChar(c) || c == '-';
    DashOthersKeepsSlugChars(cut);
    CollapseKeepsNonDashes(dashed);
    CollapseDashes(dashed)
  }

  /** generateOriginalUrl: the news prefix, the date's digits, '/', the title's slug. */
  function GenerateOriginalUrl(regDate: string, title: string): (url: string)
    ensures StartsWith(url, NEWS_URL_PREFIX)
    ensures var rest := url[|NEWS_URL_PREFIX|..];
      var d := KeepDigits(regDate);
      |rest| > |d| && rest[..|d|] == d && AllDigits(rest[..|d|]) && rest[|d|] == '/'
      && rest[|d| + 1..] == Slug(title) && NoDoubleDash(rest[|d| + 1..]) && |rest[|d| + 1..]| <= SLUG_LIMIT
  {
    var d := KeepDigits(regDate);
    var slug := Slug(title);
    UrlLayout(d, slug);
    NEWS_URL_PREFIX + d + "/" + slug
  }

  lemma UrlLayout(d: string, slug: string)
    ensures var url := NEWS_URL_PREFIX + d + "/" + slug;
      var rest := url[|NEWS_URL_PREFIX|..];
      StartsWith(url, NEWS_URL_PREFIX) && rest == d + "/" + slug
      && |rest| > |d| && rest[..|d|] == d && rest[|d|] == '/' && rest[|d| + 1..] == slug
  {
    var url := NEWS_URL_PREFIX + d + "/" + slug;
    assert url[..|NEWS_URL_PREFIX|] == NEWS_URL_PREFIX;
    assert url[|NEWS_URL_PREFIX|..] == d + "/" + slug;
  }

  /** The digits of "yyyy-MM-dd" are "yyyyMMdd". */
  lemma DashedDateDigits(y: string, m: string, d: string)
    requires AllDigits(y) && AllDigits(m) && AllDigits(d)
    ensures KeepDigits(y + "-" + m + "-" + d) == y + m + d
  {
    assert KeepDigits("-") == [];
    KeepDigitsAppend("-", d);
    KeepDigitsAppend(m, "-" + d);
    KeepDigitsAppend("-", m + ("-" + d));
    KeepDigitsAppend(y, "-" + (m + ("-" + d)));
    AppendAssoc(y + "-" + m, "-", d);
    AppendAssoc(y + "-", m, "-" + d);
    AppendAssoc(y, "-", m + ("-" + d));
  }

  lemma AppendAssoc(a: string, b: string, c: string)
    ensures a + b + c == a + (b + c)
  {
  }

  /** A date written "yyyy-MM-dd" gives the path segment "yyyyMMdd". */
  lemma UrlOfIsoDate(y: string, m: string, d: string, title: string)
    requires AllDigits(y) && AllDigits(m) && AllDigits(d)
    ensures GenerateOriginalUrl(y + "-" + m + "-" + d, title) == NEWS_URL_PREFIX + (y + m + d) + "/" + Slug(title)
  {
    DashedDateDigits(y, m, d);
  }

  // --------------------------------------------------------- statement types

  /** The keyword groups of determineTypeCodeFromContent, in the order they are tried. */
  const TYPE_RULES: seq<(seq<string>, string)> := [
    (["인터뷰", "대담"], "INTERVIEW"),
    (["연설", "대회"], "SPEECH"),
    (["국회", "본회의"], "ASSEMBLY"),
    (["위원회", "상임위"], "COMMITTEE"),
    (["보도자료", "발표"], "PRESS"),
    (["토론", "논쟁"], "DEBATE"),
    (["sns", "트위터", "페이스북", "인스타그램"], "SNS")
  ]

  /** determineTypeCodeFromContent: the code of the first group found in the lower-cased content. */
  function DetermineTypeCodeFromContent(content: string): (code: string)
    ensures code == "OTHER" <==> forall j :: 0 <= j < |TYPE_RULES| ==> !ContainsAny(Lower(content), TYPE_RULES[j].0)
    ensures code != "OTHER" ==>
      exists k :: (0 <= k < |TYPE_RULES| && TYPE_RULES[k].1 == code
                   && ContainsAny(Lower(content), TYPE_RULES[k].0)
                   && forall j :: 0 <= j < k ==> !ContainsAny(Lower(content), TYPE_RULES[j].0))
  {
    TypeRulesAvoidOther();
    ClassifyFirstGroup(TYPE_RULES, Lower(content), "OTHER");
    Classify(TYPE_RULES, Lower(content), "OTHER")
  }

  lemma TypeRulesAvoidOther()
    ensures forall k :: 0 <= k < |TYPE_RULES| ==> TYPE_RULES[k].1 != "OTHER"
  {
  }

  /** determineStatementType: the eight API codes; anything else is OTHER. */
  function DetermineStatementType(typeCode: string): (t: StatementType)
    ensures t == StatementType.OTHER <==> typeCode !in {"SPEECH", "INTERVIEW", "PRESS", "DEBATE", "ASSEMBLY", "COMMITTEE", "MEDIA", "SNS"}
  {
    match typeCode
    case "SPEECH" => SPEECH
    case "INTERVIEW" => INTERVIEW
    case "PRESS" => PRESS_RELEASE
    case "DEBATE" => DEBATE
    case "ASSEMBLY" => ASSEMBLY_SPEECH
    case "COMMITTEE" => COMMITTEE_SPEECH
    case "MEDIA" => MEDIA_COMMENT
    case "SNS" => SOCIAL_MEDIA
    case _ => StatementType.OTHER
  }

  /** The API code of each type but OTHER. */
  function TypeCode(t: StatementType): (code: Option<string>)
    ensures code.None? <==> t == StatementType.OTHER
  {
    match t
    case SPEECH => Some("SPEECH")
    case INTERVIEW => Some("INTERVIEW")
    case PRESS_RELEASE => Some("PRESS")
    case DEBATE => Some("DEBATE")
    case ASSEMBLY_SPEECH => Some("ASSEMBLY")
    case COMMITTEE_SPEECH => Some("COMMITTEE")
    case MEDIA_COMMENT => Some("MEDIA")
    case SOCIAL_MEDIA => Some("SNS")
    case OTHER => None
  }

  /** The mapping is a bijection between the eight codes and the types other than OTHER. */
  lemma StatementTypeRoundTrip(t: StatementType, code: string)
    ensures TypeCode(t).Some? ==> DetermineStatementType(TypeCode(t).value) == t
    ensures DetermineStatementType(code) != StatementType.OTHER ==> TypeCode(DetermineStatementType(code)) == Some(code)
  {
  }

  /** Content alone never yields a media comment: no keyword group carries the "MEDIA" code. */
  lemma ContentNeverMedia(content: string)
    ensures DetermineStatementType(DetermineTypeCodeFromContent(content)) != MEDIA_COMMENT
  {
    ClassifyAvoids(TYPE_RULES, Lower(content), "OTHER", "MEDIA");
  }

  // ---------------------------------------------------------------- counting

  /** The number of non-overlapping occurrences of every word in the lower-cased text. */
  function TotalOccurrences(lower: string, words: seq<string>): nat
    requires forall w :: w in words ==> |w| > 0
  {
    if words == [] then 0 else Occurrences(lower, Lower(words[0])) + TotalOccurrences(lower, words[1..])
  }

  /** The total is zero exactly when none of the words occurs in the text. */
  lemma {:induction false} TotalOccurrencesZero(lower: string, words: seq<string>)
    requires forall w :: w in words ==> |w| > 0
    ensures TotalOccurrences(lower, words) == 0 <==> forall w :: w in words ==> !Contains(lower, Lower(w))
  {
    if words != [] {
      TotalOccurrencesZero(lower, words[1..]);
      assert forall w :: w in words <==> w == words[0] || w in words[1..] by {
        assert words == [words[0]] + words[1..];
      }
      if forall w :: w in words ==> !Contains(lower, Lower(w)) {
        assert !Contains(lower, Lower(words[0]));
      }
    }
  }

  /**
   * countWords: for each word, repeated indexOf from just past the
   * previous match. That inner loop is the one `countOccurrences` runs,
   * so it is called here rather than written out a second time.
   */
  method CountWords(text: string, words: seq<string>) returns (count: nat)
    requires forall w :: w in words ==> |w| > 0
    ensures count == TotalOccurrences(Lower(text), words)
  {
    count := 0;
    var lowerText := Lower(text);
    var i := 0;
    while i < |words|
      invariant 0 <= i <= |words|
      invariant count + TotalOccurrences(lowerText, words[i..]) == TotalOccurrences(lowerText, words)
    {
      assert words[i..][1..] == words[i + 1..];
      var found := StatementRelevanceService.CountOccurrences(lowerText, Lower(words[i]));
      count := count + found;
      i := i + 1;
    }
  }

  // ------------------------------------------------------ phrases and claims

  /** The trimmed parts of 6 to 49 characters, in order. */
  function PhraseCandidates(parts: seq<string>): seq<string> {
    if parts == [] then []
    else
      var part := Trim(parts[|parts| - 1]);
      PhraseCandidates(parts[..|parts| - 1]) + (if 5 < |part| < 50 then [part] else [])
  }

  /** Every candidate is trimmed and has 6 to 49 characters. */
  lemma {:induction false} PhraseCandidatesShape(parts: seq<string>)
    ensures forall p :: p in PhraseCandidates(parts) ==> 5 < |p| < 50 && IsTrimmed(p)
    decreases |parts|
  {
    if parts != [] {
      PhraseCandidatesShape(parts[..|parts| - 1]);
    }
  }

  /** The key phrases of a content: at most five, each a trimmed part of 6 to 49 characters. */
  function KeyPhrasesOf(content: string): (r: seq<string>)
    ensures |r| <= 5
    ensures forall p :: p in r ==> 5 < |p| < 50 && IsTrimmed(p)
  {
    PhraseCandidatesShape(JavaSplit(content, OneOf([',', '"', '\''])));
    Take(PhraseCandidates(JavaSplit(content, OneOf([',', '"', '\'']))), 5)
  }

  /** One more part adds its trimmed form when that has 6 to 49 characters. */
  lemma PhraseCandidatesStep(parts: seq<string>, i: nat)
    requires i < |parts|
    ensures PhraseCandidates(parts[..i + 1])
         == PhraseCandidates(parts[..i]) + (if 5 < |Trim(parts[i])| < 50 then [Trim(parts[i])] else [])
  {
    assert parts[..i + 1][..i] == parts[..i];
  }

  /** The loop of extractKeyPhrases: keeps each trimmed part of 6 to 49 characters, in order. */
  method CollectPhraseCandidates(parts: seq<string>) returns (phrases: seq<string>)
    ensures phrases == PhraseCandidates(parts)
  {
    phrases := [];
    var i := 0;
    while i < |parts|
      invariant 0 <= i <= |parts|
      invariant phrases == PhraseCandidates(parts[..i])
    {
      PhraseCandidatesStep(parts, i);
      var part := Trim(parts[i]);
      if 5 < |part| < 50 {
        phrases := phrases + [part];
      }
      i := i + 1;
    }
    assert parts[..|parts|] == parts;
  }

  /** extractKeyPhrases: collects the candidate parts, then keeps the first five. */
  method ExtractKeyPhrases(content: string) returns (r: seq<string>)
    ensures r == KeyPhrasesOf(content)
  {
    var phrases := CollectPhraseCandidates(JavaSplit(content, OneOf([',', '"', '\''])));
    r := Take(phrases, 5);
  }

  /** `matches(".*\\d+.*")`: a digit somewhere and no line terminator, which `.` cannot match. */
  predicate HasDigitOnOneLine(s: string) {
    (exists i :: 0 <= i < |s| && IsDigit(s[i])) && forall i :: 0 <= i < |s| ==> !IsLineTerminator(s[i])
  }

  /** A sentence that states something checkable: a number, or one of the reporting phrases. */
  predicate IsCheckable(sentence: string) {
    HasDigitOnOneLine(sentence) || Contains(sentence, "이다") || Contains(sentence, "했다")
    || Contains(sentence, "라고 말했") || Contains(sentence, "주장")
  }

  /** Trimming keeps a final character that is not a space. */
  lemma TrimKeepsLast(s: string)
    requires s != [] && !IsTrimSpace(s[|s| - 1])
    ensures Trim(s) != [] && Trim(s)[|Trim(s)| - 1] == s[|s| - 1]
  {
    var l := TrimLeft(s);
    assert l != [] && l[|l| - 1] == s[|s| - 1];
  }

  /** The checkable item made of a sentence: trimmed, with a final '.' added unless it had one. */
  function CheckableItem(sentence: string): (item: string)
    ensures EndsWith(item, ".")
  {
    CheckableItemEndsWithDot(sentence);
    Trim(sentence) + (if EndsWith(sentence, ".") then "" else ".")
  }

  lemma CheckableItemEndsWithDot(sentence: string)
    ensures EndsWith(Trim(sentence) + (if EndsWith(sentence, ".") then "" else "."), ".")
  {
    var t := Trim(sentence);
    if EndsWith(sentence, ".") {
      assert t != [] && t[|t| - 1] == '.' by {
        assert sentence[|sentence| - 1..] == ".";
        TrimKeepsLast(sentence);
      }
      assert (t + "")[|t| - 1..] == ".";
    } else {
      assert (t + ".")[|t|..] == ".";
    }
  }

  function CheckableItems(sentences: seq<string>): (r: seq<string>)
    ensures |r| <= |sentences|
    ensures forall item :: item in r ==> EndsWith(item, ".")
  {
    if sentences == [] then []
    else
      var last := sentences[|sentences| - 1];
      CheckableItems(sentences[..|sentences| - 1]) + (if IsCheckable(last) then [CheckableItem(last)] else [])
  }

  /** What extractCheckableItems returns. */
  function CheckableItemsOf(content: Option<string>): (r: seq<string>)
    ensures !IsPresent(content) ==> r == []
    ensures |r| <= 3
    ensures forall item :: item in r ==> EndsWith(item, ".")
  {
    if !IsPresent(content) then [] else Take(CheckableItems(JavaSplit(content.value, Literal(". "))), 3)
  }

  /** extractCheckableItems: one pass over the sentences split on ". ", then the first three. */
  method ExtractCheckableItems(content: Option<string>) returns (r: seq<string>)
    ensures r == CheckableItemsOf(content)
  {
    if content.None? || content.value == [] {
      return [];
    }
    var items := [];
    var sentences := JavaSplit(content.value, Literal(". "));
    var i := 0;
    while i < |sentences|
      invariant 0 <= i <= |sentences|
      invariant items == CheckableItems(sentences[..i])
    {
      var sentence := sentences[i];
      assert CheckableItems(sentences[..i + 1])
        == CheckableItems(sentences[..i]) + (if IsCheckable(sentence) then [CheckableItem(sentence)] else []) by {
        assert sentences[..i + 1][..i] == sentences[..i];
        assert sentences[..i + 1][i] == sentence;
      }
      if IsCheckable(sentence) {
        items := items + [CheckableItem(sentence)];
      }
      i := i + 1;
    }
    assert sentences[..|sentences|] == sentences;
    r := Take(items, 3);
    assert r == CheckableItemsOf(content);
  }
}
