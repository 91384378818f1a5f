/**
 * StatementRelevanceService: how strongly a statement concerns a named
 * figure, scored from the title and the content, and the ordering of
 * statements by that score. Every increment is a whole number, so the
 * score is kept as an integer.
 */
module StatementRelevanceService {
  import opened JavaLang
  import opened Strings
  import opened Collections

  /** The parts of a statement the score reads. */
  datatype Statement = Statement(title: Option<string>, content: Option<string>)

  /** countOccurrences: repeated indexOf from just past the previous match. */
  method CountOccurrences(text: string, pattern: string) returns (count: nat)
    requires |pattern| > 0
    ensures count == Occurrences(text, pattern)
  {
    count := 0;
    var index: nat := 0;
    var pos := IndexFrom(text, pattern, index);
    while pos != -1
      invariant index <= |text| && pos == IndexFrom(text, pattern, index)
      invariant count + CountFrom(text, pattern, index) == CountFrom(text, pattern, 0)
      decreases |text| - index
    {
      CountFromStep(text, pattern, index);
      assert CountFrom(text, pattern, index) == 1 + CountFrom(text, pattern, pos + |pattern|);
      count := count + 1;
      index := pos + |pattern|;
      pos := IndexFrom(text, pattern, index);
    }
    CountFromStep(text, pattern, index);
  }

  /** Index of the first '.', or -1. */
  function FirstDot(text: string): (i: int)
    ensures -1 <= i < |text|
    ensures i >= 0 ==> text[i] == '.'
    ensures forall j :: 0 <= j < |text| && (i == -1 || j < i) ==> text[j] != '.'
  {
    if text == [] then -1
    else if text[0] == '.' then 0
    else
      var i := FirstDot(text[1..]);
      assert forall j :: 1 <= j < |text| ==> text[j] == text[1..][j - 1];
      if i == -1 then -1 else i + 1
  }

  /** getFirstSentence: the text through its first '.', unless that '.' opens the text or there is none. */
  function GetFirstSentence(text: string): (r: string)
    ensures r <= text
    ensures r != text ==> |r| >= 2 && r[|r| - 1] == '.' && '.' !in r[..|r| - 1]
    ensures (forall j :: 0 < j < |text| ==> text[j] != '.') ==> r == text
    ensures forall k :: 0 < k < |text| && text[k] == '.' && '.' !in text[..k] ==> r == text[..k + 1]
    ensures |text| > 0 && text[0] == '.' ==> r == text
  {
    var endIndex := FirstDot(text);
    if endIndex > 0 then
      var r := text[..endIndex + 1];
      assert r[..|r| - 1] == text[..endIndex];
      r
    else text
  }

  /** The title's part of the score: 5 for containing the name, 5 more for starting with it. */
  function TitleScore(title: Option<string>, name: string): (score: int)
    ensures score == 0 || score == 5 || score == 10
    ensures score > 0 <==> title.Some? && Contains(title.value, name)
    ensures score == 10 <==> title.Some? && StartsWith(title.value, name)
  {
    if title.Some? && Contains(title.value, name) then 5 + (if StartsWith(title.value, name) then 5 else 0)
    else 0
  }

  const TITLE_SUFFIXES: seq<string> := [" 의원", " 대표", " 위원장", "의원", "대표"]
  const SPEECH_VERBS: seq<string> := ["말했", "주장했", "강조했", "밝혔"]

  /** Mentions of the name followed by a title, over the five title forms. */
  function TitledMentions(content: string, name: string): (n: nat)
  {
    Occurrences(content, name + " 의원") + Occurrences(content, name + " 대표")
    + Occurrences(content, name + " 위원장") + Occurrences(content, name + "의원")
    + Occurrences(content, name + "대표")
  }

  /** The content's part of the score. */
  function ContentScore(content: string, name: string): (score: nat)
    requires |name| > 0
    ensures score >= Occurrences(content, name)
  {
    var quoted :=
      (Contains(content, name + "는 ") || Contains(content, name + " "))
      && ContainsAny(content, SPEECH_VERBS);
    Occurrences(content, name) + 2 * TitledMentions(content, name)
    + (if quoted then 10 else 0)
    + (if Contains(GetFirstSentence(content), name) then 3 else 0)
  }

  /** calculateRelevanceScore as a whole number. */
  function RelevanceScore(s: Statement, name: string): (score: nat)
    requires |name| > 0 || s.content.None?
    ensures s.title.None? && s.content.None? ==> score == 0
    ensures score >= TitleScore(s.title, name)
  {
    TitleScore(s.title, name) + (if s.content.Some? then ContentScore(s.content.value, name) else 0)
  }

  /** A name absent from the title and the content gives 0. */
  lemma {:induction false} AbsentNameScoresZero(s: Statement, name: string)
    requires |name| > 0
    requires s.title.None? || !Contains(s.title.value, name)
    requires s.content.None? || !Contains(s.content.value, name)
    ensures RelevanceScore(s, name) == 0
  {
    if s.content.Some? {
      var c := s.content.value;
      forall q: string ensures !Contains(c, name + q) {
        ExtensionContains(c, name, q);
      }
      assert Occurrences(c, name + " 의원") == 0;
      assert !Contains(c, name + "는 ") && !Contains(c, name + " ");
      PrefixContains(c, GetFirstSentence(c), name);
    }
  }

  /** Text containing p + q contains p. */
  lemma ExtensionContains(s: string, p: string, q: string)
    ensures Contains(s, p + q) ==> Contains(s, p)
  {
    if Contains(s, p + q) {
      var i :| OccursAt(s, p + q, i);
      assert s[i..i + |p|] == s[i..i + |p + q|][..|p|];
      assert OccursAt(s, p, i);
    }
  }

  /** A prefix of s that contains p makes s contain p. */
  lemma PrefixContains(s: string, pre: string, p: string)
    requires pre <= s
    ensures Contains(pre, p) ==> Contains(s, p)
  {
    if Contains(pre, p) {
      var i :| OccursAt(pre, p, i);
      assert s[i..i + |p|] == pre[i..i + |p|];
      assert OccursAt(s, p, i);
    }
  }

  /** A name that occurs in the content is worth at least one point. */
  lemma {:induction false} NameInContentScores(s: Statement, name: string)
    requires |name| > 0 && s.content.Some? && Contains(s.content.value, name)
    ensures RelevanceScore(s, name) >= 1
  {
  }

  /** calculateRelevanceScore: adds each weight to a running score. */
  method CalculateRelevanceScore(statement: Statement, figureName: string) returns (score: nat)
    requires |figureName| > 0 || statement.content.None?
    ensures score == RelevanceScore(statement, figureName)
  {
    score := 0;
    if statement.title.Some? && Contains(statement.title.value, figureName) {
      score := score + 5;
      if StartsWith(statement.title.value, figureName) {
        score := score + 5;
      }
    }
    if statement.content.Some? {
      var content := statement.content.value;
      var nameCount := CountOccurrences(content, figureName);
      score := score + nameCount;
      var titled := 0;
      var i := 0;
      while i < |TITLE_SUFFIXES|
        invariant 0 <= i <= |TITLE_SUFFIXES|
        invariant titled == SuffixMentions(content, figureName, i)
      {
        var c := CountOccurrences(content, figureName + TITLE_SUFFIXES[i]);
        titled := titled + c;
        i := i + 1;
      }
      SuffixMentionsAll(content, figureName);
      score := score + 2 * titled;
      if (Contains(content, figureName + "는 ") || Contains(content, figureName + " "))
         && ContainsAny(content, SPEECH_VERBS) {
        score := score + 10;
      }
      var firstSentence := GetFirstSentence(content);
      if Contains(firstSentence, figureName) {
        score := score + 3;
      }
    }
  }

  /** Mentions with the first k title forms. */
  function SuffixMentions(content: string, name: string, k: nat): nat
    requires k <= |TITLE_SUFFIXES|
  {
    if k == 0 then 0 else SuffixMentions(content, name, k - 1) + Occurrences(content, name + TITLE_SUFFIXES[k - 1])
  }

  lemma SuffixMentionsAll(content: string, name: string)
    ensures SuffixMentions(content, name, |TITLE_SUFFIXES|) == TitledMentions(content, name)
  {
    assert SuffixMentions(content, name, 1) == Occurrences(content, name + " 의원");
    assert SuffixMentions(content, name, 2) == SuffixMentions(content, name, 1) + Occurrences(content, name + " 대표");
    assert SuffixMentions(content, name, 3) == SuffixMentions(content, name, 2) + Occurrences(content, name + " 위원장");
    assert SuffixMentions(content, name, 4) == SuffixMentions(content, name, 3) + Occurrences(content, name + "의원");
  }

  /** isMainSpeaker. */
  function IsMainSpeaker(s: Statement, name: string): (b: bool)
    requires |name| > 0 || s.content.None?
    ensures b <==> RelevanceScore(s, name) >= 10
    ensures s.title.Some? && StartsWith(s.title.value, name) ==> b
  {
    RelevanceScore(s, name) >= 10
  }

  /** The statements paired with their scores. */
  function Scored(statements: seq<Statement>, name: string): (r: seq<(Statement, int)>)
    requires |name| > 0
    ensures |r| == |statements|
    ensures forall i :: 0 <= i < |r| ==> r[i] == (statements[i], RelevanceScore(statements[i], name))
  {
    if statements == [] then [] else [(statements[0], RelevanceScore(statements[0], name))] + Scored(statements[1..], name)
  }

  /** The ordering of findStatementsByRelevance: highest score first. */
  function RankByRelevance(statements: seq<Statement>, name: string): (r: seq<(Statement, int)>)
    requires |name| > 0
    ensures SortedDesc(r)
    ensures multiset(r) == multiset(Scored(statements, name))
    ensures forall e :: e in r ==> e.0 in statements && e.1 == RelevanceScore(e.0, name)
  {
    var scored := Scored(statements, name);
    var r := SortDesc(scored);
    assert forall e :: e in r ==> e in multiset(scored);
    r
  }
}
