/**
 * PoliticalAnalysisService: keyword frequencies over statements,
 * summaries of long texts, the sentence that best states a position,
 * and vote and bill tallies.
 */
module PoliticalAnalysisService {
  import opened JavaLang
  import opened Strings
  import opened Split
  import opened Collections
  import opened DomainTypes
  import V = VoteResultType

  // ---------------------------------------------------------------- keywords

  const STOPWORDS: set<string> := {
    "이", "그", "저", "이것", "그것", "저것", "이런", "그런", "저런",
    "및", "등", "을", "를", "이다", "있다", "하다", "그리고", "또한", "그러나"
  }

  const MIN_WORD_LENGTH: nat := 2

  /** The word has a Hangul syllable or a Latin letter, so `[^가-힣a-zA-Z]+` does not match it. */
  predicate HasLetter(w: string) {
    exists i :: 0 <= i < |w| && (IsHangul(w[i]) || IsAsciiLetter(w[i]))
  }

  /** The filters a word passes to be counted. */
  predicate IsKeyword(w: string) {
    |w| >= MIN_WORD_LENGTH && w !in STOPWORDS && !AllDigits(w) && HasLetter(w)
  }

  /** The trimmed words that pass the filters, in order. */
  function KeywordsOf(words: seq<string>): (r: seq<string>)
    ensures forall w :: w in r ==> IsKeyword(w)
  {
    if words == [] then []
    else
      var w := Trim(words[0]);
      (if IsKeyword(w) then [w] else []) + KeywordsOf(words[1..])
  }

  /** The counted words of all non-null, non-blank contents, each split on `\s+`. */
  function TextWords(contents: seq<Option<string>>): (r: seq<string>)
    ensures forall w :: w in r ==> IsKeyword(w)
  {
    if contents == [] then []
    else
      (if IsNullOrBlank(contents[0]) then [] else KeywordsOf(JavaSplit(contents[0].value, SpaceRun)))
      + TextWords(contents[1..])
  }

  /** groupingBy(identity, counting()): each key with the number of times it occurs. */
  function Tally(keys: seq<string>, words: seq<string>): (t: seq<(string, int)>)
    ensures |t| == |keys|
    ensures forall i :: 0 <= i < |keys| ==> t[i] == (keys[i], multiset(words)[keys[i]])
  {
    if keys == [] then [] else [(keys[0], multiset(words)[keys[0]])] + Tally(keys[1..], words)
  }

  function Min(a: int, b: int): int {
    if a <= b then a else b
  }

  /** The entries sorted by count, highest first, keeping the first `limit`. */
  function Ranking(words: seq<string>, limit: nat): (r: seq<(string, int)>)
    ensures |r| == Min(limit, |Distinct(words)|)
    ensures SortedDesc(r)
  {
    var s := SortDesc(Tally(Distinct(words), words));
    s[..Min(limit, |s|)]
  }

  /** Every ranked entry is a word of the text with its number of occurrences. */
  lemma RankingCounts(words: seq<string>, limit: nat)
    ensures forall e :: e in Ranking(words, limit) ==> e.0 in words && e.1 == multiset(words)[e.0] >= 1
  {
    var t := Tally(Distinct(words), words);
    var s := SortDesc(t);
    forall e | e in Ranking(words, limit) ensures e.0 in words && e.1 == multiset(words)[e.0] >= 1 {
      assert e in multiset(s);
      assert e in t;
    }
  }

  /** analyzeKeywordsFromText; a negative limit makes Stream.limit throw. */
  function AnalyzeKeywordsFromText(contents: Option<seq<Option<string>>>, limit: int): (r: Result<seq<(string, int)>>)
    ensures contents.None? || contents.value == [] ==> r == Ok([])
    ensures contents.Some? && contents.value != [] && limit < 0 ==> r == Thrown(NegativeLimit)
    ensures r.Ok? ==> r.value == [] || |r.value| <= limit
    ensures r.Ok? ==> forall e :: e in r.value ==> IsKeyword(e.0) && e.1 >= 1
  {
    if contents.None? || contents.value == [] then Ok([])
    else if limit < 0 then Thrown(NegativeLimit)
    else
      var words := TextWords(contents.value);
      RankingCounts(words, limit);
      Ok(Ranking(words, limit))
  }

  /** A sequence without repeated elements holds each value at most once. */
  lemma {:induction false} AtMostOnce<T>(xs: seq<T>, x: T)
    requires NoDuplicates(xs)
    ensures multiset(xs)[x] <= 1
  {
    if xs != [] {
      assert xs == [xs[0]] + xs[1..];
      assert NoDuplicates(xs[1..]) by {
        forall i, j | 0 <= i < j < |xs[1..]| ensures xs[1..][i] != xs[1..][j] {
          assert xs[1..][i] == xs[i + 1] && xs[1..][j] == xs[j + 1];
        }
      }
      AtMostOnce(xs[1..], x);
      assert xs[0] == x ==> x !in xs[1..];
    }
  }

  /** Equal elements at two indices count twice. */
  lemma TwiceAtTwoIndices<T>(xs: seq<T>, i: nat, j: nat)
    requires i < j < |xs|
    ensures xs[i] == xs[j] ==> multiset(xs)[xs[i]] >= 2
  {
    assert xs == xs[..j] + [xs[j]] + xs[j + 1..];
    assert xs[i] == xs[..j][i];
  }

  /** The keys of the ranking are distinct. */
  lemma RankingKeysDistinct(words: seq<string>, limit: nat)
    ensures forall i, j :: 0 <= i < j < |Ranking(words, limit)| ==> Ranking(words, limit)[i].0 != Ranking(words, limit)[j].0
  {
    var keys := Distinct(words);
    var t := Tally(keys, words);
    var s := SortDesc(t);
    var r := Ranking(words, limit);
    assert NoDuplicates(t) by {
      forall i, j | 0 <= i < j < |t| ensures t[i] != t[j] {
        assert t[i].0 == keys[i] && t[j].0 == keys[j];
      }
    }
    forall i, j | 0 <= i < j < |r| ensures r[i].0 != r[j].0 {
      assert r[i] == s[i] && r[j] == s[j];
      assert s[i] in multiset(t) && s[j] in multiset(t);
      assert s[i].0 == s[j].0 ==> s[i] == s[j];
      TwiceAtTwoIndices(s, i, j);
      AtMostOnce(t, s[i]);
    }
  }

  /** A counted word left out of the ranking occurs no more often than any word in it. */
  lemma RankingIsTop(words: seq<string>, limit: nat, w: string)
    requires w in words
    requires forall e :: e in Ranking(words, limit) ==> e.0 != w
    ensures forall e :: e in Ranking(words, limit) ==> e.1 >= multiset(words)[w]
  {
    var keys := Distinct(words);
    var t := Tally(keys, words);
    var s := SortDesc(t);
    var k :| 0 <= k < |keys| && keys[k] == w;
    var x := t[k];
    assert x in s by {
      assert x in multiset(t);
    }
    assert x !in Ranking(words, limit);
    TopOfSorted(s, Min(|s|, limit), x);
  }

  // --------------------------------------------------------------- summaries

  predicate IsSentenceEnder(c: char) {
    c == '.' || c == '!' || c == '?'
  }

  const SENTENCE_ENDERS: seq<string> := [".", "!", "?"]

  /** The last index at or before `from` holding '.', '!' or '?', or -1. */
  function LastEnderAtMost(text: string, from: int): (r: int)
    ensures r == -1 || (0 <= r <= from && r < |text| && IsSentenceEnder(text[r]))
    ensures forall j :: r < j <= from && 0 <= j < |text| ==> !IsSentenceEnder(text[j])
    decreases if from < 0 then 0 else from + 1
  {
    if from < 0 then -1
    else if from < |text| && IsSentenceEnder(text[from]) then from
    else LastEnderAtMost(text, from - 1)
  }

  /** A one-character pattern occurs exactly where its character stands. */
  lemma EnderOccursAt(text: string, j: int)
    ensures (exists k :: 0 <= k < |SENTENCE_ENDERS| && OccursAt(text, SENTENCE_ENDERS[k], j))
        <==> 0 <= j < |text| && IsSentenceEnder(text[j])
  {
    if 0 <= j < |text| {
      assert text[j..j + 1] == [text[j]];
      if text[j] == '.' { assert OccursAt(text, SENTENCE_ENDERS[0], j); }
      if text[j] == '!' { assert OccursAt(text, SENTENCE_ENDERS[1], j); }
      if text[j] == '?' { assert OccursAt(text, SENTENCE_ENDERS[2], j); }
    }
  }

  /** findLastSentenceEnd: the largest lastIndexOf(ender, maxLength - 3) over the three enders. */
  method FindLastSentenceEnd(text: string, maxLength: int) returns (lastSentenceEnd: int)
    requires IsInt32(maxLength)
    ensures lastSentenceEnd == LastEnderAtMost(text, Wrap(maxLength - 3))
  {
    var from := Wrap(maxLength - 3);
    lastSentenceEnd := -1;
    var i := 0;
    while i < |SENTENCE_ENDERS|
      invariant 0 <= i <= |SENTENCE_ENDERS|
      invariant lastSentenceEnd == -1 || (0 <= lastSentenceEnd <= from
        && exists k :: 0 <= k < i && OccursAt(text, SENTENCE_ENDERS[k], lastSentenceEnd))
      invariant forall j, k :: lastSentenceEnd < j <= from && 0 <= k < i ==> !OccursAt(text, SENTENCE_ENDERS[k], j)
    {
      var pos := LastIndexAtMost(text, SENTENCE_ENDERS[i], from);
      if pos > lastSentenceEnd {
        lastSentenceEnd := pos;
      }
      i := i + 1;
    }
    EnderOccursAt(text, lastSentenceEnd);
    forall j | lastSentenceEnd < j <= from && 0 <= j < |text| ensures !IsSentenceEnder(text[j]) {
      EnderOccursAt(text, j);
    }
    var spec := LastEnderAtMost(text, from);
    assert spec <= lastSentenceEnd && lastSentenceEnd <= spec;
  }

  /** A prefix of `t` followed by "...": it ends in "..." and drops the ellipsis back to the prefix. */
  lemma EllipsisSummary(t: string, n: int)
    requires 0 <= n <= |t|
    ensures var r := t[..n] + "...";
      |r| == n + 3 && EndsWith(r, "...") && r[..|r| - 3] <= t
  {
    var r := t[..n] + "...";
    assert r[..|r| - 3] == t[..n];
    assert r[|r| - 3..] == "...";
  }

  /**
   * The summary of a trimmed text longer than maxLength: up to the last
   * sentence ender at or before `enderFrom` when that lies past half the
   * limit, else up to the last space before index maxLength - 3, else the
   * first maxLength - 3 characters (a negative end throws), then "...".
   */
  function Abbreviate(t: string, maxLength: int, enderFrom: int): (r: Result<string>)
    requires IsInt32(maxLength) && |t| > maxLength
    ensures r.Ok? ==> EndsWith(r.value, "...") && r.value[..|r.value| - 3] <= t
    ensures 3 <= maxLength ==> r.Ok?
  {
    var from := Wrap(maxLength - 3);
    var lastSentenceEnd := LastEnderAtMost(t, enderFrom);
    if lastSentenceEnd > TruncDiv(maxLength, 2) then
      EllipsisSummary(t, lastSentenceEnd + 1);
      Ok(t[..lastSentenceEnd + 1] + "...")
    else
      var lastSpace := LastIndexAtMost(t, " ", from);
      if lastSpace > 0 then
        EllipsisSummary(t, lastSpace);
        Ok(t[..lastSpace] + "...")
      else if from < 0 then Thrown(IndexOutOfBounds)
      else
        EllipsisSummary(t, from);
        Ok(t[..from] + "...")
  }

  /**
   * An abbreviation is a prefix of the text followed by "..."; for a
   * limit of at least 3 it is always produced, and it is at most one
   * character longer than the ender searched from, plus the ellipsis, or
   * than the limit.
   */
  lemma AbbreviateBounds(t: string, maxLength: int, enderFrom: int)
    requires IsInt32(maxLength) && |t| > maxLength
    ensures var r := Abbreviate(t, maxLength, enderFrom);
      r.Ok? ==> EndsWith(r.value, "...") && r.value[..|r.value| - 3] <= t
    ensures var r := Abbreviate(t, maxLength, enderFrom);
      3 <= maxLength ==> r.Ok? && (|r.value| <= maxLength || |r.value| <= enderFrom + 4)
  {
    var from := Wrap(maxLength - 3);
    var lastSentenceEnd := LastEnderAtMost(t, enderFrom);
    if lastSentenceEnd > TruncDiv(maxLength, 2) {
      EllipsisSummary(t, lastSentenceEnd + 1);
    } else {
      var lastSpace := LastIndexAtMost(t, " ", from);
      if lastSpace > 0 {
        EllipsisSummary(t, lastSpace);
      } else if from >= 0 {
        EllipsisSummary(t, from);
      }
    }
  }

  /**
   * The summary shape both variants share: "" for a null or blank text,
   * the trimmed text when it fits, and otherwise the abbreviation whose
   * sentence ender is searched at or before `enderFrom`.
   */
  function Summarize(text: Option<string>, maxLength: int, enderFrom: int): (r: Result<string>)
    requires IsInt32(maxLength)
    ensures IsNullOrBlank(text) ==> r == Ok("")
    ensures r.Ok? && !IsNullOrBlank(text) ==>
      r.value == Trim(text.value) || (EndsWith(r.value, "...") && r.value[..|r.value| - 3] <= Trim(text.value))
    ensures 3 <= maxLength ==> r.Ok? && (|r.value| <= maxLength || |r.value| <= enderFrom + 4)
  {
    if IsNullOrBlank(text) then Ok("")
    else
      var t := Trim(text.value);
      if |t| <= maxLength then Ok(t)
      else
        AbbreviateBounds(t, maxLength, enderFrom);
        Abbreviate(t, maxLength, enderFrom)
  }

  /**
   * A null or blank text gives "", a text within the limit its trimmed
   * form, and a longer one a prefix of the trimmed text followed by
   * "...", which for a limit of at least 3 is within the limit or at most
   * four characters past the ender search start.
   */
  lemma SummarizeBounds(text: Option<string>, maxLength: int, enderFrom: int)
    requires IsInt32(maxLength)
    ensures IsNullOrBlank(text) ==> Summarize(text, maxLength, enderFrom) == Ok("")
    ensures !IsNullOrBlank(text) && |Trim(text.value)| <= maxLength ==>
      Summarize(text, maxLength, enderFrom) == Ok(Trim(text.value))
    ensures var r := Summarize(text, maxLength, enderFrom);
      !IsNullOrBlank(text) && |Trim(text.value)| > maxLength && r.Ok? ==>
        EndsWith(r.value, "...") && r.value[..|r.value| - 3] <= Trim(text.value)
    ensures var r := Summarize(text, maxLength, enderFrom);
      3 <= maxLength ==> r.Ok? && (|r.value| <= maxLength || |r.value| <= enderFrom + 4)
  {
    if !IsNullOrBlank(text) {
      var t := Trim(text.value);
      if |t| > maxLength {
        AbbreviateBounds(t, maxLength, enderFrom);
      }
    }
  }

  /** summarizeText as written: the sentence ender is searched at or before maxLength - 3. */
  function SummarizeText(text: Option<string>, maxLength: int): (r: Result<string>)
    requires IsInt32(maxLength)
    ensures IsNullOrBlank(text) ==> r == Ok("")
    ensures 3 <= maxLength ==> r.Ok? && |r.value| <= maxLength + 1
  {
    Summarize(text, maxLength, Wrap(maxLength - 3))
  }

  /** For a limit of at least 3, summarizeText as written is at most one character over it. */
  lemma SummarizeTextBounds(text: Option<string>, maxLength: int)
    requires IsInt32(maxLength)
    ensures var r := SummarizeText(text, maxLength);
      3 <= maxLength ==> r.Ok? && |r.value| <= maxLength + 1
  {
    SummarizeBounds(text, maxLength, Wrap(maxLength - 3));
  }

  /**
   * The sentence branch overruns maxLength by one whenever a sentence ender
   * sits at index maxLength - 3 past half the limit of a longer trimmed text.
   */
  lemma SummaryOverrun(t: string, maxLength: int)
    requires IsInt32(maxLength) && 3 <= maxLength < |t|
    requires !IsTrimSpace(t[0]) && !IsTrimSpace(t[|t| - 1])
    requires IsSentenceEnder(t[maxLength - 3]) && maxLength - 3 > TruncDiv(maxLength, 2)
    ensures SummarizeText(Some(t), maxLength) == Ok(t[..maxLength - 2] + "...")
    ensures |t[..maxLength - 2] + "..."| == maxLength + 1
  {
    assert Trim(t) == t;
    assert !IsBlank(t);
    assert Wrap(maxLength - 3) == maxLength - 3;
    assert LastEnderAtMost(t, maxLength - 3) == maxLength - 3;
    assert Abbreviate(t, maxLength, maxLength - 3) == Ok(t[..maxLength - 2] + "...");
    assert SummarizeText(Some(t), maxLength) == Abbreviate(t, maxLength, maxLength - 3);
  }

  /** "abcd.efg" summarized to 7 characters comes out with 8. */
  lemma SummaryOverrunsByOne()
    ensures SummarizeText(Some("abcd.efg"), 7) == Ok("abcd....")
    ensures |"abcd...."| == 8
  {
    var t := "abcd.efg";
    assert IsSentenceEnder(t[4]) && 4 > TruncDiv(7, 2);
    SummaryOverrun(t, 7);
    assert t[..5] + "..." == "abcd....";
  }

  /** summarizeText with the sentence ender searched at or before maxLength - 4, so the result fits. */
  function SummarizeTextWithin(text: Option<string>, maxLength: int): (r: Result<string>)
    requires IsInt32(maxLength)
    ensures IsNullOrBlank(text) ==> r == Ok("")
    ensures 3 <= maxLength ==> r.Ok? && |r.value| <= maxLength
  {
    Summarize(text, maxLength, Wrap(maxLength - 4))
  }

  /** For a limit of at least 3 every corrected summary is within the limit. */
  lemma SummarizeTextWithinBounds(text: Option<string>, maxLength: int)
    requires IsInt32(maxLength)
    ensures var r := SummarizeTextWithin(text, maxLength);
      3 <= maxLength ==> r.Ok? && |r.value| <= maxLength
  {
    SummarizeBounds(text, maxLength, Wrap(maxLength - 4));
  }

  // --------------------------------------------------------- key sentences

  const IMPORTANT_KEYWORDS: seq<string> := [
    "주장", "입장", "생각", "의견", "제안", "해결", "방안",
    "정책", "개선", "필요", "중요", "반대", "찬성"
  ]

  /** containsImportantKeywords: some important keyword occurs in the sentence. */
  predicate ContainsImportantKeywords(sentence: string) {
    ContainsAny(sentence, IMPORTANT_KEYWORDS)
  }

  /** Index of the first sentence with an important keyword, or -1. */
  function FirstImportant(sentences: seq<string>): (k: int)
    ensures -1 <= k < |sentences|
    ensures k >= 0 ==> ContainsImportantKeywords(sentences[k])
    ensures forall j :: 0 <= j < |sentences| && (k == -1 || j < k) ==> !ContainsImportantKeywords(sentences[j])
  {
    FirstContainingAny(sentences, IMPORTANT_KEYWORDS)
  }

  /** What extractImportantSentence returns. */
  function ImportantSentenceOf(text: Option<string>): (r: string)
    ensures IsNullOrBlank(text) ==> r == ""
    ensures r == [] || EndsWith(r, ".")
  {
    if IsNullOrBlank(text) then ""
    else
      var sentences := JavaSplit(text.value, SentenceEnd);
      var k := FirstImportant(sentences);
      if k >= 0 then Trim(sentences[k]) + "."
      else if |sentences| > 0 then Trim(sentences[0]) + "."
      else ""
  }

  /** The chosen sentence is the first with an important keyword, else the first sentence. */
  lemma ImportantSentenceChoice(text: string)
    requires !IsBlank(text)
    ensures var sentences := JavaSplit(text, SentenceEnd);
      (sentences == [] ==> ImportantSentenceOf(Some(text)) == "")
      && (forall i :: 0 <= i < |sentences| && ContainsImportantKeywords(sentences[i]) ==>
            exists j :: 0 <= j <= i && ImportantSentenceOf(Some(text)) == Trim(sentences[j]) + "."
                        && ContainsImportantKeywords(sentences[j]))
      && ((forall i :: 0 <= i < |sentences| ==> !ContainsImportantKeywords(sentences[i])) && sentences != [] ==>
            ImportantSentenceOf(Some(text)) == Trim(sentences[0]) + ".")
  {
  }

  /** extractImportantSentence: scans the sentences and returns the first that states a position. */
  method ExtractImportantSentence(text: Option<string>) returns (r: string)
    ensures r == ImportantSentenceOf(text)
  {
    if text.None? || IsBlank(text.value) {
      return "";
    }
    var sentences := JavaSplit(text.value, SentenceEnd);
    var i := 0;
    while i < |sentences|
      invariant 0 <= i <= |sentences|
      invariant FirstImportant(sentences) == -1 || i <= FirstImportant(sentences)
    {
      if ContainsImportantKeywords(sentences[i]) {
        assert FirstImportant(sentences) == i;
        return Trim(sentences[i]) + ".";
      }
      i := i + 1;
    }
    return if |sentences| > 0 then Trim(sentences[0]) + "." else "";
  }

  // ------------------------------------------------------------------ tallies

  /** Number of votes with the given result. */
  function CountResult(votes: seq<Option<V.VoteResultType>>, t: V.VoteResultType): (n: nat)
    ensures n <= |votes|
  {
    if votes == [] then 0
    else (if votes[0] == Some(t) then 1 else 0) + CountResult(votes[1..], t)
  }

  /** Number of votes without a result. */
  function CountNull(votes: seq<Option<V.VoteResultType>>): (n: nat) {
    if votes == [] then 0 else (if votes[0].None? then 1 else 0) + CountNull(votes[1..])
  }

  datatype VoteResultStats = VoteResultStats(agree: int, disagree: int, abstain: int, absent: int, total: int)

  /** calculateVoteStats, without the two percentage rates. */
  function CalculateVoteStats(votes: Option<seq<Option<V.VoteResultType>>>): (s: VoteResultStats)
    ensures votes.None? || votes.value == [] ==> s == VoteResultStats(0, 0, 0, 0, 0)
    ensures s.total == s.agree + s.disagree + s.abstain + s.absent
    ensures votes.Some? ==>
      (s.agree == CountResult(votes.value, V.AGREE) && s.disagree == CountResult(votes.value, V.DISAGREE)
       && s.abstain == CountResult(votes.value, V.ABSTAIN) && s.absent == CountResult(votes.value, V.ABSENT))
  {
    if votes.None? || votes.value == [] then VoteResultStats(0, 0, 0, 0, 0)
    else
      var vs := votes.value;
      var agree := CountResult(vs, V.AGREE);
      var disagree := CountResult(vs, V.DISAGREE);
      var abstain := CountResult(vs, V.ABSTAIN);
      var absent := CountResult(vs, V.ABSENT);
      VoteResultStats(agree, disagree, abstain, absent, agree + disagree + abstain + absent)
  }

  /** Every vote is counted once, except those without a result or with UNKNOWN. */
  lemma VoteStatsAccount(votes: seq<Option<V.VoteResultType>>)
    ensures CalculateVoteStats(Some(votes)).total + CountResult(votes, V.UNKNOWN) + CountNull(votes) == |votes|
  {
    ResultsPartitionVotes(votes);
  }

  lemma {:induction false} ResultsPartitionVotes(votes: seq<Option<V.VoteResultType>>)
    ensures CountResult(votes, V.AGREE) + CountResult(votes, V.DISAGREE) + CountResult(votes, V.ABSTAIN)
          + CountResult(votes, V.ABSENT) + CountResult(votes, V.UNKNOWN) + CountNull(votes) == |votes|
  {
    if votes != [] {
      ResultsPartitionVotes(votes[1..]);
      if votes[0].Some? {
        var t := votes[0].value;
        assert t == V.AGREE || t == V.DISAGREE || t == V.ABSTAIN || t == V.ABSENT || t == V.UNKNOWN;
      }
    }
  }

  /** Number of bills whose status is PASSED. */
  function CountPassed(bills: seq<Option<BillStatus>>): (n: nat)
    ensures n <= |bills|
    ensures n == 0 <==> forall i :: 0 <= i < |bills| ==> bills[i] != Some(PASSED)
    ensures n == |bills| <==> forall i :: 0 <= i < |bills| ==> bills[i] == Some(PASSED)
  {
    if bills == [] then 0
    else (if bills[0] == Some(PASSED) then 1 else 0) + CountPassed(bills[1..])
  }

  datatype BillPassStats = BillPassStats(total: int, passed: int)

  /** calculateBillStats, without the pass rate. */
  function CalculateBillStats(bills: Option<seq<Option<BillStatus>>>): (s: BillPassStats)
    ensures bills.None? || bills.value == [] ==> s == BillPassStats(0, 0)
    ensures bills.Some? ==> s.total == |bills.value| && s.passed == CountPassed(bills.value)
    ensures 0 <= s.passed <= s.total
  {
    if bills.None? || bills.value == [] then BillPassStats(0, 0)
    else BillPassStats(|bills.value|, CountPassed(bills.value))
  }
}
