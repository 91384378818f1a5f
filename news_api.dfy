/**
 * The text rules of the news collector: the category of an article from
 * keywords in its title and description, the political keywords found in
 * a text, and the keyword list stored with an article (the search query
 * first, then the keywords found). Fetching, parsing and storing the
 * articles is I/O and is not part of this model.
 */
module NewsApiService {
  import opened JavaLang
  import opened Strings
  import opened Collections

  /** The political search keywords, in the order they are tried. */
  const POLITICAL_KEYWORDS: seq<string> := [
    "국회", "법안", "정책", "대통령", "정치", "여당", "야당",
    "국정감사", "예산안", "개각", "선거", "정당"
  ]

  /** The further keywords extractEnhancedKeywords looks for, in order. */
  const ENHANCED_KEYWORDS: seq<string> := [
    "대선", "대통령선거", "국회", "의원", "정치", "선거", "법안",
    "국정감사", "외교", "경제", "예산", "정부", "여당", "야당"
  ]

  /** The keyword groups of categorizeNews, in the order they are tried. */
  const CATEGORY_RULES: seq<(seq<string>, string)> := [
    (["대선", "대통령선거", "대통령 후보", "대통력직", "presidential", "대통령 선거"], "대선"),
    (["선거", "공천", "후보", "당선", "투표", "개표"], "선거"),
    (["국회", "의원", "국정감사", "법안", "입법", "발언", "국정", "의정"], "국회"),
    (["외교", "정상회담", "외교부", "국제", "미국", "중국", "일본", "북한"], "외교"),
    (["경제", "예산", "금리", "주식", "부동산", "세금", "재정", "기업"], "경제"),
    (["정치", "정부", "청와대", "대통령", "총리", "장관", "정당", "여당", "야당"], "정치")
  ]

  const OTHER_CATEGORY := "기타"

  /** `title + " " + description`; a null part is rendered as "null". */
  function TitleAndDescription(title: Option<string>, description: Option<string>): (s: string)
    ensures title.Some? && description.Some? ==> s == title.value + " " + description.value
  {
    Rendered(title) + " " + Rendered(description)
  }

  // ------------------------------------------------------------ categories

  lemma CategoriesAreNotOther()
    ensures forall k :: 0 <= k < |CATEGORY_RULES| ==> CATEGORY_RULES[k].1 != OTHER_CATEGORY
  {
  }

  /** categorizeNews: the category of the first group found in the lower-cased text, else "기타". */
  function CategorizeNews(title: Option<string>, description: Option<string>): (c: string)
    ensures c == OTHER_CATEGORY || exists k :: 0 <= k < |CATEGORY_RULES| && CATEGORY_RULES[k].1 == c
  {
    ClassifyFirstGroup(CATEGORY_RULES, Lower(TitleAndDescription(title, description)), OTHER_CATEGORY);
    Classify(CATEGORY_RULES, Lower(TitleAndDescription(title, description)), OTHER_CATEGORY)
  }

  /**
   * The article is "기타" exactly when no group is found; otherwise its
   * category is that of a group found before which no group is found.
   */
  lemma CategorizeNewsFirstGroup(title: Option<string>, description: Option<string>)
    ensures CategorizeNews(title, description) == OTHER_CATEGORY <==>
      forall j :: 0 <= j < |CATEGORY_RULES| ==> !ContainsAny(Lower(TitleAndDescription(title, description)), CATEGORY_RULES[j].0)
    ensures CategorizeNews(title, description) != OTHER_CATEGORY ==>
      exists k :: (0 <= k < |CATEGORY_RULES| && CATEGORY_RULES[k].1 == CategorizeNews(title, description)
                   && ContainsAny(Lower(TitleAndDescription(title, description)), CATEGORY_RULES[k].0)
                   && forall j :: 0 <= j < k ==> !ContainsAny(Lower(TitleAndDescription(title, description)), CATEGORY_RULES[j].0))
  {
    CategoriesAreNotOther();
    ClassifyFirstGroup(CATEGORY_RULES, Lower(TitleAndDescription(title, description)), OTHER_CATEGORY);
  }

  /** "대통령 선거" also contains "선거", but the presidential group is tried first. */
  lemma PresidentialElectionIsPresidential(title: Option<string>, description: Option<string>)
    requires Contains(Lower(TitleAndDescription(title, description)), "대통령 선거")
    ensures CategorizeNews(title, description) == "대선"
  {
    var content := Lower(TitleAndDescription(title, description));
    assert "대통령 선거" in CATEGORY_RULES[0].0;
    assert ContainsAny(content, CATEGORY_RULES[0].0);
    ClassifyStep(CATEGORY_RULES, content, OTHER_CATEGORY);
  }

  /** An article mentioning an election is filed under the presidential race or under elections, never later. */
  lemma ElectionNewsIsElectoral(title: Option<string>, description: Option<string>)
    requires Contains(Lower(TitleAndDescription(title, description)), "선거")
    ensures CategorizeNews(title, description) in {"대선", "선거"}
  {
    var content := Lower(TitleAndDescription(title, description));
    assert "선거" in CATEGORY_RULES[1].0;
    assert ContainsAny(content, CATEGORY_RULES[1].0);
    ClassifyStep(CATEGORY_RULES, content, OTHER_CATEGORY);
    ClassifyStep(CATEGORY_RULES[1..], content, OTHER_CATEGORY);
  }

  // -------------------------------------------------------------- keywords

  /** The keywords whose lower-cased form occurs in `lowerText`, in list order. */
  function KeywordsFound(lowerText: string, keywords: seq<string>): (r: seq<string>)
    ensures forall k :: k in r <==> k in keywords && Contains(lowerText, Lower(k))
    decreases |keywords|
  {
    if keywords == [] then []
    else
      var init := keywords[..|keywords| - 1];
      var last := keywords[|keywords| - 1];
      assert forall x :: x in keywords <==> x in init || x == last by {
        assert keywords == init + [last];
      }
      KeywordsFound(lowerText, init) + (if Contains(lowerText, Lower(last)) then [last] else [])
  }

  /**
   * Filtering a list without repetitions yields a list without
   * repetitions whose elements keep their relative order.
   */
  lemma {:induction false} KeywordsFoundInOrder(lowerText: string, keywords: seq<string>)
    requires NoDuplicates(keywords)
    ensures NoDuplicates(KeywordsFound(lowerText, keywords))
    ensures forall i, j :: 0 <= i < j < |KeywordsFound(lowerText, keywords)| ==>
      FirstIndex(keywords, KeywordsFound(lowerText, keywords)[i]) < FirstIndex(keywords, KeywordsFound(lowerText, keywords)[j])
    decreases |keywords|
  {
    if keywords != [] {
      var init := keywords[..|keywords| - 1];
      var last := keywords[|keywords| - 1];
      var f := KeywordsFound(lowerText, init);
      KeywordsFoundInOrder(lowerText, init);
      forall y | y in f
        ensures FirstIndex(keywords, y) == FirstIndex(init, y) < |keywords| - 1
      {
        FirstIndexOfPrefix(keywords, |keywords| - 1, y);
      }
      if Contains(lowerText, Lower(last)) {
        assert last !in init;
        assert FirstIndex(keywords, last) == |keywords| - 1;
        assert KeywordsFound(lowerText, keywords) == f + [last];
      } else {
        assert KeywordsFound(lowerText, keywords) == f;
      }
    }
  }

  /** extractKeywords: the distinct political keywords found in the lower-cased text, the first ten. */
  function ExtractKeywordsOf(text: string): (ks: seq<string>)
    ensures |ks| <= 10 && NoDuplicates(ks)
  {
    Take(Distinct(KeywordsFound(Lower(text), POLITICAL_KEYWORDS)), 10)
  }

  /**
   * extractKeywords returns political keywords found in the lower-cased
   * text, without repetitions, at most ten. When fewer than ten are
   * returned, every keyword found is among them.
   */
  lemma ExtractKeywordsBounds(text: string)
    ensures |ExtractKeywordsOf(text)| <= 10 && NoDuplicates(ExtractKeywordsOf(text))
    ensures forall k :: k in ExtractKeywordsOf(text) ==> k in POLITICAL_KEYWORDS && Contains(Lower(text), Lower(k))
    ensures |ExtractKeywordsOf(text)| < 10 ==>
      forall k :: k in POLITICAL_KEYWORDS && Contains(Lower(text), Lower(k)) ==> k in ExtractKeywordsOf(text)
  {
  }

  lemma PoliticalKeywordsDistinct()
    ensures NoDuplicates(POLITICAL_KEYWORDS)
  {
  }

  /** Keeping the first ten distinct keywords found keeps the order of a duplicate-free keyword list. */
  lemma FirstTenInOrder(lowerText: string, keywords: seq<string>)
    requires NoDuplicates(keywords)
    ensures forall i, j :: 0 <= i < j < |Take(Distinct(KeywordsFound(lowerText, keywords)), 10)| ==>
      FirstIndex(keywords, Take(Distinct(KeywordsFound(lowerText, keywords)), 10)[i]) <
      FirstIndex(keywords, Take(Distinct(KeywordsFound(lowerText, keywords)), 10)[j])
  {
    var f := KeywordsFound(lowerText, keywords);
    KeywordsFoundInOrder(lowerText, keywords);
    DistinctOfDistinct(f);
    var r := Take(Distinct(f), 10);
    assert forall i :: 0 <= i < |r| ==> r[i] == f[i];
  }

  /** The keywords are returned in the order of the keyword list. */
  lemma ExtractKeywordsInListOrder(text: string)
    ensures forall i, j :: 0 <= i < j < |ExtractKeywordsOf(text)| ==>
      FirstIndex(POLITICAL_KEYWORDS, ExtractKeywordsOf(text)[i]) < FirstIndex(POLITICAL_KEYWORDS, ExtractKeywordsOf(text)[j])
  {
    PoliticalKeywordsDistinct();
    FirstTenInOrder(Lower(text), POLITICAL_KEYWORDS);
  }

  /** The loop of extractKeywords: appends, in list order, each keyword whose lower-cased form occurs. */
  method CollectKeywordsFound(lowerText: string, keywords: seq<string>) returns (found: seq<string>)
    ensures found == KeywordsFound(lowerText, keywords)
  {
    found := [];
    var i := 0;
    while i < |keywords|
      invariant 0 <= i <= |keywords|
      invariant found == KeywordsFound(lowerText, keywords[..i])
    {
      assert keywords[..i + 1][..i] == keywords[..i];
      var keyword := keywords[i];
      if Contains(lowerText, Lower(keyword)) {
        found := found + [keyword];
      }
      i := i + 1;
    }
    assert keywords[..|keywords|] == keywords;
  }

  /** extractKeywords: collects the keywords found, then keeps the distinct first ten. */
  method ExtractKeywords(text: string) returns (r: seq<string>)
    ensures r == ExtractKeywordsOf(text)
  {
    var keywords := CollectKeywordsFound(Lower(text), POLITICAL_KEYWORDS);
    r := Take(Distinct(keywords), 10);
  }

  /** No political keyword has an upper-case letter, so lower-casing leaves each unchanged. */
  lemma PoliticalKeywordsAreLowerCase()
    ensures forall k :: k in POLITICAL_KEYWORDS ==> Lower(k) == k
  {
    forall k | k in POLITICAL_KEYWORDS
      ensures Lower(k) == k
    {
      assert forall i :: 0 <= i < |k| ==> k[i] > 'Z';
    }
  }

  /** The keywords of `ks` found in `content`, each appended when not yet in the list. */
  function AddFound(keywords: seq<string>, content: string, ks: seq<string>): (r: seq<string>)
    ensures keywords <= r
    ensures forall k :: k in r <==> k in keywords || (k in ks && Contains(content, k))
    ensures NoDuplicates(keywords) ==> NoDuplicates(r)
    decreases |ks|
  {
    if ks == [] then keywords
    else
      var init := ks[..|ks| - 1];
      var last := ks[|ks| - 1];
      assert forall x :: x in ks <==> x in init || x == last by {
        assert ks == init + [last];
      }
      var a := AddFound(keywords, content, init);
      if Contains(content, last) then AddIfAbsent(a, last) else a
  }

  /** The list before the final `distinct`: the non-blank query, then the keywords extractKeywords finds. */
  function InitialKeywords(title: Option<string>, description: Option<string>, searchQuery: Option<string>): (r: seq<string>)
    ensures !IsNullOrBlank(searchQuery) ==> r != [] && r[0] == searchQuery.value
  {
    (if IsNullOrBlank(searchQuery) then [] else [searchQuery.value])
    + ExtractKeywordsOf(TitleAndDescription(title, description))
  }

  /** Either the query or a keyword contained in `content`. */
  predicate QueryOrFound(k: string, searchQuery: Option<string>, content: string) {
    (searchQuery.Some? && k == searchQuery.value) || Contains(content, k)
  }

  /** Every keyword extractKeywords returns occurs, as it is, in the lower-cased text. */
  lemma ExtractedKeywordsOccur(text: string)
    ensures forall k :: k in ExtractKeywordsOf(text) ==> Contains(Lower(text), k)
  {
    PoliticalKeywordsAreLowerCase();
    ExtractKeywordsBounds(text);
  }

  /** A list of found keywords, with a non-blank query put in front, holds only the query and found keywords. */
  lemma QueryThenFoundOccur(searchQuery: Option<string>, found: seq<string>, content: string)
    requires forall k :: k in found ==> Contains(content, k)
    ensures forall k :: k in (if IsNullOrBlank(searchQuery) then [] else [searchQuery.value]) + found ==>
      QueryOrFound(k, searchQuery, content)
  {
  }

  lemma InitialKeywordsOccur(title: Option<string>, description: Option<string>, searchQuery: Option<string>)
    ensures forall k :: k in InitialKeywords(title, description, searchQuery) ==>
      QueryOrFound(k, searchQuery, Lower(TitleAndDescription(title, description)))
  {
    var text := TitleAndDescription(title, description);
    ExtractedKeywordsOccur(text);
    QueryThenFoundOccur(searchQuery, ExtractKeywordsOf(text), Lower(text));
  }

  /** Appending found keywords and removing repetitions keeps every element a query or a found keyword. */
  lemma AddFoundOccurs(initial: seq<string>, content: string, ks: seq<string>, searchQuery: Option<string>)
    requires forall k :: k in initial ==> QueryOrFound(k, searchQuery, content)
    ensures forall k :: k in Distinct(AddFound(initial, content, ks)) ==> QueryOrFound(k, searchQuery, content)
  {
  }

  /** extractEnhancedKeywords: the query, the extracted keywords, the further keywords found, without repetitions. */
  function EnhancedKeywordsOf(title: Option<string>, description: Option<string>, searchQuery: Option<string>): (ks: seq<string>)
    ensures NoDuplicates(ks)
  {
    var content := Lower(TitleAndDescription(title, description));
    Distinct(AddFound(InitialKeywords(title, description, searchQuery), content, ENHANCED_KEYWORDS))
  }

  /**
   * extractEnhancedKeywords: a non-blank search query comes first, there
   * are no repetitions, and every other keyword occurs in the lower-cased
   * title and description.
   */
  lemma EnhancedKeywordsProperties(title: Option<string>, description: Option<string>, searchQuery: Option<string>)
    ensures NoDuplicates(EnhancedKeywordsOf(title, description, searchQuery))
    ensures !IsNullOrBlank(searchQuery) ==>
      EnhancedKeywordsOf(title, description, searchQuery) != [] && EnhancedKeywordsOf(title, description, searchQuery)[0] == searchQuery.value
    ensures forall k :: k in EnhancedKeywordsOf(title, description, searchQuery) ==>
      QueryOrFound(k, searchQuery, Lower(TitleAndDescription(title, description)))
  {
    var content := Lower(TitleAndDescription(title, description));
    var initial := InitialKeywords(title, description, searchQuery);
    var all := AddFound(initial, content, ENHANCED_KEYWORDS);
    InitialKeywordsOccur(title, description, searchQuery);
    AddFoundOccurs(initial, content, ENHANCED_KEYWORDS, searchQuery);
    if !IsNullOrBlank(searchQuery) {
      assert all[0] == initial[0];
      DistinctHead(all);
    }
  }

  /** The loop of extractEnhancedKeywords: appends each keyword of `ks` found in `content` and not yet listed. */
  method AddFoundKeywords(keywords: seq<string>, content: string, ks: seq<string>) returns (r: seq<string>)
    ensures r == AddFound(keywords, content, ks)
  {
    r := keywords;
    var i := 0;
    while i < |ks|
      invariant 0 <= i <= |ks|
      invariant r == AddFound(keywords, content, ks[..i])
    {
      assert ks[..i + 1][..i] == ks[..i];
      var keyword := ks[i];
      if Contains(content, keyword) && keyword !in r {
        r := r + [keyword];
      }
      i := i + 1;
    }
    assert ks[..|ks|] == ks;
  }

  /** extractEnhancedKeywords: the query, the extracted keywords, the further keywords found, then `distinct`. */
  method ExtractEnhancedKeywords(title: Option<string>, description: Option<string>, searchQuery: Option<string>)
    returns (r: seq<string>)
    ensures r == EnhancedKeywordsOf(title, description, searchQuery)
  {
    var keywords: seq<string> := [];
    if searchQuery.Some? && !IsBlank(searchQuery.value) {
      keywords := keywords + [searchQuery.value];
    }
    assert keywords == if IsNullOrBlank(searchQuery) then [] else [searchQuery.value];
    var extracted := ExtractKeywords(TitleAndDescription(title, description));
    keywords := keywords + extracted;
    var content := Lower(TitleAndDescription(title, description));
    keywords := AddFoundKeywords(keywords, content, ENHANCED_KEYWORDS);
    r := Distinct(keywords);
  }
}
