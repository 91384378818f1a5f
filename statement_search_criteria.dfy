/**
 * The criteria of a statement search: which query the search runs on (a
 * plain keyword, an exact phrase or several keywords), the optional
 * filters, and a result limit. A search built from request parameters
 * carries exactly one query, chosen in a fixed order of preference, and
 * the copy-with operations each replace one filter and keep everything
 * else.
 */
module StatementSearchCriteria {
  import opened JavaLang
  import opened DomainTypes
  import opened Dates

  /** The search modes the criteria refer to. */
  datatype SearchType = FULL_TEXT | EXACT_PHRASE | MULTIPLE_KEYWORDS | RECENT

  const DEFAULT_LIMIT := 50

  /** The record; `statementType` is the statement kind filter (`type` in the record). */
  datatype StatementSearchCriteria = StatementSearchCriteria(
    keyword: Option<string>,
    multipleKeywords: Option<seq<string>>,
    exactPhrase: Option<string>,
    statementType: Option<StatementType>,
    startDate: Option<Date>,
    endDate: Option<Date>,
    source: Option<string>,
    searchType: SearchType,
    limit: int)
  {
    /** withType: only the statement kind filter changes. */
    function WithType(statementType: Option<StatementType>): (r: StatementSearchCriteria)
      ensures r.statementType == statementType
      ensures r.(statementType := this.statementType) == this
    {
      StatementSearchCriteria(keyword, multipleKeywords, exactPhrase, statementType, startDate, endDate, source, searchType, limit)
    }

    /** withSource: only the source filter changes. */
    function WithSource(source: Option<string>): (r: StatementSearchCriteria)
      ensures r.source == source
      ensures r.(source := this.source) == this
    {
      StatementSearchCriteria(keyword, multipleKeywords, exactPhrase, statementType, startDate, endDate, source, searchType, limit)
    }

    /** withPeriod: only the two dates change. */
    function WithPeriod(startDate: Option<Date>, endDate: Option<Date>): (r: StatementSearchCriteria)
      ensures r.startDate == startDate && r.endDate == endDate
      ensures r.(startDate := this.startDate, endDate := this.endDate) == this
    {
      StatementSearchCriteria(keyword, multipleKeywords, exactPhrase, statementType, startDate, endDate, source, searchType, limit)
    }

    /** withLimit: only the limit changes. */
    function WithLimit(limit: int): (r: StatementSearchCriteria)
      ensures r.limit == limit
      ensures r.(limit := this.limit) == this
    {
      StatementSearchCriteria(keyword, multipleKeywords, exactPhrase, statementType, startDate, endDate, source, searchType, limit)
    }
  }

  /** No filter set and the default limit. */
  predicate Unfiltered(c: StatementSearchCriteria) {
    c.statementType.None? && c.startDate.None? && c.endDate.None? && c.source.None? && c.limit == DEFAULT_LIMIT
  }

  /** keyword(k): a full-text search on k. */
  function Keyword(keyword: Option<string>): (c: StatementSearchCriteria)
    ensures c.searchType == FULL_TEXT && c.keyword == keyword
    ensures c.multipleKeywords.None? && c.exactPhrase.None? && Unfiltered(c)
  {
    StatementSearchCriteria(keyword, None, None, None, None, None, None, FULL_TEXT, DEFAULT_LIMIT)
  }

  /** exactPhrase(p): an exact-phrase search on p. */
  function ExactPhrase(phrase: Option<string>): (c: StatementSearchCriteria)
    ensures c.searchType == EXACT_PHRASE && c.exactPhrase == phrase
    ensures c.keyword.None? && c.multipleKeywords.None? && Unfiltered(c)
  {
    StatementSearchCriteria(None, None, phrase, None, None, None, None, EXACT_PHRASE, DEFAULT_LIMIT)
  }

  /** multipleKeywords(ks): a search on several keywords. */
  function MultipleKeywords(keywords: Option<seq<string>>): (c: StatementSearchCriteria)
    ensures c.searchType == MULTIPLE_KEYWORDS && c.multipleKeywords == keywords
    ensures c.keyword.None? && c.exactPhrase.None? && Unfiltered(c)
  {
    StatementSearchCriteria(None, keywords, None, None, None, None, None, MULTIPLE_KEYWORDS, DEFAULT_LIMIT)
  }

  /** recent(k, n): the latest statements on k, at most n of them. */
  function Recent(keyword: Option<string>, limit: int): (c: StatementSearchCriteria)
    ensures c.searchType == RECENT && c.keyword == keyword && c.limit == limit
    ensures c.multipleKeywords.None? && c.exactPhrase.None? && Unfiltered(c.(limit := DEFAULT_LIMIT))
  {
    StatementSearchCriteria(keyword, None, None, None, None, None, None, RECENT, limit)
  }

  /** empty(): a full-text search with no keyword and no filter. */
  function Empty(): (c: StatementSearchCriteria)
    ensures c == Keyword(None)
  {
    StatementSearchCriteria(None, None, None, None, None, None, None, FULL_TEXT, DEFAULT_LIMIT)
  }

  /** Exactly one query is set, and the search type names it. */
  predicate SingleQuery(c: StatementSearchCriteria) {
    || (c.searchType == EXACT_PHRASE && c.exactPhrase.Some? && c.keyword.None? && c.multipleKeywords.None?)
    || (c.searchType == MULTIPLE_KEYWORDS && c.multipleKeywords.Some? && c.keyword.None? && c.exactPhrase.None?)
    || (c.searchType == FULL_TEXT && c.keyword.Some? && c.multipleKeywords.None? && c.exactPhrase.None?)
  }

  /**
   * fromParams: a non-empty exact phrase wins; otherwise a non-empty
   * keyword list; otherwise a full-text search on the keyword, a null
   * keyword reading as "". The filters pass through and a null limit
   * becomes 50.
   */
  function FromParams(keyword: Option<string>, exactPhrase: Option<string>, keywords: Option<seq<string>>,
                      statementType: Option<StatementType>, startDate: Option<Date>, endDate: Option<Date>,
                      source: Option<string>, limit: Option<int>): (c: StatementSearchCriteria)
    ensures SingleQuery(c)
    ensures exactPhrase.Some? && exactPhrase.value != [] ==>
      c.searchType == EXACT_PHRASE && c.exactPhrase == exactPhrase
    ensures !(exactPhrase.Some? && exactPhrase.value != []) && keywords.Some? && keywords.value != [] ==>
      c.searchType == MULTIPLE_KEYWORDS && c.multipleKeywords == keywords
    ensures !(exactPhrase.Some? && exactPhrase.value != []) && !(keywords.Some? && keywords.value != []) ==>
      c.searchType == FULL_TEXT && c.keyword == Some(keyword.GetOr(""))
    ensures c.statementType == statementType && c.startDate == startDate && c.endDate == endDate && c.source == source
    ensures limit.None? ==> c.limit == DEFAULT_LIMIT
    ensures limit.Some? ==> c.limit == limit.value
  {
    var finalLimit := if limit.Some? then limit.value else DEFAULT_LIMIT;
    if exactPhrase.Some? && exactPhrase.value != [] then
      StatementSearchCriteria(None, None, exactPhrase, statementType, startDate, endDate, source, EXACT_PHRASE, finalLimit)
    else if keywords.Some? && keywords.value != [] then
      StatementSearchCriteria(None, keywords, None, statementType, startDate, endDate, source, MULTIPLE_KEYWORDS, finalLimit)
    else
      StatementSearchCriteria(Some(if keyword.Some? then keyword.value else ""), None, None,
                              statementType, startDate, endDate, source, FULL_TEXT, finalLimit)
  }

  /** The copy-with operations keep the query and its search type, so they keep a single query. */
  lemma CopiesKeepSingleQuery(c: StatementSearchCriteria, t: Option<StatementType>, s: Option<string>,
                                                  from: Option<Date>, to: Option<Date>, n: int)
    requires SingleQuery(c)
    ensures SingleQuery(c.WithType(t)) && SingleQuery(c.WithSource(s))
    ensures SingleQuery(c.WithPeriod(from, to)) && SingleQuery(c.WithLimit(n))
  {
  }

  /** Replacing two different filters gives the same criteria in either order. */
  lemma CopiesCommute(c: StatementSearchCriteria, t: Option<StatementType>, s: Option<string>, n: int)
    ensures c.WithType(t).WithSource(s) == c.WithSource(s).WithType(t)
    ensures c.WithType(t).WithLimit(n) == c.WithLimit(n).WithType(t)
    ensures c.WithSource(s).WithLimit(n) == c.WithLimit(n).WithSource(s)
  {
  }

  /** The last replacement of a filter is the one that counts. */
  lemma CopiesOverwrite(c: StatementSearchCriteria, t1: Option<StatementType>, t2: Option<StatementType>, n1: int, n2: int)
    ensures c.WithType(t1).WithType(t2) == c.WithType(t2)
    ensures c.WithLimit(n1).WithLimit(n2) == c.WithLimit(n2)
  {
  }
}
