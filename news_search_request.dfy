/**
 * The parameters of a news search. The record's constructor normalises
 * them: a page size outside 1..100 becomes 10, a start position outside
 * 1..100 becomes 1, and a sort order other than "sim" or "date" becomes
 * "date". The next page starts one page further on, or over at 1.
 */
module NewsSearchRequest {
  import opened JavaLang

  const DEFAULT_DISPLAY := 10
  const DEFAULT_START := 1
  const MAX_DISPLAY := 100
  const MAX_START := 100

  datatype NewsSearchRequest = NewsSearchRequest(query: Option<string>, display: int, start: int, sort: string)

  /** What the constructor guarantees of every request. */
  predicate Normalised(r: NewsSearchRequest) {
    1 <= r.display <= MAX_DISPLAY && 1 <= r.start <= MAX_START && (r.sort == "sim" || r.sort == "date")
  }

  /** The compact constructor: out-of-range values fall back to their defaults; in-range ones are kept. */
  function Make(query: Option<string>, display: int, start: int, sort: Option<string>): (r: NewsSearchRequest)
    ensures Normalised(r) && r.query == query
    ensures 1 <= display <= MAX_DISPLAY ==> r.display == display
    ensures !(1 <= display <= MAX_DISPLAY) ==> r.display == DEFAULT_DISPLAY
    ensures 1 <= start <= MAX_START ==> r.start == start
    ensures !(1 <= start <= MAX_START) ==> r.start == DEFAULT_START
    ensures sort == Some("sim") || sort == Some("date") ==> r.sort == sort.value
    ensures !(sort == Some("sim") || sort == Some("date")) ==> r.sort == "date"
  {
    var display := if display < 1 || display > MAX_DISPLAY then DEFAULT_DISPLAY else display;
    var start := if start < 1 || start > MAX_START then DEFAULT_START else start;
    var sort := if sort.None? || (sort.value != "sim" && sort.value != "date") then "date" else sort.value;
    NewsSearchRequest(query, display, start, sort)
  }

  /** Constructing a request from the fields of a normalised one gives it back unchanged. */
  lemma MakeKeepsNormalised(r: NewsSearchRequest)
    requires Normalised(r)
    ensures Make(r.query, r.display, r.start, Some(r.sort)) == r
  {
  }

  /** `NewsSearchRequest.of(query)`: the first page of ten, newest first. */
  function Of(query: Option<string>): (r: NewsSearchRequest)
    ensures Normalised(r) && r.query == query
    ensures r.display == 10 && r.start == 1 && r.sort == "date"
  {
    Make(query, 10, 1, Some("date"))
  }

  /**
   * The next page keeps the query, page size and sort order; it starts
   * right after the current page while that start is at most 100, and
   * otherwise over at 1.
   */
  function NextPage(r: NewsSearchRequest): (next: NewsSearchRequest)
    requires Normalised(r)
    ensures Normalised(next)
    ensures next.query == r.query && next.display == r.display && next.sort == r.sort
    ensures next.start == if r.start + r.display <= MAX_START then r.start + r.display else 1
    ensures next.start > r.start || next.start == 1
  {
    Make(r.query, r.display, r.start + r.display, Some(r.sort))
  }

  /** The start of the request reached after `k` next-page steps. */
  function StartAfter(r: NewsSearchRequest, k: nat): (s: int)
    requires Normalised(r)
    ensures 1 <= s <= MAX_START
  {
    if k == 0 then r.start else NextPage(Make(r.query, r.display, StartAfter(r, k - 1), Some(r.sort))).start
  }

  /**
   * Paging from the first position with page size d visits 1, 1 + d,
   * 1 + 2d, ... for as long as those stay within 100.
   */
  lemma {:induction false} PagesAdvanceByDisplay(r: NewsSearchRequest, k: nat)
    requires Normalised(r) && r.start == 1 && 1 + k * r.display <= MAX_START
    ensures StartAfter(r, k) == 1 + k * r.display
  {
    if k > 0 {
      assert 1 + (k - 1) * r.display <= 1 + k * r.display;
      PagesAdvanceByDisplay(r, k - 1);
    }
  }
}
