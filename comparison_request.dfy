/**
 * A request to compare figures, given by ids, by names or both. A list
 * that is null or empty counts as absent; a request is usable when
 * either list is present.
 */
module ComparisonRequest {
  import opened JavaLang
  import opened Dates

  /** The comparison types are a type parameter: their enumeration is not part of this model. */
  datatype ComparisonRequest<T> = ComparisonRequest(
    figureIds: Option<seq<int>>,
    figureNames: Option<seq<string>>,
    issueId: Option<string>,
    category: Option<string>,
    startDate: Option<Date>,
    endDate: Option<Date>,
    comparisonTypes: Option<seq<T>>)
  {
    function HasIds(): (b: bool)
      ensures b <==> SizeOr(figureIds) > 0
    {
      figureIds.Some? && figureIds.value != []
    }

    function HasNames(): (b: bool)
      ensures b <==> SizeOr(figureNames) > 0
    {
      figureNames.Some? && figureNames.value != []
    }

    /** Both ids and names are given; such a request is always valid. */
    function IsMixed(): (b: bool)
      ensures b <==> SizeOr(figureIds) > 0 && SizeOr(figureNames) > 0
      ensures b ==> IsValid()
    {
      HasIds() && HasNames()
    }

    function IsValid(): (b: bool)
      ensures b <==> SizeOr(figureIds) + SizeOr(figureNames) > 0
    {
      HasIds() || HasNames()
    }

    /** The number of figures named by ids and by names; positive exactly when the request is valid. */
    function GetTotalFigureCount(): (n: nat)
      ensures n == SizeOr(figureIds) + SizeOr(figureNames)
      ensures n > 0 <==> IsValid()
    {
      (if HasIds() then |figureIds.value| else 0) + (if HasNames() then |figureNames.value| else 0)
    }
  }

  /** A request by ids only: it never has names and is never mixed. */
  function ByIds<T>(figureIds: Option<seq<int>>, issueId: Option<string>, category: Option<string>,
                    startDate: Option<Date>, endDate: Option<Date>, types: Option<seq<T>>): (r: ComparisonRequest<T>)
    ensures !r.HasNames() && !r.IsMixed()
    ensures r.IsValid() <==> SizeOr(figureIds) > 0
    ensures r.GetTotalFigureCount() == SizeOr(figureIds)
    ensures r.figureIds == figureIds && r.issueId == issueId && r.category == category
    ensures r.startDate == startDate && r.endDate == endDate && r.comparisonTypes == types
  {
    ComparisonRequest(figureIds, None, issueId, category, startDate, endDate, types)
  }

  /** A request by names only: it never has ids and is never mixed. */
  function ByNames<T>(figureNames: Option<seq<string>>, issueId: Option<string>, category: Option<string>,
                      startDate: Option<Date>, endDate: Option<Date>, types: Option<seq<T>>): (r: ComparisonRequest<T>)
    ensures !r.HasIds() && !r.IsMixed()
    ensures r.IsValid() <==> SizeOr(figureNames) > 0
    ensures r.GetTotalFigureCount() == SizeOr(figureNames)
    ensures r.figureNames == figureNames && r.issueId == issueId && r.category == category
    ensures r.startDate == startDate && r.endDate == endDate && r.comparisonTypes == types
  {
    ComparisonRequest(None, figureNames, issueId, category, startDate, endDate, types)
  }

  /** A request by ids and names together: it is mixed exactly when both lists are present. */
  function Mixed<T>(figureIds: Option<seq<int>>, figureNames: Option<seq<string>>, issueId: Option<string>,
                    category: Option<string>, startDate: Option<Date>, endDate: Option<Date>,
                    types: Option<seq<T>>): (r: ComparisonRequest<T>)
    ensures r.IsMixed() <==> SizeOr(figureIds) > 0 && SizeOr(figureNames) > 0
    ensures r.GetTotalFigureCount() == SizeOr(figureIds) + SizeOr(figureNames)
    ensures r.figureIds == figureIds && r.figureNames == figureNames
  {
    ComparisonRequest(figureIds, figureNames, issueId, category, startDate, endDate, types)
  }
}
