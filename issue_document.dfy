/**
 * The stored issue record: a view counter and three link lists that
 * behave like sets with insertion order (an id is appended only when it
 * is absent), plus a partial update that overwrites only the fields it is
 * given. A list field that is null when an id arrives starts out empty.
 */
module IssueDocument {
  import opened JavaLang
  import opened Collections

  /** The list after adding each of `ids`, in order, to `xs`. */
  function AddEach<T(==,!new)>(xs: seq<T>, ids: seq<T>): seq<T>
    decreases |ids|
  {
    if ids == [] then xs else AddIfAbsent(AddEach(xs, ids[..|ids| - 1]), ids[|ids| - 1])
  }

  /**
   * Starting from a duplicate-free list, any sequence of additions yields
   * the old list followed by the new ids in order of first appearance,
   * each once.
   */
  lemma {:induction false} AddEachIsDistinct<T(!new)>(xs: seq<T>, ids: seq<T>)
    requires NoDuplicates(xs)
    ensures AddEach(xs, ids) == Distinct(xs + ids)
    decreases |ids|
  {
    if ids == [] {
      assert xs + ids == xs;
      DistinctOfDistinct(xs);
    } else {
      var init := ids[..|ids| - 1];
      var last := ids[|ids| - 1];
      AddEachIsDistinct(xs, init);
      var all := xs + ids;
      assert all[..|all| - 1] == xs + init && all[|all| - 1] == last;
      var d := Distinct(xs + init);
      assert Distinct(all) == if last in d then d else d + [last];
      assert AddEach(xs, ids) == AddIfAbsent(d, last);
    }
  }

  /** An `Integer` counter raised by one, starting from 1 when it is null. */
  function RaisedViewCount(viewCount: Option<int>): (r: int)
    requires viewCount.Some? ==> IsInt32(viewCount.value)
    ensures IsInt32(r)
    ensures viewCount.None? ==> r == 1
    ensures viewCount.Some? && viewCount.value < INT_MAX ==> r == viewCount.value + 1
  {
    if viewCount.None? then 1 else Inc(viewCount.value)
  }

  /** The value a nullable field holds after a partial update: the new value unless it is null. */
  function Updated<T>(current: Option<T>, given: Option<T>): (r: Option<T>)
    ensures given.Some? ==> r == given
    ensures given.None? ==> r == current
  {
    if given.Some? then given else current
  }

  /** Applying the same partial update twice has the effect of applying it once. */
  lemma UpdatedIdempotent<T>(current: Option<T>, given: Option<T>)
    ensures Updated(Updated(current, given), given) == Updated(current, given)
  {
  }

  class IssueDocument {
    var id: Option<int>
    var name: Option<string>
    var description: Option<string>
    var categoryCode: Option<string>
    var categoryName: Option<string>
    var keywords: Option<seq<string>>
    var thumbnailUrl: Option<string>
    var parentIssueId: Option<string>
    var isActive: Option<bool>
    var priority: Option<int>
    var viewCount: Option<int>
    var isHot: Option<bool>
    var relatedStatementIds: Option<seq<string>>
    var relatedBillIds: Option<seq<string>>
    var relatedFigureIds: Option<seq<int>>
    var tags: Option<seq<string>>

    /** The view counter is a Java `Integer`. */
    ghost predicate Valid()
      reads this
    {
      viewCount.Some? ==> IsInt32(viewCount.value)
    }

    method IncrementViewCount()
      requires Valid()
      modifies this`viewCount
      ensures Valid() && viewCount == Some(RaisedViewCount(old(viewCount)))
    {
      if viewCount.None? {
        viewCount := Some(1);
      } else {
        viewCount := Some(Inc(viewCount.value));
      }
    }

    method AddRelatedStatement(statementId: string)
      modifies this`relatedStatementIds
      ensures relatedStatementIds == Some(AddIfAbsent(old(relatedStatementIds).GetOr([]), statementId))
    {
      if relatedStatementIds.None? {
        relatedStatementIds := Some([]);
      }
      if statementId !in relatedStatementIds.value {
        relatedStatementIds := Some(relatedStatementIds.value + [statementId]);
      }
    }

    method AddRelatedBill(billId: string)
      modifies this`relatedBillIds
      ensures relatedBillIds == Some(AddIfAbsent(old(relatedBillIds).GetOr([]), billId))
    {
      if relatedBillIds.None? {
        relatedBillIds := Some([]);
      }
      if billId !in relatedBillIds.value {
        relatedBillIds := Some(relatedBillIds.value + [billId]);
      }
    }

    method AddRelatedFigure(figureId: int)
      modifies this`relatedFigureIds
      ensures relatedFigureIds == Some(AddIfAbsent(old(relatedFigureIds).GetOr([]), figureId))
    {
      if relatedFigureIds.None? {
        relatedFigureIds := Some([]);
      }
      if figureId !in relatedFigureIds.value {
        relatedFigureIds := Some(relatedFigureIds.value + [figureId]);
      }
    }

    /**
     * Overwrites exactly the fields whose new value is not null; a field
     * given null keeps its value, which `Updated` assigns back unchanged.
     */
    method Update(name: Option<string>, description: Option<string>, categoryCode: Option<string>,
                  categoryName: Option<string>, keywords: Option<seq<string>>,
                  thumbnailUrl: Option<string>, tags: Option<seq<string>>,
                  isActive: Option<bool>, isHot: Option<bool>)
      modifies this`name, this`description, this`categoryCode, this`categoryName, this`keywords,
               this`thumbnailUrl, this`tags, this`isActive, this`isHot
      ensures this.name == Updated(old(this.name), name)
      ensures this.description == Updated(old(this.description), description)
      ensures this.categoryCode == Updated(old(this.categoryCode), categoryCode)
      ensures this.categoryName == Updated(old(this.categoryName), categoryName)
      ensures this.keywords == Updated(old(this.keywords), keywords)
      ensures this.thumbnailUrl == Updated(old(this.thumbnailUrl), thumbnailUrl)
      ensures this.tags == Updated(old(this.tags), tags)
      ensures this.isActive == Updated(old(this.isActive), isActive)
      ensures this.isHot == Updated(old(this.isHot), isHot)
    {
      this.name := Updated(this.name, name);
      this.description := Updated(this.description, description);
      this.categoryCode := Updated(this.categoryCode, categoryCode);
      this.categoryName := Updated(this.categoryName, categoryName);
      this.keywords := Updated(this.keywords, keywords);
      this.thumbnailUrl := Updated(this.thumbnailUrl, thumbnailUrl);
      this.tags := Updated(this.tags, tags);
      this.isActive := Updated(this.isActive, isActive);
      this.isHot := Updated(this.isHot, isHot);
    }
  }
}
