/**
 * The stored bill entity: plain setters, a view counter and the
 * replacement of the co-proposer list. The list is a mutable object that
 * a caller may share with the bill, so it is modelled as a class of its
 * own: replacing the list by clearing it and copying the argument loses
 * the names when the argument is the bill's own list.
 */
module ProposedBill {
  import opened JavaLang
  import opened DomainTypes
  import opened Dates
  import FigureEntity

  /** A java.util.List<String> object. */
  class StringList {
    var items: seq<string>

    constructor(items: seq<string>)
      ensures this.items == items
    {
      this.items := items;
    }
  }

  class ProposedBill {
    var id: Option<int>
    var proposer: FigureEntity.Figure?
    var billId: Option<string>
    var billNo: Option<string>
    var billName: Option<string>
    var proposeDate: Option<Date>
    var summary: Option<string>
    var content: Option<string>
    var billUrl: Option<string>
    var billStatus: Option<BillStatus>
    var processDate: Option<Date>
    var processResult: Option<string>
    var processResultCode: Option<string>
    const coProposers: StringList?
    var committee: Option<string>
    var viewCount: Option<int>

    /** The view counter is a Java `Integer`. */
    ghost predicate Valid()
      reads this
    {
      viewCount.Some? ==> IsInt32(viewCount.value)
    }

    /** The no-argument constructor: an empty co-proposer list and no views; every other field null. */
    constructor()
      ensures Valid() && coProposers != null && fresh(coProposers) && coProposers.items == [] && viewCount == Some(0)
      ensures id.None? && proposer == null && billId.None? && billNo.None? && billName.None?
      ensures proposeDate.None? && summary.None? && content.None? && billUrl.None?
      ensures billStatus.None? && processDate.None? && processResult.None?
      ensures processResultCode.None? && committee.None?
    {
      id, proposer, billId, billNo, billName := None, null, None, None, None;
      proposeDate, summary, content, billUrl := None, None, None, None;
      billStatus, processDate, processResult, processResultCode, committee := None, None, None, None, None;
      coProposers := new StringList([]);
      viewCount := Some(0);
    }

    /**
     * The builder (and the all-arguments constructor): every field is the
     * value given, null when none is. The field initialisers do not apply, so
     * a bill built without them has a null list and a null counter, and a
     * list given to the builder is shared with the caller, not copied.
     */
    constructor Built(id: Option<int>, proposer: FigureEntity.Figure?, billId: Option<string>,
                      billNo: Option<string>, billName: Option<string>, proposeDate: Option<Date>,
                      summary: Option<string>, content: Option<string>, billUrl: Option<string>,
                      billStatus: Option<BillStatus>, processDate: Option<Date>,
                      processResult: Option<string>, processResultCode: Option<string>,
                      coProposers: StringList?, committee: Option<string>, viewCount: Option<int>)
      requires viewCount.Some? ==> IsInt32(viewCount.value)
      ensures Valid() && this.coProposers == coProposers && this.viewCount == viewCount
      ensures this.id == id && this.proposer == proposer && this.billId == billId
      ensures this.billNo == billNo && this.billName == billName && this.proposeDate == proposeDate
      ensures this.summary == summary && this.content == content && this.billUrl == billUrl
      ensures this.billStatus == billStatus && this.processDate == processDate
      ensures this.processResult == processResult && this.processResultCode == processResultCode
      ensures this.committee == committee
    {
      this.id, this.proposer, this.billId, this.billNo, this.billName := id, proposer, billId, billNo, billName;
      this.proposeDate, this.summary, this.content, this.billUrl := proposeDate, summary, content, billUrl;
      this.billStatus, this.processDate, this.processResult := billStatus, processDate, processResult;
      this.processResultCode, this.committee := processResultCode, committee;
      this.coProposers := coProposers;
      this.viewCount := viewCount;
    }

    /** `viewCount++` on an `Integer`: unboxing a null counter throws; otherwise it rises by one. */
    method IncrementViewCount() returns (nullPointer: bool)
      requires Valid()
      modifies this`viewCount
      ensures Valid()
      ensures nullPointer <==> old(viewCount).None?
      ensures !nullPointer ==> viewCount == Some(Inc(old(viewCount).value))
      ensures nullPointer ==> viewCount == old(viewCount)
    {
      nullPointer := viewCount.None?;
      if !nullPointer {
        viewCount := Some(Inc(viewCount.value));
      }
    }

    /**
     * Replaces the co-proposers as the source does: clear the bill's list,
     * then append the argument's elements. When the argument is the bill's
     * own list it is already empty by the time it is copied.
     */
    method SetCoProposers(given: StringList?) returns (nullPointer: bool)
      modifies coProposers
      ensures nullPointer <==> coProposers == null
      ensures coProposers != null ==>
        coProposers.items == (if given == null || given == coProposers then [] else old(given.items))
    {
      nullPointer := coProposers == null;
      if !nullPointer {
        coProposers.items := [];
        if given != null {
          coProposers.items := coProposers.items + given.items;
        }
      }
    }

    /** The replacement the source intends: the argument's elements are read before the list is cleared. */
    method SetCoProposersCopying(given: StringList?) returns (nullPointer: bool)
      modifies coProposers
      ensures nullPointer <==> coProposers == null
      ensures coProposers != null ==>
        coProposers.items == (if given == null then [] else old(given.items))
    {
      nullPointer := coProposers == null;
      if !nullPointer {
        var names := if given == null then [] else given.items;
        coProposers.items := [];
        coProposers.items := coProposers.items + names;
      }
    }

    method SetBillStatus(status: Option<BillStatus>)
      modifies this`billStatus
      ensures billStatus == status
    {
      billStatus := status;
    }

    method SetProposer(proposer: FigureEntity.Figure?)
      modifies this`proposer
      ensures this.proposer == proposer
    {
      this.proposer := proposer;
    }

    method SetBillNo(billNo: Option<string>)
      modifies this`billNo
      ensures this.billNo == billNo
    {
      this.billNo := billNo;
    }

    method SetBillName(billName: Option<string>)
      modifies this`billName
      ensures this.billName == billName
    {
      this.billName := billName;
    }

    method SetProposeDate(proposeDate: Option<Date>)
      modifies this`proposeDate
      ensures this.proposeDate == proposeDate
    {
      this.proposeDate := proposeDate;
    }

    method SetSummary(summary: Option<string>)
      modifies this`summary
      ensures this.summary == summary
    {
      this.summary := summary;
    }

    method SetBillUrl(billUrl: Option<string>)
      modifies this`billUrl
      ensures this.billUrl == billUrl
    {
      this.billUrl := billUrl;
    }

    method SetProcessDate(processDate: Option<Date>)
      modifies this`processDate
      ensures this.processDate == processDate
    {
      this.processDate := processDate;
    }

    method SetProcessResult(processResult: Option<string>)
      modifies this`processResult
      ensures this.processResult == processResult
    {
      this.processResult := processResult;
    }

    method SetProcessResultCode(processResultCode: Option<string>)
      modifies this`processResultCode
      ensures this.processResultCode == processResultCode
    {
      this.processResultCode := processResultCode;
    }

    method SetCommittee(committee: Option<string>)
      modifies this`committee
      ensures this.committee == committee
    {
      this.committee := committee;
    }
  }

  /**
   * Passing a bill its own co-proposer list empties it: after
   * `bill.setCoProposers(bill.getCoProposers())` the names are gone.
   */
  method OwnListIsEmptied() returns (before: seq<string>, after: seq<string>)
    ensures before == ["홍길동"] && after == []
  {
    var bill := new ProposedBill();
    var names := new StringList(["홍길동"]);
    var npe := bill.SetCoProposers(names);
    before := bill.coProposers.items;
    npe := bill.SetCoProposers(bill.coProposers);
    after := bill.coProposers.items;
  }

  /** With the copying replacement the bill's own list is kept, and repeating a replacement changes nothing. */
  method OwnListIsKept() returns (before: seq<string>, after: seq<string>, again: seq<string>)
    ensures before == ["홍길동"] && after == before && again == before
  {
    var bill := new ProposedBill();
    var names := new StringList(["홍길동"]);
    var npe := bill.SetCoProposersCopying(names);
    before := bill.coProposers.items;
    npe := bill.SetCoProposersCopying(bill.coProposers);
    after := bill.coProposers.items;
    npe := bill.SetCoProposersCopying(names);
    again := bill.coProposers.items;
  }

  /**
   * A bill made by the builder without a view count or a co-proposer list
   * throws on both incrementViewCount and setCoProposers.
   */
  method BuiltBillThrows() returns (countThrows: bool, listThrows: bool)
    ensures countThrows && listThrows
  {
    var bill := new ProposedBill.Built(None, null, Some("PRC_1"), None, None, None, None, None,
                                       None, None, None, None, None, null, None, None);
    countThrows := bill.IncrementViewCount();
    var names := new StringList(["홍길동"]);
    listThrows := bill.SetCoProposers(names);
  }

  /** A list given to the builder is the bill's own: later changes through the caller's reference show in the bill. */
  method BuiltListIsShared() returns (seen: seq<string>)
    ensures seen == ["홍길동"]
  {
    var names := new StringList([]);
    var bill := new ProposedBill.Built(None, null, None, None, None, None, None, None,
                                       None, None, None, None, None, names, None, Some(0));
    names.items := names.items + ["홍길동"];
    seen := bill.coProposers.items;
  }
}
