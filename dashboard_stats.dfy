/**
 * The two tally objects the dashboard fills from grouped query rows: one
 * `addCount(status, count)` per row, then `build()`. Only the integer
 * and the pass, agree and participation rates are modelled; the rates are
 * exact quotients here, where Java rounds them to doubles.
 */
module DashboardStatisticsService {
  import opened JavaLang
  import opened DomainTypes
  import V = VoteResultType

  /** The integer fields of BillStatistics. */
  datatype BillCounts = BillCounts(
    total: int, passed: int, rejected: int, withdrawn: int, alternative: int, processing: int)

  const NO_BILLS := BillCounts(0, 0, 0, 0, 0, 0)

  /** `(double) part / whole * 100` for a positive whole, else 0: a share in percent. */
  function Percent(part: int, whole: int): real {
    if whole > 0 then (part as real) / (whole as real) * 100.0 else 0.0
  }

  /** Shares of a positive whole lie in [0, 100], grow with the part, and reach the ends exactly at 0 and the whole. */
  lemma PercentBounds(a: int, b: int, whole: int)
    requires 0 <= a <= b <= whole && 0 < whole
    ensures 0.0 <= Percent(a, whole) <= Percent(b, whole) <= 100.0
    ensures Percent(a, whole) == 0.0 <==> a == 0
    ensures Percent(b, whole) == 100.0 <==> b == whole
  {
    var w := whole as real;
    assert Percent(a, whole) * w == (a as real) * 100.0;
    assert Percent(b, whole) * w == (b as real) * 100.0;
  }

  /** BillStatistics: the counts and passRate. */
  datatype BillStatistics = BillStatistics(counts: BillCounts, passRate: real)

  /** The statuses whose bucket holds the last count reported for them. */
  predicate IsFinal(status: BillStatus) {
    status == PASSED || status == REJECTED || status == WITHDRAWN || status == ALTERNATIVE
  }

  /** The statuses whose counts accumulate into `processing`. */
  predicate IsInProgress(status: BillStatus) {
    status == PROCESSING || status == PROPOSED || status == IN_COMMITTEE || status == IN_PLENARY
  }

  /** The effect of one BillStatsCalculator.addCount call. */
  function BillStep(c: BillCounts, status: BillStatus, count: int): BillCounts {
    var added := c.(total := Wrap(c.total + count));
    match status
    case PASSED => added.(passed := count)
    case REJECTED => added.(rejected := count)
    case WITHDRAWN => added.(withdrawn := count)
    case ALTERNATIVE => added.(alternative := count)
    case PROCESSING | PROPOSED | IN_COMMITTEE | IN_PLENARY => added.(processing := Wrap(c.processing + count))
    case EXPIRED => added
  }

  /** The counts after feeding the rows, in order, to a new calculator. */
  function BillTally(rows: seq<(BillStatus, int)>): BillCounts
    decreases |rows|
  {
    if rows == [] then NO_BILLS
    else
      var last := rows[|rows| - 1];
      BillStep(BillTally(rows[..|rows| - 1]), last.0, last.1)
  }

  /** The bucket a final status writes. */
  function FinalBucket(c: BillCounts, status: BillStatus): int
    requires IsFinal(status)
  {
    match status
    case PASSED => c.passed
    case REJECTED => c.rejected
    case WITHDRAWN => c.withdrawn
    case ALTERNATIVE => c.alternative
  }

  /** The count of the last row for `status`, 0 when there is none. */
  function LastBillCount(rows: seq<(BillStatus, int)>, status: BillStatus): int
    decreases |rows|
  {
    if rows == [] then 0
    else if rows[|rows| - 1].0 == status then rows[|rows| - 1].1
    else LastBillCount(rows[..|rows| - 1], status)
  }

  /** Sum of the counts of the rows whose status satisfies `keep`. */
  function SumBillCounts(rows: seq<(BillStatus, int)>, keep: BillStatus -> bool): int
    decreases |rows|
  {
    if rows == [] then 0
    else
      var last := rows[|rows| - 1];
      SumBillCounts(rows[..|rows| - 1], keep) + (if keep(last.0) then last.1 else 0)
  }

  function WithoutExpired(rows: seq<(BillStatus, int)>): (r: seq<(BillStatus, int)>)
    ensures forall k :: 0 <= k < |r| ==> r[k].0 != EXPIRED
    decreases |rows|
  {
    if rows == [] then []
    else
      var last := rows[|rows| - 1];
      WithoutExpired(rows[..|rows| - 1]) + (if last.0 == EXPIRED then [] else [last])
  }

  /** `total` is the wrapped sum of every row's count, whatever its status. */
  lemma {:induction false} BillTallyTotal(rows: seq<(BillStatus, int)>)
    ensures BillTally(rows).total == Wrap(SumBillCounts(rows, _ => true))
    decreases |rows|
  {
    if rows != [] {
      var init, last := rows[..|rows| - 1], rows[|rows| - 1];
      BillTallyTotal(init);
      WrapAdd(SumBillCounts(init, _ => true), last.1);
    } else {
      assert Wrap(0) == 0;
    }
  }

  /** `processing` is the wrapped sum of the counts of the in-progress rows. */
  lemma {:induction false} BillTallyProcessing(rows: seq<(BillStatus, int)>)
    ensures BillTally(rows).processing == Wrap(SumBillCounts(rows, IsInProgress))
    decreases |rows|
  {
    if rows != [] {
      var init, last := rows[..|rows| - 1], rows[|rows| - 1];
      BillTallyProcessing(init);
      WrapAdd(SumBillCounts(init, IsInProgress), last.1);
    } else {
      assert Wrap(0) == 0;
    }
  }

  /** A final status's bucket holds the count of its last row: later rows overwrite earlier ones. */
  lemma {:induction false} BillTallyFinalIsLast(rows: seq<(BillStatus, int)>, status: BillStatus)
    requires IsFinal(status)
    ensures FinalBucket(BillTally(rows), status) == LastBillCount(rows, status)
    decreases |rows|
  {
    if rows != [] {
      BillTallyFinalIsLast(rows[..|rows| - 1], status);
    }
  }

  /** EXPIRED rows change `total` and no other bucket. */
  lemma {:induction false} ExpiredCountsOnlyTowardTotal(rows: seq<(BillStatus, int)>)
    ensures BillTally(WithoutExpired(rows)).(total := 0) == BillTally(rows).(total := 0)
    decreases |rows|
  {
    if rows != [] {
      var init, last := rows[..|rows| - 1], rows[|rows| - 1];
      ExpiredCountsOnlyTowardTotal(init);
      assert BillTally(rows) == BillStep(BillTally(init), last.0, last.1);
      if last.0 != EXPIRED {
        var w := WithoutExpired(init) + [last];
        assert WithoutExpired(rows) == w;
        assert w[..|w| - 1] == WithoutExpired(init);
        assert BillTally(w) == BillStep(BillTally(WithoutExpired(init)), last.0, last.1);
      } else {
        assert WithoutExpired(rows) == WithoutExpired(init);
      }
    }
  }

  class BillStatsCalculator {
    var total: int
    var passed: int
    var rejected: int
    var withdrawn: int
    var alternative: int
    var processing: int

    constructor()
      ensures Counts() == NO_BILLS
    {
      total, passed, rejected, withdrawn, alternative, processing := 0, 0, 0, 0, 0, 0;
    }

    /** One grouped row: every count goes to the total, then to the status's bucket. */
    method AddCount(status: BillStatus, count: int)
      modifies this
      ensures Counts() == BillStep(old(Counts()), status, count)
    {
      total := Wrap(total + count);
      match status {
        case PASSED => passed := count;
        case REJECTED => rejected := count;
        case WITHDRAWN => withdrawn := count;
        case ALTERNATIVE => alternative := count;
        case PROCESSING | PROPOSED | IN_COMMITTEE | IN_PLENARY => processing := Wrap(processing + count);
        case EXPIRED =>
      }
    }

    /** The counts tallied so far. */
    function Counts(): BillCounts
      reads this
    {
      BillCounts(total, passed, rejected, withdrawn, alternative, processing)
    }

    /** build(): the counts and the share of passed bills, in percent, 0 without bills. */
    function Build(): (r: BillStatistics)
      reads this
      ensures r.counts == Counts()
      ensures total <= 0 ==> r.passRate == 0.0
      ensures 0 <= passed <= total ==> 0.0 <= r.passRate <= 100.0
      ensures 0 < total ==> (r.passRate == 100.0 <==> passed == total)
      ensures 0 < total ==> (r.passRate == 0.0 <==> passed == 0)
    {
      if 0 < total && 0 <= passed <= total then PercentBounds(passed, passed, total); BillStatistics(Counts(), Percent(passed, total))
      else BillStatistics(Counts(), Percent(passed, total))
    }
  }

  /** The integer fields of VoteStatistics. */
  datatype VoteCounts = VoteCounts(agree: int, disagree: int, abstain: int, absent: int)

  const NO_VOTES := VoteCounts(0, 0, 0, 0)

  /** VoteStatistics: the counts, agreeRate and participationRate. */
  datatype VoteStatistics = VoteStatistics(counts: VoteCounts, agreeRate: real, participationRate: real)

  /** The effect of one VoteStatsCalculator.addCount call: UNKNOWN is ignored. */
  function VoteStep(c: VoteCounts, result: V.VoteResultType, count: int): VoteCounts {
    match result
    case AGREE => c.(agree := count)
    case DISAGREE => c.(disagree := count)
    case ABSTAIN => c.(abstain := count)
    case ABSENT => c.(absent := count)
    case UNKNOWN => c
  }

  function VoteTally(rows: seq<(V.VoteResultType, int)>): VoteCounts
    decreases |rows|
  {
    if rows == [] then NO_VOTES
    else
      var last := rows[|rows| - 1];
      VoteStep(VoteTally(rows[..|rows| - 1]), last.0, last.1)
  }

  /** The bucket of a result, 0 for UNKNOWN, which has none. */
  function VoteBucket(c: VoteCounts, result: V.VoteResultType): int {
    match result
    case AGREE => c.agree
    case DISAGREE => c.disagree
    case ABSTAIN => c.abstain
    case ABSENT => c.absent
    case UNKNOWN => 0
  }

  /** The `total` that `build()` computes: the wrapped sum of the four buckets. */
  function VoteTotal(c: VoteCounts): int {
    Wrap(c.agree + c.disagree + c.abstain + c.absent)
  }

  /** The count of the last row for `result`, 0 when there is none. */
  function LastVoteCount(rows: seq<(V.VoteResultType, int)>, result: V.VoteResultType): int
    decreases |rows|
  {
    if rows == [] then 0
    else if rows[|rows| - 1].0 == result then rows[|rows| - 1].1
    else LastVoteCount(rows[..|rows| - 1], result)
  }

  /** Sum of the counts of the rows whose result is not UNKNOWN. */
  function SumKnownVotes(rows: seq<(V.VoteResultType, int)>): int
    decreases |rows|
  {
    if rows == [] then 0
    else
      var last := rows[|rows| - 1];
      SumKnownVotes(rows[..|rows| - 1]) + (if last.0 == V.UNKNOWN then 0 else last.1)
  }

  function WithoutUnknown(rows: seq<(V.VoteResultType, int)>): (r: seq<(V.VoteResultType, int)>)
    ensures forall k :: 0 <= k < |r| ==> r[k].0 != V.UNKNOWN
    decreases |rows|
  {
    if rows == [] then []
    else
      var last := rows[|rows| - 1];
      WithoutUnknown(rows[..|rows| - 1]) + (if last.0 == V.UNKNOWN then [] else [last])
  }

  /** Each known result's bucket holds the count of its last row. */
  lemma {:induction false} VoteTallyIsLast(rows: seq<(V.VoteResultType, int)>, result: V.VoteResultType)
    requires result != V.UNKNOWN
    ensures VoteBucket(VoteTally(rows), result) == LastVoteCount(rows, result)
    decreases |rows|
  {
    if rows != [] {
      VoteTallyIsLast(rows[..|rows| - 1], result);
    }
  }

  /** UNKNOWN rows leave every bucket as it was. */
  lemma {:induction false} UnknownVotesIgnored(rows: seq<(V.VoteResultType, int)>)
    ensures VoteTally(WithoutUnknown(rows)) == VoteTally(rows)
    decreases |rows|
  {
    if rows != [] {
      var init, last := rows[..|rows| - 1], rows[|rows| - 1];
      UnknownVotesIgnored(init);
      if last.0 != V.UNKNOWN {
        var w := WithoutUnknown(init) + [last];
        assert WithoutUnknown(rows) == w;
        assert w[..|w| - 1] == WithoutUnknown(init);
      } else {
        assert WithoutUnknown(rows) == WithoutUnknown(init);
      }
    }
  }

  predicate DistinctResults(rows: seq<(V.VoteResultType, int)>) {
    forall i, j :: 0 <= i < j < |rows| ==> rows[i].0 != rows[j].0
  }

  /**
   * When the query yields one row per result, the built total is the number
   * of votes whose result is known.
   */
  lemma {:induction false} VoteTotalCountsKnownVotes(rows: seq<(V.VoteResultType, int)>)
    requires DistinctResults(rows)
    ensures VoteTotal(VoteTally(rows)) == Wrap(SumKnownVotes(rows))
  {
    VoteBucketsSum(rows);
  }

  lemma {:induction false} VoteBucketsSum(rows: seq<(V.VoteResultType, int)>)
    requires DistinctResults(rows)
    ensures var c := VoteTally(rows); c.agree + c.disagree + c.abstain + c.absent == SumKnownVotes(rows)
    decreases |rows|
  {
    if rows != [] {
      var init, last := rows[..|rows| - 1], rows[|rows| - 1];
      assert DistinctResults(init);
      VoteBucketsSum(init);
      if last.0 != V.UNKNOWN {
        NoRowNoCount(init, last.0);
        VoteTallyIsLast(init, last.0);
      }
    }
  }

  lemma {:induction false} NoRowNoCount(rows: seq<(V.VoteResultType, int)>, result: V.VoteResultType)
    requires forall k :: 0 <= k < |rows| ==> rows[k].0 != result
    ensures LastVoteCount(rows, result) == 0
    decreases |rows|
  {
    if rows != [] {
      NoRowNoCount(rows[..|rows| - 1], result);
    }
  }

  class VoteStatsCalculator {
    var agree: int
    var disagree: int
    var abstain: int
    var absent: int

    constructor()
      ensures Counts() == NO_VOTES
    {
      agree, disagree, abstain, absent := 0, 0, 0, 0;
    }

    /** One grouped row: the result's bucket takes the count; UNKNOWN rows are dropped. */
    method AddCount(result: V.VoteResultType, count: int)
      modifies this
      ensures Counts() == VoteStep(old(Counts()), result, count)
    {
      match result {
        case AGREE => agree := count;
        case DISAGREE => disagree := count;
        case ABSTAIN => abstain := count;
        case ABSENT => absent := count;
        case UNKNOWN =>
      }
    }

    /** The counts tallied so far. */
    function Counts(): VoteCounts
      reads this
    {
      VoteCounts(agree, disagree, abstain, absent)
    }

    /**
     * build(): the counts, the share of agreeing votes and the share of
     * members who voted at all, in percent of the wrapped total, 0 without votes.
     */
    function Build(): (r: VoteStatistics)
      reads this
      ensures r.counts == Counts()
      ensures VoteTotal(Counts()) <= 0 ==> r.agreeRate == 0.0 && r.participationRate == 0.0
      ensures 0 <= agree && 0 <= disagree && 0 <= abstain && 0 <= absent && 0 < agree + disagree + abstain + absent <= INT_MAX ==>
        0.0 <= r.agreeRate <= r.participationRate <= 100.0 && (r.participationRate == 100.0 <==> absent == 0)
    {
      var total := VoteTotal(Counts());
      var voted := Wrap(agree + disagree + abstain);
      if 0 <= agree && 0 <= disagree && 0 <= abstain && 0 <= absent && 0 < agree + disagree + abstain + absent <= INT_MAX then
        PercentBounds(agree, voted, total);
        VoteStatistics(Counts(), Percent(agree, total), Percent(voted, total))
      else VoteStatistics(Counts(), Percent(agree, total), Percent(voted, total))
    }
  }
}
