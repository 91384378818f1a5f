/**
 * The arithmetic of the comparison summary: which activity a figure is
 * mainly engaged in, which comparison sections are requested, the totals
 * and per-figure averages over all compared figures, the party
 * distribution, and the number of distinct days with any activity.
 * The comparison types are a type parameter here: their enumeration is
 * not part of this model.
 */
module ComparisonResultBuilder {
  import opened JavaLang
  import opened Collections
  import opened Dates

  const STATEMENT_CENTRED := "발언 중심"
  const VOTE_CENTRED := "투표 참여 중심"
  const BILL_CENTRED := "법안 발의 중심"

  /** The largest of three counts. */
  function Largest(a: int, b: int, c: int): (m: int)
    ensures m >= a && m >= b && m >= c
    ensures m == a || m == b || m == c
  {
    if a >= b && a >= c then a else if b >= c then b else c
  }

  /**
   * The activity with the largest count; on a tie statements win over
   * votes and bills, and votes win over bills.
   */
  function DetermineMainActivityType(statementCount: int, voteCount: int, billCount: int): (r: string)
    ensures r == STATEMENT_CENTRED || r == VOTE_CENTRED || r == BILL_CENTRED
    ensures r == STATEMENT_CENTRED <==> statementCount == Largest(statementCount, voteCount, billCount)
    ensures r == VOTE_CENTRED <==>
      statementCount < Largest(statementCount, voteCount, billCount) && voteCount == Largest(statementCount, voteCount, billCount)
    ensures r == BILL_CENTRED ==> billCount == Largest(statementCount, voteCount, billCount)
  {
    if statementCount >= voteCount && statementCount >= billCount then STATEMENT_CENTRED
    else if voteCount >= billCount then VOTE_CENTRED
    else BILL_CENTRED
  }

  /** A section is built when no types were requested (null) or when it is among them. */
  function ShouldIncludeType<T(==)>(types: Option<seq<T>>, targetType: T): (b: bool)
    ensures types.None? ==> b
    ensures types.Some? ==> (b <==> targetType in types.value)
  {
    types == None || targetType in types.value
  }

  /** The counts of one figure's comparison data; a section not built is null. */
  datatype StatementData = StatementData(statementCount: int)
  datatype VoteData = VoteData(agreeCount: int, disagreeCount: int, abstainCount: int)
  datatype BillData = BillData(proposedCount: int)
  datatype FigureData = FigureData(
    partyName: string,
    statements: Option<StatementData>,
    votes: Option<VoteData>,
    bills: Option<BillData>)

  function StatementsOf(f: FigureData): int {
    if f.statements.Some? then f.statements.value.statementCount else 0
  }

  /** Votes cast by a figure, an `int` sum of the three counts. */
  function VotesOf(f: FigureData): int {
    if f.votes.Some? then Wrap(f.votes.value.agreeCount + f.votes.value.disagreeCount + f.votes.value.abstainCount) else 0
  }

  function BillsOf(f: FigureData): int {
    if f.bills.Some? then f.bills.value.proposedCount else 0
  }

  /** Exact sum of the values. */
  function ExactSum(xs: seq<int>): int
    decreases |xs|
  {
    if xs == [] then 0 else ExactSum(xs[..|xs| - 1]) + xs[|xs| - 1]
  }

  /** IntStream.sum: the running total wraps as a Java `int` after every addition. */
  function IntStreamSum(xs: seq<int>): int
    decreases |xs|
  {
    if xs == [] then 0 else Wrap(IntStreamSum(xs[..|xs| - 1]) + xs[|xs| - 1])
  }

  /** Wrapping at every step gives the wrapped exact sum, so a sum that fits is exact. */
  lemma {:induction false} IntStreamSumIsWrappedSum(xs: seq<int>)
    ensures IntStreamSum(xs) == Wrap(ExactSum(xs))
    decreases |xs|
  {
    if xs == [] {
      assert Wrap(0) == 0;
    } else {
      var init := xs[..|xs| - 1];
      IntStreamSumIsWrappedSum(init);
      WrapAdd(ExactSum(init), xs[|xs| - 1]);
    }
  }

  function Statements(fs: seq<FigureData>): seq<int> {
    seq(|fs|, i requires 0 <= i < |fs| => StatementsOf(fs[i]))
  }

  function Votes(fs: seq<FigureData>): seq<int> {
    seq(|fs|, i requires 0 <= i < |fs| => VotesOf(fs[i]))
  }

  function Bills(fs: seq<FigureData>): seq<int> {
    seq(|fs|, i requires 0 <= i < |fs| => BillsOf(fs[i]))
  }

  datatype OverallStatistics = OverallStatistics(
    totalStatements: int, totalVotes: int, totalBills: int,
    averageStatementsPerFigure: int, averageVotesPerFigure: int, averageBillsPerFigure: int)

  /** `total / size` in Java, 0 for an empty list. */
  function Average(total: int, size: nat): (avg: int)
    ensures size == 0 ==> avg == 0
    ensures size > 0 && total >= 0 ==> avg * size <= total < (avg + 1) * size
    ensures size > 0 && total < 0 ==> (avg - 1) * size < total <= avg * size
  {
    if size == 0 then 0 else TruncDiv(total, size)
  }

  /**
   * The overall statistics: each total is the `int` sum over the figures,
   * null sections counting 0, and each average the truncated quotient by
   * the number of figures.
   */
  function OverallStatisticsOf(fs: seq<FigureData>): (r: OverallStatistics)
    ensures r.totalStatements == Wrap(ExactSum(Statements(fs)))
    ensures r.totalVotes == Wrap(ExactSum(Votes(fs)))
    ensures r.totalBills == Wrap(ExactSum(Bills(fs)))
    ensures fs == [] ==> r.averageStatementsPerFigure == 0 && r.averageVotesPerFigure == 0 && r.averageBillsPerFigure == 0
    ensures fs != [] && r.totalStatements >= 0 ==>
      r.averageStatementsPerFigure * |fs| <= r.totalStatements < (r.averageStatementsPerFigure + 1) * |fs|
    ensures fs != [] ==> r.averageStatementsPerFigure == Average(r.totalStatements, |fs|)
    ensures fs != [] ==> r.averageVotesPerFigure == Average(r.totalVotes, |fs|)
    ensures fs != [] ==> r.averageBillsPerFigure == Average(r.totalBills, |fs|)
  {
    IntStreamSumIsWrappedSum(Statements(fs));
    IntStreamSumIsWrappedSum(Votes(fs));
    IntStreamSumIsWrappedSum(Bills(fs));
    var s, v, b := IntStreamSum(Statements(fs)), IntStreamSum(Votes(fs)), IntStreamSum(Bills(fs));
    OverallStatistics(s, v, b, Average(s, |fs|), Average(v, |fs|), Average(b, |fs|))
  }

  /** Number of times `p` occurs in `names`. */
  function Occurrences(names: seq<string>, p: string): (n: nat)
    ensures n > 0 <==> p in names
    decreases |names|
  {
    if names == [] then 0
    else
      var init := names[..|names| - 1];
      assert forall x :: x in names <==> x in init || x == names[|names| - 1] by {
        assert names == init + [names[|names| - 1]];
      }
      Occurrences(init, p) + (if names[|names| - 1] == p then 1 else 0)
  }

  /** groupingBy(partyName, counting()): one entry per party with its number of figures. */
  function PartyDistribution(names: seq<string>): (m: map<string, nat>)
    ensures forall p :: p in m <==> p in names
    ensures forall p :: p in m ==> m[p] == Occurrences(names, p)
    decreases |names|
  {
    if names == [] then map[]
    else
      var init := names[..|names| - 1];
      var last := names[|names| - 1];
      var m := PartyDistribution(init);
      assert forall x :: x in names <==> x in init || x == last by {
        assert names == init + [last];
      }
      m[last := if last in m then m[last] + 1 else 1]
  }

  function PartyNames(fs: seq<FigureData>): seq<string> {
    seq(|fs|, i requires 0 <= i < |fs| => fs[i].partyName)
  }

  /** Sum of the occurrence counts of `keys` in `names`. */
  function CountOver(keys: seq<string>, names: seq<string>): nat
    decreases |keys|
  {
    if keys == [] then 0 else CountOver(keys[..|keys| - 1], names) + Occurrences(names, keys[|keys| - 1])
  }

  lemma {:induction false} CountOverAppend(keys: seq<string>, names: seq<string>, x: string)
    requires NoDuplicates(keys)
    ensures CountOver(keys, names + [x]) == CountOver(keys, names) + (if x in keys then 1 else 0)
    decreases |keys|
  {
    assert (names + [x])[..|names|] == names;
    if keys != [] {
      var init := keys[..|keys| - 1];
      var k := keys[|keys| - 1];
      assert NoDuplicates(init);
      CountOverAppend(init, names, x);
      assert keys == init + [k];
      assert k !in init;
    }
  }

  /** The counts of the party distribution add up to the number of figures. */
  lemma {:induction false} PartyCountsSumToFigures(names: seq<string>)
    ensures CountOver(Distinct(names), names) == |names|
    decreases |names|
  {
    if names != [] {
      var init := names[..|names| - 1];
      var last := names[|names| - 1];
      var d := Distinct(init);
      PartyCountsSumToFigures(init);
      assert names == init + [last];
      CountOverAppend(d, init, last);
      if last !in d {
        assert Distinct(names) == d + [last];
        assert (d + [last])[..|d|] == d;
        assert last !in init;
        assert Occurrences(init, last) == 0;
      }
    }
  }

  /** The dates present in a list of nullable dates (a null list has none). */
  function DatesOf(xs: seq<Option<Date>>): set<Date>
    decreases |xs|
  {
    if xs == [] then {}
    else
      var last := xs[|xs| - 1];
      DatesOf(xs[..|xs| - 1]) + (if last.Some? then {last.value} else {})
  }

  /** The dates of a list are exactly its non-null entries, so there are at most as many as entries. */
  lemma {:induction false} DatesOfEntries(xs: seq<Option<Date>>)
    ensures |DatesOf(xs)| <= |xs|
    ensures forall d :: d in DatesOf(xs) <==> Some(d) in xs
    decreases |xs|
  {
    if xs != [] {
      var init := xs[..|xs| - 1];
      var last := xs[|xs| - 1];
      DatesOfEntries(init);
      assert xs == init + [last];
      assert forall x :: x in xs <==> x in init || x == last;
    }
  }

  function ActivityDates(xs: Option<seq<Option<Date>>>): set<Date> {
    if xs.None? then {} else DatesOf(xs.value)
  }

  /** Adds every non-null date of `xs` to `dates`, as the `forEach(allActivityDates::add)` pipelines do. */
  method AddDates(dates: set<Date>, xs: Option<seq<Option<Date>>>) returns (r: set<Date>)
    ensures r == dates + ActivityDates(xs)
  {
    r := dates;
    if xs.Some? {
      var ys := xs.value;
      var i := 0;
      while i < |ys|
        invariant 0 <= i <= |ys|
        invariant r == dates + DatesOf(ys[..i])
      {
        assert ys[..i + 1][..i] == ys[..i];
        if ys[i].Some? {
          r := r + {ys[i].value};
        }
        i := i + 1;
      }
      assert ys[..|ys|] == ys;
    }
  }

  /** The number of distinct days on which the figure made a statement, voted or proposed a bill. */
  method ActiveDays(statementDates: Option<seq<Option<Date>>>, voteDates: Option<seq<Option<Date>>>,
                    billDates: Option<seq<Option<Date>>>) returns (activeDays: nat)
    ensures activeDays == |ActivityDates(statementDates) + ActivityDates(voteDates) + ActivityDates(billDates)|
    ensures activeDays <= SizeOr(statementDates) + SizeOr(voteDates) + SizeOr(billDates)
  {
    var all: set<Date> := {};
    all := AddDates(all, statementDates);
    all := AddDates(all, voteDates);
    all := AddDates(all, billDates);
    activeDays := |all|;
    if statementDates.Some? {
      DatesOfEntries(statementDates.value);
    }
    if voteDates.Some? {
      DatesOfEntries(voteDates.value);
    }
    if billDates.Some? {
      DatesOfEntries(billDates.value);
    }
    UnionAtMost(ActivityDates(statementDates), ActivityDates(voteDates));
    UnionAtMost(ActivityDates(statementDates) + ActivityDates(voteDates), ActivityDates(billDates));
  }

  lemma UnionAtMost<T>(a: set<T>, b: set<T>)
    ensures |a + b| <= |a| + |b|
  {
    assert |a + b| + |a * b| == |a| + |b|;
  }
}
