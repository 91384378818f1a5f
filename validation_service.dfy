/**
 * ValidationService: checks on request parameters before any lookup.
 * A check either accepts or rejects with the reason the exception
 * message states; the message text itself is not modelled.
 */
module ValidationService {
  import opened JavaLang
  import opened Strings
  import opened Collections
  import opened Dates
  import IC = IssueCategory

  datatype Reason =
    | IdRequired | IdNotPositive | IdTooLarge | IdUnknown
    | ListRequired | TooFew | TooMany | InvalidIdAt(position: int)
    | DuplicateIds(duplicates: set<Option<int>>) | UnknownIds(missing: set<int>)
    | StartWithoutEnd | EndWithoutStart | StartAfterEnd | StartBefore2000
    | StartInFuture | EndInFuture | RangeTooLong(years: int)
    | NameRequired | NameTooShort | NameTooLong | NameCharacters
    | UnknownCategory
    | NegativePage | SizeNotPositive | SizeTooLarge

  datatype Verdict = Accepted | Rejected(reason: Reason)

  const MAX_FIGURE_ID: int := 999999

  // ------------------------------------------------------------ figure ids

  /** validateFigureId; the repository's existence check is the set `known`. */
  function ValidateFigureId(figureId: Option<int>, known: set<int>): (v: Verdict)
    ensures v == Accepted <==> figureId.Some? && 0 < figureId.value <= MAX_FIGURE_ID && figureId.value in known
    ensures figureId.Some? && figureId.value > MAX_FIGURE_ID ==> v == Rejected(IdTooLarge)
  {
    if figureId.None? then Rejected(IdRequired)
    else if figureId.value <= 0 then Rejected(IdNotPositive)
    else if figureId.value > MAX_FIGURE_ID then Rejected(IdTooLarge)
    else if figureId.value !in known then Rejected(IdUnknown)
    else Accepted
  }

  predicate ValidListId(id: Option<int>) {
    id.Some? && id.value > 0
  }

  /** The index of the first id that is null or not positive, or |ids|. */
  function FirstInvalidId(ids: seq<Option<int>>): (k: nat)
    ensures k <= |ids|
    ensures k < |ids| ==> !ValidListId(ids[k])
    ensures forall j :: 0 <= j < k ==> ValidListId(ids[j])
  {
    if ids == [] then 0
    else if !ValidListId(ids[0]) then 0
    else 1 + FirstInvalidId(ids[1..])
  }

  /** The elements that occur at least twice. */
  function Duplicates<T(!new)>(xs: seq<T>): set<T> {
    set x | x in xs && multiset(xs)[x] >= 2
  }

  /** findDuplicates: `!seen.add(item)` keeps an item exactly when it was seen before. */
  method FindDuplicates<T(!new)>(list: seq<T>) returns (dups: set<T>)
    ensures forall x :: x in dups <==> multiset(list)[x] >= 2
  {
    var seen: set<T> := {};
    dups := {};
    var i := 0;
    while i < |list|
      invariant 0 <= i <= |list|
      invariant forall x :: x in seen <==> multiset(list[..i])[x] >= 1
      invariant forall x :: x in dups <==> multiset(list[..i])[x] >= 2
    {
      var item := list[i];
      assert multiset(list[..i + 1]) == multiset(list[..i]) + multiset{item} by {
        assert list[..i + 1] == list[..i] + [item];
      }
      if item in seen {
        dups := dups + {item};
      } else {
        seen := seen + {item};
      }
      i := i + 1;
    }
    assert list[..|list|] == list;
  }

  /** A list's elements form a set as large as the list exactly when no element repeats. */
  lemma {:induction false} DistinctSize<T>(xs: seq<T>)
    ensures |set x | x in xs| <= |xs|
    ensures |set x | x in xs| == |xs| <==> NoDuplicates(xs)
    decreases |xs|
  {
    if xs != [] {
      var init := xs[..|xs| - 1];
      var last := xs[|xs| - 1];
      DistinctSize(init);
      assert xs == init + [last];
      var s := set x | x in init;
      assert (set x | x in xs) == s + {last};
      if last in init {
        var j :| 0 <= j < |init| && init[j] == last;
        assert xs[j] == xs[|xs| - 1];
        assert !NoDuplicates(xs);
      } else {
        assert NoDuplicates(xs) <==> NoDuplicates(init) by {
          if NoDuplicates(init) {
            forall i, j | 0 <= i < j < |xs| ensures xs[i] != xs[j] {
              if j < |xs| - 1 {
                assert xs[i] == init[i] && xs[j] == init[j];
              } else {
                assert xs[i] == init[i];
              }
            }
          }
          if NoDuplicates(xs) {
            forall i, j | 0 <= i < j < |init| ensures init[i] != init[j] {
              assert xs[i] == init[i] && xs[j] == init[j];
            }
          }
        }
      }
    }
  }

  /** validateFigureIdList; the repository's findAllById is the set `known` of stored ids. */
  function FigureIdListVerdict(figureIds: Option<seq<Option<int>>>, minCount: int, maxCount: int,
                               checkExistence: bool, known: set<int>): (v: Verdict)
    ensures figureIds.None? || figureIds.value == [] ==> v == Rejected(ListRequired)
    ensures figureIds.Some? && figureIds.value != [] && |figureIds.value| < minCount ==> v == Rejected(TooFew)
    ensures v == Accepted ==>
      figureIds.Some? && minCount <= |figureIds.value| <= maxCount
      && forall j :: 0 <= j < |figureIds.value| ==> ValidListId(figureIds.value[j])
  {
    if figureIds.None? || figureIds.value == [] then Rejected(ListRequired)
    else
      var ids := figureIds.value;
      if |ids| < minCount then Rejected(TooFew)
      else if |ids| > maxCount then Rejected(TooMany)
      else if FirstInvalidId(ids) < |ids| then Rejected(InvalidIdAt(FirstInvalidId(ids) + 1))
      else if |set x | x in ids| != |ids| then Rejected(DuplicateIds(Duplicates(ids)))
      else if checkExistence && exists j :: 0 <= j < |ids| && ids[j].value !in known then
        Rejected(UnknownIds(set j | 0 <= j < |ids| && ids[j].value !in known :: ids[j].value))
      else Accepted
  }

  /** The list is accepted exactly when its size is in range, every id is positive, and no id repeats. */
  lemma FigureIdListAccepts(figureIds: Option<seq<Option<int>>>, minCount: int, maxCount: int,
                            checkExistence: bool, known: set<int>)
    ensures FigureIdListVerdict(figureIds, minCount, maxCount, checkExistence, known) == Accepted
        <==> figureIds.Some? && |figureIds.value| > 0
             && minCount <= |figureIds.value| <= maxCount
             && (forall j :: 0 <= j < |figureIds.value| ==> ValidListId(figureIds.value[j]))
             && NoDuplicates(figureIds.value)
             && (checkExistence ==> forall j :: 0 <= j < |figureIds.value| ==> figureIds.value[j].value in known)
  {
    if figureIds.Some? {
      DistinctSize(figureIds.value);
    }
  }

  /** A rejection for repeated ids names exactly the ids that occur twice or more. */
  lemma DuplicateReasonIsExact(ids: seq<Option<int>>, minCount: int, maxCount: int, checkExistence: bool, known: set<int>)
    requires FigureIdListVerdict(Some(ids), minCount, maxCount, checkExistence, known).Rejected?
    requires FigureIdListVerdict(Some(ids), minCount, maxCount, checkExistence, known).reason.DuplicateIds?
    ensures var d := FigureIdListVerdict(Some(ids), minCount, maxCount, checkExistence, known).reason.duplicates;
      d != {} && forall x :: x in d <==> multiset(ids)[x] >= 2
  {
    DistinctSize(ids);
    assert !NoDuplicates(ids);
    var i, j :| 0 <= i < j < |ids| && ids[i] == ids[j];
    assert multiset(ids)[ids[i]] >= 2 by {
      assert ids == ids[..j] + [ids[j]] + ids[j + 1..];
      assert ids[i] in ids[..j];
    }
    assert ids[i] in Duplicates(ids);
  }

  /** validateFigureIdList, with its loop over the ids and the duplicate search. */
  method ValidateFigureIdList(figureIds: Option<seq<Option<int>>>, minCount: int, maxCount: int,
                              checkExistence: bool, known: set<int>) returns (v: Verdict)
    ensures v == FigureIdListVerdict(figureIds, minCount, maxCount, checkExistence, known)
  {
    if figureIds.None? || |figureIds.value| == 0 {
      return Rejected(ListRequired);
    }
    var ids := figureIds.value;
    if |ids| < minCount {
      return Rejected(TooFew);
    }
    if |ids| > maxCount {
      return Rejected(TooMany);
    }
    var i := 0;
    while i < |ids|
      invariant 0 <= i <= |ids|
      invariant forall j :: 0 <= j < i ==> ValidListId(ids[j])
    {
      if ids[i].None? || ids[i].value <= 0 {
        assert FirstInvalidId(ids) == i by {
          FirstInvalidAt(ids, i);
        }
        return Rejected(InvalidIdAt(i + 1));
      }
      i := i + 1;
    }
    assert FirstInvalidId(ids) == |ids| by {
      FirstInvalidAt(ids, |ids|);
    }
    var uniqueIds := set x | x in ids;
    if |uniqueIds| != |ids| {
      var duplicates := FindDuplicates(ids);
      assert duplicates == Duplicates(ids);
      return Rejected(DuplicateIds(duplicates));
    }
    if checkExistence {
      // With distinct ids, findAllById finds fewer figures exactly when some id is not stored.
      if exists j :: 0 <= j < |ids| && ids[j].value !in known {
        var missingIds := set j | 0 <= j < |ids| && ids[j].value !in known :: ids[j].value;
        return Rejected(UnknownIds(missingIds));
      }
    }
    return Accepted;
  }

  lemma {:induction false} FirstInvalidAt(ids: seq<Option<int>>, k: nat)
    requires k <= |ids|
    requires forall j :: 0 <= j < k ==> ValidListId(ids[j])
    requires k < |ids| ==> !ValidListId(ids[k])
    ensures FirstInvalidId(ids) == k
    decreases k
  {
    if k > 0 {
      FirstInvalidAt(ids[1..], k - 1);
    }
  }

  // ------------------------------------------------------------ dates

  const MIN_START: Date := Date(2000, 1, 1)

  /** LocalDate.isAfter. */
  predicate After(a: Date, b: Date) {
    Before(b, a)
  }

  /** The proleptic month count times 32 plus the day, as LocalDate.until packs a date. */
  function Packed(d: Date): int {
    (d.year * 12 + d.month - 1) * 32 + d.day
  }

  /** ChronoUnit.YEARS.between: whole months between the dates, truncated, then whole years, truncated. */
  function YearsBetween(start: Date, end: Date): (y: int)
    ensures Packed(start) <= Packed(end) ==> y >= 0
    ensures Packed(end) <= Packed(start) ==> y <= 0
    ensures Packed(end) - Packed(start) < 384 && Packed(start) - Packed(end) < 384 ==> y == 0
  {
    TruncDiv(TruncDiv(Packed(end) - Packed(start), 32), 12)
  }

  /** The same day of the month and month a whole number of years later is exactly that many years. */
  lemma {:induction false} AnniversaryYears(start: Date, k: nat)
    ensures YearsBetween(start, Date(start.year + k, start.month, start.day)) == k
  {
    var end := Date(start.year + k, start.month, start.day);
    assert Packed(end) - Packed(start) == 384 * k;
    assert TruncDiv(384 * k, 32) == 12 * k;
    assert TruncDiv(12 * k, 12) == k;
  }

  /** validateDateRange; `today` stands for LocalDate.now(). */
  function DateRangeVerdict(startDate: Option<Date>, endDate: Option<Date>, maxYears: int, today: Date): (v: Verdict)
    ensures startDate.None? && endDate.None? ==> v == Accepted
    ensures startDate.Some? != endDate.Some? ==> v.Rejected?
    ensures v == Accepted && startDate.Some? ==>
      endDate.Some? && !After(startDate.value, endDate.value)
      && !Before(startDate.value, MIN_START)
      && !After(startDate.value, today) && !After(endDate.value, today)
      && YearsBetween(startDate.value, endDate.value) <= maxYears
  {
    if startDate.None? && endDate.None? then Accepted
    else if startDate.Some? && endDate.None? then Rejected(StartWithoutEnd)
    else if startDate.None? && endDate.Some? then Rejected(EndWithoutStart)
    else
      var s := startDate.value;
      var e := endDate.value;
      if After(s, e) then Rejected(StartAfterEnd)
      else if Before(s, MIN_START) then Rejected(StartBefore2000)
      else if After(s, today) then Rejected(StartInFuture)
      else if After(e, today) then Rejected(EndInFuture)
      else if YearsBetween(s, e) > maxYears then Rejected(RangeTooLong(YearsBetween(s, e)))
      else Accepted
  }

  /** A range within the limits is accepted: the checks reject nothing else. */
  lemma DateRangeAccepts(s: Date, e: Date, maxYears: int, today: Date)
    requires !After(s, e) && !Before(s, MIN_START) && !After(e, today)
    requires YearsBetween(s, e) <= maxYears
    ensures DateRangeVerdict(Some(s), Some(e), maxYears, today) == Accepted
  {
    assert !After(s, today);
  }

  // ------------------------------------------------------------ names

  /** `[가-힣a-zA-Z0-9\s]`. */
  predicate IsNameChar(c: char) {
    IsHangul(c) || IsAsciiLetter(c) || IsDigit(c) || IsRegexSpace(c)
  }

  /** validateFigureName. */
  function FigureNameVerdict(name: Option<string>): (v: Verdict)
    ensures v == Accepted <==>
      name.Some? && 2 <= |Trim(name.value)| <= 10
      && forall i :: 0 <= i < |Trim(name.value)| ==> IsNameChar(Trim(name.value)[i])
  {
    if IsNullOrBlank(name) then Rejected(NameRequired)
    else
      var trimmedName := Trim(name.value);
      if |trimmedName| < 2 then Rejected(NameTooShort)
      else if |trimmedName| > 10 then Rejected(NameTooLong)
      else if !(forall i :: 0 <= i < |trimmedName| ==> IsNameChar(trimmedName[i])) then Rejected(NameCharacters)
      else Accepted
  }

  // ------------------------------------------------------------ category codes

  /** validateCategoryCode as written: fromCode never throws, so nothing is rejected. */
  function CategoryCodeVerdict(categoryCode: Option<string>): (v: Verdict)
    ensures v == Accepted
  {
    if !IsNullOrBlank(categoryCode) then
      var _ := IC.CategoryOf(Some(Trim(categoryCode.value)));
      Accepted
    else Accepted
  }

  /** An unknown code such as "BOGUS" is accepted. */
  lemma UnknownCategoryAccepted()
    ensures IC.CategoryOf(Some("BOGUS")) == IC.OTHER
    ensures CategoryCodeVerdict(Some("BOGUS")) == Accepted
  {
    IC.UnknownCodeIsOther(Some("BOGUS"));
  }

  /** validateCategoryCode as evidently intended: a non-blank code must name a category. */
  function CategoryCodeVerdictStrict(categoryCode: Option<string>): (v: Verdict)
    ensures v == Accepted <==>
      IsNullOrBlank(categoryCode) || exists c: IC.Category :: Trim(categoryCode.value) == c.Code()
  {
    if IsNullOrBlank(categoryCode) then Accepted
    else
      var code := Trim(categoryCode.value);
      IC.IsSomeCode(code);
      if IC.CategoryOf(Some(code)) != IC.OTHER || code == "OTHER" then Accepted
      else Rejected(UnknownCategory)
  }

  // ------------------------------------------------------------ pagination

  /** validatePagination: null page and size are accepted. */
  function PaginationVerdict(page: Option<int>, size: Option<int>): (v: Verdict)
    ensures v == Accepted <==> (page.None? || page.value >= 0) && (size.None? || 1 <= size.value <= 100)
  {
    if page.Some? && page.value < 0 then Rejected(NegativePage)
    else if size.Some? && size.value <= 0 then Rejected(SizeNotPositive)
    else if size.Some? && size.value > 100 then Rejected(SizeTooLarge)
    else Accepted
  }
}
