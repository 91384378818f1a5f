/**
 * The conversions the bill collector applies to a row of the open API:
 * the bill status from the API's numeric status code (falling back on the
 * wording of the processing result), the co-proposer names from a
 * comma-separated text, and the test that a row names a bill. Reading the
 * rows from JSON is I/O; the text of a field is a parameter here.
 */
module ProposedBillApiService {
  import opened JavaLang
  import opened Strings
  import opened Split
  import opened DomainTypes

  // ---------------------------------------------------------------- status

  /**
   * parsebillStatus: a null or empty code is a proposal; codes "1" to "4"
   * are passed, rejected, withdrawn and expired; any other code reads the
   * processing result, where a committee mention wins over a plenary one.
   */
  function ParseBillStatus(statusCode: Option<string>, processResult: Option<string>): (r: BillStatus)
    ensures !IsPresent(statusCode) ==> r == PROPOSED
    ensures r != ALTERNATIVE && r != PROCESSING
    ensures r == IN_COMMITTEE <==>
      IsPresent(statusCode) && statusCode.value !in {"1", "2", "3", "4"}
      && processResult.Some? && Contains(processResult.value, "위원회")
    ensures r == IN_PLENARY <==>
      IsPresent(statusCode) && statusCode.value !in {"1", "2", "3", "4"}
      && processResult.Some? && !Contains(processResult.value, "위원회") && Contains(processResult.value, "본회의")
  {
    if !IsPresent(statusCode) then PROPOSED
    else
      match statusCode.value
      case "1" => PASSED
      case "2" => REJECTED
      case "3" => WITHDRAWN
      case "4" => EXPIRED
      case _ =>
        if processResult.Some? && Contains(processResult.value, "위원회") then IN_COMMITTEE
        else if processResult.Some? && Contains(processResult.value, "본회의") then IN_PLENARY
        else PROPOSED
  }

  /** The API code of each final status that has one. */
  function ApiStatusCode(status: BillStatus): (code: Option<string>)
    ensures code.Some? <==> status in {PASSED, REJECTED, WITHDRAWN, EXPIRED}
  {
    match status
    case PASSED => Some("1")
    case REJECTED => Some("2")
    case WITHDRAWN => Some("3")
    case EXPIRED => Some("4")
    case _ => None
  }

  /**
   * The four codes and the four final statuses correspond one to one,
   * whatever the processing result says.
   */
  lemma StatusCodeRoundTrip(status: BillStatus, code: Option<string>, processResult: Option<string>)
    ensures ApiStatusCode(status).Some? ==> ParseBillStatus(ApiStatusCode(status), processResult) == status
    ensures ParseBillStatus(code, processResult) in {PASSED, REJECTED, WITHDRAWN, EXPIRED} ==>
      ApiStatusCode(ParseBillStatus(code, processResult)) == code
  {
  }

  // ----------------------------------------------------------- co-proposers

  /** A character of the trimmed text is a character of the text. */
  lemma TrimWithin(s: string)
    ensures forall ch :: ch in Trim(s) ==> ch in s
  {
    var l := TrimLeft(s);
    assert forall ch :: ch in TrimRight(l) ==> ch in l;
    assert forall ch :: ch in l ==> ch in s;
  }

  /** `.map(String::trim).filter(s -> !s.isEmpty())`: every name is trimmed and never empty. */
  function NonEmptyTrimmed(parts: seq<string>): (r: seq<string>)
    ensures |r| <= |parts|
    ensures forall x :: x in r ==> x != [] && IsTrimmed(x)
    decreases |parts|
  {
    if parts == [] then []
    else
      var last := Trim(parts[|parts| - 1]);
      var kept := NonEmptyTrimmed(parts[..|parts| - 1]);
      assert IsTrimmed(last);
      kept + (if last != [] then [last] else [])
  }

  /** A character found in no piece is found in no name. */
  lemma {:induction false} NonEmptyTrimmedAvoids(parts: seq<string>, c: char)
    requires forall j :: 0 <= j < |parts| ==> c !in parts[j]
    ensures forall x :: x in NonEmptyTrimmed(parts) ==> c !in x
    decreases |parts|
  {
    if parts != [] {
      var init := parts[..|parts| - 1];
      assert forall j :: 0 <= j < |init| ==> init[j] == parts[j];
      NonEmptyTrimmedAvoids(init, c);
      TrimWithin(parts[|parts| - 1]);
    }
  }

  /** Only empty pieces are dropped: every piece that is not blank is kept, trimmed. */
  lemma {:induction false} NonEmptyTrimmedKeepsAll(parts: seq<string>, j: nat)
    requires j < |parts| && Trim(parts[j]) != []
    ensures Trim(parts[j]) in NonEmptyTrimmed(parts)
    decreases |parts|
  {
    var init := parts[..|parts| - 1];
    var last := Trim(parts[|parts| - 1]);
    var kept := NonEmptyTrimmed(init);
    assert NonEmptyTrimmed(parts) == kept + (if last != [] then [last] else []);
    if j < |parts| - 1 {
      NonEmptyTrimmedKeepsAll(init, j);
      assert init[j] == parts[j];
      assert Trim(parts[j]) in kept;
    } else {
      assert Trim(parts[j]) == last;
    }
  }

  /**
   * parseCoProposers: the trimmed non-empty pieces of the text between
   * commas; a null or empty text gives no names. No name is blank, has
   * surrounding spaces, or contains a comma.
   */
  function CoProposersOf(coProposerText: Option<string>): (r: seq<string>)
    ensures !IsPresent(coProposerText) ==> r == []
    ensures forall x :: x in r ==> x != [] && IsTrimmed(x) && ',' !in x
  {
    if !IsPresent(coProposerText) then []
    else
      var parts := JavaSplit(coProposerText.value, Literal([',']));
      SplitAvoidsSeparator(coProposerText.value, ',');
      assert forall j :: 0 <= j < |parts| ==> ',' !in parts[j];
      NonEmptyTrimmedAvoids(parts, ',');
      NonEmptyTrimmed(parts)
  }

  /** Names joined by commas, the form in which the API sends them. */
  function JoinWithComma(names: seq<string>): string
    decreases |names|
  {
    if names == [] then ""
    else if |names| == 1 then names[0]
    else names[0] + "," + JoinWithComma(names[1..])
  }

  /** A name the API can carry: not empty, no surrounding spaces, no comma. */
  predicate IsPlainName(n: string) {
    n != [] && IsTrimmed(n) && ',' !in n
  }

  /** The positions of a text that holds `n + "," + rest` from `start` on. */
  lemma SliceOfJoined(s: string, start: nat, n: string, rest: string)
    requires start <= |s| && s[start..] == n + "," + rest
    ensures start + |n| < |s| && s[start + |n|] == ','
    ensures s[start..start + |n|] == n && s[start + |n| + 1..] == rest
    ensures forall m :: start <= m < start + |n| ==> s[m] == n[m - start]
  {
    assert forall m :: start <= m < |s| ==> s[m] == s[start..][m - start];
    assert s[start..][..|n|] == n;
    assert s[start..][|n| + 1..] == rest;
  }

  /** A text holding one name without a comma from `start` on is one piece. */
  lemma PiecesOfLastName(s: string, n: string, start: nat)
    requires start <= |s| && s[start..] == n && ',' !in n
    ensures Pieces(s, Literal([',']), start, start) == [n]
  {
    forall m | start <= m < |s| ensures s[m] != ',' {
      assert s[m] == s[start..][m - start];
    }
    PiecesWithoutMatch(s, ',', start, start);
  }

  /** A name followed by a comma is one piece, and the pieces after it start past the comma. */
  lemma PiecesOfNextName(s: string, n: string, rest: string, start: nat)
    requires start <= |s| && s[start..] == n + "," + rest && ',' !in n
    ensures start + |n| + 1 <= |s| && s[start + |n| + 1..] == rest
    ensures Pieces(s, Literal([',']), start, start) == [n] + Pieces(s, Literal([',']), start + |n| + 1, start + |n| + 1)
  {
    var k := start + |n|;
    SliceOfJoined(s, start, n, rest);
    PiecesSkip(s, ',', start, start, k);
    assert s[k..k + 1] == [','];
    assert MatchLength(Literal([',']), s, k) == 1;
  }

  /** Splitting joined names on commas gives the names back, piece by piece. */
  lemma {:induction false} PiecesOfJoined(s: string, names: seq<string>, start: nat)
    requires names != [] && start <= |s| && s[start..] == JoinWithComma(names)
    requires forall j :: 0 <= j < |names| ==> ',' !in names[j]
    ensures Pieces(s, Literal([',']), start, start) == names
    decreases |names|
  {
    if |names| == 1 {
      PiecesOfLastName(s, names[0], start);
    } else {
      var rest := names[1..];
      assert JoinWithComma(names) == names[0] + "," + JoinWithComma(rest);
      PiecesOfNextName(s, names[0], JoinWithComma(rest), start);
      assert forall j :: 0 <= j < |rest| ==> rest[j] == names[j + 1];
      PiecesOfJoined(s, rest, start + |names[0]| + 1);
      assert names == [names[0]] + rest;
    }
  }

  /** Filtering names that are already plain keeps them all. */
  lemma {:induction false} PlainNamesKept(names: seq<string>)
    requires forall j :: 0 <= j < |names| ==> IsPlainName(names[j])
    ensures NonEmptyTrimmed(names) == names
    decreases |names|
  {
    if names != [] {
      var init := names[..|names| - 1];
      PlainNamesKept(init);
      assert names == init + [names[|names| - 1]];
    }
  }

  /** Splitting plain names joined by commas on commas gives the names back. */
  lemma SplitOfJoined(names: seq<string>)
    requires names != [] && forall j :: 0 <= j < |names| ==> IsPlainName(names[j])
    ensures JavaSplit(JoinWithComma(names), Literal([','])) == names
  {
    var s := JoinWithComma(names);
    assert s[0..] == s;
    PiecesOfJoined(s, names, 0);
    assert names[|names| - 1] != [];
  }

  /** Parsing names the API joined by commas gives back exactly those names, in order. */
  lemma CoProposersRoundTrip(names: seq<string>)
    requires forall j :: 0 <= j < |names| ==> IsPlainName(names[j])
    ensures CoProposersOf(Some(JoinWithComma(names))) == names
  {
    if names != [] {
      assert |JoinWithComma(names)| >= |names[0]| > 0 by {
        if |names| > 1 {
          assert JoinWithComma(names) == names[0] + "," + JoinWithComma(names[1..]);
        }
      }
      SplitOfJoined(names);
      PlainNamesKept(names);
    }
  }

  // -------------------------------------------------------------- validity

  /** The row fields the collector keeps; a null co-proposer list is replaced by an empty one. */
  datatype ProposedBillApiDto = ProposedBillApiDto(
    billId: Option<string>, billNo: Option<string>, billName: Option<string>,
    proposer: Option<string>, proposedDate: Option<string>, summary: Option<string>,
    linkUrl: Option<string>, processResultCode: Option<string>, processDate: Option<string>,
    processResult: Option<string>, committeeName: Option<string>, coProposers: seq<string>)

  /** isValidBillDto: the row has a bill id and a bill name, each with a character above U+0020. */
  function IsValidBillDto(dto: ProposedBillApiDto): (b: bool)
    ensures b <==>
      (dto.billId.Some? && exists i :: 0 <= i < |dto.billId.value| && !IsTrimSpace(dto.billId.value[i]))
      && (dto.billName.Some? && exists i :: 0 <= i < |dto.billName.value| && !IsTrimSpace(dto.billName.value[i]))
  {
    !IsNullOrBlank(dto.billId) && !IsNullOrBlank(dto.billName)
  }
}
