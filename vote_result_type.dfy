/**
 * VoteResultType: how a member voted, read from the Korean label the
 * open API sends.
 */
module VoteResultType {
  import opened JavaLang
  import opened Strings

  datatype VoteResultType = AGREE | DISAGREE | ABSTAIN | ABSENT | UNKNOWN
  {
    function DisplayName(): string {
      match this
      case AGREE => "찬성"
      case DISAGREE => "반대"
      case ABSTAIN => "기권"
      case ABSENT => "불참"
      case UNKNOWN => "알 수 없음"
    }
  }

  /** fromString: the trimmed label decides; "불참" is read as an abstention. */
  function FromString(value: Option<string>): (r: VoteResultType)
    ensures value.None? ==> r == UNKNOWN
    ensures r != ABSENT
    ensures r == AGREE <==> value.Some? && Trim(value.value) == "찬성"
    ensures r == DISAGREE <==> value.Some? && Trim(value.value) == "반대"
    ensures r == ABSTAIN <==> value.Some? && (Trim(value.value) == "기권" || Trim(value.value) == "불참")
  {
    if value.None? then UNKNOWN
    else match Trim(value.value)
      case "찬성" => AGREE
      case "반대" => DISAGREE
      case "기권" => ABSTAIN
      case "불참" => ABSTAIN
      case _ => UNKNOWN
  }

  /** The display name of ABSENT is read back as ABSTAIN, so ABSENT never results from a label. */
  lemma AbsentLabelReadsAsAbstain()
    ensures FromString(Some(ABSENT.DisplayName())) == ABSTAIN
  {
    assert Trim("불참") == "불참";
  }

  /** fromString with the label of ABSENT mapped to ABSENT. */
  function FromStringCorrected(value: Option<string>): (r: VoteResultType)
    ensures value.None? ==> r == UNKNOWN
    ensures r == ABSTAIN <==> value.Some? && Trim(value.value) == "기권"
    ensures r == ABSENT <==> value.Some? && Trim(value.value) == "불참"
    ensures r != ABSENT ==> r == FromString(value)
  {
    if value.Some? && Trim(value.value) == "불참" then ABSENT else FromString(value)
  }

  /** Every result but UNKNOWN is read back from its own display name. */
  lemma {:induction false} CorrectedReadsDisplayName(t: VoteResultType)
    requires t != UNKNOWN
    ensures FromStringCorrected(Some(t.DisplayName())) == t
  {
    var s := t.DisplayName();
    assert !IsTrimSpace(s[0]) && !IsTrimSpace(s[|s| - 1]);
    assert Trim(s) == s;
  }
}
