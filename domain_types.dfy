/**
 * Enumerations of the domain that carry no behaviour of their own:
 * the state of a bill, the kind of a statement and a figure's party.
 */
module DomainTypes {

  /** BillStatus with its display name. */
  datatype BillStatus =
    | PROPOSED | IN_COMMITTEE | IN_PLENARY | PASSED | REJECTED
    | WITHDRAWN | ALTERNATIVE | EXPIRED | PROCESSING
  {
    function DisplayName(): string {
      match this
      case PROPOSED => "발의"
      case IN_COMMITTEE => "위원회 심사중"
      case IN_PLENARY => "본회의 상정"
      case PASSED => "가결"
      case REJECTED => "부결"
      case WITHDRAWN => "철회"
      case ALTERNATIVE => "대안 반영"
      case EXPIRED => "임기만료 폐기"
      case PROCESSING => ""
    }
  }

  /** The kind of a politician's statement. */
  datatype StatementType =
    | SPEECH | INTERVIEW | PRESS_RELEASE | DEBATE | ASSEMBLY_SPEECH
    | COMMITTEE_SPEECH | MEDIA_COMMENT | SOCIAL_MEDIA | OTHER

  /** A figure's party and the name the open API uses for it. */
  datatype FigureParty =
    | DEMOCRATIC | PEOPLE_POWER | REBUILDING_KOR | JUSTICE | PEOPLES
    | BASIC_INCOME | TIME_TRANSITION | INDEPENDENT | LEFT | RIGHT | OTHER
  {
    function PartyName(): string {
      match this
      case DEMOCRATIC => "더불어민주당"
      case PEOPLE_POWER => "국민의힘"
      case REBUILDING_KOR => "조국혁신당"
      case JUSTICE => "정의당"
      case PEOPLES => "국민의당"
      case BASIC_INCOME => "기본소득당"
      case TIME_TRANSITION => "시대전환"
      case INDEPENDENT => "무소속"
      case LEFT => "진보"
      case RIGHT => "보수"
      case OTHER => "기타"
    }
  }
}
