/** The stored figure entity: only its id is modelled. */
module FigureEntity {
  import opened JavaLang

  class Figure {
    var figureId: Option<string>

    constructor(figureId: Option<string>)
      ensures this.figureId == figureId
    {
      this.figureId := figureId;
    }
  }

}

/**
 * FigureMapper: turns a profile from the open API into the lists a
 * stored figure keeps (careers, web sites, activities, education) and
 * the party it belongs to, and gives a figure without an id one.
 * Checks for presence use the "null or blank" test throughout.
 */
module FigureMapper {
  import opened JavaLang
  import opened Strings
  import opened Split
  import opened Collections
  import opened DomainTypes
  import opened CareerParser
  import FI = FigureInfo
  import opened FigureEntity

  // ------------------------------------------------------------ party

  /** The switch of convertToFigureParty over a trimmed party name. */
  function PartyByName(name: string): (p: FigureParty)
    ensures p != FigureParty.OTHER ==> p.PartyName() == name
    ensures p != FigureParty.LEFT && p != FigureParty.RIGHT
  {
    match name
    case "더불어민주당" => DEMOCRATIC
    case "국민의힘" => PEOPLE_POWER
    case "조국혁신당" => REBUILDING_KOR
    case "정의당" => JUSTICE
    case "국민의당" => PEOPLES
    case "기본소득당" => BASIC_INCOME
    case "시대전환" => TIME_TRANSITION
    case "무소속" => INDEPENDENT
    case _ => FigureParty.OTHER
  }

  /** Each of the eight parties the switch knows is found from its own name. */
  lemma PartyByNameRoundTrip(p: FigureParty)
    requires p != FigureParty.LEFT && p != FigureParty.RIGHT && p != FigureParty.OTHER
    ensures PartyByName(p.PartyName()) == p
  {
  }

  /** convertToFigureParty: blank gives OTHER; otherwise the trimmed name is looked up. */
  function ConvertToFigureParty(partyName: Option<string>): (p: FigureParty)
    ensures IsNullOrBlank(partyName) ==> p == FigureParty.OTHER
    ensures p != FigureParty.OTHER ==> partyName.Some? && p.PartyName() == Trim(partyName.value)
    ensures p != FigureParty.LEFT && p != FigureParty.RIGHT
  {
    if IsNullOrBlank(partyName) then FigureParty.OTHER else PartyByName(Trim(partyName.value))
  }

  /** A known party's name, with any space padding around it, gives that party. */
  lemma PartyNameRoundTrip(p: FigureParty, pad: string)
    requires p != FigureParty.LEFT && p != FigureParty.RIGHT && p != FigureParty.OTHER
    requires forall i :: 0 <= i < |pad| ==> IsTrimSpace(pad[i])
    ensures ConvertToFigureParty(Some(pad + p.PartyName() + pad)) == p
  {
    var name := p.PartyName();
    TrimPadded(pad, name);
    PartyByNameRoundTrip(p);
  }

  lemma {:induction false} TrimLeftSkips(pad: string, x: string)
    requires forall i :: 0 <= i < |pad| ==> IsTrimSpace(pad[i])
    ensures TrimLeft(pad + x) == TrimLeft(x)
    decreases |pad|
  {
    if pad != [] {
      assert (pad + x)[0] == pad[0];
      assert (pad + x)[1..] == pad[1..] + x;
      TrimLeftSkips(pad[1..], x);
    } else {
      assert pad + x == x;
    }
  }

  lemma {:induction false} TrimRightSkips(x: string, pad: string)
    requires forall i :: 0 <= i < |pad| ==> IsTrimSpace(pad[i])
    ensures TrimRight(x + pad) == TrimRight(x)
    decreases |pad|
  {
    if pad != [] {
      var s := x + pad;
      assert s[|s| - 1] == pad[|pad| - 1];
      assert s[..|s| - 1] == x + pad[..|pad| - 1];
      TrimRightSkips(x, pad[..|pad| - 1]);
    } else {
      assert x + pad == x;
    }
  }

  /** Trimming removes exactly the space padding around a text with non-space ends. */
  lemma TrimPadded(pad: string, t: string)
    requires forall i :: 0 <= i < |pad| ==> IsTrimSpace(pad[i])
    requires |t| > 0 && !IsTrimSpace(t[0]) && !IsTrimSpace(t[|t| - 1])
    ensures Trim(pad + t + pad) == t
  {
    assert pad + t + pad == pad + (t + pad);
    TrimLeftSkips(pad, t + pad);
    TrimRightSkips(t, pad);
  }

  // ------------------------------------------------------------ careers

  /** addAssemblyCareer: a career for the current term, when the number of terms is known. */
  function AssemblyCareer(dto: FI.FigureInfoDTO): (c: Option<Career>)
    ensures c.Some? <==> !IsNullOrBlank(dto.electedCount)
    ensures c.Some? ==> c.value.position == "국회의원" && c.value.organization == "대한민국 국회"
    ensures c.Some? ==> (c.value.period == "현재" <==> IsNullOrBlank(dto.electedDate))
    ensures c.Some? && !IsNullOrBlank(dto.electedDate) ==> EndsWith(c.value.period, " ~ 현재")
    ensures c.Some? && !IsNullOrBlank(dto.electedDate) ==> c.value.period == dto.electedDate.value + " ~ 현재"
    ensures c.Some? ==> c.value.title == dto.electedCount.value + "대 국회의원"
  {
    if IsNullOrBlank(dto.electedCount) then None
    else
      Some(Career(
        dto.electedCount.value + "대 국회의원", "국회의원", "대한민국 국회",
        if !IsNullOrBlank(dto.electedDate) then dto.electedDate.value + " ~ 현재" else "현재"))
  }

  /** addCommitteeCareer: the committee membership, as "위원" unless a position is given. */
  function CommitteeCareer(dto: FI.FigureInfoDTO): (c: Option<Career>)
    ensures c.Some? <==> !IsNullOrBlank(dto.committeeName)
    ensures c.Some? ==> c.value.organization == dto.committeeName.value && c.value.period == "현재"
    ensures c.Some? ==> c.value.title == "국회 " + dto.committeeName.value
    ensures c.Some? && IsNullOrBlank(dto.committeePosition) ==> c.value.position == "위원"
    ensures c.Some? && !IsNullOrBlank(dto.committeePosition) ==> c.value.position == dto.committeePosition.value
  {
    if IsNullOrBlank(dto.committeeName) then None
    else
      var position := if !IsNullOrBlank(dto.committeePosition) then dto.committeePosition.value else "위원";
      Some(Career("국회 " + dto.committeeName.value, position, dto.committeeName.value, "현재"))
  }

  function OptionList<T>(o: Option<T>): (r: seq<T>)
    ensures |r| <= 1 && (r == [] <==> o.None?)
  {
    if o.Some? then [o.value] else []
  }

  /** convertCareers: the assembly career, then the committee career, then the profile's own careers. */
  function ConvertCareers(dto: FI.FigureInfoDTO): (cs: seq<Career>)
    ensures var own := if dto.career.Some? then dto.career.value else [];
      var k := |OptionList(AssemblyCareer(dto))| + |OptionList(CommitteeCareer(dto))|;
      |cs| == k + |own| && cs[k..] == own
    ensures AssemblyCareer(dto).Some? ==> cs[0] == AssemblyCareer(dto).value
    ensures AssemblyCareer(dto).None? && CommitteeCareer(dto).Some? ==> cs[0] == CommitteeCareer(dto).value
    ensures AssemblyCareer(dto).Some? && CommitteeCareer(dto).Some? ==> cs[1] == CommitteeCareer(dto).value
  {
    var own := if dto.career.Some? && |dto.career.value| > 0 then dto.career.value else [];
    OptionList(AssemblyCareer(dto)) + OptionList(CommitteeCareer(dto)) + own
  }

  // ------------------------------------------------------------ sites

  /** The trimmed address with "https://" put in front when it names neither http nor https. */
  function WithScheme(t: string): (w: string)
    ensures StartsWith(w, "http://") || StartsWith(w, "https://")
    ensures StartsWith(t, "http://") || StartsWith(t, "https://") ==> w == t
    ensures !StartsWith(t, "http://") && !StartsWith(t, "https://") ==> w == "https://" + t
  {
    if !StartsWith(t, "http://") && !StartsWith(t, "https://") then
      var w := "https://" + t;
      assert w[..8] == "https://";
      w
    else t
  }

  /**
   * normalizeUrl: trims and adds "https://" when no scheme is given. Whether
   * java.net.URL accepts the result is the parameter `accepted`; a rejected
   * URL comes back as given.
   */
  function NormalizeUrl(url: string, accepted: string -> bool): (r: string)
    ensures IsBlank(url) ==> r == ""
    ensures !IsBlank(url) && accepted(WithScheme(Trim(url))) ==> r == WithScheme(Trim(url))
    ensures !IsBlank(url) && !accepted(WithScheme(Trim(url))) ==> r == url
    ensures !IsBlank(url) ==> r == url || (accepted(r) && (StartsWith(r, "http://") || StartsWith(r, "https://")))
  {
    if IsBlank(url) then ""
    else
      var withScheme := WithScheme(Trim(url));
      if accepted(withScheme) then withScheme else url
  }

  predicate IsLocalChar(c: char) {
    IsAsciiLetter(c) || IsDigit(c) || c == '+' || c == '_' || c == '.' || c == '-'
  }

  predicate IsDomainChar(c: char) {
    IsAsciiLetter(c) || IsDigit(c) || c == '.' || c == '-'
  }

  /** `[A-Za-z0-9.-]+\.[A-Za-z]{2,}` with the dot at index p. */
  predicate DomainDotAt(d: string, p: int) {
    1 <= p && p + 3 <= |d| && d[p] == '.'
    && (forall i :: 0 <= i < p ==> IsDomainChar(d[i]))
    && (forall i :: p < i < |d| ==> IsAsciiLetter(d[i]))
  }

  predicate DomainShaped(d: string) {
    exists p :: 0 <= p < |d| && DomainDotAt(d, p)
  }

  /** `[A-Za-z0-9+_.-]+@` followed by a domain, with the '@' at index a. */
  predicate EmailAt(s: string, a: int) {
    1 <= a < |s| && s[a] == '@'
    && (forall i :: 0 <= i < a ==> IsLocalChar(s[i]))
    && DomainShaped(s[a + 1..])
  }

  /** `matches("^[A-Za-z0-9+_.-]+@([A-Za-z0-9.-]+\\.[A-Za-z]{2,})$")`. */
  predicate EmailShaped(s: string) {
    exists a :: 0 <= a < |s| && EmailAt(s, a)
  }

  /** normalizeEmail: the trimmed, lower-cased address when it is well formed, else the input unchanged. */
  function NormalizeEmail(email: string): (r: string)
    ensures IsBlank(email) ==> r == ""
    ensures !IsBlank(email) ==> !IsBlank(r)
    ensures !IsBlank(email) ==> r == email || EmailShaped(r)
    ensures !IsBlank(email) && EmailShaped(Lower(Trim(email))) ==> r == Lower(Trim(email))
    ensures !IsBlank(email) && !EmailShaped(Lower(Trim(email))) ==> r == email
  {
    if IsBlank(email) then ""
    else
      var t := Lower(Trim(email));
      assert !IsTrimSpace(t[0]);
      if EmailShaped(t) then t else email
  }

  /** Each address normalised, in order. */
  function NormalizeAll(links: seq<string>, accepted: string -> bool): (r: seq<string>)
    ensures |r| == |links| && forall i :: 0 <= i < |r| ==> r[i] == NormalizeUrl(links[i], accepted)
  {
    if links == [] then [] else [NormalizeUrl(links[0], accepted)] + NormalizeAll(links[1..], accepted)
  }

  /** The web addresses among homepage, blog and facebook, normalised, in that order. */
  function UrlEntries(dto: FI.FigureInfoDTO, accepted: string -> bool): (urls: seq<string>)
    ensures var present := NonBlankFields([dto.homepage, dto.blog, dto.facebook]);
      |urls| == |present| && forall i :: 0 <= i < |urls| ==> urls[i] == NormalizeUrl(present[i], accepted)
    ensures |urls| <= 3
    ensures !IsNullOrBlank(dto.homepage) ==> urls[0] == NormalizeUrl(dto.homepage.value, accepted)
    ensures IsNullOrBlank(dto.homepage) && IsNullOrBlank(dto.blog) && IsNullOrBlank(dto.facebook) ==> urls == []
  {
    NormalizeAll(NonBlankFields([dto.homepage, dto.blog, dto.facebook]), accepted)
  }

  /** convertSites: the normalised web addresses, then a "mailto:" entry for a given email. */
  function ConvertSites(dto: FI.FigureInfoDTO, accepted: string -> bool): (sites: seq<string>)
    ensures var urls := UrlEntries(dto, accepted);
      |sites| <= 4 && |urls| <= |sites| && forall i :: 0 <= i < |urls| ==> sites[i] == urls[i]
    ensures IsNullOrBlank(dto.email) ==> sites == UrlEntries(dto, accepted)
    ensures !IsNullOrBlank(dto.email) ==>
      |sites| == |UrlEntries(dto, accepted)| + 1
      && sites[|sites| - 1] == "mailto:" + NormalizeEmail(dto.email.value)
  {
    var urls := UrlEntries(dto, accepted);
    if !IsNullOrBlank(dto.email) then
      var normalizedEmail := NormalizeEmail(dto.email.value);
      assert !IsBlank(normalizedEmail);
      urls + ["mailto:" + normalizedEmail]
    else urls
  }

  // ------------------------------------------------------------ activities

  /** The activity of a member elected `electedCount` times: "<n>대 국회의원". */
  function TermActivity(electedCount: string): string {
    electedCount + "대 국회의원"
  }

  /** The activity of a committee member: "<committee> <position>". */
  function CommitteeActivity(committeeName: string, position: string): string {
    committeeName + " " + position
  }

  /**
   * The activities listed for an assembly term and a committee, each when
   * known: one per known field, the term first, the committee last, and a
   * committee without a position held as a member ("위원").
   */
  function Activities(electedCount: Option<string>, committeeName: Option<string>, committeePosition: Option<string>): (acts: seq<string>)
    ensures |acts| == (if !IsNullOrBlank(electedCount) then 1 else 0) + (if !IsNullOrBlank(committeeName) then 1 else 0)
    ensures !IsNullOrBlank(electedCount) ==> acts[0] == TermActivity(electedCount.value)
    ensures !IsNullOrBlank(committeeName) ==>
      acts[|acts| - 1] == CommitteeActivity(committeeName.value, if !IsNullOrBlank(committeePosition) then committeePosition.value else "위원")
  {
    var first := if !IsNullOrBlank(electedCount) then [TermActivity(electedCount.value)] else [];
    if !IsNullOrBlank(committeeName) then
      var position := if !IsNullOrBlank(committeePosition) then committeePosition.value else "위원";
      first + [CommitteeActivity(committeeName.value, position)]
    else first
  }

  /** convertActivities: at most two activities, none when neither the term nor the committee is known. */
  function ConvertActivities(dto: FI.FigureInfoDTO): (acts: seq<string>)
    ensures |acts| <= 2
    ensures acts == [] <==> IsNullOrBlank(dto.electedCount) && IsNullOrBlank(dto.committeeName)
    ensures !IsNullOrBlank(dto.electedCount) ==> acts[0] == TermActivity(dto.electedCount.value)
    ensures !IsNullOrBlank(dto.committeeName) ==>
      acts[|acts| - 1] == CommitteeActivity(dto.committeeName.value, if !IsNullOrBlank(dto.committeePosition) then dto.committeePosition.value else "위원")
  {
    Activities(dto.electedCount, dto.committeeName, dto.committeePosition)
  }

  // ------------------------------------------------------------ education

  /** The pieces trimmed, blank ones dropped. */
  function TrimmedNonBlank(pieces: seq<string>): (r: seq<string>)
    ensures |r| <= |pieces|
    ensures forall x :: x in r ==> !IsBlank(x) && IsTrimmed(x)
    ensures forall p :: p in pieces && !IsBlank(p) ==> Trim(p) in r
  {
    if pieces == [] then []
    else
      var t := Trim(pieces[0]);
      (if !IsBlank(t) then [t] else []) + TrimmedNonBlank(pieces[1..])
  }

  /** safeSplit: split, trim, and keep the non-blank pieces. */
  function SafeSplit(text: Option<string>, delimiter: Separator): (r: seq<string>)
    ensures IsNullOrBlank(text) ==> r == []
    ensures forall x :: x in r ==> !IsBlank(x) && IsTrimmed(x)
  {
    if IsNullOrBlank(text) then [] else TrimmedNonBlank(JavaSplit(text.value, delimiter))
  }

  /** The fields EDU1..EDU3 that are present, unchanged. */
  function NonBlankFields(fields: seq<Option<string>>): (r: seq<string>)
    ensures |r| <= |fields|
    ensures forall x :: x in r ==> !IsBlank(x)
    ensures r == [] <==> forall i :: 0 <= i < |fields| ==> IsNullOrBlank(fields[i])
    ensures |fields| > 0 && !IsNullOrBlank(fields[0]) ==> |r| > 0 && r[0] == fields[0].value
  {
    if fields == [] then []
    else (if !IsNullOrBlank(fields[0]) then [fields[0].value] else []) + NonBlankFields(fields[1..])
  }

  function EducationEntries(edu: Option<string>, edu1: Option<string>, edu2: Option<string>, edu3: Option<string>): seq<string> {
    SafeSplit(edu, EducationBreak) + NonBlankFields([edu1, edu2, edu3])
  }

  /** parseEducation: the entries of EDU and then EDU1..EDU3, first occurrences only. */
  function ParseEducation(edu: Option<string>, edu1: Option<string>, edu2: Option<string>, edu3: Option<string>): (r: seq<string>)
    ensures NoDuplicates(r)
    ensures forall x :: x in r <==> x in EducationEntries(edu, edu1, edu2, edu3)
    ensures forall x :: x in r ==> !IsBlank(x)
  {
    Distinct(EducationEntries(edu, edu1, edu2, edu3))
  }

  /** Entries keep the order in which they were first seen. */
  lemma EducationFirstSeenOrder(edu: Option<string>, edu1: Option<string>, edu2: Option<string>, edu3: Option<string>)
    ensures var all := EducationEntries(edu, edu1, edu2, edu3);
      var r := ParseEducation(edu, edu1, edu2, edu3);
      forall i, j :: 0 <= i < j < |r| ==> FirstIndex(all, r[i]) < FirstIndex(all, r[j])
  {
    DistinctKeepsFirstOrder(EducationEntries(edu, edu1, edu2, edu3));
  }

  // ------------------------------------------------------------ figure id

  /** The id validateAndSetFigureId leaves: the existing one, else the profile's, else "TEMP_" and a fresh UUID. */
  function ChosenFigureId(current: Option<string>, dtoFigureId: Option<string>, uuid: string): (id: Option<string>)
    ensures IsPresent(id)
    ensures IsPresent(current) ==> id == current
    ensures !IsPresent(current) && IsPresent(dtoFigureId) ==> id == dtoFigureId
    ensures !IsPresent(current) && !IsPresent(dtoFigureId) ==> id.Some? && StartsWith(id.value, "TEMP_")
  {
    if IsPresent(current) then current
    else if IsPresent(dtoFigureId) then dtoFigureId
    else Some("TEMP_" + uuid)
  }

  /** A second pass changes nothing, whatever profile and UUID it sees. */
  lemma ChosenFigureIdStable(current: Option<string>, d1: Option<string>, u1: string, d2: Option<string>, u2: string)
    ensures ChosenFigureId(ChosenFigureId(current, d1, u1), d2, u2) == ChosenFigureId(current, d1, u1)
  {
  }

  /** validateAndSetFigureId: the UUID generator's output is the parameter `uuid`. */
  method ValidateAndSetFigureId(figure: Figure, dtoFigureId: Option<string>, uuid: string)
    modifies figure
    ensures figure.figureId == ChosenFigureId(old(figure.figureId), dtoFigureId, uuid)
  {
    if figure.figureId.None? || figure.figureId.value == [] {
      if dtoFigureId.Some? && dtoFigureId.value != [] {
        figure.figureId := dtoFigureId;
      } else {
        figure.figureId := Some("TEMP_" + uuid);
      }
    }
  }
}
