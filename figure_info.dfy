/**
 * FigureInfoDTO: a politician's profile as the open API delivers it,
 * the derived link and activity lists, and the reconstruction of such a
 * profile from a stored figure, which reads committee membership and
 * election counts out of activity strings, classifies web sites, and
 * takes the election date from the first assembly career.
 */
module FigureInfo {
  import opened JavaLang
  import opened Strings
  import opened Split
  import opened DomainTypes
  import opened CareerParser

  datatype FigureInfoDTO = FigureInfoDTO(
    figureId: Option<string>,
    name: Option<string>,
    partyName: Option<FigureParty>,
    committeeName: Option<string>,
    committeePosition: Option<string>,
    electedCount: Option<string>,
    electedDate: Option<string>,
    reelection: Option<string>,
    education: Option<seq<string>>,
    career: Option<seq<Career>>,
    email: Option<string>,
    homepage: Option<string>,
    blog: Option<string>,
    facebook: Option<string>)

  /** The fields of a stored figure that `from` reads. */
  datatype Figure = Figure(
    figureId: Option<string>,
    name: Option<string>,
    figureParty: Option<FigureParty>,
    education: Option<seq<string>>,
    careers: Option<seq<Career>>,
    sites: Option<seq<string>>,
    activities: Option<seq<string>>)

  /** getLinkUrl: homepage, blog and facebook, each when present and non-empty. */
  function GetLinkUrl(dto: FigureInfoDTO): (urls: seq<string>)
    ensures |urls| <= 3
    ensures forall u :: u in urls ==> |u| > 0 && (Some(u) == dto.homepage || Some(u) == dto.blog || Some(u) == dto.facebook)
    ensures IsPresent(dto.homepage) ==> urls != [] && urls[0] == dto.homepage.value
    ensures IsPresent(dto.facebook) ==> urls != [] && urls[|urls| - 1] == dto.facebook.value
    ensures |urls| == 3 <==> IsPresent(dto.homepage) && IsPresent(dto.blog) && IsPresent(dto.facebook)
    ensures urls == [] <==> !IsPresent(dto.homepage) && !IsPresent(dto.blog) && !IsPresent(dto.facebook)
  {
    (if IsPresent(dto.homepage) then [dto.homepage.value] else [])
    + (if IsPresent(dto.blog) then [dto.blog.value] else [])
    + (if IsPresent(dto.facebook) then [dto.facebook.value] else [])
  }

  /** getActivities: the assembly entry always comes first; the committee entry follows when named. */
  function GetActivities(dto: FigureInfoDTO): (acts: seq<string>)
    ensures 1 <= |acts| <= 2
    ensures acts[0] == Rendered(dto.electedCount) + "대 국회의원"
    ensures |acts| == 2 <==> IsPresent(dto.committeeName)
    ensures |acts| == 2 && dto.committeePosition.None? ==> EndsWith(acts[1], " 위원")
  {
    var first := [Rendered(dto.electedCount) + "대 국회의원"];
    if IsPresent(dto.committeeName) then
      var position := if dto.committeePosition.Some? then dto.committeePosition.value else "위원";
      first + ["국회 " + dto.committeeName.value + " " + position]
    else first
  }

  // ------------------------------------------------------------ activities

  /** What the activity strings reveal so far. */
  datatype ActivityFacts = ActivityFacts(
    committeeName: Option<string>,
    committeePosition: Option<string>,
    electedCount: Option<string>,
    reelection: Option<string>)

  const NO_ACTIVITY_FACTS := ActivityFacts(None, None, None, None)

  predicate MentionsCommittee(activity: string) {
    Contains(activity, "위원회") || Contains(activity, "상임위")
  }

  /**
   * Where `$` matches without MULTILINE: at the end of the input, or before
   * a line terminator (or "\r\n") that ends it.
   */
  predicate AtFinalEnd(rest: string) {
    rest == [] || rest == "\r\n" || (|rest| == 1 && IsLineTerminator(rest[0]))
  }

  /**
   * `replaceAll("국회|위원$|위원장$", "")`: every "국회" is removed, and a
   * final "위원" or "위원장" too, keeping a line terminator that follows it.
   * The alternatives are tried in that order at each position.
   */
  function StripCommitteeWords(s: string): (r: string)
    ensures |r| <= |s|
    ensures '국' !in s && '위' !in s ==> r == s
    ensures StartsWith(s, "위원") && AtFinalEnd(s[2..]) ==> r == s[2..]
    ensures StartsWith(s, "위원장") && AtFinalEnd(s[3..]) ==> r == s[3..]
  {
    if StartsWith(s, "국회") then
      assert s[0] == s[..2][0];
      assert |s| >= 3 ==> s[0] == s[..3][0];
      StripCommitteeWords(s[2..])
    else if StartsWith(s, "위원") && AtFinalEnd(s[2..]) then
      assert s[0] == s[..2][0];
      assert |s| >= 3 ==> s[2] == s[..3][2] && s[2] == s[2..][0];
      s[2..]
    else if StartsWith(s, "위원장") && AtFinalEnd(s[3..]) then
      assert s[0] == s[..3][0];
      s[3..]
    else if s == [] then []
    else
      assert StartsWith(s, "위원") ==> s[0] == s[..2][0];
      [s[0]] + StripCommitteeWords(s[1..])
  }

  /** A committee entry that ends in a newline loses its "국회" and its final "위원" alike. */
  lemma StripBeforeFinalNewline()
    ensures StripCommitteeWords("국회 외교통일위원회 위원\n") == " 외교통일위원회 \n"
  {
    FinalMemberStripped();
    PlainKept("원회 ", "위원\n");
    InnerMemberKept("원회 " + "위원\n");
    PlainKept(" 외교통일", "위" + ("원회 " + "위원\n"));
    AssemblyStripped(" 외교통일" + ("위" + ("원회 " + "위원\n")));
    ExampleSpelling();
  }

  lemma FinalMemberStripped()
    ensures StripCommitteeWords("위원\n") == "\n"
  {
    var tail := "위원\n";
    assert tail[..2] == "위원" && tail[2..] == "\n";
  }

  /** A '위' that does not start a final "위원" or "위원장" is kept. */
  lemma InnerMemberKept(mid: string)
    requires |mid| >= 3 && mid[0] == '원' && mid[1] != '장' && !AtFinalEnd(mid[1..])
    ensures StripCommitteeWords("위" + mid) == "위" + StripCommitteeWords(mid)
  {
    var wi := "위" + mid;
    assert wi[0] == '위' && wi[1..] == mid && wi[2..] == mid[1..] && wi[2] == mid[1];
    assert !StartsWith(wi, "국회") by { assert wi[..2][0] == wi[0]; }
    assert !StartsWith(wi, "위원장") by { assert wi[..3][2] == wi[2]; }
  }

  lemma AssemblyStripped(body: string)
    ensures StripCommitteeWords("국회" + body) == StripCommitteeWords(body)
  {
    var s := "국회" + body;
    assert s[..2] == "국회" && s[2..] == body;
  }

  lemma ExampleSpelling()
    ensures "국회" + (" 외교통일" + ("위" + ("원회 " + "위원\n"))) == "국회 외교통일위원회 위원\n"
    ensures " 외교통일" + ("위" + ("원회 " + "\n")) == " 외교통일위원회 \n"
  {
  }

  /** Text without '국' or '위' before the rest passes through unchanged. */
  lemma {:induction false} PlainKept(a: string, rest: string)
    requires '국' !in a && '위' !in a
    ensures StripCommitteeWords(a + rest) == a + StripCommitteeWords(rest)
  {
    if a != [] {
      var s := a + rest;
      assert s[0] == a[0] && s[1..] == a[1..] + rest;
      assert !StartsWith(s, "국회") && !StartsWith(s, "위원") && !StartsWith(s, "위원장") by {
        if |s| >= 2 { assert s[..2][0] == s[0]; }
        if |s| >= 3 { assert s[..3][0] == s[0]; }
      }
      assert StripCommitteeWords(s) == [a[0]] + StripCommitteeWords(a[1..] + rest);
      PlainKept(a[1..], rest);
      assert a == [a[0]] + a[1..];
    } else {
      assert a + rest == rest;
    }
  }

  /** A digit immediately followed by "대" at k, and "국회의원" somewhere after. */
  predicate ElectionAt(activity: string, k: int) {
    0 <= k && k + 1 < |activity| && IsDigit(activity[k]) && activity[k + 1] == '대'
    && Contains(activity[k + 2..], "국회의원")
  }

  /** `matches(".*\\d+대.*국회의원.*")`: `.` stops at line terminators and the whole string must match. */
  predicate NamesElection(activity: string) {
    (forall i :: 0 <= i < |activity| ==> !IsLineTerminator(activity[i]))
    && exists k :: 0 <= k < |activity| && ElectionAt(activity, k)
  }

  function ActivityStep(f: ActivityFacts, activity: string): (g: ActivityFacts)
    ensures g.reelection.Some? <==> f.reelection.Some? || NamesElection(activity)
    ensures NamesElection(activity) ==>
      g.electedCount == Some(KeepDigits(activity)) && g.reelection == Some(if f.reelection.None? then "초선" else "재선")
    ensures !NamesElection(activity) ==> g.electedCount == f.electedCount && g.reelection == f.reelection
    ensures g.committeePosition == f.committeePosition || g.committeePosition == Some("위원장") || g.committeePosition == Some("위원")
  {
    var f1 :=
      if MentionsCommittee(activity) && |JavaSplit(activity, SpaceRun)| >= 1 then
        f.(committeeName := Some(Trim(StripCommitteeWords(activity))),
           committeePosition :=
             if Contains(activity, "위원장") then Some("위원장")
             else if Contains(activity, "위원") then Some("위원")
             else f.committeePosition)
      else f;
    if NamesElection(activity) then
      f1.(electedCount := Some(KeepDigits(activity)),
          reelection := Some(if f1.reelection.None? then "초선" else "재선"))
    else f1
  }

  /** The number of activities that name an election. */
  function ElectionMentions(acts: seq<string>): (n: nat)
    ensures n <= |acts|
  {
    if acts == [] then 0
    else ElectionMentions(acts[..|acts| - 1]) + (if NamesElection(acts[|acts| - 1]) then 1 else 0)
  }

  /** The state after reading every activity in order. */
  function ActivityFactsOf(acts: seq<string>): (f: ActivityFacts)
    ensures f.electedCount.Some? ==> AllDigits(f.electedCount.value)
    ensures f.committeePosition.Some? ==> f.committeePosition.value in {"위원장", "위원"}
    ensures f.electedCount.Some? <==> ElectionMentions(acts) > 0
    ensures f.reelection
         == if ElectionMentions(acts) == 0 then None
            else if ElectionMentions(acts) == 1 then Some("초선")
            else Some("재선")
  {
    if acts == [] then NO_ACTIVITY_FACTS
    else ActivityStep(ActivityFactsOf(acts[..|acts| - 1]), acts[|acts| - 1])
  }

  // ------------------------------------------------------------ sites

  datatype SiteFacts = SiteFacts(email: Option<string>, homepage: Option<string>, blog: Option<string>, facebook: Option<string>)

  const NO_SITE_FACTS := SiteFacts(None, None, None, None)

  /** `site.trim().toLowerCase()`. */
  function NormalSite(site: string): string {
    Lower(Trim(site))
  }

  predicate IsEmailSite(s: string) {
    Contains(s, "@") || (EndsWith(s, ".com") && !Contains(s, "://"))
  }

  predicate IsFacebookSite(s: string) {
    Contains(s, "facebook.com") || Contains(s, "fb.com")
  }

  predicate IsBlogSite(s: string) {
    Contains(s, "blog") || Contains(s, "naver.com") || Contains(s, "tistory.com")
  }

  predicate IsHomepageSite(s: string) {
    StartsWith(s, "http") || StartsWith(s, "www")
  }

  /** Each site lands in the first category it fits, replacing what was there. */
  function SiteStep(f: SiteFacts, site: string): SiteFacts
  {
    var s := NormalSite(site);
    if IsEmailSite(s) then f.(email := Some(s))
    else if IsFacebookSite(s) then f.(facebook := Some(s))
    else if IsBlogSite(s) then f.(blog := Some(s))
    else if IsHomepageSite(s) then f.(homepage := Some(s))
    else f
  }

  predicate ClassifiedSites(f: SiteFacts) {
    (f.email.Some? ==> IsEmailSite(f.email.value))
    && (f.facebook.Some? ==> !IsEmailSite(f.facebook.value) && IsFacebookSite(f.facebook.value))
    && (f.blog.Some? ==> !IsEmailSite(f.blog.value) && !IsFacebookSite(f.blog.value) && IsBlogSite(f.blog.value))
    && (f.homepage.Some? ==> !IsEmailSite(f.homepage.value) && !IsFacebookSite(f.homepage.value)
                             && !IsBlogSite(f.homepage.value) && IsHomepageSite(f.homepage.value))
  }

  function SiteFactsOf(sites: seq<string>): (f: SiteFacts)
    ensures ClassifiedSites(f)
  {
    if sites == [] then NO_SITE_FACTS
    else
      var prev := SiteFactsOf(sites[..|sites| - 1]);
      SiteStepClassifies(prev, sites[|sites| - 1]);
      SiteStep(prev, sites[|sites| - 1])
  }

  lemma SiteStepClassifies(f: SiteFacts, site: string)
    requires ClassifiedSites(f)
    ensures ClassifiedSites(SiteStep(f, site))
  {
    var s := NormalSite(site);
    if IsEmailSite(s) {
      assert SiteStep(f, site) == f.(email := Some(s));
    } else if IsFacebookSite(s) {
      assert SiteStep(f, site) == f.(facebook := Some(s));
    } else if IsBlogSite(s) {
      assert SiteStep(f, site) == f.(blog := Some(s));
    } else if IsHomepageSite(s) {
      assert SiteStep(f, site) == f.(homepage := Some(s));
    } else {
      assert SiteStep(f, site) == f;
    }
  }

  /** Once an email is recorded, later sites never remove it. */
  lemma SiteStepKeepsEmail(f: SiteFacts, site: string)
    requires f.email.Some?
    ensures SiteStep(f, site).email.Some?
  {
  }

  /** A site that reads as an address leaves an email behind, whatever follows it. */
  lemma {:induction false} EmailSiteKept(sites: seq<string>, i: nat)
    requires i < |sites| && IsEmailSite(NormalSite(sites[i]))
    ensures SiteFactsOf(sites).email.Some?
    decreases |sites|
  {
    var init := sites[..|sites| - 1];
    if i < |sites| - 1 {
      assert init[i] == sites[i];
      EmailSiteKept(init, i);
      SiteStepKeepsEmail(SiteFactsOf(init), sites[|sites| - 1]);
    }
  }

  /** The last site containing "@" is the email. */
  lemma {:induction false} LastAddressIsEmail(sites: seq<string>)
    requires sites != [] && Contains(NormalSite(sites[|sites| - 1]), "@")
    ensures SiteFactsOf(sites).email == Some(NormalSite(sites[|sites| - 1]))
  {
  }

  // ------------------------------------------------------------ careers

  predicate IsAssemblyCareer(c: Career) {
    Contains(c.position, "국회의원") || Contains(c.position, "의원")
    || Contains(c.organization, "국회") || Contains(c.organization, "국회의원")
    || Contains(c.title, "국회의원") || Contains(c.title, "당선")
  }

  /** A career the election-date search stops at: a non-empty period and an assembly role. */
  predicate DatesElection(c: Career) {
    |c.period| > 0 && IsAssemblyCareer(c)
  }

  function FirstElectionCareer(careers: seq<Career>): (k: int)
    ensures -1 <= k < |careers|
    ensures k >= 0 ==> DatesElection(careers[k])
    ensures forall j :: 0 <= j < |careers| && (k == -1 || j < k) ==> !DatesElection(careers[j])
  {
    if careers == [] then -1
    else if DatesElection(careers[0]) then 0
    else
      var k := FirstElectionCareer(careers[1..]);
      assert forall j :: 1 <= j < |careers| ==> careers[j] == careers[1..][j - 1];
      if k == -1 then -1 else k + 1
  }

  /** The start of a period: the text before the first "~", trimmed. */
  function PeriodStart(period: string): (r: Option<string>)
  {
    var parts := JavaSplit(period, Literal("~"));
    if |parts| > 0 then Some(Trim(parts[0])) else None
  }

  // ------------------------------------------------------------ from

  /** FigureInfoDTO.from, as one expression over the folds above. */
  function FigureInfoOf(figure: Figure): (dto: FigureInfoDTO)
    ensures dto.figureId == figure.figureId && dto.name == figure.name
    ensures dto.electedCount.Some? ==> var ec := dto.electedCount.value;
      |ec| >= 1 && AllDigits(ec[..|ec| - 1]) && ec[|ec| - 1] == '대'
    ensures dto.reelection.None? || dto.reelection == Some("초선") || dto.reelection == Some("재선")
  {
    var acts := ActivityFactsOf(if figure.activities.Some? then figure.activities.value else []);
    var sites := SiteFactsOf(if figure.sites.Some? then figure.sites.value else []);
    var careers := if figure.careers.Some? then figure.careers.value else [];
    var k := FirstElectionCareer(careers);
    var reelection := if k >= 0 then Some("재선") else acts.reelection;
    var electedDate := if k >= 0 then PeriodStart(careers[k].period) else None;
    var electedCount := if acts.electedCount.Some? then Some(acts.electedCount.value + "대") else None;
    assert electedCount.Some? ==> electedCount.value[..|electedCount.value| - 1] == acts.electedCount.value;
    FigureInfoDTO(
      figure.figureId, figure.name, figure.figureParty,
      acts.committeeName, acts.committeePosition, electedCount, electedDate, reelection,
      Some(if figure.education.Some? then figure.education.value else []),
      figure.careers,
      sites.email, sites.homepage, sites.blog, sites.facebook)
  }

  /** An assembly career with a period makes the figure a re-elected member. */
  lemma {:induction false} AssemblyCareerMeansReelected(figure: Figure, i: nat)
    requires figure.careers.Some? && i < |figure.careers.value| && DatesElection(figure.careers.value[i])
    ensures FigureInfoOf(figure).reelection == Some("재선")
  {
    assert FirstElectionCareer(figure.careers.value) >= 0;
  }

  /** A profile whose sites include an address has an email. */
  lemma {:induction false} AddressSiteGivesEmail(figure: Figure, i: nat)
    requires figure.sites.Some? && i < |figure.sites.value| && Contains(NormalSite(figure.sites.value[i]), "@")
    ensures FigureInfoOf(figure).email.Some?
  {
    EmailSiteKept(figure.sites.value, i);
  }

  /** The activity loop of `from`. */
  method ReadActivities(acts: seq<string>) returns (facts: ActivityFacts)
    ensures facts == ActivityFactsOf(acts)
  {
    facts := NO_ACTIVITY_FACTS;
    var i := 0;
    while i < |acts|
      invariant 0 <= i <= |acts|
      invariant facts == ActivityFactsOf(acts[..i])
    {
      assert acts[..i + 1][..i] == acts[..i];
      facts := ActivityStep(facts, acts[i]);
      i := i + 1;
    }
    assert acts[..|acts|] == acts;
  }

  /** The site loop of `from`. */
  method ReadSites(ss: seq<string>) returns (sites: SiteFacts)
    ensures sites == SiteFactsOf(ss)
  {
    sites := NO_SITE_FACTS;
    var i := 0;
    while i < |ss|
      invariant 0 <= i <= |ss|
      invariant sites == SiteFactsOf(ss[..i])
    {
      assert ss[..i + 1][..i] == ss[..i];
      sites := SiteStep(sites, ss[i]);
      i := i + 1;
    }
    assert ss[..|ss|] == ss;
  }

  /** The career loop of `from`: stops at the first career that dates an election. */
  method FindElectionCareer(careers: seq<Career>) returns (k: int)
    ensures k == FirstElectionCareer(careers)
  {
    k := -1;
    var i := 0;
    while i < |careers|
      invariant 0 <= i <= |careers|
      invariant forall j :: 0 <= j < i ==> !DatesElection(careers[j])
    {
      if DatesElection(careers[i]) {
        k := i;
        return;
      }
      i := i + 1;
    }
  }

  /** FigureInfoDTO.from. */
  method From(figure: Figure) returns (dto: FigureInfoDTO)
    ensures dto == FigureInfoOf(figure)
  {
    var facts := NO_ACTIVITY_FACTS;
    if figure.activities.Some? {
      facts := ReadActivities(figure.activities.value);
    }
    var sites := NO_SITE_FACTS;
    if figure.sites.Some? {
      sites := ReadSites(figure.sites.value);
    }
    var reelection := facts.reelection;
    var electedDate: Option<string> := None;
    if figure.careers.Some? && |figure.careers.value| > 0 {
      var k := FindElectionCareer(figure.careers.value);
      if k >= 0 {
        reelection := Some("재선");
        electedDate := PeriodStart(figure.careers.value[k].period);
      }
    }
    var electedCount := if facts.electedCount.Some? then Some(facts.electedCount.value + "대") else None;
    dto := FigureInfoDTO(
      figure.figureId, figure.name, figure.figureParty,
      facts.committeeName, facts.committeePosition, electedCount, electedDate, reelection,
      Some(if figure.education.Some? then figure.education.value else []),
      figure.careers,
      sites.email, sites.homepage, sites.blog, sites.facebook);
  }
}
