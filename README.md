# GateStatus backend core in Dafny

GateStatus is a Spring service about members of the Korean National
Assembly. It gathers their profiles, statements, votes and proposed bills
from the Assembly's open API and from news searches, and it serves
comparisons and dashboards over them. This project models the service's
domain logic, that is, the parts that compute rather than fetch or store:

- **Parsing and normalisation of open-API data.** Bill status codes and
  dates (`BillUtils`, `ProposedBillApiService`), career lines and periods
  (`CareerParser`), the figure mapper's parties, careers, sites,
  activities and education (`FigureMapper`, `FigureInfoDTO`), vote labels
  (`VoteResultType`) and issue categories (`IssueCategory`).
- **Text handling.** HTML tag stripping, truncation and entity decoding
  (`HtmlUtils`, `HtmlEntitiesDecoder`), and the statement mapper's URL,
  type and keyword extraction (`StatementApiMapper`).
- **Scoring and analysis.** Statement relevance scoring (`StatementRelevanceService`),
  summaries, keyword ranking, key sentences and vote and bill counts
  (`PoliticalAnalysisService`), and news categorisation and keyword
  extraction (`NewsApiService`).
- **Request objects and validation.** `ComparisonRequest`,
  `NewsSearchRequest`, `StatementSearchCriteria` and `ValidationService`.
- **Mutable state.** The stateful records are Dafny classes whose methods
  state their whole new state: `SyncJobStatus`, the dashboard calculators,
  `IssueDocument` and `ProposedBill`. The comparison result builder's
  totals, averages, party distribution and active days are also modelled.

Java semantics are modelled explicitly in shared modules:

- `JavaLang`: null as `Option`, exceptions as `Result`, 32-bit `int`
  wrap-around, truncating division and the saturating `(int)` cast.
- `Strings`: `trim`, `indexOf`, `lastIndexOf`, `replace`, `contains`,
  `toLowerCase` and the regular-expression character classes.
- `Split`: `String.split`.
- `Dates`: `LocalDate`, `YearMonth` and the `DateTimeFormatter` patterns.
- `Collections`: sorting by score, `distinct` and `limit`.

Everything the service reads from outside becomes a parameter: the clock,
the repositories' contents and the URL validator. The single-page web
client that ships with the repository is not part of this model. Only the
Java backend's logic is modelled.

Source paths below are relative to the repository root.

## Model

| member | source | states |
|---|---|---|
| BillUtils.FirstParse | backend/src/main/java/com/example/GateStatus/domain/common/BillUtils.java:21-39 | a date comes back only when one of the patterns reads the text, and it is a valid date with a positive year; none comes back exactly when no pattern reads it |
| BillUtils.TryPatterns | backend/src/main/java/com/example/GateStatus/domain/common/BillUtils.java:32-39 | the formatter loop returns the date read by the first pattern that accepts the text, in list order |
| BillUtils.ParseDate | backend/src/main/java/com/example/GateStatus/domain/common/BillUtils.java:14-43 | null for a null or empty argument; otherwise the first of the eight layouts that reads the trimmed text wins, else null; every date returned is a valid calendar date |
| BillUtils.NoPatternReadsEmpty | backend/src/main/java/com/example/GateStatus/domain/common/BillUtils.java:21-30 | none of the eight layouts reads the empty text |
| BillUtils.SafeParseDate | backend/src/main/java/com/example/GateStatus/domain/common/BillUtils.java:52-56 | a null or blank argument gives null |
| BillUtils.SafeParseDateAgrees | backend/src/main/java/com/example/GateStatus/domain/common/BillUtils.java:52-69 | for every argument safeParseDateWithLogging returns what parseDate returns |
| BillUtils.ParseDateIgnoresSurroundingSpace | backend/src/main/java/com/example/GateStatus/domain/common/BillUtils.java:19 | surrounding whitespace does not change the parsed date |
| BillUtils.ParseIsoDateExample | backend/src/main/java/com/example/GateStatus/domain/common/BillUtils.java:22 | "2024-07-01" reads as 1 July 2024 |
| BillUtils.ParseClampsDayExample | backend/src/main/java/com/example/GateStatus/domain/common/BillUtils.java:22-34 | the SMART resolver clamps "2023-02-30" to 28 February 2023 |
| BillUtils.FirstLayoutReads | backend/src/main/java/com/example/GateStatus/domain/common/BillUtils.java:19-36 | a trimmed text the yyyy-MM-dd layout reads is returned as that layout reads it |
| BillUtils.IsoLayoutReads | backend/src/main/java/com/example/GateStatus/domain/common/BillUtils.java:22-34 | a four-digit year, two-digit month and day joined by '-' are read field by field by the first layout |
| BillUtils.DetermineBillStatus | backend/src/main/java/com/example/GateStatus/domain/common/BillUtils.java:72-108 | PROPOSED exactly for a null or empty text; EXPIRED never |
| BillUtils.BillStatusIsFirstMatchingGroup | backend/src/main/java/com/example/GateStatus/domain/common/BillUtils.java:77-108 | for non-empty text the status is that of the first keyword group the text contains, tried in source order, else PROCESSING |
| BillUtils.AlternativeDiscardedIsRejected | backend/src/main/java/com/example/GateStatus/domain/common/BillUtils.java:83-90 | "대안반영폐기" is REJECTED, because the 폐기 check precedes the 대안반영 check |
| BillUtils.PassedTakesPrecedence | backend/src/main/java/com/example/GateStatus/domain/common/BillUtils.java:78-80 | a text containing 원안가결 or 수정가결 is PASSED whatever else it contains |
| CareerParser.ParseInt | backend/src/main/java/com/example/GateStatus/domain/career/CareerParser.java:158 | Integer.parseInt yields only `int` values, read from a text that starts with a digit or a sign; a text of ASCII digits gives its value when that fits in an `int` and fails otherwise |
| CareerParser.ParseIntToString | backend/src/main/java/com/example/GateStatus/domain/career/CareerParser.java:158 | every `int` printed in decimal parses back to itself |
| CareerParser.YearStart | backend/src/main/java/com/example/GateStatus/domain/career/CareerParser.java:157-177 | the "yyyy" entry gives 1 January of the parsed year, a valid date, or null when parsing or LocalDate.of throws |
| CareerParser.FirstReading | backend/src/main/java/com/example/GateStatus/domain/career/CareerParser.java:155-167 | any date read from the pattern list is valid and the first of its month |
| CareerParser.DateOrNullOf | backend/src/main/java/com/example/GateStatus/domain/career/CareerParser.java:140-179 | null for a null, blank or "현재" text; any date returned is valid and the first of its month |
| CareerParser.ParseDateOrNull | backend/src/main/java/com/example/GateStatus/domain/career/CareerParser.java:140-179 | the pattern loop returns what the patterns read in order, the "yyyy" entry ending the search |
| CareerParser.FormattedMonthReadsBack | backend/src/main/java/com/example/GateStatus/domain/career/CareerParser.java:128-163 | a month printed as yyyy.MM is read back by parseDateOrNull as the first day of that month |
| CareerParser.FormatPeriod | backend/src/main/java/com/example/GateStatus/domain/career/CareerParser.java:125-133 | "" for a null start; "start ~ 현재" for a null end; otherwise "start ~ end", both as yyyy.MM |
| CareerParser.SimpleCareer | backend/src/main/java/com/example/GateStatus/domain/career/CareerParser.java:53-60 | the trimmed line as title and every other field "" |
| CareerParser.RangeDates | backend/src/main/java/com/example/GateStatus/domain/career/CareerParser.java:88-101 | reading a split period throws exactly when the split is empty; the start is the first part's reading; a single part has no end |
| CareerParser.PeriodDates | backend/src/main/java/com/example/GateStatus/domain/career/CareerParser.java:83-104 | any start or end date read from the period is valid |
| CareerParser.CareerFromParts | backend/src/main/java/com/example/GateStatus/domain/career/CareerParser.java:78-118 | a career read from the parts is titled by the line, or by the trimmed line when there are fewer than two parts |
| CareerParser.ParseCareerLine | backend/src/main/java/com/example/GateStatus/domain/career/CareerParser.java:67-76 | a line with neither " / " nor " - " becomes createSimpleCareer(line) |
| CareerParser.ParseCareerLineNull | backend/src/main/java/com/example/GateStatus/domain/career/CareerParser.java:67-122 | parseCareerLine returns null exactly when the line has a separator, at least two parts, and a period made only of '~' or only of '-' |
| CareerParser.PeriodThrowsOnlyOnSeparators | backend/src/main/java/com/example/GateStatus/domain/career/CareerParser.java:88-101 | reading the period throws exactly when it consists only of '~' or only of '-' |
| CareerParser.ParsedCareerFields | backend/src/main/java/com/example/GateStatus/domain/career/CareerParser.java:106-117 | a separated line's career has the untrimmed line as title, segment 2 trimmed as position and segment 3 trimmed or "" as organization |
| CareerParser.CollectCareers | backend/src/main/java/com/example/GateStatus/domain/career/CareerParser.java:27-43 | at most one career per non-blank line, and none with a blank title |
| CareerParser.NextCareers | backend/src/main/java/com/example/GateStatus/domain/career/CareerParser.java:28-38 | a blank line adds nothing; a line parseCareerLine rejects adds nothing; a non-blank line it accepts appends exactly that career to the list |
| CareerParser.ParsedTitleNotBlank | backend/src/main/java/com/example/GateStatus/domain/career/CareerParser.java:28-37 | a career read from a non-blank line has a non-blank title |
| CareerParser.CareersOf | backend/src/main/java/com/example/GateStatus/domain/career/CareerParser.java:17-22 | a null or empty text gives no careers; every career has a non-blank title |
| CareerParser.ParseCareers | backend/src/main/java/com/example/GateStatus/domain/career/CareerParser.java:17-46 | the loop over the lines returns exactly CareersOf(text) |
| ComparisonRequest.ComparisonRequest.HasIds | backend/src/main/java/com/example/GateStatus/domain/comparison/service/request/ComparisonRequest.java:44-46 | true exactly when the id list is neither null nor empty |
| ComparisonRequest.ComparisonRequest.HasNames | backend/src/main/java/com/example/GateStatus/domain/comparison/service/request/ComparisonRequest.java:48-50 | true exactly when the name list is neither null nor empty |
| ComparisonRequest.ComparisonRequest.IsMixed | backend/src/main/java/com/example/GateStatus/domain/comparison/service/request/ComparisonRequest.java:52-54 | true exactly when both lists are present; a mixed request is valid |
| ComparisonRequest.ComparisonRequest.IsValid | backend/src/main/java/com/example/GateStatus/domain/comparison/service/request/ComparisonRequest.java:59-61 | true exactly when at least one list is present |
| ComparisonRequest.ComparisonRequest.GetTotalFigureCount | backend/src/main/java/com/example/GateStatus/domain/comparison/service/request/ComparisonRequest.java:66-71 | the sizes of both lists added, a null list counting 0; positive exactly when the request is valid |
| ComparisonRequest.ByIds | backend/src/main/java/com/example/GateStatus/domain/comparison/service/request/ComparisonRequest.java:20-23 | a request by ids has no names, is never mixed, is valid exactly when ids are given, and keeps every other argument |
| ComparisonRequest.ByNames | backend/src/main/java/com/example/GateStatus/domain/comparison/service/request/ComparisonRequest.java:28-31 | a request by names has no ids, is never mixed, is valid exactly when names are given, and keeps every other argument |
| ComparisonRequest.Mixed | backend/src/main/java/com/example/GateStatus/domain/comparison/service/request/ComparisonRequest.java:36-39 | a mixed request is mixed exactly when both lists are present and counts both lists |
| ComparisonResultBuilder.DetermineMainActivityType | backend/src/main/java/com/example/GateStatus/domain/comparison/service/ComparisonResultBuilder.java:396-404 | the label of a largest count; statements win every tie, votes win a tie with bills |
| ComparisonResultBuilder.ShouldIncludeType | backend/src/main/java/com/example/GateStatus/domain/comparison/service/ComparisonResultBuilder.java:406-408 | true for a null list, otherwise exactly when the type is in the list |
| ComparisonResultBuilder.IntStreamSumIsWrappedSum | backend/src/main/java/com/example/GateStatus/domain/comparison/service/ComparisonResultBuilder.java:139-150 | IntStream.sum wrapping at each step equals the exact sum wrapped once to `int` |
| ComparisonResultBuilder.Average | backend/src/main/java/com/example/GateStatus/domain/comparison/service/ComparisonResultBuilder.java:156-158 | 0 for no figures; otherwise the quotient truncated toward zero: avg·n ≤ total < (avg+1)·n for a non-negative total and (avg−1)·n < total ≤ avg·n for a negative one |
| ComparisonResultBuilder.OverallStatisticsOf | backend/src/main/java/com/example/GateStatus/domain/comparison/service/ComparisonResultBuilder.java:138-159 | each total is the `int`-wrapped sum over the figures, a null section counting 0; averages are 0 for no figures and otherwise Average(total, figures), the quotient truncated toward zero, for each of the three totals |
| ComparisonResultBuilder.Occurrences | backend/src/main/java/com/example/GateStatus/domain/comparison/service/ComparisonResultBuilder.java:161-165 | a party's count is positive exactly when some figure belongs to it |
| ComparisonResultBuilder.PartyDistribution | backend/src/main/java/com/example/GateStatus/domain/comparison/service/ComparisonResultBuilder.java:161-165 | one entry per party that occurs, mapped to the number of figures in it |
| ComparisonResultBuilder.PartyCountsSumToFigures | backend/src/main/java/com/example/GateStatus/domain/comparison/service/ComparisonResultBuilder.java:161-165 | the counts of the party distribution add up to the number of figures |
| ComparisonResultBuilder.DatesOfEntries | backend/src/main/java/com/example/GateStatus/domain/comparison/service/ComparisonResultBuilder.java:270-289 | the dates collected from a list are exactly its non-null entries, no more than the list's length |
| ComparisonResultBuilder.AddDates | backend/src/main/java/com/example/GateStatus/domain/comparison/service/ComparisonResultBuilder.java:270-289 | adding a list's dates to the set adds exactly its non-null entries; a null list adds nothing |
| ComparisonResultBuilder.ActiveDays | backend/src/main/java/com/example/GateStatus/domain/comparison/service/ComparisonResultBuilder.java:267-291 | activeDays is the number of distinct non-null dates across statements, votes and bills, at most the three list sizes added |
| DashboardStatisticsService.BillStatsCalculator.constructor | backend/src/main/java/com/example/GateStatus/domain/dashboard/service/DashboardStatisticsService.java:158-164 | a new calculator has every count 0 |
| DashboardStatisticsService.BillStatsCalculator.AddCount | backend/src/main/java/com/example/GateStatus/domain/dashboard/service/DashboardStatisticsService.java:166-176 | the new counts are one BillStep from the old: the count is added to total, overwrites the PASSED, REJECTED, WITHDRAWN or ALTERNATIVE bucket, accumulates into processing for the four in-progress statuses, and touches nothing else for EXPIRED |
| DashboardStatisticsService.BillStatsCalculator.Build | backend/src/main/java/com/example/GateStatus/domain/dashboard/service/DashboardStatisticsService.java:178-181 | build() reports the tallied counts and a pass rate that is 0 without bills, lies in [0, 100] when 0 <= passed <= total, and is 100 exactly when every bill passed and 0 exactly when none did |
| DashboardStatisticsService.PercentBounds | backend/src/main/java/com/example/GateStatus/domain/dashboard/service/DashboardStatisticsService.java:179-202 | a share of a positive whole is in [0, 100], grows with the part, and is 0 or 100 exactly at a part of 0 or the whole |
| DashboardStatisticsService.BillTallyTotal | backend/src/main/java/com/example/GateStatus/domain/dashboard/service/DashboardStatisticsService.java:167 | after any sequence of rows, total is the `int`-wrapped sum of every row's count |
| DashboardStatisticsService.BillTallyProcessing | backend/src/main/java/com/example/GateStatus/domain/dashboard/service/DashboardStatisticsService.java:174 | processing is the wrapped sum of the counts of PROCESSING, PROPOSED, IN_COMMITTEE and IN_PLENARY rows |
| DashboardStatisticsService.BillTallyFinalIsLast | backend/src/main/java/com/example/GateStatus/domain/dashboard/service/DashboardStatisticsService.java:170-173 | the PASSED, REJECTED, WITHDRAWN and ALTERNATIVE buckets hold the count of their last row, not a sum |
| DashboardStatisticsService.ExpiredCountsOnlyTowardTotal | backend/src/main/java/com/example/GateStatus/domain/dashboard/service/DashboardStatisticsService.java:169-175 | removing the EXPIRED rows changes no bucket except total |
| DashboardStatisticsService.WithoutExpired | backend/src/main/java/com/example/GateStatus/domain/dashboard/service/DashboardStatisticsService.java:169-175 | the rows kept have no EXPIRED status |
| DashboardStatisticsService.VoteStatsCalculator.constructor | backend/src/main/java/com/example/GateStatus/domain/dashboard/service/DashboardStatisticsService.java:184-188 | a new calculator has every count 0 |
| DashboardStatisticsService.VoteStatsCalculator.AddCount | backend/src/main/java/com/example/GateStatus/domain/dashboard/service/DashboardStatisticsService.java:190-197 | the new counts are one VoteStep from the old: the result's bucket takes the count and UNKNOWN changes nothing |
| DashboardStatisticsService.VoteStatsCalculator.Build | backend/src/main/java/com/example/GateStatus/domain/dashboard/service/DashboardStatisticsService.java:199-205 | build() reports the tallied counts, both rates 0 when the wrapped total is not positive, and, for non-negative counts whose sum fits in an `int`, 0 <= agreeRate <= participationRate <= 100 with participation at 100 exactly when nobody was absent |
| DashboardStatisticsService.VoteTallyIsLast | backend/src/main/java/com/example/GateStatus/domain/dashboard/service/DashboardStatisticsService.java:191-196 | each known result's bucket holds the count of its last row |
| DashboardStatisticsService.UnknownVotesIgnored | backend/src/main/java/com/example/GateStatus/domain/dashboard/service/DashboardStatisticsService.java:191-196 | removing the UNKNOWN rows leaves every bucket unchanged |
| DashboardStatisticsService.WithoutUnknown | backend/src/main/java/com/example/GateStatus/domain/dashboard/service/DashboardStatisticsService.java:191-196 | the rows kept have no UNKNOWN result |
| DashboardStatisticsService.VoteTotalCountsKnownVotes | backend/src/main/java/com/example/GateStatus/domain/dashboard/service/DashboardStatisticsService.java:199-200 | with one row per result, the built total is the wrapped sum of the known results' counts |
| DashboardStatisticsService.VoteBucketsSum | backend/src/main/java/com/example/GateStatus/domain/dashboard/service/DashboardStatisticsService.java:185-200 | with one row per result, the four buckets add up to the known results' counts |
| Dates.DaysInMonth | backend/src/main/java/com/example/GateStatus/domain/common/BillUtils.java:34 | a month has 28 to 31 days |
| Dates.ParseLocalDate | backend/src/main/java/com/example/GateStatus/domain/common/BillUtils.java:34 | LocalDate.parse succeeds exactly when the pattern scans the text into a year of era 1..999999999, a month 1..12 and a day 1..31, and then yields a valid date |
| Dates.ParseYearMonth | backend/src/main/java/com/example/GateStatus/domain/career/CareerParser.java:161-163 | YearMonth.parse(..).atDay(1) succeeds exactly when the pattern scans a valid year and month, and yields the first day of that month |
| Dates.YearOfEraText | backend/src/main/java/com/example/GateStatus/domain/career/CareerParser.java:128-130 | "yyyy" prints at least four characters |
| Dates.ZeroPadValue | backend/src/main/java/com/example/GateStatus/domain/career/CareerParser.java:128-130 | a zero-padded number reads back as the number |
| Dates.MonthText | backend/src/main/java/com/example/GateStatus/domain/career/CareerParser.java:128-130 | "MM" prints a month 1..12 as two digits that read back as the month |
| Dates.YearText | backend/src/main/java/com/example/GateStatus/domain/career/CareerParser.java:128-130 | "yyyy" prints four digits below 10000 and '+' with five to nine digits from 10000 on, reading back as the year |
| Dates.ScanYearDotMonth | backend/src/main/java/com/example/GateStatus/domain/career/CareerParser.java:149-162 | the "yyyy.MM" pattern reads an optionally '+'-signed year text, a dot and a two-digit month field by field |
| Dates.FormatThenParseYearMonth | backend/src/main/java/com/example/GateStatus/domain/career/CareerParser.java:128-163 | printing a year-month with "yyyy.MM" and parsing it back with the same pattern gives the same year and month |
| FigureInfo.GetLinkUrl | backend/src/main/java/com/example/GateStatus/domain/figure/service/response/FigureInfoDTO.java:56-62 | at most three URLs, each a non-empty one of homepage, blog and facebook; homepage first and facebook last when present; none exactly when all three are missing |
| FigureInfo.GetActivities | backend/src/main/java/com/example/GateStatus/domain/figure/service/response/FigureInfoDTO.java:68-75 | the first entry is always electedCount + "대 국회의원", "null" standing for a null count; a second entry exactly when a committee is named, ending in " 위원" when the position is null |
| FigureInfo.StripCommitteeWords | backend/src/main/java/com/example/GateStatus/domain/figure/service/response/FigureInfoDTO.java:97 | removing "국회" and a final "위원" or "위원장" never lengthens the text and leaves a text without '국' or '위' unchanged; a final "위원" or "위원장" is removed also when one line terminator (or "\r\n") follows it, and the terminator is kept |
| FigureInfo.StripBeforeFinalNewline | backend/src/main/java/com/example/GateStatus/domain/figure/service/response/FigureInfoDTO.java:97 | "국회 외교통일위원회 위원\n" becomes " 외교통일위원회 \n": `$` matches before the final newline, so the trailing "위원" goes too |
| FigureInfo.FinalMemberStripped | backend/src/main/java/com/example/GateStatus/domain/figure/service/response/FigureInfoDTO.java:97 | "위원" followed by a final newline is removed and the newline kept |
| FigureInfo.InnerMemberKept | backend/src/main/java/com/example/GateStatus/domain/figure/service/response/FigureInfoDTO.java:97 | a "위원" that is neither final nor the start of a final "위원장" is kept |
| FigureInfo.AssemblyStripped | backend/src/main/java/com/example/GateStatus/domain/figure/service/response/FigureInfoDTO.java:97 | a leading "국회" is removed wherever it stands, final or not |
| FigureInfo.PlainKept | backend/src/main/java/com/example/GateStatus/domain/figure/service/response/FigureInfoDTO.java:97 | a part with neither '국' nor '위' passes through the replacement unchanged |
| FigureInfo.ActivityStep | backend/src/main/java/com/example/GateStatus/domain/figure/service/response/FigureInfoDTO.java:91-117 | a re-election marker is recorded once any activity so far names an election; an activity naming an election sets electedCount to its digits and the marker to "초선" first and "재선" after, any other activity keeps both; the position only ever becomes "위원장" or "위원" |
| FigureInfo.ElectionMentions | backend/src/main/java/com/example/GateStatus/domain/figure/service/response/FigureInfoDTO.java:108 | at most one election mention per activity |
| FigureInfo.ActivityFactsOf | backend/src/main/java/com/example/GateStatus/domain/figure/service/response/FigureInfoDTO.java:90-119 | an extracted electedCount is all digits and exists exactly when an activity names an election; the position is "위원장" or "위원"; reelection is null, "초선" after one election mention and "재선" after more |
| FigureInfo.SiteFactsOf | backend/src/main/java/com/example/GateStatus/domain/figure/service/response/FigureInfoDTO.java:122-135 | each recorded site fits its category and none before it in the order email, facebook, blog, homepage |
| FigureInfo.SiteStepClassifies | backend/src/main/java/com/example/GateStatus/domain/figure/service/response/FigureInfoDTO.java:124-133 | one more site keeps every recorded site in its first fitting category |
| FigureInfo.SiteStepKeepsEmail | backend/src/main/java/com/example/GateStatus/domain/figure/service/response/FigureInfoDTO.java:125-126 | a later site never clears a recorded email |
| FigureInfo.EmailSiteKept | backend/src/main/java/com/example/GateStatus/domain/figure/service/response/FigureInfoDTO.java:122-135 | a site that reads as an address leaves an email, whatever follows it |
| FigureInfo.LastAddressIsEmail | backend/src/main/java/com/example/GateStatus/domain/figure/service/response/FigureInfoDTO.java:124-126 | when the last site contains "@", the email is that site trimmed and lower-cased |
| FigureInfo.FirstElectionCareer | backend/src/main/java/com/example/GateStatus/domain/figure/service/response/FigureInfoDTO.java:140-176 | the index of the first career with a period and an assembly role, or -1 when there is none |
| FigureInfo.FigureInfoOf | backend/src/main/java/com/example/GateStatus/domain/figure/service/response/FigureInfoDTO.java:77-203 | id and name are copied; an electedCount is digits followed by "대"; reelection is null, "초선" or "재선" |
| FigureInfo.AssemblyCareerMeansReelected | backend/src/main/java/com/example/GateStatus/domain/figure/service/response/FigureInfoDTO.java:161-165 | any assembly career with a period makes reelection "재선" |
| FigureInfo.AddressSiteGivesEmail | backend/src/main/java/com/example/GateStatus/domain/figure/service/response/FigureInfoDTO.java:124-126 | a site containing "@" gives the profile an email |
| FigureInfo.ReadActivities | backend/src/main/java/com/example/GateStatus/domain/figure/service/response/FigureInfoDTO.java:90-119 | the activity loop computes ActivityFactsOf(activities) |
| FigureInfo.ReadSites | backend/src/main/java/com/example/GateStatus/domain/figure/service/response/FigureInfoDTO.java:122-135 | the site loop computes SiteFactsOf(sites) |
| FigureInfo.FindElectionCareer | backend/src/main/java/com/example/GateStatus/domain/figure/service/response/FigureInfoDTO.java:138-177 | the career loop stops at FirstElectionCareer(careers) |
| FigureInfo.From | backend/src/main/java/com/example/GateStatus/domain/figure/service/response/FigureInfoDTO.java:77-203 | from returns FigureInfoOf(figure) |
| FigureMapper.PartyByName | backend/src/main/java/com/example/GateStatus/domain/figure/service/FigureMapper.java:372-385 | a party other than OTHER is the one whose name was switched on; LEFT and RIGHT are never produced |
| FigureMapper.PartyByNameRoundTrip | backend/src/main/java/com/example/GateStatus/domain/figure/service/FigureMapper.java:372-380 | each of the eight parties the switch lists is found from its own name |
| FigureMapper.ConvertToFigureParty | backend/src/main/java/com/example/GateStatus/domain/figure/service/FigureMapper.java:367-386 | a null or blank name gives OTHER; any other party is the one named by the trimmed text; LEFT and RIGHT never |
| FigureMapper.PartyNameRoundTrip | backend/src/main/java/com/example/GateStatus/domain/figure/service/FigureMapper.java:367-380 | a known party's name padded with whitespace on both sides gives that party |
| FigureMapper.TrimPadded | backend/src/main/java/com/example/GateStatus/domain/figure/service/FigureMapper.java:372 | trimming removes exactly the whitespace padding around a text with non-space ends |
| FigureMapper.AssemblyCareer | backend/src/main/java/com/example/GateStatus/domain/figure/service/FigureMapper.java:254-263 | an assembly career exists exactly when electedCount is present; its position is "국회의원" and organization "대한민국 국회"; its title is electedCount + "대 국회의원"; its period is "현재" exactly when electedDate is blank, and otherwise electedDate + " ~ 현재" |
| FigureMapper.CommitteeCareer | backend/src/main/java/com/example/GateStatus/domain/figure/service/FigureMapper.java:270-280 | a committee career exists exactly when the committee is named; its title is "국회 " + the committee, organization the committee, period "현재", position the given one or "위원" |
| FigureMapper.OptionList | backend/src/main/java/com/example/GateStatus/domain/figure/service/FigureMapper.java:254-280 | a career that is added contributes exactly one entry, a missing one none |
| FigureMapper.ConvertCareers | backend/src/main/java/com/example/GateStatus/domain/figure/service/FigureMapper.java:237-299 | the assembly career comes first, then the committee career (second when both exist), then the profile's own careers unchanged and in their order |
| FigureMapper.NormalizeUrl | backend/src/main/java/com/example/GateStatus/domain/figure/service/FigureMapper.java:436-456 | a blank URL gives ""; otherwise, with W the trimmed URL given "https://" when it names no http(s) scheme, the result is W when W is accepted and the URL unchanged when it is not |
| FigureMapper.WithScheme | backend/src/main/java/com/example/GateStatus/domain/figure/service/FigureMapper.java:444-447 | the result starts with "http://" or "https://"; a text that already does is kept, any other gets "https://" in front |
| FigureMapper.NormalizeAll | backend/src/main/java/com/example/GateStatus/domain/figure/service/FigureMapper.java:307 | one normalised address per given address, in the same order |
| FigureMapper.NormalizeEmail | backend/src/main/java/com/example/GateStatus/domain/figure/service/FigureMapper.java:463-477 | a blank address gives ""; otherwise the trimmed, lower-cased address when that is well formed, and the input unchanged when it is not |
| FigureMapper.UrlEntries | backend/src/main/java/com/example/GateStatus/domain/figure/service/FigureMapper.java:305-308 | one entry per non-blank field among homepage, blog and facebook, in that order, each the field normalised by normalizeUrl |
| FigureMapper.ConvertSites | backend/src/main/java/com/example/GateStatus/domain/figure/service/FigureMapper.java:301-319 | the normalised URLs come first in order; an email adds exactly one last entry "mailto:" + the normalised address |
| FigureMapper.Activities | backend/src/main/java/com/example/GateStatus/domain/figure/service/FigureMapper.java:321-334 | one activity per known field, so at most two; the term comes first, the committee last, with "위원" standing for a missing position |
| FigureMapper.ConvertActivities | backend/src/main/java/com/example/GateStatus/domain/figure/service/FigureMapper.java:321-334 | at most two activities, none exactly when neither the elected count nor the committee is known; the term first and the committee last |
| FigureMapper.TrimmedNonBlank | backend/src/main/java/com/example/GateStatus/domain/figure/service/FigureMapper.java:399-402 | every kept piece is trimmed and not blank, and every non-blank piece is kept in trimmed form |
| FigureMapper.SafeSplit | backend/src/main/java/com/example/GateStatus/domain/figure/service/FigureMapper.java:394-403 | a null or blank text gives an empty list; no element is blank or untrimmed |
| FigureMapper.NonBlankFields | backend/src/main/java/com/example/GateStatus/domain/figure/service/FigureMapper.java:357-360 | only non-blank fields are kept, none exactly when every field is blank, and a present first field comes first |
| FigureMapper.ParseEducation | backend/src/main/java/com/example/GateStatus/domain/figure/service/FigureMapper.java:348-363 | no duplicates, no blank entries, and exactly the entries of the split EDU field and of EDU1..EDU3 |
| FigureMapper.EducationFirstSeenOrder | backend/src/main/java/com/example/GateStatus/domain/figure/service/FigureMapper.java:349-362 | the LinkedHashSet keeps entries in order of first appearance |
| FigureMapper.ChosenFigureId | backend/src/main/java/com/example/GateStatus/domain/figure/service/FigureMapper.java:136-146 | an existing non-empty id is kept; otherwise the profile's id, else "TEMP_" + UUID; the result is never empty |
| FigureMapper.ChosenFigureIdStable | backend/src/main/java/com/example/GateStatus/domain/figure/service/FigureMapper.java:136-146 | a second call never overwrites the id the first one left |
| FigureMapper.ValidateAndSetFigureId | backend/src/main/java/com/example/GateStatus/domain/figure/service/FigureMapper.java:136-146 | the figure's id becomes ChosenFigureId(old id, profile id, uuid) |
| HtmlEntitiesDecoder.DecodeBasic | backend/src/main/java/com/example/GateStatus/global/config/open/HtmlEntitiesDecoder.java:15-27 | null gives ""; decoding never lengthens the text; a text without '&' is returned unchanged |
| HtmlEntitiesDecoder.DecodeBasicByTable | backend/src/main/java/com/example/GateStatus/global/config/open/HtmlEntitiesDecoder.java:18-26 | the chain of eight replace calls is the table of entities applied entry by entry, in the source's order |
| HtmlEntitiesDecoder.BasicEntitiesAreEntities | backend/src/main/java/com/example/GateStatus/global/config/open/HtmlEntitiesDecoder.java:19-26 | the eight patterns are distinct entities ('&', then neither '&' nor ';', then ';'), each replaced by no longer a text; only "&amp;" decodes to a text holding '&' |
| HtmlEntitiesDecoder.EntityDecodedBasic | backend/src/main/java/com/example/GateStatus/global/config/open/HtmlEntitiesDecoder.java:15-27 | each of the eight entities, between texts without '&', decodes to its character ("&amp;" when nothing follows it) |
| HtmlEntitiesDecoder.AmpDecodedBeforeLt | backend/src/main/java/com/example/GateStatus/global/config/open/HtmlEntitiesDecoder.java:24-25 | because `&amp;` is replaced before `&lt;`, the escaped text "&amp;lt;" decodes all the way to "<" |
| HtmlEntitiesDecoder.TypographicEntitiesAbsent | backend/src/main/java/com/example/GateStatus/global/config/open/HtmlEntitiesDecoder.java:19-23 | the five typographic replacements leave "&amp;lt;" unchanged |
| HtmlEntitiesDecoder.AmpThenLt | backend/src/main/java/com/example/GateStatus/global/config/open/HtmlEntitiesDecoder.java:24-26 | the last three replacements turn "&amp;lt;" into "<" |
| HtmlEntitiesDecoder.KeepsAmpersandText | backend/src/main/java/com/example/GateStatus/global/config/open/HtmlEntitiesDecoder.java:18-26 | replacing an entity that cannot occur in the text leaves the text unchanged |
| HtmlUtils.CloseIndex | backend/src/main/java/com/example/GateStatus/domain/common/HtmlUtils.java:19 | the index found is the first '>' at or after the start, or the end of the text when there is none |
| HtmlUtils.StripTags | backend/src/main/java/com/example/GateStatus/domain/common/HtmlUtils.java:19 | removing the `<[^>]*>` tags never lengthens the text, adds no character, leaves a text without '<' unchanged, and leaves no '<' followed later by '>' |
| HtmlUtils.StripTagsPlainPrefix | backend/src/main/java/com/example/GateStatus/domain/common/HtmlUtils.java:19 | text before the first '<' passes through the tag removal unchanged: StripTags(a + rest) == a + StripTags(rest) when '<' is not in a |
| HtmlUtils.StripTagsDropsTag | backend/src/main/java/com/example/GateStatus/domain/common/HtmlUtils.java:19 | a '<' with no '>' before the next '>' is removed with everything up to and including that '>' |
| HtmlUtils.EntitiesShrink | backend/src/main/java/com/example/GateStatus/domain/common/HtmlUtils.java:20-30 | every entity starts with '&' and is replaced by a text no longer than itself |
| HtmlUtils.EntitiesAreEntities | backend/src/main/java/com/example/GateStatus/domain/common/HtmlUtils.java:20-30 | the eleven patterns are distinct entities ('&', then neither '&' nor ';', then ';') without '<', each replaced by no longer a text |
| Strings.ReplaceEach | backend/src/main/java/com/example/GateStatus/domain/common/HtmlUtils.java:20-30 | a chain of replacements whose targets start with the mark never lengthens the text and leaves a text without the mark unchanged |
| Strings.EntityDecoded | backend/src/main/java/com/example/GateStatus/domain/common/HtmlUtils.java:20-30 | in a chain of distinct entity replacements, each entity between texts without the mark becomes its replacement (a replacement that is the mark itself only at the end of the text) |
| HtmlUtils.RemoveHtmlTags | backend/src/main/java/com/example/GateStatus/domain/common/HtmlUtils.java:14-32 | null or empty input gives ""; the result is trimmed and no longer than the input; a text without '<' and '&' is only trimmed |
| HtmlUtils.TagRemoved | backend/src/main/java/com/example/GateStatus/domain/common/HtmlUtils.java:14-32 | a tag between texts without '<' and '&' is removed and the rest trimmed: a + "<m>" + b gives Trim(a + b) |
| HtmlUtils.EntityReplaced | backend/src/main/java/com/example/GateStatus/domain/common/HtmlUtils.java:14-32 | each of the eleven entities between texts without '<' and '&' becomes its character before trimming ("&amp;" when nothing follows it) |
| HtmlUtils.Truncate | backend/src/main/java/com/example/GateStatus/domain/common/HtmlUtils.java:40-45 | null or a text within maxLength is returned as is; a longer text keeps its first maxLength-3 characters and ends in "...", exactly maxLength long; below 3, substring throws |
| HtmlUtils.TruncateIdempotent | backend/src/main/java/com/example/GateStatus/domain/common/HtmlUtils.java:40-45 | truncating a truncated text changes nothing |
| IssueCategory.FirstWithCode | backend/src/main/java/com/example/GateStatus/domain/issue/IssueCategory.java:41-49 | the search from a position returns OTHER or a category whose code equals the given one, and finds one whenever a later value has that code |
| IssueCategory.CategoryOf | backend/src/main/java/com/example/GateStatus/domain/issue/IssueCategory.java:41-49 | a category other than OTHER is returned only for its own code; a null code gives OTHER |
| IssueCategory.IndexOf | backend/src/main/java/com/example/GateStatus/domain/issue/IssueCategory.java:5-22 | every category appears in values() |
| IssueCategory.NamedCode | backend/src/main/java/com/example/GateStatus/domain/issue/IssueCategory.java:5-22 | the code of each category names that category |
| IssueCategory.CodeInjective | backend/src/main/java/com/example/GateStatus/domain/issue/IssueCategory.java:5-22 | no two categories share a code |
| IssueCategory.CodeRoundTrip | backend/src/main/java/com/example/GateStatus/domain/issue/IssueCategory.java:41-49 | fromCode(c.getCode()) == c for every category |
| IssueCategory.UnknownCodeIsOther | backend/src/main/java/com/example/GateStatus/domain/issue/IssueCategory.java:48 | a code that belongs to no category gives OTHER |
| IssueCategory.IsSomeCode | backend/src/main/java/com/example/GateStatus/domain/issue/IssueCategory.java:41-49 | a text is some category's code exactly when fromCode finds a category other than OTHER, or the text is "OTHER" |
| IssueCategory.FromCode | backend/src/main/java/com/example/GateStatus/domain/issue/IssueCategory.java:41-49 | the loop over values() returns exactly CategoryOf(code) |
| IssueDocument.AddEachIsDistinct | backend/src/main/java/com/example/GateStatus/domain/issue/IssueDocument.java:83-111 | starting from a list without duplicates, any sequence of additions leaves the old list followed by the new ids in order of first appearance, each once |
| IssueDocument.RaisedViewCount | backend/src/main/java/com/example/GateStatus/domain/issue/IssueDocument.java:75-81 | a null counter becomes 1; a counter below Integer.MAX_VALUE rises by one; the result is always an `int` |
| IssueDocument.Updated | backend/src/main/java/com/example/GateStatus/domain/issue/IssueDocument.java:115-123 | a non-null new value replaces the field, a null one keeps it |
| IssueDocument.UpdatedIdempotent | backend/src/main/java/com/example/GateStatus/domain/issue/IssueDocument.java:113-124 | applying the same partial update twice has the effect of applying it once |
| IssueDocument.IssueDocument.IncrementViewCount | backend/src/main/java/com/example/GateStatus/domain/issue/IssueDocument.java:75-81 | the counter becomes RaisedViewCount of the old one and stays an `int`; no other field changes |
| IssueDocument.IssueDocument.AddRelatedStatement | backend/src/main/java/com/example/GateStatus/domain/issue/IssueDocument.java:83-91 | a null list starts empty; the id is appended exactly when absent; no other field changes |
| IssueDocument.IssueDocument.AddRelatedBill | backend/src/main/java/com/example/GateStatus/domain/issue/IssueDocument.java:93-101 | a null list starts empty; the id is appended exactly when absent; no other field changes |
| IssueDocument.IssueDocument.AddRelatedFigure | backend/src/main/java/com/example/GateStatus/domain/issue/IssueDocument.java:103-111 | a null list starts empty; the id is appended exactly when absent; no other field changes |
| IssueDocument.IssueDocument.Update | backend/src/main/java/com/example/GateStatus/domain/issue/IssueDocument.java:113-124 | each of the nine fields becomes Updated(old value, argument); nothing else changes |
| NewsApiService.TitleAndDescription | backend/src/main/java/com/example/GateStatus/domain/news/service/NewsApiService.java:239-261 | two present parts are joined by one space (a null part is rendered "null") |
| NewsApiService.CategoriesAreNotOther | backend/src/main/java/com/example/GateStatus/domain/news/service/NewsApiService.java:260-306 | no keyword group yields the fallback category "기타" |
| NewsApiService.CategorizeNewsFirstGroup | backend/src/main/java/com/example/GateStatus/domain/news/service/NewsApiService.java:260-306 | the category is "기타" exactly when no group's keyword occurs in the lower-cased text; otherwise it is the category of a group with a keyword present and no keyword of any earlier group present |
| NewsApiService.CategorizeNews | backend/src/main/java/com/example/GateStatus/domain/news/service/NewsApiService.java:260-306 | the category is "기타" or the category of one of the keyword groups |
| NewsApiService.PresidentialElectionIsPresidential | backend/src/main/java/com/example/GateStatus/domain/news/service/NewsApiService.java:263-267 | a text containing "대통령 선거" is filed under "대선", although it also contains "선거" |
| NewsApiService.ElectionNewsIsElectoral | backend/src/main/java/com/example/GateStatus/domain/news/service/NewsApiService.java:263-273 | a text containing "선거" is filed under "대선" or "선거" |
| NewsApiService.KeywordsFound | backend/src/main/java/com/example/GateStatus/domain/news/service/NewsApiService.java:315-319 | a keyword is collected exactly when its lower-cased form occurs in the lower-cased text |
| NewsApiService.KeywordsFoundInOrder | backend/src/main/java/com/example/GateStatus/domain/news/service/NewsApiService.java:315-319 | from a list without repetitions, the collected keywords have no repetitions and keep the list's order |
| NewsApiService.ExtractKeywordsBounds | backend/src/main/java/com/example/GateStatus/domain/news/service/NewsApiService.java:311-325 | at most ten distinct political keywords, each occurring in the lower-cased text; fewer than ten means every keyword that occurs is returned |
| NewsApiService.ExtractKeywordsOf | backend/src/main/java/com/example/GateStatus/domain/news/service/NewsApiService.java:311-325 | at most ten keywords, without repetitions |
| NewsApiService.PoliticalKeywordsDistinct | backend/src/main/java/com/example/GateStatus/domain/news/service/NewsApiService.java:57-60 | the political keyword list has no repetitions |
| NewsApiService.FirstTenInOrder | backend/src/main/java/com/example/GateStatus/domain/news/service/NewsApiService.java:321-324 | keeping the first ten distinct keywords found preserves the keyword list's order |
| NewsApiService.ExtractKeywordsInListOrder | backend/src/main/java/com/example/GateStatus/domain/news/service/NewsApiService.java:311-325 | extractKeywords returns keywords in the order of the political keyword list |
| NewsApiService.CollectKeywordsFound | backend/src/main/java/com/example/GateStatus/domain/news/service/NewsApiService.java:312-319 | the loop builds exactly KeywordsFound of the lower-cased text |
| NewsApiService.ExtractKeywords | backend/src/main/java/com/example/GateStatus/domain/news/service/NewsApiService.java:311-325 | the method returns exactly the distinct first ten keywords found |
| NewsApiService.PoliticalKeywordsAreLowerCase | backend/src/main/java/com/example/GateStatus/domain/news/service/NewsApiService.java:57-60 | lower-casing leaves every political keyword unchanged |
| NewsApiService.AddFound | backend/src/main/java/com/example/GateStatus/domain/news/service/NewsApiService.java:247-251 | the existing list is a prefix of the result; a keyword is added exactly when it occurs in the content; a list without repetitions stays so |
| NewsApiService.InitialKeywords | backend/src/main/java/com/example/GateStatus/domain/news/service/NewsApiService.java:233-239 | a non-blank search query is the first keyword |
| NewsApiService.ExtractedKeywordsOccur | backend/src/main/java/com/example/GateStatus/domain/news/service/NewsApiService.java:311-325 | every keyword extractKeywords returns occurs verbatim in the lower-cased text |
| NewsApiService.QueryThenFoundOccur | backend/src/main/java/com/example/GateStatus/domain/news/service/NewsApiService.java:235-239 | putting a non-blank query before found keywords adds only the query |
| NewsApiService.InitialKeywordsOccur | backend/src/main/java/com/example/GateStatus/domain/news/service/NewsApiService.java:233-239 | every keyword before the enhancement loop is the query or occurs in the content |
| NewsApiService.AddFoundOccurs | backend/src/main/java/com/example/GateStatus/domain/news/service/NewsApiService.java:247-252 | the enhancement loop and the final distinct add only keywords that occur in the content |
| NewsApiService.EnhancedKeywordsProperties | backend/src/main/java/com/example/GateStatus/domain/news/service/NewsApiService.java:232-253 | the stored keyword list has no repetitions, starts with a non-blank search query, and holds otherwise only keywords occurring in the lower-cased title and description |
| NewsApiService.EnhancedKeywordsOf | backend/src/main/java/com/example/GateStatus/domain/news/service/NewsApiService.java:232-253 | the keyword list stored with the news has no repetitions |
| NewsApiService.AddFoundKeywords | backend/src/main/java/com/example/GateStatus/domain/news/service/NewsApiService.java:247-251 | the loop computes exactly AddFound |
| NewsApiService.ExtractEnhancedKeywords | backend/src/main/java/com/example/GateStatus/domain/news/service/NewsApiService.java:232-253 | the method returns exactly the distinct list of query, extracted keywords and further keywords found |
| NewsSearchRequest.Make | backend/src/main/java/com/example/GateStatus/domain/news/dto/NewsSearchRequest.java:13-25 | every request is normalised; in-range display, start and sort are kept and out-of-range ones become 10, 1 and "date" |
| NewsSearchRequest.MakeKeepsNormalised | backend/src/main/java/com/example/GateStatus/domain/news/dto/NewsSearchRequest.java:13-25 | rebuilding a normalised request gives it back unchanged |
| NewsSearchRequest.Of | backend/src/main/java/com/example/GateStatus/domain/news/dto/NewsSearchRequest.java:27-29 | the request for a query is its first page of ten, sorted by date |
| NewsSearchRequest.NextPage | backend/src/main/java/com/example/GateStatus/domain/news/dto/NewsSearchRequest.java:31-33 | the next page keeps query, size and sort; it starts right after the current page while that is at most 100, else over at 1 |
| NewsSearchRequest.StartAfter | backend/src/main/java/com/example/GateStatus/domain/news/dto/NewsSearchRequest.java:31-33 | every page reached by paging starts between 1 and 100 |
| NewsSearchRequest.PagesAdvanceByDisplay | backend/src/main/java/com/example/GateStatus/domain/news/dto/NewsSearchRequest.java:31-33 | paging from the first position visits 1, 1+d, 1+2d, … while those stay within 100 |
| PoliticalAnalysisService.KeywordsOf | backend/src/main/java/com/example/GateStatus/domain/comparison/service/PoliticalAnalysisService.java:50-54 | every word kept after trimming passes the length, stopword, digits-only and letter filters |
| PoliticalAnalysisService.TextWords | backend/src/main/java/com/example/GateStatus/domain/comparison/service/PoliticalAnalysisService.java:46-54 | every word taken from the non-null, non-blank contents, split on whitespace runs, passes the filters |
| PoliticalAnalysisService.Tally | backend/src/main/java/com/example/GateStatus/domain/comparison/service/PoliticalAnalysisService.java:55-58 | each key is paired with its number of occurrences among the words |
| PoliticalAnalysisService.Ranking | backend/src/main/java/com/example/GateStatus/domain/comparison/service/PoliticalAnalysisService.java:59-61 | min(limit, number of distinct words) entries, sorted by count, highest first |
| PoliticalAnalysisService.RankingCounts | backend/src/main/java/com/example/GateStatus/domain/comparison/service/PoliticalAnalysisService.java:55-61 | every ranked entry is a word of the text paired with its exact, positive number of occurrences |
| PoliticalAnalysisService.AnalyzeKeywordsFromText | backend/src/main/java/com/example/GateStatus/domain/comparison/service/PoliticalAnalysisService.java:39-68 | a null or empty list gives an empty map; a negative limit throws; otherwise at most limit entries, each a filtered keyword with a positive count |
| PoliticalAnalysisService.AtMostOnce | backend/src/main/java/com/example/GateStatus/domain/comparison/service/PoliticalAnalysisService.java:55-58 | a list without repetitions holds each value at most once |
| PoliticalAnalysisService.TwiceAtTwoIndices | backend/src/main/java/com/example/GateStatus/domain/comparison/service/PoliticalAnalysisService.java:55-58 | a value standing at two indices occurs at least twice |
| PoliticalAnalysisService.RankingKeysDistinct | backend/src/main/java/com/example/GateStatus/domain/comparison/service/PoliticalAnalysisService.java:55-67 | no keyword appears twice in the ranking |
| PoliticalAnalysisService.RankingIsTop | backend/src/main/java/com/example/GateStatus/domain/comparison/service/PoliticalAnalysisService.java:59-61 | a word left out of the ranking occurs no more often than any word kept |
| PoliticalAnalysisService.LastEnderAtMost | backend/src/main/java/com/example/GateStatus/domain/comparison/service/PoliticalAnalysisService.java:274-285 | the result is -1 or the index, at most the bound, of '.', '!' or '?', and no such character lies between it and the bound |
| PoliticalAnalysisService.EnderOccursAt | backend/src/main/java/com/example/GateStatus/domain/comparison/service/PoliticalAnalysisService.java:276-279 | one of the three one-character enders occurs at an index exactly when that character is '.', '!' or '?' |
| PoliticalAnalysisService.FindLastSentenceEnd | backend/src/main/java/com/example/GateStatus/domain/comparison/service/PoliticalAnalysisService.java:274-285 | the loop over the three enders returns the largest index at most maxLength-3 of any of them, or -1 |
| PoliticalAnalysisService.EllipsisSummary | backend/src/main/java/com/example/GateStatus/domain/comparison/service/PoliticalAnalysisService.java:145-153 | a prefix followed by "..." is three characters longer than the prefix and ends in "..." |
| PoliticalAnalysisService.AbbreviateBounds | backend/src/main/java/com/example/GateStatus/domain/comparison/service/PoliticalAnalysisService.java:143-153 | a shortened text is a prefix of the trimmed text followed by "..."; for a limit of at least 3 it is always produced and no longer than the limit or than one past the sentence end searched |
| PoliticalAnalysisService.Abbreviate | backend/src/main/java/com/example/GateStatus/domain/comparison/service/PoliticalAnalysisService.java:143-153 | a shortened text is a prefix of the trimmed text followed by "...", and it never fails for a limit of at least 3 |
| PoliticalAnalysisService.SummarizeBounds | backend/src/main/java/com/example/GateStatus/domain/comparison/service/PoliticalAnalysisService.java:133-154 | null or blank gives ""; a trimmed text within the limit is returned; a longer one is shortened to a prefix plus "..." |
| PoliticalAnalysisService.Summarize | backend/src/main/java/com/example/GateStatus/domain/comparison/service/PoliticalAnalysisService.java:133-154 | null or blank gives ""; otherwise the trimmed text or a prefix of it followed by "..."; for a limit of at least 3 it succeeds and is within the limit or at most four characters past the sentence end found |
| PoliticalAnalysisService.SummarizeText | backend/src/main/java/com/example/GateStatus/domain/comparison/service/PoliticalAnalysisService.java:133-154 | null or blank gives ""; for a limit of at least 3 it succeeds with at most maxLength+1 characters |
| PoliticalAnalysisService.SummarizeTextBounds | backend/src/main/java/com/example/GateStatus/domain/comparison/service/PoliticalAnalysisService.java:133-154 | for a limit of at least 3 summarizeText always succeeds, with at most maxLength+1 characters |
| PoliticalAnalysisService.SummaryOverrun | backend/src/main/java/com/example/GateStatus/domain/comparison/service/PoliticalAnalysisService.java:143-145 | when the sentence end found is at maxLength-3, the summary has maxLength+1 characters |
| PoliticalAnalysisService.SummaryOverrunsByOne | backend/src/main/java/com/example/GateStatus/domain/comparison/service/PoliticalAnalysisService.java:143-145 | "abcd.efg" summarized to 7 characters gives the 8 characters "abcd...." |
| PoliticalAnalysisService.SummarizeTextWithinBounds | backend/src/main/java/com/example/GateStatus/domain/comparison/service/PoliticalAnalysisService.java:133-154 | with the sentence end searched from maxLength-4, every summary for a limit of at least 3 is at most maxLength long |
| PoliticalAnalysisService.SummarizeTextWithin | backend/src/main/java/com/example/GateStatus/domain/comparison/service/PoliticalAnalysisService.java:133-154 | as intended: null or blank gives "", and for a limit of at least 3 it succeeds within maxLength characters |
| PoliticalAnalysisService.FirstImportant | backend/src/main/java/com/example/GateStatus/domain/comparison/service/PoliticalAnalysisService.java:242-265 | the index of the first sentence with an important keyword, or -1 when none has one |
| PoliticalAnalysisService.ImportantSentenceOf | backend/src/main/java/com/example/GateStatus/domain/comparison/service/PoliticalAnalysisService.java:235-248 | null or blank gives ""; any other non-empty result ends with '.' |
| PoliticalAnalysisService.ImportantSentenceChoice | backend/src/main/java/com/example/GateStatus/domain/comparison/service/PoliticalAnalysisService.java:240-247 | the first sentence with an important keyword is chosen, else the first sentence; no sentences gives "" |
| PoliticalAnalysisService.ExtractImportantSentence | backend/src/main/java/com/example/GateStatus/domain/comparison/service/PoliticalAnalysisService.java:235-248 | the loop returns exactly ImportantSentenceOf(text) |
| PoliticalAnalysisService.CountResult | backend/src/main/java/com/example/GateStatus/domain/comparison/service/PoliticalAnalysisService.java:161-171 | no more votes of one result than votes |
| PoliticalAnalysisService.CalculateVoteStats | backend/src/main/java/com/example/GateStatus/domain/comparison/service/PoliticalAnalysisService.java:156-177 | null or empty gives all zeros; each count is the number of votes with that result; total is their sum |
| PoliticalAnalysisService.VoteStatsAccount | backend/src/main/java/com/example/GateStatus/domain/comparison/service/PoliticalAnalysisService.java:161-173 | every vote is counted once in the total except those with a null or UNKNOWN result |
| PoliticalAnalysisService.ResultsPartitionVotes | backend/src/main/java/com/example/GateStatus/domain/comparison/service/PoliticalAnalysisService.java:161-171 | the five results and null partition the votes |
| PoliticalAnalysisService.CountPassed | backend/src/main/java/com/example/GateStatus/domain/comparison/service/PoliticalAnalysisService.java:191-194 | no more passed bills than bills; none exactly when no bill is PASSED, all exactly when every bill is |
| PoliticalAnalysisService.CalculateBillStats | backend/src/main/java/com/example/GateStatus/domain/comparison/service/PoliticalAnalysisService.java:185-198 | null or empty gives (0, 0); total is the number of bills, passed is the number of PASSED bills, and 0 <= passed <= total |
| ProposedBill.StringList.constructor | backend/src/main/java/com/example/GateStatus/domain/proposedBill/ProposedBill.java:43-46 | a list object holding the given names |
| ProposedBill.ProposedBill.constructor | backend/src/main/java/com/example/GateStatus/domain/proposedBill/ProposedBill.java:14-49 | @NoArgsConstructor: a new bill has an empty co-proposer list of its own and a view count of 0; every other field is null |
| ProposedBill.ProposedBill.Built | backend/src/main/java/com/example/GateStatus/domain/proposedBill/ProposedBill.java:12-49 | @Builder and @AllArgsConstructor: every field is the value given, so the list and the counter are null unless given, and a given list is the caller's object itself |
| ProposedBill.ProposedBill.IncrementViewCount | backend/src/main/java/com/example/GateStatus/domain/proposedBill/ProposedBill.java:49-53 | a counter below Integer.MAX_VALUE rises by one and stays an `int`; a null counter throws on unboxing and is left as it was |
| ProposedBill.ProposedBill.SetCoProposers | backend/src/main/java/com/example/GateStatus/domain/proposedBill/ProposedBill.java:64-69 | clear-then-addAll: a bill without a list throws; otherwise a null argument empties the list, another list's names replace its contents, and the bill's own list ends up empty |
| ProposedBill.ProposedBill.SetCoProposersCopying | backend/src/main/java/com/example/GateStatus/domain/proposedBill/ProposedBill.java:64-69 | the intended replacement: a bill without a list throws; otherwise the list holds exactly the argument's names as they were before the call, or nothing for null |
| ProposedBill.ProposedBill.SetBillStatus | backend/src/main/java/com/example/GateStatus/domain/proposedBill/ProposedBill.java:56-58 | billStatus becomes the argument, null included; no other field changes |
| ProposedBill.ProposedBill.SetProposer | backend/src/main/java/com/example/GateStatus/domain/proposedBill/ProposedBill.java:60-62 | proposer becomes the argument, null included; no other field changes |
| ProposedBill.ProposedBill.SetBillNo | backend/src/main/java/com/example/GateStatus/domain/proposedBill/ProposedBill.java:72-74 | billNo becomes the argument, null included; no other field changes |
| ProposedBill.ProposedBill.SetBillName | backend/src/main/java/com/example/GateStatus/domain/proposedBill/ProposedBill.java:76-78 | billName becomes the argument, null included; no other field changes |
| ProposedBill.ProposedBill.SetProposeDate | backend/src/main/java/com/example/GateStatus/domain/proposedBill/ProposedBill.java:80-82 | proposeDate becomes the argument, null included; no other field changes |
| ProposedBill.ProposedBill.SetSummary | backend/src/main/java/com/example/GateStatus/domain/proposedBill/ProposedBill.java:84-86 | summary becomes the argument, null included; no other field changes |
| ProposedBill.ProposedBill.SetBillUrl | backend/src/main/java/com/example/GateStatus/domain/proposedBill/ProposedBill.java:88-90 | billUrl becomes the argument, null included; no other field changes |
| ProposedBill.ProposedBill.SetProcessDate | backend/src/main/java/com/example/GateStatus/domain/proposedBill/ProposedBill.java:92-94 | processDate becomes the argument, null included; no other field changes |
| ProposedBill.ProposedBill.SetProcessResult | backend/src/main/java/com/example/GateStatus/domain/proposedBill/ProposedBill.java:96-98 | processResult becomes the argument, null included; no other field changes |
| ProposedBill.ProposedBill.SetProcessResultCode | backend/src/main/java/com/example/GateStatus/domain/proposedBill/ProposedBill.java:100-102 | processResultCode becomes the argument, null included; no other field changes |
| ProposedBill.ProposedBill.SetCommittee | backend/src/main/java/com/example/GateStatus/domain/proposedBill/ProposedBill.java:104-106 | committee becomes the argument, null included; no other field changes |
| ProposedBill.OwnListIsEmptied | backend/src/main/java/com/example/GateStatus/domain/proposedBill/ProposedBill.java:64-69 | a bill given its own co-proposer list ["홍길동"] is left with an empty list |
| ProposedBill.OwnListIsKept | backend/src/main/java/com/example/GateStatus/domain/proposedBill/ProposedBill.java:64-69 | with the copying replacement the bill's own list is kept, and repeating a replacement changes nothing |
| ProposedBill.BuiltBillThrows | backend/src/main/java/com/example/GateStatus/domain/proposedBill/ProposedBill.java:45-69 | a bill built without a counter or a list throws on incrementViewCount and on setCoProposers |
| ProposedBill.BuiltListIsShared | backend/src/main/java/com/example/GateStatus/domain/proposedBill/ProposedBill.java:45-47 | a list handed to the builder stays shared: a name the caller adds afterwards is in the bill's list |
| ProposedBillApiService.ParseBillStatus | backend/src/main/java/com/example/GateStatus/domain/proposedBill/ProposedBillApiService.java:237-256 | a null or empty code gives PROPOSED; ALTERNATIVE and PROCESSING never come out; IN_COMMITTEE exactly when another code meets a result mentioning "위원회", IN_PLENARY exactly when it mentions "본회의" but not "위원회" |
| ProposedBillApiService.ApiStatusCode | backend/src/main/java/com/example/GateStatus/domain/proposedBill/ProposedBillApiService.java:242-246 | only PASSED, REJECTED, WITHDRAWN and EXPIRED have an API code |
| ProposedBillApiService.StatusCodeRoundTrip | backend/src/main/java/com/example/GateStatus/domain/proposedBill/ProposedBillApiService.java:242-246 | codes "1" to "4" and the four final statuses correspond one to one, whatever the processing result |
| ProposedBillApiService.TrimWithin | backend/src/main/java/com/example/GateStatus/domain/proposedBill/ProposedBillApiService.java:323 | trimming adds no character |
| ProposedBillApiService.NonEmptyTrimmed | backend/src/main/java/com/example/GateStatus/domain/proposedBill/ProposedBillApiService.java:322-325 | every kept name is trimmed and not empty, and there are no more names than pieces |
| ProposedBillApiService.NonEmptyTrimmedAvoids | backend/src/main/java/com/example/GateStatus/domain/proposedBill/ProposedBillApiService.java:322-325 | a character absent from every piece is absent from every name |
| ProposedBillApiService.NonEmptyTrimmedKeepsAll | backend/src/main/java/com/example/GateStatus/domain/proposedBill/ProposedBillApiService.java:323-324 | every piece that is not blank is kept, in trimmed form |
| ProposedBillApiService.CoProposersOf | backend/src/main/java/com/example/GateStatus/domain/proposedBill/ProposedBillApiService.java:316-326 | a null or empty text gives no names; no name is empty, has surrounding whitespace or contains a comma |
| ProposedBillApiService.SliceOfJoined | backend/src/main/java/com/example/GateStatus/domain/proposedBill/ProposedBillApiService.java:322 | where a text holds a name, a comma and the rest, the comma sits right after the name |
| ProposedBillApiService.PiecesOfLastName | backend/src/main/java/com/example/GateStatus/domain/proposedBill/ProposedBillApiService.java:322 | a name without a comma is a single piece |
| ProposedBillApiService.PiecesOfNextName | backend/src/main/java/com/example/GateStatus/domain/proposedBill/ProposedBillApiService.java:322 | a name followed by a comma is one piece, and splitting continues after the comma |
| ProposedBillApiService.PiecesOfJoined | backend/src/main/java/com/example/GateStatus/domain/proposedBill/ProposedBillApiService.java:322 | splitting names joined by commas gives the names back, piece by piece |
| ProposedBillApiService.PlainNamesKept | backend/src/main/java/com/example/GateStatus/domain/proposedBill/ProposedBillApiService.java:323-324 | trimming and dropping empties keeps a list of plain names unchanged |
| ProposedBillApiService.SplitOfJoined | backend/src/main/java/com/example/GateStatus/domain/proposedBill/ProposedBillApiService.java:322 | split(",") of plain names joined by commas gives exactly those names |
| ProposedBillApiService.CoProposersRoundTrip | backend/src/main/java/com/example/GateStatus/domain/proposedBill/ProposedBillApiService.java:316-326 | parsing names joined by commas gives back exactly those names, in order |
| ProposedBillApiService.IsValidBillDto | backend/src/main/java/com/example/GateStatus/domain/proposedBill/ProposedBillApiService.java:391-393 | a row is valid exactly when billId and billName are present and each has a character above U+0020 |
| Split.SpacesFrom | backend/src/main/java/com/example/GateStatus/domain/comparison/service/PoliticalAnalysisService.java:49 | the run of `\s` characters from a position is maximal |
| Split.MatchLength | backend/src/main/java/com/example/GateStatus/domain/comparison/service/PoliticalAnalysisService.java:49 | a separator match from a position stays within the text |
| Split.Pieces | backend/src/main/java/com/example/GateStatus/domain/proposedBill/ProposedBillApiService.java:322 | scanning always yields at least one piece |
| Split.DropTrailingEmpty | backend/src/main/java/com/example/GateStatus/domain/proposedBill/ProposedBillApiService.java:322 | split with limit 0 drops exactly the trailing empty pieces, and the result ends in a non-empty piece or is empty |
| Split.JavaSplit | backend/src/main/java/com/example/GateStatus/domain/proposedBill/ProposedBillApiService.java:322 | split with limit 0: "" gives [""]; the result is the scanned pieces with only trailing empty ones dropped, and it ends in a non-empty piece unless it has one piece or none |
| Split.PiecesAllEmpty | backend/src/main/java/com/example/GateStatus/domain/proposedBill/ProposedBillApiService.java:322 | scanning for a one-character separator gives only empty pieces exactly when nothing is pending and only separators remain |
| Split.PiecesSplitOnMatch | backend/src/main/java/com/example/GateStatus/domain/proposedBill/ProposedBillApiService.java:322 | a separator found ahead gives at least two pieces |
| Split.DropTrailingEmptyAll | backend/src/main/java/com/example/GateStatus/domain/proposedBill/ProposedBillApiService.java:322 | dropping trailing empties leaves nothing exactly when every piece is empty |
| Split.SplitOnCharEmpty | backend/src/main/java/com/example/GateStatus/domain/proposedBill/ProposedBillApiService.java:322 | split on one character gives no pieces exactly when the text is non-empty and consists of that character only |
| Split.PiecesWithoutMatch | backend/src/main/java/com/example/GateStatus/domain/proposedBill/ProposedBillApiService.java:322 | without the separator further on, the pending piece runs to the end of the text |
| Split.SplitWithoutMatch | backend/src/main/java/com/example/GateStatus/domain/proposedBill/ProposedBillApiService.java:322 | a text without the separator splits into itself alone |
| Split.PiecesAvoidSeparator | backend/src/main/java/com/example/GateStatus/domain/proposedBill/ProposedBillApiService.java:322 | no piece scanned contains the separator character |
| Split.SplitAvoidsSeparator | backend/src/main/java/com/example/GateStatus/domain/proposedBill/ProposedBillApiService.java:322 | no piece of split(c) contains c |
| Split.PiecesSkip | backend/src/main/java/com/example/GateStatus/domain/proposedBill/ProposedBillApiService.java:322 | positions without the separator do not end the pending piece |
| StatementApiMapper.IsInvalidContent | backend/src/main/java/com/example/GateStatus/domain/statement/service/StatementApiMapper.java:188-191 | a statement is invalid exactly when the title is null or blank, the content is null or blank, or the content is shorter than 10 characters |
| StatementApiMapper.DashOthers | backend/src/main/java/com/example/GateStatus/domain/statement/service/StatementApiMapper.java:213 | every character outside `[a-zA-Z0-9가-힣]` becomes '-', the others are kept, and the length is unchanged |
| StatementApiMapper.CollapseDashes | backend/src/main/java/com/example/GateStatus/domain/statement/service/StatementApiMapper.java:214 | the result has no "--", adds no character, keeps the first character and is no longer; a text without "--" is unchanged |
| StatementApiMapper.CollapseKeepsNonDashes | backend/src/main/java/com/example/GateStatus/domain/statement/service/StatementApiMapper.java:214 | collapsing removes only dashes: the other characters stay, in order |
| StatementApiMapper.CollapseDoubleDash | backend/src/main/java/com/example/GateStatus/domain/statement/service/StatementApiMapper.java:214 | a "--" anywhere collapses as a single '-' would: CollapseDashes(a + "--" + b) == CollapseDashes(a + "-" + b) |
| StatementApiMapper.DashOthersKeepsSlugChars | backend/src/main/java/com/example/GateStatus/domain/statement/service/StatementApiMapper.java:213 | replacing the other characters by '-' leaves the slug characters, in order, between the dashes |
| StatementApiMapper.Slug | backend/src/main/java/com/example/GateStatus/domain/statement/service/StatementApiMapper.java:206-214 | the slug has at most 50 characters, no "--", only slug characters and '-', and its characters other than '-' are exactly the slug characters of the first 50 characters of the title, in order |
| StatementApiMapper.GenerateOriginalUrl | backend/src/main/java/com/example/GateStatus/domain/statement/service/StatementApiMapper.java:201-217 | the URL starts with "https://assembly.news.go.kr/news/"; after it come the date's digits (only digits), then '/', then the slug, which has at most 50 characters and no "--" |
| StatementApiMapper.UrlOfIsoDate | backend/src/main/java/com/example/GateStatus/domain/statement/service/StatementApiMapper.java:201-217 | a date written "yyyy-MM-dd" gives the URL prefix, then "yyyyMMdd", '/' and the slug |
| StatementApiMapper.DashedDateDigits | backend/src/main/java/com/example/GateStatus/domain/statement/service/StatementApiMapper.java:203 | the digits kept from "yyyy-MM-dd" are "yyyyMMdd" |
| StatementApiMapper.DetermineTypeCodeFromContent | backend/src/main/java/com/example/GateStatus/domain/statement/service/StatementApiMapper.java:224-245 | "OTHER" exactly when no group's keyword occurs in the lower-cased content; otherwise the code of a group with a keyword present and none of any earlier group |
| StatementApiMapper.DetermineStatementType | backend/src/main/java/com/example/GateStatus/domain/statement/service/StatementApiMapper.java:385-406 | OTHER exactly when the code is not one of the eight API codes |
| StatementApiMapper.TypeCode | backend/src/main/java/com/example/GateStatus/domain/statement/service/StatementApiMapper.java:386-402 | every type except OTHER has an API code |
| StatementApiMapper.StatementTypeRoundTrip | backend/src/main/java/com/example/GateStatus/domain/statement/service/StatementApiMapper.java:386-405 | the eight codes and the eight types other than OTHER correspond one to one |
| StatementApiMapper.ContentNeverMedia | backend/src/main/java/com/example/GateStatus/domain/statement/service/StatementApiMapper.java:224-245 | a type guessed from the content is never MEDIA_COMMENT, since no group yields "MEDIA" |
| StatementApiMapper.TotalOccurrencesZero | backend/src/main/java/com/example/GateStatus/domain/statement/service/StatementApiMapper.java:331-343 | the count is zero exactly when no word occurs in the lower-cased text |
| StatementApiMapper.CountWords | backend/src/main/java/com/example/GateStatus/domain/statement/service/StatementApiMapper.java:331-343 | the loop returns the sum over the words of their non-overlapping occurrences in the lower-cased text |
| StatementApiMapper.PhraseCandidatesShape | backend/src/main/java/com/example/GateStatus/domain/statement/service/StatementApiMapper.java:349-354 | every candidate phrase is trimmed and has 6 to 49 characters |
| StatementApiMapper.KeyPhrasesOf | backend/src/main/java/com/example/GateStatus/domain/statement/service/StatementApiMapper.java:345-356 | at most five phrases, each trimmed with 6 to 49 characters |
| StatementApiMapper.PhraseCandidatesStep | backend/src/main/java/com/example/GateStatus/domain/statement/service/StatementApiMapper.java:349-354 | one more part adds its trimmed form exactly when that has 6 to 49 characters |
| StatementApiMapper.CollectPhraseCandidates | backend/src/main/java/com/example/GateStatus/domain/statement/service/StatementApiMapper.java:349-354 | the loop keeps exactly the trimmed parts of 6 to 49 characters, in order |
| StatementApiMapper.ExtractKeyPhrases | backend/src/main/java/com/example/GateStatus/domain/statement/service/StatementApiMapper.java:345-356 | the method returns exactly KeyPhrasesOf(content) |
| StatementApiMapper.TrimKeepsLast | backend/src/main/java/com/example/GateStatus/domain/statement/service/StatementApiMapper.java:372 | trimming keeps a final character that is not whitespace |
| StatementApiMapper.CheckableItem | backend/src/main/java/com/example/GateStatus/domain/statement/service/StatementApiMapper.java:372 | every item ends with '.' |
| StatementApiMapper.CheckableItems | backend/src/main/java/com/example/GateStatus/domain/statement/service/StatementApiMapper.java:366-374 | no more items than sentences, each ending with '.' |
| StatementApiMapper.CheckableItemsOf | backend/src/main/java/com/example/GateStatus/domain/statement/service/StatementApiMapper.java:358-377 | null or empty content gives no items; otherwise at most three, each ending with '.' |
| StatementApiMapper.ExtractCheckableItems | backend/src/main/java/com/example/GateStatus/domain/statement/service/StatementApiMapper.java:358-377 | the loop returns exactly CheckableItemsOf(content) |
| StatementRelevanceService.CountOccurrences | backend/src/main/java/com/example/GateStatus/domain/statement/service/StatementRelevanceService.java:124-134 | for a non-empty pattern the loop counts exactly the non-overlapping occurrences, each search resuming past the previous match |
| StatementRelevanceService.FirstDot | backend/src/main/java/com/example/GateStatus/domain/statement/service/StatementRelevanceService.java:120 | the index of the first '.', or -1 when there is none |
| StatementRelevanceService.GetFirstSentence | backend/src/main/java/com/example/GateStatus/domain/statement/service/StatementRelevanceService.java:119-122 | the result is a prefix of the text; when the first '.' is at index k > 0 the result is exactly the text through index k; when the text starts with '.' or has no '.' after index 0 it is returned whole |
| StatementRelevanceService.TitleScore | backend/src/main/java/com/example/GateStatus/domain/statement/service/StatementRelevanceService.java:76-84 | the title contributes 0, 5 or 10: more than 0 exactly when it contains the name, 10 exactly when it starts with it |
| StatementRelevanceService.ContentScore | backend/src/main/java/com/example/GateStatus/domain/statement/service/StatementRelevanceService.java:86-110 | the content contributes at least one point per occurrence of the name |
| StatementRelevanceService.RelevanceScore | backend/src/main/java/com/example/GateStatus/domain/statement/service/StatementRelevanceService.java:73-113 | a whole, non-negative score; 0 when title and content are both null; never below the title's part; an empty name is allowed when the content is null |
| StatementRelevanceService.AbsentNameScoresZero | backend/src/main/java/com/example/GateStatus/domain/statement/service/StatementRelevanceService.java:73-113 | a name found in neither title nor content scores 0 |
| StatementRelevanceService.ExtensionContains | backend/src/main/java/com/example/GateStatus/domain/statement/service/StatementRelevanceService.java:95-102 | a text containing the name followed by anything contains the name |
| StatementRelevanceService.PrefixContains | backend/src/main/java/com/example/GateStatus/domain/statement/service/StatementRelevanceService.java:108-109 | a first sentence containing the name means the content contains it |
| StatementRelevanceService.NameInContentScores | backend/src/main/java/com/example/GateStatus/domain/statement/service/StatementRelevanceService.java:86-92 | a name occurring in the content is worth at least one point |
| StatementRelevanceService.CalculateRelevanceScore | backend/src/main/java/com/example/GateStatus/domain/statement/service/StatementRelevanceService.java:73-113 | the running score the method accumulates equals RelevanceScore |
| StatementRelevanceService.SuffixMentionsAll | backend/src/main/java/com/example/GateStatus/domain/statement/service/StatementRelevanceService.java:95-99 | the loop over the five title forms counts the same mentions as their sum |
| StatementRelevanceService.IsMainSpeaker | backend/src/main/java/com/example/GateStatus/domain/statement/service/StatementRelevanceService.java:136-139 | a main speaker exactly when the score is at least 10, so a title that starts with the name always qualifies |
| StatementRelevanceService.Scored | backend/src/main/java/com/example/GateStatus/domain/statement/service/StatementRelevanceService.java:47-48 | each statement is paired with its own relevance score, in order |
| StatementRelevanceService.RankByRelevance | backend/src/main/java/com/example/GateStatus/domain/statement/service/StatementRelevanceService.java:47-50 | the scored statements, each exactly once, sorted by non-increasing score |
| StatementSearchCriteria.StatementSearchCriteria.WithType | backend/src/main/java/com/example/GateStatus/domain/statement/service/response/StatementSearchCriteria.java:48-50 | the statement kind filter becomes the argument and every other field is kept |
| StatementSearchCriteria.StatementSearchCriteria.WithSource | backend/src/main/java/com/example/GateStatus/domain/statement/service/response/StatementSearchCriteria.java:55-57 | the source filter becomes the argument and every other field is kept |
| StatementSearchCriteria.StatementSearchCriteria.WithPeriod | backend/src/main/java/com/example/GateStatus/domain/statement/service/response/StatementSearchCriteria.java:62-64 | the two dates become the arguments and every other field is kept |
| StatementSearchCriteria.StatementSearchCriteria.WithLimit | backend/src/main/java/com/example/GateStatus/domain/statement/service/response/StatementSearchCriteria.java:66-68 | the limit becomes the argument and every other field is kept |
| StatementSearchCriteria.Keyword | backend/src/main/java/com/example/GateStatus/domain/statement/service/response/StatementSearchCriteria.java:23-25 | a full-text search on the keyword, no other query, no filter, limit 50 |
| StatementSearchCriteria.ExactPhrase | backend/src/main/java/com/example/GateStatus/domain/statement/service/response/StatementSearchCriteria.java:30-32 | an exact-phrase search on the phrase, no other query, no filter, limit 50 |
| StatementSearchCriteria.MultipleKeywords | backend/src/main/java/com/example/GateStatus/domain/statement/service/response/StatementSearchCriteria.java:37-39 | a multiple-keyword search on the list, no other query, no filter, limit 50 |
| StatementSearchCriteria.Recent | backend/src/main/java/com/example/GateStatus/domain/statement/service/response/StatementSearchCriteria.java:44-46 | a RECENT search on the keyword with the given limit and no filter |
| StatementSearchCriteria.Empty | backend/src/main/java/com/example/GateStatus/domain/statement/service/response/StatementSearchCriteria.java:105-107 | the empty criteria are the keyword search with a null keyword |
| StatementSearchCriteria.FromParams | backend/src/main/java/com/example/GateStatus/domain/statement/service/response/StatementSearchCriteria.java:73-100 | exactly one query is set and the search type names it: a non-empty phrase wins, then a non-empty keyword list, else a full-text search with a null keyword read as ""; the filters pass through; a null limit becomes 50 |
| StatementSearchCriteria.CopiesKeepSingleQuery | backend/src/main/java/com/example/GateStatus/domain/statement/service/response/StatementSearchCriteria.java:48-68 | the copy-with operations keep a criteria's single query |
| StatementSearchCriteria.CopiesCommute | backend/src/main/java/com/example/GateStatus/domain/statement/service/response/StatementSearchCriteria.java:48-68 | replacing two different filters gives the same criteria in either order |
| StatementSearchCriteria.CopiesOverwrite | backend/src/main/java/com/example/GateStatus/domain/statement/service/response/StatementSearchCriteria.java:48-68 | the last replacement of a filter is the one that counts |
| SyncJobStatus.SyncJobStatus.constructor | backend/src/main/java/com/example/GateStatus/domain/common/SyncJobStatus.java:10-25 | a new job keeps its id, has every counter at 0, and neither flag set |
| SyncJobStatus.SyncJobStatus.IncrementCompletedTasks | backend/src/main/java/com/example/GateStatus/domain/common/SyncJobStatus.java:27-29 | completedTasks rises by one as a Java `int` (wrapping at Integer.MAX_VALUE); nothing else changes |
| SyncJobStatus.SyncJobStatus.IncrementSuccessCount | backend/src/main/java/com/example/GateStatus/domain/common/SyncJobStatus.java:31-33 | successCount rises by one as a Java `int`; nothing else changes |
| SyncJobStatus.SyncJobStatus.IncrementFailCount | backend/src/main/java/com/example/GateStatus/domain/common/SyncJobStatus.java:35-37 | failCount rises by one as a Java `int`; nothing else changes |
| SyncJobStatus.SyncJobStatus.AddSyncCount | backend/src/main/java/com/example/GateStatus/domain/common/SyncJobStatus.java:49-51 | syncCount grows by count, exactly when the sum fits in an `int` and wrapped otherwise; nothing else changes |
| SyncJobStatus.SyncJobStatus.SetTotalTasks | backend/src/main/java/com/example/GateStatus/domain/common/SyncJobStatus.java:8-11 | only totalTasks changes, to the argument |
| SyncJobStatus.SyncJobStatus.SetCompleted | backend/src/main/java/com/example/GateStatus/domain/common/SyncJobStatus.java:8-16 | only the completed flag changes, to the argument |
| SyncJobStatus.SyncJobStatus.SetError | backend/src/main/java/com/example/GateStatus/domain/common/SyncJobStatus.java:8-17 | only the error flag changes, to the argument |
| SyncJobStatus.SyncJobStatus.SetErrorMessage | backend/src/main/java/com/example/GateStatus/domain/common/SyncJobStatus.java:8-18 | only the error message changes, to the argument |
| SyncJobStatus.SyncJobStatus.ProgressPercentage | backend/src/main/java/com/example/GateStatus/domain/common/SyncJobStatus.java:39-42 | 100 when there are no tasks; otherwise, with 0 <= completed <= total, the floor of completed*100/total, between 0 and 100 |
| SyncJobStatus.SyncJobStatus.IsAllTasksCompleted | backend/src/main/java/com/example/GateStatus/domain/common/SyncJobStatus.java:57-59 | with tasks to do, all are completed exactly when the progress reaches 100; without tasks, and no negative completed count, it holds |
| SyncJobStatus.PercentBounds | backend/src/main/java/com/example/GateStatus/domain/common/SyncJobStatus.java:41 | the floor of completed*100/total lies between 0 and 100 when 0 <= completed <= total |
| SyncJobStatus.MulMonotone | backend/src/main/java/com/example/GateStatus/domain/common/SyncJobStatus.java:41 | multiplying by a positive number keeps the order |
| SyncJobStatus.PercentReachesHundred | backend/src/main/java/com/example/GateStatus/domain/common/SyncJobStatus.java:41-58 | the truncated percentage reaches 100 exactly when completed >= total |
| SyncJobStatus.FullProgressMeansAllCompleted | backend/src/main/java/com/example/GateStatus/domain/common/SyncJobStatus.java:39-59 | with tasks to do, the progress reaches 100 exactly when isAllTasksCompleted holds |
| ValidationService.ValidateFigureId | backend/src/main/java/com/example/GateStatus/domain/common/ValidationService.java:26-42 | an id is accepted exactly when it is present, between 1 and 999999 and stored; an id above 999999 is rejected as invalid before any lookup |
| ValidationService.FirstInvalidId | backend/src/main/java/com/example/GateStatus/domain/common/ValidationService.java:60-66 | the position the loop stops at: every earlier id is present and positive, and the id there (if any) is null or not positive |
| ValidationService.FirstInvalidAt | backend/src/main/java/com/example/GateStatus/domain/common/ValidationService.java:60-66 | a position before which all ids are valid and at which the id is invalid is the first invalid position |
| ValidationService.FindDuplicates | backend/src/main/java/com/example/GateStatus/domain/common/ValidationService.java:273-278 | an item is reported exactly when it occurs at least twice in the list |
| ValidationService.DistinctSize | backend/src/main/java/com/example/GateStatus/domain/common/ValidationService.java:68-69 | the set of a list's elements is never larger than the list, and equally large exactly when no element repeats, so the size comparison detects duplicates |
| ValidationService.FigureIdListAccepts | backend/src/main/java/com/example/GateStatus/domain/common/ValidationService.java:44-87 | a list is accepted exactly when it is non-null, non-empty, its size is within [minCount, maxCount], every id is present and positive, no id repeats, and (when existence is checked) every id is stored |
| ValidationService.FigureIdListVerdict | backend/src/main/java/com/example/GateStatus/domain/common/ValidationService.java:44-87 | a null or empty list is rejected as missing, a non-empty list below minCount as too short, and an accepted list has a size in [minCount, maxCount] and only valid ids |
| ValidationService.DuplicateReasonIsExact | backend/src/main/java/com/example/GateStatus/domain/common/ValidationService.java:68-72 | a rejection for repeated ids names a non-empty set, exactly the ids occurring twice or more |
| ValidationService.ValidateFigureIdList | backend/src/main/java/com/example/GateStatus/domain/common/ValidationService.java:44-87 | the loop over the ids, the HashSet size check and the duplicate search reach the same verdict as the specification of the checks in order |
| ValidationService.AnniversaryYears | backend/src/main/java/com/example/GateStatus/domain/common/ValidationService.java:151 | the same day and month k years later is exactly k years apart under ChronoUnit.YEARS.between |
| ValidationService.YearsBetween | backend/src/main/java/com/example/GateStatus/domain/common/ValidationService.java:151 | ChronoUnit.YEARS.between is non-negative for an end no earlier than the start, non-positive for one no later, and 0 for dates less than a year apart |
| ValidationService.DateRangeVerdict | backend/src/main/java/com/example/GateStatus/domain/common/ValidationService.java:114-159 | two null dates are accepted, exactly one null is rejected, and an accepted range starts no later than it ends, not before 2000-01-01, neither date after today, and spans at most maxYears whole years |
| ValidationService.DateRangeAccepts | backend/src/main/java/com/example/GateStatus/domain/common/ValidationService.java:114-159 | conversely, a range meeting all those limits is accepted |
| ValidationService.FigureNameVerdict | backend/src/main/java/com/example/GateStatus/domain/common/ValidationService.java:180-198 | a name is accepted exactly when its trimmed form has 2 to 10 characters, all Hangul syllables, Latin letters, digits or whitespace |
| ValidationService.UnknownCategoryAccepted | backend/src/main/java/com/example/GateStatus/domain/common/ValidationService.java:203-211 | as written, the unknown code "BOGUS" is mapped to OTHER by fromCode and the check accepts it |
| ValidationService.CategoryCodeVerdict | backend/src/main/java/com/example/GateStatus/domain/common/ValidationService.java:203-211 | as written, every code is accepted, because fromCode never throws |
| ValidationService.CategoryCodeVerdictStrict | backend/src/main/java/com/example/GateStatus/domain/common/ValidationService.java:203-211 | as intended: a code is accepted exactly when it is null or blank, or its trimmed form is the code of some category |
| ValidationService.PaginationVerdict | backend/src/main/java/com/example/GateStatus/domain/common/ValidationService.java:218-232 | accepted exactly when the page is null or non-negative and the size is null or between 1 and 100 |
| VoteResultType.FromString | backend/src/main/java/com/example/GateStatus/domain/vote/VoteResultType.java:21-31 | null reads as UNKNOWN; the trimmed labels 찬성, 반대 read as AGREE and DISAGREE, both 기권 and 불참 read as ABSTAIN, anything else as UNKNOWN, so ABSENT never results |
| VoteResultType.AbsentLabelReadsAsAbstain | backend/src/main/java/com/example/GateStatus/domain/vote/VoteResultType.java:8-28 | as written, the display name of ABSENT is read back as ABSTAIN |
| VoteResultType.FromStringCorrected | backend/src/main/java/com/example/GateStatus/domain/vote/VoteResultType.java:21-31 | as intended: 불참 reads as ABSENT, 기권 alone as ABSTAIN, and every other label as fromString reads it |
| VoteResultType.CorrectedReadsDisplayName | backend/src/main/java/com/example/GateStatus/domain/vote/VoteResultType.java:5-31 | every value but UNKNOWN is read back from its own display name by the corrected reading |
| Collections.SortedDescPairwise | backend/src/main/java/com/example/GateStatus/domain/comparison/service/PoliticalAnalysisService.java:59 | in a list sorted by descending count, every earlier count is at least every later one |
| Collections.InsertDesc | backend/src/main/java/com/example/GateStatus/domain/comparison/service/PoliticalAnalysisService.java:59 | inserting into a descending list keeps it descending and adds exactly the one entry |
| Collections.SortDesc | backend/src/main/java/com/example/GateStatus/domain/comparison/service/PoliticalAnalysisService.java:59 | the sort by count, highest first, yields a descending list that is a permutation of its input |
| Collections.TopOfSorted | backend/src/main/java/com/example/GateStatus/domain/comparison/service/PoliticalAnalysisService.java:59-60 | an entry left out of the first n of a sorted list counts no more than any entry kept |
| Collections.FirstIndex | backend/src/main/java/com/example/GateStatus/domain/news/service/NewsApiService.java:252 | the first position at which an element occurs: it is there and at no earlier position |
| Collections.Distinct | backend/src/main/java/com/example/GateStatus/domain/news/service/NewsApiService.java:321-324 | stream().distinct(): no repetitions, the same elements as the input, and no longer |
| Collections.FirstIndexOfPrefix | backend/src/main/java/com/example/GateStatus/domain/news/service/NewsApiService.java:252 | an element occurring in a prefix first occurs at the same position in the whole list |
| Collections.DistinctKeepsFirstOrder | backend/src/main/java/com/example/GateStatus/domain/news/service/NewsApiService.java:321-324 | distinct() keeps elements in the order of their first occurrence |
| Collections.Take | backend/src/main/java/com/example/GateStatus/domain/news/service/NewsApiService.java:323 | stream().limit(n): a prefix of the list of length min(n, size) |
| Collections.AddIfAbsent | backend/src/main/java/com/example/GateStatus/domain/issue/IssueDocument.java:88-90 | add-if-not-contained: the element is present afterwards, the list only grows at the end, by at most that element, it is unchanged exactly when the element was present, and it stays duplicate-free |
| Collections.AddIfAbsentIdempotent | backend/src/main/java/com/example/GateStatus/domain/issue/IssueDocument.java:88-90 | adding the same element twice gives the list that adding it once gives |
| Collections.DistinctOfDistinct | backend/src/main/java/com/example/GateStatus/domain/news/service/NewsApiService.java:252 | a list without repetitions is unchanged by distinct() |
| Collections.DistinctHead | backend/src/main/java/com/example/GateStatus/domain/news/service/NewsApiService.java:321-324 | distinct() keeps the first element in front |
| Strings.Lower | backend/src/main/java/com/example/GateStatus/domain/statement/service/StatementApiMapper.java:333 | String.toLowerCase keeps the length and lowers each character, changing only the ASCII capitals |
| Strings.Trim | backend/src/main/java/com/example/GateStatus/domain/common/ValidationService.java:181-185 | String.trim: the result is a slice s[i..j] of the text with only characters up to U+0020 outside it and none at either end of it; a text already without them is unchanged; the result is empty exactly when every character is one of them |
| Strings.TrimmedSlice | backend/src/main/java/com/example/GateStatus/domain/common/ValidationService.java:181-185 | trimming cuts characters up to U+0020 off the two ends only: the result is a slice with blank text before and after it |
| Strings.BlankTrimsToEmpty | backend/src/main/java/com/example/GateStatus/domain/common/ValidationService.java:181 | a text is blank exactly when trimming leaves nothing |
| Strings.IsPresent | backend/src/main/java/com/example/GateStatus/domain/figure/service/FigureMapper.java:137-138 | `s != null && !s.isEmpty()` holds exactly for a non-null, non-empty text |
| Strings.IndexFrom | backend/src/main/java/com/example/GateStatus/domain/statement/service/StatementApiMapper.java:336 | String.indexOf(p, from) is -1 or a position at or after from where p occurs |
| Strings.IndexFromIsFirst | backend/src/main/java/com/example/GateStatus/domain/statement/service/StatementApiMapper.java:336 | no occurrence of p starts between from and the index found, nor anywhere after from when -1 is returned |
| Strings.Contains | backend/src/main/java/com/example/GateStatus/domain/news/service/NewsApiService.java:248 | String.contains holds exactly when p occurs at some position |
| Strings.ContainsChar | backend/src/main/java/com/example/GateStatus/domain/career/CareerParser.java:88-95 | a one-character text is contained exactly when that character occurs |
| Strings.LastIndexAtMost | backend/src/main/java/com/example/GateStatus/domain/comparison/service/PoliticalAnalysisService.java:279 | String.lastIndexOf(p, from) is -1 or the last position at or before from where p occurs |
| Strings.StartsWith | backend/src/main/java/com/example/GateStatus/domain/figure/service/FigureMapper.java:444 | String.startsWith holds exactly when p occurs at position 0 |
| Strings.EndsWith | backend/src/main/java/com/example/GateStatus/domain/statement/service/StatementApiMapper.java:372 | String.endsWith holds exactly when p occurs at the last possible position |
| Strings.ContainsAny | backend/src/main/java/com/example/GateStatus/domain/news/service/NewsApiService.java:263-265 | a chain of `contains` tests joined by || holds exactly when some keyword occurs |
| Strings.Replace | backend/src/main/java/com/example/GateStatus/global/config/open/HtmlEntitiesDecoder.java:18-26 | String.replace changes nothing when the first character of the target is absent, and never lengthens a text when the replacement is no longer than the target |
| Strings.ReplaceKeepsPlainPrefix | backend/src/main/java/com/example/GateStatus/global/config/open/HtmlEntitiesDecoder.java:18-26 | text without the target's first character is copied and the scan goes on after it: Replace(a + b) == a + Replace(b) |
| Strings.ReplaceOccurrence | backend/src/main/java/com/example/GateStatus/global/config/open/HtmlEntitiesDecoder.java:18-26 | an occurrence of the target after such text is replaced and the scan resumes after it: Replace(a + t + b) == a + rep + Replace(b) |
| Strings.CountFromStep | backend/src/main/java/com/example/GateStatus/domain/statement/service/StatementApiMapper.java:333-340 | the indexOf loop's count: none when indexOf finds nothing, otherwise one plus the count resuming past the match |
| Strings.Occurrences | backend/src/main/java/com/example/GateStatus/domain/statement/service/StatementApiMapper.java:331-343 | the number of non-overlapping occurrences is positive exactly when the text contains the word |
| Strings.KeepDigits | backend/src/main/java/com/example/GateStatus/domain/statement/service/StatementApiMapper.java:203 | `replaceAll("[^0-9]", "")` leaves only digits, is no longer, leaves a text of digits unchanged, and turns a single non-digit into the empty text; with KeepDigitsAppend this fixes the result on every input |
| Strings.KeepDigitsAppend | backend/src/main/java/com/example/GateStatus/domain/statement/service/StatementApiMapper.java:203 | removing non-digits from a concatenation removes them from each part separately |
| Strings.NatToString | backend/src/main/java/com/example/GateStatus/domain/career/CareerParser.java:158 | Integer.toString of a non-negative number is a non-empty run of digits whose value is the number, "0" exactly for zero and otherwise without a leading zero |
| Strings.IntToString | backend/src/main/java/com/example/GateStatus/domain/career/CareerParser.java:158 | Integer.toString of a negative number is '-' followed by the digits of its magnitude |
| Strings.ZeroPad | backend/src/main/java/com/example/GateStatus/domain/career/CareerParser.java:128-130 | a zero-padded number has at least the width, only digits, ends with the number's own digits, and is those digits when they already fill the width |
| Strings.FirstGroupIndex | backend/src/main/java/com/example/GateStatus/domain/statement/service/StatementApiMapper.java:224-245 | the first keyword group any of whose keywords occurs, every earlier group having none, or -1 when no group matches |
| Strings.FirstContainingAny | backend/src/main/java/com/example/GateStatus/domain/comparison/service/PoliticalAnalysisService.java:235-265 | the first text containing one of the keywords, every earlier text containing none, or -1 |
| Strings.ClassifyFirstGroup | backend/src/main/java/com/example/GateStatus/domain/news/service/NewsApiService.java:260-306 | an if-chain over keyword groups returns the default exactly when no group matches, and otherwise the value of the first matching group |
| JavaLang.Option.GetOr | backend/src/main/java/com/example/GateStatus/domain/issue/IssueDocument.java:84-86 | a null reference is replaced by the default, any other value kept |
| JavaLang.Wrap | backend/src/main/java/com/example/GateStatus/domain/common/SyncJobStatus.java:49-51 | the result is a Java `int` congruent to the exact value modulo 2^32, and equal to it when it fits |
| JavaLang.Inc | backend/src/main/java/com/example/GateStatus/domain/common/SyncJobStatus.java:27-29 | `x + 1` on an `int` is x + 1 below Integer.MAX_VALUE and Integer.MIN_VALUE at it |
| JavaLang.WrapCongruent | backend/src/main/java/com/example/GateStatus/domain/common/SyncJobStatus.java:49-51 | values differing by a multiple of 2^32 wrap to the same `int` |
| JavaLang.WrapAdd | backend/src/main/java/com/example/GateStatus/domain/common/SyncJobStatus.java:49-51 | wrapping after every addition is wrapping once at the end |
| JavaLang.SaturatingCast | backend/src/main/java/com/example/GateStatus/domain/common/SyncJobStatus.java:41 | the `(int)` cast of a double keeps a value that fits and clamps one outside to the nearest bound |
| JavaLang.TruncDiv | backend/src/main/java/com/example/GateStatus/domain/common/SyncJobStatus.java:41 | Java division truncates toward zero: the quotient of non-negative operands is the floor, and a negative one is rounded up |
| JavaLang.SizeOr | backend/src/main/java/com/example/GateStatus/domain/comparison/service/request/ComparisonRequest.java:44-46 | the size of a list that may be null, a null list counting as empty |
| JavaLang.Rendered | backend/src/main/java/com/example/GateStatus/domain/news/service/NewsApiService.java:239-241 | string concatenation renders a non-null text as itself |

## Left out

- The web client (list, detail and create views, the HTTP resource client, routing) is not part of this model; only the backend's logic is.
- HTTP and open-API clients, Spring Data repositories, Mongo aggregations, Redis and Caffeine caches, asynchronous and scheduled jobs, controllers and configuration are left out: they are I/O, persistence or wiring. Where the logic consults them, their answer is a parameter. Examples are the set of stored figure ids in `ValidationService`, the text of a JSON field in `ProposedBillApiService`, and the generated UUID in `FigureMapper.ValidateAndSetFigureId`.
- The clock is a parameter: `today` in `ValidationService.DateRangeVerdict`. `SyncJobStatus`'s start and end timestamps and getElapsedTime read the clock and are not modelled.
- Floating-point results are not modelled as doubles. The dashboard's pass, agree and participation rates are exact `real` quotients, so the rounding of each `double` step is not captured. Averages of doubles and the sentiment and trend scores are left out.
- DashboardStatisticsService.BillStatsCalculator.AddCount and DashboardStatisticsService.VoteStatsCalculator.AddCount take a status or result that is never null. In Java a null status or result makes the `switch` throw a NullPointerException, and the model's enumerations have no null.
- IssueDocument.IssueDocument.Update stores a new keyword or tag list by value. In Java `update` keeps the caller's list object itself (IssueDocument.java:119 and :121), so a later change made through the caller's reference also shows in the document. The related-id lists are likewise values here, while Java's addRelatedStatement, addRelatedBill and addRelatedFigure change the stored list in place (IssueDocument.java:89, :99 and :109). That change is visible to anyone else holding that list. Sharing between a document and other holders of its lists is not modelled.
- FigureMapper.NormalizeUrl: whether `new java.net.URL(..)` accepts a text is the parameter `accepted`, because the URL parser is library code outside the repository. The contract states the result for either answer.
- JSON reading (`getTextValue` and the Jackson tree) is left out. The modelled helpers take the field texts.
- Strings.Lower: `toLowerCase` is modelled on ASCII letters only. Every keyword the code lower-cases against is Hangul or ASCII, but other scripts' capitals are left unchanged here.
- PoliticalAnalysisService.AnalyzeKeywordsFromText: `groupingBy` collects into a HashMap, so Java's order among equally frequent words depends on hashing. The model fixes one order among equal counts, and its contract promises only what holds in any order: sorted by count, at most `limit` entries, each a kept word with its count.
- Collection sizes and sums of list lengths are unbounded integers. Lists are taken to have fewer than 2^31 elements. Counters that the code increments in place wrap as a Java `int`.
- StatementRelevanceService.CountOccurrences requires a non-empty pattern. With an empty pattern the Java loop never terminates, since `indexOf("", i)` returns `i`.
- StatementRelevanceService.RankByRelevance requires a non-empty name for the same reason, because scoring counts the name's occurrences.
- StatementApiMapper.CountWords requires non-empty words for the same reason. It reuses `CountOccurrences`'s loop rather than restating it.
- StatementApiMapper.DetermineStatementType takes a non-null code. A null code makes the Java `switch` throw a NullPointerException, and that is not modelled.
- CareerParser: the Career record here has title, position, organization and period only. The source's builder also sets startDate and endDate, which the Career class it calls does not declare. Those two dates are left out.
- CareerParser.ParseDateOrNull: the final `matches("\\d{4}")` fallback is unreachable, because the "yyyy" pattern before it either returns or throws into the outer catch. The model has no such branch.
- The figure party enumeration includes REBUILDING_KOR, which FigureMapper maps to but the enum file does not declare.
- The comparison types (`ComparisonType`) are a type parameter. Their enumeration and the sections built for them are not modelled.
- PoliticalAnalysisService: analyzeKeywordsFromStatements, analyzeKeywordsFromSingleText, analyzeKeywordsByFigure and analyzeMainStance wrap the modelled text analysis in repository reads or sentiment scoring. They are left out.
- ValidationService: the composite checks validateDashboardRequest, validateComparisonRequest and the fixed-bound wrappers only call the modelled checks with constants. They are left out. Exception messages are reduced to a `Reason`.
- ProposedBill.IncrementViewCount models a null `Integer` counter as a NullPointerException. The Java code unboxes it without a null check.
- HtmlUtils.EntityReplaced and HtmlEntitiesDecoder.EntityDecodedBasic claim "&amp;" only at the end of the text. The '&' it leaves is read again by the replacements after it, so "&amp;lt;" becomes "<" (proved for decodeBasic by HtmlEntitiesDecoder.AmpDecodedBeforeLt). What such an '&' turns into depends on what follows it, and no lemma states it in general.
- HtmlEntitiesDecoder: only decodeBasic is modelled. The full decode delegates to StringEscapeUtils, which is library code.
- HtmlUtils.Truncate, PoliticalAnalysisService.Summarize, PoliticalAnalysisService.SummarizeText, StatementApiMapper.Slug, StatementApiMapper.IsInvalidContent, StatementApiMapper.KeyPhrasesOf and ValidationService.FigureNameVerdict: lengths, limits and cut points count characters (Unicode scalar values). Java counts UTF-16 code units, so for text outside the Basic Multilingual Plane (emoji, for example) a Java cut can fall at a different place or split a surrogate pair. Hangul and ASCII text, which these helpers handle, is counted the same way in both.
- CareerParser.ParseInt reads ASCII digits only. Integer.parseInt also accepts every other Unicode decimal digit (Character.digit), for example full-width '１'; such a text gives None here where Java gives a number.
- Collections.SortDesc and StatementRelevanceService.RankByRelevance: the order among equal scores is not stated. Java's List.sort and Stream.sorted are stable; the contracts promise only the descending order and the permutation.
- Dates: only the patterns the modelled parsers use are modelled, with the strict year-of-era and SMART day-of-month resolution. Localised text, time zones and other fields are left out.

## Findings

| source | as written | input that shows it | evidently intended | confidence | as-written member | corrected member |
|---|---|---|---|---|---|---|
| backend/src/main/java/com/example/GateStatus/domain/comparison/service/PoliticalAnalysisService.java:143-145 | summarizeText cuts at a sentence end found up to index maxLength-3 and then appends "...", so a cut at maxLength-3 yields maxLength+1 characters | "abcd.efg" with maxLength 7 gives "abcd...." (8 characters) | the summary is at most maxLength characters long | high, not executed | PoliticalAnalysisService.SummaryOverrunsByOne, PoliticalAnalysisService.SummaryOverrun | PoliticalAnalysisService.SummarizeTextWithinBounds |
| backend/src/main/java/com/example/GateStatus/domain/vote/VoteResultType.java:28 | "불참" (absent) is read as ABSTAIN | fromString("불참") returns ABSTAIN, so ABSENT, whose display name is "불참", never results | "불참" reads as ABSENT, so every value reads back from its display name | medium, not executed | VoteResultType.AbsentLabelReadsAsAbstain | VoteResultType.FromStringCorrected, VoteResultType.CorrectedReadsDisplayName |
| backend/src/main/java/com/example/GateStatus/domain/common/ValidationService.java:203-211 | validateCategoryCode catches an IllegalArgumentException from IssueCategory.fromCode, but fromCode returns OTHER for unknown codes and never throws | the code "BOGUS" is accepted | a non-blank code that names no category is rejected | medium, not executed | ValidationService.UnknownCategoryAccepted | ValidationService.CategoryCodeVerdictStrict |
| backend/src/main/java/com/example/GateStatus/domain/proposedBill/ProposedBill.java:64-69 | setCoProposers clears its own list before addAll, so passing the bill's own list empties it | setCoProposers(getCoProposers()) on ["홍길동"] leaves [] | the list holds the given names afterwards | medium, not executed | ProposedBill.OwnListIsEmptied | ProposedBill.ProposedBill.SetCoProposersCopying, ProposedBill.OwnListIsKept |
