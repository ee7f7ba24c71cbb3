# ghRadar core in Dafny

This project models the computational core of ghRadar, a GitHub dashboard written in
JavaScript. The services layer fetches GitHub and trending-API data and turns it into
counts, scores, categories and summaries. The analysis components turn a user's or a
repository's data into the figures a page shows: rankings, radar values, timelines,
streaks, winners and labels.

HTTP requests, the clock and randomness are not modelled as such. A request is replaced
by its outcome, the clock by a `nowMs` parameter (or a day or month number), and the
random parts are left out. JavaScript numbers are modelled as exact integers and reals.
`Math.round` is modelled as half-up rounding of an exact quotient (`Common.RoundDiv`),
and `NaN` as `None`.

Each source file maps to one or more modules:

- `src/services/repositoryApi.js`:
  - `RepositoryCounts`: total counts from a `per_page: 1` request; the issue and pull-request searches.
  - `RepositoryActivity`: the activity heatmap and the top event actors.
  - `RepositoryAnalytics`: the analytics object.
  - `RepositoryScores`: the health, activity and community scores.
  - `RepositoryUrl`: URL parsing.
  - `RepositoryCategory`: the categoriser.
- `src/services/trendingApi.js`:
  - `TrendingApi`: period mapping, the second categoriser, records, badges, expertise and maintainers.
  - `TrendingDevelopers`: the retry loop and the batch loop.
- `src/services/githubApi.js`: `GithubApi`, the language ranking, the profile summary and the error messages.
- `src/components/RepositoryComparison.js`: `RepositoryComparison`.
- `src/components/ContributionHeatmap.js`: `ContributionHeatmap`.
- `src/components/CompareMode.js`: `CompareMode`.
- `src/components/AdvancedAnalytics.js`: `AdvancedAnalytics`.
- `src/components/RepositoryTrends.js`: `RepositoryTrends`.
- `src/components/RepositoryAnalysis.js`: `RepositoryAnalysis`.

Shared modules:

- `Common`: options, rounding, slicing, substring search, lower-casing and decimals.
- `Tally`: the JavaScript counting-object idiom, and a stable descending sort.
- `Categories`: the first-match walk over a keyword table.
- `ProfileRepos`: a profile's repositories, their totals and averages.

The `for`, `while` and `forEach` loops that update variables are methods with loop
invariants, proved equal to a pure function. The `filter`/`map`/`reduce`/`slice` chains
are pure recursive functions or sequence comprehensions (for example
`RepositoryTrends.Filtered`, the totals of `CompareMode`, the record mapping of
`TrendingApi`). The properties the source promises are proved as lemmas about those
functions.

## Model

| member | source | states |
|---|---|---|
| Tally.Count | src/services/githubApi.js:84-87 | the occurrence count is at most the length and positive exactly for members |
| Tally.Distinct | src/services/trendingApi.js:331 | `[...new Set(xs)]`: the same members, each once, in first-occurrence order |
| Tally.TallyOf | src/services/githubApi.js:84-91 | the object's entries: one per distinct key in first-insertion order (the object's order when no key is an array index), each with the key's true count |
| Tally.CountOccurrences | src/services/githubApi.js:84-87 | the `(counts[k] \|\| 0) + 1` loop yields the keys in first-insertion order (the object's order when no key is an array index), with the key set equal to the elements and each value equal to the true count |
| Tally.TallySum | src/services/githubApi.js:84-91 | the counts of the tally add up to the number of counted elements |
| Tally.SortDesc | src/services/githubApi.js:92 | the sort is a permutation of its input, ordered by descending key |
| Tally.InsertSorted | src/services/githubApi.js:92 | inserting into a sorted list keeps it sorted, which makes the sort correct |
| Tally.SumBySort | src/components/AdvancedAnalytics.js:28-44 | sorting does not change a sum over the elements |
| Tally.TopCounts | src/services/githubApi.js:84-93 | counting and then sorting and cutting yields `TopCountsOf` |
| Tally.TopCountsShape | src/services/githubApi.js:90-93 | yields min(n, distinct keys) entries, most frequent first, each a real key with its true count and no key twice |
| Tally.TopCountsSum | src/services/githubApi.js:90-93 | the kept counts add up to at most the number of elements, and to all of them when nothing is cut |
| Tally.TopCountsCut | src/services/githubApi.js:92-93 | a key left out by the cut occurs no more often than any kept key |
| Tally.SortedTallyComplete | src/components/AdvancedAnalytics.js:329-335 | every counted key has its entry, with its true count, in the sorted tally |
| Categories.FirstCategory | src/services/repositoryApi.js:596-605 | the first category of the table with a matching keyword, or none when no category matches |
| Categories.FindCategory | src/services/repositoryApi.js:596-605 | the loop with early return finds `FirstCategory` |
| Categories.FirstCategoryIs | src/services/trendingApi.js:422-432 | a matching category with no earlier match is the one reported |
| Common.RoundDivBounds | src/components/ContributionHeatmap.js:199 | the half-up rounding of a/b is within one half of the exact quotient |
| Common.DecimalRoundTrip | src/services/repositoryApi.js:38 | parsing the decimal rendering of a number gives the number back |
| Common.ContainsJoined | src/services/trendingApi.js:488-490 | a keyword without the separator occurs in joined text exactly when it occurs in one part |
| RepositoryCounts.FirstLastPageMatch | src/services/repositoryApi.js:35-36 | `String.prototype.match`: no match exactly when the pattern matches nowhere, and otherwise the page of the leftmost match |
| RepositoryCounts.TotalCountCases | src/services/repositoryApi.js:30-43 | 0 on failure; the captured last page when the Link header matches; the page length otherwise |
| RepositoryCounts.TotalCountOfLastLink | src/services/repositoryApi.js:34-39 | a header whose first `>; rel="last"` entry carries `page=N` yields N |
| RepositoryCounts.MatchContainsLastRelation | src/services/repositoryApi.js:34-36 | every matching header passes the `includes('rel="last"')` pre-check |
| RepositoryCounts.AllFulfilled | src/services/repositoryApi.js:75-100 | `Promise.all` gives every value exactly when every promise fulfils |
| RepositoryCounts.WithFallback | src/services/repositoryApi.js:75-100 | the first batch's values are used whenever all four of its promises fulfil |
| RepositoryCounts.SearchFallbackUnreachable | src/services/repositoryApi.js:46-58 | the search counts, 0 for each failed search, are always the result, whatever the list endpoints would give |
| RepositoryCounts.GatherTotals | src/services/repositoryApi.js:165-175 | each total is the total count of its endpoint, and each issue or PR figure is its search count |
| RepositoryCounts.FetchErrorMessageCases | src/services/repositoryApi.js:188-196 | only the not-found message names the repository |
| RepositoryActivity.IssuesOnly | src/services/repositoryApi.js:238 | keeps every plain issue as often as it occurs, and no pull request |
| RepositoryActivity.Actors | src/services/repositoryApi.js:303-306 | each login occurs as often as the events whose actor has it |
| RepositoryActivity.Window | src/services/repositoryApi.js:289-293 | twelve distinct consecutive months ending with the current one |
| RepositoryActivity.BuildHeatmap | src/services/repositoryApi.js:289-300 | the loop reading the two counting objects builds `HeatmapOf` |
| RepositoryActivity.AnalyzeActivityPatterns | src/services/repositoryApi.js:273-321 | the trends are the tallies, the heatmap is `HeatmapOf` and the contributors are the ten most active actors |
| RepositoryActivity.HeatmapShape | src/services/repositoryApi.js:289-300 | twelve cells, oldest first, each with the month's issues, PRs and their sum; non-zero exactly for months with items |
| RepositoryActivity.HeatmapAccountsForItems | src/services/repositoryApi.js:289-300 | the cells count no item twice, and count every item when all are in the window |
| RepositoryActivity.TopContributorsSpec | src/services/repositoryApi.js:303-313 | at most ten logins, most active first, true counts, no login twice, none left out more active than one kept |
| RepositoryScores.AboveMonotone | src/services/repositoryApi.js:470-472 | a larger value never earns fewer points in a falling if-chain |
| RepositoryScores.BelowAntitone | src/services/repositoryApi.js:465-467 | a smaller value never earns fewer points in a rising if-chain |
| RepositoryScores.AgeTierValue | src/services/repositoryApi.js:465-467 | the tier table gives 20/15/10/0 at 30, 90 and 365 days, as the if-chain does |
| RepositoryScores.CalculateHealthScore | src/services/repositoryApi.js:458-489 | the score is the sum of the feature points, and lies in [0, 100] |
| RepositoryScores.HealthAtMost100 | src/services/repositoryApi.js:458-489 | the uncapped points never exceed 100, so `Math.min` never changes them |
| RepositoryScores.HealthMonotone | src/services/repositoryApi.js:458-489 | more stars or contributors never lower the score, and a greater age never raises it |
| RepositoryScores.CalculateActivityScore | src/services/repositoryApi.js:492-517 | the score is the sum of the activity points, in [0, 90] |
| RepositoryScores.ActivityMonotone | src/services/repositoryApi.js:492-517 | a fresher update or more commits never lower the score |
| RepositoryScores.CommitRateTierValue | src/services/repositoryApi.js:502-506 | the tier table gives the if-chain's 25/20/15/10/0 |
| RepositoryScores.CalculateCommunityScore | src/services/repositoryApi.js:520-551 | the score is the sum of the community points, in [0, 100] |
| RepositoryScores.CommunityMonotone | src/services/repositoryApi.js:520-551 | more stars, forks, contributors or watchers never lower the score |
| RepositoryScores.OverallBetween | src/services/repositoryApi.js:446 | the rounded mean lies between the lowest and the highest of the three scores |
| RepositoryAnalytics.AgeOf | src/services/repositoryApi.js:351-353 | days, 30-day months and 12-month years are the floors of the elapsed time |
| RepositoryAnalytics.ActualCount | src/services/repositoryApi.js:380-384 | the inferred total, unless it is 0, in which case the sample length |
| RepositoryAnalytics.AverageContributions | src/services/repositoryApi.js:411 | the rounded average lies in [0, sum], and is the sum for a single contributor |
| RepositoryAnalytics.AveragePerMonth | src/services/repositoryApi.js:416 | the rounded average lies in [0, total], and is the total within the first month |
| RepositoryAnalytics.ReleaseFrequency | src/services/repositoryApi.js:424 | 0 without releases; otherwise months per release, rounded half up |
| RepositoryAnalytics.PrimaryLanguageLargest | src/services/repositoryApi.js:402-406 | "Unknown" without languages; otherwise a language with the most bytes |
| RepositoryAnalytics.SharesAddUpTo100 | src/services/repositoryApi.js:356-361 | the exact language percentages add up to 100 |
| RepositoryAnalytics.CommitTrend | src/services/repositoryApi.js:368-377 | the counting loop, the sort and the cut build `CommitTrendOf` |
| RepositoryAnalytics.CommitTrendSpec | src/services/repositoryApi.js:368-377 | at most twelve months, strictly ascending, each with its commit count; any month left out is older than all kept |
| RepositoryAnalytics.AnalyticsSpec | src/services/repositoryApi.js:345-455 | issue and PR totals are open plus closed; the scores are the points of the sampled lists, each in [0, 100]; no release means frequency 0 |
| RepositoryUrl.FirstHostMatchSpec | src/services/repositoryApi.js:556-566 | the groups of the leftmost match of the host pattern, or none when it matches nowhere |
| RepositoryUrl.StripGit | src/services/repositoryApi.js:566 | removes one trailing ".git" and nothing else |
| RepositoryUrl.ParseRepositoryUrl | src/services/repositoryApi.js:554-572 | the loop over the two patterns computes `ParseOf` |
| RepositoryUrl.ParseShape | src/services/repositoryApi.js:554-572 | a parsed owner is non-empty, and neither part contains '/' |
| RepositoryUrl.ParseErrorCases | src/services/repositoryApi.js:554-572 | the error is raised exactly when neither pattern matches, with the source's message |
| RepositoryUrl.ParseGitHubUrl | src/services/repositoryApi.js:554-572 | a GitHub URL parses back to its owner and name without ".git" |
| RepositoryUrl.ParseOwnerRepo | src/services/repositoryApi.js:554-572 | `owner/name` parses back to its owner and name without ".git" |
| RepositoryUrl.HostWithoutRepository | src/services/repositoryApi.js:554-572 | "github.com/" followed by a name without a second "/" (such as "github.com/octocat") is read as owner "github.com" with that name as the repository |
| RepositoryCategory.CategorizeRepository | src/services/repositoryApi.js:575-623 | the table walk and the fallback compute `CategoryOf` |
| RepositoryCategory.CategorizeFirstMatch | src/services/repositoryApi.js:596-605 | the first category with a matching keyword is the answer |
| RepositoryCategory.CategorizeFallback | src/services/repositoryApi.js:608-623 | without a keyword match the language table decides, and otherwise "General" |
| RepositoryCategory.LanguageFallback | src/services/repositoryApi.js:608-623 | the language's entry in the table, or "General" when the table has none |
| RepositoryCategory.HtmlIsMachineLearning | src/services/repositoryApi.js:581-605 | substring matching puts a repository written in HTML into "Machine Learning", because "html" contains "ml" |
| TrendingApi.MapTimePeriod | src/services/trendingApi.js:48-56 | "daily" exactly for "day", "monthly" exactly for "month" or "year", "weekly" otherwise |
| TrendingApi.TrendingCategoryCases | src/services/trendingApi.js:402-433 | the first matching category in table order, and "General" when none matches |
| TrendingApi.ReactTopicIsFrontend | src/services/trendingApi.js:402-433 | a topic "reactjs" makes any repository a frontend framework |
| TrendingApi.TrendingRecordsSpec | src/services/trendingApi.js:75-95 | records in response order; each id parses back to author and name; each trend is "+" and the star count |
| TrendingApi.TrendingRecordsLength | src/services/trendingApi.js:75-95 | as many records as `slice(0, limit)` keeps: min(limit, n) for a non-negative limit, none for empty data or a limit of 0 |
| TrendingApi.BadgeCases | src/services/trendingApi.js:436-448 | each badge is given exactly when its rule holds and no earlier rule does |
| TrendingApi.BadgeMonotone | src/services/trendingApi.js:436-448 | more stars, repositories or followers never earn a lower badge |
| TrendingApi.ExtractExpertise | src/services/trendingApi.js:474-497 | the counting loop, the domain pushes and the cut compute `ExpertiseOf` |
| TrendingApi.ExpertiseSpec | src/services/trendingApi.js:474-497 | exactly min(4, languages + domains) items: up to three of the user's languages, most used first, each the language of some repository; then the first domain labels, in table order |
| TrendingApi.DomainsInTableOrder | src/services/trendingApi.js:486-494 | the domain labels are a subsequence of Web Development, Backend, Mobile, Data Science, DevOps in that order, with no repeats; each label is listed exactly when its test holds |
| TrendingApi.WebDomainSpec | src/services/trendingApi.js:488-490 | "Web Development" is listed exactly when a name or description mentions "web" or "frontend" |
| TrendingApi.TopProjectMostStarred | src/services/trendingApi.js:345 | the top project is a most-starred repository, or "N/A" |
| TrendingApi.TopMaintainersSpec | src/services/trendingApi.js:325-381 | exactly the successful lookups: every record is the record of an owner among the first `limit` distinct ones whose lookup succeeded, built from that lookup, and every such owner has a record; each at most once, at most `limit`, ordered by total stars |
| TrendingApi.FoundSound | src/services/trendingApi.js:333-376 | every record collected from the lookups is the record of a looked-up login whose lookup succeeded, built from that lookup |
| TrendingDevelopers.RetryApiCall | src/services/trendingApi.js:103-118 | the attempt loop computes `RetryFrom`, with its calls and pauses |
| TrendingDevelopers.RetryFromSpec | src/services/trendingApi.js:103-118 | no more calls than the remaining attempts; the first success; the last error rethrown; one pause after each failure but the last |
| TrendingDevelopers.RetrySpec | src/services/trendingApi.js:103-118 | at most `maxRetries` calls; the first success or the last error; no call and `undefined` when `maxRetries` < 1 |
| TrendingDevelopers.DeveloperRecordSpec | src/services/trendingApi.js:256-302 | each record names its developer; its languages are the first min(5, n) of the n distinct languages of the repositories, in first-seen order; a failed lookup gives zero counts and "Developer" |
| TrendingDevelopers.FetchDevelopersAsWritten | src/services/trendingApi.js:228-317 | the loop as written produces the records of the first `VisitedAsWritten` developers, with the pauses between batches |
| TrendingDevelopers.VisitedAsWrittenBounds | src/services/trendingApi.js:229-230 | the loop visits min(n, limit) developers, then fills the last batch of five from those beyond the limit |
| TrendingDevelopers.BatchOvershoot | src/services/trendingApi.js:229-230 | twenty developers and a limit of seven give ten records |
| TrendingDevelopers.FetchDevelopers | src/services/trendingApi.js:228-317 | the loop with each batch cut at the bound produces the records of the first min(n, limit) developers |
| TrendingDevelopers.FetchDevelopersSpec | src/services/trendingApi.js:228-317 | exactly min(n, limit) records, in order; equal to the loop as written when the limit is a multiple of five |
| GithubApi.GetTopLanguages | src/services/githubApi.js:81-94 | the counting loop and the sort-and-cut compute the six most used languages |
| GithubApi.TopLanguagesSpec | src/services/githubApi.js:81-94 | at most six languages, most used first, each once, each with its number of repositories, together at most the repository count |
| GithubApi.GenerateAISummary | src/services/githubApi.js:45-79 | the successive appends produce `SummaryOf` |
| GithubApi.ClausesPresence | src/services/githubApi.js:45-79 | each clause is present exactly when its condition holds, and carries its figure |
| GithubApi.ClausesOrder | src/services/githubApi.js:45-79 | the clauses come in the order they are appended |
| GithubApi.SummarySpec | src/services/githubApi.js:45-79 | the text opens with the name or login and "is a developer", has each clause exactly when its condition holds, and ends with a period |
| GithubApi.EmptyReposSummary | src/services/githubApi.js:45-79 | no repositories means no language, star or versatility clause |
| GithubApi.FetchErrorCases | src/services/githubApi.js:16-22 | a 404 names the user; a 403 gives the rate-limit message; any other failure gives the generic message |
| RepositoryComparison.Winner | src/components/RepositoryComparison.js:62-72 | First, Second or Neither exactly as the better value is strictly better, or equal |
| RepositoryComparison.CalculateOverallWinner | src/components/RepositoryComparison.js:387-437 | the running weighted scores compute `OverallOf` |
| RepositoryComparison.OverallScores | src/components/RepositoryComparison.js:387-437 | the scores total at most 10; a swap swaps them; strictly better everywhere takes all 10; equal repositories score 0 |
| RepositoryComparison.OverallSymmetric | src/components/RepositoryComparison.js:387-437 | a tie exactly on equal scores, and the verdict does not depend on the order |
| RepositoryComparison.DetailedMetricsSpec | src/components/RepositoryComparison.js:222-321 | higher wins, except open issues (lower wins) and size (always a tie); a swap swaps the winners |
| RepositoryComparison.GetRepositoryStrengths | src/components/RepositoryComparison.js:327-384 | the pushes, the default and the cut compute `StrengthsOf` |
| RepositoryComparison.StrengthsSpec | src/components/RepositoryComparison.js:327-384 | one to five lines; the default exactly when nowhere ahead; otherwise each line a strict advantage |
| RepositoryComparison.AdvantagesAhead | src/components/RepositoryComparison.js:347-377 | a line is pushed exactly when the repository is strictly ahead on its figure (fewer open issues for issue management), and it carries the repository's own figure |
| RepositoryComparison.StrengthsExclusive | src/components/RepositoryComparison.js:347-377 | the two repositories never claim a strength of the same kind against each other, for all eight kinds |
| RepositoryComparison.MergedRowsSound | src/components/RepositoryComparison.js:171-219 | each merged row is its language's row, and has data |
| RepositoryComparison.MergedRowsComplete | src/components/RepositoryComparison.js:171-219 | each language with data of either repository gets its row |
| RepositoryComparison.MergedRowsDistinct | src/components/RepositoryComparison.js:171-219 | no language has two rows |
| RepositoryComparison.LanguageComparisonSpec | src/components/RepositoryComparison.js:171-219 | outside the fallbacks: exactly the languages with data, each once with its first-entry values, sorted by combined share |
| RepositoryComparison.WinnerColours | src/components/RepositoryComparison.js:62-72 | a column is highlighted exactly when its value is strictly better; never both; equal values leave both gray |
| RepositoryComparison.ContributorsAxis | src/components/RepositoryComparison.js:95-100 | twice the contributors, capped at 100 |
| RepositoryComparison.RadarAxes | src/components/RepositoryComparison.js:75-117 | no axes without both repositories; otherwise the non-logarithmic axes with their values |
| ContributionHeatmap.ContributionsOf | src/components/ContributionHeatmap.js:7-31 | one count per day of the window, the sum of what the repositories add that day |
| ContributionHeatmap.BuildContributions | src/components/ContributionHeatmap.js:7-31 | the date loop and the guarded increments compute `ContributionsOf` |
| ContributionHeatmap.TotalContributions | src/components/ContributionHeatmap.js:69 | the total is what the repositories add inside the window |
| ContributionHeatmap.TotalBound | src/components/ContributionHeatmap.js:23-28 | each repository adds at most 15 |
| ContributionHeatmap.Level | src/components/ContributionHeatmap.js:34-40 | the level is at most 4 |
| ContributionHeatmap.LevelMonotone | src/components/ContributionHeatmap.js:34-40 | monotone; 0 exactly for empty days; 4 exactly above 8 |
| ContributionHeatmap.MaxStreak | src/components/ContributionHeatmap.js:70-84 | the counter loop computes `MaxRun` |
| ContributionHeatmap.CurrentStreak | src/components/ContributionHeatmap.js:86-99 | the backward loop computes the run ending today |
| ContributionHeatmap.StreakSpec | src/components/ContributionHeatmap.js:70-99 | maxStreak is the length of a longest active run; currentStreak is the run ending today, no longer than maxStreak |
| ContributionHeatmap.Weeks | src/components/ContributionHeatmap.js:53-67 | the weeks flatten back to the days; all weeks but the last have seven days; the count is the ceiling |
| ContributionHeatmap.ConsistencyBounds | src/components/ContributionHeatmap.js:199 | a percentage: 100 when every day is active, 0 when none is |
| ProfileRepos.Average | src/components/CompareMode.js:33-34 | 0 without repositories; otherwise times the count it gives the total; never negative for a non-negative total |
| ProfileRepos.TotalsNonNegative | src/components/AdvancedAnalytics.js:15-19 | the star and fork totals are never negative |
| ProfileRepos.Clamp100 | src/components/CompareMode.js:66-103 | at most 100; the value itself within the chart, 100 beyond it |
| CompareMode.TopRepoStars | src/components/CompareMode.js:29-44 | never negative; at least every repository's stars; 0 or attained |
| CompareMode.MetricsAverages | src/components/CompareMode.js:29-44 | the averages are 0 without repositories, and times the count give the totals |
| CompareMode.MetricsCounts | src/components/CompareMode.js:29-44 | distinct languages, at most one per repository; the follower ratio falls back to followers; the activity count is bounded; the age is whole years |
| CompareMode.RadarBounds | src/components/CompareMode.js:66-103 | each radar value lies in [0, 100] and is the scaled figure while it fits |
| CompareMode.GetLanguageDistribution | src/components/CompareMode.js:116-127 | the counting forEach and the sort-and-cut yield the five most used languages |
| CompareMode.LanguageDistributionSpec | src/components/CompareMode.js:116-127 | min(5, distinct) languages, most used first, each once with its repository count |
| CompareMode.EfficiencyGuards | src/components/CompareMode.js:134-139 | guarded ratios: 0 on a zero divisor, and otherwise times the divisor give the dividend |
| CompareMode.SummarySpec | src/components/CompareMode.js:794-827 | each line names the strictly greater side, a tie on equality; a swap swaps every winner |
| AdvancedAnalytics.TotalsSpec | src/components/AdvancedAnalytics.js:15-19 | the totals are non-negative; the averages are 0 when empty, and times the count give the totals |
| AdvancedAnalytics.Starred | src/components/AdvancedAnalytics.js:22-25 | exactly the repositories with at least one star |
| AdvancedAnalytics.TopPerformersSpec | src/components/AdvancedAnalytics.js:22-25 | at most five starred repositories, most starred first; all of them when at most five exist |
| AdvancedAnalytics.TopPerformersCut | src/components/AdvancedAnalytics.js:22-25 | a starred repository cut off has no more stars than any kept |
| AdvancedAnalytics.FindYear | src/components/AdvancedAnalytics.js:30 | `find` stops at the first entry of the year, or at the end |
| AdvancedAnalytics.AccumulateYears | src/components/AdvancedAnalytics.js:28-42 | the reduce with its search and in-place update computes `YearsOf` |
| AdvancedAnalytics.YearsOfYears | src/components/AdvancedAnalytics.js:28-42 | the entries' years are the creation years in first-seen order, each once |
| AdvancedAnalytics.YearsOfEntries | src/components/AdvancedAnalytics.js:28-42 | each entry is a creation year with its true repository count (at least 1) and stars |
| AdvancedAnalytics.YearsOfSums | src/components/AdvancedAnalytics.js:28-42 | the counts sum to the number of repositories, and the stars to the total |
| AdvancedAnalytics.BuildActivityData | src/components/AdvancedAnalytics.js:28-44 | the reduce and the sort by year compute `ActivityData` |
| AdvancedAnalytics.ActivityDataSpec | src/components/AdvancedAnalytics.js:28-44 | years strictly ascending, one entry per creation year with true counts and stars, and the sums preserved |
| AdvancedAnalytics.ActivityDataComplete | src/components/AdvancedAnalytics.js:28-44 | every creation year has its entry |
| AdvancedAnalytics.RadarBounds | src/components/AdvancedAnalytics.js:47-54 | each value lies in [0, 100]; activity reaches the rim at twenty repositories |
| AdvancedAnalytics.QualityScoreNaN | src/components/AdvancedAnalytics.js:309 | as written, an empty profile scores NaN |
| AdvancedAnalytics.QualityScoreSpec | src/components/AdvancedAnalytics.js:309 | guarded: in [0, 100]; 0 without stars; 100 from ten stars per repository; agrees with the formula wherever that is defined |
| AdvancedAnalytics.EngagementSpec | src/components/AdvancedAnalytics.js:315 | High above one fork per ten stars, Medium above one per twenty, Low otherwise; more forks never lower it |
| AdvancedAnalytics.MostUsedLanguageSpec | src/components/AdvancedAnalytics.js:329-336 | "N/A" without languages; otherwise a language used at least as often as every other |
| AdvancedAnalytics.TiersMonotone | src/components/AdvancedAnalytics.js:342-348 | productivity and impact rise with their figures; the top tier exactly above its threshold |
| RepositoryTrends.ProcessRepoSpec | src/components/RepositoryTrends.js:11-18 | the age is whole days; both rates divide by at least 1, are non-negative, and times the divisor give the stars |
| RepositoryTrends.Filtered | src/components/RepositoryTrends.js:21-25 | keeps exactly the repositories the filter accepts |
| RepositoryTrends.FilterPartition | src/components/RepositoryTrends.js:21-25 | "recent" and "mature" split the repositories; any other filter keeps all |
| RepositoryTrends.CategoriesPartition | src/components/RepositoryTrends.js:51-55 | rising, stable and dormant counts add up to the filtered count |
| RepositoryTrends.ShortName | src/components/RepositoryTrends.js:32 | short names stay; longer ones become their first eight characters and "..." |
| RepositoryTrends.TrendDataSpec | src/components/RepositoryTrends.js:28-39 | one point per repository, oldest first, numbered from 1, with its figures |
| RepositoryTrends.PicksSpec | src/components/RepositoryTrends.js:280-286 | "Most Efficient" names a repository with the greatest stars per KB (the efficiency of line 17), "Fastest Growing" one with the greatest stars per day; each is "N/A" when there is none or its name is empty |
| RepositoryTrends.AverageEfficiencySpec | src/components/RepositoryTrends.js:292 | NaN exactly without repositories; otherwise at most the greatest efficiency |
| RepositoryAnalysis.BandSpec | src/components/RepositoryAnalysis.js:977-999 | each band is its interval, and a higher score is never in a lower band |
| RepositoryAnalysis.ScoreColorsAgree | src/components/RepositoryAnalysis.js:1276-1281 | the two copies of `getScoreColor` agree; the colour is the band's, and different bands get different colours |
| RepositoryAnalysis.InsightBands | src/components/RepositoryAnalysis.js:977-999 | each insight depends only on the band, and different bands get different words |
| RepositoryAnalysis.ResolutionRateSpec | src/components/RepositoryAnalysis.js:1246 | the closed share in percent, at most 100, with a divisor of at least 1 |
| RepositoryAnalysis.ResponsivenessSpec | src/components/RepositoryAnalysis.js:1247 | "excellent" exactly when more are closed than open |
| RepositoryAnalysis.GrowthMaturitySpec | src/components/RepositoryAnalysis.js:1229-1266 | each growth and maturity word covers exactly its interval |
| RepositoryAnalysis.ContributionDistributionSpec | src/components/RepositoryAnalysis.js:681-688 | empty without a list; else at most six slices, each the share of one of the first six contributors with a positive count, every such contributor having its slice, each share rounded to a tenth and at most 100% |
| RepositoryAnalysis.NonZeroInOrder | src/components/RepositoryAnalysis.js:688 | `filter(value > 0)` keeps exactly the positive slices, in their order |
| RepositoryAnalysis.ContributionDistributionInOrder | src/components/RepositoryAnalysis.js:681-688 | slice k is the share of the first six's contributor idx[k], with idx rising and naming every one of them with a positive count |

## Left out

- HTTP, axios, request headers and tokens: each request is replaced by its outcome. This covers the Link header, the search `total_count`, the listed records and lookups given as functions.
- The clock: `Date.now()` and `new Date()` become `nowMs`, a day number or a month number. Calendar and time-zone arithmetic is not modelled: a repository's creation year and the month of a commit or an issue are given as fields.
- Randomness: the following are not modelled:
  - the synthetic commit trend of `RepositoryAnalysis.js`;
  - the comparison timeline of `RepositoryComparison.js`;
  - the simulated issue and pull-request counts of the maintainer records in `trendingApi.js`;
  - the random contribution and response-time estimates in `trendingApi.js`.
- Floating point: numbers are exact. `toFixed` and the string formatting of numbers (`formatNumber`, "k" suffixes) are not modelled. Neither are the logarithmic radar axes of `RepositoryComparison.js`.
- React state, effects, memoisation, animations, JSX layout and console logging are not modelled.
- `mapTimePeriod` reads a plain object, so a key such as "constructor" would hit the object prototype. The model maps every unknown period to "weekly".
- RepositoryCategory.LanguageFallback: `languageCategories[language]` reads a plain object, so a lowercased language such as "constructor" or "tostring" would return an inherited member of the object prototype. The model returns "General" for every language the table does not list.
- Common.Lower: folds ASCII letters only. JavaScript's `toLowerCase` is full Unicode, so for example U+212A KELVIN SIGN becomes "k". A keyword match that depends on a non-ASCII capital is not modelled. This affects RepositoryCategory.CategorizeRepository, TrendingApi.TrendingCategoryCases and TrendingApi.ExtractExpertise.
- Tally.TallyOf: `Object.entries` lists keys that are array indices (canonical decimal integers below 2^32 - 1, such as "123") first, in ascending numeric order, and only then the other keys in insertion order. The model lists all keys in first-insertion order. This matters only for the event-actor tally of src/services/repositoryApi.js:303-313, whose keys are GitHub logins, which can be all digits. With actors `["bob", "123"]` the source lists "123" first and the model lists "bob" first. When counts tie at the cut of ten, the kept logins can differ as well. RepositoryActivity.AnalyzeActivityPatterns and RepositoryActivity.TopContributorsSpec inherit this. Their sortedness, count and bound properties hold either way. The other tallies count languages, months and years, and none of those keys is an array index.
- The 100 ms sleeps and the retry waits are modelled as the list of pauses, not as time.
- The `watchers` field of the trend and scatter points in `RepositoryTrends.js` is not modelled: no property of the model reads it. The fork total that the comparison summary computes and never shows is not modelled either.
- `RepositoryTrends.AverageEfficiency` models the NaN of an empty list as `None`, as written. No guarded variant is modelled.
- `Common.RoundDiv`: `Math.round` is modelled on the exact quotient. The float quotient could round differently at an exact half.
- `RepositoryScores.FewOpenIssues`: the comparison with `stargazers_count * 0.1` is read over exact numbers.
- The loop bound `Math.min(response.data.length, limit)` (src/services/trendingApi.js:229) suggests min(n, limit) developer records; the code can return more: see Findings. The model follows the code, and proves the corrected loop separately.

## Findings

| source | as written | input that shows it | evidently intended | confidence | as-written member | corrected member |
|---|---|---|---|---|---|---|
| src/services/trendingApi.js:229-230 | each batch is `response.data.slice(i, i + 5)`, which the loop bound `Math.min(length, limit)` does not cut | 20 trending developers, limit 7: ten records are built | exactly min(length, limit) records | not executed | TrendingDevelopers.BatchOvershoot | TrendingDevelopers.FetchDevelopersSpec |
| src/components/AdvancedAnalytics.js:309 | `Math.round((totalStars / repos.length) * 10)` with no guard for an empty list | a user with no repositories: 0 / 0 is NaN and "NaN/100" is shown | 0, like the guarded averages beside it | not executed | AdvancedAnalytics.QualityScoreNaN | AdvancedAnalytics.QualityScoreSpec |
