/** The derived figures of generateRepositoryAnalytics in src/services/repositoryApi.js:
    ages, totals with their fallback to the fetched sample, averages, the language
    distribution, the monthly commit trend and the scores. Times are milliseconds since
    the epoch; the clock reading `nowMs` is a parameter. */
module RepositoryAnalytics {
  import opened Common
  import opened Tally
  import opened RepositoryCounts
  import opened RepositoryScores

  const DayMs: int := 1000 * 60 * 60 * 24

  datatype Age = Age(days: int, months: int, years: int, daysSinceUpdate: int)

  /** Whole days since creation, whole 30-day months, whole 12-month years, and whole
      days since the last update, each rounded down as Math.floor does. */
  function AgeOf(nowMs: int, createdMs: int, updatedMs: int): (a: Age)
    ensures a.days * DayMs <= nowMs - createdMs < (a.days + 1) * DayMs
    ensures 30 * a.months <= a.days < 30 * a.months + 30
    ensures 12 * a.years <= a.months < 12 * a.years + 12
    ensures a.daysSinceUpdate * DayMs <= nowMs - updatedMs < (a.daysSinceUpdate + 1) * DayMs
  {
    var days := (nowMs - createdMs) / DayMs;
    var months := days / 30;
    Age(days, months, months / 12, (nowMs - updatedMs) / DayMs)
  }

  /** `totalCounts.totalX || sample.length`: the inferred total unless it is 0. */
  function ActualCount(total: nat, sample: nat): (n: nat)
    ensures total > 0 ==> n == total
    ensures total == 0 ==> n == sample
  {
    if total != 0 then total else sample
  }

  /** `Math.round(totalContributions / Math.max(total, 1)) || 0`. */
  function AverageContributions(sum: nat, total: nat): (r: int)
    ensures 0 <= r <= sum
    ensures total <= 1 ==> r == sum
  {
    RoundDivBounds(sum, Max(total, 1));
    RoundDiv(sum, Max(total, 1))
  }

  /** `Math.round(total / Math.max(months, 1))`. */
  function AveragePerMonth(total: nat, months: int): (r: int)
    ensures 0 <= r <= total
    ensures months <= 1 ==> r == total
  {
    RoundDivBounds(total, Max(months, 1));
    RoundDiv(total, Max(months, 1))
  }

  /** Months per release, rounded; 0 when the repository has no releases. */
  function ReleaseFrequency(months: int, releases: nat): (r: int)
    ensures releases == 0 ==> r == 0
    ensures releases > 0 ==> 2 * releases * r - releases <= 2 * months < 2 * releases * r + releases
  {
    if releases > 0 then RoundDiv(months, releases) else 0
  }

  // ---------------------------------------------------------------------------
  // Languages

  /** One entry of the `/languages` object: a language and its number of bytes. */
  datatype LanguageBytes = LanguageBytes(language: string, bytes: nat)

  function ByBytes(l: LanguageBytes): real { l.bytes as real }

  function Bytes(l: LanguageBytes): int { l.bytes }

  /** The languages sorted by bytes, largest first. */
  function LanguageDistribution(langs: seq<LanguageBytes>): seq<LanguageBytes>
  {
    SortDesc(langs, ByBytes)
  }

  /** `languagePercentages[0]?.language || 'Unknown'`. */
  function PrimaryLanguage(langs: seq<LanguageBytes>): string
  {
    var dist := LanguageDistribution(langs);
    if |dist| > 0 && dist[0].language != "" then dist[0].language else "Unknown"
  }

  /** The primary language is one with the most bytes. */
  lemma PrimaryLanguageLargest(langs: seq<LanguageBytes>)
    requires forall l :: l in langs ==> l.language != ""
    ensures langs == [] ==> PrimaryLanguage(langs) == "Unknown"
    ensures langs != [] ==> exists l :: l in langs && l.language == PrimaryLanguage(langs)
                                     && forall m :: m in langs ==> m.bytes <= l.bytes
  {
    var dist := LanguageDistribution(langs);
    if langs != [] {
      var l := dist[0];
      assert l in multiset(dist);
      forall m | m in langs
        ensures m.bytes <= l.bytes
      {
        assert m in multiset(dist);
        var j :| 0 <= j < |dist| && dist[j] == m;
        assert ByBytes(dist[0]) >= ByBytes(dist[j]) || j == 0;
      }
    }
  }

  /** The exact percentage of one language, `bytes / totalBytes * 100`; None stands for
      the NaN of a zero total. */
  function Share(bytes: nat, total: nat): Option<real>
  {
    if total == 0 then None else Some(bytes as real * 100.0 / total as real)
  }

  /** The exact percentages of `langs` added up. */
  function SharesSum(langs: seq<LanguageBytes>, total: nat): real
    requires total > 0
  {
    if langs == [] then 0.0
    else SharesSum(langs[..|langs| - 1], total) + Share(langs[|langs| - 1].bytes, total).value
  }

  lemma {:induction false} SharesSumScaled(langs: seq<LanguageBytes>, total: nat)
    requires total > 0
    ensures SharesSum(langs, total) == SumBy(langs, Bytes) as real * 100.0 / total as real
  {
    if langs != [] {
      SharesSumScaled(langs[..|langs| - 1], total);
    }
  }

  lemma WholeShares(langs: seq<LanguageBytes>, total: nat)
    requires total > 0 && SumBy(langs, Bytes) == total
    ensures SharesSum(langs, total) == 100.0
  {
    SharesSumScaled(langs, total);
    var t := total as real;
    assert t * 100.0 / t == 100.0;
  }

  /** The percentages of the distribution add up to exactly 100 whenever some language
      has bytes. */
  lemma SharesAddUpTo100(langs: seq<LanguageBytes>)
    requires SumBy(langs, Bytes) > 0
    ensures SharesSum(LanguageDistribution(langs), SumBy(langs, Bytes)) == 100.0
  {
    SumBySort(langs, ByBytes, Bytes);
    WholeShares(LanguageDistribution(langs), SumBy(langs, Bytes));
  }

  // ---------------------------------------------------------------------------
  // Commits

  /** A fetched commit: its author date and the month of that date (year * 12 + month). */
  datatype Commit = Commit(dateMs: int, month: int)

  function CommitMonths(commits: seq<Commit>): (ms: seq<int>)
    ensures |ms| == |commits|
    ensures forall i :: 0 <= i < |commits| ==> ms[i] == commits[i].month
  {
    seq(|commits|, i requires 0 <= i < |commits| => commits[i].month)
  }

  /** Sorting with `a.localeCompare(b)` on "YYYY-MM" keys orders months from oldest to newest. */
  function EarlierFirst(e: Entry<int>): real { -(e.key as real) }

  /** `slice(-n)`: the last n elements, or all of them when there are fewer. */
  function LastN<T>(s: seq<T>, n: nat): (r: seq<T>)
    ensures |r| == Min(n, |s|)
    ensures r == s[|s| - |r|..]
  {
    if |s| <= n then s else s[|s| - n..]
  }

  /** The i-th kept element of `slice(-n)`. */
  lemma LastNAt<T>(s: seq<T>, n: nat, i: int)
    requires 0 <= i < |LastN(s, n)|
    ensures LastN(s, n)[i] == s[|s| - |LastN(s, n)| + i]
  {
  }

  /** The tally of the commit months, oldest month first. */
  function MonthsByAge(months: seq<int>): seq<Entry<int>>
  {
    SortDesc(TallyOf(months), EarlierFirst)
  }

  /** The monthly commit counts, oldest month first, cut to the last twelve months that
      have commits. */
  function CommitTrendOf(months: seq<int>): seq<Entry<int>>
  {
    LastN(MonthsByAge(months), 12)
  }

  /** The `commitsByMonth` loop followed by the sort and the cut. */
  method CommitTrend(commits: seq<Commit>) returns (trend: seq<Entry<int>>)
    ensures trend == CommitTrendOf(CommitMonths(commits))
  {
    var months := CommitMonths(commits);
    var keys, commitsByMonth := CountOccurrences(months);
    var entries := Entries(keys, commitsByMonth);
    assert entries == TallyOf(months);
    trend := LastN(SortDesc(entries, EarlierFirst), 12);
  }

  /** The trend lists at most twelve months, strictly from older to newer, each with its
      number of commits; a month with commits that is left out is older than every
      listed month. */
  lemma CommitTrendSpec(months: seq<int>)
    ensures var t := CommitTrendOf(months);
      && |t| == Min(12, |Distinct(months)|)
      && (forall i, j :: 0 <= i < j < |t| ==> t[i].key < t[j].key)
      && (forall i :: 0 <= i < |t| ==> t[i].count == Count(months, t[i].key) >= 1)
      && (forall m :: m in months && m !in Keys(t) ==> forall i :: 0 <= i < |t| ==> m < t[i].key)
  {
    MonthsAscending(months);
    CommitTrendLength(months);
    CommitTrendAscending(months);
    CommitTrendCounts(months);
    CommitTrendOlder(months);
  }

  predicate KeysAscending(s: seq<Entry<int>>)
  {
    forall i, j :: 0 <= i < j < |s| ==> s[i].key < s[j].key
  }

  /** At most twelve months are listed, all of them when there are no more. */
  lemma CommitTrendLength(months: seq<int>)
    ensures |CommitTrendOf(months)| == Min(12, |Distinct(months)|)
  {
    assert |TallyOf(months)| == |Distinct(months)|;
  }

  /** Sorting the tally by `EarlierFirst` puts the months in strictly ascending order. */
  lemma MonthsAscending(months: seq<int>)
    ensures KeysAscending(MonthsByAge(months))
  {
    var s := MonthsByAge(months);
    SortedTallyDistinct(months, EarlierFirst);
    forall i, j | 0 <= i < j < |s|
      ensures s[i].key < s[j].key
    {
      assert EarlierFirst(s[i]) >= EarlierFirst(s[j]);
      assert Keys(s)[i] != Keys(s)[j];
    }
  }

  /** The listed months are strictly ascending. */
  lemma CommitTrendAscending(months: seq<int>)
    requires KeysAscending(MonthsByAge(months))
    ensures KeysAscending(CommitTrendOf(months))
  {
    var s := MonthsByAge(months);
    var t := CommitTrendOf(months);
    var off := |s| - |t|;
    forall i, j | 0 <= i < j < |t|
      ensures t[i].key < t[j].key
    {
      LastNAt(s, 12, i);
      LastNAt(s, 12, j);
    }
  }

  /** Every listed month carries its number of commits. */
  lemma CommitTrendCounts(months: seq<int>)
    ensures var t := CommitTrendOf(months);
      forall i :: 0 <= i < |t| ==> t[i].count == Count(months, t[i].key) >= 1
  {
    var s := MonthsByAge(months);
    var t := CommitTrendOf(months);
    var off := |s| - |t|;
    forall i | 0 <= i < |t|
      ensures t[i].count == Count(months, t[i].key) >= 1
    {
      LastNAt(s, 12, i);
      MonthsByAgeEntry(months, off + i);
    }
  }

  lemma MonthsByAgeEntry(months: seq<int>, p: int)
    requires 0 <= p < |MonthsByAge(months)|
    ensures MonthsByAge(months)[p].count == Count(months, MonthsByAge(months)[p].key) >= 1
  {
    SortedTallyEntries(months, EarlierFirst, p);
  }

  /** A month with commits that the cut leaves out is older than every listed month. */
  lemma CommitTrendOlder(months: seq<int>)
    requires KeysAscending(MonthsByAge(months))
    ensures var t := CommitTrendOf(months);
      forall m :: m in months && m !in Keys(t) ==> forall i :: 0 <= i < |t| ==> m < t[i].key
  {
    var s := MonthsByAge(months);
    var t := CommitTrendOf(months);
    var off := |s| - |t|;
    forall m | m in months && m !in Keys(t)
      ensures forall i :: 0 <= i < |t| ==> m < t[i].key
    {
      var q := SortedTallyComplete(months, EarlierFirst, m);
      KeyInKeys(t, q - off);
      forall i | 0 <= i < |t|
        ensures m < t[i].key
      {
        LastNAt(s, 12, i);
      }
    }
  }

  /** The commits of the sample dated within the last 30 days. */
  function RecentCommits(commits: seq<Commit>, nowMs: int): (n: nat)
    ensures n <= |commits|
  {
    if commits == [] then 0
    else RecentCommits(commits[..|commits| - 1], nowMs)
         + (if commits[|commits| - 1].dateMs > nowMs - 30 * DayMs then 1 else 0)
  }

  // ---------------------------------------------------------------------------
  // The analytics object

  /** The repository as fetched: the facts the scores read and its two timestamps. */
  datatype RepositoryInfo = RepositoryInfo(facts: RepoFacts, createdMs: int, updatedMs: int)

  datatype Totals = Totals(open: nat, closed: nat, total: nat)

  datatype Scores = Scores(health: int, activity: int, community: int, overall: int)

  datatype Metrics = Metrics(starsPerDay: real, forksPerStar: real, issuesRatio: real, sizePerStar: real)

  datatype Analytics = Analytics(
    age: Age,
    languageCount: nat, distribution: seq<LanguageBytes>, primaryLanguage: string,
    contributorTotal: nat, totalContributions: nat, averageContributions: int,
    commitTotal: nat, commitTrend: seq<Entry<int>>, averagePerMonth: int, recentActivity: nat,
    releaseTotal: nat, releaseFrequency: int, branchTotal: nat, tagTotal: nat,
    issues: Totals, pullRequests: Totals, scores: Scores, metrics: Metrics)

  function Sum(xs: seq<nat>): nat
  {
    if xs == [] then 0 else Sum(xs[..|xs| - 1]) + xs[|xs| - 1]
  }

  /** The ratios of the `metrics` object, each with its guard against a zero divisor. */
  function MetricsOf(f: RepoFacts, days: int): Metrics
  {
    Metrics(
      f.stars as real / Max(days, 1) as real,
      if f.stars > 0 then f.forks as real / f.stars as real else 0.0,
      f.openIssues as real / Max(f.stars, 1) as real,
      if f.stars > 0 then f.size as real / f.stars as real else f.size as real)
  }

  /** generateRepositoryAnalytics. `contributions` holds the `contributions` field of each
      sampled contributor; the other samples enter through their lengths. */
  function GenerateRepositoryAnalytics(repo: RepositoryInfo, contributions: seq<nat>, langs: seq<LanguageBytes>,
                                       commits: seq<Commit>, releases: nat, tags: nat, branches: nat,
                                       totals: TotalCounts, nowMs: int): Analytics
  {
    var age := AgeOf(nowMs, repo.createdMs, repo.updatedMs);
    var commitTotal := ActualCount(totals.commits, |commits|);
    var releaseTotal := ActualCount(totals.releases, releases);
    var contributorTotal := ActualCount(totals.contributors, |contributions|);
    var health := Min(HealthPoints(repo.facts, |contributions|, releases, age.days), 100);
    var activity := Min(ActivityPoints(repo.facts, |commits|, age.daysSinceUpdate, nowMs, repo.createdMs), 100);
    var community := Min(CommunityPoints(repo.facts, |contributions|), 100);
    Analytics(
      age,
      |langs|, LanguageDistribution(langs), PrimaryLanguage(langs),
      contributorTotal, Sum(contributions), AverageContributions(Sum(contributions), contributorTotal),
      commitTotal, CommitTrendOf(CommitMonths(commits)), AveragePerMonth(commitTotal, age.months),
      RecentCommits(commits, nowMs),
      releaseTotal, ReleaseFrequency(age.months, releaseTotal),
      ActualCount(totals.branches, branches), ActualCount(totals.tags, tags),
      Totals(totals.issuesOpen, totals.issuesClosed, totals.issuesOpen + totals.issuesClosed),
      Totals(totals.prsOpen, totals.prsClosed, totals.prsOpen + totals.prsClosed),
      Scores(health, activity, community, OverallScore(health, activity, community)),
      MetricsOf(repo.facts, age.days))
  }

  /** The analytics object: issue and pull-request totals are open plus closed; the
      scores are the uncapped points, the health and community scores read the sampled
      contributors and releases rather than the inferred totals, and every score,
      the overall one included, lies in [0, 100]; no release means a frequency of 0. */
  lemma AnalyticsSpec(repo: RepositoryInfo, contributions: seq<nat>, langs: seq<LanguageBytes>,
                      commits: seq<Commit>, releases: nat, tags: nat, branches: nat,
                      totals: TotalCounts, nowMs: int)
    ensures var a := GenerateRepositoryAnalytics(repo, contributions, langs, commits, releases, tags, branches, totals, nowMs);
      && a.issues.total == a.issues.open + a.issues.closed
      && a.pullRequests.total == a.pullRequests.open + a.pullRequests.closed
      && a.scores.health == HealthPoints(repo.facts, |contributions|, releases, a.age.days)
      && a.scores.activity == ActivityPoints(repo.facts, |commits|, a.age.daysSinceUpdate, nowMs, repo.createdMs)
      && a.scores.community == CommunityPoints(repo.facts, |contributions|)
      && 0 <= a.scores.health <= 100 && 0 <= a.scores.activity <= 100 && 0 <= a.scores.community <= 100
      && 0 <= a.scores.overall <= 100
      && (a.releaseTotal == 0 ==> a.releaseFrequency == 0)
  {
    var age := AgeOf(nowMs, repo.createdMs, repo.updatedMs);
    HealthAtMost100(repo.facts, |contributions|, releases, age.days);
    ActivityAtMost90(repo.facts, |commits|, age.daysSinceUpdate, nowMs, repo.createdMs);
    CommunityAtMost100(repo.facts, |contributions|);
    var a := GenerateRepositoryAnalytics(repo, contributions, langs, commits, releases, tags, branches, totals, nowMs);
    OverallBetween(a.scores.health, a.scores.activity, a.scores.community);
  }
}
