/** The figures src/components/CompareMode.js derives for two users side by side: the
    per-user aggregates, the radar values, the language distribution, the efficiency
    ratios and the winner of each summary line. Ratios are exact reals. */
module CompareMode {
  import opened Common
  import opened Tally
  import opened TrendingApi
  import opened ProfileRepos

  datatype Profile = Profile(login: string, followers: nat, following: nat, publicRepos: nat, createdMs: int)

  /** The 365-day year the account age is measured in. */
  const YearMs: int := 1000 * 60 * 60 * 24 * 365

  datatype UserMetrics = UserMetrics(totalStars: int, totalForks: int, totalSize: int,
                                     avgStarsPerRepo: real, avgForksPerRepo: real, topRepoStars: int,
                                     languageCount: nat, accountAge: int, followerRatio: real, repoActivity: nat)

  /** `Math.max(...repos.map(repo => repo.stargazers_count), 0)`. */
  function TopRepoStars(repos: seq<ProfileRepo>): (m: int)
    ensures m >= 0
    ensures forall r :: r in repos ==> r.info.stars <= m
    ensures m == 0 || exists r :: r in repos && r.info.stars == m
  {
    if repos == [] then 0
    else
      var rest := TopRepoStars(repos[..|repos| - 1]);
      var last := repos[|repos| - 1];
      assert repos == repos[..|repos| - 1] + [last];
      Max(rest, last.info.stars)
  }

  /** The repositories updated after the instant one year before now. */
  function RecentlyUpdated(repos: seq<ProfileRepo>, oneYearAgoMs: int): (n: nat)
    ensures n <= |repos|
  {
    if repos == [] then 0
    else RecentlyUpdated(repos[..|repos| - 1], oneYearAgoMs) + if repos[|repos| - 1].updatedMs > oneYearAgoMs then 1 else 0
  }

  /** `metrics1` / `metrics2` for one user; `nowMs` and `oneYearAgoMs` stand for the clock. */
  function MetricsOf(user: Profile, repos: seq<ProfileRepo>, nowMs: int, oneYearAgoMs: int): UserMetrics
  {
    UserMetrics(TotalStars(repos), TotalForks(repos), TotalSize(repos),
                Average(TotalStars(repos), |repos|), Average(TotalForks(repos), |repos|),
                TopRepoStars(repos), |Distinct(ProfileLanguages(repos))|,
                (nowMs - user.createdMs) / YearMs,
                if user.following > 0 then user.followers as real / user.following as real else user.followers as real,
                RecentlyUpdated(repos, oneYearAgoMs))
  }

  /** The averages are 0 without repositories and otherwise, times the count, give the
      totals; the top star count is 0 without repositories. */
  lemma MetricsAverages(user: Profile, repos: seq<ProfileRepo>, nowMs: int, oneYearAgoMs: int)
    ensures var m := MetricsOf(user, repos, nowMs, oneYearAgoMs);
      && (repos == [] ==> m.avgStarsPerRepo == 0.0 && m.avgForksPerRepo == 0.0 && m.topRepoStars == 0)
      && (repos != [] ==> m.avgStarsPerRepo * |repos| as real == m.totalStars as real
                          && m.avgForksPerRepo * |repos| as real == m.totalForks as real)
      && m.totalStars >= 0 && m.totalForks >= 0 && m.avgStarsPerRepo >= 0.0
  {
    TotalsNonNegative(repos);
    AveragesOf(MetricsOf(user, repos, nowMs, oneYearAgoMs), repos);
  }

  /** The averages of one set of metrics over the repositories. */
  lemma AveragesOf(m: UserMetrics, repos: seq<ProfileRepo>)
    requires m.totalStars == TotalStars(repos) && m.totalForks == TotalForks(repos)
    requires m.avgStarsPerRepo == Average(TotalStars(repos), |repos|)
    requires m.avgForksPerRepo == Average(TotalForks(repos), |repos|)
    ensures repos == [] ==> m.avgStarsPerRepo == 0.0 && m.avgForksPerRepo == 0.0
    ensures repos != [] ==> m.avgStarsPerRepo * |repos| as real == m.totalStars as real
                            && m.avgForksPerRepo * |repos| as real == m.totalForks as real
    ensures TotalStars(repos) >= 0 ==> m.avgStarsPerRepo >= 0.0
  {
  }

  /** The language count counts each language once and is at most the number of
      repositories; the follower ratio falls back to the followers; the activity count is
      at most the number of repositories; the account age is whole 365-day years. */
  lemma MetricsCounts(user: Profile, repos: seq<ProfileRepo>, nowMs: int, oneYearAgoMs: int)
    ensures var m := MetricsOf(user, repos, nowMs, oneYearAgoMs);
      && m.languageCount <= |repos|
      && (forall l :: l in ProfileLanguages(repos) <==> l in Distinct(ProfileLanguages(repos)))
      && NoDuplicates(Distinct(ProfileLanguages(repos)))
      && (user.following == 0 ==> m.followerRatio == user.followers as real)
      && m.repoActivity <= |repos|
      && YearMs * m.accountAge <= nowMs - user.createdMs < YearMs * (m.accountAge + 1)
  {
    LanguagesOfLength(Infos(repos));
    CountsOf(MetricsOf(user, repos, nowMs, oneYearAgoMs), user, repos, nowMs, oneYearAgoMs);
  }

  /** The count fields of one set of metrics, from the values they were built from. */
  lemma CountsOf(m: UserMetrics, user: Profile, repos: seq<ProfileRepo>, nowMs: int, oneYearAgoMs: int)
    requires m.languageCount == |Distinct(ProfileLanguages(repos))|
    requires m.repoActivity == RecentlyUpdated(repos, oneYearAgoMs)
    requires m.accountAge == (nowMs - user.createdMs) / YearMs
    requires m.followerRatio == if user.following > 0 then user.followers as real / user.following as real
                                else user.followers as real
    requires |ProfileLanguages(repos)| <= |repos|
    ensures m.languageCount <= |repos|
    ensures user.following == 0 ==> m.followerRatio == user.followers as real
    ensures m.repoActivity <= |repos|
    ensures YearMs * m.accountAge <= nowMs - user.createdMs < YearMs * (m.accountAge + 1)
  {
    WholeYears(nowMs - user.createdMs, m.accountAge);
  }

  lemma WholeYears(ms: int, years: int)
    requires years == ms / YearMs
    ensures YearMs * years <= ms < YearMs * (years + 1)
  {
  }

  // ---------------------------------------------------------------------------
  // Radar values

  datatype RadarValues = RadarValues(stars: real, repos: real, followers: real, languages: real,
                                     activity: real, impact: real)

  function RadarOf(user: Profile, m: UserMetrics): RadarValues
  {
    RadarValues(Clamp100(m.totalStars as real / 10.0), Clamp100((user.publicRepos * 2) as real),
                Clamp100(user.followers as real / 5.0), Clamp100((m.languageCount * 10) as real),
                Clamp100((m.repoActivity * 5) as real), Clamp100((m.totalForks * 3) as real))
  }

  /** Every radar value lies in [0, 100] and is the scaled figure itself while that stays
      within the chart. */
  lemma RadarBounds(user: Profile, repos: seq<ProfileRepo>, nowMs: int, oneYearAgoMs: int)
    ensures var m := MetricsOf(user, repos, nowMs, oneYearAgoMs);
      var v := RadarOf(user, m);
      && 0.0 <= v.stars <= 100.0 && 0.0 <= v.repos <= 100.0 && 0.0 <= v.followers <= 100.0
      && 0.0 <= v.languages <= 100.0 && 0.0 <= v.activity <= 100.0 && 0.0 <= v.impact <= 100.0
      && (m.totalStars <= 1000 ==> v.stars == m.totalStars as real / 10.0)
      && (user.publicRepos <= 50 ==> v.repos == (2 * user.publicRepos) as real)
      && (m.languageCount >= 10 ==> v.languages == 100.0)
  {
    TotalsNonNegative(repos);
  }

  // ---------------------------------------------------------------------------
  // getLanguageDistribution

  /** The counting forEach and the sort-and-cut at five. */
  method GetLanguageDistribution(repos: seq<ProfileRepo>) returns (top: seq<Entry<string>>)
    ensures top == TopCountsOf(ProfileLanguages(repos), 5)
  {
    top := TopCounts(ProfileLanguages(repos), 5);
  }

  /** At most five languages, most used first, each once, each with the number of
      repositories written in it. */
  lemma LanguageDistributionSpec(repos: seq<ProfileRepo>)
    ensures var top := TopCountsOf(ProfileLanguages(repos), 5);
      && |top| == Min(5, |Distinct(ProfileLanguages(repos))|)
      && SortedDesc(top, ByCount)
      && NoDuplicates(Keys(top))
      && (forall i :: 0 <= i < |top| ==> top[i].key in ProfileLanguages(repos)
                                         && top[i].count == Count(ProfileLanguages(repos), top[i].key) >= 1)
  {
    TopCountsShape(ProfileLanguages(repos), 5);
  }

  // ---------------------------------------------------------------------------
  // Efficiency and the summary

  datatype Efficiency = Efficiency(starsPerRepo: real, forksPerRepo: real, starsPerFollower: real, repoPerYear: real)

  function EfficiencyOf(user: Profile, m: UserMetrics): Efficiency
  {
    Efficiency(m.avgStarsPerRepo, m.avgForksPerRepo,
               if user.followers > 0 then m.totalStars as real / user.followers as real else 0.0,
               if m.accountAge > 0 then user.publicRepos as real / m.accountAge as real else 0.0)
  }

  /** The divisions are guarded: no followers give 0 stars per follower, an account
      younger than a year gives 0 repositories per year. */
  lemma EfficiencyGuards(user: Profile, m: UserMetrics)
    ensures user.followers == 0 ==> EfficiencyOf(user, m).starsPerFollower == 0.0
    ensures m.accountAge <= 0 ==> EfficiencyOf(user, m).repoPerYear == 0.0
    ensures user.followers > 0 ==>
              EfficiencyOf(user, m).starsPerFollower * user.followers as real == m.totalStars as real
    ensures m.accountAge > 0 ==> EfficiencyOf(user, m).repoPerYear * m.accountAge as real == user.publicRepos as real
  {
  }

  /** Who wins one summary line. */
  function SummaryWinner(a: real, b: real): Side
  {
    if a > b then First else if b > a then Second else Neither
  }

  datatype Summary = Summary(impact: Side, productivity: Side, quality: Side)

  function SummaryOf(m1: UserMetrics, e1: Efficiency, m2: UserMetrics, e2: Efficiency): Summary
  {
    Summary(SummaryWinner(m1.totalStars as real, m2.totalStars as real),
            SummaryWinner(e1.repoPerYear, e2.repoPerYear),
            SummaryWinner(e1.starsPerRepo, e2.starsPerRepo))
  }

  /** Each line names the user with the strictly greater figure and says "Tie" on equal
      figures; swapping the users swaps every winner. */
  lemma SummarySpec(m1: UserMetrics, e1: Efficiency, m2: UserMetrics, e2: Efficiency)
    ensures var s := SummaryOf(m1, e1, m2, e2);
      && (s.impact == First <==> m1.totalStars > m2.totalStars)
      && (s.impact == Second <==> m2.totalStars > m1.totalStars)
      && (s.impact == Neither <==> m1.totalStars == m2.totalStars)
      && (s.productivity == First <==> e1.repoPerYear > e2.repoPerYear)
      && (s.productivity == Neither <==> e1.repoPerYear == e2.repoPerYear)
      && (s.quality == First <==> e1.starsPerRepo > e2.starsPerRepo)
      && (s.quality == Neither <==> e1.starsPerRepo == e2.starsPerRepo)
    ensures var s := SummaryOf(m1, e1, m2, e2);
      var t := SummaryOf(m2, e2, m1, e1);
      && (s.impact == First <==> t.impact == Second)
      && (s.productivity == First <==> t.productivity == Second)
      && (s.quality == First <==> t.quality == Second)
  {
  }
}
