/** The three point scores of src/services/repositoryApi.js (calculateHealthScore,
    calculateActivityScore, calculateCommunityScore) and their overall mean. Each score
    adds fixed points per feature; where a feature has several tiers, an if / else-if
    chain grants only the first tier that applies. Each chain is given here as a tier
    table read top-down. */
module RepositoryScores {
  import opened Common

  /** The fields of a repository that the scores read. */
  datatype RepoFacts = RepoFacts(
    description: Option<string>, homepage: Option<string>,
    stars: nat, forks: nat, watchers: nat, openIssues: nat, size: nat,
    hasIssues: bool, hasProjects: bool, hasWiki: bool, hasPages: bool,
    hasLicense: bool, isPrivate: bool)

  /** One rung of a tier chain: `points` when the value passes `threshold`. */
  datatype Tier = Tier(threshold: real, points: nat)

  /** The points of the first tier whose threshold `value` exceeds, 0 if there is none. */
  function Above(value: real, tiers: seq<Tier>): nat
  {
    if tiers == [] then 0
    else if value > tiers[0].threshold then tiers[0].points
    else Above(value, tiers[1..])
  }

  /** The points of the first tier whose threshold `value` stays under, 0 if there is none. */
  function Below(value: real, tiers: seq<Tier>): nat
  {
    if tiers == [] then 0
    else if value < tiers[0].threshold then tiers[0].points
    else Below(value, tiers[1..])
  }

  /** Thresholds from high to low with points from high to low. */
  predicate Descending(tiers: seq<Tier>)
  {
    forall i, j :: 0 <= i < j < |tiers| ==> tiers[i].threshold > tiers[j].threshold && tiers[i].points >= tiers[j].points
  }

  /** Thresholds from low to high with points from high to low. */
  predicate Ascending(tiers: seq<Tier>)
  {
    forall i, j :: 0 <= i < j < |tiers| ==> tiers[i].threshold < tiers[j].threshold && tiers[i].points >= tiers[j].points
  }

  lemma {:induction false} AboveAtMostFirst(value: real, tiers: seq<Tier>)
    requires Descending(tiers) && tiers != []
    ensures Above(value, tiers) <= tiers[0].points
  {
    if value <= tiers[0].threshold && |tiers| > 1 {
      AboveAtMostFirst(value, tiers[1..]);
    }
  }

  /** A larger value never earns fewer points in a descending chain. */
  lemma {:induction false} AboveMonotone(v: real, w: real, tiers: seq<Tier>)
    requires Descending(tiers) && v <= w
    ensures Above(v, tiers) <= Above(w, tiers)
  {
    if tiers != [] {
      if w > tiers[0].threshold {
        AboveAtMostFirst(v, tiers);
      } else {
        AboveMonotone(v, w, tiers[1..]);
      }
    }
  }

  lemma {:induction false} BelowAtMostFirst(value: real, tiers: seq<Tier>)
    requires Ascending(tiers) && tiers != []
    ensures Below(value, tiers) <= tiers[0].points
  {
    if value >= tiers[0].threshold && |tiers| > 1 {
      BelowAtMostFirst(value, tiers[1..]);
    }
  }

  /** A smaller value never earns fewer points in an ascending chain. */
  lemma {:induction false} BelowAntitone(v: real, w: real, tiers: seq<Tier>)
    requires Ascending(tiers) && v <= w
    ensures Below(w, tiers) <= Below(v, tiers)
  {
    if tiers != [] {
      if v < tiers[0].threshold {
        BelowAtMostFirst(w, tiers);
      } else {
        BelowAntitone(v, w, tiers[1..]);
      }
    }
  }

  function Flag(b: bool, points: nat): nat { if b then points else 0 }

  // ---------------------------------------------------------------------------
  // Health

  const AgeTiers: seq<Tier> := [Tier(30.0, 20), Tier(90.0, 15), Tier(365.0, 10)]
  const HealthStarTiers: seq<Tier> := [Tier(100.0, 15), Tier(10.0, 10), Tier(0.0, 5)]
  const MaintainerTiers: seq<Tier> := [Tier(5.0, 10), Tier(1.0, 5)]

  /** `open_issues_count < stargazers_count * 0.1`, read over exact numbers. */
  predicate FewOpenIssues(repo: RepoFacts)
  {
    10 * repo.openIssues < repo.stars
  }

  /** The uncapped health points: documentation, age, stars, sampled contributors,
      sampled releases, license and issue management. */
  function HealthPoints(repo: RepoFacts, contributors: nat, releases: nat, ageInDays: int): nat
  {
    Flag(Truthy(repo.description), 15) + Flag(Truthy(repo.homepage), 10)
    + Below(ageInDays as real, AgeTiers)
    + Above(repo.stars as real, HealthStarTiers)
    + Above(contributors as real, MaintainerTiers)
    + Flag(releases > 0, 10) + Flag(repo.hasLicense, 10)
    + Flag(repo.hasIssues && FewOpenIssues(repo), 10)
  }

  // Each chain of tiers read as the source's if / else-if chain.
  lemma AgeTierValue(v: real)
    ensures Below(v, AgeTiers) == (if v < 30.0 then 20 else if v < 90.0 then 15 else if v < 365.0 then 10 else 0)
  {
    var t0 := AgeTiers;
    var t1 := t0[1..];
    var t2 := t1[1..];
    var t3 := t2[1..];
    assert t3 == [];
    assert t2 == [Tier(365.0, 10)];
    assert Below(v, t2) == (if v < 365.0 then 10 else Below(v, t3));
    assert t1 == [Tier(90.0, 15), Tier(365.0, 10)];
    assert Below(v, t1) == (if v < 90.0 then 15 else Below(v, t2));
    assert t0 == [Tier(30.0, 20), Tier(90.0, 15), Tier(365.0, 10)];
    assert Below(v, t0) == (if v < 30.0 then 20 else Below(v, t1));
  }

  lemma HealthStarTierValue(v: real)
    ensures Above(v, HealthStarTiers) == (if v > 100.0 then 15 else if v > 10.0 then 10 else if v > 0.0 then 5 else 0)
  {
    var t0 := HealthStarTiers;
    var t1 := t0[1..];
    var t2 := t1[1..];
    var t3 := t2[1..];
    assert t3 == [];
    assert t2 == [Tier(0.0, 5)];
    assert Above(v, t2) == (if v > 0.0 then 5 else Above(v, t3));
    assert t1 == [Tier(10.0, 10), Tier(0.0, 5)];
    assert Above(v, t1) == (if v > 10.0 then 10 else Above(v, t2));
    assert t0 == [Tier(100.0, 15), Tier(10.0, 10), Tier(0.0, 5)];
    assert Above(v, t0) == (if v > 100.0 then 15 else Above(v, t1));
  }

  lemma MaintainerTierValue(v: real)
    ensures Above(v, MaintainerTiers) == (if v > 5.0 then 10 else if v > 1.0 then 5 else 0)
  {
    var t0 := MaintainerTiers;
    var t1 := t0[1..];
    var t2 := t1[1..];
    assert t2 == [];
    assert t1 == [Tier(1.0, 5)];
    assert Above(v, t1) == (if v > 1.0 then 5 else Above(v, t2));
    assert t0 == [Tier(5.0, 10), Tier(1.0, 5)];
    assert Above(v, t0) == (if v > 5.0 then 10 else Above(v, t1));
  }

  /** calculateHealthScore, given the number of sampled contributors and releases. */
  method CalculateHealthScore(repo: RepoFacts, contributors: nat, releases: nat, ageInDays: int) returns (score: int)
    ensures score == HealthPoints(repo, contributors, releases, ageInDays)
    ensures 0 <= score <= 100
  {
    score := 0;
    if Truthy(repo.description) { score := score + 15; }
    if Truthy(repo.homepage) { score := score + 10; }
    assert score == Flag(Truthy(repo.description), 15) + Flag(Truthy(repo.homepage), 10);
    ghost var links := score;
    AgeTierValue(ageInDays as real);
    if ageInDays < 30 { score := score + 20; }
    else if ageInDays < 90 { score := score + 15; }
    else if ageInDays < 365 { score := score + 10; }
    assert score == links + Below(ageInDays as real, AgeTiers);
    ghost var age := score;
    HealthStarTierValue(repo.stars as real);
    if repo.stars > 100 { score := score + 15; }
    else if repo.stars > 10 { score := score + 10; }
    else if repo.stars > 0 { score := score + 5; }
    assert score == age + Above(repo.stars as real, HealthStarTiers);
    ghost var stars := score;
    MaintainerTierValue(contributors as real);
    if contributors > 5 { score := score + 10; }
    else if contributors > 1 { score := score + 5; }
    assert score == stars + Above(contributors as real, MaintainerTiers);
    ghost var maintainers := score;
    if releases > 0 { score := score + 10; }
    if repo.hasLicense { score := score + 10; }
    if repo.hasIssues && 10 * repo.openIssues < repo.stars { score := score + 10; }
    assert score == maintainers + Flag(releases > 0, 10) + Flag(repo.hasLicense, 10)
                    + Flag(repo.hasIssues && FewOpenIssues(repo), 10);
    assert score == HealthPoints(repo, contributors, releases, ageInDays);
    HealthAtMost100(repo, contributors, releases, ageInDays);
    assert 0 <= score <= 100;
    score := Min(score, 100);
  }

  /** The health points never exceed 100, so the final Math.min never changes them. */
  lemma HealthAtMost100(repo: RepoFacts, contributors: nat, releases: nat, ageInDays: int)
    ensures HealthPoints(repo, contributors, releases, ageInDays) <= 100
  {
    BelowAtMostFirst(ageInDays as real, AgeTiers);
    AboveAtMostFirst(repo.stars as real, HealthStarTiers);
    AboveAtMostFirst(contributors as real, MaintainerTiers);
  }

  /** More stars or more contributors never lower the health score; an older
      repository never scores higher than a younger one with the same other facts. */
  lemma HealthMonotone(repo: RepoFacts, contributors: nat, releases: nat, ageInDays: int,
                       stars': nat, contributors': nat, ageInDays': int)
    requires repo.stars <= stars' && contributors <= contributors' && ageInDays' <= ageInDays
    ensures HealthPoints(repo, contributors, releases, ageInDays)
         <= HealthPoints(repo.(stars := stars'), contributors', releases, ageInDays')
  {
    AboveMonotone(repo.stars as real, stars' as real, HealthStarTiers);
    AboveMonotone(contributors as real, contributors' as real, MaintainerTiers);
    BelowAntitone(ageInDays' as real, ageInDays as real, AgeTiers);
  }

  // ---------------------------------------------------------------------------
  // Activity

  const MonthMs: int := 1000 * 60 * 60 * 24 * 30
  const UpdateTiers: seq<Tier> := [Tier(7.0, 30), Tier(30.0, 20), Tier(90.0, 10)]
  const CommitRateTiers: seq<Tier> := [Tier(10.0, 25), Tier(5.0, 20), Tier(1.0, 15), Tier(0.0, 10)]

  /** The number of whole 30-day months since creation, at least 1. */
  function MonthsSinceCreation(nowMs: int, createdMs: int): (m: int)
    ensures m >= 1
  {
    Max(1, (nowMs - createdMs) / MonthMs)
  }

  /** Sampled commits per month of the repository's life, as an exact ratio. */
  function CommitsPerMonth(commits: nat, nowMs: int, createdMs: int): real
  {
    commits as real / MonthsSinceCreation(nowMs, createdMs) as real
  }

  function ActivityPoints(repo: RepoFacts, commits: nat, daysSinceUpdate: int, nowMs: int, createdMs: int): nat
  {
    Below(daysSinceUpdate as real, UpdateTiers)
    + Above(CommitsPerMonth(commits, nowMs, createdMs), CommitRateTiers)
    + Flag(repo.hasIssues, 10) + Flag(repo.hasProjects, 5) + Flag(repo.hasWiki, 5) + Flag(repo.hasPages, 5)
    + Flag(repo.size > 1000, 10)
  }

  lemma UpdateTierValue(v: real)
    ensures Below(v, UpdateTiers) == (if v < 7.0 then 30 else if v < 30.0 then 20 else if v < 90.0 then 10 else 0)
  {
    var t0 := UpdateTiers;
    var t1 := t0[1..];
    var t2 := t1[1..];
    var t3 := t2[1..];
    assert t3 == [];
    assert t2 == [Tier(90.0, 10)];
    assert Below(v, t2) == (if v < 90.0 then 10 else Below(v, t3));
    assert t1 == [Tier(30.0, 20), Tier(90.0, 10)];
    assert Below(v, t1) == (if v < 30.0 then 20 else Below(v, t2));
    assert t0 == [Tier(7.0, 30), Tier(30.0, 20), Tier(90.0, 10)];
    assert Below(v, t0) == (if v < 7.0 then 30 else Below(v, t1));
  }

  lemma CommitRateTierValue(v: real)
    ensures Above(v, CommitRateTiers) == (if v > 10.0 then 25 else if v > 5.0 then 20 else if v > 1.0 then 15 else if v > 0.0 then 10 else 0)
  {
    var t0 := CommitRateTiers;
    var t1 := t0[1..];
    var t2 := t1[1..];
    var t3 := t2[1..];
    var t4 := t3[1..];
    assert t4 == [];
    assert t3 == [Tier(0.0, 10)];
    assert Above(v, t3) == (if v > 0.0 then 10 else Above(v, t4));
    assert t2 == [Tier(1.0, 15), Tier(0.0, 10)];
    assert Above(v, t2) == (if v > 1.0 then 15 else Above(v, t3));
    assert t1 == [Tier(5.0, 20), Tier(1.0, 15), Tier(0.0, 10)];
    assert Above(v, t1) == (if v > 5.0 then 20 else Above(v, t2));
    assert t0 == [Tier(10.0, 25), Tier(5.0, 20), Tier(1.0, 15), Tier(0.0, 10)];
    assert Above(v, t0) == (if v > 10.0 then 25 else Above(v, t1));
  }

  /** calculateActivityScore, with the clock reading `nowMs` as a parameter. */
  method CalculateActivityScore(repo: RepoFacts, commits: nat, daysSinceUpdate: int, nowMs: int, createdMs: int)
    returns (score: int)
    ensures score == ActivityPoints(repo, commits, daysSinceUpdate, nowMs, createdMs)
    ensures 0 <= score <= 90
  {
    score := 0;
    if daysSinceUpdate < 7 { score := score + 30; }
    else if daysSinceUpdate < 30 { score := score + 20; }
    else if daysSinceUpdate < 90 { score := score + 10; }
    UpdateTierValue(daysSinceUpdate as real);
    assert score == Below(daysSinceUpdate as real, UpdateTiers);
    var commitsPerMonth := commits as real / Max(1, (nowMs - createdMs) / MonthMs) as real;
    CommitRateTierValue(commitsPerMonth);
    ghost var recency := score;
    if commitsPerMonth > 10.0 { score := score + 25; }
    else if commitsPerMonth > 5.0 { score := score + 20; }
    else if commitsPerMonth > 1.0 { score := score + 15; }
    else if commitsPerMonth > 0.0 { score := score + 10; }
    assert score == recency + Above(CommitsPerMonth(commits, nowMs, createdMs), CommitRateTiers);
    ghost var rate := score;
    if repo.hasIssues { score := score + 10; }
    if repo.hasProjects { score := score + 5; }
    if repo.hasWiki { score := score + 5; }
    if repo.hasPages { score := score + 5; }
    if repo.size > 1000 { score := score + 10; }
    assert score == rate + Flag(repo.hasIssues, 10) + Flag(repo.hasProjects, 5) + Flag(repo.hasWiki, 5)
                   + Flag(repo.hasPages, 5) + Flag(repo.size > 1000, 10);
    assert score == ActivityPoints(repo, commits, daysSinceUpdate, nowMs, createdMs);
    ActivityAtMost90(repo, commits, daysSinceUpdate, nowMs, createdMs);
    assert 0 <= score <= 90;
    score := Min(score, 100);
  }

  /** The activity points reach at most 30 + 25 + 10 + 5 + 5 + 5 + 10 = 90. */
  lemma ActivityAtMost90(repo: RepoFacts, commits: nat, daysSinceUpdate: int, nowMs: int, createdMs: int)
    ensures ActivityPoints(repo, commits, daysSinceUpdate, nowMs, createdMs) <= 90
  {
    BelowAtMostFirst(daysSinceUpdate as real, UpdateTiers);
    AboveAtMostFirst(CommitsPerMonth(commits, nowMs, createdMs), CommitRateTiers);
  }

  /** A more recent update or more sampled commits never lower the activity score. */
  lemma ActivityMonotone(repo: RepoFacts, commits: nat, daysSinceUpdate: int, nowMs: int, createdMs: int,
                         commits': nat, daysSinceUpdate': int)
    requires commits <= commits' && daysSinceUpdate' <= daysSinceUpdate
    ensures ActivityPoints(repo, commits, daysSinceUpdate, nowMs, createdMs)
         <= ActivityPoints(repo, commits', daysSinceUpdate', nowMs, createdMs)
  {
    var m := MonthsSinceCreation(nowMs, createdMs) as real;
    assert commits as real / m <= commits' as real / m;
    AboveMonotone(CommitsPerMonth(commits, nowMs, createdMs), CommitsPerMonth(commits', nowMs, createdMs), CommitRateTiers);
    BelowAntitone(daysSinceUpdate' as real, daysSinceUpdate as real, UpdateTiers);
  }

  // ---------------------------------------------------------------------------
  // Community

  const CommunityStarTiers: seq<Tier> := [Tier(1000.0, 25), Tier(100.0, 20), Tier(10.0, 15), Tier(0.0, 10)]
  const ForkTiers: seq<Tier> := [Tier(100.0, 20), Tier(10.0, 15), Tier(0.0, 10)]
  const ContributorTiers: seq<Tier> := [Tier(20.0, 20), Tier(10.0, 15), Tier(5.0, 10), Tier(1.0, 5)]
  const WatcherTiers: seq<Tier> := [Tier(50.0, 15), Tier(10.0, 10), Tier(0.0, 5)]

  function CommunityPoints(repo: RepoFacts, contributors: nat): nat
  {
    Above(repo.stars as real, CommunityStarTiers)
    + Above(repo.forks as real, ForkTiers)
    + Above(contributors as real, ContributorTiers)
    + Above(repo.watchers as real, WatcherTiers)
    + Flag(repo.hasLicense, 10) + Flag(repo.hasIssues, 5) + Flag(!repo.isPrivate, 5)
  }

  lemma CommunityStarTierValue(v: real)
    ensures Above(v, CommunityStarTiers) == (if v > 1000.0 then 25 else if v > 100.0 then 20 else if v > 10.0 then 15 else if v > 0.0 then 10 else 0)
  {
    var t0 := CommunityStarTiers;
    var t1 := t0[1..];
    var t2 := t1[1..];
    var t3 := t2[1..];
    var t4 := t3[1..];
    assert t4 == [];
    assert t3 == [Tier(0.0, 10)];
    assert Above(v, t3) == (if v > 0.0 then 10 else Above(v, t4));
    assert t2 == [Tier(10.0, 15), Tier(0.0, 10)];
    assert Above(v, t2) == (if v > 10.0 then 15 else Above(v, t3));
    assert t1 == [Tier(100.0, 20), Tier(10.0, 15), Tier(0.0, 10)];
    assert Above(v, t1) == (if v > 100.0 then 20 else Above(v, t2));
    assert t0 == [Tier(1000.0, 25), Tier(100.0, 20), Tier(10.0, 15), Tier(0.0, 10)];
    assert Above(v, t0) == (if v > 1000.0 then 25 else Above(v, t1));
  }

  lemma ForkTierValue(v: real)
    ensures Above(v, ForkTiers) == (if v > 100.0 then 20 else if v > 10.0 then 15 else if v > 0.0 then 10 else 0)
  {
    var t0 := ForkTiers;
    var t1 := t0[1..];
    var t2 := t1[1..];
    var t3 := t2[1..];
    assert t3 == [];
    assert t2 == [Tier(0.0, 10)];
    assert Above(v, t2) == (if v > 0.0 then 10 else Above(v, t3));
    assert t1 == [Tier(10.0, 15), Tier(0.0, 10)];
    assert Above(v, t1) == (if v > 10.0 then 15 else Above(v, t2));
    assert t0 == [Tier(100.0, 20), Tier(10.0, 15), Tier(0.0, 10)];
    assert Above(v, t0) == (if v > 100.0 then 20 else Above(v, t1));
  }

  lemma ContributorTierValue(v: real)
    ensures Above(v, ContributorTiers) == (if v > 20.0 then 20 else if v > 10.0 then 15 else if v > 5.0 then 10 else if v > 1.0 then 5 else 0)
  {
    var t0 := ContributorTiers;
    var t1 := t0[1..];
    var t2 := t1[1..];
    var t3 := t2[1..];
    var t4 := t3[1..];
    assert t4 == [];
    assert t3 == [Tier(1.0, 5)];
    assert Above(v, t3) == (if v > 1.0 then 5 else Above(v, t4));
    assert t2 == [Tier(5.0, 10), Tier(1.0, 5)];
    assert Above(v, t2) == (if v > 5.0 then 10 else Above(v, t3));
    assert t1 == [Tier(10.0, 15), Tier(5.0, 10), Tier(1.0, 5)];
    assert Above(v, t1) == (if v > 10.0 then 15 else Above(v, t2));
    assert t0 == [Tier(20.0, 20), Tier(10.0, 15), Tier(5.0, 10), Tier(1.0, 5)];
    assert Above(v, t0) == (if v > 20.0 then 20 else Above(v, t1));
  }

  lemma WatcherTierValue(v: real)
    ensures Above(v, WatcherTiers) == (if v > 50.0 then 15 else if v > 10.0 then 10 else if v > 0.0 then 5 else 0)
  {
    var t0 := WatcherTiers;
    var t1 := t0[1..];
    var t2 := t1[1..];
    var t3 := t2[1..];
    assert t3 == [];
    assert t2 == [Tier(0.0, 5)];
    assert Above(v, t2) == (if v > 0.0 then 5 else Above(v, t3));
    assert t1 == [Tier(10.0, 10), Tier(0.0, 5)];
    assert Above(v, t1) == (if v > 10.0 then 10 else Above(v, t2));
    assert t0 == [Tier(50.0, 15), Tier(10.0, 10), Tier(0.0, 5)];
    assert Above(v, t0) == (if v > 50.0 then 15 else Above(v, t1));
  }

  /** calculateCommunityScore, given the number of sampled contributors. */
  method CalculateCommunityScore(repo: RepoFacts, contributors: nat) returns (score: int)
    ensures score == CommunityPoints(repo, contributors)
    ensures 0 <= score <= 100
  {
    CommunityStarTierValue(repo.stars as real);
    ForkTierValue(repo.forks as real);
    ContributorTierValue(contributors as real);
    WatcherTierValue(repo.watchers as real);
    score := 0;
    if repo.stars > 1000 { score := score + 25; }
    else if repo.stars > 100 { score := score + 20; }
    else if repo.stars > 10 { score := score + 15; }
    else if repo.stars > 0 { score := score + 10; }
    assert score == Above(repo.stars as real, CommunityStarTiers);
    if repo.forks > 100 { score := score + 20; }
    else if repo.forks > 10 { score := score + 15; }
    else if repo.forks > 0 { score := score + 10; }
    assert score == Above(repo.stars as real, CommunityStarTiers) + Above(repo.forks as real, ForkTiers);
    if contributors > 20 { score := score + 20; }
    else if contributors > 10 { score := score + 15; }
    else if contributors > 5 { score := score + 10; }
    else if contributors > 1 { score := score + 5; }
    assert score == Above(repo.stars as real, CommunityStarTiers) + Above(repo.forks as real, ForkTiers)
                    + Above(contributors as real, ContributorTiers);
    if repo.watchers > 50 { score := score + 15; }
    else if repo.watchers > 10 { score := score + 10; }
    else if repo.watchers > 0 { score := score + 5; }
    if repo.hasLicense { score := score + 10; }
    if repo.hasIssues { score := score + 5; }
    if !repo.isPrivate { score := score + 5; }
    CommunityAtMost100(repo, contributors);
    score := Min(score, 100);
  }

  /** The community points reach at most 25 + 20 + 20 + 15 + 10 + 5 + 5 = 100. */
  lemma CommunityAtMost100(repo: RepoFacts, contributors: nat)
    ensures CommunityPoints(repo, contributors) <= 100
  {
    AboveAtMostFirst(repo.stars as real, CommunityStarTiers);
    AboveAtMostFirst(repo.forks as real, ForkTiers);
    AboveAtMostFirst(contributors as real, ContributorTiers);
    AboveAtMostFirst(repo.watchers as real, WatcherTiers);
  }

  /** More stars, forks, contributors or watchers never lower the community score. */
  lemma CommunityMonotone(repo: RepoFacts, contributors: nat, repo': RepoFacts, contributors': nat)
    requires repo.stars <= repo'.stars && repo.forks <= repo'.forks && repo.watchers <= repo'.watchers
    requires contributors <= contributors'
    requires repo' == repo.(stars := repo'.stars, forks := repo'.forks, watchers := repo'.watchers)
    ensures CommunityPoints(repo, contributors) <= CommunityPoints(repo', contributors')
  {
    AboveMonotone(repo.stars as real, repo'.stars as real, CommunityStarTiers);
    AboveMonotone(repo.forks as real, repo'.forks as real, ForkTiers);
    AboveMonotone(contributors as real, contributors' as real, ContributorTiers);
    AboveMonotone(repo.watchers as real, repo'.watchers as real, WatcherTiers);
  }

  /** `Math.round((health + activity + community) / 3)`. */
  function OverallScore(health: int, activity: int, community: int): int
  {
    RoundDiv(health + activity + community, 3)
  }

  /** The overall score lies between the lowest and the highest of the three scores,
      and so in [0, 100] when they are. */
  lemma OverallBetween(health: int, activity: int, community: int)
    ensures Min(health, Min(activity, community)) <= OverallScore(health, activity, community)
    ensures OverallScore(health, activity, community) <= Max(health, Max(activity, community))
  {
  }
}
