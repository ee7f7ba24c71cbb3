/** The figures src/components/AdvancedAnalytics.js derives from a user's repositories:
    the totals, the top performers, the per-year activity timeline, the radar values and
    the performance insights (quality score, engagement, most used language,
    productivity and impact tiers). */
module AdvancedAnalytics {
  import opened Common
  import opened Tally
  import opened TrendingApi
  import opened ProfileRepos

  // ---------------------------------------------------------------------------
  // Totals

  datatype Totals = Totals(totalStars: int, totalForks: int, totalSize: int,
                           avgStarsPerRepo: real, avgForksPerRepo: real)

  function TotalsOf(repos: seq<ProfileRepo>): Totals
  {
    Totals(TotalStars(repos), TotalForks(repos), TotalSize(repos),
           Average(TotalStars(repos), |repos|), Average(TotalForks(repos), |repos|))
  }

  /** The totals are never negative; the averages are 0 without repositories and
      otherwise, times the number of repositories, give the totals. */
  lemma TotalsSpec(repos: seq<ProfileRepo>)
    ensures var t := TotalsOf(repos);
      && t.totalStars >= 0 && t.totalForks >= 0 && t.avgStarsPerRepo >= 0.0 && t.avgForksPerRepo >= 0.0
      && (repos == [] ==> t.totalStars == 0 && t.avgStarsPerRepo == 0.0 && t.avgForksPerRepo == 0.0)
      && (repos != [] ==> t.avgStarsPerRepo * |repos| as real == t.totalStars as real
                          && t.avgForksPerRepo * |repos| as real == t.totalForks as real)
  {
    TotalsNonNegative(repos);
  }

  // ---------------------------------------------------------------------------
  // Top performers

  /** The repositories with at least one star, in order. */
  function Starred(repos: seq<ProfileRepo>): (s: seq<ProfileRepo>)
    ensures forall r :: r in s <==> r in repos && r.info.stars > 0
    ensures |s| <= |repos|
  {
    if repos == [] then []
    else
      var last := repos[|repos| - 1];
      assert repos == repos[..|repos| - 1] + [last];
      Starred(repos[..|repos| - 1]) + if last.info.stars > 0 then [last] else []
  }

  function StarKey(r: ProfileRepo): real { r.info.stars as real }

  /** Filter to starred repositories, sort by stars descending, keep five. */
  function TopPerformers(repos: seq<ProfileRepo>): seq<ProfileRepo>
  {
    Prefix(SortDesc(Starred(repos), StarKey), 5)
  }

  /** At most five repositories, most starred first, each a starred repository of the
      user; all starred repositories when there are at most five of them; and none left
      out has more stars than one kept. */
  lemma TopPerformersSpec(repos: seq<ProfileRepo>)
    ensures var top := TopPerformers(repos);
      && |top| == Min(5, |Starred(repos)|)
      && SortedDesc(top, StarKey)
      && (forall r :: r in top ==> r in repos && r.info.stars > 0)
      && (|Starred(repos)| <= 5 ==> multiset(top) == multiset(Starred(repos)))
  {
    var s := SortDesc(Starred(repos), StarKey);
    var top := TopPerformers(repos);
    assert top == s[..|top|];
    forall r | r in top
      ensures r in repos && r.info.stars > 0
    {
      assert r in multiset(s);
    }
    if |Starred(repos)| <= 5 {
      assert top == s;
    }
  }

  /** A starred repository cut from the top performers has no more stars than any kept. */
  lemma TopPerformersCut(repos: seq<ProfileRepo>, i: int, j: int)
    requires var s := SortDesc(Starred(repos), StarKey); 0 <= i < 5 <= j < |s|
    ensures var s := SortDesc(Starred(repos), StarKey);
      s[i] in TopPerformers(repos) && s[j].info.stars <= s[i].info.stars
  {
    var s := SortDesc(Starred(repos), StarKey);
    assert TopPerformers(repos)[i] == s[i];
  }

  // ---------------------------------------------------------------------------
  // Activity timeline

  datatype YearActivity = YearActivity(year: int, repos: nat, stars: int)

  function Years(repos: seq<ProfileRepo>): (ys: seq<int>)
    ensures |ys| == |repos|
    ensures forall i :: 0 <= i < |repos| ==> ys[i] == repos[i].createdYear
  {
    seq(|repos|, i requires 0 <= i < |repos| => repos[i].createdYear)
  }

  /** The stars of the repositories created in `year`. */
  function StarsIn(repos: seq<ProfileRepo>, year: int): int
  {
    if repos == [] then 0
    else StarsIn(repos[..|repos| - 1], year) + if repos[|repos| - 1].createdYear == year then repos[|repos| - 1].info.stars else 0
  }

  /** The index `acc.find(item => item.year === year)` stops at; `|acc|` when none matches. */
  function FindYear(acc: seq<YearActivity>, year: int): (j: nat)
    ensures j <= |acc|
    ensures forall k :: 0 <= k < j ==> acc[k].year != year
    ensures j < |acc| ==> acc[j].year == year
  {
    if acc == [] then 0
    else if acc[0].year == year then 0
    else 1 + FindYear(acc[1..], year)
  }

  /** `existing.repos += 1; existing.stars += curr.stars`. */
  function Bump(e: YearActivity, r: ProfileRepo): YearActivity
  {
    YearActivity(e.year, e.repos + 1, e.stars + r.info.stars)
  }

  /** The accumulated array before its sort, as the reduce builds it one repository at
      a time: the entry of the repository's year is bumped, or a new entry is pushed. */
  function YearsOf(repos: seq<ProfileRepo>): seq<YearActivity>
  {
    if repos == [] then [] else AddRepo(YearsOf(repos[..|repos| - 1]), repos[|repos| - 1])
  }

  /** One step of the reduce: the entry of the repository's year is bumped, or a new
      entry is pushed. */
  function AddRepo(acc: seq<YearActivity>, r: ProfileRepo): seq<YearActivity>
  {
    var j := FindYear(acc, r.createdYear);
    if j < |acc| then acc[j := Bump(acc[j], r)] else acc + [YearActivity(r.createdYear, 1, r.info.stars)]
  }

  /** The reduce over the repositories, with `find` as a search loop and the entry it
      finds updated in place. */
  method AccumulateYears(repos: seq<ProfileRepo>) returns (acc: seq<YearActivity>)
    ensures acc == YearsOf(repos)
  {
    acc := [];
    for i := 0 to |repos|
      invariant acc == YearsOf(repos[..i])
    {
      var r := repos[i];
      var j := 0;
      while j < |acc| && acc[j].year != r.createdYear
        invariant 0 <= j <= |acc|
        invariant forall k :: 0 <= k < j ==> acc[k].year != r.createdYear
      {
        j := j + 1;
      }
      assert repos[..i + 1][..i] == repos[..i];
      assert j == FindYear(acc, r.createdYear);
      if j < |acc| {
        acc := acc[j := Bump(acc[j], r)];
      } else {
        acc := acc + [YearActivity(r.createdYear, 1, r.info.stars)];
      }
    }
    assert repos[..|repos|] == repos;
  }

  function YearList(acc: seq<YearActivity>): (ys: seq<int>)
    ensures |ys| == |acc|
    ensures forall i :: 0 <= i < |acc| ==> ys[i] == acc[i].year
  {
    seq(|acc|, i requires 0 <= i < |acc| => acc[i].year)
  }

  /** A step keeps the years and adds the repository's year when it is new. */
  lemma AddRepoYears(acc: seq<YearActivity>, r: ProfileRepo)
    ensures YearList(AddRepo(acc, r))
              == if r.createdYear in YearList(acc) then YearList(acc) else YearList(acc) + [r.createdYear]
  {
    var y := r.createdYear;
    var j := FindYear(acc, y);
    if j < |acc| {
      assert YearList(acc)[j] == y;
      assert YearList(acc[j := Bump(acc[j], r)]) == YearList(acc);
    } else {
      assert y !in YearList(acc);
      assert YearList(acc + [YearActivity(y, 1, r.info.stars)]) == YearList(acc) + [y];
    }
  }

  /** The years of the accumulated array are the creation years in order of first
      appearance, each once. */
  lemma {:induction false} YearsOfYears(repos: seq<ProfileRepo>)
    ensures YearList(YearsOf(repos)) == Distinct(Years(repos))
  {
    if repos != [] {
      var init := repos[..|repos| - 1];
      var r := repos[|repos| - 1];
      YearsOfYears(init);
      AddRepoYears(YearsOf(init), r);
      assert repos == init + [r];
      YearsSnoc(init, r);
      DistinctSnoc(Years(init), r.createdYear);
    }
  }

  lemma YearsSnoc(repos: seq<ProfileRepo>, r: ProfileRepo)
    ensures Years(repos + [r]) == Years(repos) + [r.createdYear]
  {
  }

  lemma DistinctSnoc(xs: seq<int>, y: int)
    ensures Distinct(xs + [y]) == if y in Distinct(xs) then Distinct(xs) else Distinct(xs) + [y]
  {
    assert (xs + [y])[..|xs|] == xs;
  }

  predicate DistinctYears(acc: seq<YearActivity>)
  {
    forall i, j :: 0 <= i < j < |acc| ==> acc[i].year != acc[j].year
  }

  /** What a step does to the entry at `i` when no year has two entries. */
  lemma AddRepoEntry(acc: seq<YearActivity>, r: ProfileRepo, i: int)
    requires DistinctYears(acc)
    requires 0 <= i < |AddRepo(acc, r)|
    ensures var e := AddRepo(acc, r)[i];
      if i < |acc| then
        e.year == acc[i].year
        && e.repos == acc[i].repos + (if e.year == r.createdYear then 1 else 0)
        && e.stars == acc[i].stars + (if e.year == r.createdYear then r.info.stars else 0)
      else
        e == YearActivity(r.createdYear, 1, r.info.stars)
        && forall k :: 0 <= k < |acc| ==> acc[k].year != r.createdYear
  {
    var j := FindYear(acc, r.createdYear);
    if i < |acc| && j < |acc| && i != j {
      assert acc[i].year != acc[j].year;
    }
  }

  /** Each entry of the accumulated array carries the number of repositories created in
      its year and their stars. */
  lemma {:induction false} YearsOfCounts(repos: seq<ProfileRepo>)
    ensures var acc := YearsOf(repos);
      forall i :: 0 <= i < |acc| ==> acc[i].repos == Count(Years(repos), acc[i].year)
                                     && acc[i].stars == StarsIn(repos, acc[i].year)
  {
    if repos != [] {
      var init := repos[..|repos| - 1];
      var r := repos[|repos| - 1];
      YearsOfCounts(init);
      YearsOfDistinct(init);
      assert repos == init + [r];
      var out := YearsOf(repos);
      forall i | 0 <= i < |out|
        ensures out[i].repos == Count(Years(repos), out[i].year) && out[i].stars == StarsIn(repos, out[i].year)
      {
        YearsOfEntry(init, r, i);
      }
    }
  }

  /** One entry after one more repository, from the counts before it. */
  lemma YearsOfEntry(init: seq<ProfileRepo>, r: ProfileRepo, i: int)
    requires var acc := YearsOf(init);
      forall k :: 0 <= k < |acc| ==> acc[k].repos == Count(Years(init), acc[k].year)
                                     && acc[k].stars == StarsIn(init, acc[k].year)
    requires DistinctYears(YearsOf(init))
    requires 0 <= i < |YearsOf(init + [r])|
    ensures var out := YearsOf(init + [r]);
      out[i].repos == Count(Years(init + [r]), out[i].year) && out[i].stars == StarsIn(init + [r], out[i].year)
  {
    var acc := YearsOf(init);
    var y := r.createdYear;
    assert (init + [r])[..|init|] == init;
    var out := YearsOf(init + [r]);
    assert out == AddRepo(acc, r);
    YearsSnoc(init, r);
    AddRepoEntry(acc, r, i);
    CountSnoc(Years(init), y, out[i].year);
    StarsSnoc(init, r, out[i].year);
    if i >= |acc| {
      YearsOfYears(init);
      assert y !in YearList(acc);
      CountAbsent(Years(init), y);
      StarsAbsent(init, y);
    }
  }

  /** No year has two entries in the accumulated array. */
  lemma YearsOfDistinct(repos: seq<ProfileRepo>)
    ensures DistinctYears(YearsOf(repos))
  {
    var acc := YearsOf(repos);
    YearsOfYears(repos);
    forall i, j | 0 <= i < j < |acc|
      ensures acc[i].year != acc[j].year
    {
      assert YearList(acc)[i] != YearList(acc)[j];
    }
  }

  lemma CountSnoc(xs: seq<int>, y: int, k: int)
    ensures Count(xs + [y], k) == Count(xs, k) + if y == k then 1 else 0
  {
    assert (xs + [y])[..|xs|] == xs;
  }

  lemma StarsSnoc(repos: seq<ProfileRepo>, r: ProfileRepo, year: int)
    ensures StarsIn(repos + [r], year) == StarsIn(repos, year) + if r.createdYear == year then r.info.stars else 0
  {
    assert (repos + [r])[..|repos|] == repos;
  }

  lemma {:induction false} CountAbsent(xs: seq<int>, y: int)
    requires y !in xs
    ensures Count(xs, y) == 0
  {
    if xs != [] {
      CountAbsent(xs[..|xs| - 1], y);
    }
  }

  lemma {:induction false} StarsAbsent(repos: seq<ProfileRepo>, y: int)
    requires y !in Years(repos)
    ensures StarsIn(repos, y) == 0
  {
    if repos != [] {
      var init := repos[..|repos| - 1];
      assert Years(repos)[|repos| - 1] == repos[|repos| - 1].createdYear;
      assert Years(init) == Years(repos)[..|repos| - 1];
      StarsAbsent(init, y);
    }
  }

  lemma {:induction false} CountPositive(xs: seq<int>, y: int)
    requires y in xs
    ensures Count(xs, y) >= 1
  {
    var init := xs[..|xs| - 1];
    if xs[|xs| - 1] != y {
      assert xs == init + [xs[|xs| - 1]];
      CountPositive(init, y);
    }
  }

  /** Every entry of the accumulated array is a creation year with its true number of
      repositories (at least one) and their stars; no year has two entries. */
  lemma YearsOfEntries(repos: seq<ProfileRepo>)
    ensures var acc := YearsOf(repos);
      && (forall e :: e in acc ==> (e.year in Years(repos) && e.repos == Count(Years(repos), e.year) >= 1
                                   && e.stars == StarsIn(repos, e.year)))
      && (forall i, j :: 0 <= i < j < |acc| ==> acc[i].year != acc[j].year)
      && |acc| == |Distinct(Years(repos))|
  {
    var acc := YearsOf(repos);
    YearsOfYears(repos);
    YearsOfCounts(repos);
    forall e | e in acc
      ensures e.year in Years(repos) && e.repos == Count(Years(repos), e.year) >= 1
    {
      var i :| 0 <= i < |acc| && acc[i] == e;
      assert YearList(acc)[i] == e.year;
      CountPositive(Years(repos), e.year);
    }
    forall i, j | 0 <= i < j < |acc|
      ensures acc[i].year != acc[j].year
    {
      assert YearList(acc)[i] != YearList(acc)[j];
    }
  }

  /** `a.year - b.year` as a descending key. */
  function EarlierFirst(e: YearActivity): real { -(e.year as real) }

  function ActivityData(repos: seq<ProfileRepo>): seq<YearActivity>
  {
    SortDesc(YearsOf(repos), EarlierFirst)
  }

  /** `activityData`: the reduce followed by the sort on the year. */
  method BuildActivityData(repos: seq<ProfileRepo>) returns (data: seq<YearActivity>)
    ensures data == ActivityData(repos)
  {
    var acc := AccumulateYears(repos);
    data := SortDesc(acc, EarlierFirst);
  }

  function RepoCount(e: YearActivity): int { e.repos }

  function YearStars(e: YearActivity): int { e.stars }

  lemma {:induction false} SumByUpdate<T>(s: seq<T>, j: int, x: T, f: T -> int)
    requires 0 <= j < |s|
    ensures SumBy(s[j := x], f) == SumBy(s, f) - f(s[j]) + f(x)
  {
    var init := s[..|s| - 1];
    if j == |s| - 1 {
      assert s[j := x][..|s| - 1] == init;
    } else {
      assert s[j := x][..|s| - 1] == init[j := x];
      SumByUpdate(init, j, x, f);
    }
  }

  /** The per-year repository counts add up to the number of repositories, the per-year
      stars to the total stars. */
  lemma {:induction false} YearsOfSums(repos: seq<ProfileRepo>)
    ensures SumBy(YearsOf(repos), RepoCount) == |repos|
    ensures SumBy(YearsOf(repos), YearStars) == TotalStars(repos)
  {
    if repos != [] {
      var init := repos[..|repos| - 1];
      var r := repos[|repos| - 1];
      YearsOfSums(init);
      var acc := YearsOf(init);
      var j := FindYear(acc, r.createdYear);
      if j < |acc| {
        SumByUpdate(acc, j, Bump(acc[j], r), RepoCount);
        SumByUpdate(acc, j, Bump(acc[j], r), YearStars);
      } else {
        var e := YearActivity(r.createdYear, 1, r.info.stars);
        SumByAppend(acc, [e], RepoCount);
        SumByAppend(acc, [e], YearStars);
        SumBySingle(e, RepoCount);
        SumBySingle(e, YearStars);
      }
    }
  }

  /** The timeline: years strictly ascending, each a creation year with its true number
      of repositories and stars, one entry per creation year, the repository counts
      adding up to the number of repositories and the stars to the total. */
  lemma ActivityDataSpec(repos: seq<ProfileRepo>)
    ensures var data := ActivityData(repos);
      && (forall i, j :: 0 <= i < j < |data| ==> data[i].year < data[j].year)
      && (forall e :: e in data ==> (e.year in Years(repos) && e.repos == Count(Years(repos), e.year) >= 1
                                    && e.stars == StarsIn(repos, e.year)))
      && |data| == |Distinct(Years(repos))|
      && SumBy(data, RepoCount) == |repos|
      && SumBy(data, YearStars) == TotalStars(repos)
  {
    var acc := YearsOf(repos);
    var data := ActivityData(repos);
    YearsOfEntries(repos);
    forall e | e in data
      ensures e in acc
    {
      assert e in multiset(data);
    }
    ActivityAscending(acc);
    YearsOfSums(repos);
    SumBySort(acc, EarlierFirst, RepoCount);
    SumBySort(acc, EarlierFirst, YearStars);
  }

  /** Sorting entries with distinct years by the year leaves the years strictly ascending. */
  lemma ActivityAscending(acc: seq<YearActivity>)
    requires forall i, j :: 0 <= i < j < |acc| ==> acc[i].year != acc[j].year
    ensures var data := SortDesc(acc, EarlierFirst);
      forall i, j :: 0 <= i < j < |data| ==> data[i].year < data[j].year
  {
    var data := SortDesc(acc, EarlierFirst);
    forall i, j | 0 <= i < j < |data|
      ensures data[i].year < data[j].year
    {
      assert EarlierFirst(data[i]) >= EarlierFirst(data[j]);
      if data[i].year == data[j].year {
        assert data[i] in multiset(data) && data[j] in multiset(data);
        SameYearSameEntry(acc, data[i], data[j]);
        TwiceInMultiset(data, i, j);
        YearsOfDistinctEntries(acc, data[i]);
        assert false;
      }
    }
  }

  lemma SameYearSameEntry(acc: seq<YearActivity>, a: YearActivity, b: YearActivity)
    requires forall i, j :: 0 <= i < j < |acc| ==> acc[i].year != acc[j].year
    requires a in acc && b in acc && a.year == b.year
    ensures a == b
  {
    var p :| 0 <= p < |acc| && acc[p] == a;
    var q :| 0 <= q < |acc| && acc[q] == b;
  }

  lemma YearsOfDistinctEntries(acc: seq<YearActivity>, x: YearActivity)
    requires forall i, j :: 0 <= i < j < |acc| ==> acc[i].year != acc[j].year
    ensures multiset(acc)[x] <= 1
  {
    assert NoDuplicates(acc);
    MultisetNoDuplicates(acc, x);
  }

  /** Every creation year has its entry in the timeline. */
  lemma ActivityDataComplete(repos: seq<ProfileRepo>, r: ProfileRepo) returns (k: nat)
    requires r in repos
    ensures var data := ActivityData(repos);
      k < |data| && data[k].year == r.createdYear && data[k].repos == Count(Years(repos), r.createdYear)
  {
    var acc := YearsOf(repos);
    var i :| 0 <= i < |repos| && repos[i] == r;
    assert Years(repos)[i] == r.createdYear;
    YearsOfYears(repos);
    YearsOfCounts(repos);
    assert r.createdYear in YearList(acc);
    var p :| 0 <= p < |acc| && YearList(acc)[p] == r.createdYear;
    assert acc[p] in multiset(ActivityData(repos));
    k :| 0 <= k < |ActivityData(repos)| && ActivityData(repos)[k] == acc[p];
  }

  // ---------------------------------------------------------------------------
  // Radar values

  datatype Radar = Radar(stars: real, repos: real, followers: real, following: real, activity: real, impact: real)

  datatype Account = Account(publicRepos: nat, followers: nat, following: nat)

  function RadarOf(user: Account, repos: seq<ProfileRepo>): Radar
  {
    Radar(Clamp100(TotalStars(repos) as real / 10.0), Clamp100((user.publicRepos * 2) as real),
          Clamp100(user.followers as real / 5.0), Clamp100(user.following as real / 2.0),
          Clamp100((|repos| * 5) as real), Clamp100((TotalForks(repos) * 3) as real))
  }

  /** Every radar value lies in [0, 100]; activity reaches the rim at twenty repositories. */
  lemma RadarBounds(user: Account, repos: seq<ProfileRepo>)
    ensures var v := RadarOf(user, repos);
      && 0.0 <= v.stars <= 100.0 && 0.0 <= v.repos <= 100.0 && 0.0 <= v.followers <= 100.0
      && 0.0 <= v.following <= 100.0 && 0.0 <= v.activity <= 100.0 && 0.0 <= v.impact <= 100.0
      && (v.activity == 100.0 <==> |repos| >= 20)
      && (TotalForks(repos) <= 33 ==> v.impact == (3 * TotalForks(repos)) as real)
  {
    TotalsNonNegative(repos);
  }

  // ---------------------------------------------------------------------------
  // Performance insights

  /** The quality score as written: with no repositories `totalStars / repos.length` is
      0 / 0, so the page shows NaN (None here). */
  function QualityScoreAsWritten(repos: seq<ProfileRepo>): Option<int>
  {
    if |repos| == 0 then None else Some(Min(RoundDiv(10 * TotalStars(repos), |repos|), 100))
  }

  /** The empty profile scores NaN. */
  lemma QualityScoreNaN()
    ensures QualityScoreAsWritten([]) == None
  {
  }

  /** The quality score guarded like the averages beside it: 0 with no repositories. */
  function QualityScore(repos: seq<ProfileRepo>): int
  {
    if |repos| == 0 then 0 else Min(RoundDiv(10 * TotalStars(repos), |repos|), 100)
  }

  /** The score lies in [0, 100], is ten times the average stars rounded while that is
      below 100, is 100 from an average of ten stars, agrees with the unguarded formula
      wherever that one is defined, and is 0 without stars. */
  lemma QualityScoreSpec(repos: seq<ProfileRepo>)
    ensures 0 <= QualityScore(repos) <= 100
    ensures TotalStars(repos) == 0 ==> QualityScore(repos) == 0
    ensures repos != [] && TotalStars(repos) >= 10 * |repos| ==> QualityScore(repos) == 100
    ensures repos != [] && QualityScore(repos) < 100 ==>
              var n := |repos|; 2 * n * QualityScore(repos) - n <= 20 * TotalStars(repos) < 2 * n * QualityScore(repos) + n
    ensures repos != [] ==> QualityScoreAsWritten(repos) == Some(QualityScore(repos))
  {
    TotalsNonNegative(repos);
    if repos != [] {
      var n := |repos|;
      var t := TotalStars(repos);
      RoundDivBounds(10 * t, n);
      if t == 0 {
        RoundDivWhole(0, n);
      }
      if t >= 10 * n {
        assert 10 * t >= 100 * n;
        RoundDivAtLeast(10 * t, n, 100);
      }
    }
  }

  datatype Engagement = Low | Medium | High

  /** `totalForks > totalStars * 0.1 ? 'High' : totalForks > totalStars * 0.05 ? 'Medium' : 'Low'`. */
  function EngagementOf(totalForks: nat, totalStars: nat): Engagement
  {
    if totalForks as real > totalStars as real * 0.1 then Engagement.High
    else if totalForks as real > totalStars as real * 0.05 then Engagement.Medium
    else Low
  }

  /** High above one fork per ten stars, Medium above one per twenty, Low otherwise; and
      more forks never lower the level. */
  lemma EngagementSpec(forks: nat, stars: nat, moreForks: nat)
    ensures EngagementOf(forks, stars) == Engagement.High <==> 10 * forks > stars
    ensures EngagementOf(forks, stars) == Engagement.Medium <==> 10 * forks <= stars < 20 * forks
    ensures EngagementOf(forks, stars) == Low <==> 20 * forks <= stars
    ensures forks <= moreForks ==> EngagementRank(EngagementOf(forks, stars)) <= EngagementRank(EngagementOf(moreForks, stars))
  {
  }

  function EngagementRank(e: Engagement): nat
  {
    match e
    case Low => 0
    case Medium => 1
    case High => 2
  }

  /** The first entry of the count-sorted language tally, or "N/A". */
  function MostUsedLanguage(repos: seq<ProfileRepo>): string
  {
    var t := SortedTally(ProfileLanguages(repos));
    if t == [] then "N/A" else t[0].key
  }

  /** "N/A" without languages; otherwise a language of the user used at least as often as
      every other. */
  lemma MostUsedLanguageSpec(repos: seq<ProfileRepo>)
    ensures ProfileLanguages(repos) == [] ==> MostUsedLanguage(repos) == "N/A"
    ensures ProfileLanguages(repos) != [] ==>
              var m := MostUsedLanguage(repos);
              && m in ProfileLanguages(repos)
              && forall l :: l in ProfileLanguages(repos) ==> Count(ProfileLanguages(repos), l) <= Count(ProfileLanguages(repos), m)
  {
    var xs := ProfileLanguages(repos);
    var t := SortedTally(xs);
    if xs != [] {
      var first := xs[0];
      assert first in Distinct(xs);
      assert |t| >= 1;
      SortedTallyEntries(xs, ByCount, 0);
      forall l | l in xs
        ensures Count(xs, l) <= Count(xs, t[0].key)
      {
        var q := SortedTallyComplete(xs, ByCount, l);
        if q > 0 {
          assert ByCount(t[0]) >= ByCount(t[q]);
        }
      }
    }
  }

  datatype Productivity = Growing | Medium | High | VeryHigh

  /** `repos.length > 20 ? 'Very High' : > 10 ? 'High' : > 5 ? 'Medium' : 'Growing'`. */
  function ProductivityOf(repoCount: nat): Productivity
  {
    if repoCount > 20 then VeryHigh else if repoCount > 10 then Productivity.High else if repoCount > 5 then Productivity.Medium else Growing
  }

  function ProductivityRank(p: Productivity): nat
  {
    match p
    case Growing => 0
    case Medium => 1
    case High => 2
    case VeryHigh => 3
  }

  datatype Impact = Starting | GrowingImpact | Moderate | Significant

  /** `totalStars > 100 ? 'Significant' : > 50 ? 'Moderate' : > 10 ? 'Growing' : 'Starting'`. */
  function ImpactOf(totalStars: int): Impact
  {
    if totalStars > 100 then Significant else if totalStars > 50 then Moderate
    else if totalStars > 10 then GrowingImpact else Starting
  }

  function ImpactRank(i: Impact): nat
  {
    match i
    case Starting => 0
    case GrowingImpact => 1
    case Moderate => 2
    case Significant => 3
  }

  /** Both tiers rise with their figure, and the top tier is reached exactly above its
      threshold. */
  lemma TiersMonotone(a: nat, b: nat, s: int, t: int)
    ensures a <= b ==> ProductivityRank(ProductivityOf(a)) <= ProductivityRank(ProductivityOf(b))
    ensures s <= t ==> ImpactRank(ImpactOf(s)) <= ImpactRank(ImpactOf(t))
    ensures ProductivityOf(a) == VeryHigh <==> a > 20
    ensures ProductivityOf(a) == Growing <==> a <= 5
    ensures ImpactOf(s) == Significant <==> s > 100
    ensures ImpactOf(s) == Starting <==> s <= 10
  {
  }
}
