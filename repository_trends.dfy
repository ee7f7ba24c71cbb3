/** The per-repository figures of src/components/RepositoryTrends.js: age, stars per day
    and stars per kilobyte, the time filter, the growth categories, the trend line and
    the "Most Efficient" / "Fastest Growing" picks. The clock is the parameter `nowMs`. */
module RepositoryTrends {
  import opened Common
  import opened Tally
  import opened TrendingApi
  import opened ProfileRepos

  const DayMs: int := 1000 * 60 * 60 * 24

  datatype Processed = Processed(repo: ProfileRepo, ageInDays: int, starsPerDay: real, efficiency: real)

  /** `Math.max(repo.size || 1, 1)`. */
  function SizeDivisor(r: ProfileRepo): int
  {
    var s := if r.size.Some? && r.size.value != 0 then r.size.value else 1;
    Max(s, 1)
  }

  /** The fields `processedRepos` adds to a repository. */
  function ProcessRepo(r: ProfileRepo, nowMs: int): Processed
  {
    var age := (nowMs - r.createdMs) / DayMs;
    Processed(r, age, r.info.stars as real / Max(age, 1) as real,
              r.info.stars as real / SizeDivisor(r) as real * 1000.0)
  }

  function ProcessAll(repos: seq<ProfileRepo>, nowMs: int): (ps: seq<Processed>)
    ensures |ps| == |repos|
    ensures forall i :: 0 <= i < |repos| ==> ps[i] == ProcessRepo(repos[i], nowMs)
  {
    seq(|repos|, i requires 0 <= i < |repos| => ProcessRepo(repos[i], nowMs))
  }

  /** The age is whole elapsed days, rounded down; both rates divide by at least 1, so
      they are defined and never negative, and times their divisor give the stars. */
  lemma ProcessRepoSpec(r: ProfileRepo, nowMs: int)
    ensures var p := ProcessRepo(r, nowMs);
      && DayMs * p.ageInDays <= nowMs - r.createdMs < DayMs * (p.ageInDays + 1)
      && Max(p.ageInDays, 1) >= 1 && SizeDivisor(r) >= 1
      && p.starsPerDay * Max(p.ageInDays, 1) as real == r.info.stars as real
      && p.efficiency * SizeDivisor(r) as real == 1000.0 * r.info.stars as real
      && p.starsPerDay >= 0.0 && p.efficiency >= 0.0
  {
  }

  // ---------------------------------------------------------------------------
  // Time filter

  /** `'recent'` keeps repositories at most a year old, `'mature'` the older ones, any
      other filter keeps everything. */
  predicate Keeps(filter: string, p: Processed)
  {
    if filter == "recent" then p.ageInDays <= 365
    else if filter == "mature" then p.ageInDays > 365
    else true
  }

  function Filtered(ps: seq<Processed>, filter: string): (fs: seq<Processed>)
    ensures |fs| <= |ps|
    ensures forall p :: p in fs <==> p in ps && Keeps(filter, p)
  {
    if ps == [] then []
    else
      var last := ps[|ps| - 1];
      assert ps == ps[..|ps| - 1] + [last];
      Filtered(ps[..|ps| - 1], filter) + if Keeps(filter, last) then [last] else []
  }

  /** Recent and mature split the repositories between them; any other filter is the
      identity. */
  lemma FilterPartition(ps: seq<Processed>, other: string)
    ensures multiset(Filtered(ps, "recent")) + multiset(Filtered(ps, "mature")) == multiset(ps)
    ensures other != "recent" && other != "mature" ==> Filtered(ps, other) == ps
  {
    FilterSplit(ps);
    if other != "recent" && other != "mature" {
      FilterOther(ps, other);
    }
  }

  lemma {:induction false} FilterSplit(ps: seq<Processed>)
    ensures multiset(Filtered(ps, "recent")) + multiset(Filtered(ps, "mature")) == multiset(ps)
  {
    if ps != [] {
      var init, last := ps[..|ps| - 1], ps[|ps| - 1];
      FilterSplit(init);
      assert multiset(ps) == multiset(init) + multiset{last} by {
        assert ps == init + [last];
      }
      KeepsSplit(last);
      var r, m := Filtered(init, "recent"), Filtered(init, "mature");
      if last.ageInDays <= 365 {
        assert multiset(Filtered(ps, "recent")) == multiset(r) + multiset{last} by {
          assert Filtered(ps, "recent") == r + [last];
        }
        assert Filtered(ps, "mature") == m;
      } else {
        assert Filtered(ps, "recent") == r;
        assert multiset(Filtered(ps, "mature")) == multiset(m) + multiset{last} by {
          assert Filtered(ps, "mature") == m + [last];
        }
      }
    }
  }

  /** Exactly one of the two named filters keeps a repository. */
  lemma KeepsSplit(p: Processed)
    ensures Keeps("recent", p) <==> p.ageInDays <= 365
    ensures Keeps("mature", p) <==> p.ageInDays > 365
  {
    assert "mature" != "recent" by {
      assert "mature"[0] != "recent"[0];
    }
  }

  lemma {:induction false} FilterOther(ps: seq<Processed>, other: string)
    requires other != "recent" && other != "mature"
    ensures Filtered(ps, other) == ps
  {
    if ps != [] {
      var init := ps[..|ps| - 1];
      FilterOther(init, other);
      assert ps == init + [ps[|ps| - 1]];
    }
  }

  // ---------------------------------------------------------------------------
  // Performance categories

  predicate Rising(p: Processed) { p.starsPerDay > 0.1 }

  predicate Stable(p: Processed) { p.starsPerDay <= 0.1 && p.starsPerDay > 0.01 }

  predicate Dormant(p: Processed) { p.starsPerDay <= 0.01 }

  datatype Categories = Categories(rising: nat, stable: nat, dormant: nat)

  function CountWhere(ps: seq<Processed>, f: Processed -> bool): (n: nat)
    ensures n <= |ps|
  {
    if ps == [] then 0
    else CountWhere(ps[..|ps| - 1], f) + if f(ps[|ps| - 1]) then 1 else 0
  }

  function CategoriesOf(fs: seq<Processed>): Categories
  {
    Categories(CountWhere(fs, Rising), CountWhere(fs, Stable), CountWhere(fs, Dormant))
  }

  /** Every repository falls in exactly one category, so the three counts add up to the
      number of filtered repositories. */
  lemma {:induction false} CategoriesPartition(fs: seq<Processed>)
    ensures var c := CategoriesOf(fs); c.rising + c.stable + c.dormant == |fs|
  {
    if fs != [] {
      CategoriesPartition(fs[..|fs| - 1]);
    }
  }

  // ---------------------------------------------------------------------------
  // Trend line

  datatype TrendPoint = TrendPoint(index: nat, name: string, stars: nat, forks: nat, size: int,
                                   efficiency: real, starsPerDay: real)

  /** `name.length > 8 ? name.substring(0, 8) + '...' : name`. */
  function ShortName(name: string): (s: string)
    ensures |name| <= 8 ==> s == name
    ensures |name| > 8 ==> |s| == 11 && s[..8] == name[..8] && s[8..] == "..."
  {
    if |name| > 8 then name[..8] + "..." else name
  }

  function CreatedFirst(p: Processed): real { -(p.repo.createdMs as real) }

  function TrendPointOf(p: Processed, i: nat): TrendPoint
  {
    TrendPoint(i + 1, ShortName(p.repo.info.name), p.repo.info.stars, p.repo.info.forks,
               RepoSize(p.repo), p.efficiency, p.starsPerDay)
  }

  function TrendData(fs: seq<Processed>): seq<TrendPoint>
  {
    var sorted := SortDesc(fs, CreatedFirst);
    seq(|sorted|, i requires 0 <= i < |sorted| => TrendPointOf(sorted[i], i))
  }

  /** One point per filtered repository, numbered 1 to n in order of creation, oldest
      first, each carrying its repository's figures and shortened name. */
  lemma TrendDataSpec(fs: seq<Processed>)
    ensures var sorted := SortDesc(fs, CreatedFirst);
      var t := TrendData(fs);
      && |t| == |fs|
      && multiset(sorted) == multiset(fs)
      && (forall i, j :: 0 <= i < j < |sorted| ==> sorted[i].repo.createdMs <= sorted[j].repo.createdMs)
      && (forall i :: 0 <= i < |t| ==> (t[i].index == i + 1 && t[i].stars == sorted[i].repo.info.stars
                                       && t[i].name == ShortName(sorted[i].repo.info.name)))
  {
    var sorted := SortDesc(fs, CreatedFirst);
    forall i, j | 0 <= i < j < |sorted|
      ensures sorted[i].repo.createdMs <= sorted[j].repo.createdMs
    {
      assert CreatedFirst(sorted[i]) >= CreatedFirst(sorted[j]);
    }
  }

  // ---------------------------------------------------------------------------
  // The picks

  function Efficiency(p: Processed): real { p.efficiency }

  function Growth(p: Processed): real { p.starsPerDay }

  /** `sorted[0]?.name || 'N/A'`. */
  function PickName(sorted: seq<Processed>): string
  {
    if sorted == [] || sorted[0].repo.info.name == "" then "N/A" else sorted[0].repo.info.name
  }

  /** "Most Efficient": the in-place sort of `processedRepos` by efficiency. */
  function MostEfficient(ps: seq<Processed>): string
  {
    PickName(SortDesc(ps, Efficiency))
  }

  /** "Fastest Growing": the same array, already sorted by efficiency, sorted again by
      stars per day. */
  function FastestGrowing(ps: seq<Processed>): string
  {
    PickName(SortDesc(SortDesc(ps, Efficiency), Growth))
  }

  /** "Most Efficient" names a repository with the greatest efficiency (stars per KB),
      "Fastest Growing" one with the greatest stars per day; each is "N/A" when there is
      none or its name is empty. */
  lemma PicksSpec(ps: seq<Processed>)
    ensures ps == [] ==> MostEfficient(ps) == "N/A" && FastestGrowing(ps) == "N/A"
    ensures ps != [] ==>
              var h := SortDesc(ps, Efficiency)[0];
              && h in ps && (forall q :: q in ps ==> q.efficiency <= h.efficiency)
              && MostEfficient(ps) == (if h.repo.info.name == "" then "N/A" else h.repo.info.name)
    ensures ps != [] ==>
              var g := SortDesc(SortDesc(ps, Efficiency), Growth)[0];
              && g in ps && (forall q :: q in ps ==> q.starsPerDay <= g.starsPerDay)
              && FastestGrowing(ps) == (if g.repo.info.name == "" then "N/A" else g.repo.info.name)
  {
    if ps != [] {
      SortedHeadIsMax(ps, Efficiency);
      var e := SortDesc(ps, Efficiency);
      SortedHeadIsMax(e, Growth);
      forall q | q in ps
        ensures q in e
      {
        assert q in multiset(ps);
      }
      var g := SortDesc(e, Growth)[0];
      assert g in multiset(e);
    }
  }

  // ---------------------------------------------------------------------------
  // Average efficiency

  function SumEfficiency(ps: seq<Processed>): real
  {
    if ps == [] then 0.0 else SumEfficiency(ps[..|ps| - 1]) + ps[|ps| - 1].efficiency
  }

  /** The sum over the array divided by its length; with no repositories that is 0 / 0,
      which prints as NaN (None here). */
  function AverageEfficiency(ps: seq<Processed>): Option<real>
  {
    if |ps| == 0 then None else Some(SumEfficiency(ps) / |ps| as real)
  }

  lemma {:induction false} SumEfficiencyBounded(ps: seq<Processed>, m: real)
    requires forall q :: q in ps ==> q.efficiency <= m
    ensures SumEfficiency(ps) <= |ps| as real * m
  {
    if ps != [] {
      var init := ps[..|ps| - 1];
      assert forall q :: q in init ==> q in ps;
      SumEfficiencyBounded(init, m);
      assert ps[|ps| - 1] in ps;
      var n := |init| as real;
      assert |ps| as real * m == n * m + m by {
        assert |ps| as real == n + 1.0;
      }
    }
  }

  /** Defined exactly when there are repositories, and then no greater than the
      efficiency of the most efficient one. */
  lemma AverageEfficiencySpec(ps: seq<Processed>)
    ensures AverageEfficiency(ps).None? <==> ps == []
    ensures ps != [] ==> AverageEfficiency(ps).value <= SortDesc(ps, Efficiency)[0].efficiency
  {
    if ps != [] {
      var h := SortDesc(ps, Efficiency)[0];
      SortedHeadIsMax(ps, Efficiency);
      forall q | q in ps
        ensures q.efficiency <= h.efficiency
      {
        assert Efficiency(q) <= Efficiency(h);
      }
      AverageAtMost(ps, h.efficiency);
    }
  }

  lemma AverageAtMost(ps: seq<Processed>, m: real)
    requires ps != [] && forall q :: q in ps ==> q.efficiency <= m
    ensures SumEfficiency(ps) / |ps| as real <= m
  {
    SumEfficiencyBounded(ps, m);
    QuotientAtMost(SumEfficiency(ps), |ps| as real, m);
  }

  lemma QuotientAtMost(a: real, n: real, m: real)
    requires n > 0.0 && a <= n * m
    ensures a / n <= m
  {
    assert a / n * n == a;
  }
}
