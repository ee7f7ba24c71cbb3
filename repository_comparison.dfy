/** The comparison rules of src/components/RepositoryComparison.js: the weighted overall
    winner, the per-metric winners of the detail table, the strengths of one repository
    against the other, the merge of the two language distributions, the highlight
    colours and the radar axes that are not logarithmic. */
module RepositoryComparison {
  import opened Common
  import opened Tally

  /** The figures the comparison reads from one repository's details. A missing figure
      is 0, as the `|| 0` defaults make it. `contributors` is the length of the sampled
      contributor list and `languages` the number of languages. */
  datatype Compared = Compared(name: Option<string>, stars: int, forks: int, watchers: int, contributors: nat,
                               openIssues: int, size: int, languages: int,
                               health: int, activity: int, community: int)

  /** Which side wins one figure: the strictly better one, or neither on equal values. */
  function Winner(a: int, b: int, higherBetter: bool): (w: Side)
    ensures w == First <==> (if higherBetter then a > b else a < b)
    ensures w == Second <==> (if higherBetter then b > a else b < a)
    ensures w == Neither <==> a == b
  {
    if higherBetter then (if a > b then First else if b > a then Second else Neither)
    else (if a < b then First else if b < a then Second else Neither)
  }

  function Swap(w: Side): Side
  {
    match w
    case First => Second
    case Second => First
    case Neither => Neither
  }

  // ---------------------------------------------------------------------------
  // calculateOverallWinner

  /** Points are counted in halves so that the weights 3, 2.5, 2, 1.5 and 1 are whole. */
  const StarsWeight: nat := 6
  const ContributorsWeight: nat := 5
  const HealthWeight: nat := 4
  const ActivityWeight: nat := 3
  const IssuesWeight: nat := 2

  datatype Overall = Leader(name: string, halfPoints: nat) | Tie | NotAvailable

  /** The points one side collects for one figure. */
  function Award(w: Side, side: Side, weight: nat): nat
  {
    if w == side then weight else 0
  }

  /** The half-points `side` collects over the five weighted figures. */
  function HalfPoints(r1: Compared, r2: Compared, side: Side): nat
  {
    Award(Winner(r1.stars, r2.stars, true), side, StarsWeight)
    + Award(Winner(r1.contributors, r2.contributors, true), side, ContributorsWeight)
    + Award(Winner(r1.health, r2.health, true), side, HealthWeight)
    + Award(Winner(r1.activity, r2.activity, true), side, ActivityWeight)
    + Award(Winner(r1.openIssues, r2.openIssues, false), side, IssuesWeight)
  }

  function OverallOf(r1: Option<Compared>, r2: Option<Compared>): Overall
  {
    if r1.None? || r2.None? then NotAvailable
    else
      var s1 := HalfPoints(r1.value, r2.value, First);
      var s2 := HalfPoints(r1.value, r2.value, Second);
      if s1 > s2 then Leader(OrElse(r1.value.name, "Repository 1"), s1)
      else if s2 > s1 then Leader(OrElse(r2.value.name, "Repository 2"), s2)
      else Tie
  }

  /** One `if (a > b) score1 += w; else if (b > a) score2 += w;` (with `<` where lower
      is better): the weight goes to the winner of the figure. */
  method Score(score1: nat, score2: nat, x1: int, x2: int, higherBetter: bool, weight: nat)
    returns (score1': nat, score2': nat)
    ensures var w := Winner(x1, x2, higherBetter);
      score1' == score1 + Award(w, First, weight) && score2' == score2 + Award(w, Second, weight)
  {
    score1', score2' := score1, score2;
    if (if higherBetter then x1 > x2 else x1 < x2) {
      score1' := score1 + weight;
    } else if (if higherBetter then x2 > x1 else x2 < x1) {
      score2' := score2 + weight;
    }
  }

  /** The two running scores, each figure awarding its weight to the strictly better side. */
  method CalculateOverallWinner(r1: Option<Compared>, r2: Option<Compared>) returns (result: Overall)
    ensures result == OverallOf(r1, r2)
  {
    if r1.None? || r2.None? {
      return NotAvailable;
    }
    var a, b := r1.value, r2.value;
    var score1: nat := 0;
    var score2: nat := 0;
    score1, score2 := Score(score1, score2, a.stars, b.stars, true, StarsWeight);
    score1, score2 := Score(score1, score2, a.contributors, b.contributors, true, ContributorsWeight);
    score1, score2 := Score(score1, score2, a.health, b.health, true, HealthWeight);
    score1, score2 := Score(score1, score2, a.activity, b.activity, true, ActivityWeight);
    score1, score2 := Score(score1, score2, a.openIssues, b.openIssues, false, IssuesWeight);
    if score1 > score2 {
      result := Leader(OrElse(a.name, "Repository 1"), score1);
    } else if score2 > score1 {
      result := Leader(OrElse(b.name, "Repository 2"), score2);
    } else {
      result := Tie;
    }
  }

  /** The two scores add up to at most 10 points, swapping the repositories swaps them,
      and a repository that is strictly better on every figure takes all 10. */
  lemma OverallScores(r1: Compared, r2: Compared)
    ensures HalfPoints(r1, r2, First) + HalfPoints(r1, r2, Second) <= 20
    ensures HalfPoints(r2, r1, First) == HalfPoints(r1, r2, Second)
    ensures HalfPoints(r2, r1, Second) == HalfPoints(r1, r2, First)
    ensures (r1.stars > r2.stars && r1.contributors > r2.contributors && r1.health > r2.health
             && r1.activity > r2.activity && r1.openIssues < r2.openIssues) ==> HalfPoints(r1, r2, First) == 20
    ensures r1 == r2 ==> HalfPoints(r1, r2, First) == 0 && HalfPoints(r1, r2, Second) == 0
  {
  }

  /** Equal scores give the tie, and swapping the repositories gives the same verdict. */
  lemma OverallSymmetric(r1: Compared, r2: Compared)
    ensures OverallOf(Some(r1), Some(r2)).Tie? <==> HalfPoints(r1, r2, First) == HalfPoints(r1, r2, Second)
    ensures OverallOf(Some(r1), Some(r2)).Tie? <==> OverallOf(Some(r2), Some(r1)).Tie?
    ensures OverallOf(Some(r1), Some(r2)).Leader? ==>
              OverallOf(Some(r1), Some(r2)).halfPoints == OverallOf(Some(r2), Some(r1)).halfPoints
  {
    OverallScores(r1, r2);
  }

  // ---------------------------------------------------------------------------
  // generateDetailedMetrics

  datatype MetricName = Stars | Forks | Watchers | Contributors | OpenIssues | RepositorySize
                      | Languages | HealthScore | ActivityScore | CommunityScore

  datatype Metric = Metric(name: MetricName, value1: int, value2: int, winner: Side)

  function DetailedMetricsOf(r1: Option<Compared>, r2: Option<Compared>): seq<Metric>
  {
    if r1.None? || r2.None? then []
    else
      var a, b := r1.value, r2.value;
      [ Metric(Stars, a.stars, b.stars, Winner(a.stars, b.stars, true)),
        Metric(Forks, a.forks, b.forks, Winner(a.forks, b.forks, true)),
        Metric(Watchers, a.watchers, b.watchers, Winner(a.watchers, b.watchers, true)),
        Metric(Contributors, a.contributors, b.contributors, Winner(a.contributors, b.contributors, true)),
        Metric(OpenIssues, a.openIssues, b.openIssues, Winner(a.openIssues, b.openIssues, false)),
        Metric(RepositorySize, a.size, b.size, Neither),
        Metric(Languages, a.languages, b.languages, Winner(a.languages, b.languages, true)),
        Metric(HealthScore, a.health, b.health, Winner(a.health, b.health, true)),
        Metric(ActivityScore, a.activity, b.activity, Winner(a.activity, b.activity, true)),
        Metric(CommunityScore, a.community, b.community, Winner(a.community, b.community, true)) ]
  }

  /** Every metric is won by the strictly higher value, except open issues, won by the
      lower one, and size, always a tie; equal values tie; swapping the repositories
      swaps every winner. */
  lemma DetailedMetricsSpec(r1: Compared, r2: Compared)
    ensures var ms := DetailedMetricsOf(Some(r1), Some(r2));
      && |ms| == 10
      && (forall i :: 0 <= i < |ms| ==>
            && (ms[i].name == RepositorySize ==> ms[i].winner == Neither)
            && (ms[i].name != RepositorySize ==>
                  (ms[i].winner == First <==>
                     (if ms[i].name == OpenIssues then ms[i].value1 < ms[i].value2 else ms[i].value1 > ms[i].value2)))
            && (ms[i].value1 == ms[i].value2 ==> ms[i].winner == Neither))
    ensures var ms := DetailedMetricsOf(Some(r1), Some(r2));
      var sw := DetailedMetricsOf(Some(r2), Some(r1));
      forall i :: 0 <= i < |ms| ==> sw[i].winner == Swap(ms[i].winner)
  {
    var ms := DetailedMetricsOf(Some(r1), Some(r2));
    var sw := DetailedMetricsOf(Some(r2), Some(r1));
    forall i | 0 <= i < |ms|
      ensures sw[i].winner == Swap(ms[i].winner)
    {
      assert sw[i].value1 == ms[i].value2 && sw[i].value2 == ms[i].value1;
      if ms[i].name != RepositorySize {
        WinnerSwap(ms[i].value1, ms[i].value2, ms[i].name != OpenIssues);
      }
    }
  }

  /** Swapping the two values swaps the winner. */
  lemma WinnerSwap(a: int, b: int, higherBetter: bool)
    ensures Winner(b, a, higherBetter) == Swap(Winner(a, b, higherBetter))
  {
  }

  // ---------------------------------------------------------------------------
  // getRepositoryStrengths

  /** One line of the strengths list, with the figure it quotes. */
  datatype Strength =
    | Popularity(stars: int)
    | Engagement(forks: int)
    | ContributorBase(contributors: int)
    | BetterHealth(health: int)
    | HigherActivity(activity: int)
    | StrongerCommunity(community: int)
    | IssueManagement(openIssues: int)
    | TechnologyStack(languages: int)
    | Competitive

  const MaxStrengths: nat := 5

  /** The eight checks in the order they are made: whether `repo` is strictly ahead,
      and the line that says so. */
  function Checks(repo: Compared, competitor: Compared): seq<(bool, Strength)>
  {
    [ (repo.stars > competitor.stars, Popularity(repo.stars)),
      (repo.forks > competitor.forks, Engagement(repo.forks)),
      (repo.contributors > competitor.contributors, ContributorBase(repo.contributors)),
      (repo.health > competitor.health, BetterHealth(repo.health)),
      (repo.activity > competitor.activity, HigherActivity(repo.activity)),
      (repo.community > competitor.community, StrongerCommunity(repo.community)),
      (repo.openIssues < competitor.openIssues, IssueManagement(repo.openIssues)),
      (repo.languages > competitor.languages, TechnologyStack(repo.languages)) ]
  }

  /** The lines of the checks that hold, in order. */
  function Kept(checks: seq<(bool, Strength)>): seq<Strength>
  {
    if checks == [] then []
    else Kept(checks[..|checks| - 1]) + (if checks[|checks| - 1].0 then [checks[|checks| - 1].1] else [])
  }

  lemma {:induction false} KeptMember(checks: seq<(bool, Strength)>, x: Strength)
    ensures x in Kept(checks) <==> exists k :: 0 <= k < |checks| && checks[k].0 && checks[k].1 == x
  {
    if checks != [] {
      var init := checks[..|checks| - 1];
      KeptMember(init, x);
      if x in Kept(init) {
        var k :| 0 <= k < |init| && init[k].0 && init[k].1 == x;
        assert checks[k] == init[k];
      }
      if exists k :: 0 <= k < |checks| && checks[k].0 && checks[k].1 == x {
        var k :| 0 <= k < |checks| && checks[k].0 && checks[k].1 == x;
        if k < |init| {
          assert init[k] == checks[k];
        }
      }
    }
  }

  lemma {:induction false} KeptEmpty(checks: seq<(bool, Strength)>)
    ensures Kept(checks) == [] <==> forall k :: 0 <= k < |checks| ==> !checks[k].0
  {
    if checks != [] {
      var init := checks[..|checks| - 1];
      KeptEmpty(init);
      assert forall k :: 0 <= k < |init| ==> init[k] == checks[k];
    }
  }

  /** Every strict advantage of `repo` over `competitor`, in the order they are checked. */
  function Advantages(repo: Compared, competitor: Compared): seq<Strength>
  {
    Kept(Checks(repo, competitor))
  }

  function StrengthsOf(repo: Compared, competitor: Compared): seq<Strength>
  {
    var advantages := Advantages(repo, competitor);
    Prefix(if advantages == [] then [Competitive] else advantages, MaxStrengths)
  }

  /** The lines of the first `k` checks that hold, in order. */
  function KeptUpTo(cs: seq<(bool, Strength)>, k: nat): seq<Strength>
    requires k <= |cs|
  {
    if k == 0 then [] else KeptUpTo(cs, k - 1) + (if cs[k - 1].0 then [cs[k - 1].1] else [])
  }

  lemma {:induction false} KeptUpToPrefix(cs: seq<(bool, Strength)>, k: nat)
    requires k <= |cs|
    ensures KeptUpTo(cs, k) == Kept(cs[..k])
  {
    if k > 0 {
      KeptUpToPrefix(cs, k - 1);
      assert cs[..k][..k - 1] == cs[..k - 1];
    }
  }

  /** One `if (...) strengths.push(...)`, for the check at `k`. */
  method PushIf(list: seq<Strength>, ghost cs: seq<(bool, Strength)>, ghost k: nat, b: bool, x: Strength)
    returns (list': seq<Strength>)
    requires k < |cs| && cs[k] == (b, x) && list == KeptUpTo(cs, k)
    ensures list' == KeptUpTo(cs, k + 1)
  {
    list' := if b then list + [x] else list;
  }

  /** The default entry and the cut at five after the pushes. */
  method GetRepositoryStrengths(repo: Compared, competitor: Compared) returns (strengths: seq<Strength>)
    ensures strengths == StrengthsOf(repo, competitor)
  {
    var list := PushAdvantages(repo, competitor);
    if |list| == 0 {
      list := list + [Competitive];
    }
    strengths := Prefix(list, MaxStrengths);
  }

  /** The eight pushes, in order. */
  method PushAdvantages(repo: Compared, competitor: Compared) returns (list: seq<Strength>)
    ensures list == Advantages(repo, competitor)
  {
    ghost var cs := Checks(repo, competitor);
    list := PushPopularity(repo, competitor);
    list := PushQuality(list, repo, competitor);
    KeptUpToPrefix(cs, 8);
    assert cs[..8] == cs;
  }

  /** The pushes for stars, forks, contributors and health. */
  method PushPopularity(repo: Compared, competitor: Compared) returns (list: seq<Strength>)
    ensures list == KeptUpTo(Checks(repo, competitor), 4)
  {
    ghost var cs := Checks(repo, competitor);
    list := [];
    list := PushIf(list, cs, 0, repo.stars > competitor.stars, Popularity(repo.stars));
    list := PushIf(list, cs, 1, repo.forks > competitor.forks, Engagement(repo.forks));
    list := PushIf(list, cs, 2, repo.contributors > competitor.contributors, ContributorBase(repo.contributors));
    list := PushIf(list, cs, 3, repo.health > competitor.health, BetterHealth(repo.health));
  }

  /** The pushes for activity, community, open issues and languages. */
  method PushQuality(list: seq<Strength>, repo: Compared, competitor: Compared) returns (list': seq<Strength>)
    requires list == KeptUpTo(Checks(repo, competitor), 4)
    ensures list' == KeptUpTo(Checks(repo, competitor), 8)
  {
    ghost var cs := Checks(repo, competitor);
    list' := PushIf(list, cs, 4, repo.activity > competitor.activity, HigherActivity(repo.activity));
    list' := PushIf(list', cs, 5, repo.community > competitor.community, StrongerCommunity(repo.community));
    list' := PushIf(list', cs, 6, repo.openIssues < competitor.openIssues, IssueManagement(repo.openIssues));
    list' := PushIf(list', cs, 7, repo.languages > competitor.languages, TechnologyStack(repo.languages));
  }

  /** The list has one to five entries; it is the single default entry exactly when the
      repository is nowhere strictly ahead; otherwise each entry names a figure on which
      it is strictly ahead. */
  lemma StrengthsSpec(repo: Compared, competitor: Compared)
    ensures var s := StrengthsOf(repo, competitor);
      && 1 <= |s| <= MaxStrengths
      && (s == [Competitive] <==> Advantages(repo, competitor) == [])
      && (forall x :: x in s && x != Competitive ==> x in Advantages(repo, competitor))
    ensures Advantages(repo, competitor) == [] <==>
              (&& repo.stars <= competitor.stars && repo.forks <= competitor.forks
               && repo.contributors <= competitor.contributors && repo.health <= competitor.health
               && repo.activity <= competitor.activity && repo.community <= competitor.community
               && repo.openIssues >= competitor.openIssues && repo.languages <= competitor.languages)
  {
    var cs := Checks(repo, competitor);
    var adv := Advantages(repo, competitor);
    var s := StrengthsOf(repo, competitor);
    KeptEmpty(cs);
    assert (forall k :: 0 <= k < |cs| ==> !cs[k].0) <==>
             !cs[0].0 && !cs[1].0 && !cs[2].0 && !cs[3].0 && !cs[4].0 && !cs[5].0 && !cs[6].0 && !cs[7].0;
    if adv != [] {
      KeptMember(cs, Competitive);
      assert Competitive !in adv;
      assert s[0] == adv[0];
      forall x | x in s
        ensures x in adv
      {
        var i :| 0 <= i < |s| && s[i] == x;
        assert adv[i] == x;
      }
    }
  }

  /** `x` is the line of a figure on which `repo` is strictly ahead of `competitor`, and
      it carries `repo`'s own figure. */
  predicate Ahead(repo: Compared, competitor: Compared, x: Strength)
  {
    match x
    case Popularity(v) => v == repo.stars && repo.stars > competitor.stars
    case Engagement(v) => v == repo.forks && repo.forks > competitor.forks
    case ContributorBase(v) => v == repo.contributors && repo.contributors > competitor.contributors
    case BetterHealth(v) => v == repo.health && repo.health > competitor.health
    case HigherActivity(v) => v == repo.activity && repo.activity > competitor.activity
    case StrongerCommunity(v) => v == repo.community && repo.community > competitor.community
    case IssueManagement(v) => v == repo.openIssues && repo.openIssues < competitor.openIssues
    case TechnologyStack(v) => v == repo.languages && repo.languages > competitor.languages
    case Competitive => false
  }

  /** The pushed lines are exactly the strict advantages. */
  lemma AdvantagesAhead(repo: Compared, competitor: Compared, x: Strength)
    ensures x in Advantages(repo, competitor) <==> Ahead(repo, competitor, x)
  {
    var cs := Checks(repo, competitor);
    KeptMember(cs, x);
    if x in Advantages(repo, competitor) {
      var k :| 0 <= k < |cs| && cs[k].0 && cs[k].1 == x;
      assert k in {0, 1, 2, 3, 4, 5, 6, 7};
    }
    if Ahead(repo, competitor, x) {
      match x
      case Popularity(_) => assert cs[0].0 && cs[0].1 == x;
      case Engagement(_) => assert cs[1].0 && cs[1].1 == x;
      case ContributorBase(_) => assert cs[2].0 && cs[2].1 == x;
      case BetterHealth(_) => assert cs[3].0 && cs[3].1 == x;
      case HigherActivity(_) => assert cs[4].0 && cs[4].1 == x;
      case StrongerCommunity(_) => assert cs[5].0 && cs[5].1 == x;
      case IssueManagement(_) => assert cs[6].0 && cs[6].1 == x;
      case TechnologyStack(_) => assert cs[7].0 && cs[7].1 == x;
    }
  }

  /** Which of the eight checks a line comes from; the default line is its own kind. */
  function KindOf(x: Strength): nat
  {
    match x
    case Popularity(_) => 0
    case Engagement(_) => 1
    case ContributorBase(_) => 2
    case BetterHealth(_) => 3
    case HigherActivity(_) => 4
    case StrongerCommunity(_) => 5
    case IssueManagement(_) => 6
    case TechnologyStack(_) => 7
    case Competitive => 8
  }

  /** The two repositories never claim the same kind of strength against each other:
      whatever line one of them shows, the other shows no line of that kind. */
  lemma StrengthsExclusive(r1: Compared, r2: Compared, x: Strength, y: Strength)
    requires x in Advantages(r1, r2) && y in Advantages(r2, r1)
    ensures KindOf(x) != KindOf(y)
  {
    AdvantagesAhead(r1, r2, x);
    AdvantagesAhead(r2, r1, y);
  }



  // ---------------------------------------------------------------------------
  // generateLanguageComparisonData

  /** One entry of a repository's language distribution; `percentage` is the value
      parseFloat reads from it, None when it reads NaN. */
  datatype Share = Share(language: string, percentage: Option<real>)

  datatype LanguageRow = LanguageRow(language: string, repo1: real, repo2: real)

  /** The fixed rows shown when there is nothing to compare. */
  const SampleRows: seq<LanguageRow> := [
    LanguageRow("TypeScript", 45.2, 38.7), LanguageRow("JavaScript", 32.1, 41.3),
    LanguageRow("Python", 15.6, 12.4), LanguageRow("Shell", 4.1, 5.6), LanguageRow("Dockerfile", 2.8, 1.9)
  ]

  function LanguageNames(d: seq<Share>): (ls: seq<string>)
    ensures |ls| == |d| && forall i :: 0 <= i < |d| ==> ls[i] == d[i].language
  {
    seq(|d|, i requires 0 <= i < |d| => d[i].language)
  }

  /** `d.find(lang => lang.language === l)`, read as `parseFloat(percentage) || 0`, or 0. */
  function PercentageOf(d: seq<Share>, l: string): (v: real)
    ensures (forall i :: 0 <= i < |d| ==> d[i].language != l) ==> v == 0.0
    ensures forall i :: 0 <= i < |d| && d[i].language == l && (forall j :: 0 <= j < i ==> d[j].language != l) ==>
              v == (if d[i].percentage.Some? then d[i].percentage.value else 0.0)
  {
    if d == [] then 0.0
    else if d[0].language == l then (if d[0].percentage.Some? then d[0].percentage.value else 0.0)
    else PercentageOf(d[1..], l)
  }

  function RowOf(d1: seq<Share>, d2: seq<Share>, l: string): LanguageRow
  {
    LanguageRow(l, PercentageOf(d1, l), PercentageOf(d2, l))
  }

  function Rows(d1: seq<Share>, d2: seq<Share>, ls: seq<string>): (rows: seq<LanguageRow>)
    ensures |rows| == |ls| && forall i :: 0 <= i < |ls| ==> rows[i] == RowOf(d1, d2, ls[i])
  {
    seq(|ls|, i requires 0 <= i < |ls| => RowOf(d1, d2, ls[i]))
  }

  predicate HasData(row: LanguageRow)
  {
    row.repo1 > 0.0 || row.repo2 > 0.0
  }

  function WithData(rows: seq<LanguageRow>): (r: seq<LanguageRow>)
    ensures forall x :: x in r <==> x in rows && HasData(x)
    ensures |r| <= |rows|
  {
    if rows == [] then []
    else (if HasData(rows[0]) then [rows[0]] else []) + WithData(rows[1..])
  }

  function Combined(row: LanguageRow): real
  {
    row.repo1 + row.repo2
  }

  /** Every language of either distribution, once, in first-seen order. */
  function AllLanguages(d1: seq<Share>, d2: seq<Share>): seq<string>
  {
    Distinct(LanguageNames(d1) + LanguageNames(d2))
  }

  /** The rows with data, ordered by combined percentage. */
  function Merged(d1: seq<Share>, d2: seq<Share>): seq<LanguageRow>
  {
    SortDesc(WithData(Rows(d1, d2, AllLanguages(d1, d2))), Combined)
  }

  /** The merged rows, or the sample rows when a repository is missing, when both
      distributions are empty, or when no language has data. */
  function LanguageComparison(d1: Option<seq<Share>>, d2: Option<seq<Share>>): seq<LanguageRow>
  {
    if d1.None? || d2.None? then SampleRows
    else if d1.value == [] && d2.value == [] then SampleRows
    else if Merged(d1.value, d2.value) == [] then SampleRows
    else Merged(d1.value, d2.value)
  }

  /** A merged row is the row of its language and has data. */
  lemma MergedRowsSound(d1: seq<Share>, d2: seq<Share>, x: LanguageRow)
    requires x in Merged(d1, d2)
    ensures x == RowOf(d1, d2, x.language) && HasData(x)
  {
    var all := Rows(d1, d2, AllLanguages(d1, d2));
    var kept := WithData(all);
    assert x in multiset(Merged(d1, d2));
    assert x in multiset(kept);
    assert x in kept;
    assert x in all;
    var i :| 0 <= i < |all| && all[i] == x;
  }

  /** Every language of either distribution that has data gets its row. */
  lemma MergedRowsComplete(d1: seq<Share>, d2: seq<Share>, l: string)
    requires l in LanguageNames(d1) || l in LanguageNames(d2)
    requires HasData(RowOf(d1, d2, l))
    ensures RowOf(d1, d2, l) in Merged(d1, d2)
  {
    var ls := AllLanguages(d1, d2);
    var all := Rows(d1, d2, ls);
    assert l in LanguageNames(d1) + LanguageNames(d2);
    var i :| 0 <= i < |ls| && ls[i] == l;
    assert all[i] == RowOf(d1, d2, l);
    assert RowOf(d1, d2, l) in WithData(all);
    assert RowOf(d1, d2, l) in multiset(WithData(all));
    assert RowOf(d1, d2, l) in multiset(Merged(d1, d2));
  }

  /** No language has two rows. */
  lemma MergedRowsDistinct(d1: seq<Share>, d2: seq<Share>)
    ensures NoDuplicates(LanguageNames2(Merged(d1, d2)))
  {
    var all := Rows(d1, d2, AllLanguages(d1, d2));
    RowsDistinct(d1, d2, AllLanguages(d1, d2));
    WithDataDistinct(all);
    PermutedNamesDistinct(WithData(all), Merged(d1, d2));
  }

  /** Outside the fallbacks, every language of either repository that has data appears
      once, with the value its first entry in each distribution gives, no language
      without data appears, and the rows are ordered by combined percentage. */
  lemma LanguageComparisonSpec(d1: seq<Share>, d2: seq<Share>)
    ensures var rows := LanguageComparison(Some(d1), Some(d2));
      rows != SampleRows ==>
        && SortedDesc(rows, Combined)
        && NoDuplicates(LanguageNames2(rows))
        && (forall x :: x in rows ==> x == RowOf(d1, d2, x.language) && HasData(x))
        && (forall l :: (l in LanguageNames(d1) || l in LanguageNames(d2)) && HasData(RowOf(d1, d2, l)) ==>
              RowOf(d1, d2, l) in rows)
  {
    var rows := LanguageComparison(Some(d1), Some(d2));
    if rows != SampleRows {
      assert rows == Merged(d1, d2);
      MergedRowsDistinct(d1, d2);
      forall x | x in rows
        ensures x == RowOf(d1, d2, x.language) && HasData(x)
      {
        MergedRowsSound(d1, d2, x);
      }
      forall l | (l in LanguageNames(d1) || l in LanguageNames(d2)) && HasData(RowOf(d1, d2, l))
        ensures RowOf(d1, d2, l) in rows
      {
        MergedRowsComplete(d1, d2, l);
      }
    }
  }

  function LanguageNames2(rows: seq<LanguageRow>): (ls: seq<string>)
    ensures |ls| == |rows| && forall i :: 0 <= i < |rows| ==> ls[i] == rows[i].language
  {
    seq(|rows|, i requires 0 <= i < |rows| => rows[i].language)
  }

  lemma RowsDistinct(d1: seq<Share>, d2: seq<Share>, ls: seq<string>)
    requires NoDuplicates(ls)
    ensures NoDuplicates(LanguageNames2(Rows(d1, d2, ls)))
  {
    assert LanguageNames2(Rows(d1, d2, ls)) == ls;
  }

  lemma {:induction false} WithDataDistinct(rows: seq<LanguageRow>)
    requires NoDuplicates(LanguageNames2(rows))
    ensures NoDuplicates(LanguageNames2(WithData(rows)))
  {
    if rows != [] {
      assert LanguageNames2(rows[1..]) == LanguageNames2(rows)[1..];
      WithDataDistinct(rows[1..]);
      var rest := WithData(rows[1..]);
      var head := if HasData(rows[0]) then [rows[0]] else [];
      assert LanguageNames2(WithData(rows)) == LanguageNames2(head) + LanguageNames2(rest);
      forall x | x in rest
        ensures x.language != rows[0].language
      {
        var j :| 0 <= j < |rows[1..]| && rows[1..][j] == x;
        assert LanguageNames2(rows)[j + 1] == x.language;
        assert LanguageNames2(rows)[0] == rows[0].language;
      }
    }
  }

  lemma PermutedNamesDistinct(a: seq<LanguageRow>, b: seq<LanguageRow>)
    requires multiset(a) == multiset(b)
    requires NoDuplicates(LanguageNames2(a))
    ensures NoDuplicates(LanguageNames2(b))
  {
    forall i, j | 0 <= i < j < |b|
      ensures b[i].language != b[j].language
    {
      if b[i].language == b[j].language {
        assert b[i] in multiset(a) && b[j] in multiset(a);
        var p :| 0 <= p < |a| && a[p] == b[i];
        var q :| 0 <= q < |a| && a[q] == b[j];
        assert LanguageNames2(a)[p] == LanguageNames2(a)[q];
        if p == q {
          if b[i] == b[j] {
            TwiceInMultiset(b, i, j);
            MultisetOfDistinct(a, p);
          }
        }
        assert false;
      }
    }
  }

  /** In a list whose names are distinct each row occurs once. */
  lemma MultisetOfDistinct(a: seq<LanguageRow>, p: int)
    requires NoDuplicates(LanguageNames2(a)) && 0 <= p < |a|
    ensures multiset(a)[a[p]] == 1
  {
    assert NoDuplicates(a) by {
      forall i, j | 0 <= i < j < |a|
        ensures a[i] != a[j]
      {
        assert LanguageNames2(a)[i] != LanguageNames2(a)[j];
      }
    }
    MultisetNoDuplicates(a, a[p]);
  }

  // ---------------------------------------------------------------------------
  // getWinnerColor, getWinnerColor2 and the radar axes

  datatype Colour = NeonBlue | NeonPurple | Gray

  /** The first column's highlight. */
  function WinnerColor(a: int, b: int, higherBetter: bool): Colour
  {
    if a == b then Gray
    else if (if higherBetter then a > b else a < b) then NeonBlue
    else Gray
  }

  /** The second column's highlight. */
  function WinnerColor2(a: int, b: int, higherBetter: bool): Colour
  {
    if a == b then Gray
    else if (if higherBetter then b > a else b < a) then NeonPurple
    else Gray
  }

  /** Each column lights up exactly when its own value is strictly better; at most one
      of the two does, and equal values leave both gray. */
  lemma WinnerColours(a: int, b: int, higherBetter: bool)
    ensures WinnerColor(a, b, higherBetter) == NeonBlue <==> Winner(a, b, higherBetter) == First
    ensures WinnerColor2(a, b, higherBetter) == NeonPurple <==> Winner(a, b, higherBetter) == Second
    ensures !(WinnerColor(a, b, higherBetter) == NeonBlue && WinnerColor2(a, b, higherBetter) == NeonPurple)
    ensures a == b ==> WinnerColor(a, b, higherBetter) == Gray && WinnerColor2(a, b, higherBetter) == Gray
    ensures (WinnerColor(a, b, higherBetter) == NeonBlue) == (WinnerColor2(b, a, higherBetter) == NeonPurple)
  {
  }

  datatype Axis = Axis(subject: string, repo1: int, repo2: int)

  /** `Math.min(contributors.length * 2, 100)`. */
  function ContributorsAxis(n: nat): (v: nat)
    ensures v <= 100
    ensures n <= 50 ==> v == 2 * n
    ensures n >= 50 ==> v == 100
  {
    Min(2 * n, 100)
  }

  /** The radar rows that are not logarithmic, or none when a repository is missing. */
  function RadarAxes(r1: Option<Compared>, r2: Option<Compared>): (axes: seq<Axis>)
    ensures r1.None? || r2.None? ==> axes == []
    ensures r1.Some? && r2.Some? ==>
      && |axes| == 4
      && axes[0] == Axis("Contributors", ContributorsAxis(r1.value.contributors), ContributorsAxis(r2.value.contributors))
      && axes[1] == Axis("Health", r1.value.health, r2.value.health)
      && axes[2] == Axis("Activity", r1.value.activity, r2.value.activity)
      && axes[3] == Axis("Community", r1.value.community, r2.value.community)
  {
    if r1.None? || r2.None? then []
    else
      var a, b := r1.value, r2.value;
      [ Axis("Contributors", Min(2 * a.contributors, 100), Min(2 * b.contributors, 100)),
        Axis("Health", a.health, b.health),
        Axis("Activity", a.activity, b.activity),
        Axis("Community", a.community, b.community) ]
  }
}
