/** The activity analysis of src/services/repositoryApi.js (fetchRepositoryActivity and
    analyzeActivityPatterns): issues without pull requests, the per-month tallies, the
    trailing twelve-month heatmap and the most active event actors. */
module RepositoryActivity {
  import opened Common
  import opened Tally

  /** An item of the issues endpoint: the month it was created in (a month ordinal,
      year * 12 + month) and whether it carries a `pull_request` field. */
  datatype IssueItem = IssueItem(month: int, pullRequest: bool)

  /** `issues.filter(issue => !issue.pull_request)`: the issues endpoint also lists pull
      requests; this keeps every plain issue as often as it occurs and nothing else. */
  function IssuesOnly(items: seq<IssueItem>): (r: seq<IssueItem>)
    ensures forall x :: Count(r, x) == if x.pullRequest then 0 else Count(items, x)
    ensures forall x :: x in r ==> !x.pullRequest
    ensures |r| <= |items|
  {
    if items == [] then []
    else
      var init, last := items[..|items| - 1], items[|items| - 1];
      var r' := IssuesOnly(init);
      var r := if last.pullRequest then r' else r' + [last];
      assert !last.pullRequest ==> r[..|r'|] == r';
      r
  }

  function Months(items: seq<IssueItem>): (ms: seq<int>)
    ensures |ms| == |items|
  {
    seq(|items|, i requires 0 <= i < |items| => items[i].month)
  }

  /** The logins of the events that have an actor. */
  function Actors(actors: seq<Option<string>>): (logins: seq<string>)
    ensures forall l :: Count(logins, l) == Count(actors, Some(l))
  {
    if actors == [] then []
    else
      var init, last := actors[..|actors| - 1], actors[|actors| - 1];
      var r' := Actors(init);
      var r := if last.Some? then r' + [last.value] else r';
      assert last.Some? ==> r[..|r'|] == r';
      r
  }

  /** One cell of the activity heatmap. */
  datatype MonthActivity = MonthActivity(month: int, issues: nat, prs: nat, total: nat)

  /** The twelve months ending with `nowMonth`, oldest first. */
  function Window(nowMonth: int): (w: seq<int>)
    ensures |w| == 12 && NoDuplicates(w)
    ensures forall j :: 0 <= j < 12 ==> w[j] == nowMonth - 11 + j
  {
    seq(12, j requires 0 <= j < 12 => nowMonth - 11 + j)
  }

  /** The heatmap cells of the given months, from the per-month numbers of issues and
      of pull requests (0 for a month without any). */
  function HeatmapFor(months: seq<int>, issueMonths: seq<int>, prMonths: seq<int>): seq<MonthActivity>
  {
    seq(|months|, j requires 0 <= j < |months| =>
      MonthActivity(months[j], Count(issueMonths, months[j]), Count(prMonths, months[j]),
                    Count(issueMonths, months[j]) + Count(prMonths, months[j])))
  }

  function HeatmapOf(issueMonths: seq<int>, prMonths: seq<int>, nowMonth: int): seq<MonthActivity>
  {
    HeatmapFor(Window(nowMonth), issueMonths, prMonths)
  }

  /** What analyzeActivityPatterns returns. */
  datatype ActivityAnalysis = ActivityAnalysis(
    issuesTrend: seq<Entry<int>>, prsTrend: seq<Entry<int>>,
    heatmap: seq<MonthActivity>, topContributors: seq<Entry<string>>)

  /** The loop that pushes one cell per month, from eleven months ago to the current
      month, reading the two counting objects. */
  method BuildHeatmap(issueMonths: seq<int>, issuesByMonth: map<int, nat>,
                      prMonths: seq<int>, prsByMonth: map<int, nat>, nowMonth: int)
    returns (heatmap: seq<MonthActivity>)
    requires forall m :: m in issuesByMonth <==> m in issueMonths
    requires forall m :: m in issuesByMonth ==> issuesByMonth[m] == Count(issueMonths, m)
    requires forall m :: m in prsByMonth <==> m in prMonths
    requires forall m :: m in prsByMonth ==> prsByMonth[m] == Count(prMonths, m)
    ensures heatmap == HeatmapOf(issueMonths, prMonths, nowMonth)
  {
    heatmap := [];
    var i := 11;
    while i >= 0
      invariant -1 <= i <= 11
      invariant heatmap == HeatmapOf(issueMonths, prMonths, nowMonth)[..11 - i]
    {
      var month := nowMonth - i;
      var issueCount := Lookup(issuesByMonth, month);
      var prCount := Lookup(prsByMonth, month);
      assert issueCount == Count(issueMonths, month);
      assert prCount == Count(prMonths, month);
      heatmap := heatmap + [MonthActivity(month, issueCount, prCount, issueCount + prCount)];
      i := i - 1;
    }
  }

  /** analyzeActivityPatterns, with the current month as a parameter. */
  method AnalyzeActivityPatterns(issues: seq<IssueItem>, prMonths: seq<int>, actors: seq<Option<string>>, nowMonth: int)
    returns (a: ActivityAnalysis)
    ensures a.issuesTrend == TallyOf(Months(issues))
    ensures a.prsTrend == TallyOf(prMonths)
    ensures a.heatmap == HeatmapOf(Months(issues), prMonths, nowMonth)
    ensures a.topContributors == TopCountsOf(Actors(actors), 10)
  {
    var issueMonths := Months(issues);
    var issueKeys, issuesByMonth := CountOccurrences(issueMonths);
    var prKeys, prsByMonth := CountOccurrences(prMonths);
    var heatmap := BuildHeatmap(issueMonths, issuesByMonth, prMonths, prsByMonth, nowMonth);
    var top := TopCounts(Actors(actors), 10);
    var issuesTrend := Entries(issueKeys, issuesByMonth);
    var prsTrend := Entries(prKeys, prsByMonth);
    assert issuesTrend == TallyOf(issueMonths);
    assert prsTrend == TallyOf(prMonths);
    a := ActivityAnalysis(issuesTrend, prsTrend, heatmap, top);
  }

  /** The heatmap has twelve cells for the twelve months ending with the current one,
      oldest first; each cell holds that month's issues and pull requests and their sum. */
  lemma HeatmapShape(issueMonths: seq<int>, prMonths: seq<int>, nowMonth: int)
    ensures var h := HeatmapOf(issueMonths, prMonths, nowMonth);
      && |h| == 12 && h[11].month == nowMonth
      && (forall j :: 0 < j < 12 ==> h[j].month == h[j - 1].month + 1)
      && (forall j :: 0 <= j < 12 ==> h[j].total == h[j].issues + h[j].prs)
      && (forall j :: 0 <= j < 12 ==> (h[j].issues > 0 <==> h[j].month in issueMonths))
      && (forall j :: 0 <= j < 12 ==> (h[j].prs > 0 <==> h[j].month in prMonths))
  {
  }

  function CellTotal(c: MonthActivity): int { c.total }

  lemma {:induction false} HeatmapForSum(months: seq<int>, issueMonths: seq<int>, prMonths: seq<int>)
    ensures SumBy(HeatmapFor(months, issueMonths, prMonths), CellTotal)
         == CountsOver(issueMonths, months) + CountsOver(prMonths, months)
  {
    if months != [] {
      var init := months[..|months| - 1];
      var h := HeatmapFor(months, issueMonths, prMonths);
      assert h[..|h| - 1] == HeatmapFor(init, issueMonths, prMonths);
      HeatmapForSum(init, issueMonths, prMonths);
    }
  }

  /** The heatmap counts no issue or pull request twice, and counts all of them when
      every one was created in the last twelve months. */
  lemma HeatmapAccountsForItems(issueMonths: seq<int>, prMonths: seq<int>, nowMonth: int)
    ensures var sum := SumBy(HeatmapOf(issueMonths, prMonths, nowMonth), CellTotal);
      && sum <= |issueMonths| + |prMonths|
      && ((forall m :: m in issueMonths + prMonths ==> nowMonth - 11 <= m <= nowMonth)
          ==> sum == |issueMonths| + |prMonths|)
  {
    var w := Window(nowMonth);
    HeatmapForSum(w, issueMonths, prMonths);
    CountsOverBound(issueMonths, w);
    CountsOverBound(prMonths, w);
    if forall m :: m in issueMonths + prMonths ==> nowMonth - 11 <= m <= nowMonth {
      forall m | m in issueMonths ensures m in w {
        assert m in issueMonths + prMonths;
        assert w[m - nowMonth + 11] == m;
      }
      forall m | m in prMonths ensures m in w {
        assert m in issueMonths + prMonths;
        assert w[m - nowMonth + 11] == m;
      }
    }
  }

  /** At most ten contributors, most active first, each with the number of events whose
      actor has that login, no login twice, and no left-out login more active than a listed one. */
  lemma TopContributorsSpec(actors: seq<Option<string>>)
    ensures var top := TopCountsOf(Actors(actors), 10);
      && |top| <= 10
      && SortedDesc(top, ByCount)
      && (forall i :: 0 <= i < |top| ==> top[i].count == Count(actors, Some(top[i].key)) >= 1)
      && NoDuplicates(Keys(top))
      && (forall l :: Some(l) in actors && l !in Keys(top) ==>
            |top| == 10 && forall i :: 0 <= i < 10 ==> Count(actors, Some(l)) <= top[i].count)
  {
    var logins := Actors(actors);
    TopCountsShape(logins, 10);
    forall l | Some(l) in actors && l !in Keys(TopCountsOf(logins, 10))
      ensures |TopCountsOf(logins, 10)| == 10
      ensures forall i :: 0 <= i < 10 ==> Count(actors, Some(l)) <= TopCountsOf(logins, 10)[i].count
    {
      assert Count(logins, l) == Count(actors, Some(l));
      TopCountsCut(logins, 10, l);
    }
  }
}
