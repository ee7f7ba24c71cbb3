/** src/components/ContributionHeatmap.js: a count per day from one year ago to today,
    raised on the days repositories were created and last updated; the level band of a
    count; the longest and the current run of active days; the split of the days into
    weeks; the total and the consistency score. Days are day numbers, and the window is
    given by its first day `from` and its last day `today`. */
module ContributionHeatmap {
  import opened Common
  import opened Tally

  /** The dates and the star count of one repository. */
  datatype RepoDates = RepoDates(created: int, updated: int, stars: nat)

  /** `Math.min(stargazers_count + 1, 10)` on the creation day. */
  function CreationGain(stars: nat): nat { Min(stars + 1, 10) }

  /** `Math.min(Math.floor(stargazers_count / 2) + 1, 5)` on the update day. */
  function UpdateGain(stars: nat): nat { Min(stars / 2 + 1, 5) }

  /** What one repository adds to `day`. */
  function Gain(r: RepoDates, day: int): nat
  {
    (if r.created == day then CreationGain(r.stars) else 0)
    + (if r.updated == day && r.updated != r.created then UpdateGain(r.stars) else 0)
  }

  /** What the repositories together add to `day`. */
  function DayCount(repos: seq<RepoDates>, day: int): nat
  {
    if repos == [] then 0 else DayCount(repos[..|repos| - 1], day) + Gain(repos[|repos| - 1], day)
  }

  /** The count of every day of the window, oldest first. */
  function ContributionsOf(from: int, today: int, repos: seq<RepoDates>): (counts: seq<nat>)
    requires from <= today
    ensures |counts| == today - from + 1
    ensures forall i :: 0 <= i < |counts| ==> counts[i] == DayCount(repos, from + i)
  {
    seq<nat>(today - from + 1, i requires 0 <= i < today - from + 1 => DayCount(repos, from + i))
  }

  /** The initialising date loop and the per-repository increments, each guarded by the
      day being in the window. */
  method BuildContributions(from: int, today: int, repos: seq<RepoDates>) returns (counts: seq<nat>)
    requires from <= today
    ensures counts == ContributionsOf(from, today, repos)
  {
    counts := [];
    var d := from;
    while d <= today
      invariant from <= d <= today + 1
      invariant |counts| == d - from
      invariant forall i :: 0 <= i < |counts| ==> counts[i] == 0
    {
      counts := counts + [0];
      d := d + 1;
    }
    var k := 0;
    while k < |repos|
      invariant 0 <= k <= |repos|
      invariant |counts| == today - from + 1
      invariant forall i :: 0 <= i < |counts| ==> counts[i] == DayCount(repos[..k], from + i)
    {
      var r := repos[k];
      assert repos[..k + 1][..k] == repos[..k];
      if from <= r.created <= today {
        counts := counts[r.created - from := counts[r.created - from] + CreationGain(r.stars)];
      }
      if from <= r.updated <= today && r.updated != r.created {
        counts := counts[r.updated - from := counts[r.updated - from] + UpdateGain(r.stars)];
      }
      k := k + 1;
    }
    assert repos[..k] == repos;
  }

  // ---------------------------------------------------------------------------
  // Totals

  function Sum(s: seq<int>): int
  {
    if s == [] then 0 else Sum(s[..|s| - 1]) + s[|s| - 1]
  }

  lemma {:induction false} SumPointwise(a: seq<int>, b: seq<int>, c: seq<int>)
    requires |a| == |b| == |c|
    requires forall i :: 0 <= i < |c| ==> c[i] == a[i] + b[i]
    ensures Sum(c) == Sum(a) + Sum(b)
  {
    if c != [] {
      var n := |c| - 1;
      SumPointwise(a[..n], b[..n], c[..n]);
    }
  }

  /** A sequence that is zero except perhaps at `p` sums to its value there. */
  lemma {:induction false} SumSingle(s: seq<int>, p: int, v: int)
    requires forall i :: 0 <= i < |s| ==> s[i] == (if i == p then v else 0)
    ensures Sum(s) == if 0 <= p < |s| then v else 0
  {
    if s != [] {
      SumSingle(s[..|s| - 1], p, v);
    }
  }

  /** What one repository adds to the whole window: nothing for a date outside it. */
  function WindowGain(from: int, today: int, r: RepoDates): nat
  {
    (if from <= r.created <= today then CreationGain(r.stars) else 0)
    + (if from <= r.updated <= today && r.updated != r.created then UpdateGain(r.stars) else 0)
  }

  /** The day-by-day gains of one repository over `n` days from `from`. */
  function GainsOf(from: int, n: nat, r: RepoDates): seq<int>
  {
    seq(n, i requires 0 <= i < n => Gain(r, from + i) as int)
  }

  /** `n` days that are zero except perhaps at `k`, where the value is `v`. */
  function Spike(n: nat, k: int, v: int): seq<int>
  {
    seq(n, i requires 0 <= i < n => if i == k then v else 0)
  }

  lemma SumSpike(n: nat, k: int, v: int)
    ensures Sum(Spike(n, k, v)) == if 0 <= k < n then v else 0
  {
    SumSingle(Spike(n, k, v), k, v);
  }

  /** The gains of a repository are a creation spike plus an update spike. */
  lemma GainsSplit(from: int, n: nat, r: RepoDates)
    ensures Sum(GainsOf(from, n, r))
              == Sum(Spike(n, r.created - from, CreationGain(r.stars)))
                 + Sum(Spike(n, if r.updated != r.created then r.updated - from else -1, UpdateGain(r.stars)))
  {
    var g := GainsOf(from, n, r);
    var c := Spike(n, r.created - from, CreationGain(r.stars));
    var u := Spike(n, if r.updated != r.created then r.updated - from else -1, UpdateGain(r.stars));
    forall i | 0 <= i < n
      ensures g[i] == c[i] + u[i]
    {
      assert g[i] == Gain(r, from + i);
    }
    SumPointwise(c, u, g);
  }

  lemma GainOverWindow(from: int, today: int, r: RepoDates)
    requires from <= today
    ensures Sum(GainsOf(from, today - from + 1, r)) == WindowGain(from, today, r)
  {
    var n := today - from + 1;
    GainsSplit(from, n, r);
    SumSpike(n, r.created - from, CreationGain(r.stars));
    SumSpike(n, if r.updated != r.created then r.updated - from else -1, UpdateGain(r.stars));
  }

  /** The total of all day counts is what the repositories add inside the window; a date
      outside it adds nothing. */
  lemma {:induction false} TotalContributions(from: int, today: int, repos: seq<RepoDates>)
    requires from <= today
    ensures Sum(ContributionsOf(from, today, repos)) == SumBy(repos, r => WindowGain(from, today, r))
  {
    var f := (r: RepoDates) => WindowGain(from, today, r) as int;
    if repos == [] {
      SumSingle(ContributionsOf(from, today, repos), -1, 0);
    } else {
      var init := repos[..|repos| - 1];
      var last := repos[|repos| - 1];
      TotalContributions(from, today, init);
      var n := today - from + 1;
      var g := GainsOf(from, n, last);
      SumPointwise(ContributionsOf(from, today, init), g, ContributionsOf(from, today, repos));
      GainOverWindow(from, today, last);
      assert repos == init + [last];
      SumByAppend(init, [last], f);
      SumBySingle(last, f);
    }
  }

  /** Each repository adds at most 15 to the year. */
  lemma {:induction false} TotalBound(from: int, today: int, repos: seq<RepoDates>)
    ensures SumBy(repos, r => WindowGain(from, today, r)) <= 15 * |repos|
  {
    var f := (r: RepoDates) => WindowGain(from, today, r) as int;
    if repos != [] {
      var init := repos[..|repos| - 1];
      var last := repos[|repos| - 1];
      TotalBound(from, today, init);
      assert repos == init + [last];
      SumByAppend(init, [last], f);
      SumBySingle(last, f);
    }
  }

  // ---------------------------------------------------------------------------
  // Levels

  /** getContributionLevel. */
  function Level(count: nat): (l: nat)
    ensures l <= 4
  {
    if count == 0 then 0
    else if count <= 2 then 1
    else if count <= 5 then 2
    else if count <= 8 then 3
    else 4
  }

  /** A larger count never gets a lower level; only an empty day gets level 0 and only a
      count above 8 gets level 4. */
  lemma LevelMonotone(a: nat, b: nat)
    ensures a <= b ==> Level(a) <= Level(b)
    ensures Level(a) == 0 <==> a == 0
    ensures Level(a) == 4 <==> a > 8
  {
  }

  // ---------------------------------------------------------------------------
  // Streaks

  /** The length of the run of active days that ends just before index `k`. */
  function RunBefore(s: seq<nat>, k: nat): (n: nat)
    requires k <= |s|
    ensures n <= k
  {
    if k == 0 || s[k - 1] == 0 then 0 else RunBefore(s, k - 1) + 1
  }

  /** The longest run of active days that ends at or before index `k`. */
  function MaxRun(s: seq<nat>, k: nat): nat
    requires k <= |s|
  {
    if k == 0 then 0 else Max(MaxRun(s, k - 1), RunBefore(s, k))
  }

  /** Every day from `i` up to `j` (exclusive) is active. */
  predicate ActiveRun(s: seq<nat>, i: int, j: int)
  {
    0 <= i <= j <= |s| && forall t :: i <= t < j ==> s[t] > 0
  }

  /** The counter loop over the days in order. */
  method MaxStreak(counts: seq<nat>) returns (best: nat)
    ensures best == MaxRun(counts, |counts|)
  {
    var current: nat := 0;
    best := 0;
    var i := 0;
    while i < |counts|
      invariant 0 <= i <= |counts|
      invariant current == RunBefore(counts, i)
      invariant best == MaxRun(counts, i)
    {
      if counts[i] > 0 {
        current := current + 1;
        best := Max(best, current);
      } else {
        current := 0;
      }
      i := i + 1;
    }
  }

  /** The loop over the days from the latest back, stopping at the first empty one. */
  method CurrentStreak(counts: seq<nat>) returns (streak: nat)
    ensures streak == RunBefore(counts, |counts|)
  {
    streak := 0;
    var i := |counts|;
    while i > 0 && counts[i - 1] > 0
      invariant 0 <= i <= |counts|
      invariant streak == |counts| - i
      invariant ActiveRun(counts, i, |counts|)
    {
      streak := streak + 1;
      i := i - 1;
    }
    RunBeforeExact(counts, i, |counts|);
  }

  /** A run that starts after an empty day (or at the start) and reaches `k` is the run
      counted at `k`. */
  lemma {:induction false} RunBeforeExact(s: seq<nat>, i: nat, k: nat)
    requires ActiveRun(s, i, k) && (i == 0 || s[i - 1] == 0)
    ensures RunBefore(s, k) == k - i
    decreases k - i
  {
    if i < k {
      RunBeforeExact(s, i, k - 1);
    }
  }

  /** The run counted at `k` is a run of active days, preceded by an empty day or the start. */
  lemma {:induction false} RunBeforeIsRun(s: seq<nat>, k: nat)
    requires k <= |s|
    ensures ActiveRun(s, k - RunBefore(s, k), k)
    ensures k - RunBefore(s, k) == 0 || s[k - RunBefore(s, k) - 1] == 0
  {
    if k > 0 && s[k - 1] > 0 {
      RunBeforeIsRun(s, k - 1);
    }
  }

  /** Any run of active days that ends at `j` is no longer than the run counted there. */
  lemma {:induction false} RunBeforeAtLeast(s: seq<nat>, i: nat, j: nat)
    requires ActiveRun(s, i, j)
    ensures RunBefore(s, j) >= j - i
    decreases j - i
  {
    if i < j {
      RunBeforeAtLeast(s, i, j - 1);
    }
  }

  lemma {:induction false} MaxRunAtLeast(s: seq<nat>, k: nat, j: nat)
    requires j <= k <= |s|
    ensures MaxRun(s, k) >= RunBefore(s, j)
    decreases k
  {
    if j < k {
      MaxRunAtLeast(s, k - 1, j);
    }
  }

  lemma {:induction false} MaxRunAttained(s: seq<nat>, k: nat) returns (j: nat)
    requires k <= |s|
    ensures j <= k && MaxRun(s, k) == RunBefore(s, j)
  {
    if k == 0 {
      j := 0;
    } else if MaxRun(s, k - 1) >= RunBefore(s, k) {
      j := MaxRunAttained(s, k - 1);
    } else {
      j := k;
    }
  }

  /** maxStreak is the length of a longest run of consecutive active days: some run has
      that length and none is longer. currentStreak is the run that ends today, and it
      is never longer than maxStreak. */
  lemma StreakSpec(s: seq<nat>) returns (start: nat)
    ensures ActiveRun(s, start, start + MaxRun(s, |s|))
    ensures forall i, j :: ActiveRun(s, i, j) ==> j - i <= MaxRun(s, |s|)
    ensures ActiveRun(s, |s| - RunBefore(s, |s|), |s|)
    ensures RunBefore(s, |s|) <= MaxRun(s, |s|)
  {
    var j := MaxRunAttained(s, |s|);
    RunBeforeIsRun(s, j);
    start := j - RunBefore(s, j);
    forall i, j' | ActiveRun(s, i, j')
      ensures j' - i <= MaxRun(s, |s|)
    {
      RunBeforeAtLeast(s, i, j');
      MaxRunAtLeast(s, |s|, j');
    }
    RunBeforeIsRun(s, |s|);
    MaxRunAtLeast(s, |s|, |s|);
  }

  // ---------------------------------------------------------------------------
  // Weeks

  datatype Cell = Cell(day: int, count: nat, level: nat)

  /** The days in date order with their counts and levels. */
  function Cells(from: int, counts: seq<nat>): (cells: seq<Cell>)
    ensures |cells| == |counts|
    ensures forall i :: 0 <= i < |counts| ==> cells[i] == Cell(from + i, counts[i], Level(counts[i]))
  {
    seq(|counts|, i requires 0 <= i < |counts| => Cell(from + i, counts[i], Level(counts[i])))
  }

  function Flatten<T>(chunks: seq<seq<T>>): seq<T>
  {
    if chunks == [] then [] else Flatten(chunks[..|chunks| - 1]) + chunks[|chunks| - 1]
  }

  lemma FlattenSnoc<T>(chunks: seq<seq<T>>, c: seq<T>)
    ensures Flatten(chunks + [c]) == Flatten(chunks) + c
  {
    assert (chunks + [c])[..|chunks|] == chunks;
  }

  const WeekLength: nat := 7

  /** A count of weeks that covers `n` days with fewer than seven to spare is the rounded-up quotient. */
  lemma WeekCount(n: nat, k: nat)
    requires WeekLength * k - WeekLength < n <= WeekLength * k
    ensures k == (n + WeekLength - 1) / WeekLength
  {
  }

  /** The chunk-and-push loop: slices of seven days. */
  method Weeks<T>(days: seq<T>) returns (weeks: seq<seq<T>>)
    ensures Flatten(weeks) == days
    ensures |weeks| == (|days| + WeekLength - 1) / WeekLength
    ensures forall w :: 0 <= w < |weeks| ==> 1 <= |weeks[w]| <= WeekLength
    ensures forall w :: 0 <= w < |weeks| - 1 ==> |weeks[w]| == WeekLength
  {
    weeks := [];
    var i := 0;
    while i < |days|
      invariant 0 <= i <= |days|
      invariant WeekLength * |weeks| - WeekLength < i <= WeekLength * |weeks|
      invariant i < |days| ==> i == WeekLength * |weeks|
      invariant Flatten(weeks) == days[..i]
      invariant forall w :: 0 <= w < |weeks| ==> 1 <= |weeks[w]| <= WeekLength
      invariant forall w :: 0 <= w < |weeks| - 1 ==> |weeks[w]| == WeekLength
      invariant i < |days| ==> forall w :: 0 <= w < |weeks| ==> |weeks[w]| == WeekLength
    {
      var next := Min(i + WeekLength, |days|);
      var week := days[i..next];
      FlattenSnoc(weeks, week);
      assert days[..next] == days[..i] + week;
      weeks := weeks + [week];
      i := next;
    }
    assert days[..i] == days;
    if |days| == 0 {
      assert |weeks| == 0;
    } else {
      WeekCount(|days|, |weeks|);
    }
  }

  // ---------------------------------------------------------------------------
  // Consistency

  function ActiveDays(s: seq<nat>): (n: nat)
    ensures n <= |s|
  {
    if s == [] then 0 else ActiveDays(s[..|s| - 1]) + if s[|s| - 1] > 0 then 1 else 0
  }

  /** `Math.round(activeDays / days * 100)`, computed exactly. */
  function ConsistencyScore(counts: seq<nat>): int
    requires |counts| > 0
  {
    RoundDiv(100 * ActiveDays(counts), |counts|)
  }

  lemma {:induction false} AllActive(s: seq<nat>)
    ensures (forall i :: 0 <= i < |s| ==> s[i] > 0) ==> ActiveDays(s) == |s|
    ensures (forall i :: 0 <= i < |s| ==> s[i] == 0) ==> ActiveDays(s) == 0
  {
    if s != [] {
      AllActive(s[..|s| - 1]);
    }
  }

  /** The score is a percentage: 100 when every day is active, 0 when none is. */
  lemma ConsistencyBounds(counts: seq<nat>)
    requires |counts| > 0
    ensures 0 <= ConsistencyScore(counts) <= 100
    ensures (forall i :: 0 <= i < |counts| ==> counts[i] > 0) ==> ConsistencyScore(counts) == 100
    ensures (forall i :: 0 <= i < |counts| ==> counts[i] == 0) ==> ConsistencyScore(counts) == 0
  {
    var a := ActiveDays(counts);
    RoundDivBounds(100 * a, |counts|);
    RoundDivAtMost(100 * a, |counts|, 100);
    AllActive(counts);
    if a == |counts| {
      RoundDivWhole(100, |counts|);
    }
  }

  /** Today's window always has a day, so the score is defined. */
  lemma WindowNotEmpty(from: int, today: int, repos: seq<RepoDates>)
    requires from <= today
    ensures |ContributionsOf(from, today, repos)| > 0
  {
  }
}
