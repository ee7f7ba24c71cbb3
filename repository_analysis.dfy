/** The labels src/components/RepositoryAnalysis.js puts on a repository's analytics:
    the score colour (written twice), the health / activity / community bands, the issue
    resolution rate, the growth and maturity words, and the contribution distribution. */
module RepositoryAnalysis {
  import opened Common

  // ---------------------------------------------------------------------------
  // Score bands

  /** The four bands every 80 / 60 / 40 if-chain of the file sorts a score into. */
  datatype Band = Top | Upper | Lower | Bottom

  function BandOf(score: int): Band
  {
    if score >= 80 then Top else if score >= 60 then Upper else if score >= 40 then Lower else Bottom
  }

  function BandRank(b: Band): nat
  {
    match b
    case Bottom => 0
    case Lower => 1
    case Upper => 2
    case Top => 3
  }

  /** A higher score never lands in a lower band, and each band is exactly its interval. */
  lemma BandSpec(s: int, t: int)
    ensures s <= t ==> BandRank(BandOf(s)) <= BandRank(BandOf(t))
    ensures BandOf(s) == Top <==> s >= 80
    ensures BandOf(s) == Upper <==> 60 <= s < 80
    ensures BandOf(s) == Lower <==> 40 <= s < 60
    ensures BandOf(s) == Bottom <==> s < 40
  {
  }

  /** `getScoreColor` inside the main component. */
  function ScoreColorInline(score: int): string
  {
    if score >= 80 then "text-green-400"
    else if score >= 60 then "text-yellow-400"
    else if score >= 40 then "text-orange-400"
    else "text-red-400"
  }

  /** The module-level helper `getScoreColor` at the end of the file. */
  function ScoreColorHelper(score: int): string
  {
    if score >= 80 then "text-green-400"
    else if score >= 60 then "text-yellow-400"
    else if score >= 40 then "text-orange-400"
    else "text-red-400"
  }

  function BandColour(b: Band): string
  {
    match b
    case Top => "text-green-400"
    case Upper => "text-yellow-400"
    case Lower => "text-orange-400"
    case Bottom => "text-red-400"
  }

  /** The two copies agree on every score, both colour a score by its band, and
      different bands get different colours. */
  lemma ScoreColorsAgree(score: int, other: int)
    ensures ScoreColorInline(score) == ScoreColorHelper(score)
    ensures ScoreColorInline(score) == BandColour(BandOf(score))
    ensures BandOf(score) != BandOf(other) ==> ScoreColorInline(score) != ScoreColorInline(other)
  {
    if BandOf(score) != BandOf(other) {
      DistinctColours(BandOf(score), BandOf(other));
    }
  }

  lemma DistinctColours(a: Band, b: Band)
    requires a != b
    ensures BandColour(a) != BandColour(b)
  {
    BandOfColour(a);
    BandOfColour(b);
  }

  /** The band can be read back from its colour. */
  lemma BandOfColour(b: Band)
    ensures ColourBand(BandColour(b)) == b
  {
    var c := BandColour(b);
    if b != Top {
      assert c[5] != 'g';
    }
    if b == Lower {
      assert c[5] == 'o';
    }
  }

  function ColourBand(c: string): Band
  {
    if |c| > 5 && c[5] == 'g' then Top
    else if |c| > 5 && c[5] == 'y' then Upper
    else if |c| > 5 && c[5] == 'o' then Lower
    else Bottom
  }

  datatype Label = Label(text: string, color: string)

  /** `getRepositoryHealth`. */
  function RepositoryHealth(health: int): Label
  {
    if health >= 80 then Label("Excellent", "#10b981")
    else if health >= 60 then Label("Good", "#f59e0b")
    else if health >= 40 then Label("Fair", "#f97316")
    else Label("Needs Attention", "#ef4444")
  }

  /** `getActivityLevel`. */
  function ActivityLevel(activity: int): Label
  {
    if activity >= 80 then Label("Very Active", "#10b981")
    else if activity >= 60 then Label("Active", "#3b82f6")
    else if activity >= 40 then Label("Moderate", "#f59e0b")
    else Label("Low Activity", "#ef4444")
  }

  /** `getCommunityStrength`. */
  function CommunityStrength(community: int): Label
  {
    if community >= 80 then Label("Thriving", "#8b5cf6")
    else if community >= 60 then Label("Growing", "#06b6d4")
    else if community >= 40 then Label("Emerging", "#f59e0b")
    else Label("Small", "#6b7280")
  }

  /** Each of the three insights depends on its score only through the score's band,
      and scores in different bands get different words. */
  lemma InsightBands(s: int, t: int)
    ensures BandOf(s) == BandOf(t) ==> RepositoryHealth(s) == RepositoryHealth(t)
    ensures BandOf(s) == BandOf(t) ==> ActivityLevel(s) == ActivityLevel(t)
    ensures BandOf(s) == BandOf(t) ==> CommunityStrength(s) == CommunityStrength(t)
    ensures BandOf(s) != BandOf(t) ==> RepositoryHealth(s).text != RepositoryHealth(t).text
    ensures BandOf(s) != BandOf(t) ==> ActivityLevel(s).text != ActivityLevel(t).text
    ensures BandOf(s) != BandOf(t) ==> CommunityStrength(s).text != CommunityStrength(t).text
  {
    if BandOf(s) != BandOf(t) {
      var h1, h2 := RepositoryHealth(s).text, RepositoryHealth(t).text;
      var a1, a2 := ActivityLevel(s).text, ActivityLevel(t).text;
      var c1, c2 := CommunityStrength(s).text, CommunityStrength(t).text;
      assert h1[0] != h2[0] || |h1| != |h2|;
      assert a1[0] != a2[0] || |a1| != |a2|;
      assert c1[0] != c2[0] || |c1| != |c2|;
    }
  }

  // ---------------------------------------------------------------------------
  // Community health, growth and maturity

  /** `closed / Math.max(total, 1) * 100`, before `toFixed(0)`. */
  function ResolutionRate(closed: nat, total: int): real
  {
    closed as real / Max(total, 1) as real * 100.0
  }

  /** The divisor is at least 1: with issues the rate is the closed share in percent,
      at most 100 when no more are closed than exist; with none it is 100 per closed issue. */
  lemma ResolutionRateSpec(closed: nat, total: int)
    ensures total >= 1 ==> ResolutionRate(closed, total) * total as real == 100.0 * closed as real
    ensures total <= 1 ==> ResolutionRate(closed, total) == 100.0 * closed as real
    ensures 1 <= total && closed <= total ==> 0.0 <= ResolutionRate(closed, total) <= 100.0
  {
    if 1 <= total && closed <= total {
      var r := closed as real / total as real;
      assert r * total as real == closed as real;
      if r > 1.0 {
        assert r * total as real > total as real;
      }
    }
  }

  /** "excellent" when more issues are closed than open, "good" otherwise. */
  function Responsiveness(closed: nat, open: nat): string
  {
    if closed > open then "excellent" else "good"
  }

  lemma ResponsivenessSpec(closed: nat, open: nat)
    ensures Responsiveness(closed, open) == "excellent" <==> closed > open
    ensures Responsiveness(closed, open) == "good" <==> closed <= open
  {
  }

  /** Commits per month above 100 are "rapid", above 50 "steady", otherwise "slow". */
  function Growth(averagePerMonth: int): string
  {
    if averagePerMonth > 100 then "rapid" else if averagePerMonth > 50 then "steady" else "slow"
  }

  /** Above 3 years "mature", above 1 "established", otherwise "young". */
  function Maturity(years: int): string
  {
    if years > 3 then "mature" else if years > 1 then "established" else "young"
  }

  /** Each word covers exactly its interval. */
  lemma GrowthMaturitySpec(c: int, y: int)
    ensures Growth(c) == "rapid" <==> c > 100
    ensures Growth(c) == "steady" <==> 50 < c <= 100
    ensures Growth(c) == "slow" <==> c <= 50
    ensures Maturity(y) == "mature" <==> y > 3
    ensures Maturity(y) == "established" <==> 1 < y <= 3
    ensures Maturity(y) == "young" <==> y <= 1
  {
    assert "rapid"[0] != "steady"[0] && "steady"[0] != "slow"[1] && "rapid"[0] != "slow"[0];
    assert "mature"[0] != "established"[0] && "established"[0] != "young"[0] && "mature"[0] != "young"[0];
  }

  // ---------------------------------------------------------------------------
  // Contribution distribution

  datatype Contributor = Contributor(login: Option<string>, contributions: Option<nat>)

  /** `percentage` is in tenths of a percent. */
  datatype Share = Share(name: string, value: nat, tenths: int)

  /** `totalContributions || 1`. */
  function Denominator(totalContributions: Option<nat>): (d: nat)
    ensures d >= 1
  {
    if totalContributions.Some? && totalContributions.value != 0 then totalContributions.value else 1
  }

  function ValueOf(c: Contributor): nat
  {
    if c.contributions.Some? then c.contributions.value else 0
  }

  /** One contributor's slice of the pie: name or "Unknown", contributions or 0, and
      `value / total * 100` to one decimal. */
  function ShareOf(c: Contributor, totalContributions: Option<nat>): Share
  {
    Share(if Truthy(c.login) then c.login.value else "Unknown", ValueOf(c),
          RoundDiv(1000 * ValueOf(c), Denominator(totalContributions)))
  }

  function Shares(cs: seq<Contributor>, totalContributions: Option<nat>): (r: seq<Share>)
    ensures |r| == |cs|
    ensures forall i :: 0 <= i < |cs| ==> r[i] == ShareOf(cs[i], totalContributions)
  {
    seq(|cs|, i requires 0 <= i < |cs| => ShareOf(cs[i], totalContributions))
  }

  function NonZero(shares: seq<Share>): (r: seq<Share>)
    ensures |r| <= |shares|
    ensures forall s :: s in r <==> s in shares && s.value > 0
  {
    if shares == [] then []
    else
      var last := shares[|shares| - 1];
      assert shares == shares[..|shares| - 1] + [last];
      NonZero(shares[..|shares| - 1]) + if last.value > 0 then [last] else []
  }

  /** `contributors?.slice(0, 6).map(...).filter(value > 0) || []`. */
  function ContributionDistribution(contributors: Option<seq<Contributor>>, totalContributions: Option<nat>): seq<Share>
  {
    if contributors.None? then []
    else NonZero(Shares(Prefix(contributors.value, 6), totalContributions))
  }

  /** Where in `shares` the slices that `filter(value > 0)` keeps stand. */
  function Positions(shares: seq<Share>): seq<nat>
  {
    if shares == [] then []
    else Positions(shares[..|shares| - 1]) + if shares[|shares| - 1].value > 0 then [|shares| - 1] else []
  }

  lemma {:induction false} PositionsPick(shares: seq<Share>)
    ensures |Positions(shares)| == |NonZero(shares)|
    ensures forall k :: 0 <= k < |Positions(shares)| ==>
              Positions(shares)[k] < |shares| && NonZero(shares)[k] == shares[Positions(shares)[k]]
  {
    if shares != [] {
      var n := |shares| - 1;
      var init := shares[..n];
      PositionsPick(init);
      forall k | 0 <= k < |Positions(init)|
        ensures init[Positions(init)[k]] == shares[Positions(init)[k]]
      {
      }
    }
  }

  lemma {:induction false} PositionsRise(shares: seq<Share>)
    ensures forall k :: 0 <= k < |Positions(shares)| ==> Positions(shares)[k] < |shares|
    ensures forall k, l :: 0 <= k < l < |Positions(shares)| ==> Positions(shares)[k] < Positions(shares)[l]
  {
    if shares != [] {
      PositionsRise(shares[..|shares| - 1]);
    }
  }

  lemma {:induction false} PositionsComplete(shares: seq<Share>)
    ensures forall i :: 0 <= i < |shares| && shares[i].value > 0 ==> i in Positions(shares)
  {
    if shares != [] {
      var n := |shares| - 1;
      var init := shares[..n];
      PositionsComplete(init);
      forall i | 0 <= i < n && shares[i].value > 0
        ensures i in Positions(shares)
      {
        assert init[i] == shares[i];
      }
    }
  }

  /** `filter(value > 0)` keeps the positive slices in their order: `idx` says where in
      `shares` each kept slice stands, rising, and names every positive one. */
  lemma NonZeroInOrder(shares: seq<Share>) returns (idx: seq<nat>)
    ensures |idx| == |NonZero(shares)|
    ensures forall k :: 0 <= k < |idx| ==> idx[k] < |shares| && NonZero(shares)[k] == shares[idx[k]]
    ensures forall k, l :: 0 <= k < l < |idx| ==> idx[k] < idx[l]
    ensures forall i :: 0 <= i < |shares| && shares[i].value > 0 ==> i in idx
  {
    idx := Positions(shares);
    PositionsPick(shares);
    PositionsRise(shares);
    PositionsComplete(shares);
  }

  /** The pie lists the positive slices among the first six contributors in contributor
      order: slice `k` is the share of contributor `idx[k]`, the indices rise, and every
      one of the six with a positive count has its slice. */
  lemma ContributionDistributionInOrder(contributors: seq<Contributor>, totalContributions: Option<nat>)
    returns (idx: seq<nat>)
    ensures var first := Prefix(contributors, 6);
      var d := ContributionDistribution(Some(contributors), totalContributions);
      && |idx| == |d|
      && (forall k :: 0 <= k < |idx| ==> idx[k] < |first| && d[k] == ShareOf(first[idx[k]], totalContributions))
      && (forall k, l :: 0 <= k < l < |idx| ==> idx[k] < idx[l])
      && (forall i :: 0 <= i < |first| && ValueOf(first[i]) > 0 ==> i in idx)
  {
    var first := Prefix(contributors, 6);
    var sh := Shares(first, totalContributions);
    idx := NonZeroInOrder(sh);
    forall i | 0 <= i < |first| && ValueOf(first[i]) > 0
      ensures i in idx
    {
      assert sh[i].value > 0;
    }
  }

  /** No list gives an empty pie; otherwise at most six slices, exactly the first six
      contributors with a positive count (each slice is the share of one of them, and each
      of them has its slice), each with its share of the total to one decimal, at most 100
      percent when it does not exceed the total. */
  lemma ContributionDistributionSpec(contributors: Option<seq<Contributor>>, totalContributions: Option<nat>)
    ensures contributors.None? ==> ContributionDistribution(contributors, totalContributions) == []
    ensures var d := ContributionDistribution(contributors, totalContributions);
      && |d| <= 6
      && (forall s :: s in d ==> s.value > 0)
    ensures contributors.Some? ==>
              var first := Prefix(contributors.value, 6);
              var d := ContributionDistribution(contributors, totalContributions);
              forall c :: c in first ==> (ShareOf(c, totalContributions) in d <==> ValueOf(c) > 0)
    ensures contributors.Some? ==>
              var first := Prefix(contributors.value, 6);
              forall s :: s in ContributionDistribution(contributors, totalContributions) ==>
                exists c :: c in first && ValueOf(c) > 0 && s == ShareOf(c, totalContributions)
    ensures forall s :: s in ContributionDistribution(contributors, totalContributions) ==>
              var t := Denominator(totalContributions);
              2 * t * s.tenths - t <= 2000 * s.value < 2 * t * s.tenths + t
              && (s.value <= t ==> 0 <= s.tenths <= 1000)
  {
    var t := Denominator(totalContributions);
    if contributors.Some? {
      var sh := Shares(Prefix(contributors.value, 6), totalContributions);
      forall c | c in Prefix(contributors.value, 6)
        ensures ShareOf(c, totalContributions) in sh
      {
        var i :| 0 <= i < |Prefix(contributors.value, 6)| && Prefix(contributors.value, 6)[i] == c;
        assert sh[i] == ShareOf(c, totalContributions);
      }
      forall s | s in ContributionDistribution(contributors, totalContributions)
        ensures exists c :: c in Prefix(contributors.value, 6) && ValueOf(c) > 0 && s == ShareOf(c, totalContributions)
      {
        var i :| 0 <= i < |sh| && sh[i] == s;
        assert Prefix(contributors.value, 6)[i] in Prefix(contributors.value, 6);
      }
      forall s | s in ContributionDistribution(contributors, totalContributions)
        ensures s.value <= t ==> 0 <= s.tenths <= 1000
      {
        var i :| 0 <= i < |sh| && sh[i] == s;
        RoundDivBounds(1000 * s.value, t);
        if s.value <= t {
          RoundDivAtMost(1000 * s.value, t, 1000);
        }
      }
    }
  }
}
