/** fetchTrendingDevelopers and retryApiCall in src/services/trendingApi.js: the attempt
    loop that retries a failed request, the record built for each developer, and the
    loop that walks the developers in batches of five. Requests are replaced by their
    outcomes, given as functions of the attempt number or of the developer. */
module TrendingDevelopers {
  import opened Common
  import opened Tally
  import opened TrendingApi

  // ---------------------------------------------------------------------------
  // Retries

  /** What one call of `apiCall` does: resolve with a value, or reject with an error
      that may carry an HTTP status. */
  datatype Outcome<T> = Success(value: T) | Failure(status: Option<int>)

  /** How retryApiCall settles: with the first value, by rethrowing the last error, or
      with `undefined` when `maxRetries` allows no attempt at all. */
  datatype Settled<T> = Returned(value: T) | Threw(status: Option<int>) | NoAttempt

  datatype RetryRun<T> = RetryRun(result: Settled<T>, calls: nat, waits: seq<nat>)

  /** The pause before the next attempt: longer after a rate-limit refusal. */
  function WaitAfter(status: Option<int>): nat
  {
    if status == Some(403) then 2000 else 1000
  }

  /** Attempts `attempt` up to `maxRetries`, given that the earlier ones failed. */
  function RetryFrom<T>(outcome: nat -> Outcome<T>, attempt: nat, maxRetries: int): (run: RetryRun<T>)
    requires attempt >= 1
    decreases maxRetries - attempt
  {
    if attempt > maxRetries then RetryRun(NoAttempt, attempt - 1, [])
    else match outcome(attempt)
      case Success(v) => RetryRun(Returned(v), attempt, [])
      case Failure(status) =>
        if attempt == maxRetries then RetryRun(Threw(status), attempt, [])
        else
          var rest := RetryFrom(outcome, attempt + 1, maxRetries);
          RetryRun(rest.result, rest.calls, [WaitAfter(status)] + rest.waits)
  }

  /** The attempt loop; `outcome(k)` is what the k-th call of `apiCall` does, and
      `waits` lists the pauses in milliseconds. */
  method RetryApiCall<T>(outcome: nat -> Outcome<T>, maxRetries: int) returns (result: Settled<T>, calls: nat, waits: seq<nat>)
    ensures RetryRun(result, calls, waits) == RetryFrom(outcome, 1, maxRetries)
  {
    calls := 0;
    waits := [];
    var attempt := 1;
    while attempt <= maxRetries
      invariant 1 <= attempt && calls == attempt - 1
      invariant attempt <= maxRetries + 1 || attempt == 1
      invariant var rest := RetryFrom(outcome, attempt, maxRetries);
        RetryFrom(outcome, 1, maxRetries) == RetryRun(rest.result, rest.calls, waits + rest.waits)
      decreases maxRetries - attempt
    {
      calls := calls + 1;
      match outcome(attempt)
      case Success(v) =>
        return Returned(v), calls, waits;
      case Failure(status) =>
        if attempt == maxRetries {
          return Threw(status), calls, waits;
        }
        ghost var rest := RetryFrom(outcome, attempt + 1, maxRetries);
        assert waits + ([WaitAfter(status)] + rest.waits) == (waits + [WaitAfter(status)]) + rest.waits;
        waits := waits + [WaitAfter(status)];
        attempt := attempt + 1;
    }
    return NoAttempt, calls, waits;
  }

  /** A run from attempt `a` on makes no more than the remaining attempts, returns the
      first success, rethrows the last failure, and pauses once after every failed
      attempt but the last, for as long as that failure asks. */
  lemma {:induction false} RetryFromSpec<T>(outcome: nat -> Outcome<T>, a: nat, maxRetries: int)
    requires a >= 1
    ensures var run := RetryFrom(outcome, a, maxRetries);
      && (a > maxRetries ==> run.result.NoAttempt? && run.calls == a - 1)
      && (a <= maxRetries ==>
            (&& a <= run.calls <= maxRetries && |run.waits| == run.calls - a
             && (forall k :: a <= k < run.calls ==> outcome(k).Failure? && run.waits[k - a] == WaitAfter(outcome(k).status))
             && (run.result.Returned? <==> outcome(run.calls).Success?)
             && (run.result.Returned? ==> run.result.value == outcome(run.calls).value)
             && (run.result.Threw? <==> run.calls == maxRetries && outcome(maxRetries).Failure?)
             && (run.result.Threw? ==> run.result.status == outcome(maxRetries).status)
             && !run.result.NoAttempt?))
    decreases maxRetries - a
  {
    if a <= maxRetries && outcome(a).Failure? && a < maxRetries {
      RetryFromSpec(outcome, a + 1, maxRetries);
    }
  }

  /** retryApiCall: at most `maxRetries` calls; the result is the first success, or the
      error of the last attempt once all have failed; a `maxRetries` below 1 makes no
      call and settles with `undefined`. */
  lemma RetrySpec<T>(outcome: nat -> Outcome<T>, maxRetries: int)
    ensures var run := RetryFrom(outcome, 1, maxRetries);
      && run.calls <= Max(maxRetries, 0)
      && (run.result.NoAttempt? <==> maxRetries < 1)
      && (run.result.Returned? <==>
            (1 <= run.calls && outcome(run.calls).Success? && forall k :: 1 <= k < run.calls ==> outcome(k).Failure?))
      && (run.result.Threw? <==> maxRetries >= 1 && forall k :: 1 <= k <= maxRetries ==> outcome(k).Failure?)
  {
    RetryFromSpec(outcome, 1, maxRetries);
  }

  // ---------------------------------------------------------------------------
  // Developer records

  /** One developer as the trending API lists it. */
  datatype TrendingDeveloper = TrendingDeveloper(username: string, name: Option<string>,
                                                 repoName: Option<string>, repoDescription: Option<string>)

  datatype UserDetails = UserDetails(name: Option<string>, followers: nat, following: nat, publicRepos: nat)

  /** The two GitHub requests for a developer: both answered, or one of them failed. */
  datatype Lookup = Fetched(user: UserDetails, repos: seq<UserRepo>) | FetchFailed

  datatype DeveloperRecord = DeveloperRecord(login: string, name: string, followers: nat, following: nat,
                                             publicRepos: nat, totalStars: int, topRepo: string,
                                             languages: seq<string>, badge: string)

  /** The record built for one developer, or the basic record when a request failed. */
  function DeveloperRecordOf(dev: TrendingDeveloper, lookup: Lookup): DeveloperRecord
  {
    match lookup
    case Fetched(user, repos) =>
      DeveloperRecord(dev.username, OrElse(dev.name, OrElse(user.name, dev.username)),
                      user.followers, user.following, user.publicRepos, SumBy(repos, Stars),
                      OrElse(dev.repoName, if repos != [] then OrElse(Some(repos[0].name), "N/A") else "N/A"),
                      Prefix(Distinct(LanguagesOf(repos)), 5), GenerateBadge(user.followers, repos))
    case FetchFailed =>
      DeveloperRecord(dev.username, OrElse(dev.name, dev.username), 0, 0, 0, 0,
                      OrElse(dev.repoName, "N/A"), [], "Developer")
  }

  /** Every record names its developer; its languages are the first min(5, n) of the n
      distinct languages of the repositories, in first-seen order; a failed lookup gives
      zero counts and the "Developer" badge. */
  lemma DeveloperRecordSpec(dev: TrendingDeveloper, lookup: Lookup)
    ensures var r := DeveloperRecordOf(dev, lookup);
      && r.login == dev.username
      && |r.languages| <= 5 && NoDuplicates(r.languages)
      && (lookup.Fetched? ==>
            var d := Distinct(LanguagesOf(lookup.repos));
            && |r.languages| == (if |d| < 5 then |d| else 5)
            && r.languages == d[..|r.languages|])
      && (lookup.Fetched? ==> forall l :: l in r.languages ==> exists q :: q in lookup.repos && q.language == Some(l))
      && (lookup.FetchFailed? ==> r.followers == 0 && r.totalStars == 0 && r.languages == [] && r.badge == "Developer")
  {
    if lookup.Fetched? {
      var d := Distinct(LanguagesOf(lookup.repos));
      var r := DeveloperRecordOf(dev, lookup);
      assert r.languages == d[..|r.languages|];
      forall l | l in r.languages
        ensures l in d
      {
        var i :| 0 <= i < |r.languages| && r.languages[i] == l;
        assert d[i] == l;
      }
    }
  }

  // ---------------------------------------------------------------------------
  // The batch loop

  const BatchSize: nat := 5

  function RecordsOf(devs: seq<TrendingDeveloper>, lookup: TrendingDeveloper -> Lookup): (rs: seq<DeveloperRecord>)
    ensures |rs| == |devs|
    ensures forall i :: 0 <= i < |devs| ==> rs[i] == DeveloperRecordOf(devs[i], lookup(devs[i]))
  {
    seq(|devs|, i requires 0 <= i < |devs| => DeveloperRecordOf(devs[i], lookup(devs[i])))
  }

  lemma RecordsOfAppend(a: seq<TrendingDeveloper>, b: seq<TrendingDeveloper>, lookup: TrendingDeveloper -> Lookup)
    ensures RecordsOf(a + b, lookup) == RecordsOf(a, lookup) + RecordsOf(b, lookup)
  {
  }

  /** The bound the loop runs to: `Math.min(response.data.length, limit)`. */
  function LoopBound(n: nat, limit: int): int
  {
    Min(n, limit)
  }

  /** Whole batches of five cover the bound rounded up to a multiple of five. */
  function RoundUpToBatch(bound: int): nat
  {
    if bound <= 0 then 0 else BatchSize * ((bound + BatchSize - 1) / BatchSize)
  }

  /** How many developers the loop as written visits: each batch is
      `response.data.slice(i, i + 5)`, which the bound does not cut. */
  function VisitedAsWritten(n: nat, limit: int): nat
  {
    Min(n, RoundUpToBatch(LoopBound(n, limit)))
  }

  function Batches(bound: int): nat
  {
    RoundUpToBatch(bound) / BatchSize
  }

  /** Where the loop stops: the first multiple of five at or past the bound. */
  lemma BatchCount(bound: int, i: int)
    requires i >= 0 && i % BatchSize == 0 && i >= bound
    requires i == 0 || i < bound + BatchSize
    ensures i == RoundUpToBatch(bound) || (bound <= 0 && i == 0)
  {
  }

  /** The loop as written. `pauses` counts the 100 ms sleeps between batches. */
  method FetchDevelopersAsWritten(data: seq<TrendingDeveloper>, lookup: TrendingDeveloper -> Lookup, limit: int)
    returns (developers: seq<DeveloperRecord>, pauses: nat)
    ensures developers == RecordsOf(data[..VisitedAsWritten(|data|, limit)], lookup)
    ensures pauses == Max(Batches(LoopBound(|data|, limit)) - 1, 0)
  {
    var bound := Min(|data|, limit);
    developers := [];
    pauses := 0;
    var i := 0;
    while i < bound
      invariant 0 <= i && i % BatchSize == 0
      invariant i == 0 || i < bound + BatchSize
      invariant developers == RecordsOf(data[..Min(i, |data|)], lookup)
      invariant pauses == if i < bound then i / BatchSize else Max(i / BatchSize - 1, 0)
      decreases bound - i
    {
      var batch := data[i..Min(i + BatchSize, |data|)];
      assert data[..Min(i + BatchSize, |data|)] == data[..i] + batch;
      RecordsOfAppend(data[..i], batch, lookup);
      developers := developers + RecordsOf(batch, lookup);
      if i + BatchSize < bound {
        pauses := pauses + 1;
      }
      i := i + BatchSize;
    }
    BatchCount(bound, i);
  }

  /** The same loop with each batch cut at the bound, `data.slice(i, Math.min(i + 5, bound))`. */
  method FetchDevelopers(data: seq<TrendingDeveloper>, lookup: TrendingDeveloper -> Lookup, limit: int)
    returns (developers: seq<DeveloperRecord>, pauses: nat)
    ensures developers == RecordsOf(data[..Max(LoopBound(|data|, limit), 0)], lookup)
    ensures pauses == Max(Batches(LoopBound(|data|, limit)) - 1, 0)
  {
    var bound := Min(|data|, limit);
    developers := [];
    pauses := 0;
    var i := 0;
    while i < bound
      invariant 0 <= i && i % BatchSize == 0
      invariant i == 0 || i < bound + BatchSize
      invariant developers == RecordsOf(data[..Max(Min(i, bound), 0)], lookup)
      invariant pauses == if i < bound then i / BatchSize else Max(i / BatchSize - 1, 0)
      decreases bound - i
    {
      var batch := data[i..Min(i + BatchSize, bound)];
      assert data[..Min(i + BatchSize, bound)] == data[..i] + batch;
      RecordsOfAppend(data[..i], batch, lookup);
      developers := developers + RecordsOf(batch, lookup);
      if i + BatchSize < bound {
        pauses := pauses + 1;
      }
      i := i + BatchSize;
    }
    BatchCount(bound, i);
  }

  /** The loop as written visits the first `min(n, limit)` developers and then fills the
      last batch up to five from the developers beyond the limit. */
  lemma VisitedAsWrittenBounds(n: nat, limit: int)
    ensures LoopBound(n, limit) <= 0 ==> VisitedAsWritten(n, limit) == 0
    ensures LoopBound(n, limit) > 0 ==>
              LoopBound(n, limit) <= VisitedAsWritten(n, limit) < LoopBound(n, limit) + BatchSize
    ensures (VisitedAsWritten(n, limit) == Max(LoopBound(n, limit), 0)) <==>
              (LoopBound(n, limit) <= 0 || LoopBound(n, limit) % BatchSize == 0 || LoopBound(n, limit) == n)
  {
  }

  /** Twenty trending developers and a limit of seven give ten records, not seven. */
  lemma BatchOvershoot()
    ensures VisitedAsWritten(20, 7) == 10 && LoopBound(20, 7) == 7
  {
  }

  /** With each batch cut at the bound, the output has exactly `min(n, limit)` records,
      one per developer in order; when limit is a multiple of five, as the callers'
      limit of 20 is, the loop as written gives the same. */
  lemma FetchDevelopersSpec(data: seq<TrendingDeveloper>, lookup: TrendingDeveloper -> Lookup, limit: int)
    ensures |RecordsOf(data[..Max(LoopBound(|data|, limit), 0)], lookup)| == if limit <= 0 then 0 else Min(|data|, limit)
    ensures limit >= 0 && limit % BatchSize == 0 ==> VisitedAsWritten(|data|, limit) == Min(|data|, limit)
  {
    VisitedAsWrittenBounds(|data|, limit);
  }
}
