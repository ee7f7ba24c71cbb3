/** How the repository service infers the total size of a list endpoint from a single
    `per_page: 1` request (src/services/repositoryApi.js, getTotalCount and
    getSearchCount), and how the issue and pull-request counts are gathered. */
module RepositoryCounts {
  import opened Common

  /** The outcome of a `per_page: 1` request to a list endpoint: either it failed, or
      it returned a page of `length` items, with or without a Link header. */
  datatype PageResponse = RequestFailed | Page(link: Option<string>, length: nat)

  /** The outcome of a search request: failed, or a `total_count`. */
  datatype SearchResponse = SearchFailed | SearchResult(totalCount: nat)

  const LastRelation: string := "rel=\"last\""
  const PageParameter: string := "page="
  const LastSuffix: string := ">; rel=\"last\""

  /** Length of the longest run of decimal digits starting at `j`. */
  function DigitRun(s: string, j: nat): (d: nat)
    requires j <= |s|
    ensures j + d <= |s|
    ensures forall k :: j <= k < j + d ==> IsDigit(s[k])
    ensures j + d == |s| || !IsDigit(s[j + d])
    decreases |s| - j
  {
    if j < |s| && IsDigit(s[j]) then 1 + DigitRun(s, j + 1) else 0
  }

  /** A run of digits followed by a non-digit is the whole digit run. */
  lemma DigitRunOf(s: string, j: nat, n: nat)
    requires j + n < |s|
    requires forall k :: j <= k < j + n ==> IsDigit(s[k])
    requires !IsDigit(s[j + n])
    ensures DigitRun(s, j) == n
  {
  }

  /** The regular expression /page=(\d+)>; rel="last"/ matches at position `i`. Because
      `>` is not a digit, the greedy `\d+` can only succeed with the maximal digit run. */
  predicate LastPageMatchAt(s: string, i: int)
  {
    OccursAt(s, PageParameter, i)
    && var d := DigitRun(s, i + |PageParameter|);
       d >= 1 && OccursAt(s, LastSuffix, i + |PageParameter| + d)
  }

  /** parseInt of the captured group of a match at `i`. */
  function CapturedPage(s: string, i: int): nat
    requires LastPageMatchAt(s, i)
  {
    var j := i + |PageParameter|;
    DecimalValue(s[j..j + DigitRun(s, j)])
  }

  /** String.prototype.match: the leftmost match at or after `from`, and the page it captures. */
  function FirstLastPageMatch(s: string, from: nat): (r: Option<nat>)
    ensures r.None? <==> forall i :: from <= i ==> !LastPageMatchAt(s, i)
    ensures r.Some? ==> exists i :: from <= i && LastPageMatchAt(s, i) && r.value == CapturedPage(s, i)
                                   && (forall j :: from <= j < i ==> !LastPageMatchAt(s, j))
    decreases |s| + 1 - from
  {
    if from > |s| then None
    else if LastPageMatchAt(s, from) then Some(CapturedPage(s, from))
    else FirstLastPageMatch(s, from + 1)
  }

  function LastPageNumber(header: string): Option<nat>
  {
    FirstLastPageMatch(header, 0)
  }

  /** A match of the pattern contains the text `rel="last"`. */
  lemma MatchContainsLastRelation(s: string, i: int)
    requires LastPageMatchAt(s, i)
    ensures Contains(s, LastRelation)
  {
    var k := i + |PageParameter| + DigitRun(s, i + |PageParameter|);
    assert s[k..k + |LastSuffix|] == LastSuffix;
    assert s[k + 3..k + 3 + |LastRelation|] == LastSuffix[3..];
    assert OccursAt(s, LastRelation, k + 3);
  }

  /** getTotalCount: 0 when the request fails; the page number captured from a Link
      header that mentions `rel="last"` and matches the pattern; the length of the
      returned page otherwise. */
  function TotalCount(r: PageResponse): nat
  {
    match r
    case RequestFailed => 0
    case Page(link, length) =>
      if Truthy(link) && Contains(link.value, LastRelation) then
        match LastPageNumber(link.value)
        case Some(page) => page
        case None => length
      else length
  }

  /** The `includes('rel="last"')` pre-check never decides anything on its own: every
      header the pattern matches passes it, so the count is the captured page exactly
      when the header matches, the page length when it does not, and 0 on failure. */
  lemma TotalCountCases(r: PageResponse)
    ensures r.RequestFailed? ==> TotalCount(r) == 0
    ensures r.Page? && (r.link.None? || LastPageNumber(r.link.value).None?) ==> TotalCount(r) == r.length
    ensures r.Page? && r.link.Some? && LastPageNumber(r.link.value).Some? ==> TotalCount(r) == LastPageNumber(r.link.value).value
  {
    if r.Page? && r.link.Some? && LastPageNumber(r.link.value).Some? {
      var i :| LastPageMatchAt(r.link.value, i);
      MatchContainsLastRelation(r.link.value, i);
    }
  }

  /** A Link header whose `rel="last"` entry is the first one to end in `>; rel="last"`
      yields the page number written in that entry. */
  lemma TotalCountOfLastLink(before: string, page: nat, length: nat)
    requires !Contains(before, LastSuffix)
    ensures TotalCount(Page(Some(before + PageParameter + NatToString(page) + LastSuffix), length)) == page
  {
    var digits := NatToString(page);
    var s := before + PageParameter + digits + LastSuffix;
    LinkPrefix(before, digits, s);
    LinkPage(before, digits, s);
    LinkDigits(before, digits, s);
    LinkSuffix(before, digits, s);
    DecimalRoundTrip(page);
    LastPageOfLink(s, before, digits);
    TotalCountOfMatch(s, length, page);
  }

  /** A header that mentions `rel="last"` and matches the pattern counts its captured page. */
  lemma TotalCountOfMatch(s: string, length: nat, page: nat)
    requires Contains(s, LastRelation) && LastPageNumber(s) == Some(page)
    ensures TotalCount(Page(Some(s), length)) == page
  {
    var i :| 0 <= i <= |s| - |LastRelation| && OccursAt(s, LastRelation, i);
    assert |s| > 0;
  }

  /** The same, for any header in which `before` is followed by `page=`, a digit run and
      `>; rel="last"`. */
  lemma LastPageOfLink(s: string, before: string, digits: string)
    requires forall k :: 0 <= k < |digits| ==> IsDigit(digits[k])
    requires |before| + |PageParameter| <= |s|
    requires s[..|before|] == before && s[|before|..|before| + |PageParameter|] == PageParameter
    requires !Contains(before, LastSuffix)
    requires OccursAt(s, PageParameter, |before|)
    requires |digits| >= 1 && DigitRun(s, |before| + |PageParameter|) == |digits|
    requires s[|before| + |PageParameter|..|before| + |PageParameter| + |digits|] == digits
    requires OccursAt(s, LastSuffix, |before| + |PageParameter| + |digits|)
    ensures Contains(s, LastRelation) && LastPageNumber(s) == Some(DecimalValue(digits))
  {
    NoEarlierMatch(before, s);
    MatchFromParts(s, |before|, |digits|);
    CapturedFromParts(s, |before|, digits);
    FirstMatchIs(s, |before|);
    MatchContainsLastRelation(s, |before|);
  }

  /** The leftmost match decides the page number. */
  lemma FirstMatchIs(s: string, at: int)
    requires LastPageMatchAt(s, at)
    requires forall i :: 0 <= i < at ==> !LastPageMatchAt(s, i)
    ensures LastPageNumber(s) == Some(CapturedPage(s, at))
  {
    var r := LastPageNumber(s);
    var i :| 0 <= i && LastPageMatchAt(s, i) && r.value == CapturedPage(s, i)
             && (forall j :: 0 <= j < i ==> !LastPageMatchAt(s, j));
    assert i == at;
  }

  /** `before` is the head of the header, and `page=` follows it. */
  lemma LinkPrefix(before: string, digits: string, s: string)
    requires s == before + PageParameter + digits + LastSuffix
    ensures |before| + |PageParameter| <= |s|
    ensures s[..|before|] == before && s[|before|..|before| + |PageParameter|] == PageParameter
  {
    var u := before + PageParameter;
    assert s[..|u|] == u;
    assert s[..|before|] == u[..|before|];
    assert s[|before|..|u|] == u[|before|..];
  }

  /** `page=` occurs right after `before`. */
  lemma LinkPage(before: string, digits: string, s: string)
    requires s == before + PageParameter + digits + LastSuffix
    ensures OccursAt(s, PageParameter, |before|)
  {
    var u := before + PageParameter;
    assert s[..|u|] == u;
    assert s[|before|..|u|] == u[|before|..];
  }

  /** The digit run after `page=` is exactly the written page number. */
  lemma LinkDigits(before: string, digits: string, s: string)
    requires forall k :: 0 <= k < |digits| ==> IsDigit(digits[k])
    requires s == before + PageParameter + digits + LastSuffix
    ensures DigitRun(s, |before| + |PageParameter|) == |digits|
    ensures s[|before| + |PageParameter|..|before| + |PageParameter| + |digits|] == digits
  {
    var u := before + PageParameter;
    var v := u + digits;
    forall k | |u| <= k < |v|
      ensures IsDigit(s[k])
    {
      assert s[k] == digits[k - |u|];
    }
    assert s[|v|] == '>';
    DigitRunOf(s, |u|, |digits|);
    assert s[|u|..|v|] == digits;
  }

  /** `>; rel="last"` follows the page number. */
  lemma LinkSuffix(before: string, digits: string, s: string)
    requires s == before + PageParameter + digits + LastSuffix
    ensures OccursAt(s, LastSuffix, |before| + |PageParameter| + |digits|)
  {
    var v := before + PageParameter + digits;
    assert s[|v|..] == LastSuffix;
  }

  /** A `page=`, a non-empty digit run and `>; rel="last"` in a row form a match. */
  lemma MatchFromParts(s: string, i: nat, n: nat)
    requires OccursAt(s, PageParameter, i)
    requires n >= 1 && DigitRun(s, i + |PageParameter|) == n
    requires OccursAt(s, LastSuffix, i + |PageParameter| + n)
    ensures LastPageMatchAt(s, i)
  {
  }

  /** The page captured by such a match is the value of its digit run. */
  lemma CapturedFromParts(s: string, i: nat, digits: string)
    requires LastPageMatchAt(s, i)
    requires forall k :: 0 <= k < |digits| ==> IsDigit(digits[k])
    requires DigitRun(s, i + |PageParameter|) == |digits|
    requires s[i + |PageParameter|..i + |PageParameter| + |digits|] == digits
    ensures CapturedPage(s, i) == DecimalValue(digits)
  {
  }

  /** No match starts inside a text without `>; rel="last"` that is followed by `page=`. */
  lemma NoEarlierMatch(before: string, s: string)
    requires |before| + |PageParameter| <= |s|
    requires s[..|before|] == before && s[|before|..|before| + |PageParameter|] == PageParameter
    requires !Contains(before, LastSuffix)
    ensures forall i :: 0 <= i < |before| ==> !LastPageMatchAt(s, i)
  {
    forall i | 0 <= i < |before|
      ensures !LastPageMatchAt(s, i)
    {
      NoMatchInsideBefore(before, s, i);
    }
  }

  /** No match can start before a `page=` that follows a text without `>; rel="last"`. */
  lemma NoMatchInsideBefore(before: string, s: string, i: int)
    requires |before| + |PageParameter| <= |s|
    requires s[..|before|] == before && s[|before|..|before| + |PageParameter|] == PageParameter
    requires !Contains(before, LastSuffix)
    requires 0 <= i < |before|
    ensures !LastPageMatchAt(s, i)
  {
    var b := |before|;
    if OccursAt(s, PageParameter, i) {
      var j := i + |PageParameter|;
      var k := j + DigitRun(s, j);
      DigitRunStopsAtPage(s, b, j);
      if k + |LastSuffix| <= b {
        NoSuffixInBefore(before, s, k);
      } else {
        NoSuffixAcrossPage(s, b, k);
      }
    }
  }

  /** The digit run after a `page=` that starts inside `before` stops at the next `page=`. */
  lemma DigitRunStopsAtPage(s: string, b: nat, j: nat)
    requires b + |PageParameter| <= |s| && s[b..b + |PageParameter|] == PageParameter
    requires j < b + |PageParameter|
    ensures j + DigitRun(s, j) < b + |PageParameter|
  {
    var q := if j < b then b else j;
    assert s[q] == s[b..b + |PageParameter|][q - b];
    assert !IsDigit(s[q]);
  }

  /** `>; rel="last"` does not occur in `s` where it would lie wholly inside `before`. */
  lemma NoSuffixInBefore(before: string, s: string, k: nat)
    requires |before| <= |s| && s[..|before|] == before
    requires !Contains(before, LastSuffix)
    requires k + |LastSuffix| <= |before|
    ensures !OccursAt(s, LastSuffix, k)
  {
    forall t | k <= t < k + |LastSuffix|
      ensures s[t] == before[t]
    {
      assert s[..|before|][t] == s[t];
    }
    assert s[k..k + |LastSuffix|] == before[k..k + |LastSuffix|];
    if OccursAt(before, LastSuffix, k) {
      assert Contains(before, LastSuffix);
    }
  }

  /** `>; rel="last"` cannot overlap `page=`: it has no `p` and does not start with a letter
      of `page=`. */
  lemma NoSuffixAcrossPage(s: string, b: nat, k: nat)
    requires b + |PageParameter| <= |s| && s[b..b + |PageParameter|] == PageParameter
    requires k < b + |PageParameter| && b < k + |LastSuffix|
    ensures !OccursAt(s, LastSuffix, k)
  {
    if k + |LastSuffix| <= |s| {
      if k < b {
        assert s[b] == s[b..b + |PageParameter|][0];
        assert s[k..k + |LastSuffix|][b - k] == s[b];
      } else {
        assert s[k] == s[b..b + |PageParameter|][k - b];
        assert s[k..k + |LastSuffix|][0] == s[k];
      }
    }
  }

  /** getSearchCount: the `total_count` of the search, or 0 when the request fails. */
  function SearchCount(r: SearchResponse): nat
  {
    match r
    case SearchFailed => 0
    case SearchResult(total) => total
  }

  /** The settled state of one promise. */
  datatype Settled = Fulfilled(value: nat) | Rejected

  /** Promise.all: every value when every promise is fulfilled, a rejection otherwise. */
  function AllFulfilled(ps: seq<Settled>): (r: Option<seq<nat>>)
    ensures r.Some? <==> forall i :: 0 <= i < |ps| ==> ps[i].Fulfilled?
    ensures r.Some? ==> |r.value| == |ps| && forall i :: 0 <= i < |ps| ==> r.value[i] == ps[i].value
  {
    if exists i :: 0 <= i < |ps| && ps[i].Rejected? then None
    else Some(seq(|ps|, i requires 0 <= i < |ps| => ps[i].value))
  }

  /** The try/catch around the two Promise.all calls: the values of the first batch if
      all of its promises are fulfilled, else those of the second batch, else zeros. */
  function WithFallback(first: seq<Settled>, second: seq<Settled>): (c: seq<nat>)
    requires |first| == 4 && |second| == 4
    ensures |c| == 4
    ensures (forall i :: 0 <= i < 4 ==> first[i].Fulfilled?) ==> forall i :: 0 <= i < 4 ==> c[i] == first[i].value
  {
    var viaFirst := AllFulfilled(first);
    if viaFirst.Some? then viaFirst.value
    else
      var viaSecond := AllFulfilled(second);
      if viaSecond.Some? then viaSecond.value else [0, 0, 0, 0]
  }

  /** getSearchCount as a promise: it catches its own errors, so it always fulfils. */
  function SearchPromise(r: SearchResponse): Settled
  {
    Fulfilled(SearchCount(r))
  }

  /** getTotalCount as a promise: it too catches its own errors. */
  function ListingPromise(r: PageResponse): Settled
  {
    Fulfilled(TotalCount(r))
  }

  /** The open issues, closed issues, open pull requests and closed pull requests: the
      four searches, with the four list endpoints as the fallback. */
  function IssueAndPrCounts(searches: seq<SearchResponse>, listings: seq<PageResponse>): seq<nat>
    requires |searches| == 4 && |listings| == 4
  {
    WithFallback(seq(4, i requires 0 <= i < 4 => SearchPromise(searches[i])),
                 seq(4, i requires 0 <= i < 4 => ListingPromise(listings[i])))
  }

  /** The list-endpoint fallback is never taken: the four counts are always the search
      counts, 0 for each failed search, whatever the list endpoints would return. */
  lemma SearchFallbackUnreachable(searches: seq<SearchResponse>, listings: seq<PageResponse>)
    requires |searches| == 4 && |listings| == 4
    ensures var c := IssueAndPrCounts(searches, listings);
      |c| == 4 && forall i :: 0 <= i < 4 ==> c[i] == SearchCount(searches[i])
  {
  }

  /** The totals gathered for one repository. */
  datatype TotalCounts = TotalCounts(
    contributors: nat, commits: nat, releases: nat, branches: nat, tags: nat,
    issuesOpen: nat, issuesClosed: nat, prsOpen: nat, prsClosed: nat)

  /** The `totalCounts` object of fetchRepositoryDetails, from the five list endpoints
      (contributors, releases, branches, tags, commits) and the four searches. */
  function GatherTotals(contributors: PageResponse, releases: PageResponse, branches: PageResponse,
                        tags: PageResponse, commits: PageResponse,
                        searches: seq<SearchResponse>, listings: seq<PageResponse>): (t: TotalCounts)
    requires |searches| == 4 && |listings| == 4
    ensures t.contributors == TotalCount(contributors) && t.commits == TotalCount(commits)
    ensures t.releases == TotalCount(releases) && t.branches == TotalCount(branches) && t.tags == TotalCount(tags)
    ensures t.issuesOpen == SearchCount(searches[0]) && t.issuesClosed == SearchCount(searches[1])
    ensures t.prsOpen == SearchCount(searches[2]) && t.prsClosed == SearchCount(searches[3])
  {
    var c := IssueAndPrCounts(searches, listings);
    SearchFallbackUnreachable(searches, listings);
    TotalCounts(TotalCount(contributors), TotalCount(commits), TotalCount(releases),
                TotalCount(branches), TotalCount(tags), c[0], c[1], c[2], c[3])
  }

  /** The error fetchRepositoryDetails throws for a failed repository request with the
      given HTTP status (None when the failure has no response). */
  function FetchErrorMessage(owner: string, repo: string, status: Option<int>): string
  {
    if status == Some(404) then "Repository \"" + owner + "/" + repo + "\" not found"
    else if status == Some(403) then "API rate limit exceeded or repository is private"
    else "Failed to fetch repository data. Please try again."
  }

  /** Only the not-found message names the repository: the others are the same for
      every repository. */
  lemma FetchErrorMessageCases(owner: string, repo: string, status: Option<int>, owner': string, repo': string)
    ensures status == Some(404) ==> Contains(FetchErrorMessage(owner, repo, status), owner + "/" + repo)
    ensures status != Some(404) ==> FetchErrorMessage(owner, repo, status) == FetchErrorMessage(owner', repo', status)
  {
    if status == Some(404) {
      var m := FetchErrorMessage(owner, repo, status);
      var name := owner + "/" + repo;
      assert m == "Repository \"" + name + "\" not found";
      assert m[12..12 + |name|] == name;
      assert OccursAt(m, name, 12);
    }
  }
}
