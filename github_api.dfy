/** src/services/githubApi.js: the language ranking of a user's repositories, the
    one-sentence profile summary built from it, and the messages a failed profile or
    repository request is turned into. */
module GithubApi {
  import opened Common
  import opened Tally
  import opened TrendingApi

  // ---------------------------------------------------------------------------
  // getTopLanguages

  /** `Count(LanguagesOf(repos), l)` is the number of repositories written in `l`. */
  function ReposIn(repos: seq<UserRepo>, l: string): nat
  {
    if repos == [] then 0
    else ReposIn(repos[..|repos| - 1], l) + if repos[|repos| - 1].language == Some(l) && l != "" then 1 else 0
  }

  lemma {:induction false} CountIsReposIn(repos: seq<UserRepo>, l: string)
    ensures Count(LanguagesOf(repos), l) == ReposIn(repos, l)
  {
    if repos != [] {
      var init := repos[..|repos| - 1];
      var last := repos[|repos| - 1];
      CountIsReposIn(init, l);
      CountAppend(LanguagesOf(init), if Truthy(last.language) then [last.language.value] else [], l);
    }
  }

  lemma {:induction false} CountAppend(a: seq<string>, b: seq<string>, l: string)
    ensures Count(a + b, l) == Count(a, l) + Count(b, l)
    decreases |b|
  {
    if b != [] {
      assert a + b == (a + b[..|b| - 1]) + [b[|b| - 1]];
      CountAppend(a, b[..|b| - 1], l);
      assert b == b[..|b| - 1] + [b[|b| - 1]];
      CountLast(a + b[..|b| - 1], b[|b| - 1], l);
      CountLast(b[..|b| - 1], b[|b| - 1], l);
    } else {
      assert a + b == a;
    }
  }

  lemma CountLast(a: seq<string>, x: string, l: string)
    ensures Count(a + [x], l) == Count(a, l) + if x == l then 1 else 0
  {
    assert (a + [x])[..|a + [x]| - 1] == a;
  }

  /** The counting loop over the repositories and the sort-and-cut of its entries. */
  method GetTopLanguages(repos: seq<UserRepo>) returns (top: seq<Entry<string>>)
    ensures top == TopCountsOf(LanguagesOf(repos), 6)
  {
    top := TopCounts(LanguagesOf(repos), 6);
  }

  /** At most six languages, most used first, each once, each counting the repositories
      written in it; together they count no more repositories than there are. */
  lemma TopLanguagesSpec(repos: seq<UserRepo>)
    ensures var top := TopCountsOf(LanguagesOf(repos), 6);
      && |top| <= 6
      && SortedDesc(top, ByCount)
      && NoDuplicates(Keys(top))
      && (forall i :: 0 <= i < |top| ==> top[i].count >= 1 && top[i].count == ReposIn(repos, top[i].key))
      && SumCounts(top) <= |repos|
  {
    var top := TopCountsOf(LanguagesOf(repos), 6);
    TopCountsShape(LanguagesOf(repos), 6);
    TopCountsSum(LanguagesOf(repos), 6);
    LanguagesOfLength(repos);
    forall i | 0 <= i < |top|
      ensures top[i].count == ReposIn(repos, top[i].key)
    {
      CountIsReposIn(repos, top[i].key);
    }
  }

  // ---------------------------------------------------------------------------
  // generateAISummary

  datatype GitHubUser = GitHubUser(login: string, name: Option<string>, publicRepos: int, followers: int)

  /** The optional parts of the summary, in the order they are appended. */
  datatype Clause =
    | Language(language: string)
    | RepoCount(repos: int)
    | StarTotal(stars: int)
    | Community(followers: int)
    | Versatility

  const VariousLanguages: string := "various languages"

  /** A decimal rendering of a whole number, with a sign for negative ones. */
  function IntToString(n: int): string
  {
    if n < 0 then "-" + NatToString(-n) else NatToString(n)
  }

  function ClauseText(c: Clause): string
  {
    match c
    case Language(l) => " primarily working with " + l
    case RepoCount(n) => " with " + IntToString(n) + " public repositories"
    case StarTotal(n) => " and " + IntToString(n) + " total stars across their projects"
    case Community(n) => ". They have built a strong community with " + IntToString(n) + " followers"
    case Versatility => " and demonstrate versatility across multiple programming languages"
  }

  function Texts(cs: seq<Clause>): string
  {
    if cs == [] then "" else Texts(cs[..|cs| - 1]) + ClauseText(cs[|cs| - 1])
  }

  lemma TextsSnoc(cs: seq<Clause>, c: Clause)
    ensures Texts(cs + [c]) == Texts(cs) + ClauseText(c)
  {
    assert (cs + [c])[..|cs + [c]| - 1] == cs;
  }

  lemma ConcatAssoc(a: string, b: string, c: string)
    ensures (a + b) + c == a + (b + c)
  {
  }

  /** `topLanguages[0]?.language || 'various languages'`. */
  function PrimaryLanguageOf(top: seq<Entry<string>>): string
  {
    if top != [] && top[0].key != "" then top[0].key else VariousLanguages
  }

  function Head(user: GitHubUser): string
  {
    OrElse(user.name, user.login) + " is a developer"
  }

  function Opt(b: bool, c: Clause): seq<Clause>
  {
    if b then [c] else []
  }

  /** The clauses the summary includes, given the language ranking and the star total. */
  function ClausesFrom(user: GitHubUser, top: seq<Entry<string>>, stars: int): seq<Clause>
  {
    var primary := PrimaryLanguageOf(top);
    Opt(primary != VariousLanguages, Language(primary))
    + Opt(user.publicRepos > 10, RepoCount(user.publicRepos))
    + Opt(stars > 50, StarTotal(stars))
    + Opt(user.followers > 100, Community(user.followers))
    + Opt(|top| > 3, Versatility)
  }

  function ClausesOf(user: GitHubUser, repos: seq<UserRepo>): seq<Clause>
  {
    ClausesFrom(user, TopCountsOf(LanguagesOf(repos), 6), SumBy(repos, Stars))
  }

  function SummaryOf(user: GitHubUser, repos: seq<UserRepo>): string
  {
    Head(user) + Texts(ClausesOf(user, repos)) + "."
  }

  /** `if (test) summary += text`: one optional clause appended to the text built so far. */
  method AppendIf(summary: string, ghost head: string, ghost cs: seq<Clause>, b: bool, c: Clause)
    returns (s: string, ghost cs': seq<Clause>)
    requires summary == head + Texts(cs)
    ensures cs' == cs + Opt(b, c)
    ensures s == head + Texts(cs')
  {
    cs' := cs + Opt(b, c);
    if b {
      var t := ClauseText(c);
      assert cs' == cs + [c];
      TextsSnoc(cs, c);
      s := summary + t;
      ConcatAssoc(head, Texts(cs), t);
    } else {
      assert cs' == cs;
      s := summary;
    }
  }

  /** The summary built by successive appends. */
  method GenerateAISummary(user: GitHubUser, repos: seq<UserRepo>) returns (summary: string)
    ensures summary == SummaryOf(user, repos)
  {
    var top := GetTopLanguages(repos);
    var totalStars := SumBy(repos, Stars);
    var primary := PrimaryLanguageOf(top);
    var head := Head(user);
    ghost var cs: seq<Clause> := [];
    assert head + Texts(cs) == head;
    summary, cs := AppendIf(head, head, cs, primary != VariousLanguages, Language(primary));
    summary, cs := AppendIf(summary, head, cs, user.publicRepos > 10, RepoCount(user.publicRepos));
    summary, cs := AppendIf(summary, head, cs, totalStars > 50, StarTotal(totalStars));
    summary, cs := AppendIf(summary, head, cs, user.followers > 100, Community(user.followers));
    summary, cs := AppendIf(summary, head, cs, |top| > 3, Versatility);
    assert [] + Opt(primary != VariousLanguages, Language(primary)) == Opt(primary != VariousLanguages, Language(primary));
    assert cs == ClausesFrom(user, top, totalStars);
    summary := summary + ".";
  }

  /** Where each kind of clause sits in the sentence. */
  function Rank(c: Clause): nat
  {
    match c
    case Language(_) => 0
    case RepoCount(_) => 1
    case StarTotal(_) => 2
    case Community(_) => 3
    case Versatility => 4
  }

  /** Each clause is present exactly when its condition holds and carries the figure it
      reports. */
  lemma ClausesPresence(user: GitHubUser, top: seq<Entry<string>>, stars: int)
    ensures var cs := ClausesFrom(user, top, stars);
      && (Language(PrimaryLanguageOf(top)) in cs <==> top != [] && top[0].key != "" && top[0].key != VariousLanguages)
      && (RepoCount(user.publicRepos) in cs <==> user.publicRepos > 10)
      && (StarTotal(stars) in cs <==> stars > 50)
      && (Community(user.followers) in cs <==> user.followers > 100)
      && (Versatility in cs <==> |top| > 3)
      && (forall c :: c in cs ==> c in [Language(PrimaryLanguageOf(top)), RepoCount(user.publicRepos),
                                        StarTotal(stars), Community(user.followers), Versatility])
  {
    var p := PrimaryLanguageOf(top);
    OptsPresence(p, p != VariousLanguages, user.publicRepos, user.publicRepos > 10, stars, stars > 50,
                 user.followers, user.followers > 100, |top| > 3);
  }

  /** The five optional clauses, each included by its own test. */
  function Opts(p: string, bl: bool, r: int, br: bool, st: int, bs: bool, f: int, bf: bool, bv: bool): seq<Clause>
  {
    Opt(bl, Language(p)) + Opt(br, RepoCount(r)) + Opt(bs, StarTotal(st)) + Opt(bf, Community(f)) + Opt(bv, Versatility)
  }

  /** A clause is among the optional clauses exactly when its test passed. */
  lemma OptsPresence(p: string, bl: bool, r: int, br: bool, st: int, bs: bool, f: int, bf: bool, bv: bool)
    ensures var cs := Opts(p, bl, r, br, st, bs, f, bf, bv);
      && (Language(p) in cs <==> bl) && (RepoCount(r) in cs <==> br) && (StarTotal(st) in cs <==> bs)
      && (Community(f) in cs <==> bf) && (Versatility in cs <==> bv)
      && (forall c :: c in cs ==> c in [Language(p), RepoCount(r), StarTotal(st), Community(f), Versatility])
  {
    OptsMembers(p, bl, r, br, st, bs, f, bf, bv);
  }

  lemma OptsMembers(p: string, bl: bool, r: int, br: bool, st: int, bs: bool, f: int, bf: bool, bv: bool)
    ensures forall x :: x in Opts(p, bl, r, br, st, bs, f, bf, bv) <==>
      || (bl && x == Language(p)) || (br && x == RepoCount(r)) || (bs && x == StarTotal(st))
      || (bf && x == Community(f)) || (bv && x == Versatility)
  {
    var cs := Opts(p, bl, r, br, st, bs, f, bf, bv);
    forall x
      ensures x in cs <==> || (bl && x == Language(p)) || (br && x == RepoCount(r)) || (bs && x == StarTotal(st))
                           || (bf && x == Community(f)) || (bv && x == Versatility)
    {
      assert x in cs <==>
        || x in Opt(bl, Language(p)) || x in Opt(br, RepoCount(r)) || x in Opt(bs, StarTotal(st))
        || x in Opt(bf, Community(f)) || x in Opt(bv, Versatility);
    }
  }

  /** The clauses come in the order they are appended. */
  lemma ClausesOrder(user: GitHubUser, top: seq<Entry<string>>, stars: int)
    ensures var cs := ClausesFrom(user, top, stars);
      forall i, j :: 0 <= i < j < |cs| ==> Rank(cs[i]) < Rank(cs[j])
  {
    var p := PrimaryLanguageOf(top);
    assert ClausesFrom(user, top, stars) == Opts(p, p != VariousLanguages, user.publicRepos, user.publicRepos > 10,
                                                 stars, stars > 50, user.followers, user.followers > 100, |top| > 3);
    OptsOrder(p, p != VariousLanguages, user.publicRepos, user.publicRepos > 10, stars, stars > 50,
              user.followers, user.followers > 100, |top| > 3);
  }

  lemma OptsOrder(p: string, bl: bool, r: int, br: bool, st: int, bs: bool, f: int, bf: bool, bv: bool)
    ensures var cs := Opts(p, bl, r, br, st, bs, f, bf, bv);
      forall i, j :: 0 <= i < j < |cs| ==> Rank(cs[i]) < Rank(cs[j])
  {
    RanksIncreaseAll(Opt(bl, Language(p)), Opt(br, RepoCount(r)), Opt(bs, StarTotal(st)),
                     Opt(bf, Community(f)), Opt(bv, Versatility));
  }

  lemma RanksIncreaseAll(a: seq<Clause>, b: seq<Clause>, c: seq<Clause>, d: seq<Clause>, e: seq<Clause>)
    requires |a| <= 1 && |b| <= 1 && |c| <= 1 && |d| <= 1 && |e| <= 1
    requires forall x :: x in a ==> Rank(x) == 0
    requires forall x :: x in b ==> Rank(x) == 1
    requires forall x :: x in c ==> Rank(x) == 2
    requires forall x :: x in d ==> Rank(x) == 3
    requires forall x :: x in e ==> Rank(x) == 4
    ensures var cs := a + b + c + d + e;
      forall i, j :: 0 <= i < j < |cs| ==> Rank(cs[i]) < Rank(cs[j])
  {
    forall i, j | 0 <= i < j < |a + b + c + d + e|
      ensures Rank((a + b + c + d + e)[i]) < Rank((a + b + c + d + e)[j])
    {
      RanksIncrease(a, b, c, d, e, i, j);
    }
  }

  lemma RanksIncrease(a: seq<Clause>, b: seq<Clause>, c: seq<Clause>, d: seq<Clause>, e: seq<Clause>, i: int, j: int)
    requires |a| <= 1 && |b| <= 1 && |c| <= 1 && |d| <= 1 && |e| <= 1
    requires forall x :: x in a ==> Rank(x) == 0
    requires forall x :: x in b ==> Rank(x) == 1
    requires forall x :: x in c ==> Rank(x) == 2
    requires forall x :: x in d ==> Rank(x) == 3
    requires forall x :: x in e ==> Rank(x) == 4
    requires 0 <= i < j < |a + b + c + d + e|
    ensures Rank((a + b + c + d + e)[i]) < Rank((a + b + c + d + e)[j])
  {
  }

  /** The summary opens with the name (or the login) and "is a developer" and ends with a
      period; each clause appears exactly when its condition holds, in a fixed order. */
  lemma SummarySpec(user: GitHubUser, repos: seq<UserRepo>)
    ensures var s := SummaryOf(user, repos);
      |s| > |Head(user)| && s[..|Head(user)|] == Head(user) && s[|s| - 1] == '.'
    ensures var cs := ClausesOf(user, repos);
      var top := TopCountsOf(LanguagesOf(repos), 6);
      && (Language(PrimaryLanguageOf(top)) in cs <==> top != [] && top[0].key != "" && top[0].key != VariousLanguages)
      && (RepoCount(user.publicRepos) in cs <==> user.publicRepos > 10)
      && (StarTotal(SumBy(repos, Stars)) in cs <==> SumBy(repos, Stars) > 50)
      && (Community(user.followers) in cs <==> user.followers > 100)
      && (Versatility in cs <==> |top| > 3)
      && (forall i, j :: 0 <= i < j < |cs| ==> Rank(cs[i]) < Rank(cs[j]))
  {
    SummaryFrame(user, repos);
    ClausesPresence(user, TopCountsOf(LanguagesOf(repos), 6), SumBy(repos, Stars));
    ClausesOrder(user, TopCountsOf(LanguagesOf(repos), 6), SumBy(repos, Stars));
  }

  lemma SummaryFrame(user: GitHubUser, repos: seq<UserRepo>)
    ensures var s := SummaryOf(user, repos);
      |s| > |Head(user)| && s[..|Head(user)|] == Head(user) && s[|s| - 1] == '.'
  {
    SentenceFrame(Head(user), Texts(ClausesOf(user, repos)));
  }

  lemma SentenceFrame(head: string, t: string)
    ensures var s := head + t + ".";
      |s| > |head| && s[..|head|] == head && s[|s| - 1] == '.'
  {
    assert head + t + "." == head + (t + ".");
  }

  /** A user without repositories gets no language, star or versatility clause. */
  lemma EmptyReposSummary(user: GitHubUser)
    ensures forall c :: c in ClausesOf(user, []) ==> c.RepoCount? || c.Community?
  {
    var top := TopCountsOf(LanguagesOf([]), 6);
    assert top == [] by {
      assert LanguagesOf([]) == [];
      TopCountsShape(LanguagesOf([]), 6);
    }
    OptsMembers(VariousLanguages, false, user.publicRepos, user.publicRepos > 10, 0, false,
                user.followers, user.followers > 100, false);
    assert ClausesOf(user, []) == Opts(VariousLanguages, false, user.publicRepos, user.publicRepos > 10, 0, false,
                                       user.followers, user.followers > 100, false);
  }

  // ---------------------------------------------------------------------------
  // Request errors

  datatype Request = UserProfile | UserRepositories

  const RateLimited: string := "API rate limit exceeded." + " Please try again later."

  /** The message thrown when a request for `username` fails with `status`. */
  function FetchErrorMessage(request: Request, username: string, status: Option<int>): string
  {
    if status == Some(404) then
      match request
      case UserProfile => "User \"" + username + "\" not found"
      case UserRepositories => "Repositories for \"" + username + "\" not found"
    else if status == Some(403) then RateLimited
    else
      match request
      case UserProfile => "Failed to fetch user data. Please try again."
      case UserRepositories => "Failed to fetch repositories. Please try again."
  }

  lemma OccursInMiddle(a: string, k: string, b: string)
    ensures OccursAt(a + k + b, k, |a|)
  {
    assert (a + k + b)[|a|..|a| + |k|] == k;
  }

  /** A 404 names the user, a 403 is the rate-limit message, and any other failure,
      including one without a response, gets the request's generic message. */
  lemma FetchErrorCases(request: Request, username: string, status: Option<int>)
    ensures var m := FetchErrorMessage(request, username, status);
      && (status == Some(404) ==> Contains(m, username))
      && (m == RateLimited <==> status == Some(403))
      && (status != Some(404) && status != Some(403) ==>
            m == (if request.UserProfile? then "Failed to fetch user data. Please try again."
                  else "Failed to fetch repositories. Please try again."))
  {
    var m := FetchErrorMessage(request, username, status);
    if status == Some(404) {
      match request
      case UserProfile =>
        OccursInMiddle("User \"", username, "\" not found");
        assert m != RateLimited by { UserMessageDiffers(username); }
      case UserRepositories =>
        OccursInMiddle("Repositories for \"", username, "\" not found");
        assert m != RateLimited by { ReposMessageDiffers(username); }
    }
  }

  lemma UserMessageDiffers(username: string)
    ensures "User \"" + username + "\" not found" != RateLimited
  {
    assert ("User \"" + username + "\" not found")[0] == 'U';
    assert RateLimited[0] == 'A';
  }

  lemma ReposMessageDiffers(username: string)
    ensures "Repositories for \"" + username + "\" not found" != RateLimited
  {
    assert ("Repositories for \"" + username + "\" not found")[0] == 'R';
    assert RateLimited[0] == 'A';
  }
}
