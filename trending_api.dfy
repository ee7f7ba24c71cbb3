/** The helpers of src/services/trendingApi.js that turn trending-API and GitHub-API
    records into labels and rankings: the period mapping, the second categoriser, the
    trending-repository records, developer badges, maintainer expertise and the ranking
    of top maintainers. */
module TrendingApi {
  import opened Common
  import opened Tally
  import opened Categories
  import RepositoryUrl

  // ---------------------------------------------------------------------------
  // Periods

  /** `mapping[period] || 'weekly'`: the trending API has no yearly period. */
  function MapTimePeriod(period: string): (since: string)
    ensures since == "daily" <==> period == "day"
    ensures since == "monthly" <==> period == "month" || period == "year"
    ensures since == "weekly" <==> period != "day" && period != "month" && period != "year"
  {
    if period == "day" then "daily"
    else if period == "week" then "weekly"
    else if period == "month" || period == "year" then "monthly"
    else "weekly"
  }

  // ---------------------------------------------------------------------------
  // The trending categoriser

  const FrontendFramework := Category("Frontend Framework", ["react", "vue", "angular", "frontend", "ui", "component"])
  const BackendFramework := Category("Backend Framework", ["express", "django", "flask", "spring", "backend", "server", "api"])
  const MachineLearning := Category("Machine Learning", ["ml", "ai", "tensorflow", "pytorch", "machine learning", "neural", "deep learning"])
  const DevOps := Category("DevOps", ["docker", "kubernetes", "ci/cd", "deployment", "infrastructure", "devops"])
  const Mobile := Category("Mobile", ["android", "ios", "mobile", "react native", "flutter", "swift"])
  const Database := Category("Database", ["database", "sql", "mongodb", "redis", "postgresql", "mysql"])
  const Security := Category("Security", ["security", "auth", "encryption", "vulnerability", "penetration"])
  const GameDevelopment := Category("Game Development", ["game", "unity", "unreal", "gaming", "engine"])
  const Blockchain := Category("Blockchain", ["blockchain", "crypto", "bitcoin", "ethereum", "web3"])
  const DataScience := Category("Data Science", ["data", "analytics", "visualization", "pandas", "jupyter"])
  const ToolsUtilities := Category("Tools & Utilities", ["tool", "utility", "cli", "automation", "productivity"])
  const Resources := Category("Resources", ["awesome", "list", "collection", "resources", "tutorial"])

  /** The categories in the order they are tried. */
  const TrendingTable: seq<Category> := [
    FrontendFramework, BackendFramework, MachineLearning, DevOps, Mobile, Database,
    Security, GameDevelopment, Blockchain, DataScience, ToolsUtilities, Resources
  ]

  /** `topics.some(topic => topic.includes(keyword))`: topics are matched by substring
      and are not lower-cased. */
  predicate TopicHit(topics: seq<string>, k: string)
  {
    exists t :: t in topics && Contains(t, k)
  }

  /** The test each keyword is put to. There is no language fallback in this categoriser. */
  function TrendingHit(name: string, description: Option<string>, topics: seq<string>): string -> bool
  {
    var d := Lower(OrElse(description, ""));
    var n := Lower(name);
    k => Contains(d, k) || Contains(n, k) || TopicHit(topics, k)
  }

  function TrendingCategoryOf(name: string, description: Option<string>, topics: seq<string>): string
  {
    match FirstCategory(TrendingTable, TrendingHit(name, description, topics), 0)
    case Some(c) => TrendingTable[c].name
    case None => "General"
  }

  /** The first category, in table order, with a matching keyword is the answer, and
      "General" is the answer when no keyword matches. */
  lemma TrendingCategoryCases(name: string, description: Option<string>, topics: seq<string>, c: nat)
    ensures c < |TrendingTable| && AnyHit(TrendingTable[c].keywords, TrendingHit(name, description, topics))
            && (forall d :: 0 <= d < c ==> !AnyHit(TrendingTable[d].keywords, TrendingHit(name, description, topics)))
            ==> TrendingCategoryOf(name, description, topics) == TrendingTable[c].name
    ensures (forall d :: 0 <= d < |TrendingTable| ==> !AnyHit(TrendingTable[d].keywords, TrendingHit(name, description, topics)))
            ==> TrendingCategoryOf(name, description, topics) == "General"
  {
    var hit := TrendingHit(name, description, topics);
    if c < |TrendingTable| && AnyHit(TrendingTable[c].keywords, hit)
       && (forall d :: 0 <= d < c ==> !AnyHit(TrendingTable[d].keywords, hit)) {
      FirstCategoryIs(TrendingTable, hit, c);
    }
  }

  /** A topic that contains a keyword, such as "reactjs" for "react", is a hit, where
      the categoriser of the repository analytics asks for the keyword itself. */
  lemma TopicSubstringHits(name: string, description: Option<string>, topics: seq<string>, t: string, k: string, i: nat)
    requires t in topics && OccursAt(t, k, i)
    ensures TrendingHit(name, description, topics)(k)
  {
  }

  lemma FrontendFirst()
    ensures TrendingTable[0] == FrontendFramework && FrontendFramework.name == "Frontend Framework"
    ensures "react" in FrontendFramework.keywords
  {
    assert FrontendFramework.keywords[0] == "react";
  }

  /** A repository tagged "reactjs" is a frontend framework, whatever its name. */
  lemma ReactTopicIsFrontend(name: string, description: Option<string>, topics: seq<string>)
    requires "reactjs" in topics
    ensures TrendingCategoryOf(name, description, topics) == "Frontend Framework"
  {
    assert OccursAt("reactjs", "react", 0);
    TopicSubstringHits(name, description, topics, "reactjs", "react", 0);
    FrontendFirst();
    FirstCategoryIs(TrendingTable, TrendingHit(name, description, topics), 0);
  }

  // ---------------------------------------------------------------------------
  // Trending repositories

  /** One repository as the trending API returns it. The API sends no topics, which the
      categoriser then reads as the empty list. */
  datatype TrendingRepo = TrendingRepo(author: string, name: string, description: Option<string>,
                                       language: Option<string>, stars: nat, forks: nat,
                                       currentPeriodStars: nat, topics: seq<string>)

  datatype TrendingRecord = TrendingRecord(id: string, name: string, fullName: string, owner: string,
                                           description: Option<string>, stars: nat, forks: nat,
                                           language: Option<string>, trend: string, category: string)

  /** The object built for one trending repository. */
  function RecordOf(r: TrendingRepo): TrendingRecord
  {
    var id := r.author + "/" + r.name;
    TrendingRecord(id, r.name, id, r.author, r.description, r.stars, r.forks, r.language,
                   "+" + NatToString(r.currentPeriodStars), TrendingCategoryOf(r.name, r.description, r.topics))
  }

  /** `response.data.slice(0, limit).map(...)`. */
  function TrendingRecords(data: seq<TrendingRepo>, limit: int): (rs: seq<TrendingRecord>)
  {
    var kept := Prefix(data, limit);
    seq(|kept|, i requires 0 <= i < |kept| => RecordOf(kept[i]))
  }

  /** `slice(0, limit)`: as many records as the slice keeps, min(limit, n) for a
      non-negative limit, none for a limit of 0. */
  lemma TrendingRecordsLength(data: seq<TrendingRepo>, limit: int)
    ensures |TrendingRecords(data, limit)| == SliceEnd(|data|, limit)
    ensures limit >= 0 ==> |TrendingRecords(data, limit)| == Min(limit, |data|)
    ensures data == [] || limit == 0 ==> TrendingRecords(data, limit) == []
  {
  }

  /** The records keep the order of the response, at most `limit` of them; each `id`
      reads back through parseRepositoryUrl as its author and name, and each trend is a
      plus sign followed by the decimal star count of the period. */
  lemma TrendingRecordsSpec(data: seq<TrendingRepo>, limit: int, i: nat)
    requires i < |TrendingRecords(data, limit)|
    ensures var r := TrendingRecords(data, limit)[i];
      && r.id == data[i].author + "/" + data[i].name
      && r.trend[0] == '+' && DecimalValue(r.trend[1..]) == data[i].currentPeriodStars
      && (data[i].author != "" && '/' !in data[i].author && data[i].name != "" && '/' !in data[i].name
          ==> RepositoryUrl.ParseOf(r.id) == Ok(RepositoryUrl.Repository(data[i].author, RepositoryUrl.StripGit(data[i].name))))
  {
    var r := TrendingRecords(data, limit)[i];
    assert r == RecordOf(data[i]);
    assert r.trend[1..] == NatToString(data[i].currentPeriodStars);
    DecimalRoundTrip(data[i].currentPeriodStars);
    if data[i].author != "" && '/' !in data[i].author && data[i].name != "" && '/' !in data[i].name {
      RepositoryUrl.ParseOwnerRepo(data[i].author, data[i].name);
    }
  }

  // ---------------------------------------------------------------------------
  // Badges

  /** A repository of a user as the GitHub API lists it. */
  datatype UserRepo = UserRepo(name: string, description: Option<string>, language: Option<string>,
                               stars: nat, forks: nat)

  function Stars(r: UserRepo): int { r.stars }

  function Forks(r: UserRepo): int { r.forks }

  /** The rules of generateBadge, first match wins. */
  function BadgeOf(totalStars: int, repoCount: int, followers: int): string
  {
    if totalStars > 50000 then "Legendary"
    else if totalStars > 20000 then "Influential"
    else if totalStars > 10000 then "Popular"
    else if repoCount > 100 then "Prolific"
    else if followers > 10000 then "Well-Known"
    else if totalStars > 1000 then "Rising Star"
    else "Developer"
  }

  /** generateBadge: the stars are summed over the listed repositories. */
  function GenerateBadge(followers: int, repos: seq<UserRepo>): string
  {
    BadgeOf(SumBy(repos, Stars), |repos|, followers)
  }

  /** The rank of a badge in the order the rules are tried, "Developer" lowest. */
  function BadgeRank(badge: string): nat
  {
    if badge == "Legendary" then 6
    else if badge == "Influential" then 5
    else if badge == "Popular" then 4
    else if badge == "Prolific" then 3
    else if badge == "Well-Known" then 2
    else if badge == "Rising Star" then 1
    else 0
  }

  /** Each badge is given exactly when its rule holds and no earlier rule does. */
  lemma BadgeCases(s: int, n: int, f: int)
    ensures BadgeOf(s, n, f) == "Legendary" <==> s > 50000
    ensures BadgeOf(s, n, f) == "Influential" <==> 20000 < s <= 50000
    ensures BadgeOf(s, n, f) == "Popular" <==> 10000 < s <= 20000
    ensures BadgeOf(s, n, f) == "Prolific" <==> s <= 10000 && n > 100
    ensures BadgeOf(s, n, f) == "Well-Known" <==> s <= 10000 && n <= 100 && f > 10000
    ensures BadgeOf(s, n, f) == "Rising Star" <==> 1000 < s <= 10000 && n <= 100 && f <= 10000
    ensures BadgeOf(s, n, f) == "Developer" <==> s <= 1000 && n <= 100 && f <= 10000
  {
  }

  /** More stars, more repositories or more followers never earn a lower badge. */
  lemma BadgeMonotone(s1: int, n1: int, f1: int, s2: int, n2: int, f2: int)
    requires s1 <= s2 && n1 <= n2 && f1 <= f2
    ensures BadgeRank(BadgeOf(s1, n1, f1)) <= BadgeRank(BadgeOf(s2, n2, f2))
  {
  }

  // ---------------------------------------------------------------------------
  // Expertise

  /** `repos.filter(repo => repo.language).map(repo => repo.language)`. */
  function LanguagesOf(repos: seq<UserRepo>): (ls: seq<string>)
    ensures forall l :: l in ls <==> exists r :: r in repos && Truthy(r.language) && r.language.value == l
  {
    if repos == [] then []
    else
      var last := repos[|repos| - 1];
      assert repos == repos[..|repos| - 1] + [last];
      LanguagesOf(repos[..|repos| - 1]) + (if Truthy(last.language) then [last.language.value] else [])
  }

  /** Languages are listed once per repository that has one. */
  lemma {:induction false} LanguagesOfLength(repos: seq<UserRepo>)
    ensures |LanguagesOf(repos)| <= |repos|
  {
    if repos != [] {
      LanguagesOfLength(repos[..|repos| - 1]);
    }
  }

  /** `${repo.name} ${repo.description || ''}`. */
  function RepoText(r: UserRepo): string
  {
    r.name + " " + OrElse(r.description, "")
  }

  /** The texts joined with single spaces. */
  function JoinedTexts(repos: seq<UserRepo>): string
  {
    if repos == [] then ""
    else if |repos| == 1 then RepoText(repos[0])
    else JoinedTexts(repos[..|repos| - 1]) + " " + RepoText(repos[|repos| - 1])
  }

  /** Lower-casing distributes over text joined by a space. */
  lemma LowerJoin(a: string, b: string)
    ensures Lower(a + " " + b) == Lower(a) + " " + Lower(b)
  {
    LowerConcat(a + " ", b);
    LowerConcat(a, " ");
  }

  /** A keyword without spaces occurs in the joined, lower-cased text exactly when it
      occurs in the lower-cased name or description of one of the repositories. */
  lemma {:induction false} JoinedTextsContain(repos: seq<UserRepo>, k: string)
    requires k != [] && ' ' !in k
    ensures Contains(Lower(JoinedTexts(repos)), k)
        <==> exists r :: r in repos && (Contains(Lower(r.name), k) || Contains(Lower(OrElse(r.description, "")), k))
  {
    if repos == [] {
      assert !OccursAt(Lower(JoinedTexts(repos)), k, 0);
    } else {
      var last := repos[|repos| - 1];
      LowerJoin(last.name, OrElse(last.description, ""));
      ContainsJoined(Lower(last.name), Lower(OrElse(last.description, "")), k);
      if |repos| > 1 {
        var init := repos[..|repos| - 1];
        assert repos == init + [last];
        LowerJoin(JoinedTexts(init), RepoText(last));
        ContainsJoined(Lower(JoinedTexts(init)), Lower(RepoText(last)), k);
        JoinedTextsContain(init, k);
      } else {
        assert repos == [last];
      }
    }
  }

  /** `if (test) domains.push(domain)`. */
  function Push(domains: seq<string>, test: bool, domain: string): seq<string>
  {
    if test then domains + [domain] else domains
  }

  /** The domain labels, in their fixed order, whose tests hold. */
  function Domains(web: bool, backend: bool, mobile: bool, data: bool, devops: bool): seq<string>
  {
    Push(Push(Push(Push(Push([], web, "Web Development"), backend, "Backend"), mobile, "Mobile"),
              data, "Data Science"), devops, "DevOps")
  }

  /** The domain labels whose words occur in the text. */
  function DomainsOf(texts: string): seq<string>
  {
    Domains(Contains(texts, "web") || Contains(texts, "frontend"),
            Contains(texts, "api") || Contains(texts, "backend"),
            Contains(texts, "mobile") || Contains(texts, "app"),
            Contains(texts, "data") || Contains(texts, "ml"),
            Contains(texts, "devops") || Contains(texts, "docker"))
  }

  /** extractExpertise: the three most used languages, then the domain labels, at most
      four items in all. */
  function ExpertiseOf(repos: seq<UserRepo>): seq<string>
  {
    Prefix(Keys(TopCountsOf(LanguagesOf(repos), 3)) + DomainsOf(Lower(JoinedTexts(repos))), 4)
  }

  /** The counting loop, the domain pushes and the final cut. */
  method ExtractExpertise(repos: seq<UserRepo>) returns (expertise: seq<string>)
    ensures expertise == ExpertiseOf(repos)
  {
    var languages := LanguagesOf(repos);
    var top := TopCounts(languages, 3);
    var topLanguages := Keys(top);
    var texts := Lower(JoinedTexts(repos));
    var web := Contains(texts, "web") || Contains(texts, "frontend");
    var backend := Contains(texts, "api") || Contains(texts, "backend");
    var mobile := Contains(texts, "mobile") || Contains(texts, "app");
    var data := Contains(texts, "data") || Contains(texts, "ml");
    var devops := Contains(texts, "devops") || Contains(texts, "docker");
    var domains: seq<string> := [];
    if web {
      domains := domains + ["Web Development"];
    }
    assert domains == Push([], web, "Web Development");
    ghost var d1 := domains;
    if backend {
      domains := domains + ["Backend"];
    }
    assert domains == Push(d1, backend, "Backend");
    ghost var d2 := domains;
    if mobile {
      domains := domains + ["Mobile"];
    }
    assert domains == Push(d2, mobile, "Mobile");
    ghost var d3 := domains;
    if data {
      domains := domains + ["Data Science"];
    }
    assert domains == Push(d3, data, "Data Science");
    ghost var d4 := domains;
    if devops {
      domains := domains + ["DevOps"];
    }
    assert domains == Push(d4, devops, "DevOps");
    expertise := Prefix(topLanguages + domains, 4);
  }

  /** Exactly min(4, |top| + |domains|) items: first the up to three languages of the
      repositories, most used first, each a language of some repository; then the first
      domain labels, in their fixed order. */
  lemma ExpertiseSpec(repos: seq<UserRepo>)
    ensures var e := ExpertiseOf(repos);
      var top := TopCountsOf(LanguagesOf(repos), 3);
      var domains := DomainsOf(Lower(JoinedTexts(repos)));
      && |e| == (if |top| + |domains| < 4 then |top| + |domains| else 4)
      && |top| <= 3 && SortedDesc(top, ByCount)
      && (forall i :: 0 <= i < |e| && i < |top| ==> e[i] == top[i].key)
      && (forall i :: 0 <= i < |top| ==> exists r :: r in repos && r.language == Some(top[i].key))
      && |top| <= |e| && e[|top|..] == domains[..|e| - |top|]
  {
    ExpertiseLanguages(repos);
    ExpertiseParts(repos);
  }

  /** ExpertiseLayout for the repositories' own top languages and domain labels. */
  lemma ExpertiseParts(repos: seq<UserRepo>)
    ensures var e := ExpertiseOf(repos);
      var top := TopCountsOf(LanguagesOf(repos), 3);
      var domains := DomainsOf(Lower(JoinedTexts(repos)));
      && |e| == (if |top| + |domains| < 4 then |top| + |domains| else 4)
      && (forall i :: 0 <= i < |e| && i < |top| ==> e[i] == top[i].key)
      && |top| <= |e| && e[|top|..] == domains[..|e| - |top|]
  {
    ExpertiseLanguages(repos);
    ExpertiseLayout(ExpertiseOf(repos), TopCountsOf(LanguagesOf(repos), 3), DomainsOf(Lower(JoinedTexts(repos))));
  }

  /** The cut at four of the top languages followed by the domain labels. */
  lemma ExpertiseLayout(e: seq<string>, top: seq<Entry<string>>, domains: seq<string>)
    requires |top| <= 3 && e == Prefix(Keys(top) + domains, 4)
    ensures |e| == (if |top| + |domains| < 4 then |top| + |domains| else 4)
    ensures forall i :: 0 <= i < |e| && i < |top| ==> e[i] == top[i].key
    ensures |top| <= |e| && e[|top|..] == domains[..|e| - |top|]
  {
    PrefixLayout(Keys(top), domains, 4);
  }

  /** The three most used languages, each the language of some repository. */
  lemma ExpertiseLanguages(repos: seq<UserRepo>)
    ensures var top := TopCountsOf(LanguagesOf(repos), 3);
      && |top| <= 3 && SortedDesc(top, ByCount)
      && (forall i :: 0 <= i < |top| ==> exists r :: r in repos && r.language == Some(top[i].key))
  {
    TopCountsShape(LanguagesOf(repos), 3);
  }

  /** The first `n` items of `a + b`, for `n >= 0`: min(n, |a| + |b|) of them, those of
      `a` first, then the first items of `b`. */
  lemma PrefixLayout<T>(a: seq<T>, b: seq<T>, n: int)
    requires n >= 0
    ensures var p := Prefix(a + b, n);
      && |p| == Min(n, |a| + |b|)
      && (forall i :: 0 <= i < |p| && i < |a| ==> p[i] == a[i])
      && (|a| <= |p| ==> p[|a|..] == b[..|p| - |a|])
  {
    var p := Prefix(a + b, n);
    if |a| <= |p| {
      assert p[|a|..] == b[..|p| - |a|] by {
        forall i | 0 <= i < |p| - |a|
          ensures p[|a|..][i] == b[..|p| - |a|][i]
        {
          assert p[|a| + i] == (a + b)[|a| + i];
        }
      }
    }
  }

  /** The five domain labels in the order they are tested. */
  const DomainTable: seq<string> := ["Web Development", "Backend", "Mobile", "Data Science", "DevOps"]

  /** After the tests of the first `j` labels: label `k` of `d` is the table's `idx[k]`,
      the indices rise, and an index below `j` is listed exactly when its test holds. */
  predicate TableOrderUpTo(tests: seq<bool>, j: nat, d: seq<string>, idx: seq<nat>)
    requires j <= |tests| && j <= |DomainTable|
  {
    && |idx| == |d|
    && (forall k :: 0 <= k < |idx| ==> idx[k] < j && d[k] == DomainTable[idx[k]])
    && (forall k, l :: 0 <= k < l < |idx| ==> idx[k] < idx[l])
    && (forall i :: 0 <= i < j ==> (i in idx <==> tests[i]))
  }

  /** One `if (...) domains.push(...)` keeps the labels in table order. */
  lemma PushInTableOrder(tests: seq<bool>, j: nat, d: seq<string>, idx: seq<nat>) returns (idx': seq<nat>)
    requires j < |tests| && j < |DomainTable|
    requires TableOrderUpTo(tests, j, d, idx)
    ensures TableOrderUpTo(tests, j + 1, Push(d, tests[j], DomainTable[j]), idx')
  {
    idx' := if tests[j] then idx + [j] else idx;
    var d' := Push(d, tests[j], DomainTable[j]);
    forall i | 0 <= i < j + 1
      ensures i in idx' <==> tests[i]
    {
      if i < j {
        assert i in idx' <==> i in idx;
      } else if tests[j] {
        assert idx'[|idx|] == j;
      } else {
        assert j !in idx;
      }
    }
  }

  /** The five pushes of extractExpertise, one test each. */
  lemma DomainsPushes(web: bool, backend: bool, mobile: bool, data: bool, devops: bool)
    returns (idx: seq<nat>)
    ensures TableOrderUpTo([web, backend, mobile, data, devops], 5, Domains(web, backend, mobile, data, devops), idx)
  {
    var tests := [web, backend, mobile, data, devops];
    var i1 := PushInTableOrder(tests, 0, [], []);
    var d1 := Push([], tests[0], DomainTable[0]);
    var i2 := PushInTableOrder(tests, 1, d1, i1);
    var d2 := Push(d1, tests[1], DomainTable[1]);
    var i3 := PushInTableOrder(tests, 2, d2, i2);
    var d3 := Push(d2, tests[2], DomainTable[2]);
    var i4 := PushInTableOrder(tests, 3, d3, i3);
    var d4 := Push(d3, tests[3], DomainTable[3]);
    idx := PushInTableOrder(tests, 4, d4, i4);
    assert Push(d4, tests[4], DomainTable[4]) == Domains(web, backend, mobile, data, devops) by {
      assert tests[0] == web && tests[1] == backend && tests[2] == mobile && tests[3] == data && tests[4] == devops;
      assert DomainTable[0] == "Web Development" && DomainTable[1] == "Backend" && DomainTable[2] == "Mobile";
      assert DomainTable[3] == "Data Science" && DomainTable[4] == "DevOps";
    }
  }

  /** Once every label has been tested, the list holds exactly the labels whose tests
      hold, none twice. */
  lemma TableOrderComplete(tests: seq<bool>, d: seq<string>, idx: seq<nat>)
    requires |tests| == |DomainTable|
    requires TableOrderUpTo(tests, |DomainTable|, d, idx)
    ensures forall j :: 0 <= j < |DomainTable| ==> (DomainTable[j] in d <==> tests[j])
    ensures NoDuplicates(d)
  {
    forall j | 0 <= j < |DomainTable|
      ensures DomainTable[j] in d <==> tests[j]
    {
      if DomainTable[j] in d {
        var k :| 0 <= k < |d| && d[k] == DomainTable[j];
        assert DomainTable[idx[k]] == DomainTable[j];
        assert idx[k] == j;
      }
      if tests[j] {
        var k :| 0 <= k < |idx| && idx[k] == j;
        assert d[k] == DomainTable[j];
      }
    }
    forall k, l | 0 <= k < l < |d|
      ensures d[k] != d[l]
    {
      assert idx[k] < idx[l];
    }
  }

  /** The labels whose tests hold, in table order: label `k` is the table's `idx[k]`, the
      indices rise (so no label is listed twice), and each label is listed exactly when
      its test holds. */
  lemma DomainsInTableOrder(web: bool, backend: bool, mobile: bool, data: bool, devops: bool)
    returns (idx: seq<nat>)
    ensures var d := Domains(web, backend, mobile, data, devops);
      var tests := [web, backend, mobile, data, devops];
      && |idx| == |d|
      && (forall k :: 0 <= k < |idx| ==> idx[k] < |DomainTable| && d[k] == DomainTable[idx[k]])
      && (forall k, l :: 0 <= k < l < |idx| ==> idx[k] < idx[l])
      && (forall j :: 0 <= j < |DomainTable| ==> (DomainTable[j] in d <==> tests[j]))
      && NoDuplicates(d)
  {
    idx := DomainsPushes(web, backend, mobile, data, devops);
    TableOrderComplete([web, backend, mobile, data, devops], Domains(web, backend, mobile, data, devops), idx);
  }

  /** "Web Development" is among the domain labels exactly when some name or description
      mentions "web" or "frontend". */
  lemma WebDomainSpec(repos: seq<UserRepo>)
    ensures "Web Development" in DomainsOf(Lower(JoinedTexts(repos)))
        <==> exists r :: r in repos && (Contains(Lower(r.name), "web") || Contains(Lower(OrElse(r.description, "")), "web")
                                        || Contains(Lower(r.name), "frontend") || Contains(Lower(OrElse(r.description, "")), "frontend"))
  {
    JoinedTextsContain(repos, "web");
    JoinedTextsContain(repos, "frontend");
    var texts := Lower(JoinedTexts(repos));
    WebLabelOnlyFromWebTest(Contains(texts, "web") || Contains(texts, "frontend"),
      Contains(texts, "api") || Contains(texts, "backend"), Contains(texts, "mobile") || Contains(texts, "app"),
      Contains(texts, "data") || Contains(texts, "ml"), Contains(texts, "devops") || Contains(texts, "docker"));
  }

  lemma WebLabelOnlyFromWebTest(web: bool, backend: bool, mobile: bool, data: bool, devops: bool)
    ensures "Web Development" in Domains(web, backend, mobile, data, devops) <==> web
  {
    var d1 := Push([], web, "Web Development");
    assert "Web Development" in d1 <==> web;
    var d2 := Push(d1, backend, "Backend");
    assert "Web Development" in d2 <==> web;
    var d3 := Push(d2, mobile, "Mobile");
    assert "Web Development" in d3 <==> web;
    var d4 := Push(d3, data, "Data Science");
    assert "Web Development" in d4 <==> web;
  }

  // ---------------------------------------------------------------------------
  // Top maintainers

  datatype Maintainer = Maintainer(login: string, maintainedRepos: nat, totalStars: int, totalForks: int,
                                   topProject: string, expertise: seq<string>, recentActivity: nat)

  function ByStars(r: UserRepo): real { r.stars as real }

  function RepoCountAbove10(repos: seq<UserRepo>): (n: nat)
    ensures n <= |repos|
  {
    if repos == [] then 0
    else RepoCountAbove10(repos[..|repos| - 1]) + (if repos[|repos| - 1].stars > 10 then 1 else 0)
  }

  /** The record of one maintainer. Sorting the repositories by stars happens in place
      before extractExpertise reads them, so expertise sees them in that order. */
  function MaintainerOf(login: string, repos: seq<UserRepo>): Maintainer
  {
    var sorted := SortDesc(repos, ByStars);
    Maintainer(login, RepoCountAbove10(repos), SumBy(repos, Stars), SumBy(repos, Forks),
               if sorted != [] then OrElse(Some(sorted[0].name), "N/A") else "N/A",
               ExpertiseOf(sorted), |repos|)
  }

  /** The top project is a repository with the most stars, or "N/A" without repositories. */
  lemma TopProjectMostStarred(login: string, repos: seq<UserRepo>)
    requires forall r :: r in repos ==> r.name != ""
    ensures repos == [] ==> MaintainerOf(login, repos).topProject == "N/A"
    ensures repos != [] ==> exists r :: r in repos && r.name == MaintainerOf(login, repos).topProject
                                     && forall q :: q in repos ==> q.stars <= r.stars
  {
    if repos != [] {
      SortedHeadIsMax(repos, ByStars);
    }
  }

  /** `[...new Set(logins)].slice(0, limit)`. */
  function MaintainerLogins(owners: seq<string>, limit: int): seq<string>
  {
    Prefix(Distinct(owners), limit)
  }

  /** The lookups that succeeded, in login order; `lookup` stands for the two GitHub
      requests made for a login. */
  function Found(logins: seq<string>, lookup: string -> Option<seq<UserRepo>>): (ms: seq<Maintainer>)
    ensures |ms| <= |logins|
    ensures forall m :: m in ms ==> m.login in logins
  {
    if logins == [] then []
    else
      var login := logins[|logins| - 1];
      Found(logins[..|logins| - 1], lookup)
      + (match lookup(login) case Some(repos) => [MaintainerOf(login, repos)] case None => [])
  }

  function ByTotalStars(m: Maintainer): real { m.totalStars as real }

  /** fetchTopMaintainers after the requests: distinct owners, cut to `limit`, failed
      lookups dropped, sorted by total stars. */
  function TopMaintainersOf(owners: seq<string>, limit: int, lookup: string -> Option<seq<UserRepo>>): seq<Maintainer>
  {
    SortDesc(Found(MaintainerLogins(owners, limit), lookup), ByTotalStars)
  }

  lemma FoundLogins(logins: seq<string>, lookup: string -> Option<seq<UserRepo>>)
    requires NoDuplicates(logins)
    ensures NoDuplicates(LoginsOf(Found(logins, lookup)))
    ensures forall l :: l in logins && lookup(l).Some? ==> MaintainerOf(l, lookup(l).value) in Found(logins, lookup)
  {
    FoundDistinct(logins, lookup);
    FoundComplete(logins, lookup);
  }

  /** Distinct logins give maintainers with distinct logins. */
  lemma FoundDistinct(logins: seq<string>, lookup: string -> Option<seq<UserRepo>>)
    requires NoDuplicates(logins)
    ensures NoDuplicates(LoginsOf(Found(logins, lookup)))
  {
    FoundLoginsAre(logins, lookup);
    SucceededDistinct(logins, lookup);
  }

  /** The logins whose lookup succeeds, in order. */
  function Succeeded(logins: seq<string>, lookup: string -> Option<seq<UserRepo>>): seq<string>
  {
    if logins == [] then []
    else
      var login := logins[|logins| - 1];
      Succeeded(logins[..|logins| - 1], lookup) + (if lookup(login).Some? then [login] else [])
  }

  lemma {:induction false} FoundLoginsAre(logins: seq<string>, lookup: string -> Option<seq<UserRepo>>)
    ensures LoginsOf(Found(logins, lookup)) == Succeeded(logins, lookup)
  {
    if logins != [] {
      var init := logins[..|logins| - 1];
      var login := logins[|logins| - 1];
      FoundLoginsAre(init, lookup);
      var ms := Found(init, lookup);
      assert Succeeded(logins, lookup) == Succeeded(init, lookup) + (if lookup(login).Some? then [login] else []);
      match lookup(login)
      case Some(repos) =>
        assert Found(logins, lookup) == ms + [MaintainerOf(login, repos)];
        LoginsOfAppend(ms, [MaintainerOf(login, repos)]);
        assert LoginsOf([MaintainerOf(login, repos)]) == [login];
      case None =>
        assert Found(logins, lookup) == ms;
    }
  }

  lemma LoginsOfAppend(a: seq<Maintainer>, b: seq<Maintainer>)
    ensures LoginsOf(a + b) == LoginsOf(a) + LoginsOf(b)
  {
  }

  lemma {:induction false} SucceededDistinct(logins: seq<string>, lookup: string -> Option<seq<UserRepo>>)
    requires NoDuplicates(logins)
    ensures NoDuplicates(Succeeded(logins, lookup))
    ensures forall l :: l in Succeeded(logins, lookup) ==> l in logins
  {
    if logins != [] {
      var init := logins[..|logins| - 1];
      var login := logins[|logins| - 1];
      assert NoDuplicates(init) by {
        forall i, j | 0 <= i < j < |init|
          ensures init[i] != init[j]
        {
          assert init[i] == logins[i] && init[j] == logins[j];
        }
      }
      SucceededDistinct(init, lookup);
      var rest := Succeeded(init, lookup);
      assert login !in init by {
        forall i | 0 <= i < |init|
          ensures init[i] != login
        {
          assert init[i] == logins[i];
        }
      }
      assert login !in rest;
    }
  }

  /** Every maintainer in the list comes from a login whose lookup succeeded, and is the
      record built from that lookup: failed lookups leave nothing behind. */
  lemma {:induction false} FoundSound(logins: seq<string>, lookup: string -> Option<seq<UserRepo>>)
    ensures forall m :: m in Found(logins, lookup) ==>
              m.login in logins && lookup(m.login).Some? && m == MaintainerOf(m.login, lookup(m.login).value)
  {
    if logins != [] {
      var init := logins[..|logins| - 1];
      var login := logins[|logins| - 1];
      FoundSound(init, lookup);
      var extra := match lookup(login) case Some(repos) => [MaintainerOf(login, repos)] case None => [];
      assert Found(logins, lookup) == Found(init, lookup) + extra;
      forall m | m in extra
        ensures m.login == login && lookup(login).Some? && m == MaintainerOf(login, lookup(login).value)
      {
      }
    }
  }

  /** Every login whose lookup succeeds has its maintainer in the list. */
  lemma {:induction false} FoundComplete(logins: seq<string>, lookup: string -> Option<seq<UserRepo>>)
    ensures forall l :: l in logins && lookup(l).Some? ==> MaintainerOf(l, lookup(l).value) in Found(logins, lookup)
  {
    if logins != [] {
      var init := logins[..|logins| - 1];
      var login := logins[|logins| - 1];
      assert logins == init + [login];
      FoundComplete(init, lookup);
    }
  }

  function LoginsOf(ms: seq<Maintainer>): (ls: seq<string>)
    ensures |ls| == |ms|
    ensures forall i :: 0 <= i < |ms| ==> ls[i] == ms[i].login
  {
    seq(|ms|, i requires 0 <= i < |ms| => ms[i].login)
  }

  /** The maintainers are owners of the trending repositories, each at most once and at
      most `limit` of them; they are exactly the records of the owners among the first
      `limit` distinct ones whose lookup succeeds, so failed lookups are dropped; the list
      runs from most to fewest total stars. */
  lemma TopMaintainersSpec(owners: seq<string>, limit: int, lookup: string -> Option<seq<UserRepo>>)
    ensures var ms := TopMaintainersOf(owners, limit, lookup);
      && SortedDesc(ms, ByTotalStars)
      && |ms| <= SliceEnd(|Distinct(owners)|, limit)
      && (forall m :: m in ms ==> m.login in owners)
      && NoDuplicates(LoginsOf(ms))
      && (forall l :: l in MaintainerLogins(owners, limit) && lookup(l).Some? ==> MaintainerOf(l, lookup(l).value) in ms)
      && (forall m :: m in ms ==>
            m.login in MaintainerLogins(owners, limit) && lookup(m.login).Some?
            && m == MaintainerOf(m.login, lookup(m.login).value))
  {
    var logins := MaintainerLogins(owners, limit);
    var found := Found(logins, lookup);
    var ms := TopMaintainersOf(owners, limit, lookup);
    assert forall i, j :: 0 <= i < j < |logins| ==> logins[i] == Distinct(owners)[i] && logins[j] == Distinct(owners)[j];
    FoundLogins(logins, lookup);
    FoundSound(logins, lookup);
    forall m | m in ms
      ensures m in found
    {
      assert m in multiset(ms);
    }
    forall l | l in logins && lookup(l).Some?
      ensures MaintainerOf(l, lookup(l).value) in ms
    {
      assert MaintainerOf(l, lookup(l).value) in multiset(found);
    }
    PermutedLoginsDistinct(found, ms);
  }

  /** A permutation of a list with distinct logins has distinct logins. */
  lemma PermutedLoginsDistinct(found: seq<Maintainer>, ms: seq<Maintainer>)
    requires multiset(ms) == multiset(found) && NoDuplicates(LoginsOf(found))
    ensures NoDuplicates(LoginsOf(ms))
  {
    forall i, j | 0 <= i < j < |ms|
      ensures LoginsOf(ms)[i] != LoginsOf(ms)[j]
    {
      if ms[i].login == ms[j].login {
        assert ms[i] in multiset(found) && ms[j] in multiset(found);
        var a :| 0 <= a < |found| && found[a] == ms[i];
        var b :| 0 <= b < |found| && found[b] == ms[j];
        assert LoginsOf(found)[a] == LoginsOf(found)[b];
        assert ms[i] == ms[j];
        TwiceInMultiset(ms, i, j);
        MultisetNoDuplicatesLogins(found, a);
        assert false;
      }
    }
  }

  lemma MultisetNoDuplicatesLogins(found: seq<Maintainer>, a: int)
    requires NoDuplicates(LoginsOf(found)) && 0 <= a < |found|
    ensures multiset(found)[found[a]] <= 1
  {
    forall i, j | 0 <= i < j < |found|
      ensures found[i] != found[j]
    {
      assert LoginsOf(found)[i] != LoginsOf(found)[j];
    }
    MultisetNoDuplicates(found, found[a]);
  }
}
