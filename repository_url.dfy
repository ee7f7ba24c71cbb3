/** parseRepositoryUrl in src/services/repositoryApi.js: the owner and repository name
    of a GitHub URL or of an `owner/repo` string. The two regular expressions are
    modelled by what they can match: /github\.com\/([^\/]+)\/([^\/]+)/ anywhere in the
    text, leftmost first, and /^([^\/]+)\/([^\/]+)$/ on the whole text. */
module RepositoryUrl {
  import opened Common

  datatype Repository = Repository(owner: string, repo: string)

  const Host: string := "github.com/"
  const GitSuffix: string := ".git"
  const InvalidUrl: string := "Invalid GitHub repository URL or format. Use: owner/repo or full GitHub URL"

  /** The end of the run of characters other than '/' that starts at `j`: where the
      greedy `[^\/]+` stops. */
  function SegmentEnd(s: string, j: nat): (e: nat)
    requires j <= |s|
    ensures j <= e <= |s|
    ensures forall k :: j <= k < e ==> s[k] != '/'
    ensures e == |s| || s[e] == '/'
    decreases |s| - j
  {
    if j == |s| || s[j] == '/' then j else SegmentEnd(s, j + 1)
  }

  /** A run without '/' that ends at a '/' or at the end of the text is the whole segment. */
  lemma {:induction false} SegmentEndOf(s: string, j: nat, e: nat)
    requires j <= e <= |s|
    requires forall k :: j <= k < e ==> s[k] != '/'
    requires e == |s| || s[e] == '/'
    ensures SegmentEnd(s, j) == e
    decreases e - j
  {
    if j < e {
      SegmentEndOf(s, j + 1, e);
    }
  }

  /** The first pattern matches at position `i`. The owner group must end at the first
      '/' after the host, so the only freedom the pattern has is where it starts. */
  predicate HostMatchAt(s: string, i: int)
  {
    OccursAt(s, Host, i)
    && var o := i + |Host|;
       var e := SegmentEnd(s, o);
       o < e < |s| && e + 1 < SegmentEnd(s, e + 1)
  }

  function HostCaptures(s: string, i: int): Repository
    requires HostMatchAt(s, i)
  {
    var o := i + |Host|;
    var e := SegmentEnd(s, o);
    Repository(s[o..e], s[e + 1..SegmentEnd(s, e + 1)])
  }

  /** String.prototype.match with the first pattern: the groups of the leftmost match at
      or after `from`. */
  function FirstHostMatch(s: string, from: nat): Option<Repository>
    decreases |s| + 1 - from
  {
    if from > |s| then None
    else if HostMatchAt(s, from) then Some(HostCaptures(s, from))
    else FirstHostMatch(s, from + 1)
  }

  /** No match exactly when the pattern matches nowhere at or after `from`; otherwise the
      groups of the leftmost match. */
  lemma {:induction false} FirstHostMatchSpec(s: string, from: nat)
    ensures FirstHostMatch(s, from).None? <==> forall i :: from <= i ==> !HostMatchAt(s, i)
    ensures FirstHostMatch(s, from).Some? ==>
              exists i :: from <= i && HostMatchAt(s, i) && FirstHostMatch(s, from).value == HostCaptures(s, i)
                          && (forall j :: from <= j < i ==> !HostMatchAt(s, j))
    decreases |s| + 1 - from
  {
    if from > |s| {
      forall i | from <= i
        ensures !HostMatchAt(s, i)
      {
      }
    } else if !HostMatchAt(s, from) {
      FirstHostMatchSpec(s, from + 1);
      if FirstHostMatch(s, from).Some? {
        var i :| from + 1 <= i && HostMatchAt(s, i) && FirstHostMatch(s, from).value == HostCaptures(s, i)
                 && (forall j :: from + 1 <= j < i ==> !HostMatchAt(s, j));
        assert forall j :: from <= j < i ==> !HostMatchAt(s, j);
      }
    }
  }

  /** The second pattern: the whole text is two non-empty segments around one '/'. */
  predicate OwnerRepoForm(s: string)
  {
    var e := SegmentEnd(s, 0);
    0 < e && e + 1 < |s| && SegmentEnd(s, e + 1) == |s|
  }

  function OwnerRepoCaptures(s: string): Repository
    requires OwnerRepoForm(s)
  {
    var e := SegmentEnd(s, 0);
    Repository(s[..e], s[e + 1..])
  }

  /** `url.match(patterns[p])`, reduced to its two groups. */
  function MatchPattern(p: nat, url: string): Option<Repository>
    requires p < 2
  {
    if p == 0 then FirstHostMatch(url, 0)
    else if OwnerRepoForm(url) then Some(OwnerRepoCaptures(url))
    else None
  }

  /** `.replace(/\.git$/, '')`: one trailing ".git" is removed. */
  function StripGit(repo: string): (r: string)
    ensures |repo| >= 4 && repo[|repo| - 4..] == GitSuffix ==> r + GitSuffix == repo
    ensures !(|repo| >= 4 && repo[|repo| - 4..] == GitSuffix) ==> r == repo
  {
    if |repo| >= 4 && repo[|repo| - 4..] == GitSuffix then repo[..|repo| - 4] else repo
  }

  /** What parseRepositoryUrl returns or throws: the groups of the first pattern that
      matches, the name without its ".git", or the error. */
  function ParseOf(url: string): Result<Repository>
  {
    if MatchPattern(0, url).Some? then
      Ok(Repository(MatchPattern(0, url).value.owner, StripGit(MatchPattern(0, url).value.repo)))
    else if MatchPattern(1, url).Some? then
      Ok(Repository(MatchPattern(1, url).value.owner, StripGit(MatchPattern(1, url).value.repo)))
    else Err(InvalidUrl)
  }

  /** The loop over the two patterns with its early return. */
  method ParseRepositoryUrl(url: string) returns (r: Result<Repository>)
    ensures r == ParseOf(url)
  {
    var p := 0;
    while p < 2
      invariant 0 <= p <= 2
      invariant forall q :: 0 <= q < p ==> MatchPattern(q, url).None?
    {
      var m := MatchPattern(p, url);
      if m.Some? {
        return Ok(Repository(m.value.owner, StripGit(m.value.repo)));
      }
      p := p + 1;
    }
    return Err(InvalidUrl);
  }

  lemma SegmentHasNoSlash(s: string, j: nat)
    requires j <= |s|
    ensures '/' !in s[j..SegmentEnd(s, j)]
  {
    var seg := s[j..SegmentEnd(s, j)];
    assert forall k :: 0 <= k < |seg| ==> seg[k] == s[j + k];
  }

  lemma StripGitNoSlash(name: string)
    requires '/' !in name
    ensures '/' !in StripGit(name)
  {
    assert forall k :: 0 <= k < |StripGit(name)| ==> StripGit(name)[k] == name[k];
  }

  predicate WellFormed(r: Repository)
  {
    r.owner != "" && '/' !in r.owner && '/' !in StripGit(r.repo)
  }

  lemma HostCapturesWellFormed(s: string, i: int)
    requires HostMatchAt(s, i)
    ensures WellFormed(HostCaptures(s, i))
  {
    var e := SegmentEnd(s, i + |Host|);
    SegmentHasNoSlash(s, i + |Host|);
    SegmentHasNoSlash(s, e + 1);
    StripGitNoSlash(HostCaptures(s, i).repo);
  }

  lemma OwnerRepoWellFormed(s: string)
    requires OwnerRepoForm(s)
    ensures WellFormed(OwnerRepoCaptures(s))
  {
    var e := SegmentEnd(s, 0);
    SegmentHasNoSlash(s, 0);
    SegmentHasNoSlash(s, e + 1);
    assert s[..e] == s[0..e];
    StripGitNoSlash(s[e + 1..]);
  }

  /** A parsed owner is a non-empty segment and neither part contains '/'. */
  lemma ParseShape(url: string)
    ensures ParseOf(url).Ok? ==>
              (ParseOf(url).value.owner != "" && '/' !in ParseOf(url).value.owner && '/' !in ParseOf(url).value.repo)
  {
    var m := FirstHostMatch(url, 0);
    FirstHostMatchSpec(url, 0);
    if m.Some? {
      var i :| 0 <= i && HostMatchAt(url, i) && m.value == HostCaptures(url, i);
      HostCapturesWellFormed(url, i);
    } else if OwnerRepoForm(url) {
      OwnerRepoWellFormed(url);
    }
  }

  /** The error is raised exactly when neither pattern matches anywhere. */
  lemma ParseErrorCases(url: string)
    ensures ParseOf(url).Err? <==> (forall i :: 0 <= i ==> !HostMatchAt(url, i)) && !OwnerRepoForm(url)
    ensures ParseOf(url).Err? ==> ParseOf(url).message == InvalidUrl
  {
    FirstHostMatchSpec(url, 0);
  }

  /** The leftmost match decides the groups. */
  lemma {:induction false} FirstHostMatchAt(s: string, from: nat, at: nat)
    requires from <= at && HostMatchAt(s, at)
    requires forall j :: from <= j < at ==> !HostMatchAt(s, j)
    ensures FirstHostMatch(s, from) == Some(HostCaptures(s, at))
    decreases at - from
  {
    if from < at {
      FirstHostMatchAt(s, from + 1, at);
    }
  }

  /** The host pattern matches right after the prefix, capturing the owner and the name. */
  lemma HostMatchAfterPrefix(url: string, prefix: string, owner: string, name: string, rest: string)
    requires owner != "" && '/' !in owner && name != "" && '/' !in name
    requires rest == [] || rest[0] == '/'
    requires url == prefix + Host + owner + "/" + name + rest
    ensures HostMatchAt(url, |prefix|) && HostCaptures(url, |prefix|) == Repository(owner, name)
  {
    var o := |prefix| + |Host|;
    var e := o + |owner|;
    var f := e + 1 + |name|;
    assert url[|prefix|..o] == Host;
    assert url[o..e] == owner;
    assert url[e] == '/';
    assert url[e + 1..f] == name;
    assert forall k :: o <= k < e ==> url[k] == owner[k - o];
    assert forall k :: e + 1 <= k < f ==> url[k] == name[k - e - 1];
    assert f == |url| || url[f] == '/' by {
      if f < |url| { assert url[f] == rest[0]; }
    }
    SegmentEndOf(url, o, e);
    SegmentEndOf(url, e + 1, f);
  }

  /** No match of the host pattern starts inside a prefix without a 'g'. */
  lemma NoHostMatchInPrefix(url: string, prefix: string)
    requires 'g' !in prefix && |prefix| <= |url| && url[..|prefix|] == prefix
    ensures forall j :: 0 <= j < |prefix| ==> !HostMatchAt(url, j)
  {
    forall j | 0 <= j < |prefix|
      ensures !HostMatchAt(url, j)
    {
      assert url[j] == prefix[j];
      if OccursAt(url, Host, j) {
        OccurrenceCharacter(url, Host, j, j);
      }
    }
  }

  /** Round trip of a GitHub URL: any text without a 'g' before "github.com/", then the
      owner, '/', the name, and nothing or a path starting with '/'. */
  lemma ParseGitHubUrl(prefix: string, owner: string, name: string, rest: string)
    requires 'g' !in prefix
    requires owner != "" && '/' !in owner && name != "" && '/' !in name
    requires rest == [] || rest[0] == '/'
    ensures ParseOf(prefix + Host + owner + "/" + name + rest) == Ok(Repository(owner, StripGit(name)))
  {
    var url := prefix + Host + owner + "/" + name + rest;
    HostMatchAfterPrefix(url, prefix, owner, name, rest);
    assert url[..|prefix|] == prefix;
    NoHostMatchInPrefix(url, prefix);
    FirstHostMatchAt(url, 0, |prefix|);
  }

  /** Round trip of the short form `owner/name`. */
  lemma ParseOwnerRepo(owner: string, name: string)
    requires owner != "" && '/' !in owner && name != "" && '/' !in name
    ensures ParseOf(owner + "/" + name) == Ok(Repository(owner, StripGit(name)))
  {
    var url := owner + "/" + name;
    ShortFormSegments(owner, name);
    ShortFormHasNoHostMatch(owner, name);
    FirstHostMatchSpec(url, 0);
  }

  /** `owner/name` is two segments around its only '/'. */
  lemma ShortFormSegments(owner: string, name: string)
    requires owner != "" && '/' !in owner && name != "" && '/' !in name
    ensures var url := owner + "/" + name;
      SegmentEnd(url, 0) == |owner| && SegmentEnd(url, |owner| + 1) == |url|
      && url[..|owner|] == owner && url[|owner| + 1..] == name
  {
    var url := owner + "/" + name;
    var e := |owner|;
    assert url[..e] == owner && url[e] == '/' && url[e + 1..] == name;
    assert forall k :: 0 <= k < e ==> url[k] == owner[k];
    assert forall k :: e + 1 <= k < |url| ==> url[k] == name[k - e - 1];
    SegmentEndOf(url, 0, e);
    SegmentEndOf(url, e + 1, |url|);
  }

  /** The host pattern needs a second '/', which `owner/name` does not have. */
  lemma ShortFormHasNoHostMatch(owner: string, name: string)
    requires owner != "" && '/' !in owner && name != "" && '/' !in name
    requires var url := owner + "/" + name;
      SegmentEnd(url, |owner| + 1) == |url|
    ensures forall i :: 0 <= i ==> !HostMatchAt(owner + "/" + name, i)
  {
    var url := owner + "/" + name;
    var e := |owner|;
    forall i | 0 <= i
      ensures !HostMatchAt(url, i)
    {
      if OccursAt(url, Host, i) {
        // the host ends in a '/', which can only be the one after the owner
        OccurrenceCharacter(url, Host, i, i + 10);
        assert url[i + 10] == '/';
        assert forall k :: 0 <= k < e ==> url[k] == owner[k];
        assert forall k :: e + 1 <= k < |url| ==> url[k] == name[k - e - 1];
        assert i + 10 == e;
      }
    }
  }

  /** Text such as "github.com/octocat", with no second '/', falls through to the short
      form and is read as the repository "octocat" of an owner named "github.com". */
  lemma HostWithoutRepository(name: string)
    requires name != "" && '/' !in name
    ensures ParseOf(Host + name) == Ok(Repository("github.com", StripGit(name)))
  {
    assert Host == "github.com" + "/";
    ParseOwnerRepo("github.com", name);
  }
}
