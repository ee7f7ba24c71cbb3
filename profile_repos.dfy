/** The repositories of a user profile as the profile views read them: what the GitHub
    API lists for each, with its size and its creation and update times. Shared by the
    comparison of two users, the analytics panel and the trends panel. */
module ProfileRepos {
  import opened Common
  import opened Tally
  import opened TrendingApi

  /** `createdYear` is the calendar year of `createdMs`, given rather than computed. */
  datatype ProfileRepo = ProfileRepo(info: UserRepo, size: Option<int>, createdMs: int, updatedMs: int,
                                     createdYear: int)

  function Infos(repos: seq<ProfileRepo>): (infos: seq<UserRepo>)
    ensures |infos| == |repos|
    ensures forall i :: 0 <= i < |repos| ==> infos[i] == repos[i].info
  {
    seq(|repos|, i requires 0 <= i < |repos| => repos[i].info)
  }

  function RepoStars(r: ProfileRepo): int { r.info.stars }

  function RepoForks(r: ProfileRepo): int { r.info.forks }

  /** `repo.size || 0`. */
  function RepoSize(r: ProfileRepo): int { if r.size.Some? then r.size.value else 0 }

  function TotalStars(repos: seq<ProfileRepo>): int { SumBy(repos, RepoStars) }

  function TotalForks(repos: seq<ProfileRepo>): int { SumBy(repos, RepoForks) }

  function TotalSize(repos: seq<ProfileRepo>): int { SumBy(repos, RepoSize) }

  /** `n > 0 ? total / n : 0`, an average guarded against no repositories. */
  function Average(total: int, n: nat): (a: real)
    ensures n == 0 ==> a == 0.0
    ensures n > 0 ==> a * n as real == total as real
    ensures total >= 0 ==> a >= 0.0
  {
    if n > 0 then total as real / n as real else 0.0
  }

  /** The languages of the repositories that have one, in repository order. */
  function ProfileLanguages(repos: seq<ProfileRepo>): seq<string>
  {
    LanguagesOf(Infos(repos))
  }

  lemma {:induction false} SumByNonNegative<T>(s: seq<T>, f: T -> int)
    requires forall x :: x in s ==> f(x) >= 0
    ensures SumBy(s, f) >= 0
  {
    if s != [] {
      SumByNonNegative(s[..|s| - 1], f);
    }
  }

  /** Star and fork totals are never negative. */
  lemma TotalsNonNegative(repos: seq<ProfileRepo>)
    ensures TotalStars(repos) >= 0 && TotalForks(repos) >= 0
  {
    SumByNonNegative(repos, RepoStars);
    SumByNonNegative(repos, RepoForks);
  }

  /** `Math.min(x, 100)` of a radar value. */
  function Clamp100(x: real): (v: real)
    ensures v <= 100.0
    ensures x >= 0.0 ==> 0.0 <= v
    ensures x <= 100.0 ==> v == x
    ensures x >= 100.0 ==> v == 100.0
  {
    MinReal(x, 100.0)
  }
}
