/**
 * The repository-to-project pipeline of `src/hooks/useGitHub.ts`: each shown
 * repository becomes one `Project` (with technologies detected from its
 * language statistics, or a fallback when that detection throws), the list is
 * sorted in place featured-first and newest-update-first, and the hook's
 * `data` / `isLoading` / `error` cells are updated only while it is mounted.
 */
module Projects {
  import opened Wrappers
  import opened Text
  import opened Types
  import opened GitHub

  const NoDescription := "No description provided"

  /** A repository with more stars than this is featured. */
  const FeaturedStarThreshold := 5

  // ===========================================================================
  // One repository to one project

  /** `repo.description || 'No description provided'`. */
  function DescriptionOf(repo: GitHubRepository): string {
    if Truthy(repo.description) then repo.description.value else NoDescription
  }

  /** `repo.homepage || undefined`. */
  function LiveUrlOf(repo: GitHubRepository): Option<string> {
    if Truthy(repo.homepage) then repo.homepage else None
  }

  /** `repo.description || undefined`, the description handed to technology detection. */
  function DetectionDescription(repo: GitHubRepository): Option<string> {
    if Truthy(repo.description) then repo.description else None
  }

  /**
   * The project built for `repo` once its languages body is known. A
   * languages object takes the success path; a `null` body makes
   * `Object.keys` throw inside `detectTechnologies`, which is the failure path.
   */
  function ToProject(repo: GitHubRepository, languages: LanguagesJson): (p: Project)
    ensures p.name == repo.name && p.githubUrl == repo.htmlUrl
    ensures p.lastUpdated == repo.updatedAt && p.createdAt.None?
    ensures p.id == IntToDecimal(repo.id)
    ensures IsIntLiteral(p.id) && ParseInt(p.id) == repo.id
    ensures p.description != ""
    ensures Truthy(repo.description) ==> p.description == repo.description.value
    ensures !Truthy(repo.description) ==> p.description == NoDescription
    ensures p.liveUrl.Some? <==> Truthy(repo.homepage)
    ensures p.liveUrl.Some? ==> p.liveUrl == repo.homepage
    ensures p.featured <==> languages.LanguagesObject? && repo.stargazersCount > FeaturedStarThreshold
    ensures languages.LanguagesObject? ==>
              p.technologies == DetectedTechnologies(languages.languages, repo.name, DetectionDescription(repo))
    ensures languages.JsonNull? && Truthy(repo.language) ==> p.technologies == [repo.language.value]
    ensures languages.JsonNull? && !Truthy(repo.language) ==> p.technologies == []
    ensures |p.technologies| <= MaxTechnologies && NoDuplicates(p.technologies)
  {
    IntToDecimalRoundTrip(repo.id);
    match languages
    case LanguagesObject(stats) =>
      Project(IntToDecimal(repo.id), repo.name, DescriptionOf(repo),
              DetectedTechnologies(stats, repo.name, DetectionDescription(repo)),
              repo.htmlUrl, LiveUrlOf(repo), repo.stargazersCount > FeaturedStarThreshold, repo.updatedAt, None)
    case JsonNull =>
      Project(IntToDecimal(repo.id), repo.name, DescriptionOf(repo),
              if Truthy(repo.language) then [repo.language.value] else [],
              repo.htmlUrl, LiveUrlOf(repo), false, repo.updatedAt, None)
  }

  /** Distinct repository ids give distinct project ids. */
  lemma ProjectIdsDistinct(r1: GitHubRepository, l1: LanguagesJson, r2: GitHubRepository, l2: LanguagesJson)
    requires r1.id != r2.id
    ensures ToProject(r1, l1).id != ToProject(r2, l2).id
  {
    if ToProject(r1, l1).id == ToProject(r2, l2).id {
      IntToDecimalInjective(r1.id, r2.id);
    }
  }

  /** `xs.map(f)`. */
  function Map<A, B>(f: A -> B, xs: seq<A>): (ys: seq<B>)
    ensures |ys| == |xs| && forall i :: 0 <= i < |xs| ==> ys[i] == f(xs[i])
  {
    seq(|xs|, i requires 0 <= i < |xs| => f(xs[i]))
  }

  /** Mapping one more element appends its image. */
  lemma MapSnoc<A, B>(f: A -> B, xs: seq<A>, i: nat)
    requires i < |xs|
    ensures Map(f, xs[..i + 1]) == Map(f, xs[..i]) + [f(xs[i])]
  {
    assert forall k :: 0 <= k < i ==> xs[..i + 1][k] == xs[..i][k];
  }

  /** The callback of `repos.map`, given each repository's languages lookup. */
  function Converter(service: GitHubApiService, languagesOf: GitHubRepository -> FetchOutcome<LanguagesJson>)
    : GitHubRepository -> Project
  {
    repo => ToProject(repo, service.FetchRepositoryLanguages(languagesOf(repo)))
  }

  /** The projects of `repos`, one per repository and in the same order, before sorting. */
  function ProjectsOf(service: GitHubApiService, repos: seq<GitHubRepository>,
                      languagesOf: GitHubRepository -> FetchOutcome<LanguagesJson>): (ps: seq<Project>)
    ensures |ps| == |repos|
    ensures forall i :: 0 <= i < |repos| ==>
              ps[i] == ToProject(repos[i], service.FetchRepositoryLanguages(languagesOf(repos[i])))
  {
    Map(Converter(service, languagesOf), repos)
  }

  /** The body of the `repos.map(async (repo) => ...)` callback. */
  method ConvertRepository(service: GitHubApiService, repo: GitHubRepository,
                           languagesOutcome: FetchOutcome<LanguagesJson>) returns (p: Project)
    ensures p == ToProject(repo, service.FetchRepositoryLanguages(languagesOutcome))
  {
    var languages := service.FetchRepositoryLanguages(languagesOutcome);
    match languages
    case LanguagesObject(stats) =>
      var technologies := service.DetectTechnologies(stats, repo.name, DetectionDescription(repo));
      p := Project(IntToDecimal(repo.id), repo.name, DescriptionOf(repo), technologies,
                   repo.htmlUrl, LiveUrlOf(repo), repo.stargazersCount > FeaturedStarThreshold, repo.updatedAt, None);
    case JsonNull =>
      p := Project(IntToDecimal(repo.id), repo.name, DescriptionOf(repo),
                   if Truthy(repo.language) then [repo.language.value] else [],
                   repo.htmlUrl, LiveUrlOf(repo), false, repo.updatedAt, None);
  }

  // ===========================================================================
  // Display order

  /** The comparator passed to `projects.sort`: negative when `a` goes first. */
  function Compare(a: Project, b: Project): int {
    if a.featured && !b.featured then -1
    else if !a.featured && b.featured then 1
    else b.lastUpdated - a.lastUpdated
  }

  /** `a` strictly precedes `b`. */
  predicate Before(a: Project, b: Project) {
    Compare(a, b) < 0
  }

  /** No project is strictly before one that precedes it in the list. */
  predicate SortedForDisplay(s: seq<Project>) {
    forall i, j :: 0 <= i < j < |s| ==> !Before(s[j], s[i])
  }

  /**
   * The comparator is a consistent one: antisymmetric, with "not before"
   * transitive, and it ties only projects with equal `featured` and
   * `lastUpdated`.
   */
  lemma CompareConsistent(a: Project, b: Project, c: Project)
    ensures Compare(a, b) < 0 <==> Compare(b, a) > 0
    ensures Compare(a, b) == 0 <==> a.featured == b.featured && a.lastUpdated == b.lastUpdated
    ensures !Before(c, b) && !Before(b, a) ==> !Before(c, a)
  {
  }

  /** In sorted order every featured project comes first, and equally featured ones go newest first. */
  lemma SortedMeansDisplayOrder(s: seq<Project>, i: nat, j: nat)
    requires SortedForDisplay(s) && i < j < |s|
    ensures s[j].featured ==> s[i].featured
    ensures s[i].featured == s[j].featured ==> s[i].lastUpdated >= s[j].lastUpdated
  {
    assert !Before(s[j], s[i]);
  }

  /** Inserts `x` after every element it does not strictly precede (a stable insertion). */
  function Insert(s: seq<Project>, x: Project): seq<Project>
    decreases |s|
  {
    if s == [] then [x]
    else if Before(x, s[|s| - 1]) then Insert(s[..|s| - 1], x) + [s[|s| - 1]]
    else s + [x]
  }

  /** The order `projects.sort` leaves: a stable sort by the comparator (insertion sort). */
  function SortForDisplay(s: seq<Project>): seq<Project>
    decreases |s|
  {
    if s == [] then [] else Insert(SortForDisplay(s[..|s| - 1]), s[|s| - 1])
  }

  /** Appending a project that precedes nothing already there keeps a list sorted. */
  lemma SortedSnoc(t: seq<Project>, y: Project)
    requires SortedForDisplay(t)
    requires forall k :: 0 <= k < |t| ==> !Before(y, t[k])
    ensures SortedForDisplay(t + [y])
  {
    var u := t + [y];
    forall i, j | 0 <= i < j < |u|
      ensures !Before(u[j], u[i])
    {
      if j < |t| {
        assert u[j] == t[j] && u[i] == t[i];
      }
    }
  }

  lemma {:induction false} InsertCorrect(s: seq<Project>, x: Project)
    requires SortedForDisplay(s)
    ensures SortedForDisplay(Insert(s, x))
    ensures multiset(Insert(s, x)) == multiset(s) + multiset{x}
    decreases |s|
  {
    if s != [] {
      var n := |s|;
      var front, last := s[..n - 1], s[n - 1];
      assert s == front + [last];
      assert SortedForDisplay(front) by {
        forall i, j | 0 <= i < j < |front| ensures !Before(front[j], front[i]) {
          assert front[j] == s[j] && front[i] == s[i];
        }
      }
      if Before(x, last) {
        InsertCorrect(front, x);
        var t := Insert(front, x);
        forall k | 0 <= k < |t|
          ensures !Before(last, t[k])
        {
          assert t[k] in multiset(t);
          if t[k] != x {
            assert t[k] in multiset(front);
            var m :| 0 <= m < |front| && front[m] == t[k];
            assert s[m] == t[k];
          }
        }
        SortedSnoc(t, last);
      } else {
        forall k | 0 <= k < n
          ensures !Before(x, s[k])
        {
          if k < n - 1 {
            assert !Before(last, s[k]);
            CompareConsistent(s[k], last, x);
          }
        }
        SortedSnoc(s, x);
      }
    }
  }

  /** One shift of the in-place insertion: `x` moves left past an element it precedes. */
  lemma InsertShift(sorted: seq<Project>, x: Project, j: nat)
    requires 0 < j <= |sorted| && Before(x, sorted[j - 1])
    ensures Insert(sorted[..j], x) + sorted[j..] == Insert(sorted[..j - 1], x) + sorted[j - 1..]
  {
    assert sorted[..j][..j - 1] == sorted[..j - 1];
    assert sorted[j - 1..] == [sorted[j - 1]] + sorted[j..];
  }

  /** The in-place insertion stops where `x` precedes nothing to its left. */
  lemma InsertStop(sorted: seq<Project>, x: Project, j: nat)
    requires j <= |sorted| && (j == 0 || !Before(x, sorted[j - 1]))
    ensures Insert(sorted[..j], x) == sorted[..j] + [x]
  {
    if j > 0 {
      assert sorted[..j][j - 1] == sorted[j - 1];
    }
  }

  /** The sorted list is in display order and is a permutation of its input. */
  lemma {:induction false} SortForDisplayCorrect(s: seq<Project>)
    ensures SortedForDisplay(SortForDisplay(s))
    ensures multiset(SortForDisplay(s)) == multiset(s)
    ensures |SortForDisplay(s)| == |s|
    decreases |s|
  {
    if s != [] {
      var front := s[..|s| - 1];
      SortForDisplayCorrect(front);
      InsertCorrect(SortForDisplay(front), s[|s| - 1]);
      assert s == front + [s[|s| - 1]];
      assert |SortForDisplay(s)| == |multiset(SortForDisplay(s))|;
    }
  }

  /** One pass of the insertion sort: moves `a[i]` left into the prefix `a[..i]`. */
  method InsertLeft(a: array<Project>, i: nat)
    requires i < a.Length
    modifies a
    ensures a[..i + 1] == Insert(old(a[..i]), old(a[i]))
    ensures forall k :: i < k < a.Length ==> a[k] == old(a[k])
  {
    var x := a[i];
    ghost var sorted := a[..i];
    var j := i;
    assert sorted[..j] == sorted && sorted[j..] == [];
    while j > 0 && Before(x, a[j - 1])
      invariant 0 <= j <= i
      invariant forall k :: 0 <= k < j ==> a[k] == sorted[k]
      invariant forall k :: j < k <= i ==> a[k] == sorted[k - 1]
      invariant forall k :: i < k < a.Length ==> a[k] == old(a[k])
      invariant Insert(sorted, x) == Insert(sorted[..j], x) + sorted[j..]
    {
      InsertShift(sorted, x, j);
      a[j] := a[j - 1];
      j := j - 1;
    }
    InsertStop(sorted, x, j);
    a[j] := x;
    assert a[..i + 1] == sorted[..j] + [x] + sorted[j..];
  }

  /** `projects.sort(compare)`, in place: an insertion sort that shifts larger elements right. */
  method SortProjects(a: array<Project>)
    modifies a
    ensures a[..] == SortForDisplay(old(a[..]))
  {
    ghost var input := a[..];
    var i := 0;
    while i < a.Length
      invariant 0 <= i <= a.Length
      invariant a[..i] == SortForDisplay(input[..i])
      invariant forall k :: i <= k < a.Length ==> a[k] == input[k]
    {
      InsertLeft(a, i);
      assert input[..i + 1][..i] == input[..i];
      i := i + 1;
    }
    assert input[..a.Length] == input;
  }

  // ===========================================================================
  // The whole run

  /** `repos.map(...)`: each repository converted with its own languages lookup, in listing order. */
  method ConvertAll(service: GitHubApiService, repos: seq<GitHubRepository>,
                    languagesOf: GitHubRepository -> FetchOutcome<LanguagesJson>)
    returns (projects: seq<Project>)
    ensures projects == ProjectsOf(service, repos, languagesOf)
  {
    var convert := Converter(service, languagesOf);
    projects := [];
    var i := 0;
    while i < |repos|
      invariant 0 <= i <= |repos|
      invariant projects == Map(convert, repos[..i])
    {
      var p := ConvertRepository(service, repos[i], languagesOf(repos[i]));
      MapSnoc(convert, repos, i);
      projects := projects + [p];
      i := i + 1;
    }
    assert repos[..|repos|] == repos;
  }

  /**
   * What the hook's `fetchRepositories` computes: the listing (or its error),
   * each shown repository converted with its own languages lookup, and the
   * result sorted for display.
   */
  method LoadProjects(service: GitHubApiService, listing: FetchOutcome<seq<GitHubRepository>>,
                      languagesOf: GitHubRepository -> FetchOutcome<LanguagesJson>)
    returns (r: Result<seq<Project>, Exception>)
    ensures service.FetchRepositories(listing).Failure? ==> r == Failure(service.FetchRepositories(listing).error)
    ensures service.FetchRepositories(listing).Success? ==> r.Success?
    ensures r.Success? ==>
              var repos := service.FetchRepositories(listing).value;
              && r.value == SortForDisplay(ProjectsOf(service, repos, languagesOf))
              && SortedForDisplay(r.value)
              && multiset(r.value) == multiset(ProjectsOf(service, repos, languagesOf))
              && |r.value| == |repos|
  {
    var fetched := service.FetchRepositories(listing);
    if fetched.Failure? {
      return Failure(fetched.error);
    }
    var repos := fetched.value;
    var converted := ConvertAll(service, repos, languagesOf);
    var projects := new Project[|converted|](k requires 0 <= k < |converted| => converted[k]);
    assert projects[..] == converted;
    SortProjects(projects);
    SortForDisplayCorrect(converted);
    r := Success(projects[..]);
  }

  /** Every displayed project comes from a repository that the listing filter shows. */
  lemma DisplayedProjectsAreShown(service: GitHubApiService, listing: FetchOutcome<seq<GitHubRepository>>,
                                  languagesOf: GitHubRepository -> FetchOutcome<LanguagesJson>, p: Project)
    requires service.FetchRepositories(listing).Success?
    requires p in SortForDisplay(ProjectsOf(service, service.FetchRepositories(listing).value, languagesOf))
    ensures exists repo :: repo in MakeRequest(listing).value && service.IsShown(repo)
                           && p == ToProject(repo, service.FetchRepositoryLanguages(languagesOf(repo)))
  {
    var repos := service.FetchRepositories(listing).value;
    var ps := ProjectsOf(service, repos, languagesOf);
    SortForDisplayCorrect(ps);
    assert p in multiset(ps);
    var i :| 0 <= i < |ps| && ps[i] == p;
    var repo := repos[i];
    assert service.IsShown(repo);
    assert repo in multiset(repos);
    assert multiset(repos)[repo] == multiset(MakeRequest(listing).value)[repo];
  }

  // ===========================================================================
  // The hook's state cells

  /** `useGitHubRepositories`: the three state cells, the `isMounted` flag, and whether the run is still in flight. */
  class RepositoriesHook {
    var data: Option<seq<Project>>
    var isLoading: bool
    var error: Option<string>
    var isMounted: bool
    var pending: bool

    /** At every observed instant exactly one of: loading, data present, error present. */
    ghost predicate Valid()
      reads this
    {
      && (pending ==> isLoading)
      && (isLoading ==> data.None? && error.None?)
      && (!isLoading ==> data.Some? != error.Some?)
    }

    /**
     * The value the hook returns: either still loading with neither data nor
     * error, or settled with exactly one of the two.
     */
    function Response(): (r: ApiResponse<seq<Project>>)
      reads this
      ensures Valid() ==> (r.isLoading && r.data.None? && r.error.None?)
                          || (!r.isLoading && r.data.Some? != r.error.Some?)
      ensures r.data == data && r.isLoading == isLoading && r.error == error
    {
      ApiResponse(data, isLoading, error)
    }

    /** Mounting: the initial state, then the effect starts its run (`setIsLoading(true)`, `setError(null)`). */
    constructor ()
      ensures Valid() && isMounted && pending
      ensures Response() == ApiResponse(None, true, None)
    {
      data, isLoading, error := None, true, None;
      isMounted := true;
      pending := true;
      isLoading := true;
      error := None;
    }

    /** The effect's cleanup. */
    method Unmount()
      requires Valid()
      modifies this`isMounted
      ensures Valid() && !isMounted
    {
      isMounted := false;
    }

    /** The run settles with the pipeline's result; state cells change only while mounted. */
    method Settle(outcome: Result<seq<Project>, Exception>)
      requires Valid() && pending
      modifies this`data, this`isLoading, this`error, this`pending
      ensures Valid() && !pending
      ensures !isMounted ==> Response() == old(Response())
      ensures isMounted ==> !isLoading
      ensures isMounted && outcome.Success? ==> data == Some(outcome.value) && error.None?
      ensures isMounted && outcome.Failure? ==>
                data.None? && error == Some(MessageOr(outcome.error, "Failed to fetch repositories"))
    {
      if isMounted {
        if outcome.Success? {
          data := Some(outcome.value);
        } else {
          error := Some(MessageOr(outcome.error, "Failed to fetch repositories"));
        }
        isLoading := false;
      }
      pending := false;
    }

    /**
     * The whole effect after mount: the pipeline runs, then its result
     * settles the state cells (only while still mounted).
     */
    method Run(service: GitHubApiService, listing: FetchOutcome<seq<GitHubRepository>>,
               languagesOf: GitHubRepository -> FetchOutcome<LanguagesJson>)
      requires Valid() && pending
      modifies this`data, this`isLoading, this`error, this`pending
      ensures Valid() && !pending
      ensures !isMounted ==> Response() == old(Response())
      ensures isMounted ==> !isLoading
      ensures isMounted && service.FetchRepositories(listing).Failure? ==>
                && data.None?
                && error == Some(service.FetchRepositories(listing).error.message)
                && StartsWith(error.value, RepositoriesFailurePrefix)
      ensures isMounted && service.FetchRepositories(listing).Success? ==>
                && error.None?
                && data == Some(SortForDisplay(ProjectsOf(service, service.FetchRepositories(listing).value, languagesOf)))
                && SortedForDisplay(data.value)
                && multiset(data.value) == multiset(ProjectsOf(service, service.FetchRepositories(listing).value, languagesOf))
    {
      var result := LoadProjects(service, listing, languagesOf);
      Settle(result);
    }
  }
}
