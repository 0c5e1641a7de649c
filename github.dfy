/**
 * The GitHub repository client (`src/services/github.ts`): configuration,
 * classification of HTTP failures, the visibility filter applied to the
 * repository listing, the error-absorbing language lookup, and the
 * technology detection that turns language statistics and a repository's
 * name and description into at most six display names.
 *
 * Every network request is represented by its outcome (`FetchOutcome`),
 * which the caller supplies: the model never performs I/O.
 */
module GitHub {
  import opened Wrappers
  import opened Text
  import opened Types

  // ===========================================================================
  // Configuration

  /** The three environment settings the service reads when it is constructed. */
  datatype Environment = Environment(token: Option<string>, username: Option<string>, excludeRepos: Option<string>)

  const MissingConfigMessage := "GitHub token and username must be provided via environment variables"

  /** `VITE_GITHUB_EXCLUDE_REPOS?.split(',') || []`: no trimming, no removal of empty names. */
  function ExcludedRepos(setting: Option<string>): (r: seq<string>)
    ensures setting.None? ==> r == []
    ensures setting.Some? ==> |r| >= 1 && Join(r, ',') == setting.value
    ensures forall k :: 0 <= k < |r| ==> ',' !in r[k]
  {
    match setting
    case None => []
    case Some(v) => JoinSplit(v, ','); Split(v, ',')
  }

  // ===========================================================================
  // Requests and their failures

  /**
   * What one `fetch` produced: either the promise rejected, or a response came
   * back with a status, a status text, the `X-RateLimit-Reset` header, the
   * locale's rendering of that reset instant (clock and locale are inputs),
   * and what `response.json()` yields.
   */
  datatype FetchOutcome<T> =
    | Rejected(reason: Exception)
    | Responded(status: int, statusText: string, rateLimitReset: Option<string>,
                localResetTime: string, body: Result<T, Exception>)

  /** `response.ok`. */
  predicate IsOk(status: int) {
    200 <= status <= 299
  }

  const RateLimitPrefix := "Rate limit exceeded. Resets at "
  const InvalidTokenPrefix := "Invalid GitHub token."
  const InvalidTokenMessage := InvalidTokenPrefix + " Please check your VITE_GITHUB_TOKEN environment variable."
  const ApiErrorPrefix := "GitHub API error: "

  function ResetTime(header: Option<string>, localResetTime: string): string {
    if Truthy(header) then localResetTime else "unknown"
  }

  function RateLimitMessage(resetTime: string): string {
    RateLimitPrefix + resetTime + ". Consider using a GitHub token for higher limits."
  }

  function ApiErrorMessage(status: int, statusText: string): string {
    ApiErrorPrefix + IntToDecimal(status) + " " + statusText
  }

  /** The message `makeRequest` throws for a response that is not ok. */
  function StatusMessage(status: int, statusText: string, header: Option<string>, localResetTime: string): string {
    if status == 403 then RateLimitMessage(ResetTime(header, localResetTime))
    else if status == 401 then InvalidTokenMessage
    else ApiErrorMessage(status, statusText)
  }

  /** The failure classes the messages stand for. */
  datatype ErrorKind = RateLimited | Unauthorized | ApiFailure

  function KindOfStatus(status: int): ErrorKind {
    if status == 403 then RateLimited else if status == 401 then Unauthorized else ApiFailure
  }

  /** Reads the failure class back from a message text. */
  function ClassifyMessage(message: string): Option<ErrorKind> {
    if StartsWith(message, RateLimitPrefix) then Some(RateLimited)
    else if StartsWith(message, InvalidTokenPrefix) then Some(Unauthorized)
    else if StartsWith(message, ApiErrorPrefix) then Some(ApiFailure)
    else None
  }

  /** Every failure message names the class of its status. */
  lemma StatusMessageClassified(status: int, statusText: string, header: Option<string>, localResetTime: string)
    ensures ClassifyMessage(StatusMessage(status, statusText, header, localResetTime)) == Some(KindOfStatus(status))
  {
    var m := StatusMessage(status, statusText, header, localResetTime);
    assert RateLimitPrefix[0] == 'R' && InvalidTokenPrefix[0] == 'I' && ApiErrorPrefix[0] == 'G';
    if status == 403 {
      assert m[..|RateLimitPrefix|] == RateLimitPrefix;
    } else if status == 401 {
      assert m[..|InvalidTokenPrefix|] == InvalidTokenPrefix;
      assert m[0] == 'I';
    } else {
      assert m[..|ApiErrorPrefix|] == ApiErrorPrefix;
      assert m[0] == 'G';
    }
  }

  /** The index of the first `c` in `s`, or `|s|` when there is none. */
  function IndexOf(s: string, c: char): (k: nat)
    ensures k <= |s|
    ensures c !in s[..k]
    ensures k < |s| ==> s[k] == c
    decreases |s|
  {
    if s == [] then 0
    else if s[0] == c then 0
    else
      var k := 1 + IndexOf(s[1..], c);
      assert s[..k] == [s[0]] + s[1..][..k - 1];
      k
  }

  /** Recovers status and status text from an "API error" message. */
  function ParseApiErrorMessage(message: string): Option<(int, string)> {
    if !StartsWith(message, ApiErrorPrefix) then None
    else
      var rest := message[|ApiErrorPrefix|..];
      var k := IndexOf(rest, ' ');
      if k < |rest| && IsIntLiteral(rest[..k]) then Some((ParseInt(rest[..k]), rest[k + 1..]))
      else None
  }

  /** The "API error" message keeps both the status and the status text. */
  lemma {:induction false} ApiErrorMessageRoundTrip(status: int, statusText: string)
    ensures ParseApiErrorMessage(ApiErrorMessage(status, statusText)) == Some((status, statusText))
  {
    var m := ApiErrorMessage(status, statusText);
    var d := IntToDecimal(status);
    assert m[..|ApiErrorPrefix|] == ApiErrorPrefix;
    var rest := m[|ApiErrorPrefix|..];
    assert rest == d + " " + statusText;
    assert ' ' !in d;
    IndexOfFirst(d, ' ', statusText);
    assert rest[..|d|] == d;
    assert rest[|d| + 1..] == statusText;
    IntToDecimalRoundTrip(status);
  }

  lemma IndexOfFirst(a: string, c: char, b: string)
    requires c !in a
    ensures IndexOf(a + [c] + b, c) == |a|
  {
    var s := a + [c] + b;
    var k := IndexOf(s, c);
    assert s[|a|] == c;
    assert s[..|a|] == a;

  }

  /** `makeRequest`: the body of an ok response, or the error it throws. */
  function MakeRequest<T>(outcome: FetchOutcome<T>): (r: Result<T, Exception>)
    ensures outcome.Rejected? ==> r == Failure(outcome.reason)
    ensures outcome.Responded? && IsOk(outcome.status) ==> r == outcome.body
    ensures outcome.Responded? && !IsOk(outcome.status) ==>
              r == Failure(Error(StatusMessage(outcome.status, outcome.statusText,
                                               outcome.rateLimitReset, outcome.localResetTime)))
    ensures outcome.Responded? && !IsOk(outcome.status) ==>
              r.Failure? && r.error.Error? &&
              ClassifyMessage(r.error.message) == Some(KindOfStatus(outcome.status))
  {
    match outcome
    case Rejected(e) => Failure(e)
    case Responded(status, statusText, header, localResetTime, body) =>
      if !IsOk(status) then
        StatusMessageClassified(status, statusText, header, localResetTime);
        Failure(Error(StatusMessage(status, statusText, header, localResetTime)))
      else body
  }

  const RepositoriesFailurePrefix := "Failed to fetch repositories: "
  const ProfileFailurePrefix := "Failed to fetch user profile: "

  /** `throw new Error(prefix + (error instanceof Error ? error.message : 'Unknown error'))`. */
  function Rethrow(prefix: string, e: Exception): (r: Exception)
    ensures r.Error? && StartsWith(r.message, prefix)
    ensures r.message[|prefix|..] == MessageOr(e, "Unknown error")
  {
    var m := prefix + MessageOr(e, "Unknown error");
    assert m[..|prefix|] == prefix;
    Error(m)
  }

  // ===========================================================================
  // Subsequences

  /** `sub` is `s` with some elements removed and the rest in their order. */
  predicate IsSubsequence<T(==)>(sub: seq<T>, s: seq<T>)
    decreases |s|
  {
    if sub == [] then true
    else if s == [] then false
    else (sub[0] == s[0] && IsSubsequence(sub[1..], s[1..])) || IsSubsequence(sub, s[1..])
  }

  /** Appending the same element to both sides, or to the longer side only, keeps a subsequence. */
  lemma {:induction false} SubsequenceSnoc<T>(sub: seq<T>, s: seq<T>, x: T)
    requires IsSubsequence(sub, s)
    ensures IsSubsequence(sub, s + [x])
    ensures IsSubsequence(sub + [x], s + [x])
    decreases |s|
  {
    if s == [] {
      assert sub == [];
      assert [x][1..] == [];
    } else {
      var t := s + [x];
      assert t[0] == s[0] && t[1..] == s[1..] + [x];
      if sub == [] {
        SubsequenceSnoc(sub, s[1..], x);
        assert sub + [x] == [x];
      } else if sub[0] == s[0] && IsSubsequence(sub[1..], s[1..]) {
        SubsequenceSnoc(sub[1..], s[1..], x);
        assert (sub + [x])[0] == sub[0] && (sub + [x])[1..] == sub[1..] + [x];
      } else {
        SubsequenceSnoc(sub, s[1..], x);
      }
    }
  }

  // ===========================================================================
  // Technology detection: the display-name table and the keyword rules

  const MaxTechnologies := 6

  /**
   * The `switch (language.toLowerCase())` of `detectTechnologies`, as a table
   * from lower-case language name to display name.
   */
  const LanguageTable: seq<(string, string)> := [
    ("typescript", "TypeScript"), ("javascript", "JavaScript"), ("python", "Python"),
    ("java", "Java"), ("go", "Go"), ("rust", "Rust"), ("c++", "C++"), ("c", "C"),
    ("html", "HTML"), ("css", "CSS"), ("scss", "SASS")]

  /** The first `case` whose label equals `key`. */
  function Lookup(key: string, table: seq<(string, string)>): (r: Option<string>)
    ensures r.None? <==> forall k :: 0 <= k < |table| ==> table[k].0 != key
    decreases |table|
  {
    if table == [] then None
    else if table[0].0 == key then Some(table[0].1)
    else Lookup(key, table[1..])
  }

  /** With distinct labels, the entry whose label is `key` is the one found. */
  lemma {:induction false} LookupFinds(key: string, table: seq<(string, string)>, k: nat)
    requires k < |table| && table[k].0 == key
    requires forall i, j :: 0 <= i < j < |table| ==> table[i].0 != table[j].0
    ensures Lookup(key, table) == Some(table[k].1)
    decreases |table|
  {
    if k > 0 {
      LookupFinds(key, table[1..], k - 1);
    }
  }

  /** The display name of a language key of the languages object. */
  function DisplayLanguage(language: string): string {
    match Lookup(ToLower(language), LanguageTable)
    case Some(display) => display
    case None => language
  }

  /**
   * Matching is case-insensitive: a language whose lower-cased name is in the
   * table gets the table's display name; any other keeps its own spelling.
   */
  lemma DisplayLanguageByTable(language: string, k: nat)
    requires k < |LanguageTable| && ToLower(language) == LanguageTable[k].0
    ensures DisplayLanguage(language) == LanguageTable[k].1
  {
    LookupFinds(ToLower(language), LanguageTable, k);
  }

  lemma DisplayLanguageVerbatim(language: string)
    requires forall k :: 0 <= k < |LanguageTable| ==> ToLower(language) != LanguageTable[k].0
    ensures DisplayLanguage(language) == language
  {
  }

  lemma ScssDisplaysAsSass()
    ensures DisplayLanguage("SCSS") == "SASS"
  {
    assert ToLower("SCSS") == "scss" == LanguageTable[10].0;
    DisplayLanguageByTable("SCSS", 10);
  }

  lemma CppDisplaysAsCpp()
    ensures DisplayLanguage("c++") == "C++"
  {
    assert ToLower("c++") == "c++";
  }

  /** One `if (content.includes(...)) technologies.add(...)` line. */
  datatype KeywordRule = KeywordRule(keywords: seq<string>, technology: string)

  const KeywordRules: seq<KeywordRule> := [
    KeywordRule(["react"], "React"),
    KeywordRule(["vue"], "Vue.js"),
    KeywordRule(["angular"], "Angular"),
    KeywordRule(["svelte"], "Svelte"),
    KeywordRule(["next"], "Next.js"),
    KeywordRule(["nuxt"], "Nuxt.js"),
    KeywordRule(["vite"], "Vite"),
    KeywordRule(["webpack"], "Webpack"),
    KeywordRule(["tailwind"], "Tailwind CSS"),
    KeywordRule(["bootstrap"], "Bootstrap"),
    KeywordRule(["node"], "Node.js"),
    KeywordRule(["express"], "Express.js"),
    KeywordRule(["fastapi"], "FastAPI"),
    KeywordRule(["django"], "Django"),
    KeywordRule(["flask"], "Flask"),
    KeywordRule(["docker"], "Docker"),
    KeywordRule(["k8s", "kubernetes"], "Kubernetes")]

  predicate Fires(rule: KeywordRule, content: string) {
    exists k | 0 <= k < |rule.keywords| :: Contains(content, rule.keywords[k])
  }

  /** The technology of each rule, in rule order. */
  function TechnologiesOf(rules: seq<KeywordRule>): (ts: seq<string>)
    ensures |ts| == |rules| && forall k :: 0 <= k < |rules| ==> ts[k] == rules[k].technology
  {
    seq(|rules|, k requires 0 <= k < |rules| => rules[k].technology)
  }

  /** The technologies whose rule fires on `content`, in rule order. */
  function KeywordHits(content: string, rules: seq<KeywordRule>): (hits: seq<string>)
    ensures |hits| <= |rules|
    ensures IsSubsequence(hits, TechnologiesOf(rules))
    ensures forall t :: t in hits ==> exists k :: 0 <= k < |rules| && rules[k].technology == t && Fires(rules[k], content)
    ensures forall k :: 0 <= k < |rules| && Fires(rules[k], content) ==> rules[k].technology in hits
    decreases |rules|
  {
    if rules == [] then []
    else
      var last := rules[|rules| - 1];
      var earlier := KeywordHits(content, rules[..|rules| - 1]);
      assert TechnologiesOf(rules) == TechnologiesOf(rules[..|rules| - 1]) + [last.technology];
      SubsequenceSnoc(earlier, TechnologiesOf(rules[..|rules| - 1]), last.technology);
      if Fires(last, content) then earlier + [last.technology]
      else
        assert earlier + [] == earlier;
        earlier
  }

  /** `` `${repoName} ${description || ''}`.toLowerCase() ``. */
  function Content(repoName: string, description: Option<string>): string {
    ToLower(repoName + " " + description.GetOr(""))
  }

  /** The display names of the languages, in key order (duplicates possible). */
  function LanguageNames(languages: GitHubLanguages): (names: seq<string>)
    ensures |names| == |languages|
  {
    seq(|languages|, i requires 0 <= i < |languages| => DisplayLanguage(languages[i].0))
  }

  // ===========================================================================
  // The insertion-ordered set `technologies`

  predicate NoDuplicates<T(==)>(s: seq<T>) {
    forall i, j :: 0 <= i < j < |s| ==> s[i] != s[j]
  }

  /** `Set.prototype.add`: a new element goes last, a present one changes nothing. */
  function SetAdd(s: seq<string>, x: string): seq<string> {
    if x in s then s else s + [x]
  }

  /** Adds the elements of `xs` one after the other. */
  function InsertAll(s: seq<string>, xs: seq<string>): seq<string>
    decreases |xs|
  {
    if xs == [] then s else SetAdd(InsertAll(s, xs[..|xs| - 1]), xs[|xs| - 1])
  }

  /** Each element of `r` occurs in `xs` before every occurrence of any later element of `r`. */
  predicate OrderedByFirstOccurrence(r: seq<string>, xs: seq<string>) {
    forall i, j, q :: 0 <= i < j < |r| && 0 <= q < |xs| && xs[q] == r[j] ==> r[i] in xs[..q]
  }

  /** Insertion into a set keeps what was there, adds exactly `xs`, and never duplicates. */
  lemma {:induction false} InsertAllSet(s: seq<string>, xs: seq<string>)
    requires NoDuplicates(s)
    ensures NoDuplicates(InsertAll(s, xs))
    ensures forall x :: x in InsertAll(s, xs) <==> x in s || x in xs
    ensures |InsertAll(s, xs)| >= |s| && InsertAll(s, xs)[..|s|] == s
    decreases |xs|
  {
    if xs != [] {
      var front := xs[..|xs| - 1];
      InsertAllSet(s, front);
      assert forall x :: x in xs <==> x in front || x == xs[|xs| - 1] by {
        assert xs == front + [xs[|xs| - 1]];
      }
      var p := InsertAll(s, front);
      assert InsertAll(s, xs) == SetAdd(p, xs[|xs| - 1]);
      if xs[|xs| - 1] !in p {
        assert (p + [xs[|xs| - 1]])[..|s|] == p[..|s|];
      }
    }
  }

  /** Starting from the empty set, the order of the result is the order of first occurrence in `xs`. */
  lemma {:induction false} InsertAllOrder(xs: seq<string>)
    ensures OrderedByFirstOccurrence(InsertAll([], xs), xs)
    decreases |xs|
  {
    if xs != [] {
      var n := |xs|;
      var front := xs[..n - 1];
      var last := xs[n - 1];
      InsertAllOrder(front);
      InsertAllSet([], front);
      var p := InsertAll([], front);
      var r := InsertAll([], xs);
      assert r == SetAdd(p, last);
      forall i, j, q | 0 <= i < j < |r| && 0 <= q < n && xs[q] == r[j]
        ensures r[i] in xs[..q]
      {
        assert r[i] in p;
        if q < n - 1 {
          assert front[q] == xs[q];
          assert front[..q] == xs[..q];
          if j == |p| {
            // r[j] would be the newly added `last`, which does not occur in `front`
            assert false;
          }
        } else {
          assert xs[..q] == front;
        }
      }
    }
  }

  /** Adding `a` and then `b` is adding `a + b`. */
  lemma {:induction false} InsertAllAppend(s: seq<string>, a: seq<string>, b: seq<string>)
    ensures InsertAll(InsertAll(s, a), b) == InsertAll(s, a + b)
    decreases |b|
  {
    if b == [] {
      assert a + b == a;
    } else {
      var n := |b|;
      InsertAllAppend(s, a, b[..n - 1]);
      assert (a + b)[..|a + b| - 1] == a + b[..n - 1];
      assert (a + b)[|a + b| - 1] == b[n - 1];
    }
  }

  /** One more element of `xs` is one more `add`. */
  lemma InsertAllSnoc(s: seq<string>, xs: seq<string>, i: nat)
    requires i < |xs|
    ensures InsertAll(s, xs[..i + 1]) == SetAdd(InsertAll(s, xs[..i]), xs[i])
  {
    assert xs[..i + 1][..i] == xs[..i];
  }

  lemma InsertAllPush(s: seq<string>, xs: seq<string>, x: string)
    ensures InsertAll(s, xs + [x]) == SetAdd(InsertAll(s, xs), x)
  {
    assert (xs + [x])[..|xs|] == xs;
  }

  /** One more rule is one more conditional `add`. */
  lemma KeywordHitsSnoc(content: string, rules: seq<KeywordRule>, k: nat)
    requires k < |rules|
    ensures KeywordHits(content, rules[..k + 1]) ==
            KeywordHits(content, rules[..k]) + (if Fires(rules[k], content) then [rules[k].technology] else [])
  {
    assert rules[..k + 1][..k] == rules[..k];
  }

  // ===========================================================================
  // detectTechnologies

  function Min(a: int, b: int): int {
    if a <= b then a else b
  }

  /**
   * The technologies `detectTechnologies` reports: the language display names
   * first, then the keyword hits, each added to an insertion-ordered set, and
   * the first six of that set.
   */
  function DetectedTechnologies(languages: GitHubLanguages, repoName: string, description: Option<string>): (r: seq<string>)
    ensures |r| <= MaxTechnologies
    ensures NoDuplicates(r)
    ensures forall t :: t in r ==> t in LanguageNames(languages) || t in KeywordHits(Content(repoName, description), KeywordRules)
  {
    FirstDistinct(LanguageNames(languages), KeywordHits(Content(repoName, description), KeywordRules))
  }

  /** The first six entries of the set filled with `names` and then `hits`. */
  function FirstDistinct(names: seq<string>, hits: seq<string>): (r: seq<string>)
    ensures |r| <= MaxTechnologies
    ensures NoDuplicates(r)
    ensures forall t :: t in r ==> t in names || t in hits
  {
    var fromLanguages := InsertAll([], names);
    var all := InsertAll(fromLanguages, hits);
    InsertAllSet([], names);
    InsertAllSet(fromLanguages, hits);
    all[..Min(MaxTechnologies, |all|)]
  }

  /**
   * The result is the first six distinct candidates (language names, then
   * keyword hits), ordered by first occurrence; the language-derived entries
   * come before any keyword-derived one.
   */
  lemma DetectedTechnologiesOrder(languages: GitHubLanguages, repoName: string, description: Option<string>)
    ensures var candidates := LanguageNames(languages) + KeywordHits(Content(repoName, description), KeywordRules);
            var distinct := InsertAll([], candidates);
            && DetectedTechnologies(languages, repoName, description) == distinct[..Min(MaxTechnologies, |distinct|)]
            && OrderedByFirstOccurrence(distinct, candidates)
            && (forall t :: t in distinct <==> t in candidates)
    ensures var fromLanguages := InsertAll([], LanguageNames(languages));
            var r := DetectedTechnologies(languages, repoName, description);
            var m := Min(MaxTechnologies, |fromLanguages|);
            |r| >= m && r[..m] == fromLanguages[..m]
  {
    var names := LanguageNames(languages);
    var hits := KeywordHits(Content(repoName, description), KeywordRules);
    InsertAllAppend([], names, hits);
    InsertAllOrder(names + hits);
    InsertAllSet([], names + hits);
    InsertAllSet([], names);
    InsertAllSet(InsertAll([], names), hits);
  }

  /** No language and no keyword hit: no technology. */
  lemma NothingDetected(repoName: string, description: Option<string>)
    requires KeywordHits(Content(repoName, description), KeywordRules) == []
    ensures DetectedTechnologies([], repoName, description) == []
  {
  }

  /** The first element added to an empty set is the first element of the set. */
  lemma {:induction false} InsertAllFirst(xs: seq<string>)
    requires |xs| > 0
    ensures |InsertAll([], xs)| > 0 && InsertAll([], xs)[0] == xs[0]
    decreases |xs|
  {
    var front := xs[..|xs| - 1];
    if |front| > 0 {
      InsertAllFirst(front);
      assert front[0] == xs[0];
    }
  }

  /** Non-empty language statistics always give at least one technology, the first language's display name. */
  lemma LanguagesGiveTechnologies(languages: GitHubLanguages, repoName: string, description: Option<string>)
    requires |languages| > 0
    ensures |DetectedTechnologies(languages, repoName, description)| > 0
    ensures DetectedTechnologies(languages, repoName, description)[0] == DisplayLanguage(languages[0].0)
  {
    var names := LanguageNames(languages);
    var hits := KeywordHits(Content(repoName, description), KeywordRules);
    InsertAllFirst(names);
    var fromLanguages := InsertAll([], names);
    InsertAllSet([], names);
    InsertAllSet(fromLanguages, hits);
    var all := InsertAll(fromLanguages, hits);
    assert all[..|fromLanguages|] == fromLanguages;
    assert all[0] == names[0];
    assert DetectedTechnologies(languages, repoName, description) == all[..Min(MaxTechnologies, |all|)];
  }

  // ===========================================================================
  // The service

  class GitHubApiService {
    const token: string
    const username: string
    const excludedRepos: seq<string>

    constructor (token: string, username: string, excludedRepos: seq<string>)
      requires token != "" && username != ""
      ensures this.token == token && this.username == username && this.excludedRepos == excludedRepos
    {
      this.token := token;
      this.username := username;
      this.excludedRepos := excludedRepos;
    }

    /** `new GitHubApiService()`: throws unless both the token and the user name are set. */
    static method Create(env: Environment) returns (r: Result<GitHubApiService, string>)
      ensures r.Failure? <==> !Truthy(env.token) || !Truthy(env.username)
      ensures r.Failure? ==> r.error == MissingConfigMessage
      ensures r.Success? ==> fresh(r.value)
      ensures r.Success? ==> r.value.token == env.token.value && r.value.username == env.username.value
      ensures r.Success? ==> r.value.excludedRepos == ExcludedRepos(env.excludeRepos)
    {
      if !Truthy(env.token) || !Truthy(env.username) {
        return Failure(MissingConfigMessage);
      }
      var service := new GitHubApiService(env.token.value, env.username.value, ExcludedRepos(env.excludeRepos));
      return Success(service);
    }

    /** The visibility rule of `fetchRepositories`. */
    predicate IsShown(repo: GitHubRepository) {
      && !repo.fork
      && repo.name !in excludedRepos
      && !StartsWith(repo.name, ".")
      && !repo.archived
      && !repo.disabled
    }

    /** `repos.filter(...)`: exactly the shown repositories, in API order. */
    function FilterRepositories(repos: seq<GitHubRepository>): (r: seq<GitHubRepository>)
      ensures forall k :: 0 <= k < |r| ==> IsShown(r[k])
      ensures forall x :: multiset(r)[x] == if IsShown(x) then multiset(repos)[x] else 0
      ensures IsSubsequence(r, repos)
      decreases |repos|
    {
      if repos == [] then []
      else
        var rest := FilterRepositories(repos[1..]);
        assert repos == [repos[0]] + repos[1..];
        if IsShown(repos[0]) then [repos[0]] + rest else rest
    }

    /** `fetchRepositories`: the filtered listing, or an error prefixed with "Failed to fetch repositories: ". */
    function FetchRepositories(outcome: FetchOutcome<seq<GitHubRepository>>): (r: Result<seq<GitHubRepository>, Exception>)
      ensures r.Success? <==> MakeRequest(outcome).Success?
      ensures r.Success? ==> r.value == FilterRepositories(MakeRequest(outcome).value)
      ensures r.Failure? ==> r.error.Error? && StartsWith(r.error.message, RepositoriesFailurePrefix)
      ensures r.Failure? ==>
                r.error.message[|RepositoriesFailurePrefix|..] == MessageOr(MakeRequest(outcome).error, "Unknown error")
    {
      match MakeRequest(outcome)
      case Success(repos) => Success(FilterRepositories(repos))
      case Failure(e) => Failure(Rethrow(RepositoriesFailurePrefix, e))
    }

    /** `fetchRepositoryLanguages`: never throws; any failure gives the empty object. */
    function FetchRepositoryLanguages(outcome: FetchOutcome<LanguagesJson>): (r: LanguagesJson)
      ensures MakeRequest(outcome).Failure? ==> r == LanguagesObject([])
      ensures MakeRequest(outcome).Success? ==> r == MakeRequest(outcome).value
    {
      match MakeRequest(outcome)
      case Success(body) => body
      case Failure(_) => LanguagesObject([])
    }

    /** `fetchUserProfile`: the profile body, or an error prefixed with "Failed to fetch user profile: ". */
    function FetchUserProfile<P>(outcome: FetchOutcome<P>): (r: Result<P, Exception>)
      ensures r.Success? <==> MakeRequest(outcome).Success?
      ensures r.Success? ==> r.value == MakeRequest(outcome).value
      ensures r.Failure? ==> r.error.Error? && StartsWith(r.error.message, ProfileFailurePrefix)
      ensures r.Failure? ==>
                r.error.message[|ProfileFailurePrefix|..] == MessageOr(MakeRequest(outcome).error, "Unknown error")
    {
      match MakeRequest(outcome)
      case Success(profile) => Success(profile)
      case Failure(e) => Failure(Rethrow(ProfileFailurePrefix, e))
    }

    /** `detectTechnologies`: fills an insertion-ordered set and keeps its first six entries. */
    method DetectTechnologies(languages: GitHubLanguages, repoName: string, description: Option<string>)
      returns (result: seq<string>)
      ensures result == DetectedTechnologies(languages, repoName, description)
      ensures |result| <= MaxTechnologies && NoDuplicates(result)
    {
      var technologies: seq<string> := [];
      var names := LanguageNames(languages);
      var i := 0;
      while i < |languages|
        invariant 0 <= i <= |languages|
        invariant technologies == InsertAll([], names[..i])
      {
        InsertAllSnoc([], names, i);
        technologies := SetAdd(technologies, DisplayLanguage(languages[i].0));
        i := i + 1;
      }
      assert names[..|languages|] == names;
      var content := Content(repoName, description);
      var fromLanguages := technologies;
      var k := 0;
      assert KeywordRules[..0] == [];
      assert technologies == InsertAll(fromLanguages, KeywordHits(content, KeywordRules[..0]));
      while k < |KeywordRules|
        invariant 0 <= k <= |KeywordRules|
        invariant technologies == InsertAll(fromLanguages, KeywordHits(content, KeywordRules[..k]))
      {
        var rule := KeywordRules[k];
        var hitsBefore := KeywordHits(content, KeywordRules[..k]);
        KeywordHitsSnoc(content, KeywordRules, k);
        if Fires(rule, content) {
          assert KeywordHits(content, KeywordRules[..k + 1]) == hitsBefore + [rule.technology];
          InsertAllPush(fromLanguages, hitsBefore, rule.technology);
          technologies := SetAdd(technologies, rule.technology);
        } else {
          assert KeywordHits(content, KeywordRules[..k + 1]) == hitsBefore + [];
          assert hitsBefore + [] == hitsBefore;
        }
        k := k + 1;
      }
      assert KeywordRules[..|KeywordRules|] == KeywordRules;
      result := technologies[..Min(MaxTechnologies, |technologies|)];
    }
  }

  /** The filter is idempotent. */
  lemma {:induction false} FilterIdempotent(service: GitHubApiService, repos: seq<GitHubRepository>)
    ensures service.FilterRepositories(service.FilterRepositories(repos)) == service.FilterRepositories(repos)
    decreases |repos|
  {
    if repos != [] {
      FilterIdempotent(service, repos[1..]);
      var rest := service.FilterRepositories(repos[1..]);
      if service.IsShown(repos[0]) {
        assert ([repos[0]] + rest)[1..] == rest;
      }
    }
  }

  /** A failed listing keeps the failure class of the HTTP status behind the prefix. */
  lemma ListingFailureClassified(service: GitHubApiService, outcome: FetchOutcome<seq<GitHubRepository>>)
    requires outcome.Responded? && !IsOk(outcome.status)
    ensures service.FetchRepositories(outcome).Failure?
    ensures var m := service.FetchRepositories(outcome).error.message;
            ClassifyMessage(m[|RepositoriesFailurePrefix|..]) == Some(KindOfStatus(outcome.status))
  {
  }

  /** A 2xx response raises no status error; the listing fails only if the body could not be read. */
  lemma OkListingSucceeds(service: GitHubApiService, outcome: FetchOutcome<seq<GitHubRepository>>)
    requires outcome.Responded? && IsOk(outcome.status) && outcome.body.Success?
    ensures service.FetchRepositories(outcome) == Success(service.FilterRepositories(outcome.body.value))
  {
  }
}
