/**
 * The records exchanged between the services and the hooks: a repository as
 * listed by the GitHub REST API, its language statistics, the display-ready
 * project, and the `{ data, isLoading, error }` triple the hooks return.
 */
module Types {
  import opened Wrappers

  /** Milliseconds since the epoch; the ISO-8601 text the API sends is not modelled. */
  type Timestamp = int

  /** A thrown JavaScript value: an `Error` carries a message, anything else does not. */
  datatype Exception = Error(message: string) | NonErrorValue

  /** `error instanceof Error ? error.message : otherwise`. */
  function MessageOr(e: Exception, otherwise: string): string {
    match e
    case Error(m) => m
    case NonErrorValue => otherwise
  }

  /** A repository entry of `GET /users/{owner}/repos`. */
  datatype GitHubRepository = GitHubRepository(
    id: int,
    name: string,
    fullName: string,
    description: Option<string>,
    htmlUrl: string,
    cloneUrl: string,
    homepage: Option<string>,
    language: Option<string>,
    languagesUrl: string,
    stargazersCount: int,
    forksCount: int,
    createdAt: Timestamp,
    updatedAt: Timestamp,
    pushedAt: Timestamp,
    fork: bool,
    isPrivate: bool,
    archived: bool,
    disabled: bool,
    topics: seq<string>)

  /**
   * The body of `GET /repos/{full_name}/languages`: language name to byte count,
   * kept in the order in which `Object.keys` lists the keys.
   */
  type GitHubLanguages = seq<(string, int)>

  /** What `response.json()` gave for the languages endpoint: an object, or `null`. */
  datatype LanguagesJson = LanguagesObject(languages: GitHubLanguages) | JsonNull

  /** A display-ready project record. */
  datatype Project = Project(
    id: string,
    name: string,
    description: string,
    technologies: seq<string>,
    githubUrl: string,
    liveUrl: Option<string>,
    featured: bool,
    lastUpdated: Timestamp,
    createdAt: Option<Timestamp>)

  /** The `{ data, isLoading, error }` value the hooks and services return. */
  datatype ApiResponse<T> = ApiResponse(data: Option<T>, isLoading: bool, error: Option<string>)

  /** JavaScript truthiness of an optional string: present and non-empty. */
  predicate Truthy(s: Option<string>) {
    s.Some? && s.value != ""
  }
}
