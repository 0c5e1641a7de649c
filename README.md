# Portfolio data services, modelled in Dafny

This project models the data layer of a personal portfolio web site.

- A GitHub client lists the owner's public repositories and filters out forks, archived, disabled, dot-named and excluded ones. It turns HTTP failures into classified error messages, looks up each repository's language statistics (absorbing any failure) and detects up to six technologies per repository.
- The `useGitHubRepositories` hook converts each shown repository into a display-ready `Project`, sorts the list featured-first and most-recently-updated-first, and publishes `{ data, isLoading, error }` while the component stays mounted.
- A LinkedIn service parses the profile id out of the configured profile URL and keeps its URL settings in mutable fields. It decides which picture URL to show from the results of its network attempts.
- A LinkedIn profile store holds one profile record with fixed defaults, serves it through getters and updates it by a partial merge.

Every network request is an input to the model, given as the outcome it produced (a rejection, or a status with a body). Clocks, locales and environment variables are inputs too. Nothing performs I/O.

Files and modules:

- `wrappers.dfy` (`Wrappers`): `Option` and `Result`.
- `text.dfy` (`Text`): ASCII lower-casing, `includes`/`startsWith`, decimal rendering of integers (`Number.prototype.toString`) and `split`/`join`, with their round trips.
- `types.dfy` (`Types`): the records of `src/types/index.ts` and JavaScript truthiness of optional strings.
- `github.dfy` (`GitHub`): `src/services/github.ts`.
- `projects.dfy` (`Projects`): `src/hooks/useGitHub.ts`.
- `linkedin.dfy` (`LinkedIn`): `src/services/linkedin.ts` and the retry rule of `src/hooks/useLinkedIn.ts`.
- `linkedin_profile.dfy` (`LinkedInProfiles`): `src/services/linkedinProfile.ts`.

The model follows these facts of the code:

- The project list is sorted on `lastUpdated` (the repository's `updated_at`), not on creation time.
- `Project.createdAt` is declared but never set, so it is always absent here.
- There is no README badge extraction and no sample-data fallback in this code, so the model has none either.
- A project is featured when it has more than five stars (six or more). The comment beside that line says "5+".

Modelling choices:

- `detectTechnologies` fills a JavaScript `Set`. It is modelled as a sequence without duplicates that grows by `SetAdd`, which gives the Set's insertion order. Its `switch` is a lookup table kept in the same case order.
- The seventeen `if (content.includes(...))` lines are a table of keyword rules, walked in the same order.
- `projects.sort` is an in-place insertion sort on an array. JavaScript's sort is stable, and so is the insertion sort, so it is specified by a functional stable insertion sort.
- The language statistics object is a sequence of (name, bytes) pairs in `Object.keys` order.
- A `null` languages body takes the hook's catch branch, because `Object.keys(null)` throws there.

## Model

A definition that only computes (the comparator `Projects.Compare`, `GitHub.DisplayLanguage`, `GitHub.StatusMessage`, `LinkedIn.NeedsAlternative`, `LinkedIn.LinkedInService.ExtractProfileId` and `GetLinkedInUrl`, the `LinkedInProfileService` getters and `GetProfileData`) is listed through the row of the lemma or method that states its properties.

| member | source | states |
|---|---|---|
| Text.IntToDecimalRoundTrip | src/hooks/useGitHub.ts:34 | the decimal text of a repository id is an integer literal that parses back to the same id |
| Text.IntToDecimalInjective | src/hooks/useGitHub.ts:34 | different ids never render to the same text |
| Text.JoinSplit | src/services/github.ts:13 | splitting the exclusion setting on commas and joining the parts back gives the setting unchanged |
| Text.SplitJoin | src/services/github.ts:13 | comma-free names joined with commas split back into exactly those names |
| Text.Split | src/services/github.ts:13 | `split` yields at least one part and no part contains the separator |
| GitHub.ExcludedRepos | src/services/github.ts:13 | no setting gives no exclusions; a setting gives its comma-separated names, untrimmed, which join back to the setting |
| GitHub.GitHubApiService.Create | src/services/github.ts:10-18 | construction fails with the configuration message exactly when the token or the username is missing or empty; otherwise the service holds them and the split exclusion list |
| GitHub.GitHubApiService.constructor | src/services/github.ts:10-13 | the three configuration fields take the given values |
| GitHub.MakeRequest | src/services/github.ts:31-43 | a rejected fetch propagates its error; a 2xx response raises no status error: it yields what `response.json()` gives, the body or the error that reading it threw; any other status raises exactly the status message: for 403 the rate-limit text with the local reset time, or "unknown" when the header is missing or empty; for 401 the invalid-token text; otherwise "GitHub API error: <status> <statusText>". That message is of the class of its status |
| GitHub.StatusMessageClassified | src/services/github.ts:31-41 | the 403 message starts "Rate limit exceeded. Resets at ", the 401 message "Invalid GitHub token.", every other status "GitHub API error: " |
| GitHub.ApiErrorMessageRoundTrip | src/services/github.ts:40 | the generic API error message carries the status and status text, and both can be read back from it |
| GitHub.Rethrow | src/services/github.ts:61 | a re-raised error's message is the prefix followed by the original message, or "Unknown error" for a non-Error value |
| GitHub.GitHubApiService.FilterRepositories | src/services/github.ts:53-59 | every kept repository is not a fork, not archived, not disabled, not excluded and not dot-named; each repository satisfying that is kept as often as it occurs; the result is an order-preserving subsequence of the listing |
| GitHub.FilterIdempotent | src/services/github.ts:53-59 | filtering an already filtered listing changes nothing |
| GitHub.GitHubApiService.FetchRepositories | src/services/github.ts:46-63 | success exactly when the request succeeds, giving the filtered listing; any failure is re-raised as "Failed to fetch repositories: " followed by the original message |
| GitHub.ListingFailureClassified | src/services/github.ts:31-62 | behind the "Failed to fetch repositories: " prefix, a listing failure still carries the class of its HTTP status |
| GitHub.OkListingSucceeds | src/services/github.ts:43-59 | a 2xx listing with a readable body always succeeds with the filtered repositories |
| GitHub.GitHubApiService.FetchRepositoryLanguages | src/services/github.ts:65-73 | never raises: a successful request gives its body, any failure gives the empty object |
| GitHub.GitHubApiService.FetchUserProfile | src/services/github.ts:75-81 | the profile body on success; any failure is re-raised as "Failed to fetch user profile: " followed by the original message |
| GitHub.Lookup | src/services/github.ts:89-125 | the switch finds no case exactly when no case label equals the lower-cased language |
| GitHub.LookupFinds | src/services/github.ts:89-125 | with distinct case labels, the case whose label matches is the one taken |
| GitHub.DisplayLanguageByTable | src/services/github.ts:88-122 | a language whose lower-cased name is a case label, in any casing, gets that case's display name |
| GitHub.DisplayLanguageVerbatim | src/services/github.ts:123-124 | any other language name is added verbatim, original casing kept |
| GitHub.ScssDisplaysAsSass | src/services/github.ts:120-122 | "SCSS" is reported as "SASS" |
| GitHub.CppDisplaysAsCpp | src/services/github.ts:108-110 | "c++" is reported as "C++" |
| GitHub.KeywordHits | src/services/github.ts:129-147 | a technology is hit exactly when one of its keywords occurs in the content; the hits are a subsequence of the rules' technologies, so they come in rule order (React, Vue.js, … Kubernetes); either "k8s" or "kubernetes" hits Kubernetes |
| GitHub.SubsequenceSnoc | src/services/github.ts:131-147 | appending the next rule's technology to the rule list keeps the earlier hits a subsequence, with or without that technology as a hit |
| GitHub.InsertAllSet | src/services/github.ts:85-149 | adding to the insertion-ordered set keeps it duplicate-free, holds exactly the old members and the added ones, and never moves existing members |
| GitHub.InsertAllOrder | src/services/github.ts:85-149 | the set lists its members in order of their first addition |
| GitHub.InsertAllAppend | src/services/github.ts:88-147 | adding the language names and then the keyword hits is adding their concatenation |
| GitHub.DetectedTechnologies | src/services/github.ts:84-150 | at most six technologies, none twice, each a language display name or a keyword hit |
| GitHub.DetectedTechnologiesOrder | src/services/github.ts:88-149 | the result is the first six distinct candidates (language names in key order, then keyword hits in rule order) by first occurrence; language-derived entries come before any keyword-derived one |
| GitHub.NothingDetected | src/services/github.ts:84-150 | empty languages and no keyword hit give no technology |
| GitHub.LanguagesGiveTechnologies | src/services/github.ts:88-126 | non-empty languages give at least one technology, the first language's display name first |
| GitHub.GitHubApiService.DetectTechnologies | src/services/github.ts:84-150 | the loops over the language keys and the keyword rules compute exactly the detected technologies, at most six and without duplicates |
| Projects.ToProject | src/hooks/useGitHub.ts:24-55 | id is exactly the canonical decimal text of the repository id (`toString`, no leading zeros); description is the repository's or "No description provided"; liveUrl is the homepage only when non-empty; featured iff the languages body is an object (a failed request counts, as `{}`) and stars exceed 5; technologies are the detected ones for an object body, otherwise (a JSON `null` body) `[language]` or `[]`; lastUpdated is `updated_at` |
| Projects.ProjectIdsDistinct | src/hooks/useGitHub.ts:34 | repositories with different ids get projects with different ids |
| Projects.ProjectsOf | src/hooks/useGitHub.ts:23-57 | exactly one project per repository, in listing order, each converted with its own languages lookup |
| Projects.ConvertAll | src/hooks/useGitHub.ts:23-57 | the conversion loop produces exactly one project per repository, in listing order, each from its own languages lookup |
| Projects.ConvertRepository | src/hooks/useGitHub.ts:24-55 | the per-repository callback produces exactly the project of that repository and its languages lookup |
| Projects.CompareConsistent | src/hooks/useGitHub.ts:60-64 | the comparator is antisymmetric, ties only equal featured flags with equal update times, and its "not before" is transitive |
| Projects.SortedMeansDisplayOrder | src/hooks/useGitHub.ts:60-64 | in a sorted list every featured project precedes every non-featured one, and equally featured ones go newest update first |
| Projects.InsertCorrect | src/hooks/useGitHub.ts:60-64 | inserting into a sorted list keeps it sorted and adds exactly that project |
| Projects.SortForDisplayCorrect | src/hooks/useGitHub.ts:60-64 | the sorted list is in display order, has the same length and is a permutation of the mapped list |
| Projects.InsertLeft | src/hooks/useGitHub.ts:60 | one pass of the in-place sort inserts the next project into the sorted prefix and leaves the rest of the array alone |
| Projects.SortProjects | src/hooks/useGitHub.ts:60-64 | sorting the array in place leaves exactly the stable display order of its old contents |
| Projects.LoadProjects | src/hooks/useGitHub.ts:20-64 | a failed listing yields its error; otherwise one project per shown repository, sorted for display, a permutation of the converted listing |
| Projects.DisplayedProjectsAreShown | src/hooks/useGitHub.ts:20-57 | every displayed project was converted from a repository of the listing response that the listing filter shows |
| Projects.RepositoriesHook.Response | src/hooks/useGitHub.ts:87 | the returned value is its three state cells, and it is either loading with neither data nor error, or settled with exactly one of data and error |
| Projects.RepositoriesHook.constructor | src/hooks/useGitHub.ts:8-18 | on mount the hook is loading with no data and no error, and its run is in flight |
| Projects.RepositoriesHook.Unmount | src/hooks/useGitHub.ts:82-84 | the cleanup clears the mounted flag and keeps the state consistent |
| Projects.RepositoriesHook.Settle | src/hooks/useGitHub.ts:66-77 | after unmount no state cell changes; while mounted, loading ends with the projects as data, or with no data and the error's message ("Failed to fetch repositories" for a non-Error value); exactly one of loading, data and error holds |
| Projects.RepositoriesHook.Run | src/hooks/useGitHub.ts:15-77 | the whole effect: after unmount nothing changes; while mounted, loading ends; a failed listing leaves data null and sets error to the "Failed to fetch repositories: " message; otherwise data is the converted listing sorted for display, a permutation of it, with no error |
| LinkedIn.IdRun | src/services/linkedin.ts:100 | the greedy `[^/?]+` run: a prefix without '/' or '?' that ends at the first such character |
| LinkedIn.FirstMatchFrom | src/services/linkedin.ts:100 | the regex search finds the leftmost position where "linkedin.com/in/" is followed by an id character, or reports none |
| LinkedIn.MatchProfileId | src/services/linkedin.ts:99-101 | null exactly when no "linkedin.com/in/" is followed by an id character; otherwise the maximal id run after the first such occurrence, non-empty and free of '/' and '?' |
| LinkedIn.MatchProfileIdAt | src/services/linkedin.ts:100-101 | the leftmost match determines the extracted id |
| LinkedIn.IdRunOfWord | src/services/linkedin.ts:100 | the id run over a word without '/' or '?' followed by a stop character is that word |
| LinkedIn.DefaultProfileId | src/services/linkedin.ts:99-101 | the default profile URL `https://www.linkedin.com/in/stavlobel/` yields the id "stavlobel" |
| LinkedIn.DirectImageUrl | src/services/linkedin.ts:40 | the probed image URL starts with the media host path and carries the profile id right after it |
| LinkedIn.FirstCapture | src/services/linkedin.ts:132-141 | the first non-empty capture in pattern order, or none exactly when no pattern captured anything |
| LinkedIn.LinkedInService.constructor | src/services/linkedin.ts:11-18 | the profile URL setting or the default URL; the picture URL setting only when non-empty; the fixed fallback image |
| LinkedIn.LinkedInService.ProxyStep | src/services/linkedin.ts:54-92 | the proxy step always returns a picture and is never loading; it carries an error exactly when the request or reading the body threw, and then it is the fallback image with that error's message; a non-ok page, or an ok page whose capture is absent or empty, gives the fallback with no error; a matched page gives the scraped picture |
| LinkedIn.LinkedInService.FetchProfilePicture | src/services/linkedin.ts:25-94 | every result has a picture and is not loading; a non-empty manual picture URL is returned before any request; an error appears only with the fallback image; a rejected probe gives the fallback and its message, an ok probe the direct image URL, otherwise the proxy step decides |
| LinkedIn.LinkedInService.FetchProfilePictureAlternative | src/services/linkedin.ts:107-156 | every result has a picture and is not loading; a non-ok page gives the fallback with "Failed to fetch LinkedIn profile: " and the status; a thrown error gives the fallback with its message; otherwise the first non-empty capture, else the fallback |
| LinkedIn.LinkedInService.UpdateLinkedInUrl | src/services/linkedin.ts:161-170 | afterwards `getLinkedInUrl` returns the new URL; the manual picture URL and the fallback image are unchanged |
| LinkedIn.LinkedInService.SetManualProfilePicUrl | src/services/linkedin.ts:175-177 | afterwards a non-empty manual URL is what `fetchProfilePicture` returns, whatever the network does (`fetchProfilePictureAlternative` never reads it); the profile URL is unchanged |
| LinkedIn.ManualPictureIsFinal | src/hooks/useLinkedIn.ts:23 | a manual picture without "placeholder" in it never triggers the alternative lookup |
| LinkedInProfiles.Merge | src/services/linkedinProfile.ts:54-56 | every field present in the partial takes its new value; every absent field keeps its old value |
| LinkedInProfiles.MergeEmpty | src/services/linkedinProfile.ts:55 | updating with an empty partial leaves the profile unchanged |
| LinkedInProfiles.MergeIdempotent | src/services/linkedinProfile.ts:55 | applying the same partial twice equals applying it once |
| LinkedInProfiles.MergeThen | src/services/linkedinProfile.ts:55 | two successive updates equal one update in which the later partial's fields win |
| LinkedInProfiles.MergeFullPatch | src/services/linkedinProfile.ts:55 | a partial that sets every field yields that record, whatever the profile was |
| LinkedInProfiles.LinkedInProfileService.constructor | src/services/linkedinProfile.ts:20-42 | a fresh store holds the default profile: name "Stav Lobel", company "REE Automotive", eight skills |
| LinkedInProfiles.LinkedInProfileService.UpdateProfileData | src/services/linkedinProfile.ts:54-56 | the stored record becomes the merge of the old record with the partial |
| LinkedInProfiles.GettersReadProfileData | src/services/linkedinProfile.ts:47-112 | each getter returns its own field of the record that `getProfileData` returns |

## Left out

- HTTP transport is not modelled: `fetch`, the request URLs and query strings, the `Accept`, `Authorization`, `User-Agent` and `Origin` headers, `encodeURIComponent`, and `response.json()`/`response.text()`. Each request is an input outcome.
- `parseInt` of the `X-RateLimit-Reset` header and `toLocaleTimeString` depend on the clock and the locale. The rendered reset time is an input string.
- Dates are integers. `new Date(...).getTime()` parsing is not modelled, nor comparator results that are `NaN` for unparsable dates.
- `Promise.all` runs the per-repository lookups concurrently. The model converts repositories one after another, which gives the same list because the lookups are independent. The `console.warn` call in the catch branch is left out.
- A listing body that is not an array (where `repos.filter` would throw) is not modelled. The listing body is typed as a sequence.
- Repository ids are unbounded integers. JavaScript's rendering of numbers beyond 2^53, and of non-integers, is not modelled.
- `useGitHubProfile` (src/hooks/useGitHub.ts:90 onwards) is not part of this model. It repeats the loading/error pattern for the profile request.
- `src/hooks/useLinkedIn.ts` and `src/hooks/useLinkedInProfile.ts` are not part of this model, apart from the retry rule (`NeedsAlternative`). They are React glue around the two services.
- Text.ToLower: lower-cases ASCII letters only, because JavaScript's full Unicode case mapping is not modelled.
- LinkedIn.LinkedInService.FetchProfilePicture: the HTML scraping regexes are not modelled. The page's captures are inputs, one per pattern, and this lookup uses only the first pattern's capture, as the source does.
- LinkedIn.LinkedInService.FetchProfilePictureAlternative: the three scraping patterns are not modelled. Their captures are inputs in pattern order.
- LinkedInProfiles.LinkedInProfileService.UpdateProfileData: a partial that holds a key with an explicit `undefined` value (which JavaScript's spread copies) is not modelled. A field is either present with a value or absent.
- `getProfileData` and `getSkills` return the live stored object and array. Mutation through those references (aliasing) is not modelled, because records are values here.
- The retry in `useLinkedIn` and both hooks' `setState` sequencing are not modelled beyond the retry predicate.
- UI components, assets and the deployment script are rendering and build I/O.
