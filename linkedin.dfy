/**
 * `src/services/linkedin.ts`: the profile-id parse of the configured profile
 * URL, the mutable URL fields, and the outcome rules of the two picture
 * lookups over abstract network results, plus the retry rule of
 * `src/hooks/useLinkedIn.ts`.
 */
module LinkedIn {
  import opened Wrappers
  import opened Text
  import opened Types

  /** `https://www.linkedin.com/in/stavlobel/`, written as host, marker and profile path. */
  const DefaultProfileUrl := DefaultProfileHost + ProfileMarker + DefaultProfilePath
  const DefaultProfileHost := "https://www."
  const DefaultProfilePath := "stavlobel/"
  const FallbackImage :=
    "https://ui-avatars.com/api/?name=Stav+Lobel" + "&background=10b981&color=ffffff&size=320&bold=true&font-size=0.4"

  /** The literal part of the pattern `linkedin\.com\/in\/([^/?]+)`. */
  const ProfileMarker := "linkedin.com/in/"

  /** The HEAD-probed image URL is the id framed by these two pieces. */
  const DirectImagePrefix := "https://media.licdn.com/dms/image/"
  const DirectImageSuffix :=
    "/profile-displayphoto-shrink_800_800/0/0" + "?e=1234567890&v=beta&t=your-token"

  const UnknownError := "Unknown error"
  const AlternativeFailurePrefix := "Failed to fetch LinkedIn profile: "

  // ===========================================================================
  // Profile id

  /** Characters that end the captured id: the class `[^/?]` excludes them. */
  predicate IdStop(c: char) {
    c == '/' || c == '?'
  }

  /** The greedy `[^/?]+` run at the start of `s` (possibly empty). */
  function IdRun(s: string): (r: string)
    ensures StartsWith(s, r)
    ensures forall i :: 0 <= i < |r| ==> !IdStop(r[i])
    ensures |r| < |s| ==> IdStop(s[|r|])
  {
    if s == [] || IdStop(s[0]) then [] else [s[0]] + IdRun(s[1..])
  }

  /** The whole pattern matches at position `p`: the marker, then at least one id character. */
  predicate MarkerMatchAt(s: string, p: nat) {
    p + |ProfileMarker| < |s| && StartsWith(s[p..], ProfileMarker) && !IdStop(s[p + |ProfileMarker|])
  }

  /** `p` is the leftmost position where the pattern matches. */
  predicate IsFirstMatch(s: string, p: nat) {
    MarkerMatchAt(s, p) && forall q :: 0 <= q < p ==> !MarkerMatchAt(s, q)
  }

  /** The leftmost match position at or after `p`, as a left-to-right regex search finds it. */
  function FirstMatchFrom(s: string, p: nat): (r: Option<nat>)
    requires p <= |s|
    ensures r.None? <==> forall q :: p <= q <= |s| ==> !MarkerMatchAt(s, q)
    ensures r.Some? ==> p <= r.value < |s| && MarkerMatchAt(s, r.value)
    ensures r.Some? ==> forall q :: p <= q < r.value ==> !MarkerMatchAt(s, q)
    decreases |s| - p
  {
    if p == |s| then None
    else if MarkerMatchAt(s, p) then Some(p)
    else FirstMatchFrom(s, p + 1)
  }

  /**
   * `url.match(/linkedin\.com\/in\/([^/?]+)/)`, group 1: the maximal run of
   * id characters after the first marker occurrence that is followed by one.
   */
  function MatchProfileId(url: string): (r: Option<string>)
    ensures r.None? <==> forall q :: 0 <= q <= |url| ==> !MarkerMatchAt(url, q)
    ensures r.Some? ==> exists p: nat :: IsFirstMatch(url, p) && r.value == IdRun(url[p + |ProfileMarker|..])
    ensures r.Some? ==> r.value != [] && forall i :: 0 <= i < |r.value| ==> !IdStop(r.value[i])
  {
    match FirstMatchFrom(url, 0)
    case None => None
    case Some(p) =>
      var rest := url[p + |ProfileMarker|..];
      assert rest[0] == url[p + |ProfileMarker|];
      assert IsFirstMatch(url, p);
      Some(IdRun(rest))
  }

  /** A leftmost match determines the parse. */
  lemma MatchProfileIdAt(url: string, p: nat)
    requires IsFirstMatch(url, p)
    ensures MatchProfileId(url) == Some(IdRun(url[p + |ProfileMarker|..]))
  {
    var r := FirstMatchFrom(url, 0);
    assert r.Some?;
    assert !(r.value < p) && !(p < r.value);
  }

  /** The run stops exactly at the end of a stop-free word followed by a stop (or nothing). */
  lemma {:induction false} IdRunOfWord(w: string, tail: string)
    requires forall i :: 0 <= i < |w| ==> !IdStop(w[i])
    requires tail == [] || IdStop(tail[0])
    ensures IdRun(w + tail) == w
  {
    if w != [] {
      assert (w + tail)[1..] == w[1..] + tail;
      IdRunOfWord(w[1..], tail);
    } else {
      assert w + tail == tail;
    }
  }

  lemma DefaultPathRun()
    ensures IdRun(DefaultProfilePath) == "stavlobel"
  {
    assert DefaultProfilePath == "stavlobel" + "/";
    IdRunOfWord("stavlobel", "/");
  }

  /** The id of the default profile URL is `stavlobel`. */
  lemma DefaultProfileId()
    ensures MatchProfileId(DefaultProfileUrl) == Some("stavlobel")
  {
    var url := DefaultProfileUrl;
    var h := |DefaultProfileHost|;
    forall q | 0 <= q < h
      ensures !MarkerMatchAt(url, q)
    {
      assert url[q] == DefaultProfileHost[q];
      assert url[q..][0] == url[q];
    }
    assert url[h..][..|ProfileMarker|] == ProfileMarker;
    assert url[h + |ProfileMarker|..] == DefaultProfilePath;
    assert url[h + |ProfileMarker|] == DefaultProfilePath[0];
    assert IsFirstMatch(url, h);
    MatchProfileIdAt(url, h);
    DefaultPathRun();
  }

  // ===========================================================================
  // Picture lookups

  /** What the HEAD probe of the direct image URL gave. */
  datatype ProbeOutcome = ProbeRejected(reason: Exception) | ProbeAnswered(ok: bool)

  /**
   * What the proxied page request gave: a rejection, or a status and the
   * reading of the body — a throw, or the capture of the picture pattern
   * (`None` when it does not match).
   */
  datatype PageOutcome =
    | PageRejected(reason: Exception)
    | PageAnswered(ok: bool, status: int, scraped: Result<seq<Option<string>>, Exception>)

  function DirectImageUrl(id: string): (u: string)
    ensures |u| == |DirectImagePrefix| + |id| + |DirectImageSuffix|
    ensures StartsWith(u, DirectImagePrefix) && u[|DirectImagePrefix|..|DirectImagePrefix| + |id|] == id
  {
    DirectImagePrefix + id + DirectImageSuffix
  }

  /** A result with picture `data` and no error. */
  function Found(data: string): ApiResponse<string> {
    ApiResponse(Some(data), false, None)
  }

  /** The first capture that is present and non-empty, scanning the patterns in order. */
  function FirstCapture(captures: seq<Option<string>>): (r: Option<string>)
    ensures r.None? <==> forall k :: 0 <= k < |captures| ==> !Truthy(captures[k])
    ensures r.Some? ==> exists k :: 0 <= k < |captures| && captures[k] == r && Truthy(r)
                         && forall m :: 0 <= m < k ==> !Truthy(captures[m])
  {
    if captures == [] then None
    else if Truthy(captures[0]) then captures[0]
    else
      var r := FirstCapture(captures[1..]);
      assert forall k :: 1 <= k < |captures| ==> captures[k] == captures[1..][k - 1];
      if r.Some? then
        var k :| 0 <= k < |captures[1..]| && captures[1..][k] == r && Truthy(r)
                  && forall m :: 0 <= m < k ==> !Truthy(captures[1..][m]);
        assert captures[k + 1] == r;
        r
      else r
  }

  /**
   * `useLinkedIn`'s retry rule: the alternative lookup runs when the first
   * result has an error message, has no picture, or is a placeholder.
   */
  predicate NeedsAlternative(result: ApiResponse<string>) {
    Truthy(result.error) || !Truthy(result.data) || Contains(result.data.value, "placeholder")
  }

  class LinkedInService {
    var linkedinUrl: string
    var manualProfilePicUrl: Option<string>
    const fallbackImage: string

    /** The two settings are the profile-URL and picture-URL environment variables. */
    constructor (profileUrlSetting: Option<string>, profilePicSetting: Option<string>)
      ensures Truthy(profileUrlSetting) ==> linkedinUrl == profileUrlSetting.value
      ensures !Truthy(profileUrlSetting) ==> linkedinUrl == DefaultProfileUrl
      ensures Truthy(profilePicSetting) ==> manualProfilePicUrl == profilePicSetting
      ensures !Truthy(profilePicSetting) ==> manualProfilePicUrl.None?
      ensures fallbackImage == FallbackImage
    {
      linkedinUrl := if Truthy(profileUrlSetting) then profileUrlSetting.value else DefaultProfileUrl;
      manualProfilePicUrl := if Truthy(profilePicSetting) then profilePicSetting else None;
      fallbackImage := FallbackImage;
    }

    function ExtractProfileId(): Option<string>
      reads this
    {
      MatchProfileId(linkedinUrl)
    }

    /** The fallback picture, with `error` set when an exception was caught. */
    function Fallback(error: Option<string>): ApiResponse<string> {
      ApiResponse(Some(fallbackImage), false, error)
    }

    /** The proxy step of `fetchProfilePicture`: the scraped picture, else the fallback. */
    function ProxyStep(page: PageOutcome): (r: ApiResponse<string>)
      ensures !r.isLoading && r.data.Some?
      ensures r.error.Some? <==> page.PageRejected? || (page.ok && page.scraped.Failure?)
      ensures page.PageRejected? ==> r == Fallback(Some(MessageOr(page.reason, UnknownError)))
      ensures (page.PageAnswered? && page.ok && page.scraped.Success?
               && |page.scraped.value| > 0 && Truthy(page.scraped.value[0]))
              ==> r == Found(page.scraped.value[0].value)
      ensures page.PageAnswered? && !page.ok ==> r == Fallback(None)
      ensures page.PageAnswered? && page.ok && page.scraped.Failure? ==>
                r == Fallback(Some(MessageOr(page.scraped.error, UnknownError)))
      ensures (page.PageAnswered? && page.ok && page.scraped.Success?
               && !(|page.scraped.value| > 0 && Truthy(page.scraped.value[0])))
              ==> r == Fallback(None)
    {
      match page
      case PageRejected(e) => Fallback(Some(MessageOr(e, UnknownError)))
      case PageAnswered(ok, _, scraped) =>
        if !ok then Fallback(None)
        else match scraped
          case Failure(e) => Fallback(Some(MessageOr(e, UnknownError)))
          case Success(captures) =>
            if |captures| > 0 && Truthy(captures[0]) then Found(captures[0].value) else Fallback(None)
    }

    /**
     * `fetchProfilePicture`: a manual picture URL wins outright; otherwise a
     * profile id leads to a HEAD probe of the direct image URL, then the
     * proxied page is scraped (only its first pattern's capture is used), and
     * the fallback image ends the chain. A thrown error gives the fallback
     * with the error's message.
     */
    function FetchProfilePicture(probe: ProbeOutcome, page: PageOutcome): (r: ApiResponse<string>)
      reads this
      ensures !r.isLoading && r.data.Some?
      ensures Truthy(manualProfilePicUrl) ==> r == Found(manualProfilePicUrl.value)
      ensures r.error.Some? ==> r.data == Some(fallbackImage) && !Truthy(manualProfilePicUrl)
      ensures !Truthy(manualProfilePicUrl) && MatchProfileId(linkedinUrl).Some? ==>
                (probe.ProbeRejected? ==> r == Fallback(Some(MessageOr(probe.reason, UnknownError))))
                && (probe == ProbeAnswered(true) ==> r == Found(DirectImageUrl(MatchProfileId(linkedinUrl).value)))
                && (probe == ProbeAnswered(false) ==> r == ProxyStep(page))
      ensures !Truthy(manualProfilePicUrl) && MatchProfileId(linkedinUrl).None? ==> r == ProxyStep(page)
    {
      if Truthy(manualProfilePicUrl) then Found(manualProfilePicUrl.value)
      else match ExtractProfileId()
        case None => ProxyStep(page)
        case Some(id) =>
          match probe
          case ProbeRejected(e) => Fallback(Some(MessageOr(e, UnknownError)))
          case ProbeAnswered(ok) => if ok then Found(DirectImageUrl(id)) else ProxyStep(page)
    }

    /**
     * `fetchProfilePictureAlternative`: a non-ok page throws with its status;
     * otherwise the first pattern whose capture is non-empty gives the
     * picture, and the fallback image ends the loop.
     */
    method FetchProfilePictureAlternative(page: PageOutcome) returns (r: ApiResponse<string>)
      ensures !r.isLoading && r.data.Some?
      ensures page.PageRejected? ==> r == Fallback(Some(MessageOr(page.reason, UnknownError)))
      ensures page.PageAnswered? && !page.ok ==>
                r == Fallback(Some(AlternativeFailurePrefix + IntToDecimal(page.status)))
      ensures page.PageAnswered? && page.ok && page.scraped.Failure? ==>
                r == Fallback(Some(MessageOr(page.scraped.error, UnknownError)))
      ensures page.PageAnswered? && page.ok && page.scraped.Success? ==>
                match FirstCapture(page.scraped.value)
                case Some(picture) => r == Found(picture)
                case None => r == Fallback(None)
    {
      match page
      case PageRejected(e) =>
        return Fallback(Some(MessageOr(e, UnknownError)));
      case PageAnswered(ok, status, scraped) =>
        if !ok {
          return Fallback(Some(AlternativeFailurePrefix + IntToDecimal(status)));
        }
        if scraped.Failure? {
          return Fallback(Some(MessageOr(scraped.error, UnknownError)));
        }
        var captures := scraped.value;
        var k := 0;
        while k < |captures|
          invariant 0 <= k <= |captures|
          invariant forall m :: 0 <= m < k ==> !Truthy(captures[m])
        {
          if Truthy(captures[k]) {
            return Found(captures[k].value);
          }
          k := k + 1;
        }
        return Fallback(None);
    }

    function GetLinkedInUrl(): string
      reads this
    {
      linkedinUrl
    }

    method UpdateLinkedInUrl(url: string)
      modifies this`linkedinUrl
      ensures GetLinkedInUrl() == url
      ensures manualProfilePicUrl == old(manualProfilePicUrl)
    {
      linkedinUrl := url;
    }

    /** After this, any non-empty `url` is what `fetchProfilePicture` returns, whatever the network does. */
    method SetManualProfilePicUrl(url: string)
      modifies this`manualProfilePicUrl
      ensures manualProfilePicUrl == Some(url)
      ensures linkedinUrl == old(linkedinUrl)
      ensures url != "" ==> forall probe, page :: FetchProfilePicture(probe, page) == Found(url)
    {
      manualProfilePicUrl := Some(url);
    }
  }

  /** A manual picture without "placeholder" in it never triggers the alternative lookup. */
  lemma ManualPictureIsFinal(service: LinkedInService, probe: ProbeOutcome, page: PageOutcome)
    requires Truthy(service.manualProfilePicUrl) && !Contains(service.manualProfilePicUrl.value, "placeholder")
    ensures !NeedsAlternative(service.FetchProfilePicture(probe, page))
  {
  }
}
