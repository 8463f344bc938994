/**
 * The photo-search facade over the Unsplash API, with its three operating
 * modes: dummy (synthetic results), OAuth (a client built from the stored
 * access token) and public key (a client built from the configured key).
 *
 * The API library is not part of this model: a client is an opaque value
 * tagged with the credential it was built from, and the outcome of a search
 * request is passed in as a function of the client and the request.
 */
module Unsplash {
  import opened Wrappers
  import opened Strings
  import UnsplashAuth

  datatype PhotoUrls = PhotoUrls(thumb: string, small: string, regular: string)

  /** A photo in the shape the editor uses. */
  datatype UnsplashPhoto = UnsplashPhoto(id: string, urls: PhotoUrls, altDescription: Option<string>)

  datatype SearchResult = SearchResult(results: seq<UnsplashPhoto>, total: int)

  // ---------------------------------------------------------------------------
  // Dummy mode

  const ImagesHost: string := "https://images.unsplash.com/"
  const PlusHost: string := "https://plus.unsplash.com/"

  const Photo: string := "photo-"
  const PremiumPhoto: string := "premium_photo-"

  /** A fixed image: its host, photo kind, timestamp and photo id. */
  datatype PoolEntry = PoolEntry(host: string, kind: string, stamp: string, id: string)

  /** A pool URL: host, photo kind, timestamp, photo id, then the quality and the 700-pixel width parameters. */
  function PoolUrl(e: PoolEntry): string {
    e.host + e.kind + e.stamp + e.id + "?q=80&" + "w=700"
  }

  /** The five fixed images. */
  const Pool0: PoolEntry := PoolEntry(ImagesHost, Photo, "1541214113241-", "21578d2d9b62")
  const Pool1: PoolEntry := PoolEntry(PlusHost, PremiumPhoto, "1713793236612-", "50c9bfedbe07")
  const Pool2: PoolEntry := PoolEntry(ImagesHost, Photo, "1678033382919-", "fa907632fdda")
  const Pool3: PoolEntry := PoolEntry(ImagesHost, Photo, "1612392166886-", "ee8475b03af2")
  const Pool4: PoolEntry := PoolEntry(PlusHost, PremiumPhoto, "1683121324502-", "94bd9fa0202e")
  const MockPool: seq<PoolEntry> := [Pool0, Pool1, Pool2, Pool3, Pool4]

  /** The number of synthetic results. */
  const MockCount: nat := 20

  /** Synthetic result `i`: positional id, a pool URL chosen round-robin, a wider `regular` variant, a numbered label. */
  function MockPhoto(query: string, i: nat): (p: UnsplashPhoto)
    ensures |p.id| > 5 && p.id[..5] == "mock-" && AllDigits(p.id[5..])
    ensures p.urls.thumb == PoolUrl(MockPool[i % |MockPool|]) && p.urls.small == p.urls.thumb
    ensures p.altDescription.Some?
  {
    var baseUrl := PoolUrl(MockPool[i % |MockPool|]);
    UnsplashPhoto(
      "mock-" + NatToString(i),
      PhotoUrls(baseUrl, baseUrl, ReplaceFirst(baseUrl, "w=700", "w=1080")),
      Some("Mock " + query + " photo " + NatToString(i + 1)))
  }

  /** What `generateMockResults(query)` returns. */
  function MockResults(query: string): (r: SearchResult)
    ensures |r.results| == MockCount && r.total == MockCount
  {
    SearchResult(seq(MockCount, i requires 0 <= i < MockCount => MockPhoto(query, i)), MockCount)
  }

  /** `generateMockResults(query)`: pushes the 20 synthetic photos in order. */
  method GenerateMockResults(query: string) returns (r: SearchResult)
    ensures r == MockResults(query)
    ensures |r.results| == 20 && r.total == 20
  {
    var results: seq<UnsplashPhoto> := [];
    for i := 0 to 20
      invariant |results| == i
      invariant forall k :: 0 <= k < i ==> results[k] == MockPhoto(query, k)
    {
      var baseUrl := PoolUrl(MockPool[i % |MockPool|]);
      results := results + [UnsplashPhoto(
        "mock-" + NatToString(i),
        PhotoUrls(baseUrl, baseUrl, ReplaceFirst(baseUrl, "w=700", "w=1080")),
        Some("Mock " + query + " photo " + NatToString(i + 1)))];
    }
    r := SearchResult(results, 20);
  }

  /**
   * Result `i` is identified by its position: its id is "mock-" followed by
   * `i` in decimal, and its label numbers it from 1.
   */
  lemma MockIdsArePositions(query: string, i: nat)
    requires i < MockCount
    ensures var p := MockResults(query).results[i];
      && |p.id| > 5 && p.id[..5] == "mock-" && AllDigits(p.id[5..]) && ParseDecimal(p.id[5..]) == i
      && p.id == "mock-" + NatToString(i)
      && p.altDescription == Some("Mock " + query + " photo " + NatToString(i + 1))
  {
    var p := MockResults(query).results[i];
    assert p.id[5..] == NatToString(i);
    DecimalRoundTrip(i);
  }

  /** The synthetic ids are pairwise distinct. */
  lemma MockIdsDistinct(query: string, i: nat, j: nat)
    requires i < MockCount && j < MockCount && i != j
    ensures MockResults(query).results[i].id != MockResults(query).results[j].id
  {
    var r := MockResults(query).results;
    NatToStringInjective(i, j);
    assert r[i].id[5..] == NatToString(i);
    assert r[j].id[5..] == NatToString(j);
  }

  /** The thumbnail and small URLs are pool entry `i % 5`, so the pool repeats every five results. */
  lemma MockCyclesPool(query: string, i: nat)
    requires i < MockCount
    ensures var p := MockResults(query).results[i];
      p.urls.thumb == PoolUrl(MockPool[i % 5]) && p.urls.small == p.urls.thumb
    ensures i + 5 < MockCount ==> MockResults(query).results[i + 5].urls == MockResults(query).results[i].urls
  {
    assert |MockPool| == 5;
    assert MockResults(query).results[i] == MockPhoto(query, i);
    if i + 5 < MockCount {
      assert (i + 5) % 5 == i % 5;
      assert MockResults(query).results[i + 5] == MockPhoto(query, i + 5);
    }
  }

  /** A pool URL whose parts have no `w` holds `w=700` only at its end, so replacing the first `w=700` rewrites exactly that suffix. */
  lemma PoolUrlWidens(e: PoolEntry)
    requires LacksWidth(e)
    ensures var prefix := e.host + e.kind + e.stamp + e.id + "?q=80&";
      && PoolUrl(e) == prefix + "w=700"
      && ReplaceFirst(PoolUrl(e), "w=700", "w=1080") == prefix + "w=1080"
  {
    var u := PoolUrl(e);
    var prefix := e.host + e.kind + e.stamp + e.id + "?q=80&";
    var n := |prefix|;
    assert 'w' !in prefix;
    assert u[n..n + 5] == "w=700";
    forall j | 0 <= j < n ensures !OccursAt(u, "w=700", j) {
      assert u[j..j + 5][0] == u[j] == prefix[j];
    }
    ReplaceFirstSplices(u, "w=700", "w=1080", n);
    assert u[..n] == prefix;
  }

  /** An entry whose host, photo kind, timestamp and photo id contain no `w`. */
  predicate LacksWidth(e: PoolEntry) {
    'w' !in e.host && 'w' !in e.kind && 'w' !in e.stamp && 'w' !in e.id
  }

  lemma HostsLackWidth()
    ensures 'w' !in ImagesHost && 'w' !in PlusHost
  {
  }

  lemma KindsLackWidth()
    ensures 'w' !in Photo && 'w' !in PremiumPhoto
  {
  }

  lemma Pool0LacksWidth() ensures LacksWidth(Pool0) { HostsLackWidth(); KindsLackWidth(); }
  lemma Pool1LacksWidth() ensures LacksWidth(Pool1) { HostsLackWidth(); KindsLackWidth(); }
  lemma Pool2LacksWidth() ensures LacksWidth(Pool2) { HostsLackWidth(); KindsLackWidth(); }
  lemma Pool3LacksWidth() ensures LacksWidth(Pool3) { HostsLackWidth(); KindsLackWidth(); }
  lemma Pool4LacksWidth() ensures LacksWidth(Pool4) { HostsLackWidth(); KindsLackWidth(); }

  /** No host, photo kind, timestamp or photo id in the pool contains a `w`. */
  lemma PoolLacksWidth(k: nat)
    requires k < |MockPool|
    ensures LacksWidth(MockPool[k])
  {
    Pool0LacksWidth();
    Pool1LacksWidth();
    Pool2LacksWidth();
    Pool3LacksWidth();
    Pool4LacksWidth();
  }

  /** The `regular` URL of every synthetic result is its thumbnail URL with `w=700` replaced by the larger `w=1080`. */
  lemma MockRegularIsWider(query: string, i: nat)
    requires i < MockCount
    ensures var p := MockResults(query).results[i];
      exists prefix :: p.urls.thumb == prefix + "w=700" && p.urls.regular == prefix + "w=1080"
  {
    var e := MockPool[i % 5];
    var prefix := e.host + e.kind + e.stamp + e.id + "?q=80&";
    var p := MockResults(query).results[i];
    assert p == MockPhoto(query, i);
    PoolLacksWidth(i % 5);
    PoolUrlWidens(e);
    assert p.urls.thumb == prefix + "w=700";
    assert p.urls.regular == prefix + "w=1080";
  }

  // ---------------------------------------------------------------------------
  // The cached client

  /** The build-time configuration the facade reads (`undefined` is `None`). */
  datatype SearchConfig = SearchConfig(dummyMode: Option<string>, accessKey: Option<string>)

  /** `import.meta.env.VITE_APP_DUMMY_MODE === 'true'`. */
  predicate IsDummyMode(config: SearchConfig): (b: bool)
    ensures b <==> config.dummyMode.Some? && config.dummyMode.value == "true"
    ensures config.dummyMode.None? ==> !b
  {
    config.dummyMode == Some("true")
  }

  /** The credential a client is built from. */
  datatype Credential = OAuthToken(token: string) | PublicKey(key: string)

  /** `createApi({ accessKey })`: an opaque client, tagged with the credential used as its access key. */
  datatype ApiClient = ApiClient(credential: Credential)

  function AccessKeyOf(c: Credential): string {
    match c
    case OAuthToken(t) => t
    case PublicKey(k) => k
  }

  const MissingKeyMessage: string := "Missing VITE_UNSPLASH_ACCESS_KEY - check your .env file"

  /** The credential a new client is built from: the OAuth token first, then the public key. */
  function SelectCredential(token: Option<string>, accessKey: Option<string>): (c: Option<Credential>)
    ensures c.None? <==> !Truthy(token) && !Truthy(accessKey)
    ensures Truthy(token) ==> c == Some(OAuthToken(token.value))
    ensures !Truthy(token) && Truthy(accessKey) ==> c == Some(PublicKey(accessKey.value))
    ensures c.Some? && c.value.PublicKey? ==> !Truthy(token) && c.value.key == accessKey.value
    ensures c.Some? ==> AccessKeyOf(c.value) != ""
  {
    if Truthy(token) then Some(OAuthToken(token.value))
    else if Truthy(accessKey) then Some(PublicKey(accessKey.value))
    else None
  }

  function ClientFor(c: Option<Credential>): (r: Option<ApiClient>)
    ensures r.Some? <==> c.Some?
    ensures r.Some? ==> r.value.credential == c.value
  {
    if c.Some? then Some(ApiClient(c.value)) else None
  }

  /** The module-level `apiClient` cell, with the operations that fill, use and clear it. */
  class ApiClientCache {
    var apiClient: Option<ApiClient>

    constructor ()
      ensures apiClient == None
    {
      apiClient := None;
    }

    /**
     * `getApiClient()`: a cached client is returned as it is; otherwise dummy
     * mode gives no client, and live mode builds and caches one from the
     * current token or public key, or fails when there is neither.
     */
    method GetApiClient(config: SearchConfig, storage: UnsplashAuth.SessionStorage)
      returns (r: Result<Option<ApiClient>, Thrown>)
      requires storage.Valid()
      modifies this
      ensures old(apiClient).Some? ==> r == Success(old(apiClient)) && apiClient == old(apiClient)
      ensures old(apiClient).None? && IsDummyMode(config) ==> r == Success(None) && apiClient == None
      ensures old(apiClient).None? && !IsDummyMode(config) ==>
        var c := SelectCredential(UnsplashAuth.GetAccessToken(storage), config.accessKey);
        && apiClient == ClientFor(c)
        && r == (if c.Some? then Success(apiClient) else Failure(ErrorObject(MissingKeyMessage)))
    {
      if apiClient.Some? {
        return Success(apiClient);
      }
      if IsDummyMode(config) {
        return Success(None);
      }
      var accessKey := config.accessKey;
      var oauthToken := UnsplashAuth.GetAccessToken(storage);
      if Truthy(oauthToken) {
        apiClient := Some(ApiClient(OAuthToken(oauthToken.value)));
      } else if Truthy(accessKey) {
        apiClient := Some(ApiClient(PublicKey(accessKey.value)));
      } else {
        return Failure(ErrorObject(MissingKeyMessage));
      }
      r := Success(apiClient);
    }

    /** `resetApiClient()`: the next `GetApiClient` selects the credential afresh. */
    method ResetApiClient()
      modifies this
      ensures apiClient == None
    {
      apiClient := None;
    }

    /**
     * `searchPhotos(query)`: dummy mode answers with the synthetic results and
     * leaves the cache alone; live mode searches with the cached or newly
     * built client, failing before any request when no client can be built.
     */
    method SearchPhotos(query: string, config: SearchConfig, storage: UnsplashAuth.SessionStorage,
                        provider: (ApiClient, SearchRequest) -> ApiOutcome)
      returns (r: Result<SearchResult, Thrown>)
      requires storage.Valid()
      modifies this
      ensures IsDummyMode(config) ==> r == Success(MockResults(query)) && apiClient == old(apiClient)
      ensures !IsDummyMode(config) ==>
        apiClient == if old(apiClient).Some? then old(apiClient)
                     else ClientFor(SelectCredential(UnsplashAuth.GetAccessToken(storage), config.accessKey))
      ensures !IsDummyMode(config) && apiClient.None? ==> r == Failure(ErrorObject(MissingKeyMessage))
      ensures !IsDummyMode(config) && apiClient.Some? ==>
        r == LiveSearch(provider(apiClient.value, SearchRequest(query, PerPage)))
    {
      if IsDummyMode(config) {
        var mock := GenerateMockResults(query);
        return Success(mock);
      }
      var client := GetApiClient(config, storage);
      if client.Failure? {
        return Failure(client.error);
      }
      if client.value.None? {
        return Failure(ErrorObject(NotInitializedMessage));
      }
      var outcome := provider(client.value.value, SearchRequest(query, PerPage));
      r := LiveSearch(outcome);
    }
  }

  // ---------------------------------------------------------------------------
  // Live search: result mapping and error translation

  const PerPage: nat := 20
  const NotInitializedMessage: string := "API client not initialized"
  const NoResponseMessage: string := "No response from Unsplash API"
  const RateLimitMessage: string := "Rate limit exceeded. " + "Try again later or enable OAuth."

  /** The search request sent to the API. */
  datatype SearchRequest = SearchRequest(query: string, perPage: nat)

  /** The URLs the API reports for a photo (more sizes than the editor keeps). */
  datatype ApiUrls = ApiUrls(raw: string, full: string, regular: string, small: string, thumb: string)

  /** A photo as the API reports it, with fields the editor drops. */
  datatype ApiPhoto = ApiPhoto(id: string, urls: ApiUrls, altDescription: Option<string>,
                               description: Option<string>, width: int, height: int)

  datatype ApiSearchBody = ApiSearchBody(results: seq<ApiPhoto>, total: int)

  /** The library's response: reported errors (possibly), and the body (possibly). */
  datatype ApiResponse = ApiResponse(errors: Option<seq<string>>, response: Option<ApiSearchBody>)

  /** What awaiting the search request comes to: a response, or a rejection with the thrown value. */
  datatype ApiOutcome = Resolved(response: ApiResponse) | Rejected(thrown: Thrown)

  /** The projection of one API photo onto the editor's shape. */
  function ToPhoto(p: ApiPhoto): (r: UnsplashPhoto)
    ensures r.id == p.id && r.altDescription == p.altDescription
    ensures r.urls.thumb == p.urls.thumb && r.urls.small == p.urls.small && r.urls.regular == p.urls.regular
  {
    UnsplashPhoto(p.id, PhotoUrls(p.urls.thumb, p.urls.small, p.urls.regular), p.altDescription)
  }

  /** `results.map(...)`: one photo per API photo, in the same order. */
  function MapPhotos(photos: seq<ApiPhoto>): (r: seq<UnsplashPhoto>)
    ensures |r| == |photos|
    ensures forall i :: 0 <= i < |photos| ==> r[i] == ToPhoto(photos[i])
  {
    if |photos| == 0 then [] else [ToPhoto(photos[0])] + MapPhotos(photos[1..])
  }

  /**
   * The statements inside the `try`: reported errors are thrown as one
   * message joined with ", "; a missing body is thrown; otherwise the
   * results are mapped and the total passed through.
   */
  function TryBody(outcome: ApiOutcome): (r: Result<SearchResult, Thrown>)
    ensures outcome.Rejected? ==> r == Failure(outcome.thrown)
    ensures r.Success? <==> outcome.Resolved? && outcome.response.errors.None? && outcome.response.response.Some?
    ensures r.Success? ==>
      r.value.total == outcome.response.response.value.total &&
      |r.value.results| == |outcome.response.response.value.results|
  {
    match outcome
    case Rejected(e) => Failure(e)
    case Resolved(resp) =>
      if resp.errors.Some? then Failure(ErrorObject(Join(resp.errors.value, ", ")))
      else if resp.response.None? then Failure(ErrorObject(NoResponseMessage))
      else Success(SearchResult(MapPhotos(resp.response.value.results), resp.response.value.total))
  }

  /** The `catch`: an `Error` whose message includes "403" becomes the rate-limit error; anything else is rethrown. */
  function TranslateError(e: Thrown): (t: Thrown)
    ensures e.ErrorObject? && Includes(e.message, "403") ==> t == ErrorObject(RateLimitMessage)
    ensures !(e.ErrorObject? && Includes(e.message, "403")) ==> t == e
    ensures t.ErrorObject? ==> !Includes(t.message, "403")
  {
    RateLimitMessageLacks403();
    if e.ErrorObject? && Includes(e.message, "403") then ErrorObject(RateLimitMessage) else e
  }

  /** The live-mode search with a client, from the outcome of its request. */
  function LiveSearch(outcome: ApiOutcome): (r: Result<SearchResult, Thrown>)
    ensures r.Success? <==> TryBody(outcome).Success?
    ensures r.Success? ==> r == TryBody(outcome)
    ensures r.Failure? && r.error.ErrorObject? ==> !Includes(r.error.message, "403")
  {
    match TryBody(outcome)
    case Success(v) => Success(v)
    case Failure(e) => Failure(TranslateError(e))
  }

  lemma RateLimitMessageLacks403()
    ensures !Includes(RateLimitMessage, "403")
  {
    assert '4' !in "Rate limit exceeded. ";
    assert '4' !in "Try again later or enable OAuth.";
    MissingCharExcludes(RateLimitMessage, "403");
  }

  lemma NoResponseMessageLacks403()
    ensures !Includes(NoResponseMessage, "403")
  {
    assert '4' !in NoResponseMessage;
    MissingCharExcludes(NoResponseMessage, "403");
  }

  /** Translating an error twice is translating it once: the rate-limit message itself does not mention 403. */
  lemma TranslateErrorIdempotent(e: Thrown)
    ensures TranslateError(TranslateError(e)) == TranslateError(e)
  {
    RateLimitMessageLacks403();
  }

  /**
   * Reported errors fail the search with their joined message, replaced by
   * the rate-limit message exactly when one of them mentions 403.
   */
  lemma ProviderErrorsAreJoined(errors: seq<string>, body: Option<ApiSearchBody>)
    ensures LiveSearch(Resolved(ApiResponse(Some(errors), body))) ==
      Failure(ErrorObject(if exists i :: 0 <= i < |errors| && Includes(errors[i], "403")
                          then RateLimitMessage else Join(errors, ", ")))
  {
    var outcome := Resolved(ApiResponse(Some(errors), body));
    var joined := Join(errors, ", ");
    assert TryBody(outcome) == Failure(ErrorObject(joined));
    SeparatorLacks403();
    JoinIncludes(errors, ", ", "403");
    if Includes(joined, "403") {
      assert TranslateError(ErrorObject(joined)) == ErrorObject(RateLimitMessage);
    } else {
      assert TranslateError(ErrorObject(joined)) == ErrorObject(joined);
    }
  }

  /** No character of "403" occurs in the ", " separator. */
  lemma SeparatorLacks403()
    ensures forall k :: 0 <= k < |"403"| ==> "403"[k] !in ", "
  {
  }

  /** A resolved response without errors and without a body fails with the fixed message, untranslated. */
  lemma MissingResponseFails(outcome: ApiOutcome)
    requires outcome.Resolved? && outcome.response.errors.None? && outcome.response.response.None?
    ensures LiveSearch(outcome) == Failure(ErrorObject(NoResponseMessage))
  {
    NoResponseMessageLacks403();
  }

  /** A successful response keeps the length and order of the results and passes the total through. */
  lemma SuccessfulSearchMapsResults(outcome: ApiOutcome)
    requires outcome.Resolved? && outcome.response.errors.None? && outcome.response.response.Some?
    ensures var body := outcome.response.response.value;
      && LiveSearch(outcome).Success?
      && |LiveSearch(outcome).value.results| == |body.results|
      && LiveSearch(outcome).value.total == body.total
      && forall i :: 0 <= i < |body.results| ==> LiveSearch(outcome).value.results[i] == ToPhoto(body.results[i])
  {
  }

  /**
   * A rejected request rethrows its value, except that an `Error` whose
   * message includes 403 becomes the rate-limit error.
   */
  lemma RejectionIsTranslated(e: Thrown)
    ensures e.ErrorObject? && Includes(e.message, "403") ==> LiveSearch(Rejected(e)) == Failure(ErrorObject(RateLimitMessage))
    ensures !(e.ErrorObject? && Includes(e.message, "403")) ==> LiveSearch(Rejected(e)) == Failure(e)
  {
  }
}
