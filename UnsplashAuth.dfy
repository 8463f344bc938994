/**
 * The client side of the OAuth 2.0 authorization-code flow with PKCE
 * (RFC 7636) against Unsplash: building the code verifier, challenge and
 * anti-forgery state, sending the browser to the authorize endpoint, checking
 * the callback and exchanging the code for an access token, all around the
 * browser's session storage.
 *
 * What the login helper takes from its environment is passed in: the random bytes,
 * `btoa` of the SHA-256 digest, the configured client id and redirect URI,
 * the callback's query parameters and the outcome of the token request.
 */
module UnsplashAuth {
  import opened Wrappers
  import opened Strings

  /** An octet, as held by a `Uint8Array` filled by the platform's random source. */
  newtype byte = x: int | 0 <= x < 256

  /** The record kept in session storage between the redirect and the callback. */
  datatype PkceState = PkceState(codeVerifier: string, codeChallenge: string, state: string)

  const TokenKey: string := "unsplash_access_token"
  const PkceKey: string := "unsplash_pkce_state"

  // ---------------------------------------------------------------------------
  // The verifier alphabet

  const Upper: string := "ABCDEFGHIJKLMNOPQRSTUVWXYZ"
  const Lower: string := "abcdefghijklmnopqrstuvwxyz"
  const Digits: string := "0123456789"
  const Marks: string := "-._~"

  /** The 66 characters `generateRandomString` draws from, in the order of its literal. */
  const Chars: string := Upper + Lower + Digits + Marks

  /** The unreserved characters of section 4.1 of RFC 7636: ALPHA / DIGIT / "-" / "." / "_" / "~". */
  predicate IsUnreserved(c: char) {
    ('A' <= c <= 'Z') || ('a' <= c <= 'z') || ('0' <= c <= '9') || c == '-' || c == '.' || c == '_' || c == '~'
  }

  lemma UpperAt(i: nat)
    requires i < 26
    ensures |Upper| == 26 && Upper[i] as int == 'A' as int + i
  {
  }

  lemma LowerAt(i: nat)
    requires i < 26
    ensures |Lower| == 26 && Lower[i] as int == 'a' as int + i
  {
  }

  lemma DigitAt(i: nat)
    requires i < 10
    ensures |Digits| == 10 && Digits[i] as int == '0' as int + i
  {
  }

  /** Every character of the alphabet is unreserved. */
  lemma AlphabetIsUnreserved(i: nat)
    requires i < 66
    ensures |Chars| == 66 && IsUnreserved(Chars[i])
  {
    UpperAt(0); LowerAt(0); DigitAt(0);
    if i < 26 {
      UpperAt(i);
      assert Chars[i] == Upper[i];
    } else if i < 52 {
      LowerAt(i - 26);
      assert Chars[i] == Lower[i - 26];
    } else if i < 62 {
      DigitAt(i - 52);
      assert Chars[i] == Digits[i - 52];
    } else {
      assert Chars[i] == Marks[i - 62];
    }
  }

  /** Every unreserved character is in the alphabet: the alphabet is exactly the unreserved set. */
  lemma UnreservedIsInAlphabet(c: char)
    requires IsUnreserved(c)
    ensures c in Chars
  {
    UpperAt(0); LowerAt(0); DigitAt(0);
    if 'A' <= c <= 'Z' {
      var k := c as int - 'A' as int;
      UpperAt(k);
      assert Chars[k] == Upper[k];
    } else if 'a' <= c <= 'z' {
      var k := c as int - 'a' as int;
      LowerAt(k);
      assert Chars[26 + k] == Lower[k];
    } else if '0' <= c <= '9' {
      var k := c as int - '0' as int;
      DigitAt(k);
      assert Chars[52 + k] == Digits[k];
    } else {
      assert c in Marks;
    }
  }

  // ---------------------------------------------------------------------------
  // generateRandomString

  /** The string `generateRandomString` builds from the random bytes: character `i` is `Chars[bytes[i] % 66]`. */
  function RandomString(randomValues: seq<byte>): (r: string)
    ensures |r| == |randomValues|
  {
    UpperAt(0); LowerAt(0); DigitAt(0);
    seq(|randomValues|, i requires 0 <= i < |randomValues| => Chars[randomValues[i] as int % |Chars|])
  }

  /** A random string consists of unreserved characters only. */
  lemma RandomStringIsUnreserved(randomValues: seq<byte>)
    ensures forall i :: 0 <= i < |RandomString(randomValues)| ==> IsUnreserved(RandomString(randomValues)[i])
  {
    var r := RandomString(randomValues);
    forall i | 0 <= i < |r| ensures IsUnreserved(r[i]) {
      AlphabetIsUnreserved(randomValues[i] as int % 66);
    }
  }

  /**
   * `generateRandomString(length)`, with the `length` bytes that
   * `crypto.getRandomValues` puts into the fresh `Uint8Array` passed in.
   * The index `randomValues[i] % chars.length` is in bounds by construction.
   */
  method GenerateRandomString(length: nat, randomValues: seq<byte>) returns (result: string)
    requires |randomValues| == length
    ensures result == RandomString(randomValues)
    ensures |result| == length
    ensures forall i :: 0 <= i < |result| ==> IsUnreserved(result[i])
  {
    UpperAt(0); LowerAt(0); DigitAt(0);
    result := "";
    for i := 0 to length
      invariant |result| == i
      invariant forall k :: 0 <= k < i ==> result[k] == Chars[randomValues[k] as int % |Chars|]
    {
      result := result + [Chars[randomValues[i] as int % |Chars|]];
    }
    RandomStringIsUnreserved(randomValues);
  }

  // ---------------------------------------------------------------------------
  // sha256: base64 to base64url without padding

  /**
   * The tail of `sha256`: `+` becomes `-`, `/` becomes `_` and every `=` is
   * deleted (section 5 of RFC 4648; Appendix A of RFC 7636).
   */
  function Base64Url(base64: string): (r: string)
    ensures '+' !in r && '/' !in r && '=' !in r
    ensures |r| == |base64| - Count(base64, '=')
  {
    var dashed := ReplaceChar(base64, '+', '-');
    var underscored := ReplaceChar(dashed, '/', '_');
    assert '+' !in underscored && '/' !in underscored;
    ReplaceCharKeepsCount(base64, '+', '-', '=');
    ReplaceCharKeepsCount(dashed, '/', '_', '=');
    RemoveChar(underscored, '=')
  }

  /** The characters of standard base64 with padding (section 4 of RFC 4648). */
  predicate IsBase64Char(c: char) {
    ('A' <= c <= 'Z') || ('a' <= c <= 'z') || ('0' <= c <= '9') || c == '+' || c == '/' || c == '='
  }

  /** The characters of base64url without padding (section 5 of RFC 4648). */
  predicate IsBase64UrlChar(c: char) {
    ('A' <= c <= 'Z') || ('a' <= c <= 'z') || ('0' <= c <= '9') || c == '-' || c == '_'
  }

  /** Base64 input gives base64url output, whose characters are all unreserved. */
  lemma Base64UrlAlphabet(base64: string)
    requires forall i :: 0 <= i < |base64| ==> IsBase64Char(base64[i])
    ensures forall i :: 0 <= i < |Base64Url(base64)| ==> IsBase64UrlChar(Base64Url(base64)[i])
    ensures forall i :: 0 <= i < |Base64Url(base64)| ==> IsUnreserved(Base64Url(base64)[i])
  {
    var underscored := ReplaceChar(ReplaceChar(base64, '+', '-'), '/', '_');
    var r := Base64Url(base64);
    assert r == RemoveChar(underscored, '=');
    forall i | 0 <= i < |r| ensures IsBase64UrlChar(r[i]) && IsUnreserved(r[i]) {
      assert r[i] in underscored;
      var k :| 0 <= k < |underscored| && underscored[k] == r[i];
      assert IsBase64Char(base64[k]);
    }
  }

  /** The character mapping a base64url decoder undoes first: `-` back to `+`, `_` back to `/`. */
  function FromBase64Url(s: string): string {
    ReplaceChar(ReplaceChar(s, '-', '+'), '_', '/')
  }

  /**
   * Base64url loses only the padding: mapping `-` and `_` back gives the
   * base64 input without its `=` characters.
   */
  lemma Base64UrlRoundTrip(base64: string)
    requires '-' !in base64 && '_' !in base64
    ensures FromBase64Url(Base64Url(base64)) == RemoveChar(base64, '=')
  {
    var stripped := RemoveChar(base64, '=');
    var dashed := ReplaceChar(base64, '+', '-');
    RemoveCommutesWithReplace(base64, '=', '+', '-');
    RemoveCommutesWithReplace(dashed, '=', '/', '_');
    assert Base64Url(base64) == ReplaceChar(ReplaceChar(stripped, '+', '-'), '/', '_');
    CharMappingsCancel(stripped);
  }

  /** Unpadded base64 survives the base64url conversion and its inverse unchanged. */
  lemma UnpaddedBase64RoundTrip(base64: string)
    requires '-' !in base64 && '_' !in base64 && '=' !in base64
    ensures FromBase64Url(Base64Url(base64)) == base64
  {
    Base64UrlRoundTrip(base64);
    RemoveAbsentChar(base64, '=');
  }

  /** On a string without `-` and `_`, the base64url character mapping followed by its inverse is the identity. */
  lemma CharMappingsCancel(s: string)
    requires '-' !in s && '_' !in s
    ensures FromBase64Url(ReplaceChar(ReplaceChar(s, '+', '-'), '/', '_')) == s
  {
    var u := ReplaceChar(ReplaceChar(s, '+', '-'), '/', '_');
    var back := FromBase64Url(u);
    forall i | 0 <= i < |s| ensures back[i] == s[i] {
      assert s[i] != '-' && s[i] != '_';
    }
  }

  /**
   * `sha256(plain)`: the base64url form of the digest. `base64Digest` stands
   * for `btoa` of the SHA-256 digest of the UTF-8 encoding of its argument.
   */
  function Sha256(plain: string, base64Digest: string -> string): (r: string)
    ensures '+' !in r && '/' !in r && '=' !in r
  {
    Base64Url(base64Digest(plain))
  }

  // ---------------------------------------------------------------------------
  // Session storage

  /** A value in session storage: the access token as text, or the PKCE record. */
  datatype Stored = Plain(text: string) | PkceEntry(pkce: PkceState)

  type Store = map<string, Stored>

  /** The token key holds text and the PKCE key holds a record (other keys belong to other code). */
  predicate WellFormed(s: Store) {
    && (TokenKey in s ==> s[TokenKey].Plain?)
    && (PkceKey in s ==> s[PkceKey].PkceEntry?)
  }

  /** The browser's `sessionStorage`, a string-keyed store updated in place. */
  class SessionStorage {
    var items: Store

    constructor ()
      ensures items == map[]
    {
      items := map[];
    }

    predicate Valid()
      reads this
    {
      WellFormed(items)
    }

    /** `getItem(key)`: the stored value or `null`. */
    function GetItem(key: string): (r: Option<Stored>)
      reads this
      ensures r.None? <==> key !in items
      ensures r.Some? ==> r.value == items[key]
    {
      if key in items then Some(items[key]) else None
    }

    /** `setItem(key, value)`. */
    method SetItem(key: string, value: Stored)
      modifies this
      ensures items == old(items)[key := value]
    {
      items := items[key := value];
    }

    /** `removeItem(key)`: removing an absent key is allowed and changes nothing. */
    method RemoveItem(key: string)
      modifies this
      ensures items == old(items) - {key}
    {
      items := items - {key};
    }
  }

  /** `getAccessToken()`: the stored token, or `null` when there is none. */
  function GetAccessToken(storage: SessionStorage): (t: Option<string>)
    reads storage
    requires storage.Valid()
    ensures t.Some? <==> TokenKey in storage.items
    ensures t.Some? ==> storage.items[TokenKey] == Plain(t.value)
  {
    match storage.GetItem(TokenKey)
    case Some(v) => Some(v.text)
    case None => None
  }

  /** `isAuthenticated()`: a token is stored (an empty token counts, as `!== null` does). */
  function IsAuthenticated(storage: SessionStorage): (b: bool)
    reads storage
    requires storage.Valid()
    ensures b <==> TokenKey in storage.items
  {
    GetAccessToken(storage) != None
  }

  // ---------------------------------------------------------------------------
  // initiateLogin

  /** The build-time configuration the auth helper reads (`undefined` is `None`). */
  datatype AuthConfig = AuthConfig(clientId: Option<string>, redirectUri: Option<string>)

  const MissingConfigMessage: string := "Missing VITE_UNSPLASH_ACCESS_KEY or VITE_UNSPLASH_REDIRECT_URI"
  const AuthorizeEndpoint: string := "https://unsplash.com/oauth/authorize"

  /** The authorize URL the browser is sent to: its base and its query parameters in order. */
  datatype AuthorizeUrl = AuthorizeUrl(base: string, params: seq<(string, string)>)

  /** The PKCE record built from the verifier's 128 random bytes and the state's 32. */
  function NewPkceState(verifierBytes: seq<byte>, stateBytes: seq<byte>, base64Digest: string -> string): (p: PkceState)
    ensures |p.codeVerifier| == |verifierBytes| && |p.state| == |stateBytes|
    ensures forall i :: 0 <= i < |p.codeVerifier| ==> IsUnreserved(p.codeVerifier[i])
    ensures forall i :: 0 <= i < |p.state| ==> IsUnreserved(p.state[i])
    ensures p.codeChallenge == Sha256(p.codeVerifier, base64Digest)
    ensures '+' !in p.codeChallenge && '/' !in p.codeChallenge && '=' !in p.codeChallenge
  {
    RandomStringIsUnreserved(verifierBytes);
    RandomStringIsUnreserved(stateBytes);
    var verifier := RandomString(verifierBytes);
    PkceState(verifier, Sha256(verifier, base64Digest), RandomString(stateBytes))
  }

  /** The query parameters set on the authorize URL, in the order the source sets them. */
  function AuthorizeParams(clientId: string, redirectUri: string, pkce: PkceState): (ps: seq<(string, string)>)
    ensures |ps| == 7
    ensures forall i, j :: 0 <= i < j < |ps| ==> ps[i].0 != ps[j].0
  {
    [ ("client_id", clientId),
      ("redirect_uri", redirectUri),
      ("response_type", "code"),
      ("scope", "public"),
      ("code_challenge", pkce.codeChallenge),
      ("code_challenge_method", "S256"),
      ("state", pkce.state) ]
  }

  /**
   * `searchParams.get(key)`: the value of the first parameter with that name;
   * nothing exactly when no parameter has that name.
   */
  function Lookup(params: seq<(string, string)>, key: string): (r: Option<string>)
    ensures r.None? <==> forall i :: 0 <= i < |params| ==> params[i].0 != key
    ensures r.Some? ==> exists i :: 0 <= i < |params| && params[i] == (key, r.value)
  {
    if |params| == 0 then None
    else if params[0].0 == key then Some(params[0].1)
    else
      var r := Lookup(params[1..], key);
      assert forall i :: 1 <= i < |params| ==> params[i] == params[1..][i - 1];
      r
  }

  /** `Lookup` finds the first parameter with the name asked for. */
  lemma {:induction false} LookupFindsFirst(params: seq<(string, string)>, key: string, i: nat)
    requires i < |params| && params[i].0 == key
    requires forall j :: 0 <= j < i ==> params[j].0 != key
    ensures Lookup(params, key) == Some(params[i].1)
  {
    if i > 0 {
      LookupFindsFirst(params[1..], key, i - 1);
    }
  }

  /**
   * The authorize URL carries the stored challenge and state, asks for an
   * authorization code with challenge method S256 (section 4.3 of RFC 7636),
   * and names the configured client and redirect URI.
   */
  lemma AuthorizeParamsCarryPkce(clientId: string, redirectUri: string, pkce: PkceState)
    ensures var ps := AuthorizeParams(clientId, redirectUri, pkce);
      && Lookup(ps, "client_id") == Some(clientId)
      && Lookup(ps, "redirect_uri") == Some(redirectUri)
      && Lookup(ps, "response_type") == Some("code")
      && Lookup(ps, "scope") == Some("public")
      && Lookup(ps, "code_challenge") == Some(pkce.codeChallenge)
      && Lookup(ps, "code_challenge_method") == Some("S256")
      && Lookup(ps, "state") == Some(pkce.state)
  {
    var ps := AuthorizeParams(clientId, redirectUri, pkce);
    LookupFindsFirst(ps, "client_id", 0);
    LookupFindsFirst(ps, "redirect_uri", 1);
    LookupFindsFirst(ps, "response_type", 2);
    LookupFindsFirst(ps, "scope", 3);
    LookupFindsFirst(ps, "code_challenge", 4);
    LookupFindsFirst(ps, "code_challenge_method", 5);
    LookupFindsFirst(ps, "state", 6);
  }

  /**
   * `initiateLogin()`: fails when the client id or redirect URI is missing
   * (writing nothing); otherwise stores a fresh PKCE record under the PKCE key
   * and returns the authorize URL the browser is then sent to.
   */
  method InitiateLogin(storage: SessionStorage, config: AuthConfig, verifierBytes: seq<byte>, stateBytes: seq<byte>,
                       base64Digest: string -> string)
    returns (r: Result<AuthorizeUrl, Thrown>)
    requires storage.Valid()
    requires |verifierBytes| == 128 && |stateBytes| == 32
    modifies storage
    ensures storage.Valid()
    ensures !Truthy(config.clientId) || !Truthy(config.redirectUri) ==>
      r == Failure(ErrorObject(MissingConfigMessage)) && storage.items == old(storage.items)
    ensures Truthy(config.clientId) && Truthy(config.redirectUri) ==>
      var pkce := NewPkceState(verifierBytes, stateBytes, base64Digest);
      && storage.items == old(storage.items)[PkceKey := PkceEntry(pkce)]
      && r == Success(AuthorizeUrl(AuthorizeEndpoint, AuthorizeParams(config.clientId.value, config.redirectUri.value, pkce)))
  {
    if !Truthy(config.clientId) || !Truthy(config.redirectUri) {
      return Failure(ErrorObject(MissingConfigMessage));
    }
    var codeVerifier := GenerateRandomString(128, verifierBytes);
    var codeChallenge := Sha256(codeVerifier, base64Digest);
    var state := GenerateRandomString(32, stateBytes);
    var pkceState := PkceState(codeVerifier, codeChallenge, state);
    storage.SetItem(PkceKey, PkceEntry(pkceState));
    r := Success(AuthorizeUrl(AuthorizeEndpoint, AuthorizeParams(config.clientId.value, config.redirectUri.value, pkceState)));
  }

  // ---------------------------------------------------------------------------
  // handleCallback

  /** `{ success, error? }`. */
  datatype CallbackResult = CallbackResult(success: bool, error: Option<string>)

  /** The JSON body of the token request. */
  datatype TokenRequest = TokenRequest(clientId: Option<string>, code: string, redirectUri: Option<string>,
                                       grantType: string, codeVerifier: string)

  /** What the token request comes to: an ok response with its token, another status with its body, or a throw. */
  datatype TokenResponse = TokenOk(accessToken: string) | TokenNotOk(body: string) | TokenThrew(thrown: Thrown)

  const NoCodeMessage: string := "No authorization code received"
  const MissingPkceMessage: string := "Missing PKCE state"
  const StateMismatchMessage: string := "State mismatch - possible CSRF attack"

  function Failed(message: string): CallbackResult {
    CallbackResult(false, Some(message))
  }

  const ExchangeErrorPrefix: string := "Token exchange error: "

  /**
   * The message of a thrown token request: the fixed prefix, then the
   * `Error`'s message (or "Unknown error" for any other thrown value), then
   * the closing reference to the README's backend instructions.
   */
  function ExchangeErrorMessage(e: Thrown): (m: string)
    ensures |ExchangeErrorPrefix| <= |m| && m[..|ExchangeErrorPrefix|] == ExchangeErrorPrefix
    ensures e.ErrorObject? ==> OccursAt(m, e.message, |ExchangeErrorPrefix|)
    ensures !e.ErrorObject? ==> OccursAt(m, "Unknown error", |ExchangeErrorPrefix|)
  {
    var detail := if e.ErrorObject? then e.message else "Unknown error";
    var m := ExchangeErrorPrefix + detail + ". Se README for backend-l\U{F8}sning.";
    assert m[|ExchangeErrorPrefix|..|ExchangeErrorPrefix| + |detail|] == detail;
    m
  }

  /** The token request `handleCallback` sends for a code, given the stored verifier. */
  function ExchangeRequest(config: AuthConfig, code: string, verifier: string): (r: TokenRequest)
    ensures r.grantType == "authorization_code"
    ensures r.code == code && r.codeVerifier == verifier
    ensures r.clientId == config.clientId && r.redirectUri == config.redirectUri
  {
    TokenRequest(config.clientId, code, config.redirectUri, "authorization_code", verifier)
  }

  /**
   * What `handleCallback` returns and what session storage holds afterwards,
   * given the store before, the callback's `code` and `state` and the
   * outcome of the token request.
   */
  function Callback(s: Store, config: AuthConfig, code: Option<string>, state: Option<string>,
                    exchange: TokenRequest -> TokenResponse): (o: (CallbackResult, Store))
    requires WellFormed(s)
    ensures WellFormed(o.1)
    ensures o.0.success <==> o.0.error.None?
    ensures !o.0.success ==> o.1 == s
    ensures o.0.success ==> TokenKey in o.1 && PkceKey !in o.1
  {
    if !Truthy(code) then (Failed(NoCodeMessage), s)
    else if PkceKey !in s then (Failed(MissingPkceMessage), s)
    else
      var pkce := s[PkceKey].pkce;
      if state != Some(pkce.state) then (Failed(StateMismatchMessage), s)
      else
        match exchange(ExchangeRequest(config, code.value, pkce.codeVerifier))
        case TokenNotOk(body) => (Failed("Token exchange failed: " + body), s)
        case TokenThrew(e) => (Failed(ExchangeErrorMessage(e)), s)
        case TokenOk(token) => (CallbackResult(true, None), s[TokenKey := Plain(token)] - {PkceKey})
  }

  /** `handleCallback()`, on session storage, with the callback's query parameters passed in. */
  method HandleCallback(storage: SessionStorage, config: AuthConfig, code: Option<string>, state: Option<string>,
                        exchange: TokenRequest -> TokenResponse)
    returns (r: CallbackResult)
    requires storage.Valid()
    modifies storage
    ensures storage.Valid()
    ensures (r, storage.items) == Callback(old(storage.items), config, code, state, exchange)
    ensures r.success ==> IsAuthenticated(storage)
  {
    if !Truthy(code) {
      return Failed(NoCodeMessage);
    }
    var pkceStateJson := storage.GetItem(PkceKey);
    if pkceStateJson.None? {
      return Failed(MissingPkceMessage);
    }
    var pkceState := pkceStateJson.value.pkce;
    if state != Some(pkceState.state) {
      return Failed(StateMismatchMessage);
    }
    var response := exchange(ExchangeRequest(config, code.value, pkceState.codeVerifier));
    match response {
      case TokenNotOk(body) =>
        r := Failed("Token exchange failed: " + body);
      case TokenThrew(e) =>
        r := Failed(ExchangeErrorMessage(e));
      case TokenOk(token) =>
        storage.SetItem(TokenKey, Plain(token));
        storage.RemoveItem(PkceKey);
        r := CallbackResult(true, None);
    }
  }

  /** The early exits, in order: no code, then no PKCE record, then a state mismatch; none touches storage. */
  lemma CallbackEarlyExits(s: Store, config: AuthConfig, code: Option<string>, state: Option<string>,
                           exchange: TokenRequest -> TokenResponse)
    requires WellFormed(s)
    ensures !Truthy(code) ==> Callback(s, config, code, state, exchange) == (Failed(NoCodeMessage), s)
    ensures Truthy(code) && PkceKey !in s ==> Callback(s, config, code, state, exchange) == (Failed(MissingPkceMessage), s)
    ensures Truthy(code) && PkceKey in s && state != Some(s[PkceKey].pkce.state) ==>
      Callback(s, config, code, state, exchange) == (Failed(StateMismatchMessage), s)
  {
  }

  /** A failed callback, whatever the cause, leaves storage exactly as it was: no token written, the PKCE record kept. */
  lemma CallbackFailureChangesNothing(s: Store, config: AuthConfig, code: Option<string>, state: Option<string>,
                                      exchange: TokenRequest -> TokenResponse)
    requires WellFormed(s)
    ensures var (r, s') := Callback(s, config, code, state, exchange);
      !r.success ==> s' == s && r.error.Some?
  {
  }

  /**
   * The callback succeeds exactly when a code came back, a PKCE record is
   * stored, the state matches it and the token request (carrying the code and
   * the stored verifier) is answered ok; then the token is stored, the PKCE
   * record is removed and no other key changes.
   */
  lemma CallbackSuccess(s: Store, config: AuthConfig, code: Option<string>, state: Option<string>,
                        exchange: TokenRequest -> TokenResponse)
    requires WellFormed(s)
    ensures var (r, s') := Callback(s, config, code, state, exchange);
      r.success <==>
        && Truthy(code) && PkceKey in s && state == Some(s[PkceKey].pkce.state)
        && exchange(ExchangeRequest(config, code.value, s[PkceKey].pkce.codeVerifier)).TokenOk?
    ensures var (r, s') := Callback(s, config, code, state, exchange);
      r.success ==>
        && r.error.None?
        && s' == s[TokenKey := Plain(exchange(ExchangeRequest(config, code.value, s[PkceKey].pkce.codeVerifier)).accessToken)] - {PkceKey}
        && TokenKey in s' && PkceKey !in s'
        && forall k :: k != TokenKey && k != PkceKey ==> (k in s' <==> k in s) && (k in s ==> s'[k] == s[k])
  {
  }

  /** A callback whose state differs from the stored one never stores a token. */
  lemma StateMismatchNeverWritesToken(s: Store, config: AuthConfig, code: Option<string>, state: Option<string>,
                                      exchange: TokenRequest -> TokenResponse)
    requires WellFormed(s) && PkceKey in s && state != Some(s[PkceKey].pkce.state)
    ensures var (r, s') := Callback(s, config, code, state, exchange);
      !r.success && s' == s
  {
  }

  /** The PKCE record is single use: after a successful callback, a second one cannot succeed. */
  lemma CallbackIsSingleUse(s: Store, config: AuthConfig, code: Option<string>, state: Option<string>,
                            exchange: TokenRequest -> TokenResponse,
                            code2: Option<string>, state2: Option<string>, exchange2: TokenRequest -> TokenResponse)
    requires WellFormed(s)
    requires Callback(s, config, code, state, exchange).0.success
    ensures WellFormed(Callback(s, config, code, state, exchange).1)
    ensures var s' := Callback(s, config, code, state, exchange).1;
      !Callback(s', config, code2, state2, exchange2).0.success
  {
  }

  // ---------------------------------------------------------------------------
  // logout

  /** The storage after `logout()`: both keys gone, every other key as it was. */
  function LoggedOut(s: Store): (r: Store)
    ensures TokenKey !in r && PkceKey !in r
    ensures forall k :: k != TokenKey && k != PkceKey ==> (k in r <==> k in s) && (k in s ==> r[k] == s[k])
  {
    s - {TokenKey, PkceKey}
  }

  /** `logout()`: removes the token and any PKCE record, and nothing else. */
  method Logout(storage: SessionStorage)
    requires storage.Valid()
    modifies storage
    ensures storage.Valid()
    ensures storage.items == LoggedOut(old(storage.items))
    ensures !IsAuthenticated(storage)
  {
    storage.RemoveItem(TokenKey);
    storage.RemoveItem(PkceKey);
  }

  /** Logging out twice is logging out once, and logging out keeps storage well formed. */
  lemma LogoutIdempotent(s: Store)
    ensures LoggedOut(LoggedOut(s)) == LoggedOut(s)
    ensures WellFormed(s) ==> WellFormed(LoggedOut(s))
  {
  }
}
