/** The browser's API client: how request URLs are joined to the configured base, the
    header record sent with every request, the bearer token it remembers, and the error a
    failed response turns into. Headers are an insertion-ordered record of strings. */
module Api {
  import opened Wrappers
  import opened Strings
  import opened OrderedMaps

  const ContentType := "Content-Type"
  const JsonType := "application/json"
  const Authorization := "Authorization"
  const BearerPrefix := "Bearer "
  const FailurePrefix := "Request failed: "

  type Headers = OMap<string, string>

  // ---- URLs ----

  /** `base.replace(/\/$/, '')`: one trailing slash, if there is one, is removed. */
  function StripTrailingSlash(base: string): string {
    if |base| > 0 && base[|base| - 1] == '/' then base[..|base| - 1] else base
  }

  /** `apiUrl`: the path alone when no base is configured, else the base without its
      trailing slash followed by the path. */
  function ApiUrl(base: string, path: string): string {
    if base == "" then path else StripTrailingSlash(base) + path
  }

  lemma ApiUrlWithoutBase(path: string)
    ensures ApiUrl("", path) == path
  {
  }

  /** With a base, exactly one trailing slash is dropped before the path: a base ending in
      `/` loses that character and keeps any other before it; any other base is kept whole. */
  lemma ApiUrlWithBase(base: string, path: string)
    requires base != ""
    ensures |base| > 0 && base[|base| - 1] == '/' ==> ApiUrl(base, path) == base[..|base| - 1] + path
    ensures base[|base| - 1] != '/' ==> ApiUrl(base, path) == base + path
    ensures |ApiUrl(base, path)| >= |base| - 1 + |path|
  {
  }

  /** The URL always ends with the path and starts with the stripped base. */
  lemma ApiUrlEndsWithPath(base: string, path: string)
    ensures EndsWith(ApiUrl(base, path), path)
    ensures StartsWith(ApiUrl(base, path), if base == "" then "" else StripTrailingSlash(base))
  {
    var url := ApiUrl(base, path);
    assert url[|url| - |path|..] == path;
    if base != "" {
      var b := StripTrailingSlash(base);
      assert url[..|b|] == b;
    }
  }

  // ---- Headers ----

  /** Object spread of `source` into `m`, key by key in `source`'s order: each key is set
      to its value, overriding what `m` has. */
  function Assign(m: Headers, keys: seq<string>, entries: map<string, string>): (r: Headers)
    requires m.Valid() && forall i :: 0 <= i < |keys| ==> keys[i] in entries
    ensures r.Valid()
    decreases |keys|
  {
    if keys == [] then m else Assign(m.Set(keys[0], entries[keys[0]]), keys[1..], entries)
  }

  /** A spread key takes the source's value; every other key keeps the target's. */
  lemma {:induction false} AssignGet(m: Headers, keys: seq<string>, entries: map<string, string>, k: string)
    requires m.Valid() && forall i :: 0 <= i < |keys| ==> keys[i] in entries
    ensures Assign(m, keys, entries).Get(k) == if k in keys then Some(entries[k]) else m.Get(k)
    decreases |keys|
  {
    if keys != [] {
      var m' := m.Set(keys[0], entries[keys[0]]);
      assert forall i :: 0 <= i < |keys| - 1 ==> keys[1..][i] == keys[i + 1];
      AssignGet(m', keys[1..], entries, k);
      SetGet(m, keys[0], entries[keys[0]], k);
      assert k in keys <==> k == keys[0] || k in keys[1..];
    }
  }

  /** `{ 'Content-Type': 'application/json', ...callerHeaders }`. */
  function BaseHeaders(caller: Headers): (h: Headers)
    requires caller.Valid()
    ensures h.Valid()
  {
    Assign(Empty<string, string>().Set(ContentType, JsonType), caller.keys, caller.entries)
  }

  /** A token attaches a header only when it is a non-empty string. */
  predicate Truthy(token: Option<string>) {
    token.Some? && token.value != ""
  }

  /** The `Authorization` value a remembered token produces, if any. */
  function BearerFor(token: Option<string>): (b: Option<string>)
    ensures b.Some? <==> Truthy(token)
    ensures b.Some? ==> b.value == BearerPrefix + token.value
  {
    if Truthy(token) then Some(BearerPrefix + token.value) else None
  }

  /** What local storage holds after `setAuthToken(token)`: the token, or nothing when it
      is absent or empty. */
  function Persisted(token: Option<string>): Option<string> {
    if Truthy(token) then token else None
  }

  /** A page reload that restores the token from storage attaches the same header as before. */
  lemma ReloadKeepsBearer(token: Option<string>)
    ensures BearerFor(Persisted(token)) == BearerFor(token)
    ensures Persisted(Persisted(token)) == Persisted(token)
  {
  }

  /** The module state of the client: the token in memory and the one in `localStorage`. */
  class ApiClient {
    var authToken: Option<string>
    var storedToken: Option<string>

    constructor (stored: Option<string>)
      ensures authToken.None? && storedToken == stored
    {
      authToken := None;
      storedToken := stored;
    }

    /** `setAuthToken`: remembers the token; stores it when it is truthy and clears the
        stored one otherwise. */
    method SetAuthToken(token: Option<string>)
      modifies this
      ensures authToken == token && storedToken == Persisted(token)
    {
      authToken := token;
      if Truthy(token) {
        storedToken := token;
      } else {
        storedToken := None;
      }
    }

    /** `restoreAuthToken`: reads the token back from storage. */
    method RestoreAuthToken() returns (token: Option<string>)
      modifies this
      ensures token == storedToken && authToken == storedToken && storedToken == old(storedToken)
    {
      authToken := storedToken;
      token := authToken;
    }

    /** The header record `requestJson` sends: the JSON content type unless the caller
        overrides it, every caller header, and `Bearer <token>` as `Authorization` when
        a token is remembered, over whatever the caller passed. */
    method RequestHeaders(caller: Headers) returns (headers: Headers)
      requires caller.Valid()
      ensures headers.Valid()
      ensures headers.Get(ContentType) == if ContentType in caller.entries then caller.Get(ContentType) else Some(JsonType)
      ensures headers.Get(Authorization) == if Truthy(authToken) then BearerFor(authToken) else caller.Get(Authorization)
      ensures forall k :: k != ContentType && k != Authorization ==> headers.Get(k) == caller.Get(k)
    {
      headers := BaseHeaders(caller);
      if Truthy(authToken) {
        headers := headers.Set(Authorization, BearerPrefix + authToken.value);
      }
      forall k | true
        ensures headers.Get(k) == if k == Authorization && Truthy(authToken) then BearerFor(authToken)
          else if k in caller.entries then caller.Get(k)
          else if k == ContentType then Some(JsonType) else None
      {
        BaseHeadersGet(caller, k);
      }
    }
  }

  /** What a key holds after the spread of the caller's headers over the defaults. */
  lemma BaseHeadersGet(caller: Headers, k: string)
    requires caller.Valid()
    ensures BaseHeaders(caller).Get(k) == if k in caller.entries then caller.Get(k)
      else if k == ContentType then Some(JsonType) else None
  {
    var defaults := Empty<string, string>().Set(ContentType, JsonType);
    AssignGet(defaults, caller.keys, caller.entries, k);
    SetGet(Empty<string, string>(), ContentType, JsonType, k);
  }

  // ---- Responses ----

  /** A response as `requestJson` reads it; `body` is `None` when reading the text fails. */
  datatype Response = Response(ok: bool, status: nat, body: Option<string>)

  /** The message of the error a failed response raises: its text, or `Request failed: `
      and the status when the text is empty or unreadable. */
  function FailureMessage(status: nat, body: Option<string>): string {
    var text := body.GetOr("");
    if text != "" then text else FailurePrefix + NatToDecimal(status)
  }

  /** How `requestJson` settles: the body to parse on success, the error message otherwise. */
  function RequestOutcome(res: Response): (r: Result<string, string>)
    ensures r.Ok? <==> res.ok
  {
    if res.ok then Ok(res.body.GetOr("")) else Err(FailureMessage(res.status, res.body))
  }

  /** A failed request always carries a message: the response text when there is one, and
      otherwise a message from which the status can be read back. */
  lemma FailureMessageInformative(status: nat, body: Option<string>)
    ensures FailureMessage(status, body) != ""
    ensures body.Some? && body.value != "" ==> FailureMessage(status, body) == body.value
    ensures body.GetOr("") == "" ==>
      var m := FailureMessage(status, body);
      && StartsWith(m, FailurePrefix)
      && (forall i :: |FailurePrefix| <= i < |m| ==> IsDigit(m[i]))
      && DecimalValue(m[|FailurePrefix|..]) == status
  {
    if body.GetOr("") == "" {
      var m := FailureMessage(status, body);
      var digits := NatToDecimal(status);
      assert m[..|FailurePrefix|] == FailurePrefix;
      assert m[|FailurePrefix|..] == digits;
      DecimalRoundTrip(status);
    }
  }
}
