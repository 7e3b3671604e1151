/**
 * `apiRequest`, the single function through which the frontend talks to the
 * backend: it builds the request headers, joins base URL and path, and turns
 * the response into a value or a thrown error. The network call is a
 * parameter: the model starts from the response that `fetch` resolved with.
 */
module Api {
  import opened Wrappers
  import opened Json
  import opened Text
  import opened TokenStorage

  const DefaultBaseUrl: string := "http://localhost:4000/api"

  /** `import.meta.env.VITE_API_URL ?? 'http://localhost:4000/api'`. */
  function ApiBaseUrl(env: Option<string>): (r: string)
    ensures env.Some? ==> r == env.value
    ensures env.None? ==> r == DefaultBaseUrl
  {
    env.GetOr(DefaultBaseUrl)
  }

  /** `new Headers(init)`: names are case-insensitive and stored lower-cased;
      a name given twice keeps both values, joined by ", ". */
  function InitHeaders(init: seq<(string, string)>): (r: map<string, string>)
    ensures forall k :: k in r <==> exists i :: 0 <= i < |init| && ToLower(init[i].0) == k
    ensures forall i :: 0 <= i < |init| && GivenOnce(init, i) ==> r[ToLower(init[i].0)] == init[i].1
    decreases |init|
  {
    if init == [] then map[]
    else
      var m := InitHeaders(init[..|init| - 1]);
      var (name, value) := init[|init| - 1];
      var key := ToLower(name);
      assert forall i :: 0 <= i < |init| - 1 ==> init[..|init| - 1][i] == init[i];
      if key in m then m[key := m[key] + ", " + value] else m[key := value]
  }

  /** No other entry of `init` has the name of entry `i`, up to case. */
  predicate GivenOnce(init: seq<(string, string)>, i: nat)
    requires i < |init|
  {
    forall j :: 0 <= j < |init| && j != i ==> ToLower(init[j].0) != ToLower(init[i].0)
  }

  /** The headers after the two defaults of `apiRequest`: a JSON content type
      when there is a body, and the bearer token when one is given. Neither
      replaces a header the caller supplied. */
  function WithDefaults(h: map<string, string>, hasBody: bool, token: Option<string>): (r: map<string, string>)
    ensures forall k :: k in h ==> k in r && r[k] == h[k]
    ensures forall k :: k in r ==> k in h || k == "content-type" || k == "authorization"
    ensures "content-type" !in h ==>
      ("content-type" in r <==> hasBody) && (hasBody ==> r["content-type"] == "application/json")
    ensures "authorization" !in h ==>
      ("authorization" in r <==> Filled(token)) && (Filled(token) ==> r["authorization"] == "Bearer " + token.value)
  {
    var withType := if hasBody && "content-type" !in h then h["content-type" := "application/json"] else h;
    if Filled(token) && "authorization" !in withType then withType["authorization" := "Bearer " + token.value]
    else withType
  }

  /** A `Headers` object, mutated in place by `set`. */
  class Headers {
    var entries: map<string, string>

    constructor (init: seq<(string, string)>)
      ensures entries == InitHeaders(init)
    {
      var m: map<string, string> := map[];
      var i := 0;
      while i < |init|
        invariant 0 <= i <= |init|
        invariant m == InitHeaders(init[..i])
      {
        var (name, value) := init[i];
        var key := ToLower(name);
        assert init[..i + 1][..i] == init[..i];
        if key in m {
          m := m[key := m[key] + ", " + value];
        } else {
          m := m[key := value];
        }
        i := i + 1;
      }
      assert init[..i] == init;
      entries := m;
    }

    /** `headers.has(name)`. */
    predicate Has(name: string)
      reads this
    {
      ToLower(name) in entries
    }

    /** `headers.set(name, value)`. */
    method Set(name: string, value: string)
      modifies this
      ensures entries == old(entries)[ToLower(name) := value]
    {
      entries := entries[ToLower(name) := value];
    }
  }

  /** The part of `apiRequest` before `fetch`: the URL and headers it sends.
      `body` is `None` for an undefined or null body; `auth` is `None` when
      the option is omitted, which means true. The token store is read only
      when `auth` holds. `Has` and `Set` look the two names up as
      `content-type` and `authorization`. */
  method PrepareRequest(store: TokenStore, baseUrl: string, path: string, init: seq<(string, string)>,
                        body: Option<string>, auth: Option<bool>) returns (url: string, headers: Headers)
    modifies store
    ensures fresh(headers)
    ensures url == baseUrl + path
    ensures headers.entries == WithDefaults(InitHeaders(init), body.Some?, if auth.GetOr(true) then Read(old(store.State())) else None)
    ensures store.State() == if auth.GetOr(true) then AfterRead(old(store.State())) else old(store.State())
    ensures auth.None? ==> headers.entries == WithDefaults(InitHeaders(init), body.Some?, Read(old(store.State())))
  {
    assert ToLower("Content-Type") == "content-type";
    assert ToLower("Authorization") == "authorization";
    headers := new Headers(init);
    var hasBody := body.Some?;
    if hasBody && !headers.Has("Content-Type") {
      headers.Set("Content-Type", "application/json");
    }
    if auth.GetOr(true) {
      var token := store.GetStoredToken();
      if Filled(token) && !headers.Has("Authorization") {
        headers.Set("Authorization", "Bearer " + token.value);
      }
    }
    url := baseUrl + path;
  }

  /** The response `fetch` resolved with: its status and its body read as
      JSON, `None` when the body is not valid JSON. */
  datatype Fetched = Fetched(status: nat, json: Option<Value>)

  /** The errors `apiRequest` rejects with: the error it builds for a status
      outside 200-299, and the parse error of a body that is not JSON. */
  datatype ApiError = HttpError(message: string, status: nat) | InvalidJson

  datatype Settled = Resolved(value: Value) | Rejected(error: ApiError)

  /** `response.ok`. */
  predicate IsOk(status: nat) {
    200 <= status <= 299
  }

  /** The message of the error built for a failed response. */
  function ErrorMessage(status: nat, json: Option<Value>): (m: string)
    ensures json.Some? && Get(json.value, "message").Str? ==> m == Get(json.value, "message").s
    ensures json.None? || !Get(json.value, "message").Str? ==> m == "Erro " + NatToString(status)
  {
    if json.Some? && Truthy(json.value) && Get(json.value, "message").Str? then Get(json.value, "message").s
    else "Erro " + NatToString(status)
  }

  /** The part of `apiRequest` after `fetch`: the value it resolves with or
      the error it rejects with. `parseJson` is `None` when the option is
      omitted, which means true. */
  function Settle(response: Fetched, parseJson: Option<bool>): (r: Settled)
    ensures r.Rejected? && r.error.HttpError? <==> !IsOk(response.status)
    ensures !IsOk(response.status) ==> r.error == HttpError(ErrorMessage(response.status, response.json), response.status)
    ensures IsOk(response.status) && (!parseJson.GetOr(true) || response.status == 204) ==> r == Resolved(Undefined)
    ensures IsOk(response.status) && parseJson.GetOr(true) && response.status != 204 ==>
      (response.json.Some? ==> r == Resolved(response.json.value)) && (response.json.None? ==> r == Rejected(InvalidJson))
    ensures parseJson.None? && IsOk(response.status) && response.status != 204 && response.json.Some? ==>
      r == Resolved(response.json.value)
  {
    if !IsOk(response.status) then Rejected(HttpError(ErrorMessage(response.status, response.json), response.status))
    else if !parseJson.GetOr(true) || response.status == 204 then Resolved(Undefined)
    else if response.json.None? then Rejected(InvalidJson)
    else Resolved(response.json.value)
  }

  /** The error's status is the response's, and its text names the status
      whenever the body gives no message. */
  lemma {:induction false} ErrorNamesStatus(status: nat, json: Option<Value>)
    requires !IsOk(status)
    requires json.None? || !Get(json.value, "message").Str?
    ensures Settle(Fetched(status, json), None) == Settle(Fetched(status, json), Some(false))
    ensures Settle(Fetched(status, json), None).error.message[..5] == "Erro "
    ensures DecimalValue(Settle(Fetched(status, json), None).error.message[5..]) == status
  {
    var m := Settle(Fetched(status, json), None).error.message;
    assert m == "Erro " + NatToString(status);
    assert m[5..] == NatToString(status);
  }

  /** A bearer header built by `apiRequest` is one that the guard's header
      split reads back as the scheme "Bearer" and the stored token, whenever
      the token holds no space. */
  lemma {:induction false} BearerHeaderRoundTrip(token: string)
    requires token != "" && ' ' !in token
    ensures Split("Bearer " + token, ' ') == ["Bearer", token]
  {
    assert "Bearer " + token == "Bearer" + [' '] + token;
    SplitAtFirst("Bearer", ' ', token);
    assert Split(token, ' ') == [token] by {
      SplitJoin([token], ' ');
      assert Join([token], ' ') == token;
    }
  }
}
