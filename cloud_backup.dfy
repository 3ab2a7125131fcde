/**
 * The cloud backup client (src/lib/cloudBackup.ts) with `fetch` taken out:
 * each call is split into the request it would send (or the error it throws
 * before sending) and the classification of the response it is given.
 * Configuration (`VITE_BACKUP_API_BASE`, `VITE_BACKUP_API_KEY`) enters as
 * `Option<string>` parameters.
 */
module CloudBackup {
  import opened Wrappers
  import opened Types
  import opened SeqOps

  const DefaultApiBase: string := "https://api.anthonychiappone.com"
  const Profile: string := "task-manager-lite"
  const UserId: string := "00000000-0000-0000-0000-000000000001"

  const MissingKeyError: string := "Cloud backup API key is missing. Set VITE_BACKUP_API_KEY."
  const DefaultError: string := "Cloud backup request failed."

  const BackupsPath: string := "/v1/state-backups"
  const LatestPath: string := "/v1/state-backups/latest"
  /** `new URLSearchParams({ profile }).toString()`; the profile needs no escaping. */
  const LatestSearch: string := "profile=task-manager-lite"

  // ---------------------------------------------------------------------
  // Configuration and URLs
  // ---------------------------------------------------------------------

  /** `s.replace(/\/+$/, "")`: every trailing slash removed. */
  function TrimTrailingSlashes(s: string): (r: string)
    ensures |r| <= |s| && r == s[..|r|]
    ensures forall k :: |r| <= k < |s| ==> s[k] == '/'
    ensures r == [] || r[|r| - 1] != '/'
  {
    if |s| > 0 && s[|s| - 1] == '/' then TrimTrailingSlashes(s[..|s| - 1]) else s
  }

  /** A string already free of trailing slashes is a fixed point, whatever slashes are appended. */
  lemma {:induction false} TrimTrailingSlashesPadded(s: string, n: nat)
    requires s == [] || s[|s| - 1] != '/'
    ensures TrimTrailingSlashes(s + seq(n, _ => '/')) == s
  {
    if n > 0 {
      var padded := s + seq(n, _ => '/');
      assert padded[..|padded| - 1] == s + seq(n - 1, _ => '/');
      TrimTrailingSlashesPadded(s, n - 1);
    }
  }

  lemma TrimTrailingSlashesIdempotent(s: string)
    ensures TrimTrailingSlashes(TrimTrailingSlashes(s)) == TrimTrailingSlashes(s)
  {
    var r := TrimTrailingSlashes(s);
    assert r + seq(0, _ => '/') == r;
    TrimTrailingSlashesPadded(r, 0);
  }

  /** `API_BASE`: the configured base, or the default when it is not set, without trailing slashes. */
  function ApiBase(env: Option<string>): (r: string)
    ensures r == [] || r[|r| - 1] != '/'
    ensures env.None? ==> r == DefaultApiBase
    ensures env.Some? ==> r == TrimTrailingSlashes(env.value)
  {
    TrimTrailingSlashes(env.GetOr(DefaultApiBase))
  }

  /** `buildUrl(path, search)`: a query is appended only for a non-empty search string. */
  function BuildUrl(base: string, path: string, search: Option<string>): (r: string)
    ensures search.None? || search.value == "" ==> r == base + path
    ensures search.Some? && search.value != "" ==> r == base + path + "?" + search.value
  {
    base + path + (if search.Some? && search.value != "" then "?" + search.value else "")
  }

  /** When neither base nor path holds a '?', the URL splits back into them and the search string. */
  lemma BuildUrlSplits(base: string, path: string, search: string)
    requires '?' !in base + path && search != ""
    ensures var url := BuildUrl(base, path, Some(search));
      var q := IndexOf(url, '?');
      q == |base + path| && url[..q] == base + path && url[q + 1..] == search
  {
    var url := BuildUrl(base, path, Some(search));
    assert url == (base + path) + ("?" + search);
    assert url[|base + path|] == '?';
    assert '?' !in url[..|base + path|] by {
      assert url[..|base + path|] == base + path;
    }
    var q := IndexOf(url, '?');
  }

  // ---------------------------------------------------------------------
  // Requests
  // ---------------------------------------------------------------------

  type Header = (string, string)

  datatype HttpMethod = Get | Post

  /** The JSON body `createBackup` sends. */
  datatype RequestBody = RequestBody(profile: string, userId: string, payload: BoardState)

  datatype Request = Request(verb: HttpMethod, url: string, headers: seq<Header>, body: Option<RequestBody>)

  /** `isCloudBackupConfigured()`: a key is set and is not empty. */
  predicate IsConfigured(key: Option<string>) {
    key.Some? && key.value != ""
  }

  /** `commonHeaders()`: throws when the key is missing or empty. */
  function CommonHeaders(key: Option<string>): (r: Result<seq<Header>, string>)
    ensures r.Ok? <==> IsConfigured(key)
    ensures r.Err? ==> r.error == MissingKeyError
    ensures r.Ok? ==> r.value == [("Content-Type", "application/json"), ("x-api-key", key.value)]
  {
    if !IsConfigured(key) then Err(MissingKeyError)
    else Ok([("Content-Type", "application/json"), ("x-api-key", key.value)])
  }

  // ---------------------------------------------------------------------
  // Responses
  // ---------------------------------------------------------------------

  /**
   * The fields of a parsed JSON value the client reads: the error fields of
   * a failure and the `payload` of a record. An absent or `null` field is
   * `None`.
   */
  datatype Body = Body(message: Option<string>, error: Option<string>, payload: Option<BoardState>)

  /**
   * What `res.json()` yields, as far as `handleResponse` can tell it apart:
   * `Null` for `null` or a body that does not parse; `Falsy` for the other
   * falsy JSON values (`false`, `0`, `""`); `Truthy` for everything else,
   * with the fields it has (a truthy value that is not an object has none).
   */
  datatype Json = Null | Falsy | Truthy(fields: Body)

  datatype Response = Response(status: int, ok: bool, statusText: string, body: Json)

  /**
   * The error text for a failed response. A truthy body gives its non-empty
   * `message`, else its `error` field if present (even when empty); a `null`
   * body, or a truthy one with neither, falls back on the status text; a
   * falsy body is itself the choice. An empty choice gives the default text.
   */
  function ErrorText(data: Json, statusText: string): (m: string)
    ensures m != ""
    ensures data.Truthy? && data.fields.message.Some? && data.fields.message.value != "" ==> m == data.fields.message.value
    ensures (data.Null? || (data.Truthy? && (data.fields.message.None? || data.fields.message.value == "") && data.fields.error.None?))
      ==> m == if statusText != "" then statusText else DefaultError
    ensures data.Truthy? && (data.fields.message.None? || data.fields.message.value == "") && data.fields.error.Some?
      ==> m == if data.fields.error.value != "" then data.fields.error.value else DefaultError
    ensures data.Falsy? ==> m == DefaultError
  {
    var picked: Option<string> :=
      match data
      case Null => None
      case Falsy => Some("")
      case Truthy(b) => if b.message.Some? && b.message.value != "" then b.message else b.error;
    var message := if picked.Some? then picked.value else statusText;
    if message != "" then message else DefaultError
  }

  /** The fallback is not reached through an empty `error` field: that gives the default text, not the status text. */
  lemma EmptyErrorFieldHidesStatusText(statusText: string)
    ensures ErrorText(Truthy(Body(None, Some(""), None)), statusText) == DefaultError
  {
  }

  /** `handleResponse(res)`: 204 is `null` before any parsing, any other failure throws, and success gives the parsed body. */
  function HandleResponse(res: Response): (r: Result<Json, string>)
    ensures r.Ok? <==> res.status == 204 || res.ok
    ensures res.status == 204 ==> r == Ok(Null)
    ensures res.status != 204 && res.ok ==> r == Ok(res.body)
    ensures r.Err? ==> r.error == ErrorText(res.body, res.statusText)
  {
    if res.status == 204 then Ok(Null)
    else if !res.ok then Err(ErrorText(res.body, res.statusText))
    else Ok(res.body)
  }

  // ---------------------------------------------------------------------
  // The two calls
  // ---------------------------------------------------------------------

  /** A call: the request it sends, if it gets that far, and what it returns or throws. */
  datatype Exchange<T> = Exchange(request: Option<Request>, outcome: Result<T, string>)

  /** The request `createBackup(payload)` sends, or the error it throws first. */
  function CreateRequest(key: Option<string>, base: string, payload: BoardState): (r: Result<Request, string>)
    ensures r.Ok? <==> IsConfigured(key)
    ensures r.Err? ==> r.error == MissingKeyError
    ensures r.Ok? ==>
      && r.value.verb == Post && r.value.url == base + BackupsPath
      && r.value.headers == CommonHeaders(key).value
      && r.value.body == Some(RequestBody(Profile, UserId, payload))
  {
    match CommonHeaders(key)
    case Err(e) => Err(e)
    case Ok(headers) => Ok(Request(Post, BuildUrl(base, BackupsPath, None), headers, Some(RequestBody(Profile, UserId, payload))))
  }

  /**
   * `createBackup(payload)` where `res` is the response the request gets:
   * the stored record (or `null` for a 204), or the error.
   */
  function CreateBackup(key: Option<string>, base: string, payload: BoardState, res: Response): (x: Exchange<Json>)
    ensures x.request.None? <==> !IsConfigured(key)
    ensures x.request.None? ==> x.outcome == Err(MissingKeyError)
    ensures x.request.Some? ==> x.request == Some(CreateRequest(key, base, payload).value) && x.outcome == HandleResponse(res)
  {
    match CreateRequest(key, base, payload)
    case Err(e) => Exchange(None, Err(e))
    case Ok(req) => Exchange(Some(req), HandleResponse(res))
  }

  /** The request `fetchLatestBackup()` sends, or the error it throws first. */
  function FetchRequest(key: Option<string>, base: string): (r: Result<Request, string>)
    ensures r.Ok? <==> IsConfigured(key)
    ensures r.Err? ==> r.error == MissingKeyError
    ensures r.Ok? ==>
      && r.value.verb == Get && r.value.url == base + LatestPath + "?" + LatestSearch
      && r.value.headers == [("Accept", "application/json")] + CommonHeaders(key).value
      && r.value.body.None?
  {
    if !IsConfigured(key) then Err(MissingKeyError)
    else Ok(Request(Get, BuildUrl(base, LatestPath, Some(LatestSearch)), [("Accept", "application/json")] + CommonHeaders(key).value, None))
  }

  /**
   * What `fetchLatestBackup` makes of a response: 404 and 204 are "no
   * backup", then the record's payload, or `null` when the record has none
   * or is not an object.
   */
  function FetchOutcome(res: Response): (r: Result<Option<BoardState>, string>)
    ensures res.status == 404 || res.status == 204 ==> r == Ok(None)
    ensures res.status != 404 && res.status != 204 && !res.ok ==> r == Err(ErrorText(res.body, res.statusText))
    ensures res.status != 404 && res.status != 204 && res.ok ==>
      r == Ok(if res.body.Truthy? then res.body.fields.payload else None)
  {
    if res.status == 404 then Ok(None)
    else match HandleResponse(res)
      case Err(e) => Err(e)
      case Ok(Truthy(record)) => Ok(record.payload)
      case Ok(_) => Ok(None)
  }

  /** `fetchLatestBackup()` where `res` is the response the request gets. */
  function FetchLatestBackup(key: Option<string>, base: string, res: Response): (x: Exchange<Option<BoardState>>)
    ensures x.request.None? <==> !IsConfigured(key)
    ensures x.request.None? ==> x.outcome == Err(MissingKeyError)
    ensures x.request.Some? ==> x.request == Some(FetchRequest(key, base).value) && x.outcome == FetchOutcome(res)
  {
    match FetchRequest(key, base)
    case Err(e) => Exchange(None, Err(e))
    case Ok(req) => Exchange(Some(req), FetchOutcome(res))
  }

  /** Without a key neither call sends anything, and both fail with the configuration error. */
  lemma MissingKeySendsNothing(key: Option<string>, base: string, payload: BoardState, res1: Response, res2: Response)
    requires !IsConfigured(key)
    ensures CreateBackup(key, base, payload, res1) == Exchange(None, Err(MissingKeyError))
    ensures FetchLatestBackup(key, base, res2) == Exchange(None, Err(MissingKeyError))
  {
  }

  /**
   * A backup round trip: when the latest record the server returns carries
   * the payload a backup sent, the fetch yields exactly that board.
   */
  lemma BackupRoundTrip(key: Option<string>, base: string, payload: BoardState, created: Response, latest: Response)
    requires IsConfigured(key)
    requires latest.status == 200 && latest.ok
    requires latest.body.Truthy?
    requires latest.body.fields.payload == Some(CreateBackup(key, base, payload, created).request.value.body.value.payload)
    ensures FetchLatestBackup(key, base, latest).outcome == Ok(Some(payload))
  {
  }
}
