/**
 * The HTTP client of the original frontend (`client.js`): the token kept in local storage,
 * request headers, and how `request` turns a response (or a failed fetch) into a parsed
 * body or an error message.
 */
module ApiClient {
  import opened Wrappers
  import opened Strings
  import opened Images
  import opened OrderedMap

  const JsonType: string := "application/json"
  const LoginExpired: string := "登录已过期，请重新登录"
  const BalanceTooLow: string := "粒子币余额不足"
  const Timeout504: string := "TIMEOUT_504"
  const RequestTimedOut: string := "请求超时，请稍后重试"

  /** A parsed JSON body, as far as the client inspects it: its `detail` field. */
  datatype Body = Body(detail: Option<string>)

  /** What `fetch` did: the request was aborted by the timeout, failed otherwise, or got a response. */
  datatype Fetched =
    | Aborted
    | FetchFailed(message: string)
    /** `body` is `None` when `response.json()` throws. */
    | Responded(status: int, body: Option<Body>)

  /** The parsed body, an error with its message, or the error a body that is not JSON throws, passed on unchanged. */
  datatype Outcome = Ok(body: Body) | Failed(message: string) | Unparsable

  predicate IsOk(status: int) {
    200 <= status <= 299
  }

  /** `请求失败: <status>` */
  function FailureMessage(status: int): string {
    "请求失败: " + (if status >= 0 then NatToString(status) else "-" + NatToString(-status))
  }

  /**
   * The ladder of `request`, first match wins: 401 (login expired), 402 (the server's
   * detail or the balance message), 504 (`TIMEOUT_504`), any other non-2xx (the detail or
   * `请求失败: <status>`), and otherwise the parsed body; an abort becomes the timeout
   * message and any other error passes through unchanged.
   */
  function Respond(f: Fetched): (o: Outcome)
    ensures f.Aborted? ==> o == Failed(RequestTimedOut)
    ensures f.FetchFailed? ==> o == Failed(f.message)
    ensures f.Responded? && f.status == 401 ==> o == Failed(LoginExpired)
    ensures f.Responded? && f.status == 402 && f.body.Some? ==>
      o == Failed(if Truthy(f.body.value.detail) then f.body.value.detail.value else BalanceTooLow)
    ensures o.Unparsable? <==> f.Responded? && f.body.None? && (f.status == 402 || IsOk(f.status))
    ensures f.Responded? && f.status == 504 ==> o == Failed(Timeout504)
    ensures f.Responded? && f.status !in {401, 402, 504} && !IsOk(f.status) ==>
      o == Failed(if f.body.Some? && Truthy(f.body.value.detail) then f.body.value.detail.value else FailureMessage(f.status))
    ensures o.Ok? <==> f.Responded? && IsOk(f.status) && f.body.Some?
    ensures o.Ok? ==> o.body == f.body.value
  {
    match f
    case Aborted => Failed(RequestTimedOut)
    case FetchFailed(m) => Failed(m)
    case Responded(status, body) =>
      if status == 401 then Failed(LoginExpired)
      else if status == 402 then
        (if body.None? then Unparsable
         else Failed(if Truthy(body.value.detail) then body.value.detail.value else BalanceTooLow))
      else if status == 504 then Failed(Timeout504)
      else if !IsOk(status) then
        Failed(if body.Some? && Truthy(body.value.detail) then body.value.detail.value else FailureMessage(status))
      else if body.None? then Unparsable
      else Ok(body.value)
  }

  /** A failing status without a usable detail names the status. */
  lemma FailureNamesStatus(status: nat)
    requires status !in {401, 402, 504} && !IsOk(status)
    ensures Respond(Responded(status, None)) == Failed("请求失败: " + NatToString(status))
  {
  }

  /** Header names as `buildHeaders` writes them. */
  const ContentType: string := "Content-Type"
  const Authorization: string := "Authorization"

  class Client {
    /** The value stored under `auth_token` in local storage. */
    var token: Option<string>

    constructor(stored: Option<string>)
      ensures token == stored
    {
      token := stored;
    }

    method GetToken() returns (t: Option<string>)
      ensures t == token
    {
      t := token;
    }

    method SetToken(t: string)
      modifies this
      ensures token == Some(t)
    {
      token := Some(t);
    }

    method ClearToken()
      modifies this
      ensures token.None?
    {
      token := None;
    }

    /**
     * `buildHeaders(requireAuth, contentType)`: `Content-Type` exactly when a truthy type is
     * given, with that value, then `Authorization: Bearer <token>` exactly when
     * authentication is required and a truthy token is stored.
     */
    method BuildHeaders(requireAuth: bool, contentType: Option<string>) returns (headers: seq<(string, string)>)
      ensures UniqueKeys(headers) && |headers| <= 2
      ensures HasKey(headers, ContentType) <==> Truthy(contentType)
      ensures Truthy(contentType) ==> Get(headers, ContentType) == Some(contentType.value)
      ensures HasKey(headers, Authorization) <==> requireAuth && Truthy(token)
      ensures requireAuth && Truthy(token) ==> Get(headers, Authorization) == Some("Bearer " + token.value)
    {
      headers := [];
      if Truthy(contentType) {
        headers := Set(headers, ContentType, contentType.value);
      }
      if requireAuth {
        var t := GetToken();
        if Truthy(t) {
          SetGet(headers, Authorization, "Bearer " + t.value, ContentType);
          SetKeys(headers, Authorization, "Bearer " + t.value);
          headers := Set(headers, Authorization, "Bearer " + t.value);
        }
      }
    }

    /** `postFormData`: a null content type, so the browser chooses it and no `Content-Type` is sent. */
    method FormDataHeaders(requireAuth: bool) returns (headers: seq<(string, string)>)
      ensures !HasKey(headers, ContentType)
      ensures HasKey(headers, Authorization) <==> requireAuth && Truthy(token)
    {
      headers := BuildHeaders(requireAuth, None);
    }

    /** `get`, `post` and `delete` send JSON; `postUrlEncoded` sends form-encoded data. */
    method JsonHeaders(requireAuth: bool) returns (headers: seq<(string, string)>)
      ensures Get(headers, ContentType) == Some(JsonType)
      ensures HasKey(headers, Authorization) <==> requireAuth && Truthy(token)
    {
      headers := BuildHeaders(requireAuth, Some(JsonType));
    }

    /** `request` with the fetch's outcome passed in: a 401 also clears the stored token. */
    method Request(f: Fetched) returns (o: Outcome)
      modifies this
      ensures o == Respond(f)
      ensures f.Responded? && f.status == 401 ==> token.None?
      ensures !(f.Responded? && f.status == 401) ==> token == old(token)
    {
      if f.Responded? && f.status == 401 {
        ClearToken();
      }
      o := Respond(f);
    }
  }
}
