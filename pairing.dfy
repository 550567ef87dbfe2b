/**
 * One authorization attempt against one bridge (`authorize_user_request`):
 * the request it posts and how it reads the bridge's reply. The HTTP
 * exchange itself is not modelled; its result is an input.
 */
module Pairing {
  import opened Wrappers
  import opened Json

  /** The application identifier sent with every pairing request. */
  const DeviceType: string := "rue_pc_app"

  const Scheme: string := "http://"
  const ApiPath: string := "/api"

  /** The verbs the client uses; pairing only ever posts. */
  datatype HttpMethod = POST

  /** A request as the client builds it: verb, URL and the JSON object of its body. */
  datatype Request = Request(verb: HttpMethod, url: string, body: map<string, string>)

  /** The credential: the username the bridge issued and the address it was obtained from. */
  datatype User = User(username: string, bridgeAddress: string)

  /**
   * What the exchange gave back: sending failed, reading the body failed,
   * or the body arrived, either as JSON (`Some`) or as text that is not JSON
   * (`None`).
   */
  datatype Reply = SendFailed | ReadFailed | Received(body: Option<Json>)

  /**
   * What the spawned task delivers: `Ok(Ok(user))`, `Ok(Err(()))`, or the
   * join error of a task that panicked in one of its two `unwrap`s.
   */
  datatype AttemptOutcome = Success(user: User) | Rejected | Panicked

  /** `format!("http://{}/api", ip)`: the scheme, then the address unchanged, then the API root. */
  function ApiUrl(ip: string): (url: string)
    ensures |url| == |Scheme| + |ip| + |ApiPath|
    ensures url[..|Scheme|] == Scheme && url[|url| - |ApiPath|..] == ApiPath
    ensures url[|Scheme|..|url| - |ApiPath|] == ip
  {
    Scheme + ip + ApiPath
  }

  /** Reads the host back out of a URL of that shape: the inverse of `ApiUrl`. */
  function HostOfApiUrl(url: string): (host: Option<string>)
    ensures host.Some? ==> ApiUrl(host.value) == url
    ensures forall ip :: url == ApiUrl(ip) ==> host == Some(ip)
  {
    if |url| >= |Scheme| + |ApiPath| && url[..|Scheme|] == Scheme && url[|url| - |ApiPath|..] == ApiPath
    then
      var ip := url[|Scheme|..|url| - |ApiPath|];
      assert url == url[..|Scheme|] + ip + url[|url| - |ApiPath|..];
      Some(ip)
    else None
  }

  /** The pairing request for bridge `ip`: a POST to its API root with the device type as the only field. */
  function AuthRequest(ip: string): (req: Request)
    ensures req.verb == POST
    ensures HostOfApiUrl(req.url) == Some(ip)
    ensures req.body.Keys == {"devicetype"} && req.body["devicetype"] == DeviceType
  {
    Request(POST, ApiUrl(ip), map["devicetype" := DeviceType])
  }

  /** `value[0].get("success")`: found exactly when the first element of the reply array has the key. */
  function SuccessField(v: Json): (r: Option<Json>)
    ensures r.Some? <==> HasSuccessKey(v)
    ensures r.Some? ==> r.value == SuccessValue(v)
  {
    Get(At(v, 0), "success")
  }

  /** The reply's first element is an object with a `success` key. */
  predicate HasSuccessKey(v: Json)
  {
    v.JArray? && |v.items| > 0 && v.items[0].JObject? && "success" in v.items[0].fields
  }

  /** The value under that key. */
  function SuccessValue(v: Json): Json
    requires HasSuccessKey(v)
  {
    v.items[0].fields["success"]
  }

  /**
   * `authorize_user_request(ip)` given the result of posting `AuthRequest(ip)`.
   * A transport or read failure and a reply without `success` are `Err(())`;
   * a body that is not JSON, or a `success` value that is not a string,
   * makes an `unwrap` panic; a string `success` value is the username.
   */
  function Authorize(ip: string, reply: Reply): (out: AttemptOutcome)
    ensures out.Success? <==>
      reply.Received? && reply.body.Some? && HasSuccessKey(reply.body.value) && SuccessValue(reply.body.value).JString?
    ensures out.Success? ==> out.user == User(SuccessValue(reply.body.value).s, ip)
    ensures out.Rejected? <==>
      reply.SendFailed? || reply.ReadFailed? || (reply.Received? && reply.body.Some? && !HasSuccessKey(reply.body.value))
    ensures out.Panicked? <==>
      reply.Received? && (reply.body.None? || (HasSuccessKey(reply.body.value) && !SuccessValue(reply.body.value).JString?))
  {
    match reply
    case SendFailed => Rejected
    case ReadFailed => Rejected
    case Received(body) =>
      match body
      case None => Panicked
      case Some(value) =>
        match SuccessField(value)
        case None => Rejected
        case Some(message) =>
          match AsString(message)
          case None => Panicked
          case Some(username) => Success(User(username, ip))
  }

  /** The grant object the bridge documents carries a string `username`. */
  predicate IsDocumentedGrant(v: Json)
  {
    v.JObject? && "username" in v.fields && v.fields["username"].JString?
  }

  /**
   * The attempt reading the grant as the bridge documents it: the username
   * is the `username` field of the `success` object. Every other case is
   * read as in `Authorize`; a `success` value of another shape still makes
   * the decoding `unwrap` panic.
   */
  function AuthorizeDocumented(ip: string, reply: Reply): (out: AttemptOutcome)
    ensures out.Success? <==>
      reply.Received? && reply.body.Some? && HasSuccessKey(reply.body.value) && IsDocumentedGrant(SuccessValue(reply.body.value))
    ensures out.Success? ==> out.user == User(SuccessValue(reply.body.value).fields["username"].s, ip)
    ensures out.Rejected? <==> Authorize(ip, reply).Rejected?
    ensures out.Panicked? <==>
      reply.Received? && (reply.body.None? || (HasSuccessKey(reply.body.value) && !IsDocumentedGrant(SuccessValue(reply.body.value))))
  {
    match reply
    case SendFailed => Rejected
    case ReadFailed => Rejected
    case Received(body) =>
      match body
      case None => Panicked
      case Some(value) =>
        match SuccessField(value)
        case None => Rejected
        case Some(grant) =>
          match Get(grant, "username")
          case None => Panicked
          case Some(name) =>
            match AsString(name)
            case None => Panicked
            case Some(username) => Success(User(username, ip))
  }
}
