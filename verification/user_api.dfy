/**
 * The user lookup client: the request it sends for an id and a locale, and
 * how it turns the reply into either the parsed body or the object it throws.
 * The network round trip itself is a parameter: `Reply` is what `fetch` and
 * `response.json()` produced.
 */
module UserApi {
  import opened CulturalTypes
  import opened Formatters

  /** A user record; its two dates are given as the calendar fields the local getters read. */
  datatype User = User(
    id: string, firstName: string, lastName: string, age: int,
    birthDate: Date, createdAt: Date)

  /**
   * The parsed JSON body, reduced to the fields the code reads; `None`
   * stands for a missing, null or otherwise falsy-and-not-a-string field.
   */
  datatype ResponseBody = ResponseBody(detail: Option<string>, message: Option<string>, data: Option<User>)

  /** What the network produced: a response (with its body, or `None` when the body is not JSON), or no response at all. */
  datatype Reply = Received(status: int, body: Option<ResponseBody>) | NetworkFailure

  datatype Request = Request(url: string, verb: string, headers: seq<(string, string)>)

  /** What `getUser` throws: the status-and-detail object, or an error from `json()` or `fetch`. */
  datatype Failure = HttpError(status: int, detail: string) | ParseError | NetworkError

  datatype Outcome = Found(body: ResponseBody) | Failed(failure: Failure)

  const ApiBaseUrl := "http://localhost:8010"
  const UsersPrefix := ApiBaseUrl + "/users/"
  const FallbackDetail := "An error occurred"

  /** The request `getUser(userId, locale)` sends: the id pasted into the path unencoded. */
  function BuildRequest(userId: string, locale: string): (r: Request)
    ensures r.verb == "GET"
    ensures r.headers == [("Accept", "application/json"), ("Accept-Language", locale)]
  {
    Request(UsersPrefix + userId, "GET", [("Accept", "application/json"), ("Accept-Language", locale)])
  }

  /** Reads the id back out of a request URL, if it is one of the users URLs. */
  function UserIdOfUrl(url: string): Option<string>
  {
    if |url| >= |UsersPrefix| && url[..|UsersPrefix|] == UsersPrefix then Some(url[|UsersPrefix|..]) else None
  }

  /** The URL carries the id verbatim, so it can be read back exactly. */
  lemma RequestUrlRoundTrip(userId: string, locale: string)
    ensures UserIdOfUrl(BuildRequest(userId, locale).url) == Some(userId)
  {
    var url := BuildRequest(userId, locale).url;
    assert url[..|UsersPrefix|] == UsersPrefix && url[|UsersPrefix|..] == userId;
  }

  /** JavaScript truthiness of an optional string field. */
  predicate Truthy(field: Option<string>)
  {
    field.Some? && field.value != ""
  }

  /** `data.detail || data.message || "An error occurred"`. */
  function ErrorDetail(b: ResponseBody): (d: string)
  {
    if Truthy(b.detail) then b.detail.value
    else if Truthy(b.message) then b.message.value
    else FallbackDetail
  }

  /**
   * The detail is never empty, it is the first non-empty one of `detail`
   * and `message` in that order: a missing, null or empty `detail` is
   * passed over in favour of a non-empty `message`.
   */
  lemma ErrorDetailChoice(b: ResponseBody)
    ensures ErrorDetail(b) != ""
    ensures Truthy(b.detail) ==> ErrorDetail(b) == b.detail.value
    ensures !Truthy(b.detail) && Truthy(b.message) ==> ErrorDetail(b) == b.message.value
    ensures !Truthy(b.detail) && !Truthy(b.message) ==> ErrorDetail(b) == FallbackDetail
  {
  }

  /** `response.ok`: a status in the 200 range. */
  predicate IsOk(status: int)
  {
    200 <= status <= 299
  }

  /**
   * `getUser` after the fetch: the body is parsed first, then a non-ok
   * status throws the status with the chosen detail, and an ok status
   * returns the body as it is.
   */
  function GetUser(reply: Reply): Outcome
  {
    match reply
    case NetworkFailure => Failed(NetworkError)
    case Received(status, body) =>
      match body
      case None => Failed(ParseError)
      case Some(b) => if !IsOk(status) then Failed(HttpError(status, ErrorDetail(b))) else Found(b)
  }

  /**
   * The outcome classified by the reply: an ok JSON reply returns its body
   * unchanged, a non-ok JSON reply throws its own status with a non-empty
   * detail, and a body that is not JSON fails without any status, whatever
   * the status was.
   */
  lemma GetUserOutcomes(reply: Reply)
    ensures reply.Received? && reply.body.Some? && IsOk(reply.status) ==> GetUser(reply) == Found(reply.body.value)
    ensures reply.Received? && reply.body.Some? && !IsOk(reply.status) ==>
      GetUser(reply).Failed? && GetUser(reply).failure.HttpError?
      && GetUser(reply).failure.status == reply.status && GetUser(reply).failure.detail == ErrorDetail(reply.body.value)
    ensures reply.Received? && reply.body.None? ==> GetUser(reply) == Failed(ParseError)
    ensures GetUser(reply).Failed? && GetUser(reply).failure.HttpError? ==> GetUser(reply).failure.detail != ""
    ensures GetUser(reply).Found? <==> reply.Received? && reply.body.Some? && IsOk(reply.status)
  {
    if reply.Received? && reply.body.Some? {
      ErrorDetailChoice(reply.body.value);
    }
  }
}
