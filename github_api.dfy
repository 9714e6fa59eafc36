/** The API layer of GitHubSearch/GitHubAPI.swift: query parameters, the
    search endpoint, and the dispatch that turns what the transport delivered
    into the (response, error) pair handed to the caller. The HTTP transport
    itself is a parameter: a request is described by value, and what came
    back is given as a TransportOutcome. */
module GitHubAPI {
  import opened Wrappers
  import opened JSONDecoder
  import opened GitHubRecords

  datatype HTTPMethod = GET

  datatype APIError = UnexpectedResponse

  /** The objects the client puts into a query: strings and integers. */
  datatype ParameterValue = StringParameter(s: string) | IntParameter(n: int)

  /** One entry of a Parameters dictionary literal; None stands for nil. */
  type ParameterEntry = (string, Option<ParameterValue>)

  datatype Parameters = Parameters(dictionary: map<string, ParameterValue>)

  /** The dictionary after assigning the entries one by one, left to right:
      assigning nil removes the key, anything else stores it. */
  function Assigned(entries: seq<ParameterEntry>): map<string, ParameterValue> {
    if entries == [] then
      map[]
    else
      var d := Assigned(entries[..|entries| - 1]);
      var (key, value) := entries[|entries| - 1];
      match value
      case None => d - {key}
      case Some(v) => d[key := v]
  }

  function Lookup(d: map<string, ParameterValue>, key: string): Option<ParameterValue> {
    if key in d then Some(d[key]) else None
  }

  /** The value of the last entry for key (None when that entry is nil or
      there is no entry for key). */
  function LastValue(entries: seq<ParameterEntry>, key: string): Option<ParameterValue> {
    if entries == [] then None
    else if entries[|entries| - 1].0 == key then entries[|entries| - 1].1
    else LastValue(entries[..|entries| - 1], key)
  }

  /** The last occurrence of a key wins, a nil drops the key, and no key
      appears that the literal does not mention. */
  lemma {:induction false} AssignedIsLastValue(entries: seq<ParameterEntry>, key: string)
    ensures Lookup(Assigned(entries), key) == LastValue(entries, key)
  {
    if entries != [] {
      AssignedIsLastValue(entries[..|entries| - 1], key);
    }
  }

  /** `Parameters.init(dictionaryLiteral:)`: the loop that assigns each entry
      to `dictionary` in turn. */
  method NewParameters(elements: seq<ParameterEntry>) returns (p: Parameters)
    ensures p.dictionary == Assigned(elements)
    ensures forall key :: Lookup(p.dictionary, key) == LastValue(elements, key)
  {
    var dictionary: map<string, ParameterValue> := map[];
    var i := 0;
    while i < |elements|
      invariant 0 <= i <= |elements|
      invariant dictionary == Assigned(elements[..i])
    {
      var (key, value) := elements[i];
      assert elements[..i + 1][..i] == elements[..i];
      match value {
        case None => dictionary := dictionary - {key};
        case Some(v) => dictionary := dictionary[key := v];
      }
      i := i + 1;
    }
    assert elements[..i] == elements;
    p := Parameters(dictionary);
    forall key ensures Lookup(p.dictionary, key) == LastValue(elements, key) {
      AssignedIsLastValue(elements, key);
    }
  }

  /** `GitHubAPI.SearchRepositories`: the repository search endpoint. */
  datatype SearchRepositories = SearchRepositories(query: string, page: int) {

    function Path(): string {
      "search/repositories"
    }

    function Method(): HTTPMethod {
      GET
    }

    /** The computed `parameters`: the literal ["q": query, "page": page]. */
    function QueryParameters(): (p: Parameters)
      ensures p.dictionary == map["q" := StringParameter(query), "page" := IntParameter(page)]
    {
      var entries := [("q", Some(StringParameter(query))), ("page", Some(IntParameter(page)))];
      assert entries[..1][..0] == [] && entries[..2][..1] == entries[..1] && entries[..2] == entries;
      assert Assigned(entries[..1]) == map["q" := StringParameter(query)];
      Parameters(Assigned(entries))
    }
  }

  /** What `request` hands to the session manager for a GET endpoint. */
  datatype HTTPRequest = HTTPRequest(httpMethod: HTTPMethod, path: string, parameters: map<string, ParameterValue>)

  function RequestFor(endpoint: SearchRepositories): (r: HTTPRequest)
    ensures r.httpMethod == GET && r.path == "search/repositories"
    ensures r.parameters.Keys == {"q", "page"}
    ensures r.parameters["q"] == StringParameter(endpoint.query) && r.parameters["page"] == IntParameter(endpoint.page)
  {
    match endpoint.Method()
    case GET => HTTPRequest(GET, endpoint.Path(), endpoint.QueryParameters().dictionary)
  }

  /** The parts of an NSError's userInfo that the failure handler reads and
      writes; other entries are carried over unchanged and not modelled. */
  datatype UserInfo = UserInfo(responseData: Option<seq<bv8>>, failureReason: Option<string>)

  datatype NSError = NSError(domain: string, code: int, userInfo: UserInfo)

  /** The `ErrorType` values a handler can receive. */
  datatype ErrorType =
    | APIFailure(apiError: APIError)
    | DecodeFailure(decodeError: DecodeError)
    | NetworkFailure(nsError: NSError)

  /** The arguments of one call of the caller's handler. */
  datatype Reply<T> = Reply(response: Option<T>, error: Option<ErrorType>)

  /** Exactly one of the two arguments is non-nil. */
  predicate OneSided<T>(reply: Reply<T>) {
    reply.response.Some? != reply.error.Some?
  }

  /** What the transport delivered: a deserialized body, or an error. */
  datatype TransportOutcome = Received(body: JSON) | Failed(error: NSError)

  /** The success closure: a body that is not a JSON object is an unexpected
      response; an object is decoded, and a decode error is handed on as it
      was thrown. */
  function SuccessHandler<T>(body: JSON, decode: JSONObject -> Result<T, DecodeError>): (reply: Reply<T>)
    ensures OneSided(reply)
    ensures reply.error == Some(APIFailure(UnexpectedResponse)) <==> !body.JObj?
    ensures reply.response.Some? <==> body.JObj? && decode(body.fields).Success?
    ensures reply.response.Some? ==> decode(body.fields) == Success(reply.response.value)
    ensures body.JObj? && decode(body.fields).Failure? ==> reply.error == Some(DecodeFailure(decode(body.fields).error))
  {
    match body
    case JObj(json) =>
      (match decode(json)
       case Success(response) => Reply(Some(response), None)
       case Failure(error) => Reply(None, Some(DecodeFailure(error))))
    case _ => Reply(None, Some(APIFailure(UnexpectedResponse)))
  }

  /** The failure closure: when the error carries response data that
      `decodeUTF8` turns into text, a new error with the same domain and code
      and that text as its failure reason; otherwise the error as it came. */
  function FailureHandler<T>(error: NSError, decodeUTF8: seq<bv8> -> Option<string>): (reply: Reply<T>)
    ensures OneSided(reply) && reply.response.None? && reply.error.value.NetworkFailure?
    ensures var e := reply.error.value.nsError;
            && e.domain == error.domain && e.code == error.code
            && e.userInfo.responseData == error.userInfo.responseData
    ensures var e := reply.error.value.nsError;
            e.userInfo.failureReason
              == if error.userInfo.responseData.Some? && decodeUTF8(error.userInfo.responseData.value).Some?
                 then decodeUTF8(error.userInfo.responseData.value)
                 else error.userInfo.failureReason
  {
    var forwarded :=
      match error.userInfo.responseData
      case Some(data) =>
        (match decodeUTF8(data)
         case Some(description) =>
           NSError(error.domain, error.code, error.userInfo.(failureReason := Some(description)))
         case None => error)
      case None => error;
    Reply(None, Some(NetworkFailure(forwarded)))
  }

  /** `request` once the transport has answered: one handler call, whose
      arguments depend only on the outcome. */
  function Dispatch<T>(outcome: TransportOutcome, decode: JSONObject -> Result<T, DecodeError>,
                       decodeUTF8: seq<bv8> -> Option<string>): (reply: Reply<T>)
    ensures OneSided(reply)
    ensures outcome.Failed? ==> reply.response.None? && reply.error.Some? && reply.error.value.NetworkFailure?
    ensures reply.response.Some? ==> outcome.Received? && outcome.body.JObj?
                                     && decode(outcome.body.fields) == Success(reply.response.value)
    ensures outcome.Received? ==> reply == SuccessHandler(outcome.body, decode)
    ensures outcome.Failed? ==> reply == FailureHandler(outcome.error, decodeUTF8)
  {
    match outcome
    case Received(body) => SuccessHandler(body, decode)
    case Failed(error) => FailureHandler(error, decodeUTF8)
  }

  /** The response type of SearchRepositories: a SearchResult of
      Repository. */
  function DecodeSearchResponse(json: JSONObject, isURL: string -> bool): Result<SearchResult<Repository>, DecodeError> {
    DecodeSearchResult(json, j => DecodeRepository(j, isURL))
  }
}
