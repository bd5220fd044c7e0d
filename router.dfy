/**
 * The request handler (`exports.handler`): preflight, the Basic-auth gate,
 * body parsing and the dispatch on the HTTP method, with the status code and
 * CORS headers of every response.
 */
module Router {
  import opened Wrappers
  import opened Thoughts
  import opened Store
  import opened Auth
  import opened Handlers

  /** `event.body`: absent or empty, JSON that parses to an object, or text `JSON.parse` rejects. */
  datatype Payload = Missing | Json(body: Body) | Malformed

  datatype Request = Request(httpMethod: string, headers: Headers, payload: Payload)

  datatype ResponseBody =
    | Message(message: string)
    | ThoughtList(message: string, thoughts: seq<Thought>)
    | OneThought(message: string, thought: Thought)
    | ErrorReport(message: string, error: Error)

  datatype Response = Response(statusCode: int, headers: map<string, string>, body: ResponseBody)

  const CorsHeaders: map<string, string> := map[
    "Access-Control-Allow-Origin" := "*",
    "Access-Control-Allow-Methods" := "*",
    "Access-Control-Allow-Headers" := "*"]

  const Challenge: string := "Basic realm=\"Catty Portal\""

  /** The three permissive CORS headers are all present. */
  predicate HasCors(headers: map<string, string>) {
    forall name :: name in CorsHeaders ==> name in headers && headers[name] == "*"
  }

  /** What the handler does with a request before it touches the store. */
  datatype Action =
    | Preflight
    | Unauthorized
    | BadJson
    | List
    | Create(body: Body)
    | Update(body: Body)
    | Delete(body: Body)
    | NotAllowed

  /** `event.body ? JSON.parse(event.body) : {}`, for a body that parses. */
  function BodyOf(payload: Payload): Body
    requires !payload.Malformed?
  {
    if payload.Json? then payload.body else EmptyBody
  }

  /**
   * OPTIONS first and without auth; then the auth gate, before the body is
   * parsed; then the parse; then the switch on the method.
   */
  function Dispatch(config: Config, decode: string -> string, req: Request): (a: Action)
    ensures a == Preflight <==> req.httpMethod == "OPTIONS"
    ensures a == Unauthorized <==> req.httpMethod != "OPTIONS" && !VerifyBasicAuth(config, decode, req.headers)
    ensures a == BadJson <==>
              req.httpMethod != "OPTIONS" && VerifyBasicAuth(config, decode, req.headers) && req.payload.Malformed?
    ensures req.httpMethod != "OPTIONS" && VerifyBasicAuth(config, decode, req.headers) && !req.payload.Malformed? ==>
              (a == List <==> req.httpMethod == "GET") &&
              (a.Create? <==> req.httpMethod == "POST") &&
              (a.Update? <==> req.httpMethod == "PUT") &&
              (a.Delete? <==> req.httpMethod == "DELETE") &&
              (a == NotAllowed <==> req.httpMethod !in {"GET", "POST", "PUT", "DELETE"})
    ensures (a.Create? || a.Update? || a.Delete?) ==> !req.payload.Malformed? && a.body == BodyOf(req.payload)
  {
    if req.httpMethod == "OPTIONS" then Preflight
    else if !VerifyBasicAuth(config, decode, req.headers) then Unauthorized
    else if req.payload.Malformed? then BadJson
    else
      var body := BodyOf(req.payload);
      if req.httpMethod == "GET" then List
      else if req.httpMethod == "POST" then Create(body)
      else if req.httpMethod == "PUT" then Update(body)
      else if req.httpMethod == "DELETE" then Delete(body)
      else NotAllowed
  }

  /** The 500 response of the `catch` block. */
  function Failed(error: Error): (resp: Response)
    ensures resp.statusCode == 500 && HasCors(resp.headers)
    ensures resp.body == ErrorReport("Error processing request", error)
  {
    Response(500, CorsHeaders, ErrorReport("Error processing request", error))
  }

  /** The response to a create, update or delete: the record on success, a 500 otherwise. */
  function Reply(r: Result<Thought, Error>, message: string): (resp: Response)
    ensures HasCors(resp.headers)
    ensures resp.statusCode == 200 <==> r.Success?
    ensures resp.statusCode == 500 <==> r.Failure?
    ensures r.Success? ==> resp.body == OneThought(message, r.value)
    ensures r.Failure? ==> resp == Failed(r.error)
  {
    match r
    case Success(t) => Response(200, CorsHeaders, OneThought(message, t))
    case Failure(e) => Failed(e)
  }

  /** The 401 carries the CORS headers and the Basic challenge. */
  lemma UnauthorizedHeaders()
    ensures HasCors(CorsHeaders["WWW-Authenticate" := Challenge])
    ensures CorsHeaders["WWW-Authenticate" := Challenge]["WWW-Authenticate"] == Challenge
  {
  }

  /** Whether a request is refused with 401 does not depend on its body. */
  lemma UnauthorizedIgnoresBody(config: Config, decode: string -> string, req: Request, other: Payload)
    requires req.httpMethod != "OPTIONS"
    requires !VerifyBasicAuth(config, decode, req.headers)
    ensures Dispatch(config, decode, req) == Dispatch(config, decode, req.(payload := other)) == Unauthorized
  {
  }

  /**
   * `exports.handler`, with the store as the table, the decoder and the clock
   * as parameters. Every response carries the CORS headers; the status is 200,
   * 401, 405 or 500 as the dispatch and the operation's outcome decide, and
   * only a successful create, update or delete changes the table.
   */
  method Handle(table: Table, config: Config, decode: string -> string, now: string, req: Request)
    returns (resp: Response)
    requires table.Valid()
    modifies table
    ensures table.Valid()
    ensures HasCors(resp.headers)
    ensures resp.statusCode in {200, 401, 405, 500}
    ensures match Dispatch(config, decode, req)
      case Preflight =>
        resp == Response(200, CorsHeaders, Message("OK")) && table.items == old(table.items)
      case Unauthorized =>
        resp == Response(401, CorsHeaders["WWW-Authenticate" := Challenge], Message("Unauthorized")) &&
        table.items == old(table.items)
      case BadJson =>
        resp == Failed(InvalidJson) && table.items == old(table.items)
      case NotAllowed =>
        resp == Response(405, CorsHeaders, Message("Method not allowed")) && table.items == old(table.items)
      case List =>
        resp.statusCode == 200 && resp.body.ThoughtList? &&
        resp.body.message == "Thoughts retrieved successfully" &&
        IsListing(table.items, resp.body.thoughts) && table.items == old(table.items)
      case Create(body) =>
        resp == Reply(CreateResult(body, now), "Thought submitted successfully") &&
        table.items == Commit(old(table.items), CreateResult(body, now))
      case Update(body) =>
        resp == Reply(UpdateResult(old(table.items), body), "Thought updated successfully") &&
        table.items == Commit(old(table.items), UpdateResult(old(table.items), body))
      case Delete(body) =>
        resp == Reply(DeleteResult(old(table.items), body), "Thought deleted successfully") &&
        table.items == Commit(old(table.items), DeleteResult(old(table.items), body))
  {
    if req.httpMethod == "OPTIONS" {
      return Response(200, CorsHeaders, Message("OK"));
    }
    if !VerifyBasicAuth(config, decode, req.headers) {
      UnauthorizedHeaders();
      return Response(401, CorsHeaders["WWW-Authenticate" := Challenge], Message("Unauthorized"));
    }
    if req.payload.Malformed? {
      return Failed(InvalidJson);
    }
    var body := BodyOf(req.payload);
    if req.httpMethod == "GET" {
      var thoughts := HandleGetThoughts(table);
      resp := Response(200, CorsHeaders, ThoughtList("Thoughts retrieved successfully", thoughts));
    } else if req.httpMethod == "POST" {
      var r := HandlePostThought(table, body, now);
      resp := Reply(r, "Thought submitted successfully");
    } else if req.httpMethod == "PUT" {
      var r := HandleUpdateThought(table, body);
      resp := Reply(r, "Thought updated successfully");
    } else if req.httpMethod == "DELETE" {
      var r := HandleDeleteThought(table, body);
      resp := Reply(r, "Thought deleted successfully");
    } else {
      resp := Response(405, CorsHeaders, Message("Method not allowed"));
    }
  }
}
