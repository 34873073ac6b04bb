/**
 * The request handler of the new-believer endpoint: CORS headers, the preflight
 * reply, the method gate, the configuration checks, the name check, dispatch of
 * the notification email and the mapping of the provider's answer to a response.
 *
 * `Respond` states the whole outcome as a function of the request, the server
 * configuration, the submission time and the email provider; `Handle` builds the
 * same response step by step on a mutable `Response`, as the handler does.
 */
module Handler {
  import opened Wrappers
  import opened Text
  import opened Render
  import opened EmailShape

  const AllowedOrigins: seq<string> := ["http://localhost:3000", "https://www.householdofgodchurch.org"]

  const AllowOrigin := "Access-Control-Allow-Origin"
  const AllowMethods := "Access-Control-Allow-Methods"
  const AllowHeaders := "Access-Control-Allow-Headers"

  /** The four header names the handler sets are different names. */
  lemma HeaderNamesDistinct()
    ensures AllowOrigin != AllowMethods && AllowOrigin != AllowHeaders && AllowMethods != AllowHeaders
    ensures "Vary" != AllowOrigin && "Vary" != AllowMethods && "Vary" != AllowHeaders
  {
    assert AllowMethods[21] != AllowHeaders[21];
  }

  const MethodNotAllowed := "Method not allowed"
  const MissingApiKey := "Server misconfigured: RESEND_API_KEY is missing."
  const NameRequired := "Full name is required."
  const EmailConfigMissing := "Server email config missing."
  const SendFailed := "Failed to send email."

  /** The parts of the incoming request the handler reads. */
  datatype Request = Request(verb: string, origin: Option<string>, body: Option<FormBody>)

  /** The environment variables `RESEND_API_KEY`, `CONTACT_TO_EMAIL` and
      `CONTACT_FROM_EMAIL`. */
  datatype Env = Env(apiKey: Option<string>, contactTo: Option<string>, contactFrom: Option<string>)

  /** What the email provider's send call comes back with: no error, an error
      object with a message, or an exception, which may lack a message. */
  datatype SendResult = Delivered | Rejected(message: string) | Threw(exceptionMessage: Option<string>)

  /** The response body: not yet written, empty (`end()`), `{ok: true}` or
      `{error: message}`. */
  datatype Payload = Unwritten | NoContent | OkTrue | Failure(error: string)

  /** A complete answer: headers set by the handler, status, body, and the message
      handed to the provider, if the provider was called. */
  datatype Reply = Reply(headers: map<string, string>, status: int, payload: Payload, dispatched: Option<Email>)

  /** JavaScript truthiness of an optional string: present and not empty. */
  predicate Present(v: Option<string>) {
    v.Some? && v.value != []
  }

  /** The origin is echoed only when the header is present, not empty, and one of
      the allowed origins exactly. */
  predicate OriginAllowed(origin: Option<string>) {
    Present(origin) && origin.value in AllowedOrigins
  }

  /** The CORS headers, the first thing the handler sets. */
  function CorsHeaders(origin: Option<string>): (h: map<string, string>)
    ensures AllowOrigin in h <==> origin.Some? && origin.value in AllowedOrigins
    ensures AllowOrigin in h ==> h[AllowOrigin] == origin.value
    ensures "Vary" in h && h["Vary"] == "Origin"
    ensures AllowMethods in h && h[AllowMethods] == "POST, OPTIONS"
    ensures AllowHeaders in h && h[AllowHeaders] == "Content-Type"
    ensures h.Keys <= {AllowOrigin, "Vary", AllowMethods, AllowHeaders}
  {
    HeaderNamesDistinct();
    if OriginAllowed(origin) then map[AllowOrigin := origin.value] + FixedCors else FixedCors
  }

  /** The three headers set on every response. */
  const FixedCors: map<string, string> := map[
    "Vary" := "Origin",
    AllowMethods := "POST, OPTIONS",
    AllowHeaders := "Content-Type"]

  /** The status and body for the provider's answer. */
  function SendOutcome(result: SendResult): (r: (int, Payload))
    ensures r.0 == 200 <==> result.Delivered?
    ensures r.0 == 200 ==> r.1 == OkTrue
    ensures r.0 != 200 ==> r.0 == 500 && r.1.Failure?
    ensures result.Rejected? ==> r.1 == Failure(result.message)
    ensures result.Threw? ==> r.1 == Failure(result.exceptionMessage.GetOr(SendFailed))
  {
    match result
    case Delivered => (200, OkTrue)
    case Rejected(message) => (500, Failure(message))
    case Threw(message) => (500, Failure(message.GetOr(SendFailed)))
  }

  /** Every check the handler makes before it calls the provider passes. */
  predicate Accepted(req: Request, env: Env) {
    && req.verb == "POST"
    && Present(env.apiKey)
    && Utf16Len(Normalize(req.body).fullName) >= 2
    && Present(env.contactTo) && Present(env.contactFrom)
  }

  /** The handler's answer, in the order of its early returns. */
  function Respond(req: Request, env: Env, submittedAt: string, send: Email -> SendResult): (r: Reply)
    ensures r.headers == CorsHeaders(req.origin)
    ensures req.verb == "OPTIONS" ==> r == Reply(r.headers, 200, NoContent, None)
    ensures req.verb != "OPTIONS" && req.verb != "POST" ==>
      r == Reply(r.headers, 405, Failure(MethodNotAllowed), None)
    ensures req.verb == "POST" && !Present(env.apiKey) ==>
      r == Reply(r.headers, 500, Failure(MissingApiKey), None)
    ensures req.verb == "POST" && Present(env.apiKey) && Utf16Len(Normalize(req.body).fullName) < 2 ==>
      r == Reply(r.headers, 400, Failure(NameRequired), None)
    ensures (&& req.verb == "POST" && Present(env.apiKey) && Utf16Len(Normalize(req.body).fullName) >= 2
             && !(Present(env.contactTo) && Present(env.contactFrom))) ==>
      r == Reply(r.headers, 500, Failure(EmailConfigMissing), None)
    ensures r.dispatched.Some? <==> Accepted(req, env)
    ensures r.dispatched.Some? ==>
      var m := r.dispatched.value;
      && m == Compose(Normalize(req.body), env.contactFrom.value, env.contactTo.value, submittedAt)
      && (r.status, r.payload) == SendOutcome(send(m))
  {
    var headers := CorsHeaders(req.origin);
    if req.verb == "OPTIONS" then Reply(headers, 200, NoContent, None)
    else if req.verb != "POST" then Reply(headers, 405, Failure(MethodNotAllowed), None)
    else if !Present(env.apiKey) then Reply(headers, 500, Failure(MissingApiKey), None)
    else
      var s := Normalize(req.body);
      if Utf16Len(s.fullName) < 2 then Reply(headers, 400, Failure(NameRequired), None)
      else if !Present(env.contactTo) || !Present(env.contactFrom) then
        Reply(headers, 500, Failure(EmailConfigMissing), None)
      else
        var m := Compose(s, env.contactFrom.value, env.contactTo.value, submittedAt);
        var (status, payload) := SendOutcome(send(m));
        Reply(headers, status, payload, Some(m))
  }

  /** The handler answers with one of four status codes; an error body goes with
      every status but 200, and a 200 is either the preflight reply or `{ok: true}`. */
  lemma StatusAndBody(req: Request, env: Env, submittedAt: string, send: Email -> SendResult)
    ensures var r := Respond(req, env, submittedAt, send);
      && r.status in {200, 400, 405, 500}
      && (r.payload.Failure? <==> r.status != 200)
      && (r.status == 200 ==> (r.payload == NoContent <==> req.verb == "OPTIONS"))
      && r.payload != Unwritten
  {
  }

  /** The message sent carries the configured sender and recipient, the trimmed
      name in its subject, and a reply-to address exactly when the trimmed email
      has the accepted shape. */
  lemma DispatchedMessage(req: Request, env: Env, submittedAt: string, send: Email -> SendResult)
    requires Accepted(req, env)
    ensures var r := Respond(req, env, submittedAt, send);
      var s := Normalize(req.body);
      && r.dispatched.Some?
      && r.dispatched.value.from == env.contactFrom.value
      && r.dispatched.value.to == env.contactTo.value
      && r.dispatched.value.subject == "New Believer Connection: " + s.fullName
      && (r.dispatched.value.replyTo == Some(s.email) <==> MatchesPattern(s.email))
      && (r.dispatched.value.replyTo.None? <==> !MatchesPattern(s.email))
      && Contains(r.dispatched.value.text, "Full Name: " + s.fullName)
      && Contains(r.dispatched.value.text, "Email: " + OrDash(s.email))
  {
    var s := Normalize(req.body);
    TextBodyShowsFields(s, submittedAt);
  }

  /** An absent body, an absent name or a whitespace-only name gets a 400 once
      the API key is there, whatever the mailbox configuration, and the provider
      is not called. */
  lemma BlankNameRejected(req: Request, env: Env, submittedAt: string, send: Email -> SendResult)
    requires req.verb == "POST" && Present(env.apiKey)
    requires req.body.None? || req.body.value.fullName.None? || AllSpace(req.body.value.fullName.value)
    ensures var r := Respond(req, env, submittedAt, send);
      r.status == 400 && r.payload == Failure(NameRequired) && r.dispatched.None?
  {
    BlankNameIsEmpty(req.body);
  }

  /** A name that is already trimmed reaches the name check unchanged. */
  lemma TrimmedNameKept(req: Request)
    requires req.body.Some? && req.body.value.fullName.Some?
    requires IsTrimmed(req.body.value.fullName.value)
    ensures Normalize(req.body).fullName == req.body.value.fullName.value
  {
    var n := req.body.value.fullName.value;
    assert IsTrimOf(n, n, 0, |n|) by { assert n[0..|n|] == n; }
    TrimUnique(n, n, 0, |n|);
  }

  /** With the configuration in place and a provider that accepts the message,
      a well-formed submission gets `200 {ok: true}`; if the provider reports an
      error instead, its message comes back with a 500. */
  lemma EndToEnd(req: Request, env: Env, submittedAt: string, send: Email -> SendResult)
    requires req.verb == "POST" && Present(env.apiKey) && Present(env.contactTo) && Present(env.contactFrom)
    requires req.body.Some? && req.body.value.fullName.Some?
    requires IsTrimmed(req.body.value.fullName.value) && Utf16Len(req.body.value.fullName.value) >= 2
    ensures var r := Respond(req, env, submittedAt, send);
      && r.dispatched.Some?
      && Contains(r.dispatched.value.subject, req.body.value.fullName.value)
      && (send(r.dispatched.value) == Delivered ==> r.status == 200 && r.payload == OkTrue)
      && (send(r.dispatched.value).Rejected? ==>
            r.status == 500 && r.payload == Failure(send(r.dispatched.value).message))
  {
    TrimmedNameKept(req);
    var n := req.body.value.fullName.value;
    ContainsSelf(n);
    ContainsExtend(n, n, "New Believer Connection: ");
  }

  /** `fullName.length` counts UTF-16 code units, so a name of one character
      outside the Basic Multilingual Plane (one emoji) is long enough: with the
      configuration in place it is sent, not rejected with 400. */
  lemma AstralNameAccepted(req: Request, env: Env, submittedAt: string, send: Email -> SendResult, e: char)
    requires e > '\U{FFFF}'
    requires req.verb == "POST" && Present(env.apiKey) && Present(env.contactTo) && Present(env.contactFrom)
    requires req.body.Some? && req.body.value.fullName == Some([e])
    ensures var r := Respond(req, env, submittedAt, send);
      r.dispatched.Some? && r.status != 400
  {
    TrimmedNameKept(req);
    assert Utf16Len([e]) == 2 by { assert [e][1..] == []; }
  }

  /** The response object the handler writes to. */
  class Response {
    var headers: map<string, string>
    var statusCode: int
    var payload: Payload

    constructor ()
      ensures headers == map[] && statusCode == 200 && payload == Unwritten
    {
      headers := map[];
      statusCode := 200;
      payload := Unwritten;
    }

    /** `res.setHeader(name, value)`. */
    method SetHeader(name: string, value: string)
      modifies this
      ensures headers == old(headers)[name := value]
      ensures statusCode == old(statusCode) && payload == old(payload)
    {
      headers := headers[name := value];
    }

    /** `res.status(code)`. */
    method Status(code: int)
      modifies this
      ensures statusCode == code
      ensures headers == old(headers) && payload == old(payload)
    {
      statusCode := code;
    }

    /** `res.json(body)`. */
    method Json(body: Payload)
      modifies this
      ensures payload == body
      ensures headers == old(headers) && statusCode == old(statusCode)
    {
      payload := body;
    }

    /** `res.end()`. */
    method End()
      modifies this
      ensures payload == NoContent
      ensures headers == old(headers) && statusCode == old(statusCode)
    {
      payload := NoContent;
    }
  }

  /** Setting the CORS headers one by one on a response adds `CorsHeaders`. */
  lemma CorsSteps(before: map<string, string>, origin: Option<string>)
    ensures var h := if OriginAllowed(origin) then before[AllowOrigin := origin.value] else before;
      h["Vary" := "Origin"][AllowMethods := "POST, OPTIONS"][AllowHeaders := "Content-Type"]
      == before + CorsHeaders(origin)
  {
    if OriginAllowed(origin) {
      var v := origin.value;
      FixedSteps(before[AllowOrigin := v]);
      assert before[AllowOrigin := v] + FixedCors == before + (map[AllowOrigin := v] + FixedCors);
    } else {
      FixedSteps(before);
    }
  }

  /** The three fixed `setHeader` calls add `FixedCors`. */
  lemma FixedSteps(m: map<string, string>)
    ensures m["Vary" := "Origin"][AllowMethods := "POST, OPTIONS"][AllowHeaders := "Content-Type"] == m + FixedCors
  {
    HeaderNamesDistinct();
  }

  /** The first lines of the handler: the allowed origin echoed back, then the
      three fixed CORS headers. */
  method SetCors(origin: Option<string>, res: Response)
    modifies res
    ensures res.headers == old(res.headers) + CorsHeaders(origin)
    ensures res.statusCode == old(res.statusCode) && res.payload == old(res.payload)
  {
    ghost var before := res.headers;
    if OriginAllowed(origin) {
      res.SetHeader(AllowOrigin, origin.value);
    }
    res.SetHeader("Vary", "Origin");
    res.SetHeader(AllowMethods, "POST, OPTIONS");
    res.SetHeader(AllowHeaders, "Content-Type");
    CorsSteps(before, origin);
  }

  /** The end of the handler: the provider's error, the exception caught around
      the call, or success, written to the response. */
  method Report(result: SendResult, res: Response)
    modifies res
    ensures (res.statusCode, res.payload) == SendOutcome(result)
    ensures res.headers == old(res.headers)
  {
    match result {
      case Delivered =>
        res.Status(200);
        res.Json(OkTrue);
      case Rejected(message) =>
        res.Status(500);
        res.Json(Failure(message));
      case Threw(message) =>
        res.Status(500);
        res.Json(Failure(message.GetOr(SendFailed)));
    }
  }

  /** The handler: sets the CORS headers, then returns early at the first check
      that fails; otherwise calls the provider once and reports its answer. The
      result is the message handed to the provider, if it was called. */
  method Handle(req: Request, env: Env, submittedAt: string, send: Email -> SendResult, res: Response)
    returns (dispatched: Option<Email>)
    modifies res
    ensures var r := Respond(req, env, submittedAt, send);
      && res.headers == old(res.headers) + r.headers
      && res.statusCode == r.status
      && res.payload == r.payload
      && dispatched == r.dispatched
  {
    SetCors(req.origin, res);
    assert res.headers == old(res.headers) + Respond(req, env, submittedAt, send).headers;

    if req.verb == "OPTIONS" {
      res.Status(200);
      res.End();
      return None;
    }
    if req.verb != "POST" {
      res.Status(405);
      res.Json(Failure(MethodNotAllowed));
      return None;
    }
    if !Present(env.apiKey) {
      res.Status(500);
      res.Json(Failure(MissingApiKey));
      return None;
    }

    var s := Normalize(req.body);
    if Utf16Len(s.fullName) < 2 {
      res.Status(400);
      res.Json(Failure(NameRequired));
      return None;
    }
    if !Present(env.contactTo) || !Present(env.contactFrom) {
      res.Status(500);
      res.Json(Failure(EmailConfigMissing));
      return None;
    }

    var m := Compose(s, env.contactFrom.value, env.contactTo.value, submittedAt);
    var result := send(m);
    dispatched := Some(m);
    Report(result, res);
  }
}
