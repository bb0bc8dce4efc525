/** The gateway interceptor and the order target of recipe 30 (orders_interceptor, orders_target). */
module Interceptor {
  import opened Board
  import opened CanonicalJson
  import opened JsonParsing
  import opened ActionProof
  import opened ReplayStore
  import opened ProofVerifier

  datatype Config = Config(subject: string, sentinel: string, maxAge: int)

  // Header values that are None are dropped.
  datatype Request = Request(headers: seq<(string, Option<string>)>, body: Json)

  // One request, with what the SDK says of its proof, the clock, and what happens to the table.
  datatype Call = Call(request: Request, jws: Jws, now: int, deletion: Deletion, fault: StoreFault)

  type Headers = map<string, string>

  const PROTECTED_HEADERS := {
    "authorization", "x-action-proof", "x-dnsid-status", "x-dnsid-sub", "x-gateway-sentinel"}

  function Normalized(env: Env, headers: seq<(string, Option<string>)>): Headers {
    if headers == [] then map[]
    else
      var earlier, last := Normalized(env, headers[..|headers| - 1]), headers[|headers| - 1];
      if last.1.None? then earlier else earlier[env.lower(last.0) := last.1.value]
  }

  function HeaderOf(headers: Headers, name: string): string {
    if name in headers then headers[name] else ""
  }

  // v.get(name) where v is a dict, None otherwise.
  function Member(v: Option<Json>, name: string): Option<Json> {
    if v.Some? && v.value.Obj? then Find(v.value.entries, name) else None
  }

  // s.rsplit("___", 1)[-1]
  function AfterSeparator(s: string): string {
    AfterSeparatorIn(s, |s|)
  }

  function AfterSeparatorIn(s: string, end: nat): string
    requires end <= |s|
  {
    if end < 3 then s
    else if s[end - 3..end] == "___" then s[end..]
    else AfterSeparatorIn(s, end - 1)
  }

  function ToolNameOf(env: Env, name: Option<Json>): string {
    match name
    case None => ""
    case Some(Text(s)) => AfterSeparator(s)
    case Some(v) => AfterSeparator(env.str(v))
  }

  function RequiredString(claims: Entries, name: string): Option<string> {
    match Find(claims, name)
    case Some(Text(s)) => if s != "" then Some(s) else None
    case _ => None
  }

  function SingleAudience(v: Option<Json>): Option<string> {
    match v
    case Some(Text(s)) => if s != "" then Some(s) else None
    case Some(Arr(Cons(Text(s), Nil))) => if s != "" then Some(s) else None
    case _ => None
  }

  predicate StartsWith(s: string, prefix: string) {
    prefix <= s
  }

  // The arguments a proof is checked against: none of them unless they are an object.
  function CheckedArguments(body: Json): Json {
    match Member(Member(Some(body), "params"), "arguments")
    case Some(Obj(entries)) => Obj(entries)
    case _ => Obj(NoEntries)
  }

  datatype Stage = PassThrough | Stop(code: string) | Offer(subject: string, expected: Expected)

  const BEARER := "Bearer "

  // verify_request up to the proof.
  function CheckRequest(env: Env, config: Config, request: Request): Stage {
    var headers := Normalized(env, request.headers);
    var token := HeaderOf(headers, "authorization");
    if Member(Some(request.body), "method") != Some(Text("tools/call")) then PassThrough
    else if !StartsWith(token, BEARER) then Stop("missing_token")
    else
      match env.claims(token[|BEARER|..])
      case None => Stop("malformed_token")
      case Some(claims) =>
        var subject, jti := RequiredString(claims, "sub"), RequiredString(claims, "jti");
        var audience := SingleAudience(Find(claims, "aud"));
        if subject.None? || audience.None? || jti.None? then Stop("malformed_token")
        else if subject.value != config.subject then Stop("unexpected_subject")
        else if HeaderOf(headers, "x-action-proof") == "" then Stop("missing_action_proof")
        else
          var tool := ToolNameOf(env, Member(Member(Some(request.body), "params"), "name"));
          Offer(subject.value,
                [(Subject, subject.value),
                 (Audience, audience.value),
                 (TokenJTIHash, env.hash(jti.value)),
                 (ToolName, tool),
                 (ArgumentsHashField, ArgumentsHash(env.hash, CheckedArguments(request.body))),
                 (SessionHash, env.hash(HeaderOf(headers, "mcp-session-id")))])
  }

  datatype Verdict = Untrusted | Trusted(subject: string, status: string) | Refused(code: string)

  function VerifyingRequest(env: Env, config: Config, rows: Rows, call: Call): (Rows, Verdict) {
    match CheckRequest(env, config, call.request)
    case PassThrough => (rows, Untrusted)
    case Stop(code) => (rows, Refused(code))
    case Offer(subject, expected) =>
      var (rows', result) :=
        Verifying(env, config.maxAge, rows, call.jws, expected, call.now, call.deletion, call.fault);
      match result
      case Good(_) => (rows', Trusted(subject, env.lower(call.jws.state)))
      case Bad(error) =>
        (rows', Refused(if env.upper(ErrorState(error)) == "REVOKED" then "dnsid_revoked" else "action_proof_denied"))
  }

  datatype Response = Rejected(id: Option<Json>, code: string) | Forward(body: Json, headers: Headers)

  // The headers only the interceptor may set.
  function OwnHeaders(config: Config, verdict: Verdict): Headers {
    match verdict
    case Trusted(subject, status) =>
      map["x-dnsid-sub" := subject, "x-dnsid-status" := status, "x-gateway-sentinel" := config.sentinel]
    case _ => map[]
  }

  function Transforming(env: Env, config: Config, rows: Rows, call: Call): (Rows, Response) {
    var (rows', verdict) := VerifyingRequest(env, config, rows, call);
    (rows',
     match verdict
     case Refused(code) => Rejected(Member(Some(call.request.body), "id"), code)
     case _ =>
       Forward(
         call.request.body,
         Normalized(env, call.request.headers) - PROTECTED_HEADERS + OwnHeaders(config, verdict)))
  }

  method VerifyRequest(env: Env, config: Config, verifier: Verifier, call: Call) returns (verdict: Verdict)
    requires verifier.maxAge == config.maxAge
    modifies verifier.store
    ensures (verifier.store.rows, verdict) == VerifyingRequest(env, config, old(verifier.store.rows), call)
    ensures verdict.Untrusted? <==> Member(Some(call.request.body), "method") != Some(Text("tools/call"))
    ensures verdict.Trusted? ==>
              verdict.subject == config.subject && call.jws.Verified? && env.upper(call.jws.state) == "ACTIVE"
    ensures verdict.Untrusted? ==> verifier.store.rows == old(verifier.store.rows)
  {
    hide Reserving, ArgumentsHash, CheckedArguments, Normalized, DecodePayload, FirstMismatch, Fresh;
    var stage := CheckRequest(env, config, call.request);
    match stage
    case PassThrough => return Untrusted;
    case Stop(code) => return Refused(code);
    case Offer(subject, expected) =>
      var result := verifier.Verify(env, call.jws, expected, call.now, call.deletion, call.fault);
      match result {
        case Good(_) => return Trusted(subject, env.lower(call.jws.state));
        case Bad(error) =>
          var code := if env.upper(ErrorState(error)) == "REVOKED" then "dnsid_revoked" else "action_proof_denied";
          return Refused(code);
      }
  }

  method TransformRequest(env: Env, config: Config, verifier: Verifier, call: Call) returns (response: Response)
    requires verifier.maxAge == config.maxAge
    modifies verifier.store
    ensures (verifier.store.rows, response) == Transforming(env, config, old(verifier.store.rows), call)
    ensures response.Forward? ==>
              && response.body == call.request.body
              && "authorization" !in response.headers && "x-action-proof" !in response.headers
    ensures response.Forward? ==>
              var received := Normalized(env, call.request.headers);
              forall name :: name !in PROTECTED_HEADERS ==>
                && (name in response.headers <==> name in received)
                && (name in received ==> response.headers[name] == received[name])
  {
    hide VerifyingRequest;
    var verdict := VerifyRequest(env, config, verifier, call);
    if verdict.Refused? { return Rejected(Member(Some(call.request.body), "id"), verdict.code); }
    var normalized := Normalized(env, call.request.headers);
    var headers := map key | key in normalized && key !in PROTECTED_HEADERS :: normalized[key];
    assert headers == normalized - PROTECTED_HEADERS;
    if verdict.Trusted? {
      headers := headers["x-dnsid-sub" := verdict.subject];
      headers := headers["x-dnsid-status" := verdict.status];
      headers := headers["x-gateway-sentinel" := config.sentinel];
    }
    assert headers == normalized - PROTECTED_HEADERS + OwnHeaders(config, verdict);
    return Forward(call.request.body, headers);
  }

  // ---------------------------------------------------------------- The target

  datatype Event = Event(headers: seq<(string, string)>, body: Option<Json>)

  datatype OrderReply =
    | OrderAccepted(subject: Option<string>, sku: string, quantity: int)
    | OrderRefused(status: int)

  function Lowered(env: Env, headers: seq<(string, string)>): Headers {
    if headers == [] then map[]
    else
      var last := headers[|headers| - 1];
      Lowered(env, headers[..|headers| - 1])[env.lower(last.0) := last.1]
  }

  // The order object of a body: itself, or parsed from text.
  function OrderOf(env: Env, body: Option<Json>): Option<Json> {
    match body
    case Some(Text(text)) => Loads(env.loads, text)
    case _ => body
  }

  function Target(env: Env, sentinel: string, event: Event): OrderReply {
    var headers := Lowered(env, event.headers);
    if sentinel == "" || HeaderOf(headers, "x-gateway-sentinel") != sentinel then OrderRefused(403)
    else if HeaderOf(headers, "x-dnsid-status") != "active" then OrderRefused(403)
    else
      match OrderOf(env, event.body)
      case Some(Obj(order)) =>
        var sku, quantity := Find(order, "sku"), Find(order, "quantity");
        if !(sku.Some? && sku.value.Text?) || sku.value.text == "" || |sku.value.text| > 64 then OrderRefused(400)
        else if !(quantity.Some? && quantity.value.Num? && 1 <= quantity.value.number <= 10) then OrderRefused(400)
        else
          OrderAccepted(
            if "x-dnsid-sub" in headers then Some(headers["x-dnsid-sub"]) else None,
            sku.value.text, quantity.value.number)
      case _ => OrderRefused(400)
  }

  // The gateway hands the target the forwarded headers, in some order, and params.arguments as the body.
  ghost predicate Delivers(response: Response, event: Event) {
    && response.Forward?
    && (forall i, j :: 0 <= i < j < |event.headers| ==> event.headers[i].0 != event.headers[j].0)
    && (forall i :: 0 <= i < |event.headers| ==>
          event.headers[i].0 in response.headers && response.headers[event.headers[i].0] == event.headers[i].1)
    && (forall key :: key in response.headers ==> exists i :: 0 <= i < |event.headers| && event.headers[i].0 == key)
    && event.body == Member(Member(Some(response.body), "params"), "arguments")
  }

  // str.lower() leaves lower-case text alone, and the names used here are lower case.
  ghost predicate Lowers(env: Env) {
    && (forall s :: env.lower(env.lower(s)) == env.lower(s))
    && (forall name :: name in PROTECTED_HEADERS ==> env.lower(name) == name)
  }
}
