/** An accepted order that its own signed proof does not cover: one sent as text inside params.arguments. */
module UnboundOrders {
  import opened Board
  import opened CanonicalJson
  import opened JsonParsing
  import opened ActionProof
  import opened ReplayStore
  import opened ProofVerifier
  import opened Interceptor
  import opened OrderRuns

  function SmallOrder(): Json {
    Obj(Entry("quantity", Num(1), Entry("sku", Text("A"), NoEntries)))
  }

  lemma SmallOrderIsRead(env: Env)
    ensures var order := OrderOf(env, Some(Text(Print(SmallOrder()))));
            && order.Some? && order.value.Obj?
            && Find(order.value.entries, "sku") == Some(Text("A"))
            && Find(order.value.entries, "quantity") == Some(Num(1))
  {
    var rest := Entry("sku", Text("A"), NoEntries);
    assert "quantity"[0] != "sku"[0];
    hide Print, Sort, Loads;
    FieldAdded("sku", Text("A"), NoEntries);
    FieldAdded("quantity", Num(1), rest);
    hide Find, Keys, WellFormedEntries, CanonEntries;
    LoadsPrint(env.loads, SmallOrder());
    SortedCanonFinds(SmallOrder().entries);
    assert Canon(SmallOrder()) == Obj(Sort(SmallOrder().entries));
  }

  const CLAIMS_REST := Entry("aud", Text("a"), Entry("jti", Text("j"), NoEntries))

  function ClaimsOf(subject: string): Entries {
    Entry("sub", Text(subject), CLAIMS_REST)
  }

  // A working deployment: a configured subject and sentinel, a bearer token "t" for that subject, digests that are
  // not empty, and the state names the profile uses.
  ghost predicate Deployed(env: Env, config: Config) {
    && Lowers(env) && config.subject != "" && config.sentinel != "" && config.maxAge >= 0
    && env.claims("t") == Some(ClaimsOf(config.subject))
    && env.lower("active") == "active" && env.upper("active") == "ACTIVE"
    && forall s :: env.hash(s) != ""
  }

  // The body of a call of tool "order".
  function OrderBody(arguments: Json): Json {
    var params := Obj(Entry("name", Text("order"), Entry("arguments", arguments, NoEntries)));
    Obj(Entry("method", Text("tools/call"), Entry("params", params, NoEntries)))
  }

  // What the agent signs for a call of tool "order" without arguments.
  function EmptyProof(env: Env, config: Config, now: int, nonce: string): ActionPayload {
    ActionPayload(
      config.subject, "a", env.hash("j"), "order", ArgumentsHash(env.hash, Obj(NoEntries)), env.hash(""), now, nonce)
  }

  // That proof, on a call whose arguments are the text of an order.
  function TextCall(env: Env, config: Config, now: int, nonce: string): Call {
    Call(
      Request(
        [("authorization", Some("Bearer t")), ("x-action-proof", Some("p"))],
        OrderBody(Text(Print(SmallOrder())))),
      Verified(EncodePayload(EmptyProof(env, config, now, nonce)), config.subject, "active"),
      now, Everything, Fine)
  }

  function TextEvent(config: Config): Event {
    Event(
      [("x-dnsid-sub", config.subject), ("x-dnsid-status", "active"), ("x-gateway-sentinel", config.sentinel)],
      Some(Text(Print(SmallOrder()))))
  }

  lemma TextCallHeaders(env: Env, config: Config, now: int, nonce: string)
    requires Deployed(env, config)
    ensures var headers := Normalized(env, TextCall(env, config, now, nonce).request.headers);
            && headers.Keys <= PROTECTED_HEADERS
            && HeaderOf(headers, "authorization") == "Bearer t" && HeaderOf(headers, "x-action-proof") == "p"
            && HeaderOf(headers, "mcp-session-id") == ""
  {
    hide Print, SmallOrder, EncodePayload, EmptyProof;
    TwoHeaders(env, config, TextCall(env, config, now, nonce).request.headers);
    hide Normalized;
    assert "authorization"[0] == 'a' && "x-action-proof"[0] == 'x' && "mcp-session-id"[0] == 'm';
  }

  lemma TwoHeaders(env: Env, config: Config, pairs: seq<(string, Option<string>)>)
    requires Deployed(env, config) && pairs == [("authorization", Some("Bearer t")), ("x-action-proof", Some("p"))]
    ensures Normalized(env, pairs) == map["authorization" := "Bearer t", "x-action-proof" := "p"]
  {
    var first := [("authorization", Some("Bearer t"))];
    assert pairs[..1] == first && first[..0] == [];
    assert Normalized(env, first) == map["authorization" := "Bearer t"];
  }

  lemma TextCallParts(arguments: Json)
    ensures var body := OrderBody(arguments);
            && Member(Some(body), "method") == Some(Text("tools/call"))
            && Member(Member(Some(body), "params"), "name") == Some(Text("order"))
            && Member(Member(Some(body), "params"), "arguments") == Some(arguments)
            && (!arguments.Obj? ==> CheckedArguments(body) == Obj(NoEntries))
  {
    assert "method"[0] == 'm' && "params"[0] == 'p' && "name"[0] == 'n' && "arguments"[0] == 'a';
    var params := OrderBody(arguments).entries.rest.value;
    assert Find(OrderBody(arguments).entries.rest, "params") == Some(params);
    assert Find(params.entries.rest, "arguments") == Some(arguments);
    assert Find(params.entries, "arguments") == Some(arguments);
  }

  lemma TokenParts(env: Env, config: Config)
    requires Deployed(env, config)
    ensures var claims := ClaimsOf(config.subject);
            && RequiredString(claims, "sub") == Some(config.subject)
            && RequiredString(claims, "jti") == Some("j")
            && SingleAudience(Find(claims, "aud")) == Some("a")
    ensures StartsWith("Bearer t", BEARER) && "Bearer t"[|BEARER|..] == "t"
  {
    assert "sub"[0] == 's' && "aud"[0] == 'a' && "jti"[0] == 'j';
    assert Find(CLAIMS_REST.rest, "jti") == Some(Text("j")) && Find(CLAIMS_REST, "jti") == Some(Text("j"));
  }

  lemma ToolIsOrder(env: Env)
    ensures ToolNameOf(env, Some(Text("order"))) == "order"
  {
    var s := "order";
    assert s[2..5][0] == 'd' && s[1..4][0] == 'r' && s[0..3][0] == 'o';
    assert AfterSeparatorIn(s, 2) == s;
    assert AfterSeparatorIn(s, 3) == s;
    assert AfterSeparatorIn(s, 4) == s;
  }

  lemma TextCallHasProof(env: Env, config: Config, now: int, nonce: string)
    requires Deployed(env, config) && nonce != ""
    ensures ProofOf(env, config, TextCall(env, config, now, nonce)) == Some(EmptyProof(env, config, now, nonce))
  {
    hide Normalized, Print, SmallOrder, EncodePayload, DecodePayload, Find, AfterSeparator, Keys, OrderBody;
    var call := TextCall(env, config, now, nonce);
    TextCallHeaders(env, config, now, nonce);
    TextCallParts(Text(Print(SmallOrder())));
    TokenParts(env, config);
    ToolIsOrder(env);
    DecodeEncode(env.loads, EmptyProof(env, config, now, nonce));
    ProofExactly(env, config, call);
  }

  function TrustedHeaders(config: Config): Headers {
    map["x-dnsid-sub" := config.subject, "x-dnsid-status" := "active", "x-gateway-sentinel" := config.sentinel]
  }

  lemma TextCallForwards(env: Env, config: Config, rows: Rows, now: int, nonce: string)
    requires Deployed(env, config) && nonce != "" && nonce !in rows
    ensures var call := TextCall(env, config, now, nonce);
            Transforming(env, config, rows, call).1 == Forward(call.request.body, TrustedHeaders(config))
  {
    hide Normalized, Print, SmallOrder, EncodePayload, Find, ProofOf, OrderBody, VerifyingRequest;
    var call := TextCall(env, config, now, nonce);
    TextCallHeaders(env, config, now, nonce);
    TextCallHasProof(env, config, now, nonce);
    TrustedExactly(env, config, rows, call);
    assert Normalized(env, call.request.headers) - PROTECTED_HEADERS == map[];
  }

  lemma TextCallDelivered(config: Config)
    ensures Delivers(Forward(OrderBody(Text(Print(SmallOrder()))), TrustedHeaders(config)), TextEvent(config))
  {
    hide Print, SmallOrder, OrderBody, Find;
    TextCallParts(Text(Print(SmallOrder())));
    var headers := TextEvent(config).headers;
    assert headers[0].0[8] == 's' && headers[1].0[8] == 's' && headers[2].0[2] == 'g';
    assert |headers[0].0| != |headers[1].0|;
    assert headers[0].0 == "x-dnsid-sub" && headers[1].0 == "x-dnsid-status"
           && headers[2].0 == "x-gateway-sentinel";
  }

  // With a proof signed for no arguments, a call whose arguments are the text of an order goes through: the gateway
  // hands the target an event on which it takes that order, one that is not the object the proof was checked
  // against.
  lemma TextArgumentsAreNotBound(env: Env, config: Config, rows: Rows, now: int, nonce: string)
    requires Deployed(env, config) && nonce != "" && nonce !in rows
    ensures var call, event := TextCall(env, config, now, nonce), TextEvent(config);
            && Delivers(Transforming(env, config, rows, call).1, event)
            && Target(env, config.sentinel, event) == OrderAccepted(Some(config.subject), "A", 1)
            && ProofOf(env, config, call).Some?
            && ProofOf(env, config, call).value.argumentsHash == ArgumentsHash(env.hash, Obj(NoEntries))
            && OrderOf(env, event.body) != Some(Obj(NoEntries))
            && CheckedArguments(call.request.body) == Obj(NoEntries)
  {
    hide Normalized, Print, SmallOrder, EncodePayload, ProofOf, OrderBody, VerifyingRequest, OrderOf, Transforming,
      Lowered, Delivers, DecodePayload;
    var call, event := TextCall(env, config, now, nonce), TextEvent(config);
    TextCallForwards(env, config, rows, now, nonce);
    TextCallDelivered(config);
    TextCallHasProof(env, config, now, nonce);
    TextCallParts(Text(Print(SmallOrder())));
    SmallOrderIsRead(env);
    OrderAcceptedExactly(env, config, rows, call, event);
    AcceptedOrderIsProved(env, config, rows, call, event);
  }

  // Such a deployment exists with an injective digest, so no strength of the digest rules that call out.
  function Deployment(): Env {
    Env(
      (s: string) => "#" + s, (_: string) => None,
      (token: string) => Some(ClaimsOf("s")), (s: string) => s,
      (s: string) => if s == "active" then "ACTIVE" else s, (_: Json) => "")
  }

  lemma DeploymentExists()
    ensures Deployed(Deployment(), Config("s", "x", 300)) && Injective(Deployment().hash)
  {
    var hash := Deployment().hash;
    forall a: string, b: string | hash(a) == hash(b) ensures a == b {
      assert hash(a)[1..] == a && hash(b)[1..] == b;
    }
  }
}
