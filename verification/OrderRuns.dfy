/** Whole runs of interceptor and target: whose orders are accepted, and how often. */
module OrderRuns {
  import opened Board
  import opened CanonicalJson
  import opened JsonParsing
  import opened ActionProof
  import opened ReplayStore
  import opened ProofVerifier
  import opened Interceptor

  // ---------------------------------------------------------------- Headers

  lemma {:induction false} NormalizedKeys(env: Env, headers: seq<(string, Option<string>)>, key: string)
    requires Lowers(env) && key in Normalized(env, headers)
    ensures env.lower(key) == key
  {
    var last := headers[|headers| - 1];
    if key in Normalized(env, headers[..|headers| - 1]) {
      NormalizedKeys(env, headers[..|headers| - 1], key);
    } else {
      assert key == env.lower(last.0);
    }
  }

  predicate LowerKeys(env: Env, headers: seq<(string, string)>) {
    && (forall i, j :: 0 <= i < j < |headers| ==> headers[i].0 != headers[j].0)
    && (forall i :: 0 <= i < |headers| ==> env.lower(headers[i].0) == headers[i].0)
  }

  lemma {:induction false} LoweredHolds(env: Env, headers: seq<(string, string)>)
    requires LowerKeys(env, headers)
    ensures forall i :: 0 <= i < |headers| ==>
              headers[i].0 in Lowered(env, headers) && Lowered(env, headers)[headers[i].0] == headers[i].1
    ensures forall key :: key in Lowered(env, headers) ==> exists i :: 0 <= i < |headers| && headers[i].0 == key
  {
    if headers != [] {
      var n := |headers| - 1;
      var init := headers[..n];
      LoweredHolds(env, init);
      forall i | 0 <= i < |headers|
        ensures headers[i].0 in Lowered(env, headers) && Lowered(env, headers)[headers[i].0] == headers[i].1
      {
        if i < n { assert init[i] == headers[i]; }
      }
      forall key | key in Lowered(env, headers) ensures exists i :: 0 <= i < |headers| && headers[i].0 == key {
        if key in Lowered(env, init) {
          var i :| 0 <= i < |init| && init[i].0 == key;
          assert headers[i].0 == key;
        } else {
          assert headers[n].0 == key;
        }
      }
    }
  }

  lemma ForwardedKeys(env: Env, config: Config, rows: Rows, call: Call)
    requires Lowers(env)
    ensures var response := Transforming(env, config, rows, call).1;
            response.Forward? ==> forall key :: key in response.headers ==> env.lower(key) == key
  {
    hide VerifyingRequest, Normalized;
    var response := Transforming(env, config, rows, call).1;
    if response.Forward? {
      forall key | key in response.headers ensures env.lower(key) == key {
        if key in Normalized(env, call.request.headers) {
          NormalizedKeys(env, call.request.headers, key);
        } else {
          assert key in PROTECTED_HEADERS;
        }
      }
    }
  }

  lemma SameHeaders(env: Env, delivered: seq<(string, string)>, headers: Headers)
    requires LowerKeys(env, delivered)
    requires forall i :: 0 <= i < |delivered| ==>
               delivered[i].0 in headers && headers[delivered[i].0] == delivered[i].1
    requires forall key :: key in headers ==> exists i :: 0 <= i < |delivered| && delivered[i].0 == key
    ensures Lowered(env, delivered) == headers
  {
    LoweredHolds(env, delivered);
    hide Lowered, LowerKeys;
    forall key | key in headers ensures key in Lowered(env, delivered) && Lowered(env, delivered)[key] == headers[key] {
      var i :| 0 <= i < |delivered| && delivered[i].0 == key;
    }
    forall key | key in Lowered(env, delivered) ensures key in headers {
      var i :| 0 <= i < |delivered| && delivered[i].0 == key;
    }
  }

  // The target sees the forwarded headers as they were forwarded.
  lemma TargetSees(env: Env, config: Config, rows: Rows, call: Call, event: Event)
    requires Lowers(env) && Delivers(Transforming(env, config, rows, call).1, event)
    ensures Lowered(env, event.headers) == Transforming(env, config, rows, call).1.headers
  {
    hide Transforming, Lowered;
    ForwardedKeys(env, config, rows, call);
    SameHeaders(env, event.headers, Transforming(env, config, rows, call).1.headers);
  }

  function Seen(headers: Headers, name: string): Option<string> {
    if name in headers then Some(headers[name]) else None
  }

  // What the target reads under a protected name is the interceptor's own value or nothing,
  // whatever the caller sent under that name or any spelling of it.
  lemma ProtectedHeadersAreOwn(env: Env, config: Config, rows: Rows, call: Call, event: Event, name: string)
    requires Lowers(env) && Delivers(Transforming(env, config, rows, call).1, event)
    requires name in {"authorization", "x-action-proof", "x-dnsid-status", "x-dnsid-sub", "x-gateway-sentinel"}
    ensures Seen(Lowered(env, event.headers), name) ==
            Seen(OwnHeaders(config, VerifyingRequest(env, config, rows, call).1), name)
  {
    TargetSees(env, config, rows, call, event);
    hide VerifyingRequest, Normalized, Lowered;
  }

  // Entry i is the caller's last value under any spelling of a name.
  predicate LastUnder(env: Env, headers: seq<(string, Option<string>)>, name: string, i: int) {
    && 0 <= i < |headers| && env.lower(headers[i].0) == name && headers[i].1.Some?
    && forall j :: i < j < |headers| && env.lower(headers[j].0) == name ==> headers[j].1.None?
  }

  predicate NotSent(env: Env, headers: seq<(string, Option<string>)>, name: string) {
    forall i :: 0 <= i < |headers| && env.lower(headers[i].0) == name ==> headers[i].1.None?
  }

  lemma {:induction false} LastWins(env: Env, headers: seq<(string, Option<string>)>, name: string, i: int)
    requires LastUnder(env, headers, name, i)
    ensures Seen(Normalized(env, headers), name) == headers[i].1
  {
    var n := |headers| - 1;
    if i < n {
      assert LastUnder(env, headers[..n], name, i);
      LastWins(env, headers[..n], name, i);
      assert env.lower(headers[n].0) == name ==> headers[n].1.None?;
    }
  }

  lemma {:induction false} NothingSent(env: Env, headers: seq<(string, Option<string>)>, name: string)
    requires NotSent(env, headers, name)
    ensures name !in Normalized(env, headers)
  {
    if headers != [] {
      NothingSent(env, headers[..|headers| - 1], name);
      assert env.lower(headers[|headers| - 1].0) == name ==> headers[|headers| - 1].1.None?;
    }
  }

  // Under any other name the target reads the caller's last value, or nothing if the caller sent none.
  lemma OrdinaryHeadersPass(env: Env, config: Config, rows: Rows, call: Call, event: Event, name: string)
    requires Lowers(env) && Delivers(Transforming(env, config, rows, call).1, event)
    requires name !in {"authorization", "x-action-proof", "x-dnsid-status", "x-dnsid-sub", "x-gateway-sentinel"}
    ensures var headers := call.request.headers;
            && (forall i :: LastUnder(env, headers, name, i) ==>
                  Seen(Lowered(env, event.headers), name) == headers[i].1)
            && (NotSent(env, headers, name) ==> Seen(Lowered(env, event.headers), name) == None)
  {
    hide Normalized, VerifyingRequest, Lowered;
    TargetSees(env, config, rows, call, event);
    var headers := call.request.headers;
    assert Seen(Lowered(env, event.headers), name) == Seen(Normalized(env, headers), name);
    hide Transforming;
    forall i | LastUnder(env, headers, name, i) ensures Seen(Normalized(env, headers), name) == headers[i].1 {
      LastWins(env, headers, name, i);
    }
    if NotSent(env, headers, name) { NothingSent(env, headers, name); }
  }

  // ---------------------------------------------------------------- One accepted order

  // The payload of the proof a call offers, when every check before the reservation passes.
  function ProofOf(env: Env, config: Config, call: Call): Option<ActionPayload> {
    match CheckRequest(env, config, call.request)
    case Offer(_, expected) =>
      (match Precheck(env, config.maxAge, call.jws, expected, call.now)
       case Good(payload) => Some(payload)
       case Bad(_) => None)
    case _ => None
  }

  predicate ReservesProof(env: Env, config: Config, rows: Rows, call: Call, payload: ActionPayload) {
    Reserving(
      rows, call.deletion, call.fault, payload.nonce, Ttl(config.maxAge, payload.timestamp, call.now), call.now).1
  }

  lemma TrustedMeansProof(env: Env, config: Config, rows: Rows, call: Call)
    requires VerifyingRequest(env, config, rows, call).1.Trusted?
    ensures ProofOf(env, config, call).Some?
    ensures ReservesProof(env, config, rows, call, ProofOf(env, config, call).value)
    ensures VerifyingRequest(env, config, rows, call).1.subject == config.subject
  {
    hide Precheck, Reserving;
  }

  // What every check a proof has passed says about it.
  predicate ProofBinds(env: Env, config: Config, call: Call, payload: ActionPayload) {
    BindsCall(env, config, call, payload) && env.upper(call.jws.state) == "ACTIVE"
  }

  // All but the state of its signer.
  predicate BindsCall(env: Env, config: Config, call: Call, payload: ActionPayload) {
    && call.jws.Verified?
    && DecodePayload(env.loads, call.jws.text) == Some(payload)
    && payload.subject == call.jws.domain == config.subject
    && payload.toolName == ToolNameOf(env, Member(Member(Some(call.request.body), "params"), "name"))
    && payload.argumentsHash == env.hash(Print(CheckedArguments(call.request.body)))
    && payload.sessionHash == env.hash(HeaderOf(Normalized(env, call.request.headers), "mcp-session-id"))
    && payload.timestamp - config.maxAge <= call.now <= payload.timestamp + config.maxAge
  }

  lemma ProofIsBound(env: Env, config: Config, call: Call)
    requires ProofOf(env, config, call).Some?
    ensures ProofBinds(env, config, call, ProofOf(env, config, call).value)
  {
    hide DecodePayload, Normalized, Print, FirstMismatch, ToolNameOf, CheckedArguments, Fresh;
    var payload := ProofOf(env, config, call).value;
    FreshExactly(config.maxAge, payload.timestamp, call.now);
    var expected := CheckRequest(env, config, call.request).expected;
    assert FirstMismatch(payload, expected).None?;
    assert BoundTo(payload, expected);
    assert FieldOf(payload, expected[0].0) == expected[0].1;
    assert FieldOf(payload, expected[3].0) == expected[3].1;
    assert FieldOf(payload, expected[4].0) == expected[4].1;
    assert FieldOf(payload, expected[5].0) == expected[5].1;
  }

  // What a caller must bring before its proof is looked at: a tool call, a bearer token of the configured subject
  // with one audience and an ID, and some proof.
  predicate Credentials(env: Env, config: Config, request: Request) {
    var headers := Normalized(env, request.headers);
    var token := HeaderOf(headers, "authorization");
    && Member(Some(request.body), "method") == Some(Text("tools/call"))
    && StartsWith(token, BEARER) && HeaderOf(headers, "x-action-proof") != ""
    && var claims := env.claims(token[|BEARER|..]);
       && claims.Some?
       && RequiredString(claims.value, "sub") == Some(config.subject)
       && RequiredString(claims.value, "jti").Some?
       && SingleAudience(Find(claims.value, "aud")).Some?
  }

  // The parts of a proof that its token decides.
  predicate TokenBinds(env: Env, request: Request, payload: ActionPayload) {
    var token := HeaderOf(Normalized(env, request.headers), "authorization");
    StartsWith(token, BEARER)
    && match env.claims(token[|BEARER|..])
       case None => false
       case Some(claims) =>
         && SingleAudience(Find(claims, "aud")) == Some(payload.audience)
         && match RequiredString(claims, "jti")
            case None => false
            case Some(jti) => payload.tokenJTIHash == env.hash(jti)
  }

  // A call has a proof to reserve exactly when it has the credentials and its signed payload is bound to
  // everything it should be.
  lemma ProofExactly(env: Env, config: Config, call: Call)
    ensures ProofOf(env, config, call).Some? <==>
            && Credentials(env, config, call.request) && call.jws.Verified?
            && var payload := DecodePayload(env.loads, call.jws.text);
               payload.Some? && ProofBinds(env, config, call, payload.value)
               && TokenBinds(env, call.request, payload.value)
  {
    hide DecodePayload, Normalized, Print, ToolNameOf, CheckedArguments, Fresh, SingleAudience, RequiredString,
      FirstMismatch;
    var stage := CheckRequest(env, config, call.request);
    if stage.Offer? && call.jws.Verified? && DecodePayload(env.loads, call.jws.text).Some? {
      var payload := DecodePayload(env.loads, call.jws.text).value;
      BoundToSix(payload, stage.expected);
      FreshExactly(config.maxAge, payload.timestamp, call.now);
    }
  }

  lemma BoundToSix(payload: ActionPayload, expected: Expected)
    requires |expected| == 6
    ensures FirstMismatch(payload, expected).None? <==>
            && FieldOf(payload, expected[0].0) == expected[0].1 && FieldOf(payload, expected[1].0) == expected[1].1
            && FieldOf(payload, expected[2].0) == expected[2].1 && FieldOf(payload, expected[3].0) == expected[3].1
            && FieldOf(payload, expected[4].0) == expected[4].1 && FieldOf(payload, expected[5].0) == expected[5].1
  {
    hide FieldOf, FirstMismatch;
    assert FirstMismatch(payload, expected).None? <==> BoundTo(payload, expected);
  }

  predicate TargetAccepts(env: Env, config: Config, event: Event) {
    Target(env, config.sentinel, event).OrderAccepted?
  }

  // An order is accepted only on a call whose own proof was verified, bound to that call and reserved.
  lemma AcceptedOrderIsProved(env: Env, config: Config, rows: Rows, call: Call, event: Event)
    requires Lowers(env) && Delivers(Transforming(env, config, rows, call).1, event)
    requires TargetAccepts(env, config, event)
    ensures ProofOf(env, config, call).Some?
    ensures ProofBinds(env, config, call, ProofOf(env, config, call).value)
    ensures ReservesProof(env, config, rows, call, ProofOf(env, config, call).value)
    ensures Target(env, config.sentinel, event).subject == Some(config.subject)
  {
    hide Transforming, VerifyingRequest, Lowered, ProofBinds, ReservesProof, OrderOf;
    ProtectedHeadersAreOwn(env, config, rows, call, event, "x-gateway-sentinel");
    ProtectedHeadersAreOwn(env, config, rows, call, event, "x-dnsid-sub");
    assert VerifyingRequest(env, config, rows, call).1.Trusted?;
    TrustedMeansProof(env, config, rows, call);
    ProofIsBound(env, config, call);
  }

  // ---------------------------------------------------------------- The arguments of an order

  lemma DeliveredBody(env: Env, config: Config, rows: Rows, call: Call, event: Event)
    requires Delivers(Transforming(env, config, rows, call).1, event)
    ensures event.body == Member(Member(Some(call.request.body), "params"), "arguments")
  {
    hide VerifyingRequest, Normalized;
  }

  // The object an accepted order was read from is the one its proof was checked against
  // exactly when params.arguments is an object.
  lemma BoundExactlyForObjects(env: Env, config: Config, rows: Rows, call: Call, event: Event)
    requires Delivers(Transforming(env, config, rows, call).1, event) && TargetAccepts(env, config, event)
    ensures OrderOf(env, event.body) == Some(CheckedArguments(call.request.body))
            <==> event.body.Some? && event.body.value.Obj?
  {
    hide Delivers, Transforming;
    DeliveredBody(env, config, rows, call, event);
  }

  // An order the target's own checks pass.
  predicate GoodOrder(order: Option<Json>) {
    && order.Some? && order.value.Obj?
    && var sku, quantity := Find(order.value.entries, "sku"), Find(order.value.entries, "quantity");
       && sku.Some? && sku.value.Text? && 1 <= |sku.value.text| <= 64
       && quantity.Some? && quantity.value.Num? && 1 <= quantity.value.number <= 10
  }

  // From the caller's request to the target's answer: an order is accepted exactly when the call has a proof bound
  // to it whose nonce it reserves, the signer is active, and the order itself is good.
  lemma OrderAcceptedExactly(env: Env, config: Config, rows: Rows, call: Call, event: Event)
    requires Lowers(env) && Delivers(Transforming(env, config, rows, call).1, event)
    ensures TargetAccepts(env, config, event) <==>
            && config.sentinel != ""
            && ProofOf(env, config, call).Some?
            && ReservesProof(env, config, rows, call, ProofOf(env, config, call).value)
            && env.lower(call.jws.state) == "active"
            && GoodOrder(OrderOf(env, event.body))
  {
    hide Transforming, VerifyingRequest, Lowered, ReservesProof, ProofOf, OrderOf;
    ProtectedHeadersAreOwn(env, config, rows, call, event, "x-gateway-sentinel");
    ProtectedHeadersAreOwn(env, config, rows, call, event, "x-dnsid-status");
    TrustedExactly(env, config, rows, call);
  }

  lemma TrustedExactly(env: Env, config: Config, rows: Rows, call: Call)
    ensures var verdict := VerifyingRequest(env, config, rows, call).1;
            && (verdict.Trusted? <==>
                ProofOf(env, config, call).Some?
                && ReservesProof(env, config, rows, call, ProofOf(env, config, call).value))
            && (verdict.Trusted? ==>
                call.jws.Verified? && verdict == Trusted(config.subject, env.lower(call.jws.state)))
  {
    hide DecodePayload, Reserving, FirstMismatch, Normalized, ArgumentsHash, ToolNameOf, CheckedArguments, Fresh;
  }

  lemma SameFields(v: Json, w: Json, key: string)
    requires v.Obj? && w.Obj? && WellFormed(v) && WellFormed(w) && Same(v, w)
    requires Find(v.entries, key).Some? && !Find(v.entries, key).value.Arr? && !Find(v.entries, key).value.Obj?
    ensures Find(w.entries, key) == Find(v.entries, key)
  {
    WithinField(v.entries, w.entries, key);
  }

  lemma {:induction false} WithinField(a: Entries, b: Entries, key: string)
    requires Within(a, b) && Find(a, key).Some?
    ensures Find(b, key).Some? && Same(Find(a, key).value, Find(b, key).value)
  {
    if a.key != key { WithinField(a.rest, b, key); }
  }

  lemma CheckedWellFormed(body: Json)
    requires WellFormed(body)
    ensures WellFormed(CheckedArguments(body))
  {
    var params := Member(Some(body), "params");
    if params.Some? {
      FoundWellFormed(body.entries, "params");
      if Member(params, "arguments").Some? { FoundWellFormed(params.value.entries, "arguments"); }
    }
  }

  // Under an injective digest the accepted sku and quantity are those of whatever arguments the proof was made for.
  lemma OrderIsTheSignedOne(
    env: Env, config: Config, rows: Rows, call: Call, event: Event, signed: Json)
    requires Lowers(env) && Injective(env.hash)
    requires Delivers(Transforming(env, config, rows, call).1, event) && TargetAccepts(env, config, event)
    requires WellFormed(call.request.body) && event.body.value.Obj?
    requires WellFormed(signed) && signed.Obj?
    requires ProofOf(env, config, call).Some? ==>
               ProofOf(env, config, call).value.argumentsHash == ArgumentsHash(env.hash, signed)
    ensures var reply := Target(env, config.sentinel, event);
            && Find(signed.entries, "sku") == Some(Text(reply.sku))
            && Find(signed.entries, "quantity") == Some(Num(reply.quantity))
  {
    hide Delivers, Transforming, ProofOf, ReservesProof, Lowered, Injective, Same;
    AcceptedOrderIsProved(env, config, rows, call, event);
    DeliveredBody(env, config, rows, call, event);
    var arguments := CheckedArguments(call.request.body);
    CheckedWellFormed(call.request.body);
    ArgumentsHashBinds(env.hash, arguments, signed);
    SameFields(arguments, signed, "sku");
    SameFields(arguments, signed, "quantity");
  }

  // ---------------------------------------------------------------- Whole runs

  function RowsOf(env: Env, config: Config, calls: seq<Call>): Rows {
    if calls == [] then map[]
    else Transforming(env, config, RowsOf(env, config, calls[..|calls| - 1]), calls[|calls| - 1]).0
  }

  function AttemptOf(call: Call, payload: ActionPayload): Attempt {
    Attempt(payload.nonce, payload.timestamp, call.now, call.deletion, call.fault)
  }

  // The reservations of a run.
  function Attempts(env: Env, config: Config, calls: seq<Call>): seq<Attempt> {
    if calls == [] then []
    else
      var earlier, last := Attempts(env, config, calls[..|calls| - 1]), calls[|calls| - 1];
      match ProofOf(env, config, last)
      case Some(payload) => earlier + [AttemptOf(last, payload)]
      case None => earlier
  }

  lemma CallRows(env: Env, config: Config, rows: Rows, call: Call)
    ensures Transforming(env, config, rows, call).0 ==
            match ProofOf(env, config, call)
            case Some(payload) => Try(config.maxAge, rows, AttemptOf(call, payload)).0
            case None => rows
    ensures ProofOf(env, config, call).Some? ==>
              var payload := ProofOf(env, config, call).value;
              ReservesProof(env, config, rows, call, payload)
              == Try(config.maxAge, rows, AttemptOf(call, payload)).1
  {
    hide CheckRequest, Reserving, DecodePayload, Normalized, FirstMismatch;
  }

  lemma {:induction false} RowsAreAttempts(env: Env, config: Config, calls: seq<Call>)
    ensures RowsOf(env, config, calls) == RowsAfter(config.maxAge, Attempts(env, config, calls))
  {
    if calls != [] {
      hide ProofOf, Transforming, Try, ReservesProof;
      var init, last := calls[..|calls| - 1], calls[|calls| - 1];
      RowsAreAttempts(env, config, init);
      CallRows(env, config, RowsOf(env, config, init), last);
      var earlier, all := Attempts(env, config, init), Attempts(env, config, calls);
      if ProofOf(env, config, last).Some? {
        assert all[..|all| - 1] == earlier;
      }
    }
  }

  lemma {:induction false} AttemptsGrow(env: Env, config: Config, calls: seq<Call>, n: nat)
    requires n <= |calls|
    ensures Attempts(env, config, calls[..n]) <= Attempts(env, config, calls)
    decreases |calls|
  {
    hide ProofOf;
    if n < |calls| {
      assert calls[..|calls| - 1][..n] == calls[..n];
      AttemptsGrow(env, config, calls[..|calls| - 1], n);
    } else {
      assert calls[..n] == calls;
    }
  }

  predicate ClockOk(calls: seq<Call>) {
    forall i, j :: 0 <= i < j < |calls| ==> calls[i].now <= calls[j].now
  }

  lemma {:induction false} AttemptTimes(env: Env, config: Config, calls: seq<Call>)
    requires ClockOk(calls)
    ensures Monotone(Attempts(env, config, calls))
    ensures forall k :: 0 <= k < |Attempts(env, config, calls)| ==>
              calls != [] && Attempts(env, config, calls)[k].now <= calls[|calls| - 1].now
  {
    hide ProofOf;
    if calls != [] {
      var init := calls[..|calls| - 1];
      AttemptTimes(env, config, init);
      if init != [] { assert init[|init| - 1].now <= calls[|calls| - 1].now; }
    }
  }

  // Call i is an attempt of its own, at its place among the reservations.
  lemma PlaceOf(env: Env, config: Config, calls: seq<Call>, i: nat)
    requires i < |calls| && ProofOf(env, config, calls[i]).Some?
    ensures var attempts, earlier := Attempts(env, config, calls), Attempts(env, config, calls[..i]);
            var payload := ProofOf(env, config, calls[i]).value;
            && |earlier| < |attempts| && attempts[..|earlier|] == earlier
            && attempts[|earlier|] == AttemptOf(calls[i], payload)
            && (Accepted(config.maxAge, attempts, |earlier|)
                <==> ReservesProof(env, config, RowsOf(env, config, calls[..i]), calls[i], payload))
  {
    hide ProofOf, Try, ReservesProof, Transforming;
    var earlier := Attempts(env, config, calls[..i]);
    var upTo := Attempts(env, config, calls[..i + 1]);
    assert calls[..i + 1][..i] == calls[..i] && calls[..i + 1][i] == calls[i];
    assert upTo == earlier + [AttemptOf(calls[i], ProofOf(env, config, calls[i]).value)];
    AttemptsGrow(env, config, calls, i + 1);
    var attempts := Attempts(env, config, calls);
    assert attempts[..|earlier|] == upTo[..|earlier|] == earlier;
    assert attempts[|earlier|] == upTo[|earlier|];
    RowsAreAttempts(env, config, calls[..i]);
    CallRows(env, config, RowsOf(env, config, calls[..i]), calls[i]);
  }

  ghost predicate OrderTaken(env: Env, config: Config, calls: seq<Call>, i: nat, event: Event)
    requires i < |calls|
  {
    && Delivers(Transforming(env, config, RowsOf(env, config, calls[..i]), calls[i]).1, event)
    && TargetAccepts(env, config, event)
  }

  lemma TakenOrder(env: Env, config: Config, calls: seq<Call>, i: nat, event: Event)
    requires Lowers(env) && i < |calls| && OrderTaken(env, config, calls, i, event)
    ensures ProofOf(env, config, calls[i]).Some?
    ensures var payload := ProofOf(env, config, calls[i]).value;
            && ProofBinds(env, config, calls[i], payload)
            && ReservesProof(env, config, RowsOf(env, config, calls[..i]), calls[i], payload)
  {
    hide ProofOf, ProofBinds, ReservesProof, Transforming, Delivers, Target;
    AcceptedOrderIsProved(env, config, RowsOf(env, config, calls[..i]), calls[i], event);
  }

  // Over a whole run with a clock that does not go back, whatever the replay table loses from expiry on and
  // however its calls fail: no signed proof yields two accepted orders.
  lemma OneOrderPerProof(
    env: Env, config: Config, calls: seq<Call>, i: nat, j: nat, first: Event, second: Event)
    requires Lowers(env) && ClockOk(calls) && i < j < |calls|
    requires OrderTaken(env, config, calls, i, first) && OrderTaken(env, config, calls, j, second)
    ensures ProofOf(env, config, calls[i]).Some? && ProofOf(env, config, calls[j]).Some?
    ensures var p, q := ProofOf(env, config, calls[i]).value, ProofOf(env, config, calls[j]).value;
            (p.nonce == q.nonce ==> calls[j].now > p.timestamp + config.maxAge && p.timestamp != q.timestamp)
    ensures calls[i].jws.Verified? && calls[j].jws.Verified? && calls[i].jws.text != calls[j].jws.text
  {
    hide ProofOf, ReservesProof, OrderTaken, RowsOf, Accepted, DecodePayload, Fresh;
    TakenOrder(env, config, calls, i, first);
    TakenOrder(env, config, calls, j, second);
    PlaceOf(env, config, calls, i);
    PlaceOf(env, config, calls, j);
    AttemptTimes(env, config, calls);
    var p, q := ProofOf(env, config, calls[i]).value, ProofOf(env, config, calls[j]).value;
    var m, n := |Attempts(env, config, calls[..i])|, |Attempts(env, config, calls[..j])|;
    assert m < n by {
      PlaceOf(env, config, calls[..j], i);
      assert calls[..j][..i] == calls[..i];
    }
    if p.nonce == q.nonce {
      AtMostOnce(config.maxAge, Attempts(env, config, calls), m, n);
    }
  }
}
