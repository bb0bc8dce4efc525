/** What a caller is told when a call or an order is refused, and what the interceptor reads from token and body. */
module OrderRefusals {
  import opened Board
  import opened CanonicalJson
  import opened JsonParsing
  import opened ActionProof
  import opened ReplayStore
  import opened ProofVerifier
  import opened Interceptor
  import opened OrderRuns

  // ---------------------------------------------------------------- Token and tool name

  // A claim counts when it is text and not empty; an audience also as the only element of a list.
  lemma ClaimsRead(claims: Entries, name: string, s: string)
    ensures RequiredString(claims, name) == Some(s) <==> s != "" && Find(claims, name) == Some(Text(s))
    ensures SingleAudience(Find(claims, name)) == Some(s) <==>
            s != "" && Find(claims, name) in {Some(Text(s)), Some(Arr(Cons(Text(s), Nil)))}
  {
  }

  predicate OccursAt(s: string, k: int) {
    0 <= k && k + 3 <= |s| && s[k] == '_' && s[k + 1] == '_' && s[k + 2] == '_'
  }

  lemma {:induction false} SeparatorIn(s: string, end: nat)
    requires end <= |s|
    requires forall k :: OccursAt(s, k) ==> k + 3 <= end
    ensures (forall k :: !OccursAt(s, k)) ==> AfterSeparatorIn(s, end) == s
    ensures forall k :: OccursAt(s, k) && (forall m :: OccursAt(s, m) ==> m <= k) ==>
              AfterSeparatorIn(s, end) == s[k + 3..]
  {
    if end >= 3 {
      assert s[end - 3..end] == "___" <==> OccursAt(s, end - 3) by {
        assert s[end - 3..end] == [s[end - 3], s[end - 2], s[end - 1]];
      }
      if !OccursAt(s, end - 3) {
        SeparatorIn(s, end - 1);
      }
    }
  }

  // The tool of a name is what follows its last three underscores in a row, or the whole name.
  lemma ToolIsLastPart(env: Env, s: string)
    ensures (forall k :: !OccursAt(s, k)) ==> ToolNameOf(env, Some(Text(s))) == s
    ensures forall k :: OccursAt(s, k) && (forall m :: OccursAt(s, m) ==> m <= k) ==>
              ToolNameOf(env, Some(Text(s))) == s[k + 3..]
    ensures ToolNameOf(env, None) == ""
  {
    SeparatorIn(s, |s|);
    hide AfterSeparatorIn, OccursAt;
  }

  // ---------------------------------------------------------------- Rejected calls

  // The token names a subject, one audience and an ID.
  predicate TokenReads(env: Env, request: Request, subject: string) {
    var token := HeaderOf(Normalized(env, request.headers), "authorization");
    StartsWith(token, "Bearer ")
    && match env.claims(token[7..])
       case None => false
       case Some(claims) =>
         && RequiredString(claims, "sub") == Some(subject)
         && RequiredString(claims, "jti").Some? && SingleAudience(Find(claims, "aud")).Some?
  }

  predicate IsToolCall(body: Json) {
    body.Obj? && Find(body.entries, "method") == Some(Text("tools/call"))
  }

  // Why a tool call is stopped before its proof is looked at, first reason first.
  lemma StopsExactly(env: Env, config: Config, request: Request)
    ensures var stage := CheckRequest(env, config, request);
            var headers := Normalized(env, request.headers);
            var bearer := StartsWith(HeaderOf(headers, "authorization"), "Bearer ");
            var proof := HeaderOf(headers, "x-action-proof") != "";
            && (stage.PassThrough? <==> !IsToolCall(request.body))
            && (stage == Stop("missing_token") <==> IsToolCall(request.body) && !bearer)
            && (stage == Stop("malformed_token") <==>
                  IsToolCall(request.body) && bearer && !exists subject :: TokenReads(env, request, subject))
            && (stage == Stop("unexpected_subject") <==>
                  && IsToolCall(request.body)
                  && exists subject :: TokenReads(env, request, subject) && subject != config.subject)
            && (stage == Stop("missing_action_proof") <==>
                  IsToolCall(request.body) && TokenReads(env, request, config.subject) && !proof)
            && (stage.Offer? <==> IsToolCall(request.body) && TokenReads(env, request, config.subject) && proof)
  {
    StopCodesDiffer();
    hide Normalized, ArgumentsHash, CheckedArguments, ToolNameOf, RequiredString, SingleAudience;
    var headers := Normalized(env, request.headers);
    var token := HeaderOf(headers, "authorization");
    if StartsWith(token, BEARER) && env.claims(token[7..]).Some? {
      var subject := RequiredString(env.claims(token[7..]).value, "sub");
      var claims := env.claims(token[7..]).value;
      if subject.Some? && RequiredString(claims, "jti").Some? && SingleAudience(Find(claims, "aud")).Some? {
        assert TokenReads(env, request, subject.value);
      }
    }
  }

  lemma StopCodesDiffer()
    ensures "missing_token" != "malformed_token" && "missing_token" != "unexpected_subject"
    ensures "missing_token" != "missing_action_proof" && "malformed_token" != "unexpected_subject"
    ensures "malformed_token" != "missing_action_proof" && "unexpected_subject" != "missing_action_proof"
  {
    assert "missing_token"[1] == 'i' && "malformed_token"[1] == 'a' && "unexpected_subject"[0] == 'u';
    assert |"missing_token"| != |"missing_action_proof"|;
  }

  // A proof that would be good but for its signer, who has been revoked; or one whose verification says so.
  predicate SignerRevoked(env: Env, config: Config, call: Call) {
    match call.jws
    case Failed(state) => env.upper(state) == "REVOKED"
    case Verified(text, _, state) =>
      && env.upper(state) == "REVOKED"
      && var payload := DecodePayload(env.loads, text);
         payload.Some? && BindsCall(env, config, call, payload.value) && TokenBinds(env, call.request, payload.value)
  }

  lemma OfferRefused(env: Env, config: Config, call: Call)
    requires CheckRequest(env, config, call.request).Offer? && env.upper("") != "REVOKED"
    ensures var checked := Precheck(env, config.maxAge, call.jws, CheckRequest(env, config, call.request).expected,
                                    call.now);
            checked.Bad? ==> (env.upper(ErrorState(checked.error)) == "REVOKED" <==> SignerRevoked(env, config, call))
    ensures ProofOf(env, config, call).Some? ==> !SignerRevoked(env, config, call)
  {
    hide DecodePayload, Normalized, Print, ToolNameOf, CheckedArguments, Fresh, SingleAudience, RequiredString,
      FirstMismatch;
    var stage := CheckRequest(env, config, call.request);
    assert "ACTIVE"[0] != "REVOKED"[0];
    if call.jws.Verified? && DecodePayload(env.loads, call.jws.text).Some? {
      var payload := DecodePayload(env.loads, call.jws.text).value;
      BoundToSix(payload, stage.expected);
      FreshExactly(config.maxAge, payload.timestamp, call.now);
    }
  }

  // A rejected call gets the request's ID back, with the reason it was stopped for; if it got as far as its proof,
  // that is revocation of a signer whose proof is otherwise bound to the call, or denial.
  lemma RejectedExactly(env: Env, config: Config, rows: Rows, call: Call)
    requires env.upper("") != "REVOKED"
    ensures var response := Transforming(env, config, rows, call).1;
            var stage := CheckRequest(env, config, call.request);
            var proved := ProofOf(env, config, call).Some?
                          && ReservesProof(env, config, rows, call, ProofOf(env, config, call).value);
            && (response.Forward? <==> !IsToolCall(call.request.body) || proved)
            && (response.Forward? ==> response.body == call.request.body)
            && (response.Rejected? ==>
                  && response.id == (if call.request.body.Obj? then Find(call.request.body.entries, "id") else None)
                  && response.code ==
                     if stage.Stop? then stage.code
                     else if SignerRevoked(env, config, call) then "dnsid_revoked" else "action_proof_denied")
  {
    hide DecodePayload, Reserving, FirstMismatch, Normalized, ArgumentsHash, ToolNameOf, CheckedArguments, Fresh,
      SingleAudience, RequiredString, BindsCall, TokenBinds, Find;
    TrustedExactly(env, config, rows, call);
    if CheckRequest(env, config, call.request).Offer? { OfferRefused(env, config, call); }
    hide SignerRevoked;
  }

  // ---------------------------------------------------------------- Refused orders

  // 403 without the interceptor's word for an active agent, 400 for an order that is none; an accepted order is
  // reported with its own item and number.
  lemma TargetAnswersExactly(env: Env, sentinel: string, event: Event)
    ensures var reply := Target(env, sentinel, event);
            var headers := Lowered(env, event.headers);
            var vouched := sentinel != "" && Seen(headers, "x-gateway-sentinel") == Some(sentinel)
                           && Seen(headers, "x-dnsid-status") == Some("active");
            && (reply == OrderRefused(403) <==> !vouched)
            && (reply == OrderRefused(400) <==> vouched && !GoodOrder(OrderOf(env, event.body)))
            && (reply.OrderRefused? ==> reply.status in {400, 403})
            && (reply.OrderAccepted? ==>
                  && OrderOf(env, event.body).value.Obj?
                  && Find(OrderOf(env, event.body).value.entries, "sku") == Some(Text(reply.sku))
                  && Find(OrderOf(env, event.body).value.entries, "quantity") == Some(Num(reply.quantity))
                  && reply.subject == Seen(headers, "x-dnsid-sub"))
  {
    hide Lowered, OrderOf;
    assert "active" != "";
  }

  // What the target reads under each protected name.
  lemma ProtectedValues(env: Env, config: Config, rows: Rows, call: Call, event: Event)
    requires Lowers(env) && Delivers(Transforming(env, config, rows, call).1, event)
    ensures var headers := Lowered(env, event.headers);
            var proved := ProofOf(env, config, call).Some?
                          && ReservesProof(env, config, rows, call, ProofOf(env, config, call).value);
            && Seen(headers, "authorization") == None && Seen(headers, "x-action-proof") == None
            && Seen(headers, "x-dnsid-sub") == (if proved then Some(config.subject) else None)
            && Seen(headers, "x-gateway-sentinel") == (if proved then Some(config.sentinel) else None)
            && (if proved
                then call.jws.Verified? && Seen(headers, "x-dnsid-status") == Some(env.lower(call.jws.state))
                else Seen(headers, "x-dnsid-status") == None)
  {
    hide Transforming, VerifyingRequest, Lowered, ReservesProof, ProofOf, Normalized, Delivers;
    TrustedExactly(env, config, rows, call);
    ProtectedHeadersAreOwn(env, config, rows, call, event, "authorization");
    ProtectedHeadersAreOwn(env, config, rows, call, event, "x-action-proof");
    ProtectedHeadersAreOwn(env, config, rows, call, event, "x-dnsid-sub");
    ProtectedHeadersAreOwn(env, config, rows, call, event, "x-dnsid-status");
    ProtectedHeadersAreOwn(env, config, rows, call, event, "x-gateway-sentinel");
    OwnNames(config, VerifyingRequest(env, config, rows, call).1);
  }

  lemma OwnNames(config: Config, verdict: Verdict)
    ensures var own := OwnHeaders(config, verdict);
            && Seen(own, "authorization") == None && Seen(own, "x-action-proof") == None
            && (match verdict
                case Trusted(subject, status) =>
                  && Seen(own, "x-dnsid-sub") == Some(subject) && Seen(own, "x-dnsid-status") == Some(status)
                  && Seen(own, "x-gateway-sentinel") == Some(config.sentinel)
                case _ =>
                  && Seen(own, "x-dnsid-sub") == None && Seen(own, "x-dnsid-status") == None
                  && Seen(own, "x-gateway-sentinel") == None)
  {
    assert "authorization"[0] == 'a' && "x-action-proof"[2] == 'a' && "x-gateway-sentinel"[2] == 'g';
    assert "x-dnsid-sub"[2] == 'd' && "x-dnsid-status"[2] == 'd' && |"x-dnsid-sub"| != |"x-dnsid-status"|;
  }
}
