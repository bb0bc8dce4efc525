/** ProofVerifier of recipe 30 (orders_interceptor/proof.py): binding, freshness, state, then one reservation. */
module ProofVerifier {
  import opened Board
  import opened CanonicalJson
  import opened ActionProof
  import opened ReplayStore

  // Library functions: hashing, JSON text our printers never produce, bearer claims, case mapping, str().
  datatype Env = Env(
    hash: Digest, loads: string -> Option<Json>, claims: string -> Option<Entries>,
    lower: string -> string, upper: string -> string, str: Json -> string)

  // What the DNSid SDK says of a proof: its payload text with the signer's domain and state, or a failure.
  datatype Jws = Verified(text: string, domain: string, state: string) | Failed(state: string)

  datatype Field = Subject | Audience | TokenJTIHash | ToolName | ArgumentsHashField | SessionHash

  datatype ProofError =
    | Unverified(state: string)
    | WrongSigner
    | Mismatch(field: Field)
    | Stale
    | Inactive(state: string)
    | Replayed

  datatype Result<+T> = Good(value: T) | Bad(error: ProofError)

  function ErrorState(error: ProofError): string {
    match error
    case Unverified(state) => state
    case Inactive(state) => state
    case _ => ""
  }

  function FieldOf(payload: ActionPayload, field: Field): string {
    match field
    case Subject => payload.subject
    case Audience => payload.audience
    case TokenJTIHash => payload.tokenJTIHash
    case ToolName => payload.toolName
    case ArgumentsHashField => payload.argumentsHash
    case SessionHash => payload.sessionHash
  }

  type Expected = seq<(Field, string)>

  predicate BoundTo(payload: ActionPayload, expected: Expected) {
    forall i :: 0 <= i < |expected| ==> FieldOf(payload, expected[i].0) == expected[i].1
  }

  function FirstMismatch(payload: ActionPayload, expected: Expected): (field: Option<Field>)
    ensures field.None? <==> BoundTo(payload, expected)
  {
    if expected == [] then None
    else if FieldOf(payload, expected[0].0) != expected[0].1 then Some(expected[0].0)
    else
      assert forall i :: 1 <= i < |expected| ==> expected[i] == expected[1..][i - 1];
      FirstMismatch(payload, expected[1..])
  }

  // Every check before the reservation.
  function Precheck(env: Env, maxAge: int, jws: Jws, expected: Expected, now: int): Result<ActionPayload> {
    match jws
    case Failed(state) => Bad(Unverified(state))
    case Verified(text, domain, state) =>
      match DecodePayload(env.loads, text)
      case None => Bad(Unverified(""))
      case Some(payload) =>
        if domain != payload.subject then Bad(WrongSigner)
        else if FirstMismatch(payload, expected).Some? then Bad(Mismatch(FirstMismatch(payload, expected).value))
        else if !Fresh(maxAge, payload.timestamp, now) then Bad(Stale)
        else if env.upper(state) != "ACTIVE" then Bad(Inactive(state))
        else Good(payload)
  }

  function Verifying(
    env: Env, maxAge: int, rows: Rows, jws: Jws, expected: Expected, now: int, deletion: Deletion, fault: StoreFault)
    : (Rows, Result<ActionPayload>)
  {
    match Precheck(env, maxAge, jws, expected, now)
    case Bad(error) => (rows, Bad(error))
    case Good(payload) =>
      var (rows', reserved) :=
        Reserving(rows, deletion, fault, payload.nonce, Ttl(maxAge, payload.timestamp, now), now);
      (rows', if reserved then Good(payload) else Bad(Replayed))
  }

  class Verifier {
    const store: DynamoReplayStore
    const maxAge: int

    constructor (store: DynamoReplayStore, maxAge: int)
      ensures this.store == store && this.maxAge == maxAge
    {
      this.store := store;
      this.maxAge := maxAge;
    }

    // `jws` is what the profile makes of the proof at this moment.
    method Verify(env: Env, jws: Jws, expected: Expected, now: int, deletion: Deletion, fault: StoreFault)
      returns (result: Result<ActionPayload>)
      modifies store
      ensures (store.rows, result) == Verifying(env, maxAge, old(store.rows), jws, expected, now, deletion, fault)
    {
      hide DecodePayload, Reserving, BoundTo;
      if jws.Failed? { return Bad(Unverified(jws.state)); }
      var decoded := DecodePayload(env.loads, jws.text);
      if decoded.None? { return Bad(Unverified("")); }
      var payload := decoded.value;
      if jws.domain != payload.subject { return Bad(WrongSigner); }
      for i := 0 to |expected|
        invariant FirstMismatch(payload, expected) == FirstMismatch(payload, expected[i..])
      {
        assert expected[i..][1..] == expected[i + 1..];
        var (field, value) := expected[i];
        if FieldOf(payload, field) != value { return Bad(Mismatch(field)); }
      }
      var distance := if now < payload.timestamp then payload.timestamp - now else now - payload.timestamp;
      if distance > maxAge { return Bad(Stale); }
      if env.upper(jws.state) != "ACTIVE" { return Bad(Inactive(jws.state)); }
      var remaining := payload.timestamp + maxAge - now + 1;
      var ttl := if remaining < 1 then 1 else remaining;
      var reserved := store.Reserve(payload.nonce, ttl, now, deletion, fault);
      if !reserved { return Bad(Replayed); }
      return Good(payload);
    }
  }

  // What an active agent signs is accepted exactly when it is complete, bound to the request, fresh, and its
  // nonce is unused; the reported payload is the signed one.
  lemma SignedActionAccepted(
    env: Env, maxAge: int, rows: Rows, payload: ActionPayload, state: string, expected: Expected, now: int,
    deletion: Deletion)
    requires env.upper(state) == "ACTIVE"
    ensures var jws := Verified(EncodePayload(payload), payload.subject, state);
            var result := Verifying(env, maxAge, rows, jws, expected, now, deletion, Fine).1;
            && (result.Good? <==>
                && Complete(payload)
                && BoundTo(payload, expected)
                && payload.timestamp - maxAge <= now <= payload.timestamp + maxAge
                && payload.nonce !in Kept(rows, deletion, now))
            && (result.Good? ==> result.value == payload)
  {
    DecodeEncode(env.loads, payload);
    hide EncodePayload, DecodePayload;
  }
}
