/** The signed action payload of recipe 30 (orders_common/proof.py). */
module ActionProof {
  import opened Board
  import opened CanonicalJson
  import opened JsonParsing

  datatype ActionPayload = ActionPayload(
    subject: string, audience: string, tokenJTIHash: string, toolName: string,
    argumentsHash: string, sessionHash: string, timestamp: int, nonce: string)

  const FIELD_NAMES := {
    "subject", "audience", "token_jti_hash", "tool_name", "arguments_hash", "session_hash", "timestamp", "nonce"}

  function AsDict(payload: ActionPayload): Json {
    Obj(
      Entry("subject", Text(payload.subject),
      Entry("audience", Text(payload.audience),
      Entry("token_jti_hash", Text(payload.tokenJTIHash),
      Entry("tool_name", Text(payload.toolName),
      Entry("arguments_hash", Text(payload.argumentsHash),
      Entry("session_hash", Text(payload.sessionHash),
      Entry("timestamp", Num(payload.timestamp),
      Entry("nonce", Text(payload.nonce),
      NoEntries)))))))))
  }

  function EncodePayload(payload: ActionPayload): string {
    Print(AsDict(payload))
  }

  predicate NonEmptyText(v: Option<Json>) {
    v.Some? && v.value.Text? && v.value.text != ""
  }

  predicate Complete(payload: ActionPayload) {
    payload.subject != "" && payload.audience != "" && payload.tokenJTIHash != "" && payload.toolName != ""
    && payload.argumentsHash != "" && payload.sessionHash != "" && payload.nonce != ""
  }

  // decode_payload: None is any of its ValueErrors and TypeErrors.
  function DecodePayload(other: string -> Option<Json>, text: string): (payload: Option<ActionPayload>)
    ensures payload.Some? ==> Complete(payload.value)
  {
    match Loads(other, text)
    case Some(Obj(entries)) =>
      if Keys(entries) != FIELD_NAMES then None
      else if !NonEmptyText(Find(entries, "subject")) || !NonEmptyText(Find(entries, "audience"))
              || !NonEmptyText(Find(entries, "token_jti_hash")) || !NonEmptyText(Find(entries, "tool_name"))
              || !NonEmptyText(Find(entries, "arguments_hash")) || !NonEmptyText(Find(entries, "session_hash"))
              || !NonEmptyText(Find(entries, "nonce")) then None
      else
        (match Find(entries, "timestamp")
        case Some(Num(timestamp)) =>
          Some(ActionPayload(
                 Find(entries, "subject").value.text, Find(entries, "audience").value.text,
                 Find(entries, "token_jti_hash").value.text, Find(entries, "tool_name").value.text,
                 Find(entries, "arguments_hash").value.text, Find(entries, "session_hash").value.text,
                 timestamp, Find(entries, "nonce").value.text))
        case _ => None)
    case _ => None
  }

  // One more field in front.
  lemma {:induction false} FieldAdded(key: string, value: Json, rest: Entries)
    requires WellFormedEntries(rest) && CanonEntries(rest) == rest && key !in Keys(rest)
    requires value.Text? || value.Num?
    ensures var entries := Entry(key, value, rest);
            && WellFormedEntries(entries)
            && CanonEntries(entries) == entries
            && Keys(entries) == Keys(rest) + {key}
            && Find(entries, key) == Some(value)
            && forall k :: k != key ==> Find(entries, k) == Find(rest, k)
  {
    KeysAre(rest);
    assert Canon(value) == value && WellFormed(value);
    hide Canon, WellFormed;
  }

  lemma DictEntries(payload: ActionPayload)
    ensures var entries := AsDict(payload).entries;
            && WellFormedEntries(entries)
            && CanonEntries(entries) == entries
            && Keys(entries) == FIELD_NAMES
            && Find(entries, "subject") == Some(Text(payload.subject))
            && Find(entries, "audience") == Some(Text(payload.audience))
            && Find(entries, "token_jti_hash") == Some(Text(payload.tokenJTIHash))
            && Find(entries, "tool_name") == Some(Text(payload.toolName))
            && Find(entries, "arguments_hash") == Some(Text(payload.argumentsHash))
            && Find(entries, "session_hash") == Some(Text(payload.sessionHash))
            && Find(entries, "timestamp") == Some(Num(payload.timestamp))
            && Find(entries, "nonce") == Some(Text(payload.nonce))
  {
    var e8 := Entry("nonce", Text(payload.nonce), NoEntries);
    assert Keys(NoEntries) == {} && CanonEntries(NoEntries) == NoEntries && WellFormedEntries(NoEntries);
    hide Keys, Find, WellFormedEntries, CanonEntries;
    FieldAdded("nonce", Text(payload.nonce), NoEntries);
    var e7 := Entry("timestamp", Num(payload.timestamp), e8);
    FieldAdded("timestamp", Num(payload.timestamp), e8);
    var e6 := Entry("session_hash", Text(payload.sessionHash), e7);
    FieldAdded("session_hash", Text(payload.sessionHash), e7);
    var e5 := Entry("arguments_hash", Text(payload.argumentsHash), e6);
    FieldAdded("arguments_hash", Text(payload.argumentsHash), e6);
    var e4 := Entry("tool_name", Text(payload.toolName), e5);
    FieldAdded("tool_name", Text(payload.toolName), e5);
    var e3 := Entry("token_jti_hash", Text(payload.tokenJTIHash), e4);
    FieldAdded("token_jti_hash", Text(payload.tokenJTIHash), e4);
    var e2 := Entry("audience", Text(payload.audience), e3);
    FieldAdded("audience", Text(payload.audience), e3);
    FieldAdded("subject", Text(payload.subject), e2);
  }

  lemma SortKeepsKeys(entries: Entries)
    requires WellFormedEntries(entries)
    ensures Keys(Sort(entries)) == Keys(entries)
  {
    SortWellFormed(entries);
    KeysAre(entries);
    KeysAre(Sort(entries));
    forall k ensures k in Keys(Sort(entries)) <==> k in Keys(entries) {
      SortFinds(entries, k);
    }
  }

  lemma SortedDictFinds(payload: ActionPayload)
    ensures var entries := Sort(AsDict(payload).entries);
            && Find(entries, "subject") == Some(Text(payload.subject))
            && Find(entries, "audience") == Some(Text(payload.audience))
            && Find(entries, "token_jti_hash") == Some(Text(payload.tokenJTIHash))
            && Find(entries, "tool_name") == Some(Text(payload.toolName))
            && Find(entries, "arguments_hash") == Some(Text(payload.argumentsHash))
            && Find(entries, "session_hash") == Some(Text(payload.sessionHash))
            && Find(entries, "timestamp") == Some(Num(payload.timestamp))
            && Find(entries, "nonce") == Some(Text(payload.nonce))
  {
    var entries := AsDict(payload).entries;
    DictEntries(payload);
    hide Sort, Keys, Find, WellFormedEntries, AsDict;
    forall k ensures Find(Sort(entries), k) == Find(entries, k) {
      SortFinds(entries, k);
    }
  }

  // A payload survives encoding and decoding exactly when its strings are not empty.
  lemma DecodeEncode(other: string -> Option<Json>, payload: ActionPayload)
    ensures DecodePayload(other, EncodePayload(payload)) == if Complete(payload) then Some(payload) else None
  {
    DictEntries(payload);
    LoadsPrint(other, AsDict(payload));
    SortKeepsKeys(AsDict(payload).entries);
    SortedDictFinds(payload);
    hide Sort, Keys, Find, WellFormedEntries;
  }

  // ---------------------------------------------------------------- Argument hashes

  // SHA-256 in hexadecimal is a function of the text; where a statement needs it, it is injective.
  type Digest = string -> string

  ghost predicate Injective(hash: Digest) {
    forall a, b {:trigger hash(a), hash(b)} :: hash(a) == hash(b) ==> a == b
  }

  function ArgumentsHash(hash: Digest, arguments: Json): string {
    hash(Print(arguments))
  }

  // Equal arguments hash alike in any key order; under an injective digest nothing else does.
  lemma ArgumentsHashBinds(hash: Digest, v: Json, w: Json)
    requires WellFormed(v) && WellFormed(w)
    ensures Same(v, w) ==> ArgumentsHash(hash, v) == ArgumentsHash(hash, w)
    ensures Injective(hash) ==> (ArgumentsHash(hash, v) == ArgumentsHash(hash, w) <==> Same(v, w))
  {
    PrintIdentifies(v, w);
  }
}
