/** Input validation (validation/room.go, request.go, dnsname.go). Unicode libraries enter as functions. */
module Validation {
  import opened Bytes
  import opened Board
  import BoardInvariant
  import Base64Url

  // norm.NFC.String, strings.TrimSpace and idna.Lookup.ToASCII: deterministic, otherwise unknown.
  datatype Text = Text(nfc: Str -> Str, trimSpace: Str -> Str, toASCII: Str -> Option<Str>)

  predicate Graphic(c: byte) {
    33 <= c <= 126
  }

  // The one fact about TrimSpace that is used: it leaves text alone whose ends are graphic ASCII.
  ghost predicate TrimsOnlySpace(text: Text) {
    forall s: Str {:trigger text.trimSpace(s)} ::
      s != [] && Graphic(s[0]) && Graphic(s[|s| - 1]) ==> text.trimSpace(s) == s
  }

  // ---------------------------------------------------------------- Room IDs

  predicate AsciiSpace(c: byte) {
    c == 32 || c == 9 || c == 13 || c == 10
  }

  predicate Continuation(c: byte) {
    0x80 <= c < 0xC0
  }

  // Length of the first UTF-8 sequence, 0 when it is malformed (section 4 of RFC 3629).
  function RuneLength(s: Str): (n: nat)
    requires s != []
    ensures n <= |s|
  {
    if s[0] < 0x80 then 1
    else if 0xC2 <= s[0] < 0xE0 && |s| >= 2 && Continuation(s[1]) then 2
    else if 0xE0 <= s[0] < 0xF0 && |s| >= 3 && Continuation(s[1]) && Continuation(s[2])
            && (s[0] == 0xE0 ==> s[1] >= 0xA0) && (s[0] == 0xED ==> s[1] < 0xA0) then 3
    else if 0xF0 <= s[0] < 0xF5 && |s| >= 4 && Continuation(s[1]) && Continuation(s[2]) && Continuation(s[3])
            && (s[0] == 0xF0 ==> s[1] >= 0x90) && (s[0] == 0xF4 ==> s[1] < 0x90) then 4
    else 0
  }

  // The number of runes, or None for text that is not UTF-8.
  function RuneCount(s: Str): Option<nat> {
    if s == [] then Some(0)
    else
      var n := RuneLength(s);
      if n == 0 then None
      else
        match RuneCount(s[n..])
        case None => None
        case Some(rest) => Some(rest + 1)
  }

  predicate Control(c: byte) {
    c < 0x20 || c == 0x7f
  }

  predicate RoomIDOk(text: Text, value: Str) {
    && value != []
    && !AsciiSpace(value[0]) && !AsciiSpace(value[|value| - 1])
    && RuneCount(value).Some?
    && text.nfc(value) == value
    && RuneCount(value).value <= 128
    && |value| <= 512
    && forall i :: 0 <= i < |value| ==> !Control(value[i])
  }

  function NormalizedRoomID(text: Text, value: Str): Outcome<Str> {
    if RoomIDOk(text, value) then Ok(value) else Err(Error.Validation)
  }

  method NormalizeRoomID(text: Text, value: Str) returns (result: Outcome<Str>)
    ensures result == NormalizedRoomID(text, value)
    ensures result == Ok(value) || result == Err(Error.Validation)
    ensures result.Ok? <==>
            && value != [] && value[0] !in {9, 10, 13, 32} && value[|value| - 1] !in {9, 10, 13, 32}
            && RuneCount(value).Some? && RuneCount(value).value <= 128 && |value| <= 512
            && text.nfc(value) == value
            && forall i :: 0 <= i < |value| ==> 32 <= value[i] != 127
  {
    if value == [] || AsciiSpace(value[0]) || AsciiSpace(value[|value| - 1]) {
      return Err(Error.Validation);
    }
    var runes := RuneCount(value);
    if runes.None? || text.nfc(value) != value || runes.value > 128 || |value| > 512 {
      return Err(Error.Validation);
    }
    // In UTF-8 a control rune is exactly a control byte.
    for i := 0 to |value|
      invariant forall j :: 0 <= j < i ==> !Control(value[j])
    {
      if Control(value[i]) { return Err(Error.Validation); }
    }
    return Ok(value);
  }

  function RoomKeyOf(text: Text, value: Str): Outcome<Str> {
    match NormalizedRoomID(text, value)
    case Err(error) => Err(error)
    case Ok(roomID) => Ok(Base64Url.Encode(roomID))
  }

  // Rooms never alias: an accepted room ID can be read back from its key.
  lemma RoomKeyInjective(text: Text, a: Str, b: Str)
    requires RoomKeyOf(text, a).Ok? && RoomKeyOf(text, a) == RoomKeyOf(text, b)
    ensures a == b
    ensures Base64Url.Decode(RoomKeyOf(text, a).value) == Some(a)
  {
    Base64Url.DecodeEncode(a);
    Base64Url.EncodeInjective(a, b);
  }

  // ---------------------------------------------------------------- Nicknames

  const DOT: byte := 46
  const DASH: byte := 45
  const UNDERSCORE: byte := 95
  const STAR: byte := 42
  const MAX_NICKNAME_LENGTH := 32

  predicate NicknameAlphaNum(c: byte) {
    97 <= c <= 122 || 65 <= c <= 90 || 48 <= c <= 57
  }

  predicate NicknameByte(c: byte) {
    NicknameAlphaNum(c) || c == DOT || c == UNDERSCORE || c == DASH
  }

  predicate NicknameOk(value: Str) {
    && 1 <= |value| <= MAX_NICKNAME_LENGTH
    && NicknameAlphaNum(value[0]) && NicknameAlphaNum(value[|value| - 1])
    && forall i :: 0 <= i < |value| ==> NicknameByte(value[i])
  }

  lemma GraphicEnds(value: Str)
    requires NicknameOk(value)
    ensures Graphic(value[0]) && Graphic(value[|value| - 1])
  {
  }

  // The display nickname and its key.
  method Nickname(text: Text, value: Str) returns (result: Outcome<(Str, Str)>)
    requires TrimsOnlySpace(text)
    ensures result == if NicknameOk(value) then Ok((value, BoardInvariant.Lower(value))) else Err(Error.Validation)
    ensures result.Ok? ==>
              && 1 <= |value| <= 32 && value[0] !in {DOT, DASH, UNDERSCORE}
              && value[|value| - 1] !in {DOT, DASH, UNDERSCORE}
  {
    if NicknameOk(value) { GraphicEnds(value); }
    if value == [] || |value| > MAX_NICKNAME_LENGTH || text.trimSpace(value) != value {
      return Err(Error.Validation);
    }
    for i := 0 to |value|
      invariant forall j :: 0 <= j < i ==> NicknameByte(value[j])
      invariant forall j :: 0 <= j < i && (j == 0 || j == |value| - 1) ==> NicknameAlphaNum(value[j])
    {
      if !NicknameByte(value[i]) { return Err(Error.Validation); }
      if (i == 0 || i == |value| - 1) && !NicknameAlphaNum(value[i]) { return Err(Error.Validation); }
    }
    return Ok((value, BoardInvariant.Lower(value)));
  }

  predicate SameButCase(a: Str, b: Str) {
    |a| == |b| && forall i :: 0 <= i < |a| ==> BoardInvariant.LowerByte(a[i]) == BoardInvariant.LowerByte(b[i])
  }

  // Keys collide exactly for nicknames that differ in case alone, and a key is its own key.
  lemma NicknameKeysCollide(a: Str, b: Str)
    ensures BoardInvariant.Lower(a) == BoardInvariant.Lower(b) <==> SameButCase(a, b)
    ensures BoardInvariant.Lower(BoardInvariant.Lower(a)) == BoardInvariant.Lower(a)
  {
    var x, y := BoardInvariant.Lower(a), BoardInvariant.Lower(b);
    if x == y {
      forall i | 0 <= i < |a| ensures BoardInvariant.LowerByte(a[i]) == BoardInvariant.LowerByte(b[i]) {
        assert x[i] == y[i];
      }
    }
  }

  // ---------------------------------------------------------------- DNS names

  predicate LdhByte(c: byte) {
    97 <= c <= 122 || 48 <= c <= 57 || c == DASH
  }

  // A letter-digit-hyphen label of 1 to 63 octets (section 2.3.4 of RFC 1035).
  predicate LabelOk(part: Str) {
    && 1 <= |part| <= 63
    && part[0] != DASH && part[|part| - 1] != DASH
    && forall i :: 0 <= i < |part| ==> LdhByte(part[i])
  }

  // strings.Split(s, ".")
  function Labels(s: Str): (labels: seq<Str>)
    ensures labels != []
  {
    if s == [] then [[]]
    else
      var rest := Labels(s[1..]);
      if s[0] == DOT then [[]] + rest else [[s[0]] + rest[0]] + rest[1..]
  }

  function TrimDot(s: Str): Str {
    if s != [] && s[|s| - 1] == DOT then s[..|s| - 1] else s
  }

  predicate HostNameOk(s: Str) {
    && 1 <= |s| <= 253
    && STAR !in s && UNDERSCORE !in s
    && |Labels(s)| >= 2
    && forall k :: 0 <= k < |Labels(s)| ==> LabelOk(Labels(s)[k])
  }

  function CanonicalDNSNameOf(text: Text, value: Str): Outcome<Str> {
    var trimmed := text.trimSpace(value);
    if trimmed == [] then Err(Error.Validation)
    else
      match text.toASCII(trimmed)
      case None => Err(Error.Validation)
      case Some(encoded) =>
        var ascii := TrimDot(BoardInvariant.Lower(encoded));
        if !HostNameOk(ascii) then Err(Error.Validation)
        else
          match text.toASCII(ascii)
          case None => Err(Error.Validation)
          case Some(roundTrip) =>
            if BoardInvariant.Lower(TrimDot(roundTrip)) != ascii then Err(Error.Validation) else Ok(ascii)
  }

  method CanonicalDNSName(text: Text, value: Str) returns (result: Outcome<Str>)
    ensures result == CanonicalDNSNameOf(text, value)
  {
    var trimmed := text.trimSpace(value);
    if trimmed == [] { return Err(Error.Validation); }
    var encoded := text.toASCII(trimmed);
    if encoded.None? { return Err(Error.Validation); }
    var ascii := BoardInvariant.Lower(encoded.value);
    ascii := TrimDot(ascii);
    if ascii == [] || |ascii| > 253 || STAR in ascii || UNDERSCORE in ascii { return Err(Error.Validation); }
    var labels := Labels(ascii);
    if |labels| < 2 { return Err(Error.Validation); }
    for k := 0 to |labels|
      invariant forall j :: 0 <= j < k ==> LabelOk(labels[j])
    {
      var part := labels[k];
      if part == [] || |part| > 63 || part[0] == DASH || part[|part| - 1] == DASH {
        return Err(Error.Validation);
      }
      for i := 0 to |part|
        invariant forall j :: 0 <= j < i ==> LdhByte(part[j])
      {
        if !LdhByte(part[i]) { return Err(Error.Validation); }
      }
    }
    var roundTrip := text.toASCII(ascii);
    if roundTrip.None? || BoardInvariant.Lower(TrimDot(roundTrip.value)) != ascii { return Err(Error.Validation); }
    return Ok(ascii);
  }

  // Every byte of a host name is a dot or belongs to one of its labels.
  lemma {:induction false} HostNameBytes(s: Str)
    requires forall k :: 0 <= k < |Labels(s)| ==> forall i :: 0 <= i < |Labels(s)[k]| ==> LdhByte(Labels(s)[k][i])
    ensures forall i :: 0 <= i < |s| ==> LdhByte(s[i]) || s[i] == DOT
  {
    if s != [] {
      var labels, rest := Labels(s), Labels(s[1..]);
      if s[0] == DOT {
        assert forall k :: 0 <= k < |rest| ==> rest[k] == labels[k + 1];
      } else {
        assert labels[0][0] == s[0];
        forall k, i | 0 <= k < |rest| && 0 <= i < |rest[k]| ensures LdhByte(rest[k][i]) {
          if k == 0 { assert labels[0][i + 1] == rest[0][i]; } else { assert labels[k] == rest[k]; }
        }
      }
      HostNameBytes(s[1..]);
      assert forall i :: 1 <= i < |s| ==> s[i] == s[1..][i - 1];
    }
  }

  lemma {:induction false} LastLabel(s: Str)
    requires s != [] && s[|s| - 1] == DOT
    ensures Labels(s)[|Labels(s)| - 1] == []
  {
    if |s| > 1 { LastLabel(s[1..]); }
  }

  // Canonical names are host names, carry no '#', and neither start nor end with a dot.
  lemma CanonicalDNSNameShape(text: Text, value: Str)
    requires CanonicalDNSNameOf(text, value).Ok?
    ensures var name := CanonicalDNSNameOf(text, value).value;
            && HostNameOk(name)
            && |name| <= 253 && |Labels(name)| >= 2
            && (forall k :: 0 <= k < |Labels(name)| ==> 1 <= |Labels(name)[k]| <= 63)
            && HASH !in name
            && Graphic(name[0]) && Graphic(name[|name| - 1])
            && TrimDot(name) == name
  {
    var name := CanonicalDNSNameOf(text, value).value;
    HostNameBytes(name);
    if name[|name| - 1] == DOT { LastLabel(name); }
  }

  lemma LowerTrimDotCommute(s: Str)
    ensures BoardInvariant.Lower(TrimDot(s)) == TrimDot(BoardInvariant.Lower(s))
  {
  }

  lemma CanonicalDNSNameIdempotent(text: Text, value: Str)
    requires TrimsOnlySpace(text) && CanonicalDNSNameOf(text, value).Ok?
    ensures CanonicalDNSNameOf(text, CanonicalDNSNameOf(text, value).value) == CanonicalDNSNameOf(text, value)
  {
    var name := CanonicalDNSNameOf(text, value).value;
    CanonicalDNSNameShape(text, value);
    assert text.trimSpace(name) == name;
    LowerTrimDotCommute(text.toASCII(name).value);
  }

  // ---------------------------------------------------------------- What splitting and lower-casing mean

  function JoinLabels(labels: seq<Str>): Str
    requires labels != []
  {
    if |labels| == 1 then labels[0] else labels[0] + [DOT] + JoinLabels(labels[1..])
  }

  // Labels are what lies between the dots.
  lemma {:induction false} LabelsJoin(s: Str)
    ensures JoinLabels(Labels(s)) == s
    ensures forall k :: 0 <= k < |Labels(s)| ==> DOT !in Labels(s)[k]
  {
    if s != [] {
      LabelsJoin(s[1..]);
      var labels, rest := Labels(s), Labels(s[1..]);
      if s[0] == DOT {
        assert labels[1..] == rest;
        assert JoinLabels(labels) == [] + [DOT] + JoinLabels(rest);
      } else {
        assert labels[1..] == rest[1..];
        if |rest| > 1 {
          assert JoinLabels(labels) == [s[0]] + rest[0] + [DOT] + JoinLabels(rest[1..]);
        }
      }
      assert s == [s[0]] + s[1..];
    }
  }

  // Capital letters become small, everything else stays.
  lemma LowersLetters(s: Str, i: nat)
    requires i < |s|
    ensures |BoardInvariant.Lower(s)| == |s|
    ensures BoardInvariant.Lower(s)[i] ==
            if 'A' as int <= s[i] <= 'Z' as int then s[i] - 'A' as int + 'a' as int else s[i]
  {
  }
}
