/** Unpadded base64url, section 5 of RFC 4648, as room keys and cursors use it. */
module Base64Url {
  import opened Bytes
  import opened Board

  type sextet = v: int | 0 <= v < 64

  // A-Z a-z 0-9 - _
  function Symbol(v: sextet): (c: byte)
    ensures c != HASH
  {
    if v < 26 then 65 + v
    else if v < 52 then 97 + (v - 26)
    else if v < 62 then 48 + (v - 52)
    else if v == 62 then 45
    else 95
  }

  function Value(c: byte): Option<sextet> {
    if 65 <= c < 91 then Some(c - 65)
    else if 97 <= c < 123 then Some(c - 97 + 26)
    else if 48 <= c < 58 then Some(c - 48 + 52)
    else if c == 45 then Some(62)
    else if c == 95 then Some(63)
    else None
  }

  // Regroups octets into six-bit digits, without padding.
  function Split(data: Str): seq<sextet> {
    if |data| == 0 then []
    else if |data| == 1 then
      [data[0] / 4, data[0] % 4 * 16]
    else if |data| == 2 then
      [data[0] / 4, data[0] % 4 * 16 + data[1] / 16, data[1] % 16 * 4]
    else
      [data[0] / 4, data[0] % 4 * 16 + data[1] / 16, data[1] % 16 * 4 + data[2] / 64, data[2] % 64]
      + Split(data[3..])
  }

  // Regroups digits into octets; spare low bits of the last digit are ignored.
  function Join(digits: seq<sextet>): Option<Str> {
    var d: seq<int> := digits;
    if |d| == 0 then Some([])
    else if |d| == 1 then None
    else
      var first: byte := d[0] * 4 + d[1] / 16;
      if |d| == 2 then Some([first])
      else
        var second: byte := d[1] % 16 * 16 + d[2] / 4;
        if |d| == 3 then Some([first, second])
        else
          var third: byte := d[2] % 4 * 64 + d[3];
          var rest := Join(digits[4..]);
          if rest.None? then None else Some([first, second, third] + rest.value)
  }

  function Symbols(digits: seq<sextet>): Str {
    if digits == [] then [] else [Symbol(digits[0])] + Symbols(digits[1..])
  }

  function Values(text: Str): Option<seq<sextet>> {
    if text == [] then Some([])
    else
      var first, rest := Value(text[0]), Values(text[1..]);
      if first.None? || rest.None? then None else Some([first.value] + rest.value)
  }

  function Encode(data: Str): Str {
    Symbols(Split(data))
  }

  function Decode(text: Str): Option<Str> {
    match Values(text)
    case None => None
    case Some(digits) => Join(digits)
  }

  lemma Regroup(a: byte, b: byte, c: byte)
    ensures a / 4 * 4 + (a % 4 * 16 + b / 16) / 16 == a
    ensures (a % 4 * 16 + b / 16) % 16 * 16 + (b % 16 * 4 + c / 64) / 4 == b
    ensures (b % 16 * 4 + c / 64) % 4 * 64 + c % 64 == c
  {
    assert (a % 4 * 16 + b / 16) / 16 == a % 4;
    assert (b % 16 * 4 + c / 64) / 4 == b % 16;
  }

  lemma {:induction false} JoinSplit(data: Str)
    ensures Join(Split(data)) == Some(data)
  {
    if |data| == 1 {
      Regroup(data[0], 0, 0);
      assert data == [data[0]];
    } else if |data| == 2 {
      Regroup(data[0], data[1], 0);
      assert data == [data[0], data[1]];
    } else if |data| >= 3 {
      JoinSplit(data[3..]);
      Regroup(data[0], data[1], data[2]);
      assert Split(data)[4..] == Split(data[3..]);
      assert data == [data[0], data[1], data[2]] + data[3..];
    }
  }

  lemma {:induction false} ValuesSymbols(digits: seq<sextet>)
    ensures Values(Symbols(digits)) == Some(digits)
  {
    if digits != [] {
      ValuesSymbols(digits[1..]);
      assert Symbols(digits)[1..] == Symbols(digits[1..]);
      assert digits == [digits[0]] + digits[1..];
    }
  }

  lemma DecodeEncode(data: Str)
    ensures Decode(Encode(data)) == Some(data)
  {
    ValuesSymbols(Split(data));
    JoinSplit(data);
  }

  lemma EncodeInjective(a: Str, b: Str)
    ensures Encode(a) == Encode(b) ==> a == b
  {
    DecodeEncode(a);
    DecodeEncode(b);
  }

  lemma {:induction false} SymbolsAlphabet(digits: seq<sextet>)
    ensures |Symbols(digits)| == |digits| && HASH !in Symbols(digits)
  {
    if digits != [] { SymbolsAlphabet(digits[1..]); }
  }

  // Encoded text is non-empty for non-empty data, and no separator the stores use occurs in it.
  lemma EncodeAlphabet(data: Str)
    ensures Encode(data) == [] <==> data == []
    ensures HASH !in Encode(data)
  {
    SymbolsAlphabet(Split(data));
  }

  // ---------------------------------------------------------------- The encoding of RFC 4648

  // Table 2 of section 5.
  lemma SymbolIsInAlphabet(v: sextet)
    ensures v < 26 ==> Symbol(v) == 'A' as int + v
    ensures 26 <= v < 52 ==> Symbol(v) == 'a' as int + (v - 26)
    ensures 52 <= v < 62 ==> Symbol(v) == '0' as int + (v - 52)
    ensures v == 62 ==> Symbol(v) == '-' as int
    ensures v == 63 ==> Symbol(v) == '_' as int
  {
  }

  lemma {:induction false} SymbolsAt(digits: seq<sextet>, i: nat)
    requires i < |digits|
    ensures |Symbols(digits)| == |digits| && Symbols(digits)[i] == Symbol(digits[i])
  {
    SymbolsAlphabet(digits);
    if i > 0 { SymbolsAt(digits[1..], i - 1); }
  }

  lemma {:induction false} SplitRest(data: Str, k: nat)
    requires 3 * k <= |data|
    ensures 4 * k <= |Split(data)| && Split(data)[4 * k..] == Split(data[3 * k..])
  {
    if k > 0 {
      SplitRest(data[3..], k - 1);
      assert Split(data)[4..] == Split(data[3..]);
      assert Split(data)[4 * k..] == Split(data)[4..][4 * (k - 1)..];
      assert data[3 * k..] == data[3..][3 * (k - 1)..];
    }
  }

  // Three octets are four digits of the same 24-bit number; one or two octets left over are two or three digits of
  // it, filled up with zero bits.
  predicate SameGroup(octets: seq<int>, digits: seq<int>) {
    if |octets| == 0 then |digits| == 0
    else if |octets| == 1 then |digits| == 2 && 0x40 * digits[0] + digits[1] == octets[0] * 16
    else if |octets| == 2 then
      |digits| == 3
      && 0x1000 * digits[0] + 0x40 * digits[1] + digits[2] == (0x100 * octets[0] + octets[1]) * 4
    else
      |octets| == 3 && |digits| == 4
      && 0x40000 * digits[0] + 0x1000 * digits[1] + 0x40 * digits[2] + digits[3]
         == 0x10000 * octets[0] + 0x100 * octets[1] + octets[2]
  }

  lemma FirstGroup(data: Str)
    ensures |data| >= 3 ==> |Split(data)| >= 4 && SameGroup(data[..3], Split(data)[..4])
    ensures |data| < 3 ==> SameGroup(data, Split(data))
  {
    if |data| >= 3 {
      var a, b, c := data[0], data[1], data[2];
      assert data[..3] == [a, b, c];
      assert Split(data)[..4] == [a / 4, a % 4 * 16 + b / 16, b % 16 * 4 + c / 64, c % 64];
    }
  }

  lemma SplitGroups(data: Str, k: nat)
    requires 3 * k <= |data|
    ensures 3 * k + 3 <= |data| ==>
              4 * k + 4 <= |Split(data)| && SameGroup(data[3 * k..3 * k + 3], Split(data)[4 * k..4 * k + 4])
    ensures |data| < 3 * k + 3 ==>
              4 * k <= |Split(data)| && SameGroup(data[3 * k..], Split(data)[4 * k..])
  {
    hide SameGroup, Split;
    SplitRest(data, k);
    FirstGroup(data[3 * k..]);
    if 3 * k + 3 <= |data| {
      assert data[3 * k..][..3] == data[3 * k..3 * k + 3];
      assert Split(data)[4 * k..][..4] == Split(data)[4 * k..4 * k + 4];
    }
  }

  // Each character is the alphabet's sign for the digit at its place.
  lemma EncodeSpells(data: Str, i: nat)
    requires i < |Split(data)|
    ensures |Encode(data)| == |Split(data)| && Encode(data)[i] == Symbol(Split(data)[i])
  {
    SymbolsAt(Split(data), i);
  }
}
