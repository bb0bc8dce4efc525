/**
 Quoted TXT data in master-file form (recipe 32, shared/dns.ts; section 5.1 of RFC 1035): a list of strings, each
 between quotes, with backslash and three-digit decimal escapes.
 */
module TxtStrings {
  import opened Bytes
  import opened DecimalText

  datatype TxtError = Malformed | Unterminated | DanglingEscape

  datatype Parse<+T> = Parsed(value: T) | Failed(error: TxtError)

  // ---------------------------------------------------------------- UTF-8

  // Section 3 of RFC 3629.
  function Utf8(c: char): (octets: Str)
    ensures 1 <= |octets| <= 4
  {
    var n := c as int;
    if n < 0x80 then [n]
    else if n < 0x800 then [0xC0 + n / 0x40, 0x80 + n % 0x40]
    else if n < 0x10000 then [0xE0 + n / 0x1000, 0x80 + n / 0x40 % 0x40, 0x80 + n % 0x40]
    else [0xF0 + n / 0x40000, 0x80 + n / 0x1000 % 0x40, 0x80 + n / 0x40 % 0x40, 0x80 + n % 0x40]
  }

  // Lead and continuation octets, and the code point they spell.
  lemma Utf8Spells(c: char)
    ensures var n := c as int;
            var o: seq<int> := Utf8(c);
            && (|o| == 1 <==> n < 0x80) && (|o| <= 2 <==> n < 0x800) && (|o| <= 3 <==> n < 0x10000)
            && (forall i :: 1 <= i < |o| ==> 0x80 <= o[i] < 0xC0)
            && (|o| == 1 ==> n == o[0])
            && (|o| == 2 ==> 0xC0 <= o[0] < 0xE0 && n == (o[0] - 0xC0) * 0x40 + (o[1] - 0x80))
            && (|o| == 3 ==>
                  0xE0 <= o[0] < 0xF0 && n == (o[0] - 0xE0) * 0x1000 + (o[1] - 0x80) * 0x40 + (o[2] - 0x80))
            && (|o| == 4 ==>
                  && 0xF0 <= o[0] < 0xF8
                  && n == (o[0] - 0xF0) * 0x40000 + (o[1] - 0x80) * 0x1000 + (o[2] - 0x80) * 0x40 + (o[3] - 0x80))
  {
    var n := c as int;
    assert n == n / 0x40 * 0x40 + n % 0x40 && n / 0x40 == n / 0x1000 * 0x40 + n / 0x40 % 0x40;
    assert n / 0x1000 == n / 0x40000 * 0x40 + n / 0x1000 % 0x40;
  }

  function EncodeText(s: string): Str {
    if s == "" then [] else Utf8(s[0]) + EncodeText(s[1..])
  }

  // ---------------------------------------------------------------- What the parser computes

  function DigitOf(c: char): int {
    c as int - '0' as int
  }

  // /^\d{3}/ on what follows a backslash
  predicate ThreeDigits(s: string) {
    |s| >= 3 && DigitChar(s[0]) && DigitChar(s[1]) && DigitChar(s[2])
  }

  function DecimalOf(s: string): int
    requires ThreeDigits(s)
  {
    DigitOf(s[0]) * 100 + DigitOf(s[1]) * 10 + DigitOf(s[2])
  }

  // The contents of a quoted string up to its closing quote, as numbers, and what follows the quote.
  function ParseQuoted(s: string): (r: Parse<(seq<int>, string)>)
    ensures r.Parsed? ==> |r.value.1| < |s|
    decreases |s|
  {
    if s == "" then Failed(Unterminated)
    else if s[0] == '\"' then Parsed(([], s[1..]))
    else if s[0] == '\\' && ThreeDigits(s[1..]) then Prefixed([DecimalOf(s[1..])], ParseQuoted(s[4..]))
    else if s[0] == '\\' then
      if |s| == 1 then Failed(DanglingEscape) else Prefixed(Utf8(s[1]), ParseQuoted(s[2..]))
    else Prefixed(Utf8(s[0]), ParseQuoted(s[1..]))
  }

  function Prefixed(numbers: seq<int>, parse: Parse<(seq<int>, string)>): Parse<(seq<int>, string)> {
    match parse
    case Failed(error) => Failed(error)
    case Parsed((more, rest)) => Parsed((numbers + more, rest))
  }

  // Uint8Array keeps each number modulo 256.
  function Octet(n: int): byte {
    n % 256
  }

  function Octets(numbers: seq<int>): Str {
    if numbers == [] then [] else [Octet(numbers[0])] + Octets(numbers[1..])
  }

  // Each octet is its number, or what is left of it above 255.
  lemma {:induction false} OctetsWrap(numbers: seq<int>, i: nat)
    requires i < |numbers|
    ensures |Octets(numbers)| == |numbers|
    ensures 0 <= numbers[i] <= 255 ==> Octets(numbers)[i] == numbers[i]
    ensures var octet: int := Octets(numbers)[i]; (numbers[i] - octet) % 256 == 0
  {
    if i > 0 {
      OctetsWrap(numbers[1..], i - 1);
    } else {
      if |numbers| > 1 { OctetsWrap(numbers[1..], 0); }
    }
  }

  function Listed(strings: seq<Str>, parse: Parse<seq<Str>>): Parse<seq<Str>> {
    match parse
    case Failed(error) => Failed(error)
    case Parsed(more) => Parsed(strings + more)
  }

  function ParseStrings(s: string): Parse<seq<Str>>
    decreases |s|
  {
    if s == "" then Parsed([])
    else if s[0] == ' ' then ParseStrings(s[1..])
    else if s[0] != '\"' then Failed(Malformed)
    else
      match ParseQuoted(s[1..])
      case Failed(error) => Failed(error)
      case Parsed((numbers, rest)) => Listed([Octets(numbers)], ParseStrings(rest))
  }

  // One step of the parser inside a quoted string, by position.
  lemma QuotedStep(data: string, i: nat)
    requires i <= |data|
    ensures i == |data| ==> ParseQuoted(data[i..]) == Failed(Unterminated)
    ensures i < |data| && data[i] == '\"' ==> ParseQuoted(data[i..]) == Parsed(([], data[i + 1..]))
    ensures i < |data| && data[i] != '\"' && data[i] != '\\' ==>
              ParseQuoted(data[i..]) == Prefixed(Utf8(data[i]), ParseQuoted(data[i + 1..]))
    ensures i + 1 == |data| && data[i] == '\\' ==> ParseQuoted(data[i..]) == Failed(DanglingEscape)
  {
    hide Utf8;
    assert i < |data| ==> data[i..][1..] == data[i + 1..];
  }

  lemma EscapeStep(data: string, i: nat)
    requires i + 1 < |data| && data[i] == '\\'
    ensures ThreeDigits(data[i + 1..]) ==>
              ParseQuoted(data[i..]) == Prefixed([DecimalOf(data[i + 1..])], ParseQuoted(data[i + 4..]))
    ensures !ThreeDigits(data[i + 1..]) ==>
              ParseQuoted(data[i..]) == Prefixed(Utf8(data[i + 1]), ParseQuoted(data[i + 2..]))
  {
    hide Utf8;
    assert data[i..][1..] == data[i + 1..] && data[i..][2..] == data[i + 2..];
    assert ThreeDigits(data[i + 1..]) ==> data[i..][4..] == data[i + 4..];
  }

  // One step of the parser between quoted strings.
  lemma StringsStep(data: string, i: nat)
    requires i < |data|
    ensures data[i] == ' ' ==> ParseStrings(data[i..]) == ParseStrings(data[i + 1..])
    ensures data[i] != ' ' && data[i] != '\"' ==> ParseStrings(data[i..]) == Failed(Malformed)
    ensures data[i] == '\"' ==>
              ParseStrings(data[i..]) ==
              match ParseQuoted(data[i + 1..])
              case Failed(error) => Failed(error)
              case Parsed((numbers, rest)) => Listed([Octets(numbers)], ParseStrings(rest))
  {
    hide ParseQuoted;
    assert data[i..][1..] == data[i + 1..];
  }

  lemma NothingBefore(numbers: Parse<(seq<int>, string)>, strings: Parse<seq<Str>>)
    ensures Prefixed([], numbers) == numbers && Listed([], strings) == strings
  {
    if numbers.Parsed? { assert [] + numbers.value.0 == numbers.value.0; }
    if strings.Parsed? { assert [] + strings.value == strings.value; }
  }

  lemma PrefixedTwice(a: seq<int>, b: seq<int>, parse: Parse<(seq<int>, string)>)
    ensures Prefixed(a, Prefixed(b, parse)) == Prefixed(a + b, parse)
  {
    if parse.Parsed? { assert a + (b + parse.value.0) == (a + b) + parse.value.0; }
  }

  lemma ListedTwice(a: seq<Str>, b: seq<Str>, parse: Parse<seq<Str>>)
    ensures Listed(a, Listed(b, parse)) == Listed(a + b, parse)
  {
    if parse.Parsed? { assert a + (b + parse.value) == (a + b) + parse.value; }
  }

  // Where the two loops stand: what is left to parse, behind what has been collected.
  ghost predicate Outside(data: string, i: nat, out: seq<Str>)
    requires i <= |data|
  {
    ParseStrings(data) == Listed(out, ParseStrings(data[i..]))
  }

  ghost predicate Inside(data: string, start: nat, i: nat, numbers: seq<int>)
    requires start <= i <= |data|
  {
    ParseQuoted(data[start..]) == Prefixed(numbers, ParseQuoted(data[i..]))
  }

  lemma OutsideStart(data: string)
    ensures Outside(data, 0, [])
  {
    assert data[0..] == data;
    NothingBefore(Failed(Malformed), ParseStrings(data));
  }

  lemma OutsideStep(data: string, i: nat, out: seq<Str>)
    requires i < |data| && Outside(data, i, out) && data[i] != '\"'
    ensures data[i] == ' ' ==> Outside(data, i + 1, out)
    ensures data[i] != ' ' ==> ParseStrings(data) == Failed(Malformed)
  {
    StringsStep(data, i);
    hide ParseStrings, ParseQuoted;
  }

  lemma OutsideEnd(data: string, out: seq<Str>)
    requires Outside(data, |data|, out)
    ensures ParseStrings(data) == Parsed(out)
  {
    assert data[|data|..] == "" && out + [] == out;
  }

  lemma InsideStart(data: string, start: nat)
    requires start <= |data|
    ensures Inside(data, start, start, [])
  {
    NothingBefore(ParseQuoted(data[start..]), Failed(Malformed));
  }

  lemma InsideRaw(data: string, start: nat, i: nat, numbers: seq<int>)
    requires start <= i < |data| && Inside(data, start, i, numbers) && data[i] != '\"' && data[i] != '\\'
    ensures Inside(data, start, i + 1, numbers + Utf8(data[i]))
  {
    QuotedStep(data, i);
    hide ParseQuoted, Utf8;
    PrefixedTwice(numbers, Utf8(data[i]), ParseQuoted(data[i + 1..]));
  }

  lemma InsideEscape(data: string, start: nat, i: nat, numbers: seq<int>)
    requires start <= i && i + 1 < |data| && Inside(data, start, i, numbers) && data[i] == '\\'
    ensures ThreeDigits(data[i + 1..]) ==> Inside(data, start, i + 4, numbers + [DecimalOf(data[i + 1..])])
    ensures !ThreeDigits(data[i + 1..]) ==> Inside(data, start, i + 2, numbers + Utf8(data[i + 1]))
  {
    EscapeStep(data, i);
    hide ParseQuoted, Utf8;
    if ThreeDigits(data[i + 1..]) {
      PrefixedTwice(numbers, [DecimalOf(data[i + 1..])], ParseQuoted(data[i + 4..]));
    } else {
      PrefixedTwice(numbers, Utf8(data[i + 1]), ParseQuoted(data[i + 2..]));
    }
  }

  lemma InsideFails(data: string, start: nat, i: nat, out: seq<Str>, numbers: seq<int>)
    requires 1 <= start <= i <= |data| && data[start - 1] == '\"'
    requires Outside(data, start - 1, out) && Inside(data, start, i, numbers)
    ensures i == |data| ==> ParseStrings(data) == Failed(Unterminated)
    ensures i + 1 == |data| && data[i] == '\\' ==> ParseStrings(data) == Failed(DanglingEscape)
  {
    StringsStep(data, start - 1);
    QuotedStep(data, i);
    hide ParseStrings, ParseQuoted;
  }

  lemma Closes(data: string, start: nat, i: nat, out: seq<Str>, numbers: seq<int>)
    requires 1 <= start <= i < |data| && data[start - 1] == '\"' && data[i] == '\"'
    requires Outside(data, start - 1, out) && Inside(data, start, i, numbers)
    ensures Outside(data, i + 1, out + [Octets(numbers)])
  {
    StringsStep(data, start - 1);
    QuotedStep(data, i);
    hide ParseStrings, ParseQuoted, Octets;
    assert numbers + [] == numbers;
    ListedTwice(out, [Octets(numbers)], ParseStrings(data[i + 1..]));
  }

  // parseCharacterStrings, up to the final decoding of each string's octets.
  method ParseCharacterStrings(data: string) returns (result: Parse<seq<Str>>)
    ensures result == ParseStrings(data)
  {
    hide ParseStrings, Utf8, Octets, Outside, Inside;
    var out: seq<Str> := [];
    var i := 0;
    OutsideStart(data);
    while i < |data|
      invariant 0 <= i <= |data|
      invariant Outside(data, i, out)
      decreases |data| - i
    {
      if data[i] != '\"' { OutsideStep(data, i, out); }
      if data[i] == ' ' {
        i := i + 1;
        continue;
      }
      if data[i] != '\"' { return Failed(Malformed); }
      i := i + 1;
      ghost var start := i;
      var numbers: seq<int> := [];
      InsideStart(data, start);
      while !(i < |data| && data[i] == '\"')
        invariant start <= i <= |data|
        invariant Inside(data, start, i, numbers)
        decreases |data| - i
      {
        InsideFails(data, start, i, out, numbers);
        if i >= |data| { return Failed(Unterminated); }
        if data[i] == '\\' {
          if i + 1 < |data| { InsideEscape(data, start, i, numbers); }
          if ThreeDigits(data[i + 1..]) {
            numbers := numbers + [DecimalOf(data[i + 1..])];
            i := i + 4;
            continue;
          }
          i := i + 1;
          if i >= |data| { return Failed(DanglingEscape); }
        } else {
          InsideRaw(data, start, i, numbers);
        }
        numbers := numbers + Utf8(data[i]);
        i := i + 1;
      }
      Closes(data, start, i, out, numbers);
      i := i + 1;
      out := out + [Octets(numbers)];
    }
    OutsideEnd(data, out);
    return Parsed(out);
  }

  // ---------------------------------------------------------------- Printers

  // One written element of a quoted string.
  datatype Token = Raw(c: char) | Escaped(c: char) | Ddd(n: int)

  predicate TokenOk(token: Token) {
    match token
    case Raw(c) => c != '\"' && c != '\\'
    case Escaped(c) => !DigitChar(c)
    case Ddd(n) => 0 <= n <= 255
  }

  function ShowDigit(n: int): char
    requires 0 <= n <= 9
  {
    (n + '0' as int) as char
  }

  function Show(token: Token): string
    requires TokenOk(token)
  {
    match token
    case Raw(c) => [c]
    case Escaped(c) => ['\\', c]
    case Ddd(n) => ['\\', ShowDigit(n / 100), ShowDigit(n / 10 % 10), ShowDigit(n % 10)]
  }

  function Meaning(token: Token): Str
    requires TokenOk(token)
  {
    match token
    case Raw(c) => Utf8(c)
    case Escaped(c) => Utf8(c)
    case Ddd(n) => [n]
  }

  predicate TokensOk(tokens: seq<Token>) {
    forall i :: 0 <= i < |tokens| ==> TokenOk(tokens[i])
  }

  function ShowAll(tokens: seq<Token>): string
    requires TokensOk(tokens)
  {
    if tokens == [] then "" else Show(tokens[0]) + ShowAll(tokens[1..])
  }

  function MeaningOf(tokens: seq<Token>): Str
    requires TokensOk(tokens)
  {
    if tokens == [] then [] else Meaning(tokens[0]) + MeaningOf(tokens[1..])
  }

  function Quoted(tokens: seq<Token>): string
    requires TokensOk(tokens)
  {
    "\"" + ShowAll(tokens) + "\""
  }

  // The quoted strings, each followed by any number of spaces.
  predicate Spaces(s: string) {
    forall i :: 0 <= i < |s| ==> s[i] == ' '
  }

  datatype Written = Written(tokens: seq<Token>, gap: string)

  predicate WrittenOk(written: seq<Written>) {
    forall i :: 0 <= i < |written| ==> TokensOk(written[i].tokens) && Spaces(written[i].gap)
  }

  function TextOf(written: seq<Written>): string
    requires WrittenOk(written)
  {
    if written == [] then ""
    else Quoted(written[0].tokens) + written[0].gap + TextOf(written[1..])
  }

  function MeaningsOf(written: seq<Written>): seq<Str>
    requires WrittenOk(written)
  {
    if written == [] then [] else [MeaningOf(written[0].tokens)] + MeaningsOf(written[1..])
  }

  lemma ShownDecimal(n: int, rest: string)
    requires 0 <= n <= 999
    ensures var s := [ShowDigit(n / 100), ShowDigit(n / 10 % 10), ShowDigit(n % 10)] + rest;
            ThreeDigits(s) && DecimalOf(s) == n
  {
    assert n == n / 100 * 100 + n / 10 % 10 * 10 + n % 10;
  }

  lemma TokenParses(token: Token, rest: string)
    requires TokenOk(token)
    ensures ParseQuoted(Show(token) + rest) == Prefixed(Meaning(token), ParseQuoted(rest))
  {
    var s := Show(token) + rest;
    match token
    case Raw(c) => assert s[1..] == rest;
    case Escaped(c) =>
      assert s[1..][0] == c;
      assert s[2..] == rest;
    case Ddd(n) =>
      ShownDecimal(n, rest);
      assert s[1..] == [ShowDigit(n / 100), ShowDigit(n / 10 % 10), ShowDigit(n % 10)] + rest;
      assert s[4..] == rest;
  }

  lemma ClosingQuote(rest: string)
    ensures ParseQuoted("\"" + rest) == Parsed(([], rest))
  {
    assert ("\"" + rest)[1..] == rest;
  }

  lemma {:induction false} TokensParse(tokens: seq<Token>, rest: string)
    requires TokensOk(tokens)
    ensures ParseQuoted(ShowAll(tokens) + "\"" + rest) == Parsed((MeaningOf(tokens), rest))
  {
    hide ParseQuoted, Show, Meaning;
    if tokens == [] {
      ClosingQuote(rest);
      assert ShowAll(tokens) + "\"" + rest == "\"" + rest;
    } else {
      var more := ShowAll(tokens[1..]) + "\"" + rest;
      TokensParse(tokens[1..], rest);
      TokenParses(tokens[0], more);
      assert ShowAll(tokens) + "\"" + rest == Show(tokens[0]) + more;
    }
  }

  lemma {:induction false} OctetsOfOctets(octets: Str)
    ensures Octets(octets) == octets
  {
    if octets != [] {
      OctetsOfOctets(octets[1..]);
      assert octets == [octets[0]] + octets[1..];
    }
  }

  lemma {:induction false} SpacesSkipped(gap: string, rest: string)
    requires Spaces(gap)
    ensures ParseStrings(gap + rest) == ParseStrings(rest)
  {
    if gap == "" {
      assert gap + rest == rest;
    } else {
      assert (gap + rest)[1..] == gap[1..] + rest;
      SpacesSkipped(gap[1..], rest);
    }
  }

  lemma QuotedParses(tokens: seq<Token>, rest: string)
    requires TokensOk(tokens)
    ensures ParseStrings(Quoted(tokens) + rest) == Listed([MeaningOf(tokens)], ParseStrings(rest))
  {
    var s := Quoted(tokens) + rest;
    TokensParse(tokens, rest);
    OctetsOfOctets(MeaningOf(tokens));
    assert s[1..] == ShowAll(tokens) + "\"" + rest;
  }

  // Parsing inverts every printer that freely mixes raw characters, backslash escapes and \DDD up to 255,
  // with any spacing between the strings.
  lemma {:induction false} ParsePrinted(written: seq<Written>)
    requires WrittenOk(written)
    ensures ParseStrings(TextOf(written)) == Parsed(MeaningsOf(written))
  {
    if written != [] {
      var first, more := written[0], TextOf(written[1..]);
      ParsePrinted(written[1..]);
      SpacesSkipped(first.gap, more);
      QuotedParses(first.tokens, first.gap + more);
      hide ParseStrings, Quoted;
      assert TextOf(written) == Quoted(first.tokens) + (first.gap + more);
    }
  }

  // ---------------------------------------------------------------- Exactly what is accepted

  // Parsed contents always read as written elements: \DDD may name a number above 255, which wraps.
  predicate LooseOk(token: Token, next: string) {
    match token
    case Raw(c) => c != '\"' && c != '\\'
    case Escaped(c) => !ThreeDigits([c] + next)
    case Ddd(n) => 0 <= n <= 999
  }

  function LooseShow(token: Token): string
    requires token.Ddd? ==> 0 <= token.n <= 999
  {
    match token
    case Raw(c) => [c]
    case Escaped(c) => ['\\', c]
    case Ddd(n) => ['\\', ShowDigit(n / 100), ShowDigit(n / 10 % 10), ShowDigit(n % 10)]
  }

  function LooseMeaning(token: Token): seq<int> {
    match token
    case Raw(c) => Utf8(c)
    case Escaped(c) => Utf8(c)
    case Ddd(n) => [n]
  }

  // s is written elements up to a closing quote, meaning `numbers`, with `rest` after the quote.
  ghost predicate Reads(s: string, numbers: seq<int>, rest: string)
    decreases |s|
  {
    || (s == "\"" + rest && numbers == [])
    || exists token: Token, next: string, more: seq<int> ::
         && LooseOk(token, next)
         && s == LooseShow(token) + next && |next| < |s|
         && numbers == LooseMeaning(token) + more
         && Reads(next, more, rest)
  }

  lemma LooseTokenParses(token: Token, next: string)
    requires LooseOk(token, next)
    ensures ParseQuoted(LooseShow(token) + next) == Prefixed(LooseMeaning(token), ParseQuoted(next))
  {
    hide Utf8, ShowDigit, DecimalOf;
    var s := LooseShow(token) + next;
    match token
    case Raw(c) => assert s[1..] == next;
    case Escaped(c) =>
      assert s[1..] == [c] + next;
      assert s[2..] == next;
    case Ddd(n) =>
      ShownDecimal(n, next);
      assert s[1..] == [ShowDigit(n / 100), ShowDigit(n / 10 % 10), ShowDigit(n % 10)] + next;
      assert s[4..] == next;
  }

  lemma {:induction false} ReadsParses(s: string, numbers: seq<int>, rest: string)
    requires Reads(s, numbers, rest)
    ensures ParseQuoted(s) == Parsed((numbers, rest))
    decreases |s|
  {
    if s == "\"" + rest && numbers == [] {
      assert s[1..] == rest;
    } else {
      var token: Token, next: string, more: seq<int> :|
        && LooseOk(token, next)
        && s == LooseShow(token) + next && |next| < |s|
        && numbers == LooseMeaning(token) + more
        && Reads(next, more, rest);
      ReadsParses(next, more, rest);
      LooseTokenParses(token, next);
    }
  }

  function FirstToken(s: string): Token
    requires s != ""
  {
    if s[0] == '\\' && ThreeDigits(s[1..]) then Ddd(DecimalOf(s[1..]))
    else if s[0] == '\\' && |s| > 1 then Escaped(s[1])
    else Raw(s[0])
  }

  lemma ShowDecimal(s: string)
    requires ThreeDigits(s)
    ensures var n := DecimalOf(s);
            0 <= n <= 999 && [ShowDigit(n / 100), ShowDigit(n / 10 % 10), ShowDigit(n % 10)] == s[..3]
  {
    var a, b, c := DigitOf(s[0]), DigitOf(s[1]), DigitOf(s[2]);
    var n := a * 100 + b * 10 + c;
    assert n / 10 == a * 10 + b && n / 100 == a;
  }

  // What the first element of s is, and that it is s up to where the rest begins.
  lemma FirstTokenShown(s: string)
    requires s != "" && s[0] != '\"' && s != "\\"
    ensures var token := FirstToken(s);
            && (token.Ddd? ==> 0 <= token.n <= 999)
            && |LooseShow(token)| <= |s| && LooseShow(token) == s[..|LooseShow(token)|]
  {
    hide DecimalOf, ShowDigit;
    var token := FirstToken(s);
    if token.Ddd? {
      ShowDecimal(s[1..]);
      assert s[..4] == ['\\'] + s[1..][..3];
    } else if token.Escaped? {
      assert s[..2] == ['\\', s[1]];
    } else {
      assert s[..1] == [s[0]];
    }
  }

  lemma FirstTokenReads(s: string)
    requires s != "" && s[0] != '\"' && s != "\\"
    ensures var token := FirstToken(s);
            && (token.Ddd? ==> 0 <= token.n <= 999)
            && |LooseShow(token)| <= |s|
            && LooseOk(token, s[|LooseShow(token)|..])
            && s == LooseShow(token) + s[|LooseShow(token)|..]
            && ParseQuoted(s) == Prefixed(LooseMeaning(token), ParseQuoted(s[|LooseShow(token)|..]))
  {
    hide ParseQuoted, DecimalOf, LooseMeaning;
    FirstTokenShown(s);
    var token := FirstToken(s);
    var rest := s[|LooseShow(token)|..];
    assert s == LooseShow(token) + rest;
    if token.Escaped? { assert [s[1]] + rest == s[1..]; }
    hide LooseShow;
    LooseTokenParses(token, rest);
  }

  // The parser accepts a quoted string exactly when it reads as written elements, and finds their meaning.
  lemma {:induction false} ParsesExactly(s: string, numbers: seq<int>, rest: string)
    ensures ParseQuoted(s) == Parsed((numbers, rest)) <==> Reads(s, numbers, rest)
    decreases |s|
  {
    if Reads(s, numbers, rest) { ReadsParses(s, numbers, rest); }
    if ParseQuoted(s) == Parsed((numbers, rest)) {
      if s[0] == '\"' {
        assert s == "\"" + rest;
      } else {
        FirstTokenReads(s);
        var token := FirstToken(s);
        var next := s[|LooseShow(token)|..];
        var more := ParseQuoted(next).value.0;
        ParsesExactly(next, more, rest);
        assert LooseOk(token, next) && s == LooseShow(token) + next && numbers == LooseMeaning(token) + more;
      }
    }
  }

  // s is written elements without a closing quote, then `tail`.
  ghost predicate Elements(s: string, tail: string)
    decreases |s|
  {
    || s == tail
    || exists token: Token, next: string ::
         LooseOk(token, next) && s == LooseShow(token) + next && |next| < |s| && Elements(next, tail)
  }

  // How a quoted string fails to close: the text ends, or it ends in a backslash.
  function Remnant(error: TxtError): string {
    if error == DanglingEscape then "\\" else ""
  }

  lemma {:induction false} ElementsFail(s: string, error: TxtError)
    requires error != Malformed
    ensures ParseQuoted(s) == Failed(error) <==> Elements(s, Remnant(error))
    decreases |s|
  {
    if Elements(s, Remnant(error)) && s != Remnant(error) {
      var token: Token, next: string :|
        LooseOk(token, next) && s == LooseShow(token) + next && |next| < |s| && Elements(next, Remnant(error));
      ElementsFail(next, error);
      LooseTokenParses(token, next);
    }
    if ParseQuoted(s) == Failed(error) && s != Remnant(error) {
      FirstTokenReads(s);
      var token := FirstToken(s);
      var next := s[|LooseShow(token)|..];
      ElementsFail(next, error);
      assert LooseOk(token, next) && s == LooseShow(token) + next;
    }
  }

  // s is spaces and quoted strings meaning `strings`, then `tail`.
  ghost predicate Goes(s: string, strings: seq<Str>, tail: string)
    decreases |s|
  {
    || (s == tail && strings == [])
    || (s != "" && s[0] == ' ' && Goes(s[1..], strings, tail))
    || (s != "" && s[0] == '\"' && strings != []
        && exists numbers: seq<int>, rest: string ::
             && Reads(s[1..], numbers, rest) && |rest| < |s|
             && strings[0] == Octets(numbers) && Goes(rest, strings[1..], tail))
  }

  lemma {:induction false} GoesParses(s: string, strings: seq<Str>, tail: string)
    requires Goes(s, strings, tail)
    ensures ParseStrings(s) == Listed(strings, ParseStrings(tail))
    decreases |s|
  {
    hide ParseQuoted, Octets, Reads;
    if s == tail && strings == [] {
      NothingBefore(Failed(Malformed), ParseStrings(tail));
    } else if s[0] == ' ' {
      GoesParses(s[1..], strings, tail);
    } else {
      var numbers: seq<int>, rest: string :|
        && Reads(s[1..], numbers, rest) && |rest| < |s|
        && strings[0] == Octets(numbers) && Goes(rest, strings[1..], tail);
      ReadsParses(s[1..], numbers, rest);
      GoesParses(rest, strings[1..], tail);
      ListedTwice([strings[0]], strings[1..], ParseStrings(tail));
      assert strings == [strings[0]] + strings[1..];
    }
  }

  // How far the parser gets: to the end, or to what it cannot go on from.
  lemma {:induction false} GoesAsFar(s: string) returns (strings: seq<Str>, tail: string)
    ensures Goes(s, strings, tail)
    ensures tail == "" || (tail[0] != ' ' && (tail[0] == '\"' ==> ParseQuoted(tail[1..]).Failed?))
    decreases |s|
  {
    hide ParseQuoted, Octets, Reads;
    if s == "" || (s[0] != ' ' && s[0] != '\"') || (s[0] == '\"' && ParseQuoted(s[1..]).Failed?) {
      strings, tail := [], s;
    } else if s[0] == ' ' {
      strings, tail := GoesAsFar(s[1..]);
    } else {
      var (numbers, rest) := ParseQuoted(s[1..]).value;
      ParsesExactly(s[1..], numbers, rest);
      var more;
      more, tail := GoesAsFar(rest);
      strings := [Octets(numbers)] + more;
      assert strings[1..] == more;
    }
  }

  // The whole text is accepted exactly when it is quoted strings between spaces, and means what they mean.
  lemma AcceptsExactly(s: string, strings: seq<Str>)
    ensures ParseStrings(s) == Parsed(strings) <==> Goes(s, strings, "")
  {
    hide ParseQuoted, Goes, Octets;
    if Goes(s, strings, "") {
      GoesParses(s, strings, "");
      assert strings + [] == strings;
    }
    if ParseStrings(s) == Parsed(strings) {
      var found, tail := GoesAsFar(s);
      GoesParses(s, found, tail);
      assert found + [] == found;
    }
  }

  // What each error says of the place the parser stopped at.
  ghost predicate StopsAt(tail: string, error: TxtError) {
    && tail != ""
    && match error
       case Malformed => tail[0] != ' ' && tail[0] != '\"'
       case _ => tail[0] == '\"' && Elements(tail[1..], Remnant(error))
  }

  // It is refused with an error exactly when, after some quoted strings between spaces, it stops in that way.
  lemma RefusesExactly(s: string, error: TxtError)
    ensures ParseStrings(s) == Failed(error) <==>
            exists strings: seq<Str>, tail: string :: Goes(s, strings, tail) && StopsAt(tail, error)
  {
    hide ParseQuoted, Goes, Octets, Elements;
    if strings: seq<Str>, tail: string :| Goes(s, strings, tail) && StopsAt(tail, error) {
      GoesParses(s, strings, tail);
      if error != Malformed { ElementsFail(tail[1..], error); }
    }
    if ParseStrings(s) == Failed(error) {
      var strings, tail := GoesAsFar(s);
      GoesParses(s, strings, tail);
      if tail[0] == '\"' {
        QuotedNotMalformed(tail[1..]);
        ElementsFail(tail[1..], error);
      }
      assert StopsAt(tail, error);
    }
  }

  lemma {:induction false} QuotedNotMalformed(s: string)
    ensures ParseQuoted(s) != Failed(Malformed)
    decreases |s|
  {
    if s != "" && s[0] != '\"' && s != "\\" {
      FirstTokenReads(s);
      QuotedNotMalformed(s[|LooseShow(FirstToken(s))|..]);
    }
  }

  // ---------------------------------------------------------------- Quote and join

  function QuoteChars(s: string): seq<Token> {
    if s == "" then []
    else [if s[0] == '\"' || s[0] == '\\' then Escaped(s[0]) else Raw(s[0])] + QuoteChars(s[1..])
  }

  // s.replace(/[\\"]/g, c => "\\" + c)
  function Escape(s: string): string {
    if s == "" then "" else (if s[0] == '\"' || s[0] == '\\' then ['\\', s[0]] else [s[0]]) + Escape(s[1..])
  }

  function Quote(s: string): string {
    "\"" + Escape(s) + "\""
  }

  function QuoteAndJoin(strings: seq<string>): string {
    if strings == [] then ""
    else if |strings| == 1 then Quote(strings[0])
    else Quote(strings[0]) + " " + QuoteAndJoin(strings[1..])
  }

  function Encoded(strings: seq<string>): seq<Str> {
    if strings == [] then [] else [EncodeText(strings[0])] + Encoded(strings[1..])
  }

  lemma {:induction false} QuoteIsWritten(s: string)
    ensures TokensOk(QuoteChars(s))
    ensures ShowAll(QuoteChars(s)) == Escape(s) && MeaningOf(QuoteChars(s)) == EncodeText(s)
  {
    if s != "" {
      QuoteIsWritten(s[1..]);
      var tokens := QuoteChars(s);
      assert tokens[1..] == QuoteChars(s[1..]);
      assert TokensOk(tokens) by {
        forall i | 0 <= i < |tokens| ensures TokenOk(tokens[i]) {
          if i > 0 { assert tokens[i] == QuoteChars(s[1..])[i - 1]; }
        }
      }
    }
  }

  // Parsing gives back the octets of every list of strings that was quoted and joined.
  lemma {:induction false} ParseQuoteAndJoin(strings: seq<string>)
    ensures ParseStrings(QuoteAndJoin(strings)) == Parsed(Encoded(strings))
  {
    if strings != [] {
      var tokens := QuoteChars(strings[0]);
      QuoteIsWritten(strings[0]);
      ParseQuoteAndJoin(strings[1..]);
      var rest := if |strings| == 1 then "" else " " + QuoteAndJoin(strings[1..]);
      QuotedParses(tokens, rest);
      assert Quoted(tokens) == Quote(strings[0]);
      hide ParseQuoted, Quoted, Quote, EncodeText;
      if |strings| == 1 {
        assert Quote(strings[0]) + rest == QuoteAndJoin(strings);
        assert strings[1..] == [];
      } else {
        assert QuoteAndJoin(strings) == Quote(strings[0]) + rest;
        assert rest[1..] == QuoteAndJoin(strings[1..]);
      }
    }
  }

  // ---------------------------------------------------------------- The octets identify the strings

  lemma Utf8PrefixFree(a: char, b: char, x: Str, y: Str)
    requires Utf8(a) + x == Utf8(b) + y
    ensures a == b && x == y
  {
    var s, t := Utf8(a) + x, Utf8(b) + y;
    assert s[0] == Utf8(a)[0] && t[0] == Utf8(b)[0];
    assert |Utf8(a)| == |Utf8(b)|;
    assert forall i :: 0 <= i < |Utf8(a)| ==> s[i] == Utf8(a)[i];
    assert forall i :: 0 <= i < |Utf8(b)| ==> t[i] == Utf8(b)[i];
    assert forall i :: 0 <= i < |Utf8(a)| ==> Utf8(a)[i] == Utf8(b)[i];
    Utf8Injective(a, b);
    assert s[|Utf8(a)|..] == x && t[|Utf8(b)|..] == y;
  }

  lemma Utf8Injective(a: char, b: char)
    requires Utf8(a) == Utf8(b)
    ensures a == b
  {
    var m, n := a as int, b as int;
    assert Utf8(a)[0] == Utf8(b)[0];
    if |Utf8(a)| == 2 {
      assert Utf8(a)[1] == Utf8(b)[1];
      assert m == m / 0x40 * 0x40 + m % 0x40;
    } else if |Utf8(a)| == 3 {
      assert Utf8(a)[1] == Utf8(b)[1] && Utf8(a)[2] == Utf8(b)[2];
      assert m / 0x1000 == m / 0x40 / 0x40 && n / 0x1000 == n / 0x40 / 0x40;
    } else if |Utf8(a)| == 4 {
      assert Utf8(a)[1] == Utf8(b)[1] && Utf8(a)[2] == Utf8(b)[2] && Utf8(a)[3] == Utf8(b)[3];
      assert m / 0x1000 == m / 0x40 / 0x40 && n / 0x1000 == n / 0x40 / 0x40;
      assert m / 0x40000 == m / 0x1000 / 0x40 && n / 0x40000 == n / 0x1000 / 0x40;
    }
  }

  lemma {:induction false} EncodeTextInjective(s: string, t: string)
    requires EncodeText(s) == EncodeText(t)
    ensures s == t
  {
    if s != "" && t != "" {
      Utf8PrefixFree(s[0], t[0], EncodeText(s[1..]), EncodeText(t[1..]));
      EncodeTextInjective(s[1..], t[1..]);
      assert s == [s[0]] + s[1..] && t == [t[0]] + t[1..];
    }
  }

  // Two lists of strings that print to texts with one parse are the same list.
  lemma {:induction false} ParseIdentifiesStrings(a: seq<string>, b: seq<string>)
    requires ParseStrings(QuoteAndJoin(a)) == ParseStrings(QuoteAndJoin(b))
    ensures a == b
  {
    ParseQuoteAndJoin(a);
    ParseQuoteAndJoin(b);
    EncodedInjective(a, b);
  }

  lemma {:induction false} EncodedInjective(a: seq<string>, b: seq<string>)
    requires Encoded(a) == Encoded(b)
    ensures a == b
  {
    if a != [] && b != [] {
      assert Encoded(a)[0] == Encoded(b)[0] && Encoded(a)[1..] == Encoded(b)[1..];
      EncodeTextInjective(a[0], b[0]);
      EncodedInjective(a[1..], b[1..]);
      assert a == [a[0]] + a[1..] && b == [b[0]] + b[1..];
    }
  }
}
