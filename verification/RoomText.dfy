/** Room IDs are counted in characters: the octets validation accepts are exactly the UTF-8 of some text. */
module RoomText {
  import opened Bytes
  import opened Board
  import opened Validation
  import TxtStrings

  // Two to four octets that make a sequence spell a character whose encoding they are.
  lemma TwoSpell(a: byte, b: byte) returns (c: char)
    requires 0xC2 <= a < 0xE0 && Continuation(b)
    ensures TxtStrings.Utf8(c) == [a, b]
  {
    var x: int, y: int := a - 0xC0, b - 0x80;
    var n := x * 0x40 + y;
    c := n as char;
    assert n / 0x40 == x && n % 0x40 == y;
  }

  lemma ThreeSpell(a: byte, b: byte, d: byte) returns (c: char)
    requires 0xE0 <= a < 0xF0 && Continuation(b) && Continuation(d)
    requires (a == 0xE0 ==> b >= 0xA0) && (a == 0xED ==> b < 0xA0)
    ensures TxtStrings.Utf8(c) == [a, b, d]
  {
    var x: int, y: int, z: int := a - 0xE0, b - 0x80, d - 0x80;
    var n := (x * 0x40 + y) * 0x40 + z;
    assert n / 0x40 == x * 0x40 + y && n % 0x40 == z;
    assert n / 0x1000 == x && n / 0x40 % 0x40 == y;
    c := n as char;
  }

  lemma FourSpell(a: byte, b: byte, d: byte, e: byte) returns (c: char)
    requires 0xF0 <= a < 0xF5 && Continuation(b) && Continuation(d) && Continuation(e)
    requires (a == 0xF0 ==> b >= 0x90) && (a == 0xF4 ==> b < 0x90)
    ensures TxtStrings.Utf8(c) == [a, b, d, e]
  {
    var x: int, y: int, z: int, w: int := a - 0xF0, b - 0x80, d - 0x80, e - 0x80;
    var n := ((x * 0x40 + y) * 0x40 + z) * 0x40 + w;
    assert n / 0x40 == (x * 0x40 + y) * 0x40 + z && n % 0x40 == w;
    assert n / 0x1000 == x * 0x40 + y && n / 0x40 % 0x40 == z;
    assert n / 0x40000 == x && n / 0x1000 % 0x40 == y;
    c := n as char;
  }

  lemma FirstCharSpelt(s: Str) returns (c: char)
    requires s != [] && RuneLength(s) > 0
    ensures TxtStrings.Utf8(c) == s[..RuneLength(s)]
  {
    var n := RuneLength(s);
    if n == 1 {
      c := s[0] as char;
      return;
    }
    hide TxtStrings.Utf8;
    if n == 2 {
      c := TwoSpell(s[0], s[1]);
      assert s[..n] == [s[0], s[1]];
    } else if n == 3 {
      c := ThreeSpell(s[0], s[1], s[2]);
      assert s[..n] == [s[0], s[1], s[2]];
    } else {
      c := FourSpell(s[0], s[1], s[2], s[3]);
      assert s[..n] == [s[0], s[1], s[2], s[3]];
    }
  }

  lemma CharIsRune(c: char, rest: Str)
    ensures RuneLength(TxtStrings.Utf8(c) + rest) == |TxtStrings.Utf8(c)|
  {
  }

  // Text has as many runes as characters.
  lemma {:induction false} TextIsCounted(s: string)
    ensures RuneCount(TxtStrings.EncodeText(s)) == Some(|s|)
  {
    if s != "" {
      TextIsCounted(s[1..]);
      var first, rest := TxtStrings.Utf8(s[0]), TxtStrings.EncodeText(s[1..]);
      CharIsRune(s[0], rest);
      assert (first + rest)[|first|..] == rest;
      hide TxtStrings.Utf8, RuneLength;
    }
  }

  // And nothing else is counted.
  lemma {:induction false} CountedIsText(octets: Str) returns (s: string)
    requires RuneCount(octets).Some?
    ensures TxtStrings.EncodeText(s) == octets && |s| == RuneCount(octets).value
  {
    hide TxtStrings.Utf8, RuneLength;
    if octets == [] {
      s := "";
    } else {
      var n := RuneLength(octets);
      var first := FirstCharSpelt(octets);
      var more := CountedIsText(octets[n..]);
      s := [first] + more;
      assert s[1..] == more;
      assert octets == octets[..n] + octets[n..];
    }
  }
}
