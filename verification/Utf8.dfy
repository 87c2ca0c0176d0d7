/** UTF-8 as the reader and the writer of a file's text blocks use it. */
module Utf8 {
  import opened Basics

  type Byte = b: int | 0 <= b < 256
  type Bytes = seq<Byte>

  predicate Scalar(r: int) {
    0 <= r < 0xD800 || 0xE000 <= r < 0x110000
  }

  function EncodeChar(c: char): (b: Bytes)
    ensures 1 <= |b| <= 4
  {
    var r := c as int;
    if r < 0x80 then [r]
    else if r < 0x800 then [0xC0 + r / 64, 0x80 + r % 64]
    else if r < 0x10000 then [0xE0 + r / 4096, 0x80 + r / 64 % 64, 0x80 + r % 64]
    else [0xF0 + r / 262144, 0x80 + r / 4096 % 64, 0x80 + r / 64 % 64, 0x80 + r % 64]
  }

  function Encode(s: string): Bytes {
    if s == [] then [] else EncodeChar(s[0]) + Encode(s[1..])
  }

  predicate Continues(b: Byte) {
    0x80 <= b < 0xC0
  }

  function Two(a: int, b: int): int {
    (a - 0xC0) * 64 + (b - 0x80)
  }

  function Three(a: int, b: int, c: int): int {
    ((a - 0xE0) * 64 + (b - 0x80)) * 64 + (c - 0x80)
  }

  function Four(a: int, b: int, c: int, d: int): int {
    (((a - 0xF0) * 64 + (b - 0x80)) * 64 + (c - 0x80)) * 64 + (d - 0x80)
  }

  /** The first character and how many bytes it took; none when the bytes do not begin with one. */
  function DecodeChar(b: Bytes): (r: Option<(char, nat)>)
    ensures r.Some? ==> 1 <= r.value.1 <= |b|
  {
    if b == [] then None
    else if b[0] < 0x80 then Some((b[0] as char, 1))
    else if 0xC2 <= b[0] < 0xE0 && |b| >= 2 && Continues(b[1]) then
      Some((Two(b[0], b[1]) as char, 2))
    else if 0xE0 <= b[0] < 0xF0 && |b| >= 3 && Continues(b[1]) && Continues(b[2]) then
      var r := Three(b[0], b[1], b[2]);
      if r >= 0x800 && Scalar(r) then Some((r as char, 3)) else None
    else if 0xF0 <= b[0] < 0xF5 && |b| >= 4 && Continues(b[1]) && Continues(b[2]) && Continues(b[3]) then
      var r := Four(b[0], b[1], b[2], b[3]);
      if r >= 0x10000 && Scalar(r) then Some((r as char, 4)) else None
    else None
  }

  /** The text these bytes are, when they are valid UTF-8. */
  function Decode(b: Bytes): Option<string>
    decreases |b|
  {
    if b == [] then Some("")
    else
      var first := DecodeChar(b);
      if first.None? then None
      else
        var rest := Decode(b[first.value.1..]);
        if rest.None? then None else Some([first.value.0] + rest.value)
  }

  lemma Digits(r: int)
    requires 0 <= r < 0x110000
    ensures r == r / 64 * 64 + r % 64
    ensures r / 64 == r / 4096 * 64 + r / 64 % 64
    ensures r / 4096 == r / 262144 * 64 + r / 4096 % 64
  {
  }

  lemma CharRoundTrip(c: char, rest: Bytes)
    ensures DecodeChar(EncodeChar(c) + rest) == Some((c, |EncodeChar(c)|))
  {
    Digits(c as int);
  }

  /** Reading what was written gives the text back. */
  lemma {:induction false} DecodeOfEncode(s: string)
    ensures Decode(Encode(s)) == Some(s)
  {
    if s != [] {
      CharRoundTrip(s[0], Encode(s[1..]));
      assert Encode(s)[|EncodeChar(s[0])|..] == Encode(s[1..]);
      DecodeOfEncode(s[1..]);
      assert [s[0]] + s[1..] == s;
    }
  }

  /** A digit written after a number is read back as it. */
  lemma Joined(x: int, y: int)
    requires x >= 0 && 0 <= y < 64
    ensures (x * 64 + y) / 64 == x && (x * 64 + y) % 64 == y
  {
  }

  lemma JoinedTwice(x: int, y: int, z: int)
    requires x >= 0 && 0 <= y < 64 && 0 <= z < 64
    ensures var r := (x * 64 + y) * 64 + z; r % 64 == z && r / 64 % 64 == y && r / 4096 == x
  {
  }

  lemma JoinedThrice(x: int, y: int, z: int, w: int)
    requires x >= 0 && 0 <= y < 64 && 0 <= z < 64 && 0 <= w < 64
    ensures var r := ((x * 64 + y) * 64 + z) * 64 + w;
            r % 64 == w && r / 64 % 64 == z && r / 4096 % 64 == y && r / 262144 == x
  {
  }

  lemma DecodedCharEncodes(b: Bytes)
    requires DecodeChar(b).Some?
    ensures EncodeChar(DecodeChar(b).value.0) == b[..DecodeChar(b).value.1]
  {
    var n := DecodeChar(b).value.1;
    if n == 1 {
      assert b[..1] == [b[0]];
    } else if n == 2 {
      Joined(b[0] - 0xC0, b[1] - 0x80);
      assert b[..2] == [b[0], b[1]];
    } else if n == 3 {
      JoinedTwice(b[0] - 0xE0, b[1] - 0x80, b[2] - 0x80);
      assert b[..3] == [b[0], b[1], b[2]];
    } else {
      JoinedThrice(b[0] - 0xF0, b[1] - 0x80, b[2] - 0x80, b[3] - 0x80);
      assert b[..4] == [b[0], b[1], b[2], b[3]];
    }
  }

  /** And there is only one way to write a text: what reads as it is what it is written as. */
  lemma {:induction false} EncodeOfDecode(b: Bytes)
    requires Decode(b).Some?
    ensures Encode(Decode(b).value) == b
    decreases |b|
  {
    hide DecodeChar, EncodeChar;
    if b != [] {
      DecodedCharEncodes(b);
      var n := DecodeChar(b).value.1;
      EncodeOfDecode(b[n..]);
      assert b == b[..n] + b[n..];
    }
  }

  lemma {:induction false} EncodeConcat(s: string, t: string)
    ensures Encode(s + t) == Encode(s) + Encode(t)
  {
    if s == [] {
      assert s + t == t;
    } else {
      assert (s + t)[1..] == s[1..] + t;
      EncodeConcat(s[1..], t);
    }
  }

  function ByteLength(s: string): nat {
    |Encode(s)|
  }
}
