/** UTF-8, as in RFC 3629, to weigh text by. */
module Utf8 {

  /** How many bytes a code point takes. */
  function CharBytes(c: char): nat {
    var code := c as int;
    if code < 0x80 then 1 else if code < 0x800 then 2 else if code < 0x1_0000 then 3 else 4
  }

  function Utf8Length(s: string): nat {
    if s == "" then 0 else Utf8Length(s[..|s| - 1]) + CharBytes(s[|s| - 1])
  }

  // ---- The encoding itself ----

  type Byte = x: int | 0 <= x < 256

  /** Six bits of a code point in a continuation byte. */
  function Continuation(bits: int): Byte {
    0x80 + bits % 64
  }

  function EncodeChar(c: char): seq<Byte> {
    var code := c as int;
    if code < 0x80 then [code]
    else if code < 0x800 then [0xC0 + code / 64, Continuation(code)]
    else if code < 0x1_0000 then [0xE0 + code / 4096, Continuation(code / 64), Continuation(code)]
    else [0xF0 + code / 262144, Continuation(code / 4096), Continuation(code / 64), Continuation(code)]
  }

  function Encode(s: string): seq<Byte> {
    if s == "" then [] else EncodeChar(s[0]) + Encode(s[1..])
  }

  /** The number of bytes a first byte announces. */
  function Announced(first: Byte): nat {
    if first < 0x80 then 1 else if first < 0xE0 then 2 else if first < 0xF0 then 3 else 4
  }

  /** The code point at the start of some bytes, if they are an encoding. */
  function FirstCode(bytes: seq<Byte>): int {
    if bytes == [] || |bytes| < Announced(bytes[0]) then -1
    else match Announced(bytes[0])
      case 1 => bytes[0] as int
      case 2 => (bytes[0] as int - 0xC0) * 64 + bytes[1] as int - 0x80
      case 3 => (bytes[0] as int - 0xE0) * 4096 + (bytes[1] as int - 0x80) * 64 + bytes[2] as int - 0x80
      case _ => (bytes[0] as int - 0xF0) * 262144 + (bytes[1] as int - 0x80) * 4096 + (bytes[2] as int - 0x80) * 64 + bytes[3] as int - 0x80
  }

  lemma Digits(code: nat)
    ensures code == code / 64 * 64 + code % 64
    ensures code / 64 == code / 4096 * 64 + code / 64 % 64
    ensures code / 4096 == code / 262144 * 64 + code / 4096 % 64
  {
  }

  /** A code point can be read back from the start of its encoding, which is as long as it announces. */
  lemma FirstCodeReads(c: char, rest: seq<Byte>)
    ensures FirstCode(EncodeChar(c) + rest) == c as int
    ensures |EncodeChar(c)| == CharBytes(c) == Announced(EncodeChar(c)[0])
  {
    Digits(c as int);
  }

  /** The weight of a text is the number of its bytes. */
  lemma {:induction false} LengthIsBytes(s: string)
    ensures |Encode(s)| == Utf8Length(s)
  {
    if s != "" {
      LengthIsBytes(s[1..]);
      FirstCodeReads(s[0], Encode(s[1..]));
      LengthFromFront(s);
    }
  }

  lemma {:induction false} LengthFromFront(s: string)
    requires s != ""
    ensures Utf8Length(s) == CharBytes(s[0]) + Utf8Length(s[1..])
  {
    if |s| > 1 {
      var init := s[..|s| - 1];
      LengthFromFront(init);
      assert init[1..] == s[1..][..|s[1..]| - 1];
    }
  }

  /** No two texts have the same bytes. */
  lemma {:induction false} EncodingIsFaithful(s: string, t: string)
    requires Encode(s) == Encode(t)
    ensures s == t
  {
    if s == "" || t == "" {
      if s != "" { FirstCodeReads(s[0], Encode(s[1..])); }
      if t != "" { FirstCodeReads(t[0], Encode(t[1..])); }
    } else {
      FirstCodeReads(s[0], Encode(s[1..]));
      FirstCodeReads(t[0], Encode(t[1..]));
      assert s[0] == t[0];
      assert Encode(s)[|EncodeChar(s[0])|..] == Encode(s[1..]) && Encode(t)[|EncodeChar(t[0])|..] == Encode(t[1..]);
      EncodingIsFaithful(s[1..], t[1..]);
      assert s == [s[0]] + s[1..] && t == [t[0]] + t[1..];
    }
  }
}
