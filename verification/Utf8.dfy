/** UTF-8 as Rust's `String` defines it: overlong forms, surrogates and values
    above U+10FFFF are not valid. */
module Utf8 {
  import opened Prelude

  /** The bytes of one character. */
  function EncodeChar(c: char): (r: Bytes)
    ensures 1 <= |r| <= 4
  {
    var n := c as int;
    if n < 0x80 then [n]
    else if n < 0x800 then [0xC0 + n / 64, 0x80 + n % 64]
    else if n < 0x1_0000 then [0xE0 + n / 4096, 0x80 + n / 64 % 64, 0x80 + n % 64]
    else [0xF0 + n / 262144, 0x80 + n / 4096 % 64, 0x80 + n / 64 % 64, 0x80 + n % 64]
  }

  function Encode(s: string): (r: Bytes) {
    if s == [] then [] else EncodeChar(s[0]) + Encode(s[1..])
  }

  predicate Continuation(b: byte) {
    0x80 <= b < 0xC0
  }

  predicate IsScalar(n: int) {
    0 <= n < 0xD800 || 0xE000 <= n < 0x11_0000
  }

  function Scalar2(a: int, b: int): (n: int) {
    (a - 0xC0) * 64 + (b - 0x80)
  }

  function Scalar3(a: int, b: int, c: int): (n: int) {
    (a - 0xE0) * 4096 + (b - 0x80) * 64 + (c - 0x80)
  }

  function Scalar4(a: int, b: int, c: int, d: int): (n: int) {
    (a - 0xF0) * 262144 + (b - 0x80) * 4096 + (c - 0x80) * 64 + (d - 0x80)
  }

  /** The first character of a byte string and how many bytes it takes. */
  function DecodeChar(b: Bytes): (r: Option<(char, nat)>)
    ensures r.Some? ==> 1 <= r.value.1 <= |b|
  {
    if b == [] then None
    else if b[0] < 0x80 then Some((b[0] as char, 1))
    else if 0xC0 <= b[0] < 0xE0 && |b| >= 2 && Continuation(b[1]) then
      var n := Scalar2(b[0], b[1]);
      if n < 0x80 then None else Some((n as char, 2))
    else if 0xE0 <= b[0] < 0xF0 && |b| >= 3 && Continuation(b[1]) && Continuation(b[2]) then
      var n := Scalar3(b[0], b[1], b[2]);
      if n < 0x800 || !IsScalar(n) then None else Some((n as char, 3))
    else if 0xF0 <= b[0] < 0xF8 && |b| >= 4 && Continuation(b[1]) && Continuation(b[2]) && Continuation(b[3]) then
      var n := Scalar4(b[0], b[1], b[2], b[3]);
      if n < 0x1_0000 || !IsScalar(n) then None else Some((n as char, 4))
    else None
  }

  /** `String::from_utf8`. */
  function Decode(b: Bytes): (r: Option<string>)
    decreases |b|
  {
    if b == [] then Some([])
    else
      match DecodeChar(b)
      case None => None
      case Some((c, size)) =>
        match Decode(b[size..])
        case None => None
        case Some(rest) => Some([c] + rest)
  }

  lemma ScalarsOfEncoding(n: int)
    requires 0 <= n < 0x11_0000
    ensures n < 0x800 ==> Scalar2(0xC0 + n / 64, 0x80 + n % 64) == n
    ensures n < 0x1_0000 ==> Scalar3(0xE0 + n / 4096, 0x80 + n / 64 % 64, 0x80 + n % 64) == n
    ensures Scalar4(0xF0 + n / 262144, 0x80 + n / 4096 % 64, 0x80 + n / 64 % 64, 0x80 + n % 64) == n
  {
    assert n / 64 == n / 4096 * 64 + n / 64 % 64;
    assert n / 4096 == n / 262144 * 64 + n / 4096 % 64;
  }

  lemma DecodeEncodedChar(c: char, rest: Bytes)
    ensures DecodeChar(EncodeChar(c) + rest) == Some((c, |EncodeChar(c)|))
  {
    hide Scalar2, Scalar3, Scalar4;
    var b := EncodeChar(c) + rest;
    assert forall i: nat :: i < |EncodeChar(c)| ==> b[i] == EncodeChar(c)[i];
    ScalarsOfEncoding(c as int);
  }

  /** Encoding is undone by decoding. */
  lemma {:induction false} DecodeEncoded(s: string)
    ensures Decode(Encode(s)) == Some(s)
  {
    if s != [] {
      var rest := Encode(s[1..]);
      DecodeEncodedChar(s[0], rest);
      assert (EncodeChar(s[0]) + rest)[|EncodeChar(s[0])|..] == rest;
      DecodeEncoded(s[1..]);
      assert s == [s[0]] + s[1..];
    }
  }
}
