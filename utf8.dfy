/** UTF-8 encoding of one Unicode scalar value, following section 3 of RFC 3629,
    as Rust's `char::to_string().into_bytes()` produces it. */
module Utf8 {
  import opened Wrappers

  /** One octet of an encoded character. */
  type Byte = b: int | 0 <= b < 0x100

  /** A continuation octet, bit pattern 10xxxxxx. */
  predicate IsContinuation(b: Byte) { 0x80 <= b < 0xC0 }

  /** How many octets RFC 3629 assigns to a scalar value, from its range. */
  function EncodedLength(c: char): (n: nat)
  {
    if c as int < 0x80 then 1
    else if c as int < 0x800 then 2
    else if c as int < 0x1_0000 then 3
    else 4
  }

  /** The octets of `c`: the leading octet carries the length in its high bits
      and the top bits of the value, each continuation octet six more bits. */
  function Encode(c: char): (bs: seq<Byte>)
    ensures |bs| == EncodedLength(c) && 1 <= |bs| <= 4
    ensures |bs| == 1 ==> bs[0] < 0x80
    ensures |bs| == 2 ==> 0xC2 <= bs[0] < 0xE0
    ensures |bs| == 3 ==> 0xE0 <= bs[0] < 0xF0
    ensures |bs| == 4 ==> 0xF0 <= bs[0] <= 0xF4
    ensures forall i :: 1 <= i < |bs| ==> IsContinuation(bs[i])
  {
    var n := c as int;
    var q1 := n / 64;
    var q2 := q1 / 64;
    var q3 := q2 / 64;
    if n < 0x80 then [n]
    else if n < 0x800 then [0xC0 + q1, 0x80 + n % 64]
    else if n < 0x1_0000 then [0xE0 + q2, 0x80 + q1 % 64, 0x80 + n % 64]
    else [0xF0 + q3, 0x80 + q2 % 64, 0x80 + q1 % 64, 0x80 + n % 64]
  }

  /** The scalar value a sequence of octets encodes, when it is exactly one
      well-formed character: overlong forms, surrogates and values above
      U+10FFFF are rejected as RFC 3629 requires. */
  function Decode(bs: seq<Byte>): Option<char>
  {
    if |bs| == 1 && bs[0] < 0x80 then
      Some(bs[0] as char)
    else if |bs| == 2 && 0xC0 <= bs[0] < 0xE0 && IsContinuation(bs[1]) then
      var n := (bs[0] as int - 0xC0) * 64 + (bs[1] as int - 0x80);
      if 0x80 <= n then Some(n as char) else None
    else if |bs| == 3 && 0xE0 <= bs[0] < 0xF0 && IsContinuation(bs[1]) && IsContinuation(bs[2]) then
      var n := ((bs[0] as int - 0xE0) * 64 + (bs[1] as int - 0x80)) * 64 + (bs[2] as int - 0x80);
      if 0x800 <= n && !(0xD800 <= n < 0xE000) then Some(n as char) else None
    else if |bs| == 4 && 0xF0 <= bs[0] < 0xF8 && IsContinuation(bs[1]) && IsContinuation(bs[2])
            && IsContinuation(bs[3]) then
      var n := (((bs[0] as int - 0xF0) * 64 + (bs[1] as int - 0x80)) * 64 + (bs[2] as int - 0x80)) * 64 + (bs[3] as int - 0x80);
      if 0x1_0000 <= n < 0x11_0000 then Some(n as char) else None
    else
      None
  }

  /** Decoding an encoded character gives the character back. */
  lemma DecodeEncode(c: char)
    ensures Decode(Encode(c)) == Some(c)
  {
    var n := c as int;
    var q1 := n / 64;
    var q2 := q1 / 64;
    var q3 := q2 / 64;
    assert n == q1 * 64 + n % 64;
    assert q1 == q2 * 64 + q1 % 64;
    assert q2 == q3 * 64 + q2 % 64;
  }
}
