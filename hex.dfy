/** Hexadecimal text: Rust's `{:X}` (upper case, no leading zeros) and
    `{:02x}` (two lower-case digits per octet), with their readers. */
module Hex {
  import opened Wrappers
  import opened Utf8

  predicate IsHexDigit(ch: char) { '0' <= ch <= '9' || 'a' <= ch <= 'f' || 'A' <= ch <= 'F' }

  predicate IsUpperHexDigit(ch: char) { '0' <= ch <= '9' || 'A' <= ch <= 'F' }

  predicate IsLowerHexDigit(ch: char) { '0' <= ch <= '9' || 'a' <= ch <= 'f' }

  /** The value of one hexadecimal digit of either case. */
  function DigitValue(ch: char): (d: nat)
    requires IsHexDigit(ch)
    ensures d < 16
  {
    if '0' <= ch <= '9' then ch as int - '0' as int
    else if 'a' <= ch <= 'f' then ch as int - 'a' as int + 10
    else ch as int - 'A' as int + 10
  }

  function UpperDigit(d: nat): (ch: char)
    requires d < 16
    ensures IsUpperHexDigit(ch) && DigitValue(ch) == d
  {
    if d < 10 then ('0' as int + d) as char else ('A' as int + d - 10) as char
  }

  function LowerDigit(d: nat): (ch: char)
    requires d < 16
    ensures IsLowerHexDigit(ch) && DigitValue(ch) == d
  {
    if d < 10 then ('0' as int + d) as char else ('a' as int + d - 10) as char
  }

  predicate IsUpperHex(s: string) { forall i :: 0 <= i < |s| ==> IsUpperHexDigit(s[i]) }

  predicate IsHex(s: string) { forall i :: 0 <= i < |s| ==> IsHexDigit(s[i]) }

  /** `format!("{:X}", n)`: the shortest upper-case spelling, "0" for zero. */
  function UpperHex(n: nat): (r: string)
    ensures |r| >= 1 && IsUpperHex(r)
    ensures n > 0 ==> r[0] != '0'
    decreases n
  {
    if n < 16 then [UpperDigit(n)] else UpperHex(n / 16) + [UpperDigit(n % 16)]
  }

  /** The number a string of hexadecimal digits spells, most significant first. */
  function Value(s: string): nat
    requires IsHex(s)
  {
    if s == [] then 0 else Value(s[..|s| - 1]) * 16 + DigitValue(s[|s| - 1])
  }

  /** Reading `{:X}` output back gives the number printed. */
  lemma {:induction false} ValueOfUpperHex(n: nat)
    ensures Value(UpperHex(n)) == n
    decreases n
  {
    if n >= 16 {
      var r := UpperHex(n);
      assert r[..|r| - 1] == UpperHex(n / 16);
      ValueOfUpperHex(n / 16);
    }
  }

  function Pow16(k: nat): (p: nat)
    ensures p >= 1
  {
    if k == 0 then 1 else 16 * Pow16(k - 1)
  }

  /** A number below 16^k needs at most k digits. */
  lemma {:induction false} UpperHexLength(n: nat, k: nat)
    requires k >= 1 && n < Pow16(k)
    ensures |UpperHex(n)| <= k
    decreases k
  {
    if n >= 16 {
      UpperHexLength(n / 16, k - 1);
    }
  }

  /** `k` zero digits. */
  function Zeros(k: nat): (r: string)
    ensures |r| == k && IsUpperHex(r)
    ensures forall i :: 0 <= i < k ==> r[i] == '0'
  {
    seq(k, _ => '0')
  }

  lemma ZerosCons(k: nat)
    ensures Zeros(k + 1) == "0" + Zeros(k)
  {
  }

  lemma UpperHexConcat(a: string, b: string)
    requires IsUpperHex(a) && IsUpperHex(b)
    ensures IsUpperHex(a + b)
  {
  }

  /** Leading zeros do not change the value a digit string spells. */
  lemma {:induction false} ValueLeadingZeros(k: nat, s: string)
    requires IsHex(s)
    ensures IsHex(Zeros(k) + s) && Value(Zeros(k) + s) == Value(s)
    decreases |s|
  {
    var t := Zeros(k) + s;
    if s == [] {
      assert t == Zeros(k);
      ZerosValue(k);
    } else {
      assert t[..|t| - 1] == Zeros(k) + s[..|s| - 1];
      ValueLeadingZeros(k, s[..|s| - 1]);
    }
  }

  lemma {:induction false} ZerosValue(k: nat)
    ensures Value(Zeros(k)) == 0
  {
    if k > 0 {
      assert Zeros(k)[..k - 1] == Zeros(k - 1);
      ZerosValue(k - 1);
    }
  }

  /** `format!("{:02x}", b)`: exactly two lower-case digits. */
  function LowerPair(b: Byte): (r: string)
    ensures |r| == 2 && IsLowerHexDigit(r[0]) && IsLowerHexDigit(r[1])
    ensures DigitValue(r[0]) * 16 + DigitValue(r[1]) == b
  {
    [LowerDigit(b / 16), LowerDigit(b % 16)]
  }

  /** The octets rendered pair after pair, as the `map(..).collect::<String>()` does. */
  function LowerPairs(bs: seq<Byte>): (r: string)
    ensures |r| == 2 * |bs|
    ensures forall i :: 0 <= i < |r| ==> IsLowerHexDigit(r[i])
  {
    if bs == [] then [] else LowerPair(bs[0]) + LowerPairs(bs[1..])
  }

  /** Reads a string of digit pairs back into octets; fails on an odd length
      or a character that is not a hexadecimal digit. */
  function ParsePairs(s: string): Option<seq<Byte>>
  {
    if s == [] then Some([])
    else if |s| == 1 || !IsHexDigit(s[0]) || !IsHexDigit(s[1]) then None
    else match ParsePairs(s[2..])
      case None => None
      case Some(rest) => Some([DigitValue(s[0]) * 16 + DigitValue(s[1])] + rest)
  }

  /** Reading the pairs back gives the octets rendered. */
  lemma {:induction false} ParseLowerPairs(bs: seq<Byte>)
    ensures ParsePairs(LowerPairs(bs)) == Some(bs)
  {
    if bs != [] {
      var r := LowerPairs(bs);
      assert r[2..] == LowerPairs(bs[1..]);
      ParseLowerPairs(bs[1..]);
      assert [bs[0]] + bs[1..] == bs;
    }
  }
}
