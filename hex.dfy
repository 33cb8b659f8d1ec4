/**
 * Lowercase hexadecimal encoding of bytes, as Go's `hex.EncodeToString` produces
 * it (Base16 of section 8 of RFC 4648 with the lowercase alphabet), and the
 * decoder that undoes it. The decoder, like Go's `hex.DecodeString`, accepts
 * digits of either case.
 */
module Hex {
  import opened Wrappers

  /** A Go `byte`. */
  type byte = x: int | 0 <= x < 256

  // ASCII codes of the characters the encoding uses
  const Digit0: byte := 48   // '0'
  const Digit9: byte := 57   // '9'
  const LowerA: byte := 97   // 'a'
  const LowerF: byte := 102  // 'f'
  const LowerZ: byte := 122  // 'z'
  const UpperA: byte := 65   // 'A'
  const UpperF: byte := 70   // 'F'

  predicate IsLowerHexDigit(c: byte) {
    Digit0 <= c <= Digit9 || LowerA <= c <= LowerF
  }

  /** Every byte of `s` is one of '0'-'9' or 'a'-'f'. */
  predicate IsLowerHex(s: seq<byte>) {
    forall i :: 0 <= i < |s| ==> IsLowerHexDigit(s[i])
  }

  /** The lowercase digit of a nibble. */
  function Digit(n: nat): (c: byte)
    requires n < 16
    ensures IsLowerHexDigit(c)
    ensures Value(c) == Some(n)
  {
    if n < 10 then Digit0 + n else LowerA + (n - 10)
  }

  /** The nibble a hexadecimal digit of either case stands for. */
  function Value(c: byte): (v: Option<nat>)
    ensures v.Some? <==> Digit0 <= c <= Digit9 || LowerA <= c <= LowerF || UpperA <= c <= UpperF
    ensures v.Some? ==> v.value < 16
  {
    if Digit0 <= c <= Digit9 then Some(c - Digit0)
    else if LowerA <= c <= LowerF then Some(c - LowerA + 10)
    else if UpperA <= c <= UpperF then Some(c - UpperA + 10)
    else None
  }

  /** Two digits per byte, high nibble first. */
  function Encode(bs: seq<byte>): (s: seq<byte>)
    ensures |s| == 2 * |bs|
    ensures IsLowerHex(s)
  {
    if bs == [] then [] else [Digit(bs[0] / 16), Digit(bs[0] % 16)] + Encode(bs[1..])
  }

  /** Reads pairs of digits back into bytes; an odd length or a non-digit fails. */
  function Decode(s: seq<byte>): (r: Option<seq<byte>>)
    ensures r.Some? ==> 2 * |r.value| == |s|
    ensures (exists i :: 0 <= i < |s| && Value(s[i]).None?) ==> r.None?
  {
    if |s| == 0 then Some([])
    else if |s| == 1 then None
    else
      var hi, lo := Value(s[0]), Value(s[1]);
      if hi.None? || lo.None? then None
      else match Decode(s[2..])
        case None => None
        case Some(rest) => Some([hi.value * 16 + lo.value] + rest)
  }

  /** Decoding the encoding of any bytes gives those bytes back. */
  lemma {:induction false} DecodeEncode(bs: seq<byte>)
    ensures Decode(Encode(bs)) == Some(bs)
  {
    if bs != [] {
      var b := bs[0];
      var s := Encode(bs);
      assert s[2..] == Encode(bs[1..]);
      DecodeEncode(bs[1..]);
      assert (b / 16) * 16 + b % 16 == b;
      assert [b] + bs[1..] == bs;
    }
  }

  /** So the encoding is injective: distinct byte strings never share a rendering. */
  lemma EncodeInjective(a: seq<byte>, b: seq<byte>)
    requires Encode(a) == Encode(b)
    ensures a == b
  {
    DecodeEncode(a);
    DecodeEncode(b);
  }

  /** Every even-length lowercase hexadecimal string is the encoding of what it decodes to. */
  lemma {:induction false} EncodeDecode(s: seq<byte>)
    requires IsLowerHex(s) && |s| % 2 == 0
    ensures Decode(s).Some? && Encode(Decode(s).value) == s
  {
    if |s| != 0 {
      assert IsLowerHexDigit(s[0]) && IsLowerHexDigit(s[1]);
      var hi, lo := Value(s[0]).value, Value(s[1]).value;
      assert IsLowerHex(s[2..]) by {
        forall i | 0 <= i < |s[2..]| ensures IsLowerHexDigit(s[2..][i]) {
          assert s[2..][i] == s[i + 2];
        }
      }
      EncodeDecode(s[2..]);
      var b := hi * 16 + lo;
      assert b / 16 == hi && b % 16 == lo;
      assert Digit(hi) == s[0] && Digit(lo) == s[1];
      assert Decode(s).value == [b] + Decode(s[2..]).value;
      assert s == [s[0], s[1]] + s[2..];
    }
  }

  /** A lowercase hexadecimal string is exactly the encoding of some bytes. */
  lemma IsEncodingIff(s: seq<byte>, bs: seq<byte>)
    ensures s == Encode(bs) <==> IsLowerHex(s) && Decode(s) == Some(bs)
  {
    if s == Encode(bs) {
      DecodeEncode(bs);
    } else if IsLowerHex(s) && Decode(s) == Some(bs) {
      EncodeDecode(s);
    }
  }

  /** ASCII upper-casing of one byte. */
  function UpperByte(c: byte): (u: byte)
    ensures LowerA <= c <= LowerZ ==> u != c
    ensures Value(u) == Value(c)
  {
    if LowerA <= c <= LowerZ then c - 32 else c
  }

  /** ASCII upper-casing, byte by byte. */
  function ToUpper(s: seq<byte>): (t: seq<byte>)
    ensures |t| == |s|
  {
    seq(|s|, i requires 0 <= i < |s| => UpperByte(s[i]))
  }

  /** Upper-casing never changes what a string decodes to. */
  lemma {:induction false} DecodeToUpper(s: seq<byte>)
    ensures Decode(ToUpper(s)) == Decode(s)
  {
    if |s| >= 2 {
      var t := ToUpper(s);
      assert t[2..] == ToUpper(s[2..]);
      DecodeToUpper(s[2..]);
      assert Value(t[0]) == Value(s[0]) && Value(t[1]) == Value(s[1]);
    }
  }
}
