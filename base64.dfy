/** `Convert.ToBase64String`: the base64 encoding of section 4 of RFC 4648 (alphabet
    A-Z a-z 0-9 + /, padding with '='), together with its decoder as the partner
    against which the encoding is proved lossless. */
module Base64 {
  import opened Wrappers

  newtype byte = x: int | 0 <= x < 256

  const Pad: char := '='

  /** The character for a six-bit value (Table 1 of RFC 4648). */
  function Digit(d: int): (c: char)
    requires 0 <= d < 64
    ensures c != Pad
  {
    if d < 26 then (65 + d) as char
    else if d < 52 then (71 + d) as char
    else if d < 62 then (d - 4) as char
    else if d == 62 then '+'
    else '/'
  }

  /** The six-bit value of a base64 character, or None for any other character. */
  function Value(c: char): (d: Option<int>)
    ensures d.Some? ==> 0 <= d.value < 64 && Digit(d.value) == c
    ensures d.None? <==> !('A' <= c <= 'Z' || 'a' <= c <= 'z' || '0' <= c <= '9' || c == '+' || c == '/')
  {
    if 'A' <= c <= 'Z' then Some(c as int - 65)
    else if 'a' <= c <= 'z' then Some(c as int - 71)
    else if '0' <= c <= '9' then Some(c as int + 4)
    else if c == '+' then Some(62)
    else if c == '/' then Some(63)
    else None
  }

  lemma ValueOfDigit(d: int)
    requires 0 <= d < 64
    ensures Value(Digit(d)) == Some(d)
  {
  }

  /** Three bytes, 24 bits, become four characters of six bits each. */
  function EncodeGroup(a: byte, b: byte, c: byte): string
  {
    [Digit(a as int / 4), Digit(a as int % 4 * 16 + b as int / 16),
     Digit(b as int % 16 * 4 + c as int / 64), Digit(c as int % 64)]
  }

  /** The last one or two bytes, padded to a full group of four characters. */
  function EncodeTail(bs: seq<byte>): string
    requires |bs| <= 2
  {
    if |bs| == 0 then ""
    else if |bs| == 1 then
      [Digit(bs[0] as int / 4), Digit(bs[0] as int % 4 * 16), Pad, Pad]
    else
      [Digit(bs[0] as int / 4), Digit(bs[0] as int % 4 * 16 + bs[1] as int / 16),
       Digit(bs[1] as int % 16 * 4), Pad]
  }

  function Encode(bs: seq<byte>): string
    decreases |bs|
  {
    if |bs| < 3 then EncodeTail(bs)
    else EncodeGroup(bs[0], bs[1], bs[2]) + Encode(bs[3..])
  }

  /** Decodes padded base64; None for a length that is not a multiple of four,
      a character outside the alphabet, or padding before the last group. */
  function Decode(s: string): Option<seq<byte>>
    decreases |s|
  {
    if |s| == 0 then Some([])
    else if |s| < 4 then None
    else
      var v0, v1, v2, v3 := Value(s[0]), Value(s[1]), Value(s[2]), Value(s[3]);
      if v0.None? || v1.None? then None
      else if |s| == 4 && s[2] == Pad && s[3] == Pad then
        Some([(v0.value * 4 + v1.value / 16) as byte])
      else if v2.None? then None
      else if |s| == 4 && s[3] == Pad then
        Some([(v0.value * 4 + v1.value / 16) as byte, (v1.value % 16 * 16 + v2.value / 4) as byte])
      else if v3.None? then None
      else
        var rest := Decode(s[4..]);
        if rest.None? then None
        else
          Some([(v0.value * 4 + v1.value / 16) as byte,
                (v1.value % 16 * 16 + v2.value / 4) as byte,
                (v2.value % 4 * 64 + v3.value) as byte] + rest.value)
  }

  /** Every three bytes cost four characters, a partial last group included. */
  lemma {:induction false} EncodeLength(bs: seq<byte>)
    ensures |Encode(bs)| == (|bs| + 2) / 3 * 4
    decreases |bs|
  {
    if |bs| >= 3 {
      EncodeLength(bs[3..]);
    }
  }

  /** Without a partial last group there is no padding: every character is a digit. */
  lemma {:induction false} EncodeDigits(bs: seq<byte>)
    requires |bs| % 3 == 0
    ensures forall i :: 0 <= i < |Encode(bs)| ==> Value(Encode(bs)[i]).Some?
    decreases |bs|
  {
    if |bs| >= 3 {
      EncodeDigits(bs[3..]);
      var g := EncodeGroup(bs[0], bs[1], bs[2]);
      forall i | 0 <= i < |Encode(bs)| ensures Value(Encode(bs)[i]).Some? {
        if i < 4 {
          ValueOfDigit(if i == 0 then bs[0] as int / 4
                       else if i == 1 then bs[0] as int % 4 * 16 + bs[1] as int / 16
                       else if i == 2 then bs[1] as int % 16 * 4 + bs[2] as int / 64
                       else bs[2] as int % 64);
        } else {
          assert Encode(bs)[i] == Encode(bs[3..])[i - 4];
        }
      }
    }
  }

  lemma GroupArithmetic(a: byte, b: byte, c: byte)
    ensures (a as int / 4) * 4 + (a as int % 4 * 16 + b as int / 16) / 16 == a as int
    ensures (a as int % 4 * 16 + b as int / 16) % 16 * 16 + (b as int % 16 * 4 + c as int / 64) / 4 == b as int
    ensures (b as int % 16 * 4 + c as int / 64) % 4 * 64 + c as int % 64 == c as int
  {
  }

  lemma DecodeOneByte(a: byte)
    ensures Decode(Encode([a])) == Some([a])
  {
    var x := a as int;
    ValueOfDigit(x / 4);
    ValueOfDigit(x % 4 * 16);
    assert x / 4 * 4 + (x % 4 * 16) / 16 == x;
  }

  lemma DecodeTwoBytes(a: byte, b: byte)
    ensures Decode(Encode([a, b])) == Some([a, b])
  {
    var x, y := a as int, b as int;
    var s := Encode([a, b]);
    ValueOfDigit(x / 4);
    ValueOfDigit(x % 4 * 16 + y / 16);
    ValueOfDigit(y % 16 * 4);
    GroupArithmetic(a, b, 0);
    assert (x % 4 * 16 + y / 16) % 16 * 16 + (y % 16 * 4) / 4 == y;
    assert |s| == 4 && s[2] != Pad && s[3] == Pad;
  }

  lemma DecodeGroupThen(a: byte, b: byte, c: byte, rest: string)
    requires Decode(rest).Some?
    ensures Decode(EncodeGroup(a, b, c) + rest) == Some([a, b, c] + Decode(rest).value)
  {
    var x, y, z := a as int, b as int, c as int;
    var s := EncodeGroup(a, b, c) + rest;
    ValueOfDigit(x / 4);
    ValueOfDigit(x % 4 * 16 + y / 16);
    ValueOfDigit(y % 16 * 4 + z / 64);
    ValueOfDigit(z % 64);
    GroupArithmetic(a, b, c);
    assert s[4..] == rest;
    assert s[2] != Pad && s[3] != Pad;
  }

  /** Decoding an encoding gives the bytes back. */
  lemma {:induction false} DecodeEncode(bs: seq<byte>)
    ensures Decode(Encode(bs)) == Some(bs)
    decreases |bs|
  {
    if |bs| == 1 {
      DecodeOneByte(bs[0]);
      assert bs == [bs[0]];
    } else if |bs| == 2 {
      DecodeTwoBytes(bs[0], bs[1]);
      assert bs == [bs[0], bs[1]];
    } else if |bs| >= 3 {
      DecodeEncode(bs[3..]);
      DecodeGroupThen(bs[0], bs[1], bs[2], Encode(bs[3..]));
      assert bs == [bs[0], bs[1], bs[2]] + bs[3..];
    }
  }
}
