/** Base64 with padding as in section 4 of RFC 4648, which is what PHP's
    `base64_encode` produces. The decoder is the partner that shows no byte of
    an image is lost on its way into a request. */
module Base64 {
  import opened Wrappers

  newtype byte = x: int | 0 <= x < 256

  /** The character for a six-bit value: A-Z, a-z, 0-9, '+', '/'. */
  function Letter(v: int): (c: char)
    requires 0 <= v < 64
    ensures c != '='
  {
    if v < 26 then ('A' as int + v) as char
    else if v < 52 then ('a' as int + v - 26) as char
    else if v < 62 then ('0' as int + v - 52) as char
    else if v == 62 then '+'
    else '/'
  }

  /** The six-bit value of an alphabet character; None for anything else
      (including the pad character '='). */
  function Value(c: char): (r: Option<int>)
    ensures r.Some? ==> 0 <= r.value < 64 && Letter(r.value) == c
  {
    if 'A' <= c <= 'Z' then Some(c as int - 'A' as int)
    else if 'a' <= c <= 'z' then Some(c as int - 'a' as int + 26)
    else if '0' <= c <= '9' then Some(c as int - '0' as int + 52)
    else if c == '+' then Some(62)
    else if c == '/' then Some(63)
    else None
  }

  lemma ValueOfLetter(v: int)
    requires 0 <= v < 64
    ensures Value(Letter(v)) == Some(v)
  {
  }

  /** Three bytes as four characters. */
  function EncodeTriple(b0: byte, b1: byte, b2: byte): string {
    [Letter(b0 as int / 4), Letter((b0 as int % 4) * 16 + b1 as int / 16),
     Letter((b1 as int % 16) * 4 + b2 as int / 64), Letter(b2 as int % 64)]
  }

  /** `base64_encode`: full groups of three bytes, then a padded tail of one or
      two bytes. */
  function Encode(bs: seq<byte>): (r: string)
    ensures |r| == 4 * ((|bs| + 2) / 3)
  {
    if |bs| == 0 then ""
    else if |bs| == 1 then
      [Letter(bs[0] as int / 4), Letter((bs[0] as int % 4) * 16), '=', '=']
    else if |bs| == 2 then
      [Letter(bs[0] as int / 4), Letter((bs[0] as int % 4) * 16 + bs[1] as int / 16),
       Letter((bs[1] as int % 16) * 4), '=']
    else EncodeTriple(bs[0], bs[1], bs[2]) + Encode(bs[3..])
  }

  /** One group of four characters back to its bytes; the group may end in
      "==" or "=" only when it is the last one. */
  function DecodeQuad(q: string, last: bool): (r: Option<seq<byte>>)
    requires |q| == 4
  {
    if Value(q[0]).None? || Value(q[1]).None? then None
    else
      var v0, v1 := Value(q[0]).value, Value(q[1]).value;
      if q[2] == '=' then
        if last && q[3] == '=' then Some([(v0 * 4 + v1 / 16) as byte]) else None
      else if Value(q[2]).None? then None
      else
        var v2 := Value(q[2]).value;
        if q[3] == '=' then
          if last then Some([(v0 * 4 + v1 / 16) as byte, ((v1 % 16) * 16 + v2 / 4) as byte]) else None
        else if Value(q[3]).None? then None
        else
          var v3 := Value(q[3]).value;
          Some([(v0 * 4 + v1 / 16) as byte, ((v1 % 16) * 16 + v2 / 4) as byte, ((v2 % 4) * 64 + v3) as byte])
  }

  /** The inverse of Encode on its image: four characters at a time. */
  function Decode(s: string): (r: Option<seq<byte>>)
    decreases |s|
  {
    if |s| == 0 then Some([])
    else if |s| < 4 then None
    else match (DecodeQuad(s[..4], |s| == 4), Decode(s[4..]))
      case (Some(head), Some(tail)) => Some(head + tail)
      case _ => None
  }

  /** The three bytes back from their four six-bit values. */
  lemma TripleArithmetic(b0: int, b1: int, b2: int)
    requires 0 <= b0 < 256 && 0 <= b1 < 256 && 0 <= b2 < 256
    ensures var v0, v1, v2, v3 := b0 / 4, (b0 % 4) * 16 + b1 / 16, (b1 % 16) * 4 + b2 / 64, b2 % 64;
      && 0 <= v0 < 64 && 0 <= v1 < 64 && 0 <= v2 < 64 && 0 <= v3 < 64
      && v0 * 4 + v1 / 16 == b0
      && (v1 % 16) * 16 + v2 / 4 == b1
      && (v2 % 4) * 64 + v3 == b2
  {
    var v1, v2 := (b0 % 4) * 16 + b1 / 16, (b1 % 16) * 4 + b2 / 64;
    assert v1 / 16 == b0 % 4 && v1 % 16 == b1 / 16;
    assert v2 / 4 == b1 % 16 && v2 % 4 == b2 / 64;
  }

  lemma TripleRoundTrip(b0: byte, b1: byte, b2: byte, last: bool)
    ensures DecodeQuad(EncodeTriple(b0, b1, b2), last) == Some([b0, b1, b2])
  {
    var v0, v1, v2, v3 := b0 as int / 4, (b0 as int % 4) * 16 + b1 as int / 16,
                          (b1 as int % 16) * 4 + b2 as int / 64, b2 as int % 64;
    TripleArithmetic(b0 as int, b1 as int, b2 as int);
    ValueOfLetter(v0); ValueOfLetter(v1); ValueOfLetter(v2); ValueOfLetter(v3);
    var q := EncodeTriple(b0, b1, b2);
    assert q == [Letter(v0), Letter(v1), Letter(v2), Letter(v3)];
    assert q[2] != '=' && q[3] != '=';
  }

  lemma DecodeLastQuad(q: string)
    requires |q| == 4 && DecodeQuad(q, true).Some?
    ensures Decode(q) == DecodeQuad(q, true)
  {
    assert q[..4] == q && q[4..] == [];
    assert DecodeQuad(q, true).value + [] == DecodeQuad(q, true).value;
  }

  lemma DoublePad(v0: int, v1: int)
    requires 0 <= v0 < 64 && 0 <= v1 < 64
    ensures DecodeQuad([Letter(v0), Letter(v1), '=', '='], true) == Some([(v0 * 4 + v1 / 16) as byte])
  {
    ValueOfLetter(v0); ValueOfLetter(v1);
  }

  lemma SinglePad(v0: int, v1: int, v2: int)
    requires 0 <= v0 < 64 && 0 <= v1 < 64 && 0 <= v2 < 64
    ensures DecodeQuad([Letter(v0), Letter(v1), Letter(v2), '='], true)
         == Some([(v0 * 4 + v1 / 16) as byte, ((v1 % 16) * 16 + v2 / 4) as byte])
  {
    ValueOfLetter(v0); ValueOfLetter(v1); ValueOfLetter(v2);
  }

  lemma OneByteRoundTrip(b0: byte)
    ensures Decode(Encode([b0])) == Some([b0])
  {
    var v0, v1 := b0 as int / 4, (b0 as int % 4) * 16;
    assert Encode([b0]) == [Letter(v0), Letter(v1), '=', '='];
    DoublePad(v0, v1);
    assert (v0 * 4 + v1 / 16) as byte == b0;
    DecodeLastQuad(Encode([b0]));
  }

  lemma TwoByteRoundTrip(b0: byte, b1: byte)
    ensures Decode(Encode([b0, b1])) == Some([b0, b1])
  {
    var v0, v1, v2 := b0 as int / 4, (b0 as int % 4) * 16 + b1 as int / 16, (b1 as int % 16) * 4;
    assert Encode([b0, b1]) == [Letter(v0), Letter(v1), Letter(v2), '='];
    SinglePad(v0, v1, v2);
    assert (v0 * 4 + v1 / 16) as byte == b0;
    assert ((v1 % 16) * 16 + v2 / 4) as byte == b1;
    DecodeLastQuad(Encode([b0, b1]));
  }

  /** Decoding what `base64_encode` produced gives back exactly the input
      bytes. */
  lemma {:induction false} RoundTrip(bs: seq<byte>)
    ensures Decode(Encode(bs)) == Some(bs)
    decreases |bs|
  {
    if |bs| == 0 {
    } else if |bs| == 1 {
      assert bs == [bs[0]];
      OneByteRoundTrip(bs[0]);
    } else if |bs| == 2 {
      assert bs == [bs[0], bs[1]];
      TwoByteRoundTrip(bs[0], bs[1]);
    } else {
      var head, rest := EncodeTriple(bs[0], bs[1], bs[2]), bs[3..];
      TripleRoundTrip(bs[0], bs[1], bs[2], |Encode(rest)| == 0);
      RoundTrip(rest);
      DecodeGroups(head, Encode(rest));
      assert bs == [bs[0], bs[1], bs[2]] + rest;
    }
  }

  /** Decoding a group followed by more text decodes each part. */
  lemma DecodeGroups(head: string, tail: string)
    requires |head| == 4
    ensures Decode(head + tail)
         == match (DecodeQuad(head, |tail| == 0), Decode(tail))
            case (Some(h), Some(t)) => Some(h + t)
            case _ => None
  {
    var s := head + tail;
    assert s[..4] == head && s[4..] == tail;
  }
}
