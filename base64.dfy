/**
 Base64 with the standard alphabet and `=` padding of RFC 4648, section 4,
 as Go's `base64.StdEncoding` does it: `EncodeToString` always pads to a
 multiple of four characters; `DecodeString` skips carriage returns and line
 feeds wherever they stand, demands full padding and, not being in strict
 mode, ignores the unused low bits of the last character before the padding.
 */
module Base64 {
  import opened Wrappers
  import opened GoStrings

  /** The padding character `=`. */
  const Pad: byte := 61
  /** `\n` and `\r`, which the decoder skips. */
  const LF: byte := 10
  const CR: byte := 13

  /** The character for a 6-bit value: `A`-`Z`, `a`-`z`, `0`-`9`, `+`, `/`. */
  function Char(d: int): (c: byte)
    requires 0 <= d < 64
    ensures Value(c) == Some(d)
  {
    if d < 26 then 65 + d
    else if d < 52 then 71 + d
    else if d < 62 then d - 4
    else if d == 62 then 43
    else 47
  }

  /** The decoding table: the 6-bit value of an alphabet character, `None` for every other byte. */
  function Value(c: byte): (r: Option<int>)
    ensures r.Some? ==> 0 <= r.value < 64
  {
    if 65 <= c <= 90 then Some(c - 65)
    else if 97 <= c <= 122 then Some(c - 71)
    else if 48 <= c <= 57 then Some(c + 4)
    else if c == 43 then Some(62)
    else if c == 47 then Some(63)
    else None
  }

  /** Bytes that may appear in encoder output. */
  predicate Encodable(c: byte) {
    c == Pad || Value(c).Some?
  }

  /** Three input bytes as four characters. */
  function Quantum(a: byte, b: byte, c: byte): (r: seq<byte>)
    ensures |r| == 4 && forall i | 0 <= i < 4 :: Encodable(r[i])
  {
    [Char(a / 4), Char(a % 4 * 16 + b / 16), Char(b % 16 * 4 + c / 64), Char(c % 64)]
  }

  /** `EncodeToString`: four characters per three bytes, the last group padded. */
  function Encode(s: seq<byte>): (r: seq<byte>)
    ensures |r| == (|s| + 2) / 3 * 4
    ensures r == [] <==> s == []
    decreases |s|
  {
    if |s| == 0 then []
    else if |s| == 1 then [Char(s[0] / 4), Char(s[0] % 4 * 16), Pad, Pad]
    else if |s| == 2 then [Char(s[0] / 4), Char(s[0] % 4 * 16 + s[1] / 16), Char(s[1] % 16 * 4), Pad]
    else Quantum(s[0], s[1], s[2]) + Encode(s[3..])
  }

  /** The encoder's output uses only the alphabet and the padding character. */
  lemma {:induction false} EncodeAlphabet(s: seq<byte>)
    ensures forall i | 0 <= i < |Encode(s)| :: Encodable(Encode(s)[i])
    decreases |s|
  {
    if |s| >= 3 {
      EncodeAlphabet(s[3..]);
      var q, e := Quantum(s[0], s[1], s[2]), Encode(s[3..]);
      assert Encode(s) == q + e;
      forall i | 0 <= i < |q + e| ensures Encodable((q + e)[i]) {
        if i >= 4 {
          assert (q + e)[i] == e[i - 4];
        }
      }
    }
  }

  /** The input with every `\r` and `\n` removed. */
  function StripNewlines(s: seq<byte>): (r: seq<byte>)
    ensures forall i | 0 <= i < |r| :: r[i] != CR && r[i] != LF
    ensures |r| <= |s|
  {
    if |s| == 0 then []
    else (if s[0] == CR || s[0] == LF then [] else [s[0]]) + StripNewlines(s[1..])
  }

  /** Four alphabet characters as three bytes; anything else, padding included, is corrupt. */
  function Full(c0: byte, c1: byte, c2: byte, c3: byte): (r: Option<seq<byte>>)
    ensures r.Some? ==> |r.value| == 3
  {
    match (Value(c0), Value(c1), Value(c2), Value(c3))
    case (Some(d0), Some(d1), Some(d2), Some(d3)) =>
      Some([d0 * 4 + d1 / 16, d1 % 16 * 16 + d2 / 4, d2 % 4 * 64 + d3])
    case _ => None
  }

  /** The last group: `xx==` is one byte, `xxx=` two, `xxxx` three; the bits the padding leaves over are dropped. */
  function Final(c0: byte, c1: byte, c2: byte, c3: byte): (r: Option<seq<byte>>)
    ensures r.Some? ==> 1 <= |r.value| <= 3
  {
    if c2 == Pad && c3 == Pad then
      match (Value(c0), Value(c1))
      case (Some(d0), Some(d1)) => Some([d0 * 4 + d1 / 16])
      case _ => None
    else if c3 == Pad then
      match (Value(c0), Value(c1), Value(c2))
      case (Some(d0), Some(d1), Some(d2)) => Some([d0 * 4 + d1 / 16, d1 % 16 * 16 + d2 / 4])
      case _ => None
    else Full(c0, c1, c2, c3)
  }

  /** Decoding once the newlines are gone: whole groups of four, padding only in the last. */
  function DecodeQuanta(s: seq<byte>): (r: Option<seq<byte>>)
    ensures r.Some? ==> |s| == (|r.value| + 2) / 3 * 4
    decreases |s|
  {
    if |s| == 0 then Some([])
    else if |s| < 4 then None
    else if |s| == 4 then
      var r := Final(s[0], s[1], s[2], s[3]);
      assert r.Some? ==> (|r.value| + 2) / 3 == 1;
      r
    else
      match Full(s[0], s[1], s[2], s[3])
      case None => None
      case Some(head) =>
        match DecodeQuanta(s[4..])
        case None => None
        case Some(tail) =>
          assert |s| == 4 + |s[4..]| && |head + tail| == 3 + |tail|;
          Some(head + tail)
  }

  /** `DecodeString`: `None` stands for the `CorruptInputError` it reports. */
  function Decode(s: seq<byte>): Option<seq<byte>>
  {
    DecodeQuanta(StripNewlines(s))
  }

  /** A string without newlines is left as it is. */
  lemma {:induction false} StripNewlinesKeeps(s: seq<byte>)
    requires forall i | 0 <= i < |s| :: s[i] != CR && s[i] != LF
    ensures StripNewlines(s) == s
  {
    if |s| > 0 {
      StripNewlinesKeeps(s[1..]);
      assert [s[0]] + s[1..] == s;
    }
  }

  /** How the sextets of a group rebuild its first byte. */
  lemma FirstByte(a: byte, b: byte)
    ensures a / 4 * 4 + (a % 4 * 16 + b / 16) / 16 == a
  {
    assert (a % 4 * 16 + b / 16) / 16 == a % 4;
  }

  /** How the sextets of a group rebuild its second byte. */
  lemma SecondByte(a: byte, b: byte, c: byte)
    ensures (a % 4 * 16 + b / 16) % 16 * 16 + (b % 16 * 4 + c / 64) / 4 == b
  {
    assert (a % 4 * 16 + b / 16) % 16 == b / 16;
    assert (b % 16 * 4 + c / 64) / 4 == b % 16;
  }

  /** How the sextets of a group rebuild its third byte. */
  lemma ThirdByte(b: byte, c: byte)
    ensures (b % 16 * 4 + c / 64) % 4 * 64 + c % 64 == c
  {
    assert (b % 16 * 4 + c / 64) % 4 == c / 64;
  }

  /** One full group decodes back to its three bytes. */
  lemma QuantumRoundTrip(a: byte, b: byte, c: byte)
    ensures var q := Quantum(a, b, c); Full(q[0], q[1], q[2], q[3]) == Some([a, b, c])
    ensures var q := Quantum(a, b, c); Final(q[0], q[1], q[2], q[3]) == Some([a, b, c])
  {
    var d0, d1, d2, d3 := a / 4, a % 4 * 16 + b / 16, b % 16 * 4 + c / 64, c % 64;
    var q := Quantum(a, b, c);
    assert q == [Char(d0), Char(d1), Char(d2), Char(d3)];
    assert Value(q[0]) == Some(d0) && Value(q[1]) == Some(d1) && Value(q[2]) == Some(d2) && Value(q[3]) == Some(d3);
    FirstByte(a, b);
    SecondByte(a, b, c);
    ThirdByte(b, c);
    assert Full(q[0], q[1], q[2], q[3]) == Some([d0 * 4 + d1 / 16, d1 % 16 * 16 + d2 / 4, d2 % 4 * 64 + d3]);
    assert q[3] != Pad;
  }

  /** A lone byte, encoded as `xx==`, decodes back to itself. */
  lemma OneByteRoundTrip(a: byte)
    ensures DecodeQuanta(Encode([a])) == Some([a])
  {
    var e := Encode([a]);
    assert e == [Char(a / 4), Char(a % 4 * 16), Pad, Pad];
    assert (a % 4 * 16) / 16 == a % 4;
    assert Final(e[0], e[1], e[2], e[3]) == Some([a]);
  }

  /** Two bytes, encoded as `xxx=`, decode back to themselves. */
  lemma TwoByteRoundTrip(a: byte, b: byte)
    ensures DecodeQuanta(Encode([a, b])) == Some([a, b])
  {
    var e := Encode([a, b]);
    assert e == [Char(a / 4), Char(a % 4 * 16 + b / 16), Char(b % 16 * 4), Pad];
    assert (a % 4 * 16 + b / 16) / 16 == a % 4 && (a % 4 * 16 + b / 16) % 16 == b / 16;
    assert (b % 16 * 4) / 4 == b % 16;
    assert Final(e[0], e[1], e[2], e[3]) == Some([a, b]);
  }

  /** Decoding the newline-free groups of an encoding gives the input back. */
  lemma {:induction false} QuantaRoundTrip(s: seq<byte>)
    ensures DecodeQuanta(Encode(s)) == Some(s)
    decreases |s|
  {
    if |s| == 0 {
    } else if |s| == 1 {
      assert [s[0]] == s;
      OneByteRoundTrip(s[0]);
    } else if |s| == 2 {
      assert [s[0], s[1]] == s;
      TwoByteRoundTrip(s[0], s[1]);
    } else {
      var q := Quantum(s[0], s[1], s[2]);
      var e := Encode(s[3..]);
      assert Encode(s) == q + e;
      QuantumRoundTrip(s[0], s[1], s[2]);
      QuantaRoundTrip(s[3..]);
      GroupsDecode(q, e, [s[0], s[1], s[2]], s[3..]);
      assert [s[0], s[1], s[2]] + s[3..] == s;
    }
  }

  /** A full group in front of a decodable string decodes to its bytes in front of the rest. */
  lemma GroupsDecode(q: seq<byte>, e: seq<byte>, head: seq<byte>, tail: seq<byte>)
    requires |q| == 4 && Full(q[0], q[1], q[2], q[3]) == Some(head) && Final(q[0], q[1], q[2], q[3]) == Some(head)
    requires DecodeQuanta(e) == Some(tail)
    ensures DecodeQuanta(q + e) == Some(head + tail)
  {
    var s := q + e;
    assert s[0] == q[0] && s[1] == q[1] && s[2] == q[2] && s[3] == q[3];
    if |e| == 0 {
      assert s == q;
      assert tail == [];
      assert head + tail == head;
    } else {
      assert s[4..] == e;
    }
  }

  /** Round trip of RFC 4648: decoding an encoding yields exactly the original bytes. */
  lemma RoundTrip(s: seq<byte>)
    ensures Decode(Encode(s)) == Some(s)
  {
    var e := Encode(s);
    EncodeAlphabet(s);
    forall i | 0 <= i < |e| ensures e[i] != CR && e[i] != LF {
      assert Encodable(e[i]);
    }
    StripNewlinesKeeps(e);
    QuantaRoundTrip(s);
  }

  /** Distinct byte strings have distinct encodings. */
  lemma EncodeInjective(s: seq<byte>, t: seq<byte>)
    ensures Encode(s) == Encode(t) <==> s == t
  {
    if Encode(s) == Encode(t) {
      RoundTrip(s);
      RoundTrip(t);
    }
  }

  /**
   What a successful decode says about its input: once newlines are dropped
   it has exactly the length the encoder gives that many bytes.
   */
  lemma DecodedLength(s: seq<byte>)
    requires Decode(s).Some?
    ensures |StripNewlines(s)| == (|Decode(s).value| + 2) / 3 * 4
    ensures |StripNewlines(s)| == |Encode(Decode(s).value)|
  {
  }

  /** A lone newline is a non-empty payload that decodes to nothing. */
  lemma NewlineDecodesToEmpty()
    ensures Decode([LF]) == Some([])
  {
    assert StripNewlines([LF]) == [];
  }

  /**
   The decoder ignores the bits the padding leaves over: `QR==` decodes to the
   byte `A` as `QQ==`, the encoding of `A`, does.
   */
  lemma LeftoverBitsIgnored()
    ensures Decode([81, 82, 61, 61]) == Some([65])
    ensures Decode([81, 81, 61, 61]) == Some([65])
  {
    var s: seq<byte> := [81, 82, 61, 61];
    var t: seq<byte> := [81, 81, 61, 61];
    StripNewlinesKeeps(s);
    StripNewlinesKeeps(t);
    assert Value(81) == Some(16) && Value(82) == Some(17);
  }

  /** `QQ==` is the encoding of `A`. */
  lemma EncodeOneLetter()
    ensures Encode([65]) == [81, 81, 61, 61]
  {
    assert Char(16) == 81;
  }
}
