/**
 * Bytes, and base64 as section 4 of RFC 4648: every three bytes become four
 * characters of the 64-letter alphabet, and a final group of one or two
 * bytes is padded with '='. Decoding is strict: it accepts exactly the
 * strings the encoder can produce, so the two are inverse bijections.
 */
module Base64 {
  import opened Types

  type byte = b: int | 0 <= b < 256

  predicate IsBase64Char(c: char)
  {
    'A' <= c <= 'Z' || 'a' <= c <= 'z' || '0' <= c <= '9' || c == '+' || c == '/'
  }

  /** The letter for the 6-bit value `n` (Table 1 of RFC 4648). */
  function CharOf(n: int): (c: char)
    requires 0 <= n < 64
    ensures IsBase64Char(c)
  {
    if n < 26 then ('A' as int + n) as char
    else if n < 52 then ('a' as int + (n - 26)) as char
    else if n < 62 then ('0' as int + (n - 52)) as char
    else if n == 62 then '+'
    else '/'
  }

  /** The 6-bit value a letter stands for; `None` for a character outside the alphabet. */
  function IndexOf(c: char): (r: Option<int>)
    ensures r.Some? <==> IsBase64Char(c)
    ensures r.Some? ==> 0 <= r.value < 64 && CharOf(r.value) == c
  {
    if 'A' <= c <= 'Z' then Some(c as int - 'A' as int)
    else if 'a' <= c <= 'z' then Some(c as int - 'a' as int + 26)
    else if '0' <= c <= '9' then Some(c as int - '0' as int + 52)
    else if c == '+' then Some(62)
    else if c == '/' then Some(63)
    else None
  }

  lemma IndexOfCharOf(n: int)
    requires 0 <= n < 64
    ensures IndexOf(CharOf(n)) == Some(n)
  {
  }

  /** Three bytes as four letters. */
  function EncodeGroup(b0: byte, b1: byte, b2: byte): (q: string)
    ensures |q| == 4 && forall i :: 0 <= i < 4 ==> IsBase64Char(q[i])
  {
    [CharOf(b0 / 4), CharOf(b0 % 4 * 16 + b1 / 16), CharOf(b1 % 16 * 4 + b2 / 64), CharOf(b2 % 64)]
  }

  function Encode(bs: seq<byte>): (s: string)
    ensures |s| == (|bs| + 2) / 3 * 4
    ensures forall i :: 0 <= i < |s| ==> IsBase64Char(s[i]) || s[i] == '='
    decreases |bs|
  {
    if |bs| == 0 then ""
    else if |bs| == 1 then [CharOf(bs[0] / 4), CharOf(bs[0] % 4 * 16), '=', '=']
    else if |bs| == 2 then [CharOf(bs[0] / 4), CharOf(bs[0] % 4 * 16 + bs[1] / 16), CharOf(bs[1] % 16 * 4), '=']
    else
      assert (|bs| + 2) / 3 == (|bs| - 1) / 3 + 1;
      EncodeGroup(bs[0], bs[1], bs[2]) + Encode(bs[3..])
  }

  /** Four letters without padding as three bytes. */
  function DecodeGroup(q: string): Option<seq<byte>>
    requires |q| == 4
  {
    match (IndexOf(q[0]), IndexOf(q[1]), IndexOf(q[2]), IndexOf(q[3]))
    case (Some(c0), Some(c1), Some(c2), Some(c3)) =>
      Some([c0 * 4 + c1 / 16, c1 % 16 * 16 + c2 / 4, c2 % 4 * 64 + c3])
    case _ => None
  }

  /**
   * The last four characters: a full group, or one or two '=' of padding.
   * The bits the padding leaves over must be zero.
   */
  function DecodeLast(q: string): Option<seq<byte>>
    requires |q| == 4
  {
    if q[2] == '=' && q[3] == '=' then
      match (IndexOf(q[0]), IndexOf(q[1]))
      case (Some(c0), Some(c1)) => if c1 % 16 == 0 then Some([c0 * 4 + c1 / 16]) else None
      case _ => None
    else if q[3] == '=' then
      match (IndexOf(q[0]), IndexOf(q[1]), IndexOf(q[2]))
      case (Some(c0), Some(c1), Some(c2)) =>
        if c2 % 4 == 0 then Some([c0 * 4 + c1 / 16, c1 % 16 * 16 + c2 / 4]) else None
      case _ => None
    else DecodeGroup(q)
  }

  /** Strict decoding: `None` for a length that is not a multiple of four, a foreign character or misplaced padding. */
  function Decode(s: string): Option<seq<byte>>
    decreases |s|
  {
    if |s| == 0 then Some([])
    else if |s| < 4 then None
    else if |s| == 4 then DecodeLast(s)
    else
      match (DecodeGroup(s[..4]), Decode(s[4..]))
      case (Some(g), Some(rest)) => Some(g + rest)
      case _ => None
  }

  /** Splitting a number written as `q * 4 + r`, `q * 16 + r` or `q * 64 + r`. */
  lemma DivModOf(q: int, r: int, d: int)
    requires d == 4 || d == 16 || d == 64
    requires 0 <= q && 0 <= r < d
    ensures (q * d + r) / d == q && (q * d + r) % d == r
  {
    if d == 4 {
      assert (q * 4 + r) / 4 == q;
    } else if d == 16 {
      assert (q * 16 + r) / 16 == q;
    } else {
      assert (q * 64 + r) / 64 == q;
    }
  }

  /** Regrouping three bytes into four sextets, and back, loses nothing. */
  lemma BytesToSextets(b0: byte, b1: byte, b2: byte)
    ensures var c1 := b0 % 4 * 16 + b1 / 16;
            var c2 := b1 % 16 * 4 + b2 / 64;
            && c1 < 64 && c2 < 64
            && b0 / 4 * 4 + c1 / 16 == b0
            && c1 % 16 * 16 + c2 / 4 == b1
            && c2 % 4 * 64 + b2 % 64 == b2
  {
    DivModOf(b0 % 4, b1 / 16, 16);
    DivModOf(b1 % 16, b2 / 64, 4);
  }

  lemma SextetsToBytes(c0: int, c1: int, c2: int, c3: int)
    requires 0 <= c0 < 64 && 0 <= c1 < 64 && 0 <= c2 < 64 && 0 <= c3 < 64
    ensures var b0 := c0 * 4 + c1 / 16;
            var b1 := c1 % 16 * 16 + c2 / 4;
            var b2 := c2 % 4 * 64 + c3;
            && b0 < 256 && b1 < 256 && b2 < 256
            && b0 / 4 == c0 && b0 % 4 * 16 + b1 / 16 == c1
            && b1 % 16 * 4 + b2 / 64 == c2 && b2 % 64 == c3
  {
    DivModOf(c0, c1 / 16, 4);
    DivModOf(c1 % 16, c2 / 4, 16);
    DivModOf(c2 % 4, c3, 64);
  }

  lemma GroupRoundTrip(b0: byte, b1: byte, b2: byte)
    ensures DecodeGroup(EncodeGroup(b0, b1, b2)) == Some([b0, b1, b2])
  {
    var c0, c1, c2, c3 := b0 / 4, b0 % 4 * 16 + b1 / 16, b1 % 16 * 4 + b2 / 64, b2 % 64;
    BytesToSextets(b0, b1, b2);
    IndexOfCharOf(c0);
    IndexOfCharOf(c1);
    IndexOfCharOf(c2);
    IndexOfCharOf(c3);
    var q := EncodeGroup(b0, b1, b2);
    assert q == [CharOf(c0), CharOf(c1), CharOf(c2), CharOf(c3)];
    assert DecodeGroup(q) == Some([c0 * 4 + c1 / 16, c1 % 16 * 16 + c2 / 4, c2 % 4 * 64 + c3]);
  }

  lemma OneByteRoundTrip(b0: byte)
    ensures Decode(Encode([b0])) == Some([b0])
  {
    var c0, c1 := b0 / 4, b0 % 4 * 16;
    DivModOf(b0 % 4, 0, 16);
    IndexOfCharOf(c0);
    IndexOfCharOf(c1);
    var s := Encode([b0]);
    assert s == [CharOf(c0), CharOf(c1), '=', '='];
    assert DecodeLast(s) == Some([c0 * 4 + c1 / 16]);
  }

  lemma TwoBytesRoundTrip(b0: byte, b1: byte)
    ensures Decode(Encode([b0, b1])) == Some([b0, b1])
  {
    var c0, c1, c2 := b0 / 4, b0 % 4 * 16 + b1 / 16, b1 % 16 * 4;
    BytesToSextets(b0, b1, 0);
    DivModOf(b1 % 16, 0, 4);
    IndexOfCharOf(c0);
    IndexOfCharOf(c1);
    IndexOfCharOf(c2);
    var s := Encode([b0, b1]);
    assert s == [CharOf(c0), CharOf(c1), CharOf(c2), '='];
    assert DecodeLast(s) == Some([c0 * 4 + c1 / 16, c1 % 16 * 16 + c2 / 4]);
  }

  lemma GroupsRoundTrip(b0: byte, b1: byte, b2: byte, rest: seq<byte>)
    requires Decode(Encode(rest)) == Some(rest)
    ensures Decode(Encode([b0, b1, b2] + rest)) == Some([b0, b1, b2] + rest)
  {
    var bs := [b0, b1, b2] + rest;
    var q := EncodeGroup(b0, b1, b2);
    GroupRoundTrip(b0, b1, b2);
    assert bs[3..] == rest;
    assert Encode(bs) == q + Encode(rest);
    if rest != [] {
      DecodeStep(q, Encode(rest));
    } else {
      assert bs == [b0, b1, b2];
      assert Encode(bs) == q;
      assert !IsBase64Char('=') && q[2] != '=' && q[3] != '=';
      assert Decode(q) == DecodeGroup(q);
    }
  }

  /** A sequence of three or more bytes is its first group followed by the rest. */
  lemma SplitHead3(bs: seq<byte>)
    requires |bs| >= 3
    ensures bs == [bs[0], bs[1], bs[2]] + bs[3..]
  {
  }

  /** Decoding undoes encoding. */
  lemma {:induction false} DecodeEncode(bs: seq<byte>)
    ensures Decode(Encode(bs)) == Some(bs)
    decreases |bs|
  {
    if |bs| == 1 {
      OneByteRoundTrip(bs[0]);
      assert bs == [bs[0]];
    } else if |bs| == 2 {
      TwoBytesRoundTrip(bs[0], bs[1]);
      assert bs == [bs[0], bs[1]];
    } else if |bs| >= 3 {
      DecodeEncode(bs[3..]);
      GroupsRoundTrip(bs[0], bs[1], bs[2], bs[3..]);
      SplitHead3(bs);
    }
  }

  /** A full group followed by more text decodes group by group. */
  lemma DecodeStep(q: string, t: string)
    requires |q| == 4 && t != []
    ensures Decode(q + t) == if DecodeGroup(q).Some? && Decode(t).Some? then Some(DecodeGroup(q).value + Decode(t).value) else None
  {
    assert (q + t)[..4] == q && (q + t)[4..] == t;
  }

  lemma GroupCanonical(q: string, g: seq<byte>)
    requires |q| == 4 && DecodeGroup(q) == Some(g)
    ensures |g| == 3 && EncodeGroup(g[0], g[1], g[2]) == q
  {
    var c0, c1, c2, c3 := IndexOf(q[0]).value, IndexOf(q[1]).value, IndexOf(q[2]).value, IndexOf(q[3]).value;
    var b0, b1, b2 := c0 * 4 + c1 / 16, c1 % 16 * 16 + c2 / 4, c2 % 4 * 64 + c3;
    assert g == [b0, b1, b2];
    SextetsToBytes(c0, c1, c2, c3);
    EncodeSextets(b0, b1, b2, c0, c1, c2, c3);
    SextetsLetters(q, c0, c1, c2, c3);
  }

  /** The letters of three bytes are those of their four sextets. */
  lemma EncodeSextets(b0: byte, b1: byte, b2: byte, c0: int, c1: int, c2: int, c3: int)
    requires b0 / 4 == c0 && b0 % 4 * 16 + b1 / 16 == c1 && b1 % 16 * 4 + b2 / 64 == c2 && b2 % 64 == c3
    ensures EncodeGroup(b0, b1, b2) == [CharOf(c0), CharOf(c1), CharOf(c2), CharOf(c3)]
  {
  }

  /** Four letters are the letters of the sextets they stand for. */
  lemma SextetsLetters(q: string, c0: int, c1: int, c2: int, c3: int)
    requires |q| == 4
    requires IndexOf(q[0]) == Some(c0) && IndexOf(q[1]) == Some(c1)
    requires IndexOf(q[2]) == Some(c2) && IndexOf(q[3]) == Some(c3)
    ensures q == [CharOf(c0), CharOf(c1), CharOf(c2), CharOf(c3)]
  {
  }

  lemma LastCanonical(q: string, g: seq<byte>)
    requires |q| == 4 && DecodeLast(q) == Some(g)
    ensures 1 <= |g| <= 3 && Encode(g) == q
  {
    if q[2] == '=' && q[3] == '=' {
      OnePadCanonical(q, g);
    } else if q[3] == '=' {
      TwoBytesCanonical(q, g);
    } else {
      GroupCanonical(q, g);
      assert g[3..] == [];
    }
  }

  lemma OnePadCanonical(q: string, g: seq<byte>)
    requires |q| == 4 && q[2] == '=' && q[3] == '=' && DecodeLast(q) == Some(g)
    ensures |g| == 1 && Encode(g) == q
  {
    var c0, c1 := IndexOf(q[0]).value, IndexOf(q[1]).value;
    SextetsToBytes(c0, c1, 0, 0);
    assert g == [c0 * 4 + c1 / 16];
    assert c1 == c1 / 16 * 16;
  }

  lemma TwoBytesCanonical(q: string, g: seq<byte>)
    requires |q| == 4 && q[3] == '=' && !(q[2] == '=' && q[3] == '=') && DecodeLast(q) == Some(g)
    ensures |g| == 2 && Encode(g) == q
  {
    var c0, c1, c2 := IndexOf(q[0]).value, IndexOf(q[1]).value, IndexOf(q[2]).value;
    var b0, b1 := c0 * 4 + c1 / 16, c1 % 16 * 16 + c2 / 4;
    assert c2 % 4 == 0;
    assert g == [b0, b1];
    SextetsToBytes(c0, c1, c2, 0);
    EncodeTwoSextets(b0, b1, c0, c1, c2);
    assert q == [CharOf(c0), CharOf(c1), CharOf(c2), '='];
  }

  /** The letters of two bytes are those of their three sextets, then the padding. */
  lemma EncodeTwoSextets(b0: byte, b1: byte, c0: int, c1: int, c2: int)
    requires b0 / 4 == c0 && b0 % 4 * 16 + b1 / 16 == c1 && b1 % 16 * 4 == c2
    ensures Encode([b0, b1]) == [CharOf(c0), CharOf(c1), CharOf(c2), '=']
  {
  }

  /** Strictness: a string decodes only if it is the encoding of what it decodes to. */
  lemma {:induction false} EncodeDecode(s: string, bs: seq<byte>)
    requires Decode(s) == Some(bs)
    ensures Encode(bs) == s
    decreases |s|
  {
    if |s| == 4 {
      LastCanonical(s, bs);
    } else if |s| > 4 {
      var g := DecodeGroup(s[..4]).value;
      var rest := Decode(s[4..]).value;
      GroupCanonical(s[..4], g);
      EncodeDecode(s[4..], rest);
      assert |Encode(rest)| == |s| - 4 > 0;
      assert bs[..3] == g && bs[3..] == rest;
      assert s == s[..4] + s[4..];
    }
  }
}
