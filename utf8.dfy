/**
 * Text as bytes: `TextEncoder.encode` (UTF-8) and the Latin-1 view of a
 * string that `btoa` and `String.fromCharCode` use, where every character
 * below 256 is one byte.
 *
 * Characters are Unicode scalar values; strings holding unpaired surrogate
 * code units are not modelled.
 */
module Utf8 {
  import opened Types
  import opened Base64

  predicate IsAscii(c: char)
  {
    c as int < 128
  }

  /** The UTF-8 bytes of one character: one byte below 128, two to four above. */
  function EncodeChar(c: char): (r: seq<byte>)
    ensures 1 <= |r| <= 4
    ensures |r| == 1 <==> IsAscii(c)
    ensures IsAscii(c) ==> r == [c as int]
  {
    var n := c as int;
    if n < 0x80 then [n]
    else if n < 0x800 then [0xC0 + n / 64, 0x80 + n % 64]
    else if n < 0x10000 then [0xE0 + n / 4096, 0x80 + n / 64 % 64, 0x80 + n % 64]
    else [0xF0 + n / 262144, 0x80 + n / 4096 % 64, 0x80 + n / 64 % 64, 0x80 + n % 64]
  }

  /** `new TextEncoder().encode(s)`. */
  function Encode(s: string): (r: seq<byte>)
    ensures |r| >= |s|
  {
    if s == [] then [] else Encode(s[..|s| - 1]) + EncodeChar(s[|s| - 1])
  }

  lemma {:induction false} EncodeAppend(a: string, b: string)
    ensures Encode(a + b) == Encode(a) + Encode(b)
  {
    if b != [] {
      assert (a + b)[..|a + b| - 1] == a + b[..|b| - 1];
      EncodeAppend(a, b[..|b| - 1]);
    } else {
      assert a + b == a;
    }
  }

  /** The byte values of the characters of `s`, when all are below 256. */
  function Latin1(s: string): (r: Option<seq<byte>>)
    ensures r.Some? <==> forall i :: 0 <= i < |s| ==> s[i] as int < 256
    ensures r.Some? ==> |r.value| == |s| && forall i :: 0 <= i < |s| ==> r.value[i] == s[i] as int
  {
    if s == [] then Some([])
    else
      var c := s[|s| - 1];
      match Latin1(s[..|s| - 1])
      case None => None
      case Some(init) => if c as int < 256 then Some(init + [c as int]) else None
  }

  /** `String.fromCharCode(...bytes)`: one character per byte. */
  function FromBytes(bs: seq<byte>): (s: string)
    ensures |s| == |bs| && forall i :: 0 <= i < |bs| ==> s[i] as int == bs[i]
  {
    if bs == [] then [] else FromBytes(bs[..|bs| - 1]) + [bs[|bs| - 1] as char]
  }

  lemma Latin1FromBytes(bs: seq<byte>)
    ensures Latin1(FromBytes(bs)) == Some(bs)
  {
    var s := FromBytes(bs);
    assert forall i :: 0 <= i < |s| ==> s[i] as int < 256;
    assert Latin1(s).value == bs;
  }

  /** On ASCII text, UTF-8 and Latin-1 give the same bytes. */
  lemma {:induction false} AsciiEncodings(s: string)
    requires forall i :: 0 <= i < |s| ==> IsAscii(s[i])
    ensures Latin1(s) == Some(Encode(s))
  {
    if s != [] {
      AsciiEncodings(s[..|s| - 1]);
    }
  }

  /** A character of 128 or above makes the UTF-8 encoding longer than the text. */
  lemma {:induction false} NonAsciiLonger(s: string, k: nat)
    requires k < |s| && !IsAscii(s[k])
    ensures |Encode(s)| > |s|
  {
    var init := s[..|s| - 1];
    if k < |s| - 1 {
      NonAsciiLonger(init, k);
    }
  }
}
