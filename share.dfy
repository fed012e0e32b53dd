/**
 * Sharing expenses through a link: the list is serialised to JSON, encoded
 * as UTF-8, gzip-compressed when the browser offers `CompressionStream`,
 * and base64-encoded into the URL fragment. Decoding runs the chain
 * backwards and falls back, step by step, to reading the bytes as plain
 * JSON text, and finally to the empty list; it never fails.
 *
 * JSON, the UTF-8 decoder and the gzip streams are foreign code: they are
 * fields of a `Runtime` value, and the laws the proofs rely on are the
 * predicate `Lawful`. Base64, UTF-8 encoding and the Latin-1 view of text
 * are defined concretely in their own modules.
 */
module Share {
  import opened Types
  import opened Base64
  import Utf8

  /**
   * The browser facilities the codec calls. `gzip` is absent without
   * `CompressionStream`, `gunzip` without `DecompressionStream`; `gunzip`
   * yields `None` when the stream errors, and `parse` yields `None` when
   * `JSON.parse` throws. `argumentLimit` is the engine's bound on the number
   * of arguments one call may receive; a spread call beyond it throws a
   * `RangeError`.
   */
  datatype Runtime = Runtime(
    stringify: seq<Expense> -> string,
    parse: string -> Option<seq<Expense>>,
    utf8Decode: seq<byte> -> string,
    gzip: Option<seq<byte> -> seq<seq<byte>>>,
    gunzip: Option<seq<byte> -> Option<seq<seq<byte>>>>,
    argumentLimit: nat)

  /** The first byte of every gzip member (section 2.3.1 of RFC 1952). */
  const GzipMagic: byte := 0x1F

  const ByteOrderMark: char := '\U{FEFF}'
  const ReplacementChar: char := '\U{FFFD}'

  /** The chunks of a stream, concatenated in order. */
  function Flatten(chunks: seq<seq<byte>>): seq<byte>
  {
    if chunks == [] then [] else Flatten(chunks[..|chunks| - 1]) + chunks[|chunks| - 1]
  }

  /** `chunks.reduce((acc, chunk) => acc + chunk.length, 0)`. */
  function TotalLength(chunks: seq<seq<byte>>): nat
  {
    if chunks == [] then 0 else TotalLength(chunks[..|chunks| - 1]) + |chunks[|chunks| - 1]|
  }

  lemma {:induction false} FlattenLength(chunks: seq<seq<byte>>)
    ensures |Flatten(chunks)| == TotalLength(chunks)
  {
    if chunks != [] {
      FlattenLength(chunks[..|chunks| - 1]);
    }
  }

  lemma {:induction false} FlattenAppend(a: seq<seq<byte>>, b: seq<seq<byte>>)
    ensures Flatten(a + b) == Flatten(a) + Flatten(b)
  {
    if b != [] {
      assert (a + b)[..|a + b| - 1] == a + b[..|b| - 1];
      FlattenAppend(a, b[..|b| - 1]);
    } else {
      assert a + b == a;
    }
  }

  predicate Unzips(r: Option<seq<seq<byte>>>, data: seq<byte>)
  {
    r.Some? && Flatten(r.value) == data
  }

  predicate StartsWithBom(b: seq<byte>)
  {
    |b| >= 3 && b[0] == 0xEF && b[1] == 0xBB && b[2] == 0xBF
  }

  /**
   * The laws of the foreign code the proofs use:
   * - the output of `JSON.stringify` for a list starts with '[';
   * - the UTF-8 decoder inverts the encoder on text that does not start with a byte order mark;
   * - the decoder's output either re-encodes to its input, or contains U+FFFD
   *   (it only substitutes, never drops bytes), or the input began with a byte order mark;
   * - gunzip rejects input that does not start with the gzip magic byte;
   * - gunzip, fed the concatenated gzip chunks, yields chunks that concatenate to the original.
   */
  ghost predicate Lawful(rt: Runtime)
  {
    && (forall es :: rt.stringify(es) != [] && rt.stringify(es)[0] == '[')
    && (forall s :: (s == [] || s[0] != ByteOrderMark) ==> rt.utf8Decode(Utf8.Encode(s)) == s)
    && (forall b :: ReplacementChar in rt.utf8Decode(b) || StartsWithBom(b) || Utf8.Encode(rt.utf8Decode(b)) == b)
    && (rt.gunzip.Some? ==> forall b :: (b == [] || b[0] != GzipMagic) ==> rt.gunzip.value(b) == None)
    && (rt.gzip.Some? && rt.gunzip.Some? ==> forall b :: Unzips(rt.gunzip.value(Flatten(rt.gzip.value(b))), b))
  }

  /**
   * `JSON.parse` gives back the list `JSON.stringify` wrote. This is a fact
   * about one list, not a law: a number the JSON text cannot spell exactly
   * (a coordinate that is no double, say) does not come back.
   */
  predicate ParsesBack(rt: Runtime, es: seq<Expense>)
  {
    rt.parse(rt.stringify(es)) == Some(es)
  }

  // ----- the browser's base64 functions -----

  /** `btoa(s)`: base64 of the Latin-1 bytes of `s`; `None` where it throws, on a character above 255. */
  function Btoa(s: string): (r: Option<string>)
    ensures r.Some? <==> Utf8.Latin1(s).Some?
  {
    match Utf8.Latin1(s)
    case None => None
    case Some(bytes) => Some(Base64.Encode(bytes))
  }

  /**
   * `atob(token)`: the decoded bytes as a string of characters below 256.
   * Decoding is the strict one of section 4 of RFC 4648: `None` for every
   * token that is not a canonical padded encoding.
   */
  function Atob(token: string): (r: Option<string>)
    ensures r.Some? <==> Base64.Decode(token).Some?
    ensures r.Some? ==> Utf8.Latin1(r.value) == Base64.Decode(token)
  {
    match Base64.Decode(token)
    case None => None
    case Some(bytes) =>
      Utf8.Latin1FromBytes(bytes);
      Some(Utf8.FromBytes(bytes))
  }

  /** `atob` undoes `btoa`: a string `btoa` accepts comes back unchanged. */
  lemma AtobBtoa(s: string)
    requires Btoa(s).Some?
    ensures Atob(Btoa(s).value) == Some(s)
  {
    var bytes := Utf8.Latin1(s).value;
    Base64.DecodeEncode(bytes);
    assert Utf8.FromBytes(bytes) == s;
  }

  /**
   * `String.fromCharCode(...bytes)`: one character per byte, or a
   * `RangeError` when the spread passes more arguments than the engine
   * allows.
   */
  function FromCharCodes(rt: Runtime, bytes: seq<byte>): (r: Option<string>)
    ensures r.Some? <==> |bytes| <= rt.argumentLimit
    ensures r.Some? ==> r.value == Utf8.FromBytes(bytes)
  {
    if |bytes| <= rt.argumentLimit then Some(Utf8.FromBytes(bytes)) else None
  }

  /** What `new Uint8Array(n)` filled with `bytes[i] = s.charCodeAt(i)` holds: each code modulo 256. */
  function ToUint8(s: string): (r: seq<byte>)
    ensures |r| == |s| && forall i :: 0 <= i < |s| ==> r[i] == s[i] as int % 256
  {
    seq(|s|, i requires 0 <= i < |s| => s[i] as int % 256)
  }

  /** Reading back the characters `atob` produced gives the decoded bytes. */
  lemma ToUint8FromBytes(bs: seq<byte>)
    ensures ToUint8(Utf8.FromBytes(bs)) == bs
  {
  }

  // ----- encoding -----

  /**
   * `encodeExpenses`: with a compressor, base64 of the gzip of the UTF-8
   * JSON; without one, `btoa` of the JSON text itself. `None` where the
   * promise rejects.
   */
  function Encoded(rt: Runtime, es: seq<Expense>): Option<string>
  {
    var json := rt.stringify(es);
    if rt.gzip.Some? then
      match FromCharCodes(rt, Flatten(rt.gzip.value(Utf8.Encode(json))))
      case None => None
      case Some(binary) => Btoa(binary)
    else Btoa(json)
  }

  /** The compressed bytes of a list. */
  function Compressed(rt: Runtime, es: seq<Expense>): seq<byte>
    requires rt.gzip.Some?
  {
    Flatten(rt.gzip.value(Utf8.Encode(rt.stringify(es))))
  }

  /**
   * The compressed path succeeds exactly when the compressed bytes fit in
   * one call's arguments, and then gives the base64 of the gzip of the
   * UTF-8 of the JSON: every compressed byte is a Latin-1 character.
   */
  lemma CompressedEncodingSucceeds(rt: Runtime, es: seq<Expense>)
    requires rt.gzip.Some?
    ensures Encoded(rt, es).Some? <==> |Compressed(rt, es)| <= rt.argumentLimit
    ensures Encoded(rt, es).Some? ==> Encoded(rt, es).value == Base64.Encode(Compressed(rt, es))
  {
    Utf8.Latin1FromBytes(Compressed(rt, es));
  }

  /** Without a compressor the encoding fails exactly when the JSON holds a character above 255. */
  lemma FallbackEncodingFails(rt: Runtime, es: seq<Expense>)
    requires rt.gzip.None?
    ensures Encoded(rt, es).None? <==> exists i :: 0 <= i < |rt.stringify(es)| && rt.stringify(es)[i] as int >= 256
  {
  }

  // ----- decoding -----

  function OrEmpty(r: Option<seq<Expense>>): seq<Expense>
  {
    if r.Some? then r.value else []
  }

  /** The inner `try`: decompress, decode the text and parse it; `None` where any step throws. */
  function Inflate(rt: Runtime, bytes: seq<byte>): Option<seq<Expense>>
    requires rt.gunzip.Some?
  {
    match rt.gunzip.value(bytes)
    case None => None
    case Some(chunks) => rt.parse(rt.utf8Decode(Flatten(chunks)))
  }

  /**
   * `decodeExpenses`: `atob`, then (with a decompressor) the inner `try`,
   * falling back to parsing the raw bytes as text; any failure ends in the
   * empty list.
   */
  function Decoded(rt: Runtime, token: string): seq<Expense>
  {
    match Atob(token)
    case None => []
    case Some(binary) =>
      var bytes := ToUint8(binary);
      var inflated := if rt.gunzip.Some? then Inflate(rt, bytes) else None;
      if inflated.Some? then inflated.value else OrEmpty(rt.parse(rt.utf8Decode(bytes)))
  }

  /**
   * Decoding never fails: a token that is not base64 gives the empty list,
   * and so does one whose bytes neither inflate to a parsable list nor
   * parse as text.
   */
  lemma DecodeFailsToEmpty(rt: Runtime, token: string)
    ensures Base64.Decode(token).None? ==> Decoded(rt, token) == []
    ensures Base64.Decode(token).Some? ==>
              var bytes := Base64.Decode(token).value;
              (rt.gunzip.None? || Inflate(rt, bytes).None?) && rt.parse(rt.utf8Decode(bytes)).None?
              ==> Decoded(rt, token) == []
  {
    if Base64.Decode(token).Some? {
      ToUint8FromBytes(Base64.Decode(token).value);
    }
  }

  /** When decompression fails, decoding reads the raw bytes as JSON text. */
  lemma DecodeFallsBack(rt: Runtime, token: string)
    requires Base64.Decode(token).Some?
    requires rt.gunzip.Some? ==> Inflate(rt, Base64.Decode(token).value).None?
    ensures Decoded(rt, token) == OrEmpty(rt.parse(rt.utf8Decode(Base64.Decode(token).value)))
  {
    ToUint8FromBytes(Base64.Decode(token).value);
  }

  // ----- round trips -----

  /**
   * With both streams, decoding inverts encoding for every list whose JSON
   * parses back, whenever the encoder does not throw.
   */
  lemma RoundTripCompressed(rt: Runtime, es: seq<Expense>)
    requires Lawful(rt) && rt.gzip.Some? && rt.gunzip.Some? && ParsesBack(rt, es)
    ensures Encoded(rt, es).Some? ==> Decoded(rt, Encoded(rt, es).value) == es
  {
    var json := rt.stringify(es);
    var data := Utf8.Encode(json);
    var z := Flatten(rt.gzip.value(data));
    CompressedEncodingSucceeds(rt, es);
    Base64.DecodeEncode(z);
    ToUint8FromBytes(z);
    assert Unzips(rt.gunzip.value(z), data);
    assert rt.utf8Decode(data) == json;
  }

  /** JSON text that begins with '[' does not begin with the gzip magic byte in UTF-8. */
  lemma JsonIsNotGzip(rt: Runtime, es: seq<Expense>)
    requires Lawful(rt)
    ensures var data := Utf8.Encode(rt.stringify(es)); data != [] && data[0] != GzipMagic && !StartsWithBom(data)
  {
    var json := rt.stringify(es);
    assert json == [json[0]] + json[1..];
    Utf8.EncodeAppend([json[0]], json[1..]);
    assert Utf8.Encode([json[0]]) == Utf8.EncodeChar('[');
  }

  /**
   * Without a compressor, decoding inverts encoding for ASCII JSON, whether
   * or not a decompressor is present: the plain JSON bytes fail to
   * decompress and are then parsed directly.
   */
  lemma RoundTripUncompressed(rt: Runtime, es: seq<Expense>)
    requires Lawful(rt) && rt.gzip.None? && ParsesBack(rt, es)
    requires forall i :: 0 <= i < |rt.stringify(es)| ==> Utf8.IsAscii(rt.stringify(es)[i])
    ensures Encoded(rt, es).Some? && Decoded(rt, Encoded(rt, es).value) == es
  {
    var json := rt.stringify(es);
    var data := Utf8.Encode(json);
    Utf8.AsciiEncodings(json);
    Base64.DecodeEncode(data);
    ToUint8FromBytes(data);
    JsonIsNotGzip(rt, es);
    assert rt.utf8Decode(data) == json;
  }

  /**
   * As written, the fallback path breaks the round trip on Latin-1 text
   * beyond ASCII: `btoa` stores such a character as one byte, which the
   * UTF-8 decoder cannot read back as that character, so the decoder parses
   * a different text (for "é" it reads U+FFFD).
   */
  lemma FallbackManglesLatin1(rt: Runtime, es: seq<Expense>, k: nat)
    requires Lawful(rt) && rt.gzip.None?
    requires k < |rt.stringify(es)| && !Utf8.IsAscii(rt.stringify(es)[k])
    requires forall i :: 0 <= i < |rt.stringify(es)| ==> rt.stringify(es)[i] as int < 256
    requires ReplacementChar !in rt.stringify(es)
    ensures Encoded(rt, es).Some?
    ensures var bytes := Utf8.Latin1(rt.stringify(es)).value;
            && Base64.Decode(Encoded(rt, es).value) == Some(bytes)
            && rt.utf8Decode(bytes) != rt.stringify(es)
            && Decoded(rt, Encoded(rt, es).value) == OrEmpty(rt.parse(rt.utf8Decode(bytes)))
  {
    var json := rt.stringify(es);
    var bytes := Utf8.Latin1(json).value;
    Base64.DecodeEncode(bytes);
    Utf8.NonAsciiLonger(json, k);
    assert bytes[0] == json[0] as int == '[' as int;
    assert ReplacementChar in rt.utf8Decode(bytes) || Utf8.Encode(rt.utf8Decode(bytes)) == bytes;
    DecodeFallsBack(rt, Encoded(rt, es).value);
  }

  /**
   * The corrected encoder: the fallback base64-encodes the UTF-8 bytes of
   * the JSON, which is what the decoder reads back, and the compressed
   * bytes are encoded without spreading them into one call, so no size
   * limit applies.
   */
  function EncodedFixed(rt: Runtime, es: seq<Expense>): string
  {
    var data := Utf8.Encode(rt.stringify(es));
    if rt.gzip.Some? then Base64.Encode(Flatten(rt.gzip.value(data))) else Base64.Encode(data)
  }

  /** The corrected encoder agrees with the original wherever the original round-trips. */
  lemma EncodedFixedAgrees(rt: Runtime, es: seq<Expense>)
    requires rt.gzip.Some? || forall i :: 0 <= i < |rt.stringify(es)| ==> Utf8.IsAscii(rt.stringify(es)[i])
    requires rt.gzip.Some? ==> |Compressed(rt, es)| <= rt.argumentLimit
    ensures Encoded(rt, es) == Some(EncodedFixed(rt, es))
  {
    if rt.gzip.Some? {
      CompressedEncodingSucceeds(rt, es);
    } else {
      Utf8.AsciiEncodings(rt.stringify(es));
    }
  }

  /**
   * As written, a list whose compressed bytes outnumber the argument limit
   * cannot be shared at all, although the corrected encoder round-trips it.
   */
  lemma OversizeEncodingFails(rt: Runtime, es: seq<Expense>)
    requires Lawful(rt) && rt.gzip.Some? && rt.gunzip.Some? && ParsesBack(rt, es)
    requires |Compressed(rt, es)| > rt.argumentLimit
    ensures Encoded(rt, es).None?
    ensures Decoded(rt, EncodedFixed(rt, es)) == es
  {
    CompressedEncodingSucceeds(rt, es);
    RoundTripFixed(rt, es);
  }

  /** With the corrected encoder, decoding inverts encoding for every list whose JSON parses back. */
  lemma RoundTripFixed(rt: Runtime, es: seq<Expense>)
    requires Lawful(rt) && (rt.gzip.Some? ==> rt.gunzip.Some?) && ParsesBack(rt, es)
    ensures Decoded(rt, EncodedFixed(rt, es)) == es
  {
    var json := rt.stringify(es);
    var data := Utf8.Encode(json);
    if rt.gzip.Some? {
      var z := Flatten(rt.gzip.value(data));
      Base64.DecodeEncode(z);
      ToUint8FromBytes(z);
      assert Unzips(rt.gunzip.value(z), data);
      assert rt.utf8Decode(data) == json by {
        JsonIsNotGzip(rt, es);
      }
    } else {
      Base64.DecodeEncode(data);
      ToUint8FromBytes(data);
      JsonIsNotGzip(rt, es);
      assert rt.utf8Decode(data) == json;
    }
  }

  /**
   * The empty list and a failed decode look the same: both give `[]`, so
   * the shared page cannot tell "nothing was shared" from "the link is broken".
   */
  lemma EmptyIsAmbiguous(rt: Runtime)
    requires Lawful(rt) && (rt.gzip.Some? ==> rt.gunzip.Some?) && ParsesBack(rt, [])
    ensures Decoded(rt, EncodedFixed(rt, [])) == []
    ensures Decoded(rt, "*") == []
  {
    RoundTripFixed(rt, []);
  }

  // ----- the share link -----

  /** `${baseUrl}/shared#${encoded}`, with an empty base outside a browser. */
  function ShareUrl(origin: Option<string>, token: string): (url: string)
    ensures url == (if origin.Some? then origin.value else "") + "/shared#" + token
  {
    (if origin.Some? then origin.value else "") + "/shared#" + token
  }

  /** `location.hash.slice(1)`: what follows the first '#', or "" when there is none. */
  function Fragment(url: string): string
  {
    if url == [] then []
    else if url[0] == '#' then url[1..]
    else Fragment(url[1..])
  }

  lemma {:induction false} FragmentAfter(prefix: string, rest: string)
    requires '#' !in prefix
    ensures Fragment(prefix + "#" + rest) == rest
  {
    if prefix != [] {
      assert (prefix + "#" + rest)[1..] == prefix[1..] + "#" + rest;
      FragmentAfter(prefix[1..], rest);
    } else {
      assert prefix + "#" + rest == "#" + rest;
    }
  }

  /** The shared page reads back exactly the token, when the origin has no '#'. */
  lemma FragmentOfShareUrl(origin: Option<string>, token: string)
    requires origin.Some? ==> '#' !in origin.value
    ensures Fragment(ShareUrl(origin, token)) == token
  {
    var base := if origin.Some? then origin.value else "";
    assert base + "/shared#" + token == (base + "/shared") + "#" + token;
    FragmentAfter(base + "/shared", token);
  }

  /** Following a share link made with the corrected encoder recovers the list. */
  lemma ShareLinkRoundTrip(rt: Runtime, es: seq<Expense>, origin: Option<string>)
    requires Lawful(rt) && (rt.gzip.Some? ==> rt.gunzip.Some?) && ParsesBack(rt, es)
    requires origin.Some? ==> '#' !in origin.value
    ensures Decoded(rt, Fragment(ShareUrl(origin, EncodedFixed(rt, es)))) == es
  {
    FragmentOfShareUrl(origin, EncodedFixed(rt, es));
    RoundTripFixed(rt, es);
  }

  // ----- the source's loops -----

  /**
   * The `while (true)` loop that reads a stream: each read either reports
   * `done` or yields the next chunk, which is pushed.
   */
  method Drain(stream: seq<seq<byte>>) returns (chunks: seq<seq<byte>>)
    ensures chunks == stream
  {
    chunks := [];
    var next := 0;
    while true
      invariant 0 <= next <= |stream| && chunks == stream[..next]
      decreases |stream| - next
    {
      if next == |stream| {
        break;
      }
      chunks := chunks + [stream[next]];
      next := next + 1;
    }
  }

  /** `target.set(source, offset)` on a `Uint8Array`. */
  method SetAt(target: array<byte>, source: seq<byte>, offset: nat)
    requires offset + |source| <= target.Length
    modifies target
    ensures target[..offset] == old(target[..offset])
    ensures target[offset..offset + |source|] == source
    ensures target[offset + |source|..] == old(target[offset + |source|..])
  {
    for j := 0 to |source|
      invariant target[..offset] == old(target[..offset])
      invariant target[offset..offset + j] == source[..j]
      invariant target[offset + |source|..] == old(target[offset + |source|..])
    {
      target[offset + j] := source[j];
    }
  }

  /**
   * Sizing a buffer by the total chunk length, then copying each chunk in at
   * a running offset: the buffer holds the chunks concatenated in order.
   */
  method ConcatChunks(chunks: seq<seq<byte>>) returns (buffer: array<byte>)
    ensures fresh(buffer)
    ensures buffer.Length == TotalLength(chunks) && buffer[..] == Flatten(chunks)
  {
    var total := 0;
    for k := 0 to |chunks|
      invariant total == TotalLength(chunks[..k])
    {
      assert chunks[..k + 1][..k] == chunks[..k];
      total := total + |chunks[k]|;
    }
    assert chunks[..|chunks|] == chunks;
    FlattenLength(chunks);
    buffer := new byte[total];
    var offset := 0;
    for k := 0 to |chunks|
      invariant offset == |Flatten(chunks[..k])| <= total
      invariant buffer[..offset] == Flatten(chunks[..k])
    {
      FlattenStep(chunks, k);
      SetAt(buffer, chunks[k], offset);
      assert buffer[..offset + |chunks[k]|] == buffer[..offset] + buffer[offset..offset + |chunks[k]|];
      offset := offset + |chunks[k]|;
    }
    assert buffer[..] == buffer[..offset];
  }

  /** The flattened prefix grows by the next chunk and stays within the whole. */
  lemma FlattenStep(chunks: seq<seq<byte>>, k: nat)
    requires k < |chunks|
    ensures Flatten(chunks[..k + 1]) == Flatten(chunks[..k]) + chunks[k]
    ensures |Flatten(chunks[..k + 1])| <= |Flatten(chunks)|
  {
    assert chunks[..k + 1][..k] == chunks[..k];
    FlattenAppend(chunks[..k + 1], chunks[k + 1..]);
    assert chunks[..k + 1] + chunks[k + 1..] == chunks;
  }

  /** The loop `bytes[i] = binary.charCodeAt(i)` into a new `Uint8Array`. */
  method CopyBytes(binary: string) returns (bytes: array<byte>)
    ensures fresh(bytes)
    ensures bytes[..] == ToUint8(binary)
  {
    bytes := new byte[|binary|];
    for i := 0 to |binary|
      invariant forall j :: 0 <= j < i ==> bytes[j] == binary[j] as int % 256
    {
      bytes[i] := binary[i] as int % 256;
    }
  }

  /** `encodeExpenses`, step by step. */
  method EncodeExpenses(rt: Runtime, es: seq<Expense>) returns (r: Option<string>)
    ensures r == Encoded(rt, es)
  {
    var json := rt.stringify(es);
    var data := Utf8.Encode(json);
    if rt.gzip.Some? {
      var chunks := Drain(rt.gzip.value(data));
      var compressed := ConcatChunks(chunks);
      var binary := FromCharCodes(rt, compressed[..]);
      if binary.None? {
        return None;
      }
      r := Btoa(binary.value);
    } else {
      r := Btoa(json);
    }
  }

  /** `decodeExpenses`, step by step; every `catch` is a branch. */
  method DecodeExpenses(rt: Runtime, token: string) returns (r: seq<Expense>)
    ensures r == Decoded(rt, token)
  {
    var binary := Atob(token);
    if binary.None? {
      return [];
    }
    var bytes := CopyBytes(binary.value);
    if rt.gunzip.Some? {
      var stream := rt.gunzip.value(bytes[..]);
      if stream.Some? {
        var chunks := Drain(stream.value);
        var decompressed := ConcatChunks(chunks);
        var parsed := rt.parse(rt.utf8Decode(decompressed[..]));
        if parsed.Some? {
          return parsed.value;
        }
      }
    }
    var parsed := rt.parse(rt.utf8Decode(bytes[..]));
    r := OrEmpty(parsed);
  }
}
