/**
 * The front end of `GLTFLoader.Load`: the path checks, and the split of a
 * binary glTF file (GLB) into its JSON chunk and its BIN chunk.
 *
 * A GLB file is a 12-byte header (magic, version, total length), then the
 * JSON chunk (4-byte length, 4-byte type, data), then the BIN chunk (same
 * layout). The reader only looks at the magic and at the two chunk lengths.
 */
module Glb {
  import opened Common
  import opened Bytes

  /** The magic number "glTF" read as a little-endian u32. */
  const Magic: nat := 0x46546C67

  /** The failure `ExtractJSONFromGLB` and `ExtractBinaryFromGLB` raise. */
  const BadFormat: Fault := Raised("Invalid GLB file format.")

  /**
   * `ExtractJSONFromGLB`: the bytes of the JSON chunk. The bound check adds
   * 20 to the chunk length in unsigned 32-bit arithmetic, so a huge length
   * wraps past the check and then fails as a negative count in the decoding
   * call.
   */
  function ExtractJson(glb: seq<byte>): (r: Result<seq<byte>>)
    ensures r.Ok? ==> |glb| >= 20 && U32(glb, 0) == Magic
                      && |r.value| == U32(glb, 12) && 20 + |r.value| <= |glb|
                      && r.value == glb[20..20 + U32(glb, 12)]
    ensures |glb| < 20 ==> r == Err(BadFormat)
  {
    if |glb| < 20 then Err(BadFormat)
    else if U32(glb, 0) != Magic then Err(BadFormat)
    else
      var chunkLength0 := U32(glb, 12);
      if |glb| < (chunkLength0 + 20) % 0x1_0000_0000 then Err(BadFormat)
      else
        var count := SignedInt(chunkLength0);
        if count < 0 || 20 + count > |glb| then Err(ArgumentOutOfRange)
        else Ok(glb[20..20 + count])
  }

  /**
   * `ExtractBinaryFromGLB`: the data of the BIN chunk, whose header is
   * assumed to start `jsonLength` bytes after the JSON chunk header. A file
   * without a BIN chunk is refused.
   */
  function ExtractBinary(glb: seq<byte>, jsonLength: nat): (r: Result<seq<byte>>)
    ensures r.Ok? <==> |glb| >= jsonLength + 28 && |glb| >= jsonLength + 28 + U32(glb, 20 + jsonLength)
    ensures r.Ok? ==> r.value == glb[jsonLength + 28..jsonLength + 28 + U32(glb, 20 + jsonLength)]
    ensures r.Err? ==> r.error == BadFormat
  {
    if |glb| < jsonLength + 28 then Err(BadFormat)
    else
      var chunkLength1 := U32(glb, 20 + jsonLength);
      var startIndex := 20 + jsonLength + 8;
      if |glb| < startIndex + chunkLength1 then Err(BadFormat)
      else Ok(glb[startIndex..startIndex + chunkLength1])
  }

  /**
   * `ExtractBinaryFromGLB` as it runs: the two checks, then `Array.Copy`
   * of the chunk data into a new array.
   */
  method ExtractBinaryFromGlb(glb: array<byte>, jsonLength: nat) returns (r: Result<array<byte>>)
    ensures r.Ok? <==> ExtractBinary(glb[..], jsonLength).Ok?
    ensures r.Err? ==> r.error == BadFormat
    ensures r.Ok? ==> fresh(r.value) && r.value[..] == ExtractBinary(glb[..], jsonLength).value
  {
    if glb.Length < jsonLength + 28 {
      return Err(BadFormat);
    }
    var chunkLength1 := U32(glb[..], 20 + jsonLength);
    var startIndex := 20 + jsonLength + 8;
    if glb.Length < startIndex + chunkLength1 {
      return Err(BadFormat);
    }
    var binChunkData := new byte[chunkLength1];
    var k := 0;
    while k < chunkLength1
      invariant 0 <= k <= chunkLength1
      invariant binChunkData[..k] == glb[startIndex..startIndex + k]
    {
      binChunkData[k] := glb[startIndex + k];
      k := k + 1;
    }
    return Ok(binChunkData);
  }

  /**
   * A UTF-8 lead byte: how many continuation bytes its character needs, and
   * the range the first of them must lie in (the later ones lie in
   * 0x80..0xBF). Bytes that cannot start a character need none.
   */
  function Lead(b: byte): (t: (nat, byte, byte))
    ensures t.0 <= 3
    ensures t.0 == 0 <==> b < 0xC2 || b > 0xF4
  {
    if 0xC2 <= b <= 0xDF then (1, 0x80, 0xBF)
    else if b == 0xE0 then (2, 0xA0, 0xBF)
    else if b == 0xED then (2, 0x80, 0x9F)
    else if 0xE1 <= b <= 0xEF then (2, 0x80, 0xBF)
    else if b == 0xF0 then (3, 0x90, 0xBF)
    else if b == 0xF4 then (3, 0x80, 0x8F)
    else if 0xF1 <= b <= 0xF3 then (3, 0x80, 0xBF)
    else (0, 0, 0)
  }

  /** How many of the bytes after a lead byte continue its character, at most `need`. */
  function Continued(s: seq<byte>, need: nat, lo: byte, hi: byte): (k: nat)
    ensures k <= need && k <= |s|
    decreases need
  {
    if need == 0 || s == [] || !(lo <= s[0] <= hi) then 0
    else 1 + Continued(s[1..], need - 1, 0x80, 0xBF)
  }

  /**
   * Length in UTF-16 code units of the string .NET's UTF-8 decoder makes of
   * `s`: a well-formed character gives one unit, two when it lies above
   * U+FFFF (four bytes); each maximal ill-formed subpart (a stray byte, or a
   * lead byte with the continuation bytes that still fit it) becomes one
   * replacement character U+FFFD.
   */
  function Utf16Length(s: seq<byte>): (n: nat)
    ensures n <= |s|
    decreases |s|
  {
    if s == [] then 0
    else
      var (need, lo, hi) := Lead(s[0]);
      var k := Continued(s[1..], need, lo, hi);
      if need > 0 && k == need then (if need == 3 then 2 else 1) + Utf16Length(s[1 + need..])
      else 1 + Utf16Length(s[1 + k..])
  }

  /** Every byte below 0x80 is one character of one code unit. */
  lemma {:induction false} AsciiUtf16Length(s: seq<byte>)
    requires forall i :: 0 <= i < |s| ==> s[i] < 0x80
    ensures Utf16Length(s) == |s|
  {
    if s != [] {
      AsciiUtf16Length(s[1..]);
    }
  }

  /**
   * Ill-formed input: a stray continuation byte, an invalid byte, and a
   * truncated three-byte character each become one replacement character;
   * a lead byte whose next byte does not fit it is replaced alone.
   */
  lemma ReplacedSubparts()
    ensures Utf16Length([0x80]) == 1 && Utf16Length([0xFF]) == 1
    ensures Utf16Length([0xE2, 0x82, 0x41]) == 2
    ensures Utf16Length([0xE0, 0x80]) == 2
    ensures Utf16Length([0xF0, 0x9F, 0x98, 0x80]) == 2
  {
    var t: seq<byte> := [0xE2, 0x82, 0x41];
    assert t[1..] == [0x82, 0x41] && t[2..] == [0x41];
    assert t[3..] == [];
    var u: seq<byte> := [0xE0, 0x80];
    assert u[1..] == [0x80];
    var v: seq<byte> := [0xF0, 0x9F, 0x98, 0x80];
    assert v[1..] == [0x9F, 0x98, 0x80] && v[2..] == [0x98, 0x80] && v[3..] == [0x80];
    assert v[4..] == [];
  }

  /**
   * The split as `Load` performs it: the binary chunk is located with the
   * length of the decoded JSON string, counted in UTF-16 code units.
   */
  function DemuxAsWritten(glb: seq<byte>): (r: Result<(seq<byte>, seq<byte>)>)
    ensures r.Ok? ==> ExtractJson(glb) == Ok(r.value.0)
  {
    var json :- ExtractJson(glb);
    var binary :- ExtractBinary(glb, Utf16Length(json));
    Ok((json, binary))
  }

  /** The split located with the JSON chunk length from the file header. */
  function Demux(glb: seq<byte>): (r: Result<(seq<byte>, seq<byte>)>)
    ensures r.Ok? ==> ExtractJson(glb) == Ok(r.value.0)
    ensures r.Ok? ==> 28 + |r.value.0| + |r.value.1| <= |glb| && U32(glb, 20 + |r.value.0|) == |r.value.1|
                      && glb[28 + |r.value.0|..28 + |r.value.0| + |r.value.1|] == r.value.1
  {
    var json :- ExtractJson(glb);
    var binary :- ExtractBinary(glb, |json|);
    Ok((json, binary))
  }

  /** The chunk type tags "JSON" and "BIN\0" as little-endian u32 values. */
  const JsonChunk: nat := 0x4E4F534A
  const BinChunk: nat := 0x004E4942

  /** A chunk: its data length, its type tag, its data. */
  function Chunk(tag: nat, data: seq<byte>): (c: seq<byte>)
    requires IsUInt32(tag) && IsUInt32(|data|)
    ensures |c| == 8 + |data| && c[8..] == data
  {
    EncodeU32(|data|) + EncodeU32(tag) + data
  }

  /** The 12-byte file header: magic, version 2, total length. */
  function Header(total: nat): (h: seq<byte>)
    requires IsUInt32(total)
    ensures |h| == 12
  {
    EncodeU32(Magic) + EncodeU32(2) + EncodeU32(total)
  }

  /** A GLB file (version 2) holding `json` and `bin`: header, JSON chunk, BIN chunk. */
  function Encode(json: seq<byte>, bin: seq<byte>): (glb: seq<byte>)
    requires IsUInt32(|json|) && IsUInt32(|bin|) && IsUInt32(28 + |json| + |bin|)
    ensures |glb| == 28 + |json| + |bin|
  {
    Header(28 + |json| + |bin|) + Chunk(JsonChunk, json) + Chunk(BinChunk, bin)
  }

  /** The length field of a chunk reads back from wherever the chunk sits. */
  lemma ChunkLength(prefix: seq<byte>, tag: nat, data: seq<byte>, suffix: seq<byte>)
    requires IsUInt32(tag) && IsUInt32(|data|)
    ensures InRange(prefix + Chunk(tag, data) + suffix, |prefix|, 4)
    ensures U32(prefix + Chunk(tag, data) + suffix, |prefix|) == |data|
  {
    assert prefix + Chunk(tag, data) + suffix == prefix + EncodeU32(|data|) + (EncodeU32(tag) + data + suffix);
    U32RoundTrip(prefix, |data|, EncodeU32(tag) + data + suffix);
  }

  /** Where the fields of an encoded file sit. */
  lemma EncodeLayout(json: seq<byte>, bin: seq<byte>)
    requires IsUInt32(|json|) && IsUInt32(|bin|) && IsUInt32(28 + |json| + |bin|)
    ensures var glb := Encode(json, bin);
      U32(glb, 0) == Magic && U32(glb, 12) == |json| && U32(glb, 20 + |json|) == |bin|
      && glb[20..20 + |json|] == json && glb[28 + |json|..] == bin
  {
    var glb := Encode(json, bin);
    var total := 28 + |json| + |bin|;
    var jc := Chunk(JsonChunk, json);
    var bc := Chunk(BinChunk, bin);
    assert glb == [] + EncodeU32(Magic) + (EncodeU32(2) + EncodeU32(total) + jc + bc);
    U32RoundTrip([], Magic, EncodeU32(2) + EncodeU32(total) + jc + bc);
    ChunkLength(Header(total), JsonChunk, json, bc);
    assert glb == (Header(total) + jc) + bc + [];
    ChunkLength(Header(total) + jc, BinChunk, bin, []);
    assert glb[20..20 + |json|] == jc[8..];
    assert glb[28 + |json|..] == bc[8..];
  }

  /** The JSON chunk of an encoded file reads back. */
  lemma ExtractJsonOfEncode(json: seq<byte>, bin: seq<byte>)
    requires |json| < 0x8000_0000 && IsUInt32(|bin|) && IsUInt32(28 + |json| + |bin|)
    ensures ExtractJson(Encode(json, bin)) == Ok(json)
  {
    EncodeLayout(json, bin);
    DemuxOfLayout(Encode(json, bin), json, bin);
  }

  /** Both chunks of an encoded file read back when the binary chunk is located by the chunk length. */
  lemma DemuxOfEncode(json: seq<byte>, bin: seq<byte>)
    requires |json| < 0x8000_0000 && IsUInt32(|bin|) && IsUInt32(28 + |json| + |bin|)
    ensures Demux(Encode(json, bin)) == Ok((json, bin))
  {
    EncodeLayout(json, bin);
    DemuxOfLayout(Encode(json, bin), json, bin);
  }

  /** A file laid out as header, JSON chunk and BIN chunk splits into exactly those chunks. */
  lemma DemuxOfLayout(glb: seq<byte>, json: seq<byte>, bin: seq<byte>)
    requires |json| < 0x8000_0000 && |glb| == 28 + |json| + |bin|
    requires U32(glb, 0) == Magic && U32(glb, 12) == |json| && U32(glb, 20 + |json|) == |bin|
    requires glb[20..20 + |json|] == json && glb[28 + |json|..] == bin
    ensures ExtractJson(glb) == Ok(json)
    ensures Demux(glb) == Ok((json, bin))
  {
    assert SignedInt(|json|) == |json|;
    assert (|json| + 20) % 0x1_0000_0000 == |json| + 20;
    assert ExtractJson(glb) == Ok(json);
    assert glb[|json| + 28..|json| + 28 + |bin|] == bin;
    assert ExtractBinary(glb, |json|) == Ok(bin);
  }

  /** For ASCII JSON text the split as written agrees with the header-based one. */
  lemma DemuxAsciiAgrees(glb: seq<byte>)
    requires ExtractJson(glb).Ok?
    requires forall i :: 0 <= i < |ExtractJson(glb).value| ==> ExtractJson(glb).value[i] < 0x80
    ensures DemuxAsWritten(glb) == Demux(glb)
  {
    AsciiUtf16Length(ExtractJson(glb).value);
  }

  /**
   * A two-byte character in the JSON text ("é" inside a string) makes the
   * split as written read the BIN chunk length one byte too early, and
   * the well-formed file is refused.
   */
  lemma DemuxAsWrittenRejectsNonAscii()
    ensures var json: seq<byte> := [0x22, 0xC3, 0xA9, 0x22];
      var bin: seq<byte> := [1, 2, 3, 4];
      Demux(Encode(json, bin)) == Ok((json, bin))
      && DemuxAsWritten(Encode(json, bin)) == Err(BadFormat)
  {
    var json: seq<byte> := [0x22, 0xC3, 0xA9, 0x22];
    var bin: seq<byte> := [1, 2, 3, 4];
    DemuxOfEncode(json, bin);
    var glb := Encode(json, bin);
    assert Utf16Length(json) == 3 by {
      assert json[1..] == [0xC3, 0xA9, 0x22] && json[2..] == [0xA9, 0x22] && json[3..] == [0x22];
      assert json[4..] == [];
    }
    assert glb[23..27] == [0x22, 4, 0, 0];
    assert U32(glb, 23) == 0x22 + 4 * 256;
  }

  /** A GLB file that ends after the JSON chunk is refused, whatever it holds. */
  lemma NoBinChunkRefused(glb: seq<byte>)
    requires ExtractJson(glb).Ok? && |glb| < 28 + |ExtractJson(glb).value|
    ensures Demux(glb) == Err(BadFormat)
  {
  }

  /** Index of the last '.' in `path[..i]` that no directory separator follows. */
  function LastDot(path: string, i: nat): (k: Option<nat>)
    requires i <= |path|
    ensures k.Some? ==> k.value < i && path[k.value] == '.'
                        && forall j :: k.value < j < i ==> path[j] !in {'.', '/', '\\'}
    ensures k.None? ==> forall j :: 0 <= j < i && path[j] == '.' ==> exists m :: j < m < i && path[m] in {'/', '\\'}
  {
    if i == 0 then None
    else if path[i - 1] == '.' then Some(i - 1)
    else if path[i - 1] in {'/', '\\'} then None
    else LastDot(path, i - 1)
  }

  /**
   * `Path.GetExtension`: the text from the last '.' of the file name on,
   * or empty when the name has no '.' or ends in one.
   */
  function Extension(path: string): (e: string)
    ensures e != [] ==> |e| >= 2 && e[0] == '.' && |e| <= |path| && path[|path| - |e|..] == e
                        && forall j :: 1 <= j < |e| ==> e[j] !in {'.', '/', '\\'}
  {
    match LastDot(path, |path|)
    case None => []
    case Some(k) => if k == |path| - 1 then [] else path[k..]
  }

  /** What the loader does with the file once the checks pass. */
  datatype Route = GlbFile | GltfFile

  /**
   * The checks of `Load` and `ValidateFileType`: a null or empty path, a
   * missing file and an extension other than exactly ".gltf" or ".glb"
   * (compared case-sensitively) are refused, in that order.
   */
  function Classify(path: Option<string>, fileExists: string -> bool): (r: Result<Route>)
    ensures r.Ok? ==> path.Some? && path.value != [] && fileExists(path.value)
    ensures r == Ok(GlbFile) <==> path.Some? && path.value != [] && fileExists(path.value) && Extension(path.value) == ".glb"
    ensures r == Ok(GltfFile) <==> path.Some? && path.value != [] && fileExists(path.value) && Extension(path.value) == ".gltf"
    ensures path.None? || path.value == [] ==> r == Err(ArgumentNull)
  {
    if path.None? || path.value == [] then Err(ArgumentNull)
    else if !fileExists(path.value) then Err(FileNotFound)
    else
      var extension := Extension(path.value);
      if extension != ".gltf" && extension != ".glb" then Err(FileLoad)
      else if extension == ".glb" then Ok(GlbFile)
      else Ok(GltfFile)
  }

  /** Upper-case extensions are refused: the comparison is ordinal. */
  lemma UpperCaseExtensionRefused()
    ensures Classify(Some("m.GLB"), _ => true) == Err(FileLoad)
  {
    assert LastDot("m.GLB", 5) == Some(1);
  }

  /**
   * What `Load` hands to the resolver: the JSON text (file bytes for
   * ".gltf", the JSON chunk for ".glb") and the binary chunk, if any.
   */
  datatype Source = Source(jsonText: seq<byte>, binary: Option<seq<byte>>)

  /** `Load` up to the resolver, with the file system as parameters. */
  function ReadSource(path: Option<string>, fileExists: string -> bool, contents: string -> seq<byte>,
                      asWritten: bool): (r: Result<Source>)
    ensures r.Ok? ==> path.Some?
    ensures r.Ok? && Extension(path.value) == ".gltf" ==> r.value == Source(contents(path.value), None)
    ensures r.Ok? && Extension(path.value) == ".glb" ==>
      r.value.binary.Some? && ExtractJson(contents(path.value)) == Ok(r.value.jsonText)
  {
    var route :- Classify(path, fileExists);
    match route
    case GltfFile => Ok(Source(contents(path.value), None))
    case GlbFile =>
      var split :- if asWritten then DemuxAsWritten(contents(path.value)) else Demux(contents(path.value));
      Ok(Source(split.0, Some(split.1)))
  }
}
