/**
 * The older loader in `TrivialHxGLTF`: the path checks of `Load`, the GLB
 * split of `LoadFromGLBFile` (which checks nothing but the magic number),
 * and the buffer rule of `LoadFromJsonWithByteArray`.
 *
 * File reads, the JSON deserializer and UTF-8 decoding are not modelled:
 * the file bytes, the deserialized buffer array and a buffer-file reader
 * are parameters.
 */
module TrivialLoader {
  import opened Common
  import opened Bytes
  import opened Traverse
  import Glb

  const DirectoryPath := Raised("passed directory path")
  const Damaged := Raised("file is damaged")
  const FirstUriDefined := Raised("uri of first buffer must be undefined")

  /**
   * The checks of `Load`: a directory, a missing file, and an extension
   * other than exactly ".gltf" or ".glb", in that order. A null path is
   * neither a directory nor an existing file.
   */
  function CheckPath(path: Option<string>, isDirectory: string -> bool, fileExists: string -> bool): (r: Result<Glb.Route>)
    ensures path.Some? && isDirectory(path.value) ==> r == Err(DirectoryPath)
    ensures path.None? ==> r == Err(FileNotFound)
    ensures r == Ok(Glb.GlbFile) <==>
      path.Some? && !isDirectory(path.value) && fileExists(path.value) && Glb.Extension(path.value) == ".glb"
    ensures r == Ok(Glb.GltfFile) <==>
      path.Some? && !isDirectory(path.value) && fileExists(path.value) && Glb.Extension(path.value) == ".gltf"
  {
    if path.None? then Err(FileNotFound)
    else if isDirectory(path.value) then Err(DirectoryPath)
    else if !fileExists(path.value) then Err(FileNotFound)
    else
      var extension := Glb.Extension(path.value);
      if extension != ".gltf" && extension != ".glb" then Err(FileLoad)
      else if extension == ".glb" then Ok(Glb.GlbFile)
      else Ok(Glb.GltfFile)
  }

  /**
   * Past the directory check the two loaders accept and route the same
   * paths; only the empty path is refused differently.
   */
  lemma CheckPathAgrees(path: string, isDirectory: string -> bool, fileExists: string -> bool)
    requires !isDirectory(path)
    ensures path != [] ==> CheckPath(Some(path), isDirectory, fileExists) == Glb.Classify(Some(path), fileExists)
    ensures path == [] && !fileExists(path) ==>
      CheckPath(Some(path), isDirectory, fileExists) == Err(FileNotFound)
      && Glb.Classify(Some(path), fileExists) == Err(ArgumentNull)
  {
  }

  /**
   * `BitConverter.ToUInt32(value, startIndex)`: a start outside the array
   * raises ArgumentOutOfRangeException, one less than four bytes before its
   * end ArgumentException.
   */
  function ToUInt32(s: seq<byte>, off: int): (r: Result<nat>)
    ensures r.Ok? <==> InRange(s, off, 4)
    ensures r.Ok? ==> r.value == U32(s, off)
    ensures r.Err? ==> r.error == (if off < 0 || off >= |s| then ArgumentOutOfRange else Argument)
  {
    if off < 0 || off >= |s| then Err(ArgumentOutOfRange)
    else if off + 4 > |s| then Err(Argument)
    else Ok(U32(s, off))
  }

  /** Unchecked 32-bit `int` arithmetic: the result wraps into the `int` range. */
  function Wrap(n: int): (r: int)
    ensures IsInt32(r) && (r - n) % 0x1_0000_0000 == 0
    ensures IsInt32(n) ==> r == n
  {
    (n + 0x8000_0000) % 0x1_0000_0000 - 0x8000_0000
  }

  function Zeros(n: nat): (z: seq<byte>)
    ensures |z| == n && forall i :: 0 <= i < n ==> z[i] == 0
  {
    seq(n, _ => 0)
  }

  /**
   * What `new byte[count]` holds after one `MemoryStream.Read` of `count`
   * bytes at `pos`: the bytes the stream still has, at most `count`, and
   * zeros after them.
   */
  function ReadInto(s: seq<byte>, pos: nat, count: nat): (r: seq<byte>)
    ensures |r| == count
    ensures pos + count <= |s| ==> r == s[pos..pos + count]
    ensures forall i :: 0 <= i < count ==> r[i] == if pos + i < |s| then s[pos + i] else 0
  {
    if pos >= |s| then Zeros(count)
    else
      var n := if count <= |s| - pos then count else |s| - pos;
      s[pos..pos + n] + Zeros(count - n)
  }

  /** The stream `LoadFromGLBFile` reads the file through. */
  class MemoryStream {
    const bytes: seq<byte>
    var position: nat

    constructor(bytes: seq<byte>)
      ensures this.bytes == bytes && position == 0
    {
      this.bytes := bytes;
      position := 0;
    }

    /**
     * `Read(buffer, offset, count)`: copies what is left of the stream, at
     * most `count` bytes, to `buffer[offset..]` and moves past them.
     */
    method Read(buffer: array<byte>, offset: nat, count: nat) returns (n: nat)
      requires offset + count <= buffer.Length
      modifies this, buffer
      ensures n == (if old(position) >= |bytes| then 0 else if count <= |bytes| - old(position) then count else |bytes| - old(position))
      ensures position == old(position) + n
      ensures forall j :: 0 <= j < buffer.Length ==>
        buffer[j] == if offset <= j < offset + n then bytes[old(position) + j - offset] else old(buffer[j])
    {
      n := if position >= |bytes| then 0 else if count <= |bytes| - position then count else |bytes| - position;
      var start := position;
      forall j | offset <= j < offset + n {
        buffer[j] := bytes[start + j - offset];
      }
      position := position + n;
    }
  }

  /**
   * `LoadFromGLBFile` up to the deserializer: the magic number is the only
   * check; version, total length and both chunk types are read (and can
   * fail to be read) but never compared. The JSON chunk is `chunkLength0`
   * bytes at 20; the BIN chunk is `chunkLength1` bytes at `28 +
   * chunkLength0`, zero-filled where the file is shorter. Each chunk is
   * allocated as `new byte[length]` with the `uint` length: from 2^31 on
   * that raises OverflowException, above `Array.MaxLength`
   * OutOfMemoryException.
   */
  function GlbChunks(glb: seq<byte>): (r: Result<(seq<byte>, seq<byte>)>)
    ensures r.Ok? <==> |glb| >= 20 && U32(glb, 0) == Glb.Magic && U32(glb, 12) <= ArrayLimit
                       && 28 + U32(glb, 12) <= |glb| && U32(glb, 20 + U32(glb, 12)) <= ArrayLimit
    ensures |glb| >= 4 && U32(glb, 0) != Glb.Magic ==> r == Err(Damaged)
    ensures r.Ok? ==> r.value.0 == glb[20..20 + U32(glb, 12)]
    ensures r.Ok? ==> r.value.1 == ReadInto(glb, 28 + |r.value.0|, U32(glb, 20 + |r.value.0|))
  {
    var magic :- ToUInt32(glb, 0);
    if magic != Glb.Magic then Err(Damaged)
    else
      var version :- ToUInt32(glb, 4);
      var length :- ToUInt32(glb, 8);
      var chunkLength0 :- ToUInt32(glb, 12);
      var chunkType0 :- ToUInt32(glb, 16);
      var chunkLength1 :- ToUInt32(glb, Wrap(20 + SignedInt(chunkLength0)));
      var chunkType1 :- ToUInt32(glb, Wrap(Wrap(20 + SignedInt(chunkLength0)) + 4));
      if !IsInt32(chunkLength0) then Err(Overflow)
      else if chunkLength0 > ArrayLimit then Err(OutOfMemory)
      else
        var chunkData0 := ReadInto(glb, 20, chunkLength0);
        // chunkLength0 is below 2^31 - 28 here: the position cannot wrap
        var position := 20 + chunkLength0 + 8;
        if !IsInt32(chunkLength1) then Err(Overflow)
        else if chunkLength1 > ArrayLimit then Err(OutOfMemory)
        else Ok((chunkData0, ReadInto(glb, position, chunkLength1)))
  }

  /** `LoadFromGLBFile`: the header reads, then two positioned stream reads into new arrays. */
  method LoadFromGlbFile(glb: seq<byte>) returns (r: Result<(array<byte>, array<byte>)>)
    ensures r.Ok? <==> GlbChunks(glb).Ok?
    ensures r.Err? ==> r.error == GlbChunks(glb).error
    ensures r.Ok? ==> fresh(r.value.0) && fresh(r.value.1)
                      && r.value.0[..] == GlbChunks(glb).value.0 && r.value.1[..] == GlbChunks(glb).value.1
  {
    var stream := new MemoryStream(glb);
    var magic :- ToUInt32(glb, 0);
    if magic != Glb.Magic {
      return Err(Damaged);
    }
    var version :- ToUInt32(glb, 4);
    var length :- ToUInt32(glb, 8);
    var chunkLength0 :- ToUInt32(glb, 12);
    var chunkType0 :- ToUInt32(glb, 16);
    var chunkLength1 :- ToUInt32(glb, Wrap(20 + SignedInt(chunkLength0)));
    var chunkType1 :- ToUInt32(glb, Wrap(Wrap(20 + SignedInt(chunkLength0)) + 4));
    if !IsInt32(chunkLength0) {
      return Err(Overflow);
    }
    if chunkLength0 > ArrayLimit {
      return Err(OutOfMemory);
    }
    var chunkData0 := ReadChunk(stream, 20, chunkLength0);
    if !IsInt32(chunkLength1) {
      return Err(Overflow);
    }
    if chunkLength1 > ArrayLimit {
      return Err(OutOfMemory);
    }
    var chunkData1 := ReadChunk(stream, 20 + chunkLength0 + 8, chunkLength1);
    return Ok((chunkData0, chunkData1));
  }

  /**
   * The faults of the two allocations. A JSON length within 20 of 2^32
   * wraps the BIN header position back into the file header, so the header
   * reads succeed and the allocation raises OverflowException. Past a
   * JSON chunk that fits, a BIN length of 2^31 or more raises
   * OverflowException and one above `Array.MaxLength` OutOfMemoryException.
   */
  lemma ChunkLengthFaults(glb: seq<byte>)
    requires |glb| >= 28 && U32(glb, 0) == Glb.Magic
    ensures 0xFFFF_FFEC <= U32(glb, 12) ==> GlbChunks(glb) == Err(Overflow)
    ensures U32(glb, 12) <= ArrayLimit && 28 + U32(glb, 12) <= |glb| ==>
      var len1 := U32(glb, 20 + U32(glb, 12));
      (len1 >= 0x8000_0000 ==> GlbChunks(glb) == Err(Overflow))
      && (ArrayLimit < len1 < 0x8000_0000 ==> GlbChunks(glb) == Err(OutOfMemory))
  {
    var len0 := U32(glb, 12);
    if 0xFFFF_FFEC <= len0 {
      assert Wrap(20 + SignedInt(len0)) == 20 + len0 - 0x1_0000_0000;
    } else if len0 <= ArrayLimit && 28 + len0 <= |glb| {
      assert SignedInt(len0) == len0;
      assert Wrap(20 + SignedInt(len0)) == 20 + len0;
    }
  }

  /**
   * One chunk of `LoadFromGLBFile`: the stream is positioned at `pos` and
   * read into `new byte[count]`, which keeps zeros past the end of the stream.
   */
  method ReadChunk(stream: MemoryStream, pos: nat, count: nat) returns (chunk: array<byte>)
    modifies stream
    ensures fresh(chunk) && chunk[..] == ReadInto(stream.bytes, pos, count)
    ensures stream.position == pos + (if pos >= |stream.bytes| then 0 else if count <= |stream.bytes| - pos then count else |stream.bytes| - pos)
  {
    stream.position := pos;
    chunk := new byte[count](_ => 0);
    var n := stream.Read(chunk, 0, count);
    assert forall i :: 0 <= i < count ==> chunk[i] == ReadInto(stream.bytes, pos, count)[i];
  }

  /** On a well-formed file the unchecked split reads both chunks back, like the checked one. */
  lemma GlbChunksOfEncode(json: seq<byte>, bin: seq<byte>)
    requires |json| <= ArrayLimit && |bin| <= ArrayLimit && IsUInt32(28 + |json| + |bin|)
    ensures GlbChunks(Glb.Encode(json, bin)) == Ok((json, bin))
    ensures GlbChunks(Glb.Encode(json, bin)) == Glb.Demux(Glb.Encode(json, bin))
  {
    Glb.EncodeLayout(json, bin);
    ChunksOfLayout(Glb.Encode(json, bin), json, bin);
    Glb.DemuxOfEncode(json, bin);
  }

  /** A file laid out as header, JSON chunk and BIN chunk yields exactly those two chunks. */
  lemma ChunksOfLayout(glb: seq<byte>, json: seq<byte>, bin: seq<byte>)
    requires |json| <= ArrayLimit && |bin| <= ArrayLimit && |glb| == 28 + |json| + |bin|
    requires U32(glb, 0) == Glb.Magic && U32(glb, 12) == |json| && U32(glb, 20 + |json|) == |bin|
    requires glb[20..20 + |json|] == json && glb[28 + |json|..] == bin
    ensures GlbChunks(glb) == Ok((json, bin))
  {
    var len0 := U32(glb, 12);
    assert len0 == |json| && 28 + len0 <= |glb|;
    assert U32(glb, 20 + len0) == |bin| <= ArrayLimit;
    var r := GlbChunks(glb);
    assert r.Ok?;
    assert r.value.0 == glb[20..20 + len0] == json;
    assert glb[28 + |json|..28 + |json| + |bin|] == bin;
    assert r.value.1 == ReadInto(glb, 28 + |json|, |bin|) == bin;
  }

  /**
   * Any file that ends right after the header of a non-empty BIN chunk is
   * accepted here, with a zero-filled BIN chunk, and refused by the checked split.
   */
  lemma ChunksOfTruncated(glb: seq<byte>, json: seq<byte>, binLength: nat)
    requires |json| <= ArrayLimit && 0 < binLength <= ArrayLimit && |glb| == 28 + |json|
    requires U32(glb, 0) == Glb.Magic && U32(glb, 12) == |json| && U32(glb, 20 + |json|) == binLength
    requires glb[20..20 + |json|] == json
    ensures GlbChunks(glb) == Ok((json, Zeros(binLength)))
    ensures Glb.Demux(glb) == Err(Glb.BadFormat)
  {
    var len0 := U32(glb, 12);
    assert len0 == |json| && 28 + len0 <= |glb|;
    var r := GlbChunks(glb);
    assert r.Ok?;
    assert r.value.0 == glb[20..20 + len0] == json;
    assert r.value.1 == ReadInto(glb, 28 + |json|, binLength) == Zeros(binLength);
    assert SignedInt(len0) == len0;
    assert Glb.ExtractJson(glb) == Ok(json);
    assert Glb.ExtractBinary(glb, |json|).Err?;
  }

  /** A buffer as the deserializer builds it, with the `Data` the loader assigns. */
  datatype GltfBuffer = GltfBuffer(byteLength: Option<int>, uri: Option<string>, data: Option<seq<byte>>)

  /** The first-buffer branch: the URI must be exactly "", and the buffer takes the binary chunk. */
  function FirstEntry(b: Option<GltfBuffer>, bin: seq<byte>): (r: Result<GltfBuffer>)
    ensures r.Ok? <==> b.Some? && b.value.uri == Some("")
    ensures r.Ok? ==> r.value == b.value.(data := Some(bin))
    ensures b.Some? && b.value.uri != Some("") ==> r == Err(FirstUriDefined)
  {
    if b.None? then Err(NullReference)
    else if b.value.uri != Some("") then Err(FirstUriDefined)
    else Ok(b.value.(data := Some(bin)))
  }

  /** The later-buffer branch: a null URI raises; the buffer takes the bytes of the file it names. */
  function LaterEntry(path: string, bufferFile: (string, string) -> Result<seq<byte>>, b: Option<GltfBuffer>): (r: Result<GltfBuffer>)
    ensures r.Ok? <==> b.Some? && b.value.uri.Some? && bufferFile(path, b.value.uri.value).Ok?
    ensures r.Ok? ==> r.value == b.value.(data := Some(bufferFile(path, b.value.uri.value).value))
    ensures b.Some? && b.value.uri.None? ==> r == Err(Unexplained)
  {
    if b.None? then Err(NullReference)
    else if b.value.uri.None? then Err(Unexplained)
    else
      var bytes :- bufferFile(path, b.value.uri.value);
      Ok(b.value.(data := Some(bytes)))
  }

  function FirstReader(bin: seq<byte>): Option<GltfBuffer> -> Result<GltfBuffer> {
    b => FirstEntry(b, bin)
  }

  function LaterReader(path: string, bufferFile: (string, string) -> Result<seq<byte>>): Option<GltfBuffer> -> Result<GltfBuffer> {
    b => LaterEntry(path, bufferFile, b)
  }

  /**
   * `LoadFromJsonWithByteArray` as written: its counter never advances, so
   * every buffer goes through the first-buffer branch; then `Buffers[0]`
   * takes the binary chunk once more.
   */
  function AttachAsWritten(buffers: Option<seq<Option<GltfBuffer>>>, bin: seq<byte>): (r: Result<seq<GltfBuffer>>)
    ensures buffers.None? ==> r == Err(NullReference)
    ensures buffers == Some([]) ==> r == Err(IndexOutOfRange)
    ensures r.Ok? ==> buffers.Some? && |r.value| == |buffers.value| > 0 && r.value[0].data == Some(bin)
  {
    if buffers.None? then Err(NullReference)
    else
      var out :- MapAll(buffers.value, FirstReader(bin));
      if |out| == 0 then Err(IndexOutOfRange)
      else Ok(out[0 := out[0].(data := Some(bin))])
  }

  /**
   * As written, a load succeeds only when every buffer has the URI "", and
   * then every buffer holds the binary chunk.
   */
  lemma AsWrittenOnlyEmbedded(buffers: Option<seq<Option<GltfBuffer>>>, bin: seq<byte>)
    ensures AttachAsWritten(buffers, bin).Ok? <==>
      buffers.Some? && |buffers.value| > 0
      && forall i :: 0 <= i < |buffers.value| ==> buffers.value[i].Some? && buffers.value[i].value.uri == Some("")
    ensures AttachAsWritten(buffers, bin).Ok? ==>
      var out := AttachAsWritten(buffers, bin).value;
      |out| == |buffers.value| && forall i :: 0 <= i < |out| ==> out[i].data == Some(bin)
  {
    if buffers.Some? && MapAll(buffers.value, FirstReader(bin)).Ok? {
      var bs := buffers.value;
      assert forall i :: 0 <= i < |bs| ==> FirstReader(bin)(bs[i]).Ok?;
    }
  }

  /**
   * `LoadFromJsonWithByteArray` with the counter advanced: the first buffer
   * takes the binary chunk, every later one the file its URI names.
   */
  function Attach(path: string, buffers: Option<seq<Option<GltfBuffer>>>, bin: seq<byte>,
                  bufferFile: (string, string) -> Result<seq<byte>>): (r: Result<seq<GltfBuffer>>)
    ensures buffers.None? ==> r == Err(NullReference)
    ensures buffers.Some? && |buffers.value| == 0 ==> r == Err(IndexOutOfRange)
    ensures buffers.Some? && |buffers.value| > 0 && buffers.value[0].Some? && buffers.value[0].value.uri != Some("") ==>
      r == Err(FirstUriDefined)
    ensures r.Ok? ==> |r.value| == |buffers.value| && buffers.value[0].Some?
                      && r.value[0] == buffers.value[0].value.(data := Some(bin))
    ensures r.Ok? ==> forall i :: 1 <= i < |r.value| ==> LaterEntry(path, bufferFile, buffers.value[i]) == Ok(r.value[i])
  {
    if buffers.None? then Err(NullReference)
    else if |buffers.value| == 0 then Err(IndexOutOfRange)
    else
      var first :- FirstEntry(buffers.value[0], bin);
      var later :- MapAll(buffers.value[1..], LaterReader(path, bufferFile));
      Ok([first] + later)
  }

  /**
   * A GLB whose second buffer names a file: as written the load raises,
   * corrected the second buffer holds that file's bytes.
   */
  lemma SecondBufferFile(bufferFile: (string, string) -> Result<seq<byte>>)
    requires bufferFile("m.glb", "extra.bin") == Ok([7])
    ensures var buffers := Some([Some(GltfBuffer(None, Some(""), None)), Some(GltfBuffer(None, Some("extra.bin"), None))]);
      AttachAsWritten(buffers, [1]) == Err(FirstUriDefined)
      && Attach("m.glb", buffers, [1], bufferFile)
         == Ok([GltfBuffer(None, Some(""), Some([1])), GltfBuffer(None, Some("extra.bin"), Some([7]))])
  {
    var buffers := Some([Some(GltfBuffer(None, Some(""), None)), Some(GltfBuffer(None, Some("extra.bin"), None))]);
    assert FirstReader([1])(buffers.value[1]) == Err(FirstUriDefined);
    assert buffers.value[1..] == [buffers.value[1]];
    assert LaterReader("m.glb", bufferFile)(buffers.value[1]) == Ok(GltfBuffer(None, Some("extra.bin"), Some([7])));
    MapAllAllOk(buffers.value[1..], LaterReader("m.glb", bufferFile), [GltfBuffer(None, Some("extra.bin"), Some([7]))]);
    assert FirstEntry(buffers.value[0], [1]) == Ok(GltfBuffer(None, Some(""), Some([1])));
    assert Attach("m.glb", buffers, [1], bufferFile).value
           == [GltfBuffer(None, Some(""), Some([1])), GltfBuffer(None, Some("extra.bin"), Some([7]))];
  }

  function Present(bs: seq<GltfBuffer>): (r: seq<Option<GltfBuffer>>)
    ensures |r| == |bs| && forall i :: 0 <= i < |bs| ==> r[i] == Some(bs[i])
  {
    seq(|bs|, i requires 0 <= i < |bs| => Some(bs[i]))
  }

  /**
   * `LoadFromJsonWithByteArray` (with the counter advanced) on the
   * deserialized buffer array: each buffer gets its `Data` in place.
   */
  method LoadFromJsonWithByteArray(path: string, buffers: array?<Option<GltfBuffer>>, bin: seq<byte>,
                                   bufferFile: (string, string) -> Result<seq<byte>>) returns (r: Result<()>)
    modifies buffers
    ensures buffers == null ==> r == Err(NullReference)
    ensures buffers != null ==> (r.Ok? <==> Attach(path, Some(old(buffers[..])), bin, bufferFile).Ok?)
    ensures buffers != null && r.Err? ==> r.error == Attach(path, Some(old(buffers[..])), bin, bufferFile).error
    ensures buffers != null && r.Ok? ==> buffers[..] == Present(Attach(path, Some(old(buffers[..])), bin, bufferFile).value)
  {
    if buffers == null {
      return Err(NullReference);
    }
    ghost var bs := buffers[..];
    ghost var rd := LaterReader(path, bufferFile);
    var i := 0;
    while i < buffers.Length
      invariant 0 <= i <= buffers.Length
      invariant forall q :: i <= q < buffers.Length ==> buffers[q] == bs[q]
      invariant i > 0 ==> FirstEntry(bs[0], bin).Ok? && buffers[0] == Some(FirstEntry(bs[0], bin).value)
      invariant forall q :: 1 <= q < i ==> rd(bs[q]).Ok? && buffers[q] == Some(rd(bs[q]).value)
    {
      var buffer := buffers[i];
      if i == 0 {
        if buffer.None? {
          return Err(NullReference);
        }
        if buffer.value.uri != Some("") {
          return Err(FirstUriDefined);
        }
        buffers[i] := Some(buffer.value.(data := Some(bin)));
      } else {
        if buffer.None? {
          assert rd(bs[1..][i - 1]).Err?;
          MapAllFirstErr(bs[1..], i - 1, rd);
          return Err(NullReference);
        }
        if buffer.value.uri.None? {
          assert rd(bs[1..][i - 1]).Err?;
          MapAllFirstErr(bs[1..], i - 1, rd);
          return Err(Unexplained);
        }
        var bytes := bufferFile(path, buffer.value.uri.value);
        if bytes.Err? {
          assert rd(bs[1..][i - 1]) == Err(bytes.error);
          MapAllFirstErr(bs[1..], i - 1, rd);
          return Err(bytes.error);
        }
        buffers[i] := Some(buffer.value.(data := Some(bytes.value)));
      }
      i := i + 1;
    }
    if buffers.Length == 0 {
      return Err(IndexOutOfRange);
    }
    buffers[0] := Some(buffers[0].value.(data := Some(bin)));
    ghost var later := seq(|bs| - 1, q requires 0 <= q < |bs| - 1 => rd(bs[q + 1]).value);
    MapAllAllOk(bs[1..], rd, later);
    assert buffers[..] == Present([FirstEntry(bs[0], bin).value] + later);
    return Ok(());
  }
}
