/**
 * The first three resolver stages of `GLTFLoader`: buffers, buffer views and
 * accessors. Each stage walks its JSON array, builds one record per entry
 * and replaces the integer index of the previous stage by the record it
 * designates.
 */
module BufferStages {
  import opened Common
  import opened Bytes
  import opened JsonTokens
  import opened Traverse
  import Registry

  /**
   * The file system and the decoders the loader calls, as parameters:
   * reading a buffer file next to the glTF file (FileNotFoundException when
   * it is missing), decoding base64 text, and whether an image file exists.
   */
  datatype Files = Files(
    bufferFile: (string, string) -> Result<seq<byte>>,
    base64: string -> Result<seq<byte>>,
    imageFound: (string, string) -> bool)

  /** A buffer: its URI, its declared length and its bytes (null when nothing supplied them). */
  datatype Buffer = Buffer(uri: Option<string>, byteLength: int, bytes: Option<seq<byte>>)

  /** A buffer view with its buffer resolved. */
  datatype BufferView = BufferView(buffer: Buffer, byteLength: int, byteOffset: int, byteStride: int)

  /** An accessor with its buffer view resolved; unknown type codes are null. */
  datatype Accessor = Accessor(
    bufferView: BufferView,
    byteOffset: int,
    count: int,
    componentType: Option<Registry.ComponentDataType>,
    structureType: Option<Registry.StructureType>)

  /** `s.IndexOf(",")`, with `|s|` standing for -1. */
  function CommaIndex(s: string): (k: nat)
    ensures k <= |s| && ',' !in s[..k]
    ensures k < |s| ==> s[k] == ','
  {
    if s == [] then 0
    else if s[0] == ',' then 0
    else
      var k := 1 + CommaIndex(s[1..]);
      assert s[..k] == [s[0]] + s[1..][..k - 1];
      k
  }

  /** `s.Substring(s.IndexOf(",") + 1)`: the text after the first comma, or all of it. */
  function AfterFirstComma(s: string): (r: string)
    ensures |r| <= |s| && r == s[|s| - |r|..]
    ensures ',' !in s ==> r == s
    ensures ',' in s ==> |r| < |s| && s[|s| - |r| - 1] == ',' && ',' !in s[..|s| - |r| - 1]
  {
    var k := CommaIndex(s);
    if k < |s| then s[k + 1..]
    else
      assert s[..k] == s;
      s
  }

  /**
   * Where a buffer's bytes come from: an absent or empty URI takes the
   * `array` argument, a "data:" URI is base64-decoded after its first comma,
   * any other URI names a file.
   */
  function BufferSource(path: string, uri: Option<string>, embedded: Option<seq<byte>>, files: Files): (r: Result<Option<seq<byte>>>)
    ensures uri.None? || uri == Some("") ==> r == Ok(embedded)
    ensures uri.Some? && uri.value != "" && "data:" <= uri.value ==>
      r == (var b :- files.base64(AfterFirstComma(uri.value)); Ok(Some(b)))
    ensures uri.Some? && uri.value != "" && !("data:" <= uri.value) ==>
      r == (var b :- files.bufferFile(path, uri.value); Ok(Some(b)))
  {
    if uri.None? || uri.value == "" then Ok(embedded)
    else if "data:" <= uri.value then
      var b :- files.base64(AfterFirstComma(uri.value));
      Ok(Some(b))
    else
      var b :- files.bufferFile(path, uri.value);
      Ok(Some(b))
  }

  /** One entry of `LoadBuffers`: `uri`, the mandatory `byteLength`, then the bytes. */
  function BufferEntry(path: string, embedded: Option<seq<byte>>, files: Files, t: Json): (r: Result<Buffer>)
    ensures r.Ok? ==> t.JObj? && CastString(Lookup(t.props, "uri")) == Ok(r.value.uri)
    ensures r.Ok? ==> CastInt(Lookup(t.props, "byteLength")) == Ok(r.value.byteLength)
    ensures t.JObj? && Lookup(t.props, "byteLength").None? ==> r.Err?
    ensures r.Ok? && (r.value.uri.None? || r.value.uri == Some("")) ==> r.value.bytes == embedded
  {
    var props :- Members(t);
    var uri :- CastString(Lookup(props, "uri"));
    var byteLength :- CastInt(Lookup(props, "byteLength"));
    var bytes :- BufferSource(path, uri, embedded, files);
    Ok(Buffer(uri, byteLength, bytes))
  }

  function BufferReader(path: string, embedded: Option<seq<byte>>, files: Files): Json -> Result<Buffer> {
    t => BufferEntry(path, embedded, files, t)
  }

  /** `LoadBuffers`: one buffer per entry of the `buffers` array, in order. */
  function LoadBuffersSpec(path: string, jBuffers: Option<Json>, embedded: Option<seq<byte>>, files: Files): (r: Result<seq<Buffer>>)
    ensures r.Ok? ==> Entries(jBuffers).Ok? && |r.value| == |Entries(jBuffers).value|
  {
    var items :- Entries(jBuffers);
    MapAll(items, BufferReader(path, embedded, files))
  }

  /** Every buffer without a URI (or with an empty one) holds exactly the `array` argument (`embedded` here). */
  lemma EmbeddedBuffersTakeArray(path: string, jBuffers: Option<Json>, embedded: Option<seq<byte>>, files: Files, i: nat)
    requires LoadBuffersSpec(path, jBuffers, embedded, files).Ok? && i < |LoadBuffersSpec(path, jBuffers, embedded, files).value|
    requires LoadBuffersSpec(path, jBuffers, embedded, files).value[i].uri in {None, Some("")}
    ensures LoadBuffersSpec(path, jBuffers, embedded, files).value[i].bytes == embedded
  {
    var items := Entries(jBuffers).value;
    assert BufferReader(path, embedded, files)(items[i]) == Ok(LoadBuffersSpec(path, jBuffers, embedded, files).value[i]);
  }

  /** `LoadBuffers`: the loop that fills `new Buffer[jBuffers.Count()]`. */
  method LoadBuffers(path: string, jBuffers: Option<Json>, embedded: Option<seq<byte>>, files: Files) returns (r: Result<array<Buffer>>)
    ensures r.Ok? <==> LoadBuffersSpec(path, jBuffers, embedded, files).Ok?
    ensures r.Err? ==> r.error == LoadBuffersSpec(path, jBuffers, embedded, files).error
    ensures r.Ok? ==> fresh(r.value) && r.value[..] == LoadBuffersSpec(path, jBuffers, embedded, files).value
  {
    var items :- Entries(jBuffers);
    r := Fill(items, BufferReader(path, embedded, files));
  }

  /** `buffers[k]`: an index outside the array raises IndexOutOfRangeException. */
  function Pick<T>(xs: seq<T>, k: int): (r: Result<T>)
    ensures r.Ok? <==> 0 <= k < |xs|
    ensures r.Ok? ==> r.value == xs[k]
    ensures r.Err? ==> r.error == IndexOutOfRange
  {
    if 0 <= k < |xs| then Ok(xs[k]) else Err(IndexOutOfRange)
  }

  /**
   * One entry of `LoadBufferViews`: `buffer`, `byteLength` and `byteOffset`
   * are mandatory, `byteStride` defaults to 0.
   */
  function BufferViewEntry(buffers: seq<Buffer>, t: Json): (r: Result<BufferView>)
    ensures r.Ok? ==> t.JObj? && r.value.buffer in buffers
    ensures r.Ok? ==> CastInt(Lookup(t.props, "byteOffset")) == Ok(r.value.byteOffset)
                      && CastInt(Lookup(t.props, "byteLength")) == Ok(r.value.byteLength)
    ensures r.Ok? && Lookup(t.props, "byteStride").None? ==> r.value.byteStride == 0
    ensures t.JObj? && Lookup(t.props, "byteOffset").None? ==> r.Err?
    ensures t.JObj? && Lookup(t.props, "byteLength").None? ==> r.Err?
    ensures t.JObj? && Lookup(t.props, "buffer").None? ==> r.Err?
  {
    var props :- Members(t);
    var index :- CastInt(Lookup(props, "buffer"));
    var buffer :- Pick(buffers, index);
    var byteLength :- CastInt(Lookup(props, "byteLength"));
    var byteOffset :- CastInt(Lookup(props, "byteOffset"));
    var byteStride :- CastIntOr(Lookup(props, "byteStride"), 0);
    Ok(BufferView(buffer, byteLength, byteOffset, byteStride))
  }

  function BufferViewReader(buffers: seq<Buffer>): Json -> Result<BufferView> {
    t => BufferViewEntry(buffers, t)
  }

  /** `LoadBufferViews`: one view per entry, each pointing at one of `buffers`. */
  function LoadBufferViewsSpec(jViews: Option<Json>, buffers: seq<Buffer>): (r: Result<seq<BufferView>>)
    ensures r.Ok? ==> Entries(jViews).Ok? && |r.value| == |Entries(jViews).value|
  {
    var items :- Entries(jViews);
    MapAll(items, BufferViewReader(buffers))
  }

  /**
   * After the stage every view refers to one of the buffers, and an entry
   * without `byteStride` has stride 0.
   */
  lemma BufferViewsResolved(jViews: Option<Json>, buffers: seq<Buffer>)
    requires LoadBufferViewsSpec(jViews, buffers).Ok?
    ensures var views := LoadBufferViewsSpec(jViews, buffers).value;
      forall i :: 0 <= i < |views| ==>
        views[i].buffer in buffers && (Lookup(Entries(jViews).value[i].props, "byteStride").None? ==> views[i].byteStride == 0)
  {
    var items := Entries(jViews).value;
    var views := LoadBufferViewsSpec(jViews, buffers).value;
    forall i | 0 <= i < |views|
      ensures views[i].buffer in buffers
      ensures Lookup(items[i].props, "byteStride").None? ==> views[i].byteStride == 0
    {
      assert BufferViewReader(buffers)(items[i]) == Ok(views[i]);
    }
  }

  /** An entry without `byteOffset` makes the whole stage fail. */
  lemma BufferViewOffsetRequired(jViews: Option<Json>, buffers: seq<Buffer>, i: nat)
    requires Entries(jViews).Ok? && i < |Entries(jViews).value|
    requires Entries(jViews).value[i].JObj? && Lookup(Entries(jViews).value[i].props, "byteOffset").None?
    ensures LoadBufferViewsSpec(jViews, buffers).Err?
  {
    var items := Entries(jViews).value;
    assert BufferViewReader(buffers)(items[i]).Err?;
  }

  /** `LoadBufferViews`: the loop that fills `new BufferView[jBufferViews.Count()]`. */
  method LoadBufferViews(jViews: Option<Json>, buffers: seq<Buffer>) returns (r: Result<array<BufferView>>)
    ensures r.Ok? <==> LoadBufferViewsSpec(jViews, buffers).Ok?
    ensures r.Err? ==> r.error == LoadBufferViewsSpec(jViews, buffers).error
    ensures r.Ok? ==> fresh(r.value) && r.value[..] == LoadBufferViewsSpec(jViews, buffers).value
  {
    var items :- Entries(jViews);
    r := Fill(items, BufferViewReader(buffers));
  }

  /**
   * One entry of `LoadAccessors`: `bufferView`, `count` and `componentType`
   * are mandatory, `byteOffset` defaults to 0; an unknown component type or
   * structure type name is stored as null.
   */
  function AccessorEntry(views: seq<BufferView>, t: Json): (r: Result<Accessor>)
    ensures r.Ok? ==> t.JObj? && r.value.bufferView in views
    ensures r.Ok? && Lookup(t.props, "byteOffset").None? ==> r.value.byteOffset == 0
    ensures r.Ok? ==> CastInt(Lookup(t.props, "count")) == Ok(r.value.count)
    ensures r.Ok? ==> CastInt(Lookup(t.props, "componentType")).Ok?
                      && r.value.componentType == Registry.FromInt(CastInt(Lookup(t.props, "componentType")).value)
    ensures r.Ok? ==> CastString(Lookup(t.props, "type")).Ok?
                      && r.value.structureType == Registry.FromSting(CastString(Lookup(t.props, "type")).value)
    ensures t.JObj? && Lookup(t.props, "count").None? ==> r.Err?
    ensures t.JObj? && Lookup(t.props, "componentType").None? ==> r.Err?
    ensures t.JObj? && Lookup(t.props, "bufferView").None? ==> r.Err?
  {
    var props :- Members(t);
    var index :- CastInt(Lookup(props, "bufferView"));
    var view :- Pick(views, index);
    var byteOffset :- CastIntOr(Lookup(props, "byteOffset"), 0);
    var count :- CastInt(Lookup(props, "count"));
    var code :- CastInt(Lookup(props, "componentType"));
    var name :- CastString(Lookup(props, "type"));
    Ok(Accessor(view, byteOffset, count, Registry.FromInt(code), Registry.FromSting(name)))
  }

  function AccessorReader(views: seq<BufferView>): Json -> Result<Accessor> {
    t => AccessorEntry(views, t)
  }

  /** `LoadAccessors`: one accessor per entry, each pointing at one of `views`. */
  function LoadAccessorsSpec(jAccessors: Option<Json>, views: seq<BufferView>): (r: Result<seq<Accessor>>)
    ensures r.Ok? ==> Entries(jAccessors).Ok? && |r.value| == |Entries(jAccessors).value|
  {
    var items :- Entries(jAccessors);
    MapAll(items, AccessorReader(views))
  }

  /**
   * After the stage every accessor refers to one of the views, and an entry
   * without `byteOffset` has offset 0.
   */
  lemma AccessorsResolved(jAccessors: Option<Json>, views: seq<BufferView>)
    requires LoadAccessorsSpec(jAccessors, views).Ok?
    ensures var accessors := LoadAccessorsSpec(jAccessors, views).value;
      forall i :: 0 <= i < |accessors| ==>
        accessors[i].bufferView in views && (Lookup(Entries(jAccessors).value[i].props, "byteOffset").None? ==> accessors[i].byteOffset == 0)
  {
    var items := Entries(jAccessors).value;
    var accessors := LoadAccessorsSpec(jAccessors, views).value;
    forall i | 0 <= i < |accessors|
      ensures accessors[i].bufferView in views
      ensures Lookup(items[i].props, "byteOffset").None? ==> accessors[i].byteOffset == 0
    {
      assert AccessorReader(views)(items[i]) == Ok(accessors[i]);
    }
  }

  /** `LoadAccessors`: the loop that fills `new Accessor[jAccessors.Count()]`. */
  method LoadAccessors(jAccessors: Option<Json>, views: seq<BufferView>) returns (r: Result<array<Accessor>>)
    ensures r.Ok? <==> LoadAccessorsSpec(jAccessors, views).Ok?
    ensures r.Err? ==> r.error == LoadAccessorsSpec(jAccessors, views).error
    ensures r.Ok? ==> fresh(r.value) && r.value[..] == LoadAccessorsSpec(jAccessors, views).value
  {
    var items :- Entries(jAccessors);
    r := Fill(items, AccessorReader(views));
  }
}
