/**
 * `GLTFLoader.Load` and `LoadFromJsonWithBinary`: the required top-level
 * members, the stages in their fixed order, and the file they produce.
 * Decoding and parsing the JSON text is a parameter (`parse`), as are the
 * file system and the decoders the stages use.
 */
module Loader {
  import opened Common
  import opened Bytes
  import opened JsonTokens
  import opened BufferStages
  import opened TextureStages
  import opened MeshStage
  import opened NodeStage
  import AnimationStage
  import SkinStage
  import Glb

  const NoVersion := Raised("Version field is missing.")

  /** The `asset` member: its version text and three optional strings. */
  datatype Asset = Asset(version: Text, copyright: Option<string>, generator: Option<string>, minVersion: Option<string>)

  /** The loaded file: every resolved array the loader stores, in `GLTFFile`'s order. */
  datatype Document = Document(
    path: string,
    asset: Asset,
    buffers: seq<Buffer>,
    bufferViews: seq<BufferView>,
    accessors: seq<Accessor>,
    images: seq<Image>,
    samplers: Option<seq<Option<Sampler>>>,
    textures: seq<Texture>,
    materials: seq<Material>,
    meshes: seq<Mesh>,
    nodes: seq<Node>)

  /**
   * `LoadAsset`: `version` is mandatory and kept as the token's text; the
   * other three members are cast to strings.
   */
  function AssetEntry(t: Json): (r: Result<Asset>)
    ensures !t.JObj? ==> r.Err?
    ensures t.JObj? && Lookup(t.props, "version").None? ==> r == Err(NoVersion)
    ensures r.Ok? ==> t.JObj? && Lookup(t.props, "version").Some? && r.value.version == ToText(Lookup(t.props, "version").value)
    ensures r.Ok? ==> CastString(Lookup(t.props, "copyright")) == Ok(r.value.copyright)
                      && CastString(Lookup(t.props, "generator")) == Ok(r.value.generator)
                      && CastString(Lookup(t.props, "minVersion")) == Ok(r.value.minVersion)
    ensures t.JObj? && Lookup(t.props, "version").Some? && Lookup(t.props, "copyright").None?
            && Lookup(t.props, "generator").None? && Lookup(t.props, "minVersion").None? ==>
      r == Ok(Asset(ToText(Lookup(t.props, "version").value), None, None, None))
  {
    var props :- Members(t);
    var version := Lookup(props, "version");
    if version.None? then Err(NoVersion)
    else
      var copyright :- CastString(Lookup(props, "copyright"));
      var generator :- CastString(Lookup(props, "generator"));
      var minVersion :- CastString(Lookup(props, "minVersion"));
      Ok(Asset(ToText(version.value), copyright, generator, minVersion))
  }

  /** An absent member, or a token `(string?)` converts: anything but an array or an object. */
  predicate StringCastable(m: Option<Json>) {
    m.None? || !(m.value.JArr? || m.value.JObj?)
  }

  /**
   * The asset stage on an object succeeds exactly when `version` is present
   * and none of the three optional members is an array or an object; then
   * the version is the token's text, a string member is itself, and an
   * absent or null member is null.
   */
  lemma AssetEntryCases(t: Json)
    requires t.JObj?
    ensures AssetEntry(t).Ok? <==>
      Lookup(t.props, "version").Some? && StringCastable(Lookup(t.props, "copyright"))
      && StringCastable(Lookup(t.props, "generator")) && StringCastable(Lookup(t.props, "minVersion"))
    ensures AssetEntry(t).Ok? ==> AssetEntry(t).value.version == ToText(Lookup(t.props, "version").value)
    ensures AssetEntry(t).Ok? ==>
      && (Lookup(t.props, "copyright") in {None, Some(JNull)} <==> AssetEntry(t).value.copyright.None?)
      && (Lookup(t.props, "generator") in {None, Some(JNull)} <==> AssetEntry(t).value.generator.None?)
      && (Lookup(t.props, "minVersion") in {None, Some(JNull)} <==> AssetEntry(t).value.minVersion.None?)
    ensures forall s ::
      (Lookup(t.props, "version").Some? && Lookup(t.props, "copyright") == Some(JStr(s))
       && StringCastable(Lookup(t.props, "generator")) && StringCastable(Lookup(t.props, "minVersion")))
      ==> AssetEntry(t).Ok? && AssetEntry(t).value.copyright == Some(s)
  {
  }

  /** The four members a file must have before any stage runs. */
  predicate HasRequired(root: seq<Prop>) {
    && Lookup(root, "asset").Some?
    && Lookup(root, "buffers").Some?
    && Lookup(root, "bufferViews").Some?
    && Lookup(root, "accessors").Some?
  }

  /** The sampler, image, texture and material stages, in that order. */
  function MaterialStages(path: string, root: seq<Prop>, views: seq<BufferView>, files: Files)
    : (r: Result<(Option<seq<Option<Sampler>>>, seq<Image>, seq<Texture>, seq<Material>)>)
    ensures r.Ok? ==> LoadSamplersSpec(Lookup(root, "samplers")) == Ok(r.value.0)
                      && LoadImagesSpec(path, Lookup(root, "images"), views, files) == Ok(r.value.1)
                      && LoadTexturesSpec(Lookup(root, "textures"), r.value.0, r.value.1) == Ok(r.value.2)
                      && LoadMaterialsSpec(Lookup(root, "materials")) == Ok(r.value.3)
    ensures Lookup(root, "images").None? ==> r.Err?
  {
    var samplers :- LoadSamplersSpec(Lookup(root, "samplers"));
    var images :- LoadImagesSpec(path, Lookup(root, "images"), views, files);
    var textures :- LoadTexturesSpec(Lookup(root, "textures"), samplers, images);
    var materials :- LoadMaterialsSpec(Lookup(root, "materials"));
    Ok((samplers, images, textures, materials))
  }

  /**
   * The mesh and node stages, then the animation and skin stages when their
   * members are present; only meshes and nodes are kept.
   */
  function SceneStages(root: seq<Prop>, accessors: seq<Accessor>, materials: seq<Material>): (r: Result<(seq<Mesh>, seq<Node>)>)
    ensures r.Ok? ==> LoadMeshesSpec(Lookup(root, "meshes"), accessors, materials) == Ok(r.value.0)
                      && LoadNodesSpec(Lookup(root, "nodes"), r.value.0) == Ok(r.value.1)
    ensures r.Ok? && Lookup(root, "animations").Some? ==>
      AnimationStage.LoadAnimationsSpec(Lookup(root, "animations"), accessors, |r.value.1|).Ok?
    ensures r.Ok? && Lookup(root, "skins").Some? ==>
      SkinStage.LoadSkinsSpec(Lookup(root, "skins"), accessors, |r.value.1|).Ok?
    ensures Lookup(root, "meshes").None? || Lookup(root, "nodes").None? ==> r.Err?
  {
    var meshes :- LoadMeshesSpec(Lookup(root, "meshes"), accessors, materials);
    var nodes :- LoadNodesSpec(Lookup(root, "nodes"), meshes);
    var animations :- if Lookup(root, "animations").Some?
                      then AnimationStage.LoadAnimationsSpec(Lookup(root, "animations"), accessors, |nodes|)
                      else Ok([]);
    var skins :- if Lookup(root, "skins").Some?
                 then SkinStage.LoadSkinsSpec(Lookup(root, "skins"), accessors, |nodes|)
                 else Ok([]);
    Ok((meshes, nodes))
  }

  /**
   * The stages of `LoadFromJsonWithBinary`, with `embedded` as the array the
   * buffer stage hands to buffers without a URI. Animations and skins are
   * loaded, and can fail the load, only when present; the file keeps neither.
   */
  function ResolveWith(path: string, root: seq<Prop>, embedded: Option<seq<byte>>, files: Files): (r: Result<Document>)
    ensures !HasRequired(root) ==> r == Err(Argument)
    ensures r.Ok? ==> HasRequired(root) && r.value.path == path
                      && AssetEntry(Lookup(root, "asset").value) == Ok(r.value.asset)
    ensures r.Ok? ==> LoadBuffersSpec(path, Lookup(root, "buffers"), embedded, files) == Ok(r.value.buffers)
                      && LoadBufferViewsSpec(Lookup(root, "bufferViews"), r.value.buffers) == Ok(r.value.bufferViews)
                      && LoadAccessorsSpec(Lookup(root, "accessors"), r.value.bufferViews) == Ok(r.value.accessors)
    ensures r.Ok? ==> LoadSamplersSpec(Lookup(root, "samplers")) == Ok(r.value.samplers)
                      && LoadImagesSpec(path, Lookup(root, "images"), r.value.bufferViews, files) == Ok(r.value.images)
                      && LoadTexturesSpec(Lookup(root, "textures"), r.value.samplers, r.value.images) == Ok(r.value.textures)
                      && LoadMaterialsSpec(Lookup(root, "materials")) == Ok(r.value.materials)
    ensures r.Ok? ==> LoadMeshesSpec(Lookup(root, "meshes"), r.value.accessors, r.value.materials) == Ok(r.value.meshes)
                      && LoadNodesSpec(Lookup(root, "nodes"), r.value.meshes) == Ok(r.value.nodes)
    ensures r.Ok? && Lookup(root, "animations").Some? ==>
      AnimationStage.LoadAnimationsSpec(Lookup(root, "animations"), r.value.accessors, |r.value.nodes|).Ok?
    ensures r.Ok? && Lookup(root, "skins").Some? ==>
      SkinStage.LoadSkinsSpec(Lookup(root, "skins"), r.value.accessors, |r.value.nodes|).Ok?
  {
    if !HasRequired(root) then Err(Argument)
    else
      var asset :- AssetEntry(Lookup(root, "asset").value);
      var buffers :- LoadBuffersSpec(path, Lookup(root, "buffers"), embedded, files);
      var views :- LoadBufferViewsSpec(Lookup(root, "bufferViews"), buffers);
      var accessors :- LoadAccessorsSpec(Lookup(root, "accessors"), views);
      var looks :- MaterialStages(path, root, views, files);
      var scene :- SceneStages(root, accessors, looks.3);
      Ok(Document(path, asset, buffers, views, accessors, looks.1, looks.0, looks.2, looks.3, scene.0, scene.1))
  }

  /**
   * `LoadFromJsonWithBinary` as written: the binary chunk is never handed to
   * `LoadBuffers`, so the buffer stage sees no array, whatever the file held.
   */
  function ResolveAsWritten(path: string, root: seq<Prop>, binary: Option<seq<byte>>, files: Files): (r: Result<Document>)
    ensures !HasRequired(root) ==> r == Err(Argument)
    ensures r.Ok? ==> r.value.path == path && LoadBuffersSpec(path, Lookup(root, "buffers"), None, files) == Ok(r.value.buffers)
  {
    ResolveWith(path, root, None, files)
  }

  /** `LoadFromJsonWithBinary` with the binary chunk passed as the buffer stage's `array`. */
  function Resolve(path: string, root: seq<Prop>, binary: Option<seq<byte>>, files: Files): (r: Result<Document>)
    ensures !HasRequired(root) ==> r == Err(Argument)
    ensures r.Ok? ==> r.value.path == path && LoadBuffersSpec(path, Lookup(root, "buffers"), binary, files) == Ok(r.value.buffers)
  {
    ResolveWith(path, root, binary, files)
  }

  /**
   * As written, a buffer without a URI has no bytes even when the file
   * carried a binary chunk: the GLB's own buffer comes out empty.
   */
  lemma AsWrittenDropsBinary(path: string, root: seq<Prop>, binary: Option<seq<byte>>, files: Files, i: nat)
    requires ResolveAsWritten(path, root, binary, files).Ok?
    requires i < |ResolveAsWritten(path, root, binary, files).value.buffers|
    requires ResolveAsWritten(path, root, binary, files).value.buffers[i].uri in {None, Some("")}
    ensures ResolveAsWritten(path, root, binary, files).value.buffers[i].bytes == None
  {
    EmbeddedBuffersTakeArray(path, Lookup(root, "buffers"), None, files, i);
  }

  /** Corrected, a buffer without a URI holds exactly the binary chunk. */
  lemma BufferTakesBinary(path: string, root: seq<Prop>, binary: Option<seq<byte>>, files: Files, i: nat)
    requires Resolve(path, root, binary, files).Ok?
    requires i < |Resolve(path, root, binary, files).value.buffers|
    requires Resolve(path, root, binary, files).value.buffers[i].uri in {None, Some("")}
    ensures Resolve(path, root, binary, files).value.buffers[i].bytes == binary
  {
    EmbeddedBuffersTakeArray(path, Lookup(root, "buffers"), binary, files, i);
  }

  /**
   * The references a loaded file holds stay inside it: views name its
   * buffers, accessors its views, textures its images, primitives its
   * accessors and materials, and child indices its nodes.
   */
  predicate Closed(d: Document) {
    && (forall i :: 0 <= i < |d.bufferViews| ==> d.bufferViews[i].buffer in d.buffers)
    && (forall i :: 0 <= i < |d.accessors| ==> d.accessors[i].bufferView in d.bufferViews)
    && (forall i :: 0 <= i < |d.textures| ==> d.textures[i].source in d.images)
    && (forall i, k :: 0 <= i < |d.meshes| && 0 <= k < |d.meshes[i].primitives| ==>
          ResolvedIn(d.meshes[i].primitives[k], d.accessors, d.materials))
    && (forall i :: 0 <= i < |d.nodes| && d.nodes[i].children.Some? ==> AllBelow(d.nodes[i].children.value, |d.nodes|))
  }

  /** Every file the stages produce is closed under its own references. */
  lemma ResolvedClosed(path: string, root: seq<Prop>, embedded: Option<seq<byte>>, files: Files)
    requires ResolveWith(path, root, embedded, files).Ok?
    ensures Closed(ResolveWith(path, root, embedded, files).value)
  {
    var d := ResolveWith(path, root, embedded, files).value;
    BufferViewsResolved(Lookup(root, "bufferViews"), d.buffers);
    AccessorsResolved(Lookup(root, "accessors"), d.bufferViews);
    TexturesResolved(Lookup(root, "textures"), d.samplers, d.images);
    MeshesResolved(Lookup(root, "meshes"), d.accessors, d.materials);
    NodesLinked(Lookup(root, "nodes"), d.meshes);
  }

  /** The sampler, image, texture and material stage methods. */
  method LoadMaterialStages(path: string, root: seq<Prop>, views: seq<BufferView>, files: Files)
    returns (r: Result<(Option<seq<Option<Sampler>>>, seq<Image>, seq<Texture>, seq<Material>)>)
    ensures r == MaterialStages(path, root, views, files)
  {
    var samplerArray :- LoadSamplers(Lookup(root, "samplers"));
    var samplers := if samplerArray.Some? then Some(samplerArray.value[..]) else None;
    var imageArray :- LoadImages(path, Lookup(root, "images"), views, files);
    var images := imageArray[..];
    var textureArray :- LoadTextures(Lookup(root, "textures"), samplers, images);
    var textures := textureArray[..];
    var materialArray :- LoadMaterials(Lookup(root, "materials"));
    return Ok((samplers, images, textures, materialArray[..]));
  }

  /** The mesh, node, animation and skin stage methods. */
  method LoadSceneStages(root: seq<Prop>, accessors: seq<Accessor>, materials: seq<Material>) returns (r: Result<(seq<Mesh>, seq<Node>)>)
    ensures r == SceneStages(root, accessors, materials)
  {
    var meshArray :- LoadMeshes(Lookup(root, "meshes"), accessors, materials);
    var meshes := meshArray[..];
    var nodeArray :- LoadNodes(Lookup(root, "nodes"), meshes);
    var nodes := nodeArray[..];
    if Lookup(root, "animations").Some? {
      var animations :- AnimationStage.LoadAnimations(Lookup(root, "animations"), accessors, |nodes|);
    }
    if Lookup(root, "skins").Some? {
      var skins :- SkinStage.LoadSkins(Lookup(root, "skins"), accessors, |nodes|);
    }
    return Ok((meshes, nodes));
  }

  /**
   * `LoadFromJsonWithBinary`: every stage method in order, each one handed
   * the arrays the earlier ones built. This is the corrected program: the
   * binary chunk is passed to the buffer stage as its `array`, which the
   * call as written leaves out (see `ResolveAsWritten`).
   */
  method LoadFromJsonWithBinary(path: string, root: seq<Prop>, binary: Option<seq<byte>>, files: Files) returns (r: Result<Document>)
    ensures r == Resolve(path, root, binary, files)
  {
    if !HasRequired(root) {
      return Err(Argument);
    }
    var asset :- AssetEntry(Lookup(root, "asset").value);
    var bufferArray :- LoadBuffers(path, Lookup(root, "buffers"), binary, files);
    var buffers := bufferArray[..];
    var viewArray :- LoadBufferViews(Lookup(root, "bufferViews"), buffers);
    var views := viewArray[..];
    var accessorArray :- LoadAccessors(Lookup(root, "accessors"), views);
    var accessors := accessorArray[..];
    var looks :- LoadMaterialStages(path, root, views, files);
    var scene :- LoadSceneStages(root, accessors, looks.3);
    return Ok(Document(path, asset, buffers, views, accessors, looks.1, looks.0, looks.2, looks.3, scene.0, scene.1));
  }

  /**
   * `Load`: the path checks, the JSON text and binary chunk of the file,
   * the parse, then the stages.
   */
  function LoadSpec(path: Option<string>, fileExists: string -> bool, contents: string -> seq<byte>,
                    parse: seq<byte> -> Result<seq<Prop>>, files: Files): (r: Result<Document>)
    ensures r.Ok? ==> path.Some? && path.value != [] && fileExists(path.value) && r.value.path == path.value
  {
    var source :- Glb.ReadSource(path, fileExists, contents, false);
    var root :- parse(source.jsonText);
    Resolve(path.value, root, source.binary, files)
  }

  /**
   * A ".glb" file's buffers without a URI hold its binary chunk; a
   * ".gltf" file's hold nothing.
   */
  lemma EmbeddedBufferBytes(path: Option<string>, fileExists: string -> bool, contents: string -> seq<byte>,
                            parse: seq<byte> -> Result<seq<Prop>>, files: Files, i: nat)
    requires LoadSpec(path, fileExists, contents, parse, files).Ok?
    requires i < |LoadSpec(path, fileExists, contents, parse, files).value.buffers|
    requires LoadSpec(path, fileExists, contents, parse, files).value.buffers[i].uri in {None, Some("")}
    ensures Glb.Extension(path.value) == ".gltf" ==> LoadSpec(path, fileExists, contents, parse, files).value.buffers[i].bytes == None
    ensures Glb.Extension(path.value) == ".glb" ==>
      Glb.Demux(contents(path.value)).Ok?
      && LoadSpec(path, fileExists, contents, parse, files).value.buffers[i].bytes == Some(Glb.Demux(contents(path.value)).value.1)
  {
    var source := Glb.ReadSource(path, fileExists, contents, false).value;
    var root := parse(source.jsonText).value;
    BufferTakesBinary(path.value, root, source.binary, files, i);
  }

  /** `Load` with the file system and the parser as parameters. */
  method Load(path: Option<string>, fileExists: string -> bool, contents: string -> seq<byte>,
              parse: seq<byte> -> Result<seq<Prop>>, files: Files) returns (r: Result<Document>)
    ensures r == LoadSpec(path, fileExists, contents, parse, files)
  {
    var source :- Glb.ReadSource(path, fileExists, contents, false);
    var root :- parse(source.jsonText);
    r := LoadFromJsonWithBinary(path.value, root, source.binary, files);
  }
}
