/**
 * The texture-related resolver stages of `GLTFLoader`: samplers, images,
 * textures and materials. Images point at buffer views, textures at
 * samplers and images.
 */
module TextureStages {
  import opened Common
  import opened JsonTokens
  import opened Traverse
  import opened BufferStages
  import MimeTypes

  /** The glTF code of the REPEAT wrap mode, the default of both wrap axes. */
  const Repeat := 10497

  /** A texture sampler: wrap modes and optional filters. */
  datatype Sampler = Sampler(wrapS: int, wrapT: int, minFilter: Option<int>, magFilter: Option<int>)

  /** An image: a file URI, or a buffer view with a MIME type. */
  datatype Image = Image(uri: Option<string>, bufferView: Option<BufferView>, mimeType: Option<MimeTypes.MimeType>)

  /** A texture: an optional sampler (possibly an empty sampler slot) and its image. */
  datatype Texture = Texture(sampler: Option<Sampler>, source: Image)

  /** The material fields the loader sets; every other field keeps its class default. */
  datatype Material = Material(name: Option<string>, alphaMode: Option<string>, doubleSided: bool)

  /**
   * One entry of `LoadSamplers`. An entry without children leaves its slot
   * null; otherwise the wrap modes default to REPEAT and the filters to null.
   */
  function SamplerEntry(t: Json): (r: Result<Option<Sampler>>)
    ensures !HasValues(t) ==> r == Ok(None)
    ensures HasValues(t) && t.JArr? ==> r == Err(Argument)
    ensures r.Ok? && r.value.Some? ==> t.JObj? && HasValues(t)
    ensures r.Ok? && r.value.Some? && Lookup(t.props, "wrapS").None? ==> r.value.value.wrapS == Repeat
    ensures r.Ok? && r.value.Some? && Lookup(t.props, "wrapT").None? ==> r.value.value.wrapT == Repeat
    ensures r.Ok? && r.value.Some? && Lookup(t.props, "wrapS").Some? ==> CastInt(Lookup(t.props, "wrapS")) == Ok(r.value.value.wrapS)
    ensures r.Ok? && r.value.Some? && Lookup(t.props, "wrapT").Some? ==> CastInt(Lookup(t.props, "wrapT")) == Ok(r.value.value.wrapT)
    ensures r.Ok? && r.value.Some? ==> CastNullableInt(Lookup(t.props, "minFilter")) == Ok(r.value.value.minFilter)
                                       && CastNullableInt(Lookup(t.props, "magFilter")) == Ok(r.value.value.magFilter)
  {
    if !HasValues(t) then Ok(None)
    else
      var props :- Members(t);
      var wrapS :- CastIntOr(Lookup(props, "wrapS"), Repeat);
      var wrapT :- CastIntOr(Lookup(props, "wrapT"), Repeat);
      var minFilter :- CastNullableInt(Lookup(props, "minFilter"));
      var magFilter :- CastNullableInt(Lookup(props, "magFilter"));
      Ok(Some(Sampler(wrapS, wrapT, minFilter, magFilter)))
  }

  function SamplerReader(): Json -> Result<Option<Sampler>> {
    t => SamplerEntry(t)
  }

  /** `LoadSamplers`: an absent `samplers` member gives a null array. */
  function LoadSamplersSpec(jSamplers: Option<Json>): (r: Result<Option<seq<Option<Sampler>>>>)
    ensures jSamplers.None? ==> r == Ok(None)
    ensures r.Ok? && r.value.Some? ==> Entries(jSamplers).Ok? && |r.value.value| == |Entries(jSamplers).value|
  {
    if jSamplers.None? then Ok(None)
    else
      var items :- Entries(jSamplers);
      var samplers :- MapAll(items, SamplerReader());
      Ok(Some(samplers))
  }

  /**
   * Slot `i` of the sampler array is null exactly when entry `i` has no
   * children, and a filled slot has the default wrap modes where the entry
   * names none.
   */
  lemma SamplerSlots(jSamplers: Option<Json>, i: nat)
    requires LoadSamplersSpec(jSamplers).Ok? && LoadSamplersSpec(jSamplers).value.Some?
    requires i < |LoadSamplersSpec(jSamplers).value.value|
    ensures var item := Entries(jSamplers).value[i];
            var slot := LoadSamplersSpec(jSamplers).value.value[i];
            (slot.None? <==> !HasValues(item))
            && (slot.Some? && Lookup(item.props, "wrapS").None? ==> slot.value.wrapS == Repeat)
            && (slot.Some? && Lookup(item.props, "wrapT").None? ==> slot.value.wrapT == Repeat)
  {
    var items := Entries(jSamplers).value;
    assert SamplerReader()(items[i]) == Ok(LoadSamplersSpec(jSamplers).value.value[i]);
  }

  /** `LoadSamplers`: the loop over `jSamplers`, skipping entries without children. */
  method LoadSamplers(jSamplers: Option<Json>) returns (r: Result<Option<array<Option<Sampler>>>>)
    ensures r.Ok? <==> LoadSamplersSpec(jSamplers).Ok?
    ensures r.Err? ==> r.error == LoadSamplersSpec(jSamplers).error
    ensures r.Ok? ==> (r.value.Some? <==> LoadSamplersSpec(jSamplers).value.Some?)
    ensures r.Ok? && r.value.Some? ==> fresh(r.value.value) && r.value.value[..] == LoadSamplersSpec(jSamplers).value.value
  {
    if jSamplers.None? {
      return Ok(None);
    }
    var items :- Entries(jSamplers);
    var filled :- Fill(items, SamplerReader());
    return Ok(Some(filled));
  }

  /**
   * One entry of `LoadImages`. Without a URI the image is a buffer view
   * with a registered MIME type; with one, the file it names must exist.
   */
  function ImageEntry(path: string, views: seq<BufferView>, files: Files, t: Json): (r: Result<Image>)
    ensures !t.JObj? ==> r.Err?
    ensures r.Ok? ==> t.JObj? && CastString(Lookup(t.props, "uri")) == Ok(r.value.uri)
    ensures r.Ok? && r.value.uri.None? ==>
      r.value.bufferView.Some? && r.value.bufferView.value in views && r.value.mimeType.Some?
      && CastString(Lookup(t.props, "mimeType")) == Ok(Some(r.value.mimeType.value.Id()))
    ensures r.Ok? && r.value.uri.Some? ==> r.value.bufferView.None? && r.value.mimeType.None?
    ensures t.JObj? && CastString(Lookup(t.props, "uri")).Ok? && CastString(Lookup(t.props, "uri")).value.Some? ==>
      (r.Ok? <==> files.imageFound(path, CastString(Lookup(t.props, "uri")).value.value))
    ensures r.Err? && t.JObj? && CastString(Lookup(t.props, "uri")).Ok? && CastString(Lookup(t.props, "uri")).value.Some? ==>
      r.error == FileNotFound
  {
    var props :- Members(t);
    var uri :- CastString(Lookup(props, "uri"));
    if uri.None? then
      var index :- CastInt(Lookup(props, "bufferView"));
      var view :- Pick(views, index);
      var name :- CastString(Lookup(props, "mimeType"));
      var mimeType :- MimeTypes.FromString(name);
      Ok(Image(None, Some(view), Some(mimeType)))
    else if files.imageFound(path, uri.value) then Ok(Image(uri, None, None))
    else Err(FileNotFound)
  }

  function ImageReader(path: string, views: seq<BufferView>, files: Files): Json -> Result<Image> {
    t => ImageEntry(path, views, files, t)
  }

  /** `LoadImages`: one image per entry; an absent `images` member raises in `Count()`. */
  function LoadImagesSpec(path: string, jImages: Option<Json>, views: seq<BufferView>, files: Files): (r: Result<seq<Image>>)
    ensures jImages.None? ==> r == Err(ArgumentNull)
    ensures r.Ok? ==> Entries(jImages).Ok? && |r.value| == |Entries(jImages).value|
  {
    var items :- Entries(jImages);
    MapAll(items, ImageReader(path, views, files))
  }

  /**
   * After the stage every image either names an existing file, or holds one
   * of the buffer views and a MIME type.
   */
  lemma ImagesResolved(path: string, jImages: Option<Json>, views: seq<BufferView>, files: Files)
    requires LoadImagesSpec(path, jImages, views, files).Ok?
    ensures var images := LoadImagesSpec(path, jImages, views, files).value;
      forall i :: 0 <= i < |images| ==>
        if images[i].uri.Some? then files.imageFound(path, images[i].uri.value)
        else images[i].bufferView.Some? && images[i].bufferView.value in views && images[i].mimeType.Some?
  {
    var items := Entries(jImages).value;
    var images := LoadImagesSpec(path, jImages, views, files).value;
    forall i | 0 <= i < |images|
      ensures if images[i].uri.Some? then files.imageFound(path, images[i].uri.value)
              else images[i].bufferView.Some? && images[i].bufferView.value in views && images[i].mimeType.Some?
    {
      assert ImageReader(path, views, files)(items[i]) == Ok(images[i]);
    }
  }

  /** `LoadImages`: the loop that fills `new Image[jImages.Count()]`. */
  method LoadImages(path: string, jImages: Option<Json>, views: seq<BufferView>, files: Files) returns (r: Result<array<Image>>)
    ensures r.Ok? <==> LoadImagesSpec(path, jImages, views, files).Ok?
    ensures r.Err? ==> r.error == LoadImagesSpec(path, jImages, views, files).error
    ensures r.Ok? ==> fresh(r.value) && r.value[..] == LoadImagesSpec(path, jImages, views, files).value
  {
    var items :- Entries(jImages);
    r := Fill(items, ImageReader(path, views, files));
  }

  /**
   * One entry of `LoadTextures`: `sampler` is optional and indexes the
   * sampler array, which is null when the file has no samplers; `source`
   * is mandatory and indexes the images.
   */
  function TextureEntry(samplers: Option<seq<Option<Sampler>>>, images: seq<Image>, t: Json): (r: Result<Texture>)
    ensures !t.JObj? ==> r.Err?
    ensures r.Ok? ==> t.JObj? && r.value.source in images
    ensures r.Ok? ==> CastInt(Lookup(t.props, "source")).Ok? && 0 <= CastInt(Lookup(t.props, "source")).value < |images|
                      && r.value.source == images[CastInt(Lookup(t.props, "source")).value]
    ensures r.Ok? && Lookup(t.props, "sampler").None? ==> r.value.sampler.None?
    ensures r.Ok? && Lookup(t.props, "sampler").Some? ==> samplers.Some? && r.value.sampler in samplers.value
    ensures t.JObj? && Lookup(t.props, "source").None? ==> r.Err?
    ensures t.JObj? && Lookup(t.props, "sampler").Some? && samplers.None? ==> r.Err?
  {
    var props :- Members(t);
    var sampler :- if Lookup(props, "sampler").None? then Ok(None)
                   else
                     var index :- CastInt(Lookup(props, "sampler"));
                     if samplers.None? then Err(NullReference) else Pick(samplers.value, index);
    var index :- CastInt(Lookup(props, "source"));
    var source :- Pick(images, index);
    Ok(Texture(sampler, source))
  }

  function TextureReader(samplers: Option<seq<Option<Sampler>>>, images: seq<Image>): Json -> Result<Texture> {
    t => TextureEntry(samplers, images, t)
  }

  /** `LoadTextures`: one texture per entry. */
  function LoadTexturesSpec(jTextures: Option<Json>, samplers: Option<seq<Option<Sampler>>>, images: seq<Image>): (r: Result<seq<Texture>>)
    ensures jTextures.None? ==> r == Err(ArgumentNull)
    ensures r.Ok? ==> Entries(jTextures).Ok? && |r.value| == |Entries(jTextures).value|
  {
    var items :- Entries(jTextures);
    MapAll(items, TextureReader(samplers, images))
  }

  /** After the stage every texture holds one of the images and, if any, one of the sampler slots. */
  lemma TexturesResolved(jTextures: Option<Json>, samplers: Option<seq<Option<Sampler>>>, images: seq<Image>)
    requires LoadTexturesSpec(jTextures, samplers, images).Ok?
    ensures var textures := LoadTexturesSpec(jTextures, samplers, images).value;
      forall i :: 0 <= i < |textures| ==>
        textures[i].source in images && (textures[i].sampler.Some? ==> samplers.Some? && textures[i].sampler in samplers.value)
  {
    var items := Entries(jTextures).value;
    var textures := LoadTexturesSpec(jTextures, samplers, images).value;
    forall i | 0 <= i < |textures|
      ensures textures[i].source in images
      ensures textures[i].sampler.Some? ==> samplers.Some? && textures[i].sampler in samplers.value
    {
      assert TextureReader(samplers, images)(items[i]) == Ok(textures[i]);
    }
  }

  /** `LoadTextures`: the loop that fills `new Texture[jTextures.Count()]`. */
  method LoadTextures(jTextures: Option<Json>, samplers: Option<seq<Option<Sampler>>>, images: seq<Image>) returns (r: Result<array<Texture>>)
    ensures r.Ok? <==> LoadTexturesSpec(jTextures, samplers, images).Ok?
    ensures r.Err? ==> r.error == LoadTexturesSpec(jTextures, samplers, images).error
    ensures r.Ok? ==> fresh(r.value) && r.value[..] == LoadTexturesSpec(jTextures, samplers, images).value
  {
    var items :- Entries(jTextures);
    r := Fill(items, TextureReader(samplers, images));
  }

  /**
   * One entry of `LoadMaterials`: the entry must be an object; name and
   * alpha mode default to the empty string and double-sidedness to false.
   * A `pbrMetallicRoughness` member, and its `baseColorTexture`, must be
   * objects, although nothing is taken from them.
   */
  function MaterialEntry(t: Json): (r: Result<Material>)
    ensures !t.JObj? ==> r == Err(InvalidCast)
    ensures r.Ok? ==> t.JObj?
    ensures r.Ok? ==> CastStringOr(Lookup(t.props, "name"), "") == Ok(r.value.name)
                      && CastStringOr(Lookup(t.props, "alphaMode"), "") == Ok(r.value.alphaMode)
                      && CastBoolOr(Lookup(t.props, "doubleSided"), false) == Ok(r.value.doubleSided)
    ensures r.Ok? && Lookup(t.props, "name").None? ==> r.value.name == Some("")
    ensures r.Ok? && Lookup(t.props, "alphaMode").None? ==> r.value.alphaMode == Some("")
    ensures r.Ok? && Lookup(t.props, "doubleSided").None? ==> !r.value.doubleSided
    ensures t.JObj? && Lookup(t.props, "pbrMetallicRoughness").Some? && !Lookup(t.props, "pbrMetallicRoughness").value.JObj? ==>
      r.Err?
  {
    var props :- AsObject(t);
    var name :- CastStringOr(Lookup(props, "name"), "");
    var alphaMode :- CastStringOr(Lookup(props, "alphaMode"), "");
    var doubleSided :- CastBoolOr(Lookup(props, "doubleSided"), false);
    var _ :- PbrShape(Lookup(props, "pbrMetallicRoughness"));
    Ok(Material(name, alphaMode, doubleSided))
  }

  /** A `doubleSided` integer beyond `long` is a BigInteger, which the `(bool)` cast refuses. */
  lemma HugeDoubleSidedRaises()
    ensures MaterialEntry(JObj([Prop("doubleSided", JInt(10_000_000_000_000_000_000))])) == Err(Overflow)
  {
  }

  /** The `(JObject)` casts made on `pbrMetallicRoughness` and its `baseColorTexture`. */
  function PbrShape(pbr: Option<Json>): (r: Result<bool>)
    ensures pbr.None? ==> r == Ok(false)
    ensures pbr.Some? ==> (r.Ok? <==> pbr.value.JObj? && (Lookup(pbr.value.props, "baseColorTexture").Some? ==>
                                                       Lookup(pbr.value.props, "baseColorTexture").value.JObj?))
    ensures r.Err? ==> r.error == InvalidCast
  {
    if pbr.None? then Ok(false)
    else
      var props :- AsObject(pbr.value);
      var texture := Lookup(props, "baseColorTexture");
      if texture.None? then Ok(true)
      else
        var _ :- AsObject(texture.value);
        Ok(true)
  }

  function MaterialReader(): Json -> Result<Material> {
    t => MaterialEntry(t)
  }

  /** `LoadMaterials`: one material per entry. */
  function LoadMaterialsSpec(jMaterials: Option<Json>): (r: Result<seq<Material>>)
    ensures jMaterials.None? ==> r == Err(ArgumentNull)
    ensures r.Ok? ==> Entries(jMaterials).Ok? && |r.value| == |Entries(jMaterials).value|
  {
    var items :- Entries(jMaterials);
    MapAll(items, MaterialReader())
  }

  /** A material entry naming none of the three fields gets the empty name and alpha mode and one side. */
  lemma MaterialDefaults(jMaterials: Option<Json>, i: nat)
    requires LoadMaterialsSpec(jMaterials).Ok? && i < |LoadMaterialsSpec(jMaterials).value|
    requires var p := Entries(jMaterials).value[i].props;
             Lookup(p, "name").None? && Lookup(p, "alphaMode").None? && Lookup(p, "doubleSided").None?
    ensures LoadMaterialsSpec(jMaterials).value[i] == Material(Some(""), Some(""), false)
  {
    var items := Entries(jMaterials).value;
    assert MaterialReader()(items[i]) == Ok(LoadMaterialsSpec(jMaterials).value[i]);
  }

  /** `LoadMaterials`: the loop that fills `new Material[jMaterials.Count()]`. */
  method LoadMaterials(jMaterials: Option<Json>) returns (r: Result<array<Material>>)
    ensures r.Ok? <==> LoadMaterialsSpec(jMaterials).Ok?
    ensures r.Err? ==> r.error == LoadMaterialsSpec(jMaterials).error
    ensures r.Ok? ==> fresh(r.value) && r.value[..] == LoadMaterialsSpec(jMaterials).value
  {
    var items :- Entries(jMaterials);
    r := Fill(items, MaterialReader());
  }
}
