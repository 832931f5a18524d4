# HxGLTF loader core in Dafny

This project models the core of HxGLTF, a C# loader for glTF 2.0 files,
and proves properties of that model. It covers four parts:

- **The GLB container split.** The 12-byte header, the JSON chunk and the
  BIN chunk. Both loaders are modelled:
  - the current `GLTFLoader` (`Glb`, `Loader`);
  - the older `TrivialHxGLTF` loader (`TrivialLoader`), which reads through
    a `MemoryStream` and checks nothing but the magic number.
- **The index-to-reference resolver.** Every `LoadX` stage of
  `LoadFromJsonWithBinary` turns the indices of the parsed JSON into
  references to entries of the arrays built by earlier stages:
  - buffers, buffer views, accessors (`BufferStages`);
  - samplers, images, textures, materials (`TextureStages`);
  - meshes (`MeshStage`), nodes with their two passes (`NodeStage`),
    animations (`AnimationStage`) and skins (`SkinStage`).

  Each stage is a method with the loop of the source. It is proved equal to
  a specification function built on a first-failure traversal
  (`Traverse.MapAll`). Lemmas state what each stage guarantees: every
  reference lands in the array it indexes, missing mandatory members raise,
  and documented defaults are applied.
- **The accessor decoder and its cache** (`AccessorReader`):
  - packed and interleaved layouts;
  - integer components as the float values they become (unsigned ints rounded to float32) and float32 components kept as bit patterns;
  - the restricted index reader;
  - `AccessorReaderContext` as a class whose cache is a map field.
- **The small registries and the packed colour.**
  - Component and structure types: `Registry`, `LegacyTypes`,
    `TrivialAccessor`.
  - MIME types: `MimeTypes`.
  - The RGBA word with its byte-lane setters: `Colors`.

The parsed JSON is an abstract tree (`JsonTokens.Json`) with the access
rules of Newtonsoft.Json's `JToken`:
- an indexer on an array or a value raises;
- a cast accepts only a matching token kind;
- `Count()` of null raises.

Every C# exception is a `Common.Fault`, and a failing operation returns
`Err(fault)`.

The file system, JSON text parsing, base64 and UTF-8 decoding are
parameters:
- `Files` holds three functions: one reads a buffer file, one decodes a
  base64 payload, one says whether an image file exists.
- The path checks take a `fileExists` predicate.
- `Loader.Load` takes a `contents` function and a `parse` function.

## Model

| member | source | states |
|---|---|---|
| Registry.ComponentDataType.Bytes | HxGLTF/Core/Accessor.cs:96 | bytes per component is bits / 8, between 1 and 4 |
| Registry.FromInt | HxGLTF/Core/Accessor.cs:9-39 | a type is found exactly for 5120, 5121, 5122, 5123, 5125, 5126, and the entry found carries that code; null otherwise |
| Registry.FromIntId | HxGLTF/Core/Accessor.cs:16-24 | every registered type is found again under its own code |
| Registry.StructureById | HxGLTF/Core/Accessor.cs:52-61 | the dictionary gives the shape whose id is the key, and nothing when no shape has that id |
| Registry.FromSting | HxGLTF/Core/Accessor.cs:72-79 | null name gives null; otherwise found iff some shape's id is the upper-cased name, and the shape found has that id |
| Registry.FromStingCaseInsensitive | HxGLTF/Core/Accessor.cs:78 | a name and its upper-cased form find the same entry |
| Registry.FromStingId | HxGLTF/Core/Accessor.cs:44-78 | every shape is found under any spelling that upper-cases to its id |
| Registry.LongSFindsScalar | HxGLTF/Core/Accessor.cs:78 | "ſcalar" upper-cases to "SCALAR" and finds the scalar shape |
| LegacyTypes.ComponentTypes | HxGLTF/Accessor.cs:8-13 | six constants with codes 5120..5125; 8 bits up to 5121, 16 up to 5123, 32 above (5124 included, 5126 absent) |
| LegacyTypes.FromSting | HxGLTF/Accessor.cs:58-61 | a null name faults (no guard); otherwise found iff the upper-cased name is a key, and the entry's id is the upper-cased name |
| LegacyTypes.FromStingCounts | HxGLTF/Accessor.cs:27-60 | the counts found are 1, 2, 3, 4, 4, 9, 16 for SCALAR..MAT4, in any letter case |
| TrivialAccessor.ComponentTypeBitsAmount | TrivialHxGLTF/Accessor.cs:28-47 | positive iff the code is one of the six recognised codes; 8/16/32 for the pairs, -1 otherwise (5124 included) |
| TrivialAccessor.TypeComponentAmount | TrivialHxGLTF/Accessor.cs:49-75 | positive iff the name is exactly one of the seven upper-case names; the result is one of 0,1,2,3,4,9,16 |
| TrivialAccessor.BitsAgreeWithRegistry | TrivialHxGLTF/Accessor.cs:28-47 | agrees with the core registry's bits on every code, and gives -1 exactly where the registry has nothing |
| TrivialAccessor.CountsAgreeWithRegistry | TrivialHxGLTF/Accessor.cs:49-75 | gives each shape's component count for its upper-case id |
| TrivialAccessor.LowerCaseUnknown | TrivialHxGLTF/Accessor.cs:52-74 | "vec3" counts 0 here although the core lookup finds VEC3: the match is case-sensitive |
| MimeTypes.MimeType.PatternLength | HxGLTF/Core/Image.cs:8-9 | the declared length equals the length of the signature bytes: 8 for PNG, 3 for JPEG |
| MimeTypes.FromString | HxGLTF/Core/Image.cs:28-39 | null raises ArgumentNullException; succeeds iff the name is exactly "image/png" or "image/jpeg", else ArgumentException; the entry's id is the name |
| MimeTypes.FromStringId | HxGLTF/Core/Image.cs:11-36 | an entry is found under a name iff the name is its id |
| Colors.Pack | HxGLTF/Core/PrimitiveDataStructures/Color.cs:33-36 | the four lanes of the packed word read back the four bytes packed |
| Colors.LanesDetermine | HxGLTF/Core/PrimitiveDataStructures/Color.cs:11-29 | two words with the same four lanes are equal |
| Colors.WithR | HxGLTF/Core/PrimitiveDataStructures/Color.cs:12 | R becomes the value written, G, B and A are unchanged |
| Colors.WithG | HxGLTF/Core/PrimitiveDataStructures/Color.cs:18 | G becomes the value written, R, B and A are unchanged |
| Colors.WithB | HxGLTF/Core/PrimitiveDataStructures/Color.cs:24 | B becomes the value written, R, G and A are unchanged |
| Colors.WithA | HxGLTF/Core/PrimitiveDataStructures/Color.cs:30 | A becomes the value written, R, G and B are unchanged |
| Colors.RewriteLaneIsIdentity | HxGLTF/Core/PrimitiveDataStructures/Color.cs:11-30 | writing a lane's current value back leaves the word unchanged |
| Colors.ClampByte | HxGLTF/Core/PrimitiveDataStructures/Color.cs:42-45 | 0 at or below 0, 255 at or above 255, the value itself in between |
| Colors.Color.FromBytes | HxGLTF/Core/PrimitiveDataStructures/Color.cs:33-36 | the word packs the four bytes, alpha 255 by default |
| Colors.Color.FromInts3 | HxGLTF/Core/PrimitiveDataStructures/Color.cs:41-42 | the word packs the clamped channels with alpha 255 |
| Colors.Color.FromInts4 | HxGLTF/Core/PrimitiveDataStructures/Color.cs:44-45 | the word packs the four clamped channels |
| Colors.Color.White | HxGLTF/Core/PrimitiveDataStructures/Color.cs:47 | packs to 0xFFFFFFFF |
| Colors.Color.Black | HxGLTF/Core/PrimitiveDataStructures/Color.cs:48 | packs to 0xFF000000 |
| Colors.Color.SetR | HxGLTF/Core/PrimitiveDataStructures/Color.cs:12 | after the call R reads the value written and the other lanes read what they read before |
| Colors.Color.SetG | HxGLTF/Core/PrimitiveDataStructures/Color.cs:18 | after the call G reads the value written and the other lanes read what they read before |
| Colors.Color.SetB | HxGLTF/Core/PrimitiveDataStructures/Color.cs:24 | after the call B reads the value written and the other lanes read what they read before |
| Colors.Color.SetA | HxGLTF/Core/PrimitiveDataStructures/Color.cs:30 | after the call A reads the value written and the other lanes read what they read before |
| Text.ToUpper | HxGLTF/Core/Accessor.cs:78 | same length; a-z, dotless ı and long ſ become their ASCII capitals, every other character is kept |
| Text.ToUpperIdempotent | HxGLTF/Accessor.cs:60 | upper-casing twice is upper-casing once |
| Bytes.U16 | HxGLTF/Core/Accessor.cs:155 | the little-endian value of two bytes, below 2^16 |
| Bytes.U32 | HxGLTF/GLTFLoader.cs:68-80 | the little-endian value of four bytes, a `uint` |
| Bytes.SignedByte | HxGLTF/Core/Accessor.cs:141 | the two's complement value of one byte |
| Bytes.SignedShort | HxGLTF/Core/Accessor.cs:151 | the two's complement value of 16 bits |
| Bytes.SignedInt | HxGLTF/Core/Accessor.cs:258 | the unchecked int cast of a uint: the same value or that value minus 2^32, inside the int range |
| Bytes.U32RoundTrip | HxGLTF/GLTFLoader.cs:68-80 | reading back four little-endian encoded bytes gives the value encoded |
| AccessorReader.Grain | HxGLTF/Core/Accessor.cs:157-160 | the spacing of float32 values around an unsigned int: p >= 1 with u < 2^24 * p, and an even p with 2^23 * p <= u whenever p > 1 |
| AccessorReader.GrainPowerOfTwo | HxGLTF/Core/Accessor.cs:157-160 | the spacing is a power of two |
| AccessorReader.GrainUnique | HxGLTF/Core/Accessor.cs:157-160 | any power of two p with 2^23 * p <= u < 2^24 * p is the grain of u, so the spacing is determined by u |
| AccessorReader.Float32Of | HxGLTF/Core/Accessor.cs:157-160 | the `uint` to `float` conversion: exact below 2^24, otherwise a multiple of the grain within half a grain of the value |
| AccessorReader.Float32OfRounds | HxGLTF/Core/Accessor.cs:159 | 16777217 reads back as 16777216 and 16777219 as 16777220 (ties to even) |
| AccessorReader.ReadValue | HxGLTF/Core/Accessor.cs:137-166 | succeeds iff the component's bytes lie inside the buffer; a one-byte read fails with IndexOutOfRange, a wider one with ArgumentOutOfRange (the values read are stated by IntegerComponents, a uint rounded to float32) |
| AccessorReader.IntegerComponents | HxGLTF/Core/Accessor.cs:139-160 | a byte or ushort component is the little-endian value of its bytes, a uint one that value converted to float32, a signed one the unique value in its range with the same bytes |
| AccessorReader.FloatComponent | HxGLTF/Core/Accessor.cs:161-164 | a float component keeps its four bytes as a bit pattern |
| AccessorReader.Arith | HxGLTF/Core/Accessor.cs:198-202 | the offsets base + k * step, k < n |
| AccessorReader.Strided | HxGLTF/Core/Accessor.cs:185-189 | n * c offsets in element-then-component order |
| AccessorReader.StridedAt | HxGLTF/Core/Accessor.cs:189 | entry i*c+j of the visit order is base + i*stride + j*bpc |
| AccessorReader.TotalComponentCount | HxGLTF/Core/Accessor.cs:94 | the component total is zero iff Count is zero, at least Count when Count is positive, at most Count when it is negative |
| AccessorReader.ReadDataSpec | HxGLTF/Core/Accessor.cs:102-135 | a null accessor, view, buffer, component type or structure type raises ArgumentNullException; the `new float[TotalComponentCount]` then raises OverflowException for a negative Count and OutOfMemoryException above `Array.MaxLength` |
| AccessorReader.Offsets | HxGLTF/Core/Accessor.cs:171-210 | the visit order has exactly TotalComponentCount offsets |
| AccessorReader.ReadDataLength | HxGLTF/Core/Accessor.cs:94-110 | on success the output has NumberOfComponents * Count entries; when that many fit in an array, it succeeds exactly when every read is in range |
| AccessorReader.ReadDataInterleaved | HxGLTF/Core/Accessor.cs:176-194 | with a stride, entry i*c+j is the component at accessor offset + view offset + i*stride + j*bytesPerComponent |
| AccessorReader.ReadDataPacked | HxGLTF/Core/Accessor.cs:196-210 | with stride 0, entry k is the component at base + k*bytesPerComponent |
| AccessorReader.ReadDataNormalizedIsZero | HxGLTF/Core/Accessor.cs:190-223 | with Normalized set every entry is 0 |
| AccessorReader.StridedIsPacked | HxGLTF/Core/Accessor.cs:189-202 | the interleaved visit order with stride c*bpc is the packed visit order |
| AccessorReader.PackedMatchesInterleaved | HxGLTF/Core/Accessor.cs:176-211 | stride 0 and stride c*bpc decode to the same entries and fail on the same inputs |
| AccessorReader.ReadInterleaved | HxGLTF/Core/Accessor.cs:185-194 | the nested loops fill the array with the interleaved decoding, or report its first failure |
| AccessorReader.ReadPacked | HxGLTF/Core/Accessor.cs:198-210 | the byte-counter loop fills the array with the packed decoding, raising first when a start byte is past the end |
| AccessorReader.ReadDataInternal | HxGLTF/Core/Accessor.cs:168-212 | fills the array with ReadDataSpec's entries, or reports the fault ReadDataSpec reports |
| AccessorReader.ReadData | HxGLTF/Core/Accessor.cs:102-135 | returns a fresh array holding ReadDataSpec's entries, or its fault |
| AccessorReader.IndexAt | HxGLTF/Core/Accessor.cs:253-260 | succeeds iff the type is 5121, 5123 or 5125 and the bytes are in range; other types raise NotSupported; a uint index is cast unchecked to int |
| AccessorReader.ReadIndicesSpec | HxGLTF/Core/Accessor.cs:237-263 | null view or buffer raises ArgumentNullException; the `new int[Count]` raises OverflowException for a negative Count and OutOfMemoryException above `Array.MaxLength`; on success Count int-range entries |
| AccessorReader.ReadIndicesEmpty | HxGLTF/Core/Accessor.cs:249-251 | with Count 0 nothing is read, so any component type succeeds |
| AccessorReader.ReadIndicesUnsupported | HxGLTF/Core/Accessor.cs:249-259 | a signed or float component type with at least one index raises NotSupported, once the allocation of line 249 succeeds |
| AccessorReader.ReadIndicesAt | HxGLTF/Core/Accessor.cs:244-253 | index i is read at view offset + accessor offset + i * stride, the stride being the component size when the view has none |
| AccessorReader.ReadIndexLoop | HxGLTF/Core/Accessor.cs:251-261 | the loop fills the array with the index decoding, or reports its first failure |
| AccessorReader.ReadIndices | HxGLTF/Core/Accessor.cs:237-263 | returns a fresh array holding ReadIndicesSpec's entries, or its fault |
| AccessorReader.AccessorReaderContext.constructor | HxGLTF/Core/Accessor.cs:268 | the cache starts empty |
| AccessorReader.AccessorReaderContext.Read | HxGLTF/Core/Accessor.cs:271-286 | a cached accessor gets the very array stored, cache unchanged; a new one is decoded and, on success, added; a null key is refused |
| JsonTokens.Lookup | HxGLTF/GLTFLoader.cs:120 | a member is absent iff no property has the key, else it is the first property with that key |
| JsonTokens.LookupUnique | HxGLTF/GLTFLoader.cs:117 | in an object with distinct names, as `JObject.Parse` builds it, a key's first property is its only one, so the lookup finds the value the parser kept |
| JsonTokens.Get | HxGLTF/GLTFLoader.cs:158 | string indexing succeeds only on an object; an array raises ArgumentException, a value InvalidOperationException |
| JsonTokens.Members | HxGLTF/GLTFLoader.cs:393 | the properties of an object; on anything else every key access fails with the same fault |
| JsonTokens.Entries | HxGLTF/GLTFLoader.cs:177-180 | Count()/[i]: null raises; an array gives its items; a non-empty object refuses an int key; a value has no children |
| JsonTokens.Properties | HxGLTF/GLTFLoader.cs:447 | iterating as JProperty: an object's properties; a non-empty array fails the cast |
| JsonTokens.AsObject | HxGLTF/GLTFLoader.cs:366 | `(JObject)` succeeds iff the token is an object, else InvalidCast |
| JsonTokens.Int32 | HxGLTF/GLTFLoader.cs:185 | a value fits iff it is in the int range, else Overflow |
| JsonTokens.CastInt | HxGLTF/GLTFLoader.cs:233-234 | `(int)`: missing member raises ArgumentNull, an integer converts with range check, null or a container raises Argument |
| JsonTokens.CastIntOr | HxGLTF/GLTFLoader.cs:235 | `(int)(t ?? d)`: the fallback when absent, the cast otherwise |
| JsonTokens.CastNullableInt | HxGLTF/GLTFLoader.cs:275-276 | `(int?)`: absent or JSON null gives null; otherwise agrees with the int cast |
| JsonTokens.ValueInt | HxGLTF/GLTFLoader.cs:420 | `Value<int>()`: a `long` converts with range check (Overflow outside `int`); a BigInteger beyond `long`, null or a container raises InvalidCast |
| JsonTokens.CastString | HxGLTF/GLTFLoader.cs:167-169 | `(string?)`: absent or null gives null, a string gives itself, a container raises Argument |
| JsonTokens.CastStringOr | HxGLTF/GLTFLoader.cs:359-360 | `(string)(t ?? d)`: the fallback when absent, the cast otherwise |
| JsonTokens.CastBoolOr | HxGLTF/GLTFLoader.cs:361 | `(bool)(t ?? d)`: the fallback when absent, a boolean gives itself, a `long` is true iff non-zero, a BigInteger beyond `long` raises Overflow, null or a container raises Argument |
| JsonTokens.ToText | HxGLTF/GLTFLoader.cs:396 | `ToString()`: a string prints as itself, a container prints indented |
| JsonTokens.FloatItem | HxGLTF/GLTFLoader.cs:632 | one item read by `ReadAsDouble`: a number is kept; a null or empty-string item raises JsonSerializationException; a boolean or container item raises JsonReaderException |
| JsonTokens.ToFloats | HxGLTF/GLTFLoader.cs:632 | `ToObject<float[]>()`: null or "" gives null; on an array it succeeds iff every item is a number, giving those items; any other token raises JsonSerializationException |
| JsonTokens.FloatsFirstFault | HxGLTF/GLTFLoader.cs:632 | an array `ToObject<float[]>()` refuses raises the fault of its first item that is not a number |
| JsonTokens.FloatItemFaults | HxGLTF/GLTFLoader.cs:653 | `[true,1,1]` and `[1,[]]` raise JsonReaderException |
| JsonTokens.IntItem | HxGLTF/GLTFLoader.cs:714 | one item read by `ReadAsInt32`: an int-range integer is kept; a `long` beyond it raises JsonReaderException, a larger integer OverflowException; a null or empty-string item raises JsonSerializationException; a boolean or container item raises JsonReaderException |
| JsonTokens.ToInts | HxGLTF/GLTFLoader.cs:714 | `ToObject<int[]>()`: null or "" gives null; on an array it succeeds iff every item is an int-range integer, giving those integers; any other token raises JsonSerializationException |
| JsonTokens.IntsFirstFault | HxGLTF/GLTFLoader.cs:714 | an array `ToObject<int[]>()` refuses raises the fault of its first item that is not an int-range integer |
| JsonTokens.IntItemFaults | HxGLTF/GLTFLoader.cs:764 | `[3000000000]` and `[2,true]` raise JsonReaderException; `[null,true]` raises JsonSerializationException |
| Traverse.MapAll | HxGLTF/GLTFLoader.cs:177-205 | a stage loop: Ok iff every entry converts, with the converted entries in order; else the first failing entry's fault |
| Traverse.Fill | HxGLTF/GLTFLoader.cs:224-239 | the allocate-and-fill loop returns a fresh array equal to MapAll's result, or its fault |
| BufferStages.BufferSource | HxGLTF/GLTFLoader.cs:188-202 | an empty or absent uri takes the `array` argument; a `data:` uri the base64 after the first comma; any other uri the file |
| BufferStages.AfterFirstComma | HxGLTF/GLTFLoader.cs:218-222 | the suffix after the first comma, or the whole string when there is none |
| BufferStages.BufferEntry | HxGLTF/GLTFLoader.cs:180-203 | uri and byteLength as cast; byteLength is mandatory; a uri-less buffer holds the `array` argument |
| BufferStages.LoadBuffersSpec | HxGLTF/GLTFLoader.cs:175-206 | one buffer per entry |
| BufferStages.EmbeddedBuffersTakeArray | HxGLTF/GLTFLoader.cs:188-191 | every buffer whose uri is null or empty holds exactly the `array` argument |
| BufferStages.LoadBuffers | HxGLTF/GLTFLoader.cs:175-206 | the loop returns a fresh array equal to LoadBuffersSpec's result, or its fault |
| BufferStages.Pick | HxGLTF/GLTFLoader.cs:232 | an array index: the entry when in range, IndexOutOfRange otherwise |
| BufferStages.BufferViewEntry | HxGLTF/GLTFLoader.cs:229-236 | the view's buffer is one of the buffers; byteOffset, byteLength and buffer are mandatory; byteStride defaults to 0 |
| BufferStages.LoadBufferViewsSpec | HxGLTF/GLTFLoader.cs:224-239 | one view per entry |
| BufferStages.BufferViewsResolved | HxGLTF/GLTFLoader.cs:232-235 | every view points at one of the buffers, and a view without byteStride has stride 0 |
| BufferStages.BufferViewOffsetRequired | HxGLTF/GLTFLoader.cs:234 | a view without byteOffset makes the stage fail |
| BufferStages.LoadBufferViews | HxGLTF/GLTFLoader.cs:224-239 | the loop returns a fresh array equal to LoadBufferViewsSpec's result, or its fault |
| BufferStages.AccessorEntry | HxGLTF/GLTFLoader.cs:246-254 | the accessor's view is one of the views; byteOffset defaults to 0; component and structure types come from the registries; count, componentType and bufferView are mandatory |
| BufferStages.LoadAccessorsSpec | HxGLTF/GLTFLoader.cs:241-257 | one accessor per entry |
| BufferStages.AccessorsResolved | HxGLTF/GLTFLoader.cs:249-250 | every accessor points at one of the views, and one without byteOffset has offset 0 |
| BufferStages.LoadAccessors | HxGLTF/GLTFLoader.cs:241-257 | the loop returns a fresh array equal to LoadAccessorsSpec's result, or its fault |
| TextureStages.SamplerEntry | HxGLTF/GLTFLoader.cs:266-286 | an entry without values leaves the slot null; wrapS/wrapT default to 10497; the filters are nullable ints |
| TextureStages.LoadSamplersSpec | HxGLTF/GLTFLoader.cs:259-289 | an absent `samplers` member gives a null array; otherwise one slot per entry |
| TextureStages.SamplerSlots | HxGLTF/GLTFLoader.cs:268-274 | a slot is null iff its entry has no values, and a missing wrap mode is 10497 |
| TextureStages.LoadSamplers | HxGLTF/GLTFLoader.cs:259-289 | the loop returns null or a fresh array equal to LoadSamplersSpec's result, or its fault |
| TextureStages.ImageEntry | HxGLTF/GLTFLoader.cs:296-331 | with no uri, the image takes one of the views and a registered MIME type; with a uri it succeeds iff the file is found, else FileNotFound |
| TextureStages.LoadImagesSpec | HxGLTF/GLTFLoader.cs:291-334 | absent `images` raises; otherwise one image per entry |
| TextureStages.ImagesResolved | HxGLTF/GLTFLoader.cs:303-329 | every image either names a file that exists or refers to one of the views with a MIME type |
| TextureStages.LoadImages | HxGLTF/GLTFLoader.cs:291-334 | the loop returns a fresh array equal to LoadImagesSpec's result, or its fault |
| TextureStages.TextureEntry | HxGLTF/GLTFLoader.cs:341-346 | source is mandatory and designates one of the images; a sampler, when given, is one of the sampler slots |
| TextureStages.LoadTexturesSpec | HxGLTF/GLTFLoader.cs:336-349 | absent `textures` raises; otherwise one texture per entry |
| TextureStages.TexturesResolved | HxGLTF/GLTFLoader.cs:344-345 | every texture's source is one of the images and its sampler one of the samplers |
| TextureStages.LoadTextures | HxGLTF/GLTFLoader.cs:336-349 | the loop returns a fresh array equal to LoadTexturesSpec's result, or its fault |
| TextureStages.MaterialEntry | HxGLTF/GLTFLoader.cs:356-372 | name and alphaMode default to "", doubleSided to false; each field is the `(string)` or `(bool)` cast of its member, so a doubleSided integer beyond `long` raises; a non-object pbrMetallicRoughness raises |
| TextureStages.HugeDoubleSidedRaises | HxGLTF/GLTFLoader.cs:361 | `"doubleSided": 10000000000000000000` makes the material entry raise OverflowException |
| TextureStages.PbrShape | HxGLTF/GLTFLoader.cs:364-371 | the pbr block and its baseColorTexture must be objects when present, else InvalidCast |
| TextureStages.LoadMaterialsSpec | HxGLTF/GLTFLoader.cs:351-377 | absent `materials` raises; otherwise one material per entry |
| TextureStages.MaterialDefaults | HxGLTF/GLTFLoader.cs:359-361 | an entry without name, alphaMode and doubleSided gives ("", "", false) |
| TextureStages.LoadMaterials | HxGLTF/GLTFLoader.cs:351-377 | the loop returns a fresh array equal to LoadMaterialsSpec's result, or its fault |
| MeshStage.OptionalRef | HxGLTF/GLTFLoader.cs:417-430 | absent gives null; present succeeds iff it is an in-range index, giving that entry |
| MeshStage.AttributeRef | HxGLTF/GLTFLoader.cs:449-452 | an attribute succeeds iff its value is an in-range accessor index, giving that accessor |
| MeshStage.Attributes | HxGLTF/GLTFLoader.cs:446-454 | on success the dictionary's keys are exactly the attribute names |
| MeshStage.AttributesValues | HxGLTF/GLTFLoader.cs:447-453 | each name maps to `accessors[index]` of its own property |
| MeshStage.AttributesOk | HxGLTF/GLTFLoader.cs:446-453 | the dictionary builds iff every value is an in-range index and the names are distinct |
| MeshStage.ParsedAttributesOk | HxGLTF/GLTFLoader.cs:446-453 | on a parsed attributes object the dictionary builds iff every value is an in-range index; `Dictionary.Add` never meets a repeated name |
| MeshStage.ReadAttributes | HxGLTF/GLTFLoader.cs:446-454 | the foreach loop over the properties builds Attributes' dictionary or raises its fault |
| MeshStage.PrimitiveEntry | HxGLTF/GLTFLoader.cs:408-456 | attributes are mandatory; indices and material are set only when present and resolve to entries; mode is set only when present |
| MeshStage.LoadPrimitive | HxGLTF/GLTFLoader.cs:408-456 | the primitive loop body computes PrimitiveEntry |
| MeshStage.StringName | HxGLTF/GLTFLoader.cs:393-397 | a name is kept iff the member is a JSON string |
| MeshStage.MeshEntry | HxGLTF/GLTFLoader.cs:385-460 | a mesh without primitives raises; otherwise its primitives are the entries converted in order |
| MeshStage.LoadMesh | HxGLTF/GLTFLoader.cs:385-460 | the mesh loop body, with its inner primitive loop, computes MeshEntry |
| MeshStage.LoadMeshesSpec | HxGLTF/GLTFLoader.cs:379-463 | absent `meshes` raises; otherwise one mesh per entry |
| MeshStage.PrimitiveResolved | HxGLTF/GLTFLoader.cs:417-453 | a primitive refers only to the given accessors and materials |
| MeshStage.MeshesResolved | HxGLTF/GLTFLoader.cs:379-463 | every primitive of every mesh refers only to the given accessors and materials |
| MeshStage.LoadMeshes | HxGLTF/GLTFLoader.cs:379-463 | the loop returns a fresh array equal to LoadMeshesSpec's result, or its fault |
| NodeStage.Transform | HxGLTF/GLTFLoader.cs:629-699 | an absent transform stays null; a present one must deserialise to non-null floats of the exact size, else it raises |
| NodeStage.NodeEntry | HxGLTF/GLTFLoader.cs:609-700 | first pass: string name, mesh reference, and matrix/scale/rotation/translation of lengths 16/3/4/3 when present; no children yet |
| NodeStage.ChildrenEntry | HxGLTF/GLTFLoader.cs:705-732 | a `children` array succeeds iff every index is in [0, node count); anything else leaves children null |
| NodeStage.Linked | HxGLTF/GLTFLoader.cs:730 | node i after both passes is its first-pass node with the children found for it |
| NodeStage.LoadNodesSpec | HxGLTF/GLTFLoader.cs:603-736 | absent `nodes` raises; a failure in the first pass is the stage's failure; one node per entry |
| NodeStage.NodesLinked | HxGLTF/GLTFLoader.cs:703-733 | every child index designates one of the nodes, each node is its first-pass entry plus its children |
| NodeStage.ChildOutOfRangeFails | HxGLTF/GLTFLoader.cs:721-727 | a child index outside [0, nodes.Length) makes the stage fail |
| NodeStage.CheckIndices | HxGLTF/GLTFLoader.cs:718-729 | the index loop succeeds iff every index is in range, keeping them, else raises the given fault |
| NodeStage.ReadChildren | HxGLTF/GLTFLoader.cs:705-732 | the second-pass body computes ChildrenEntry |
| NodeStage.LinkChildren | HxGLTF/GLTFLoader.cs:703-733 | the second pass updates the node array in place to Linked(first pass, children), or raises the first fault |
| NodeStage.LoadNodes | HxGLTF/GLTFLoader.cs:603-736 | both passes return a fresh array equal to LoadNodesSpec's result, or its fault |
| AnimationStage.InterpolationOf | HxGLTF/GLTFLoader.cs:521-533 | "STEP" gives Step, "CUBICSPLINE" Cubicspline, anything else Linear |
| AnimationStage.RequiredRef | HxGLTF/GLTFLoader.cs:503-518 | a missing member raises its message; a present one succeeds iff an in-range index, giving that entry |
| AnimationStage.SamplerEntry | HxGLTF/GLTFLoader.cs:494-535 | input and output are mandatory accessor references; interpolation from the identifier |
| AnimationStage.TargetEntry | HxGLTF/GLTFLoader.cs:571-589 | node is mandatory and designates one of the nodes; path is mandatory and kept as its text |
| AnimationStage.ChannelEntry | HxGLTF/GLTFLoader.cs:548-591 | sampler is mandatory and is one of this animation's samplers; target is mandatory |
| AnimationStage.AnimationEntry | HxGLTF/GLTFLoader.cs:471-597 | string name; samplers mandatory and converted in order; channels mandatory, referring to those samplers |
| AnimationStage.LoadAnimation | HxGLTF/GLTFLoader.cs:471-597 | the loop body with its sampler and channel loops computes AnimationEntry |
| AnimationStage.LoadAnimationsSpec | HxGLTF/GLTFLoader.cs:465-601 | one animation per entry |
| AnimationStage.AnimationsResolved | HxGLTF/GLTFLoader.cs:509-580 | every channel's sampler is one of its animation's samplers and its node is in range; every sampler input and output is one of the accessors |
| AnimationStage.StoreAnimation | HxGLTF/GLTFLoader.cs:471-597 | computes AnimationEntry and, on success, stores it at its index, changing nothing else |
| AnimationStage.LoadAnimations | HxGLTF/GLTFLoader.cs:465-601 | the loop returns a fresh array equal to LoadAnimationsSpec's result, or its fault |
| SkinStage.NodeRef | HxGLTF/GLTFLoader.cs:783-787 | absent gives null; present succeeds iff an in-range node index |
| SkinStage.SkinEntry | HxGLTF/GLTFLoader.cs:744-791 | joints mandatory and non-null, every joint a node index; optional inverseBindMatrices and skeleton references |
| SkinStage.LoadSkin | HxGLTF/GLTFLoader.cs:744-791 | the loop body with its joint loop computes SkinEntry |
| SkinStage.LoadSkinsSpec | HxGLTF/GLTFLoader.cs:738-794 | absent `skins` raises; one skin per entry |
| SkinStage.SkinsResolved | HxGLTF/GLTFLoader.cs:771-787 | every joint and skeleton is a node index, every inverse-bind accessor one of the accessors |
| SkinStage.MissingJointsFails | HxGLTF/GLTFLoader.cs:758-762 | a skin without joints makes the stage fail |
| SkinStage.LoadSkins | HxGLTF/GLTFLoader.cs:738-794 | the loop returns a fresh array equal to LoadSkinsSpec's result, or its fault |
| Glb.ExtractJson | HxGLTF/GLTFLoader.cs:66-86 | under 20 bytes fails; on success the magic is 0x46546C67 and the JSON is bytes [20, 20+chunkLength0) |
| Glb.ExtractBinary | HxGLTF/GLTFLoader.cs:96-113 | succeeds iff length >= jsonLength+28 and the chunk fits; then the chunkLength1 bytes from 28+jsonLength |
| Glb.ExtractBinaryFromGlb | HxGLTF/GLTFLoader.cs:96-113 | the copy returns a fresh array equal to ExtractBinary's result, or BadFormat |
| Glb.Utf16Length | HxGLTF/GLTFLoader.cs:32 | the length in UTF-16 code units of the string the UTF-8 bytes decode to, each maximal ill-formed subpart counting as one replacement character; never more than the byte count |
| Glb.ReplacedSubparts | HxGLTF/GLTFLoader.cs:32 | a stray or invalid byte and a truncated character each count as one replacement character; a character above U+FFFF counts two |
| Glb.AsciiUtf16Length | HxGLTF/GLTFLoader.cs:32 | for ASCII bytes the decoded length is the byte length |
| Glb.DemuxAsWritten | HxGLTF/GLTFLoader.cs:28-33 | the JSON part is ExtractJson's result |
| Glb.Demux | HxGLTF/GLTFLoader.cs:28-33 | the binary chunk is located by the JSON chunk's byte length, and its length prefix is its size |
| Glb.EncodeLayout | HxGLTF/GLTFLoader.cs:68-110 | a GLB built from a JSON chunk and a BIN chunk has the magic, both lengths and both payloads where the extraction reads them |
| Glb.ExtractJsonOfEncode | HxGLTF/GLTFLoader.cs:66-86 | the JSON extraction of an encoded GLB gives the JSON chunk back |
| Glb.DemuxOfEncode | HxGLTF/GLTFLoader.cs:96-113 | splitting an encoded GLB gives both chunks back |
| Glb.DemuxAsciiAgrees | HxGLTF/GLTFLoader.cs:32 | for ASCII JSON the as-written split equals the corrected one |
| Glb.DemuxAsWrittenRejectsNonAscii | HxGLTF/GLTFLoader.cs:32 | a valid GLB whose JSON holds "é" is refused as written |
| Glb.NoBinChunkRefused | HxGLTF/GLTFLoader.cs:98-101 | a GLB without a BIN chunk is refused |
| Glb.LastDot | HxGLTF/GLTFLoader.cs:21 | the last '.' after the last directory separator |
| Glb.Extension | HxGLTF/GLTFLoader.cs:21 | `Path.GetExtension`: empty, or a '.'-led suffix of the path without separators or dots after the first |
| Glb.Classify | HxGLTF/GLTFLoader.cs:12-57 | null or empty path raises ArgumentNull; a missing file FileNotFound; GLB route iff the extension is exactly ".glb", glTF route iff exactly ".gltf" |
| Glb.UpperCaseExtensionRefused | HxGLTF/GLTFLoader.cs:51-57 | "m.GLB" is refused with FileLoadException |
| Glb.ReadSource | HxGLTF/GLTFLoader.cs:24-37 | a .gltf file is read whole with no binary; a .glb file yields its JSON chunk and a binary |
| Loader.AssetEntry | HxGLTF/GLTFLoader.cs:156-173 | version is mandatory ("Version field is missing."); copyright, generator and minVersion are nullable strings |
| Loader.AssetEntryCases | HxGLTF/GLTFLoader.cs:156-173 | on an object, the asset loads iff version is present and no optional member is an array or object; then version is the token's text, a string member is itself, and an absent or null member is null |
| Loader.MaterialStages | HxGLTF/GLTFLoader.cs:129-132 | samplers, images, textures, materials in order, each its stage's result; absent `images` fails |
| Loader.SceneStages | HxGLTF/GLTFLoader.cs:133-136 | meshes and nodes are their stages' results; animations and skins, when present, must load |
| Loader.ResolveAsWritten | HxGLTF/GLTFLoader.cs:115-154 | as written: missing members raise ArgumentException; the buffer stage runs without the binary chunk (line 126) |
| Loader.Resolve | HxGLTF/GLTFLoader.cs:115-154 | corrected: missing members raise ArgumentException; the buffer stage runs with the binary chunk as its array |
| Loader.ResolveWith | HxGLTF/GLTFLoader.cs:115-154 | missing asset/buffers/bufferViews/accessors raises ArgumentException; every field of the file is its stage's result over the earlier stages |
| Loader.AsWrittenDropsBinary | HxGLTF/GLTFLoader.cs:126 | as written, a uri-less buffer has no bytes |
| Loader.BufferTakesBinary | HxGLTF/GLTFLoader.cs:188-191 | with the binary passed on, a uri-less buffer holds the binary chunk |
| Loader.ResolvedClosed | HxGLTF/GLTFLoader.cs:125-136 | every reference of the loaded file points into its own arrays, and every child index is a node index |
| Loader.LoadMaterialStages | HxGLTF/GLTFLoader.cs:129-132 | the four stage methods compute MaterialStages |
| Loader.LoadSceneStages | HxGLTF/GLTFLoader.cs:133-136 | the four stage methods compute SceneStages |
| Loader.LoadFromJsonWithBinary | HxGLTF/GLTFLoader.cs:115-154 | the stage methods compute Resolve, the corrected program that passes the binary chunk to the buffer stage (line 126 does not) |
| Loader.LoadSpec | HxGLTF/GLTFLoader.cs:10-41 | a loaded file's path is the non-empty path of an existing file |
| Loader.EmbeddedBufferBytes | HxGLTF/GLTFLoader.cs:28-39 | a uri-less buffer of a .gltf file has no bytes; one of a .glb file holds the GLB's BIN chunk |
| Loader.Load | HxGLTF/GLTFLoader.cs:10-41 | the entry point computes LoadSpec |
| TrivialLoader.CheckPath | TrivialHxGLTF/GLTFLoader.cs:16-31 | a directory raises; a missing file raises FileNotFound; GLB iff ".glb", glTF iff ".gltf", else FileLoadException |
| TrivialLoader.CheckPathAgrees | TrivialHxGLTF/GLTFLoader.cs:16-31 | on a non-empty path the checks agree with the current loader's; on the empty path they raise different faults |
| TrivialLoader.ToUInt32 | TrivialHxGLTF/GLTFLoader.cs:80-94 | `BitConverter.ToUInt32`: the value when four bytes fit; ArgumentOutOfRange for a start outside the array, Argument when too few bytes remain |
| TrivialLoader.Wrap | TrivialHxGLTF/GLTFLoader.cs:93-101 | unchecked int arithmetic: the int-range value congruent modulo 2^32 |
| TrivialLoader.Zeros | TrivialHxGLTF/GLTFLoader.cs:97-102 | a new byte array is all zeros |
| TrivialLoader.ReadInto | TrivialHxGLTF/GLTFLoader.cs:96-103 | reading `count` bytes from `pos`: the stream's bytes where they exist, zeros beyond the end |
| TrivialLoader.MemoryStream.constructor | TrivialHxGLTF/GLTFLoader.cs:78 | a stream over the bytes, at position 0 |
| TrivialLoader.MemoryStream.Read | TrivialHxGLTF/GLTFLoader.cs:98-103 | copies min(count, remaining) bytes into the buffer at the offset, advances the position by as many, and changes no other buffer byte |
| TrivialLoader.GlbChunks | TrivialHxGLTF/GLTFLoader.cs:75-107 | succeeds iff the magic is right and the reads at the chunk lengths fit; a bad magic raises "file is damaged"; the JSON is [20, 20+len0), the binary is len1 bytes from 28+len0, zero-filled past the end; a chunk length of 2^31 or more raises OverflowException, one above `Array.MaxLength` OutOfMemoryException |
| TrivialLoader.ChunkLengthFaults | TrivialHxGLTF/GLTFLoader.cs:93-102 | a JSON length within 20 of 2^32 wraps the BIN header read into the file header and the allocation raises OverflowException; a BIN length of 2^31 or more raises OverflowException, one above `Array.MaxLength` OutOfMemoryException |
| TrivialLoader.LoadFromGlbFile | TrivialHxGLTF/GLTFLoader.cs:75-107 | the stream reads return fresh arrays equal to GlbChunks' result, or its fault |
| TrivialLoader.ReadChunk | TrivialHxGLTF/GLTFLoader.cs:96-103 | setting the stream position and reading `count` bytes into a fresh array yields the file bytes from that position, zero-filled past the end, and leaves the stream just past what was read |
| TrivialLoader.GlbChunksOfEncode | TrivialHxGLTF/GLTFLoader.cs:90-103 | on a well-formed GLB the older split gives both chunks back and agrees with the current loader |
| TrivialLoader.ChunksOfLayout | TrivialHxGLTF/GLTFLoader.cs:90-103 | a file whose header declares the JSON and BIN chunk lengths actually present, with both within the array limit, splits into exactly those two chunks |
| TrivialLoader.ChunksOfTruncated | TrivialHxGLTF/GLTFLoader.cs:101-103 | any GLB that ends right after the header of a non-empty BIN chunk is accepted with a zero-filled BIN chunk, where the current loader refuses it |
| TrivialLoader.FirstEntry | TrivialHxGLTF/GLTFLoader.cs:115-122 | the first buffer succeeds iff its uri is exactly "" (null fails too), and then takes the binary chunk |
| TrivialLoader.LaterEntry | TrivialHxGLTF/GLTFLoader.cs:123-149 | a later buffer with a null uri raises; otherwise it takes the file's bytes, or the file lookup's fault |
| TrivialLoader.AsWrittenOnlyEmbedded | TrivialHxGLTF/GLTFLoader.cs:112-152 | as written, loading succeeds iff there is a buffer and every buffer has uri "", and then every buffer holds the binary chunk |
| TrivialLoader.AttachAsWritten | TrivialHxGLTF/GLTFLoader.cs:109-154 | as written: null buffers raise; no buffers raise IndexOutOfRange; on success every buffer is kept and buffer 0 holds the binary |
| TrivialLoader.Attach | TrivialHxGLTF/GLTFLoader.cs:109-154 | null buffers raise; no buffers raise IndexOutOfRange; buffer 0 must have uri "" and takes the binary; every later buffer is read from its file |
| TrivialLoader.SecondBufferFile | TrivialHxGLTF/GLTFLoader.cs:112-128 | a file with an embedded buffer and a second file buffer is refused as written and loads when the counter advances |
| TrivialLoader.Present | TrivialHxGLTF/GLTFLoader.cs:113 | the buffers as the array holds them, none null |
| TrivialLoader.LoadFromJsonWithByteArray | TrivialHxGLTF/GLTFLoader.cs:109-154 | the loop updates the buffer array in place to Attach's result, or raises Attach's fault |

## Left out

- Float32 arithmetic. Float components are kept as their 32-bit
  patterns, and an unsigned int component as the integer value of the
  float32 it converts to; node matrices, vectors and quaternions are kept as the JSON
  number tokens they came from. The float constructor, `ToVector3` and
  `ToVector4` of `Color` are not modelled.
- JSON text parsing (`JObject.Parse`, `JsonConvert.DeserializeObject`) is a
  parameter. Conversions .NET performs from string or float tokens to
  numbers (parsing "3", rounding 2.5) are the fault `Unconverted` instead
  of a value, both for a single token (the casts and `Value<int>()`) and
  for a non-empty string or float item of `ToObject<float[]>()` or
  `ToObject<int[]>()`. A string that does not parse, or a float beyond
  `int`, therefore gives `Unconverted` where .NET raises
  JsonReaderException. Json.NET's metadata members (`$values`, `$ref`) in
  an object given to `ToObject` are not interpreted.
- A key repeated within one object of the JSON text: `JObject.Parse`
  keeps the last value. The model starts from parsed tokens, whose objects
  have distinct names (`JsonTokens.Parsed`); the merge itself is not
  modelled, and `MeshStage.Attributes` keeps the repeated-name branch of
  `Dictionary.Add` only as code that a parsed document never reaches.
- Colors.Color: the C# `Color` is a struct, so every assignment copies it
  and two variables never share one. The model's class is a reference
  type: two variables may alias one color, and a setter called through
  one is seen through the other.
- JsonTokens.ToFloats: a non-empty string or float item gives
  `Unconverted`, not the value or fault .NET's number parsing gives.
- JsonTokens.ToInts: a non-empty string or float item gives
  `Unconverted`, not the value or fault .NET's parsing and rounding give.
- UTF-8 decoding of the JSON chunk and base64 decoding of `data:` URIs are
  parameters. Only the UTF-16 length of the decoded JSON is computed, since
  the binary offset depends on it; it follows the decoder's replacement of
  each maximal ill-formed subpart by one U+FFFD.
- Memory: OutOfMemoryException is raised only for a length above
  `Array.MaxLength`. An allocation within that limit that the machine
  cannot satisfy is not modelled.
- File-system access is a parameter: existence checks, file reads, path
  combining, `Path.IsPathRooted` and the directory test. The older
  loader's `LoadFromGLTFFile` is nothing but file reading and is not
  modelled beyond the route `CheckPath` selects.
- Exception messages that embed an index ("Mesh at index 3 is null.") are
  one fixed fault per site. Only the fixed messages are kept as text.
- `AccessorReaderContext` uses a `ConcurrentDictionary`. Its thread safety
  is not modelled: the cache is a sequential map field.
- Object identity of nodes. Node children, skin joints, skeletons and
  channel targets are node indices rather than the node objects of the
  first pass. Other references are the referenced records as values, so
  the model does not capture aliasing between two references to the same
  entry.
- The data-only holder classes appear only as datatype shapes, with their
  field defaults where the loader relies on them.
- `LoadFromJsonWithBinary` builds animations and skins but does not store
  them in the result. The model checks that they load and then drops
  them, as the source does.
- The holder class `HxGLTF/GLTFFile.cs` has no `Path` or `Nodes` field,
  although the loader's object initializer sets both. The model follows
  the loader.
- TrivialLoader.LoadFromJsonWithByteArray: when a buffer raises part way
  through, the partial updates already made to earlier buffers are not
  described.
- TrivialLoader.MemoryStream.Read: the copy is written as one aggregate
  assignment rather than a byte loop.
- Glb.LastDot: treats both '/' and '\\' as directory separators, which is
  the separator set `Path.GetExtension` uses on Windows; on other platforms
  only '/' separates, so a '\\' there is part of the file name.
- BufferStages.BufferSource: `StartsWith("data:")` and the `IndexOf(",")`
  of `LoadBase64Buffer` are matched ordinally. .NET compares them under the
  current culture, which skips ignorable characters such as U+00AD.
- BufferStages.AfterFirstComma: the comma is found ordinally, with the
  same limit as BufferSource.
- Text.ToUpper: only letters whose upper case is ASCII are mapped; other
  letters (é, ß) and culture-specific mappings (Turkish i to İ) are left
  as they are. No registered id contains a non-ASCII letter or an I, so
  the lookups below find exactly what .NET finds.
- Registry.FromSting: upper-cases with Text.ToUpper, with the limit above.
- LegacyTypes.FromSting: upper-cases with Text.ToUpper, with the limit above.
- Int32 wrap-around in the accessor decoder. The decoder computes
  `NumberOfComponents * Count`, `compCount * bytesPerComp * Count`, the
  summed byte offsets, `elementOffset`, `byteIndex` and `off` in unchecked
  `int`. The model uses unbounded integers. It agrees with the program
  whenever these values lie in the int range, where, as in the program,
  a length above `Array.MaxLength` (0x7FFFFFC7) fails the allocation
  with OutOfMemoryException before any read. Beyond the int range, the
  program allocates a wrapped or negative length (OverflowException),
  loops to a wrapped bound and reads at wrapped offsets, and the model
  does not describe that. The members that carry this limit:
- AccessorReader.TotalComponentCount: the product does not wrap.
- AccessorReader.ReadDataSpec: its offsets and length do not wrap.
- AccessorReader.Offsets: totalOffset, elementOffset and the loop bound do not wrap.
- AccessorReader.ReadDataLength: the length and the in-range condition assume no wrap.
- AccessorReader.ReadDataInterleaved: the stated offset does not wrap.
- AccessorReader.ReadDataPacked: the stated offset and the loop bound do not wrap.
- AccessorReader.ReadInterleaved: the loop offsets and indices do not wrap.
- AccessorReader.ReadPacked: `totalBytesLoop` and `byteIndex` do not wrap.
- AccessorReader.ReadDataInternal: inherits the limit of ReadDataSpec.
- AccessorReader.ReadData: the allocation length is the unwrapped product.
- AccessorReader.ReadIndicesSpec: `baseOffset + i * stride` does not wrap.
- AccessorReader.ReadIndicesAt: the stated offset does not wrap.
- AccessorReader.ReadIndexLoop: the loop offsets do not wrap.
- AccessorReader.ReadIndices: inherits the limit of ReadIndicesSpec.
- MIME magic-byte matching: only the signature patterns are defined in
  the source, and no matcher uses them.

## Findings

The entry points `Loader.Load`, `Loader.LoadFromJsonWithBinary` and
`TrivialLoader.LoadFromJsonWithByteArray` use the corrected definitions. The as-written definitions are kept beside
them to exhibit each discrepancy.

| source | as written | input that shows it | evidently intended | confidence | as-written member | corrected member |
|---|---|---|---|---|---|---|
| HxGLTF/GLTFLoader.cs:32 | the BIN chunk is located with `json.Length`, the UTF-16 length of the decoded JSON | a GLB whose JSON chunk is the 4 bytes `"é"` (UTF-8 C3 A9), followed by a 4-byte BIN chunk: the decoded string has 3 code units, so the BIN header is read one byte early and the file is refused | locate the BIN chunk at 20 + chunkLength0 | not executed | Glb.DemuxAsWritten, Glb.DemuxAsWrittenRejectsNonAscii | Glb.Demux, Glb.DemuxOfEncode |
| HxGLTF/GLTFLoader.cs:126 | `LoadBuffers` is called without the binary chunk, so a buffer without a uri gets null bytes | any .glb whose first buffer has no uri (the GLB-stored buffer of the glTF 2.0 GLB format) | pass the binary chunk as `array` | not executed | Loader.ResolveAsWritten, Loader.AsWrittenDropsBinary | Loader.Resolve, Loader.BufferTakesBinary |
| TrivialHxGLTF/GLTFLoader.cs:112-128 | the counter `i` is never incremented, so every buffer is treated as the first | a file with buffers `{"uri": ""}` and `{"uri": "extra.bin"}`: the second raises "uri of first buffer must be undefined" | increment `i` per buffer so later buffers are read from their files | not executed | TrivialLoader.AttachAsWritten, TrivialLoader.SecondBufferFile | TrivialLoader.Attach, TrivialLoader.LoadFromJsonWithByteArray |
