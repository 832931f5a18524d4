/**
 * The mesh stage of `GLTFLoader`: every mesh holds its primitives, and every
 * primitive maps attribute names to accessors and may name an index
 * accessor, a material and a drawing mode.
 */
module MeshStage {
  import opened Common
  import opened JsonTokens
  import opened Traverse
  import opened BufferStages
  import opened TextureStages

  /** The drawing mode a primitive has when it names none (TRIANGLES). */
  const Triangles := 4

  const NoPrimitives := Raised("No primitives found for mesh.")
  const NoAttributes := Raised("Attributes not found for mesh primitive.")

  datatype Primitive = Primitive(
    attributes: map<string, Accessor>,
    indices: Option<Accessor>,
    material: Option<Material>,
    mode: int)

  datatype Mesh = Mesh(name: Option<string>, primitives: seq<Primitive>)

  /**
   * An optional reference `xs[token.Value<int>()]`: nothing when the member
   * is absent, otherwise the element it designates.
   */
  function OptionalRef<T>(token: Option<Json>, xs: seq<T>): (r: Result<Option<T>>)
    ensures token.None? ==> r == Ok(None)
    ensures token.Some? ==> (r.Ok? <==> ValueInt(token.value).Ok? && 0 <= ValueInt(token.value).value < |xs|)
    ensures r.Ok? && token.Some? ==> r.value == Some(xs[ValueInt(token.value).value])
  {
    if token.None? then Ok(None)
    else
      var index :- ValueInt(token.value);
      var x :- Pick(xs, index);
      Ok(Some(x))
  }

  /** The accessor one attribute property designates. */
  function AttributeRef(p: Prop, accessors: seq<Accessor>): (r: Result<Accessor>)
    ensures r.Ok? <==> ValueInt(p.value).Ok? && 0 <= ValueInt(p.value).value < |accessors|
    ensures r.Ok? ==> r.value == accessors[ValueInt(p.value).value]
  {
    var index :- ValueInt(p.value);
    Pick(accessors, index)
  }

  /** The names of `props`, collected in the order the loop adds them. */
  function NamesOf(props: seq<Prop>): (names: set<string>)
    ensures forall i :: 0 <= i < |props| ==> props[i].name in names
    decreases |props|
  {
    if props == [] then {}
    else
      var init := props[..|props| - 1];
      assert forall i :: 0 <= i < |init| ==> init[i] == props[i];
      NamesOf(init) + {props[|props| - 1].name}
  }

  /** A collected name comes from some property, found at index `k`. */
  lemma {:induction false} NameIndex(props: seq<Prop>, name: string) returns (k: nat)
    requires name in NamesOf(props)
    ensures k < |props| && props[k].name == name
    decreases |props|
  {
    var init := props[..|props| - 1];
    if name == props[|props| - 1].name {
      k := |props| - 1;
    } else {
      k := NameIndex(init, name);
      assert init[k] == props[k];
    }
  }

  /** A name no property carries is not collected. */
  lemma {:induction false} NameAbsent(props: seq<Prop>, name: string)
    requires forall k :: 0 <= k < |props| ==> props[k].name != name
    ensures name !in NamesOf(props)
    decreases |props|
  {
    if props != [] {
      var init := props[..|props| - 1];
      assert forall k :: 0 <= k < |init| ==> init[k] == props[k];
      NameAbsent(init, name);
    }
  }

  /**
   * The attribute dictionary, built by `Dictionary.Add` in property order:
   * a property whose value is not an accessor index raises, and so does a
   * name met a second time, which a parsed object never holds.
   */
  function Attributes(props: seq<Prop>, accessors: seq<Accessor>): (r: Result<map<string, Accessor>>)
    ensures r.Ok? ==> r.value.Keys == NamesOf(props)
    decreases |props|
  {
    if props == [] then Ok(map[])
    else
      var init := props[..|props| - 1];
      var last := props[|props| - 1];
      var m :- Attributes(init, accessors);
      var accessor :- AttributeRef(last, accessors);
      if last.name in m then Err(Argument)
      else
        Ok(m[last.name := accessor])
  }

  /** Each attribute name maps to the accessor its own property designates. */
  lemma {:induction false} AttributesValues(props: seq<Prop>, accessors: seq<Accessor>)
    requires Attributes(props, accessors).Ok?
    ensures forall i :: 0 <= i < |props| ==>
      AttributeRef(props[i], accessors) == Ok(Attributes(props, accessors).value[props[i].name])
    decreases |props|
  {
    if props != [] {
      var init := props[..|props| - 1];
      var last := props[|props| - 1];
      AttributesValues(init, accessors);
      var m := Attributes(init, accessors).value;
      var m' := Attributes(props, accessors).value;
      assert m' == m[last.name := AttributeRef(last, accessors).value];
      forall i | 0 <= i < |props|
        ensures AttributeRef(props[i], accessors) == Ok(m'[props[i].name])
      {
        if i < |init| {
          assert init[i] == props[i];
          assert init[i].name in NamesOf(init);
        }
      }
    }
  }

  /**
   * The dictionary is built exactly when every value designates an accessor
   * and no name repeats.
   */
  lemma AttributesOk(props: seq<Prop>, accessors: seq<Accessor>)
    ensures Attributes(props, accessors).Ok? <==>
      (forall i :: 0 <= i < |props| ==> AttributeRef(props[i], accessors).Ok?) && DistinctNames(props)
  {
    if Attributes(props, accessors).Ok? {
      AttributesBuiltSound(props, accessors);
    }
    if (forall i :: 0 <= i < |props| ==> AttributeRef(props[i], accessors).Ok?) && DistinctNames(props) {
      AttributesBuiltComplete(props, accessors);
    }
  }

  /** A built dictionary had an accessor for every value and no repeated name. */
  lemma {:induction false} AttributesBuiltSound(props: seq<Prop>, accessors: seq<Accessor>)
    requires Attributes(props, accessors).Ok?
    ensures forall i :: 0 <= i < |props| ==> AttributeRef(props[i], accessors).Ok?
    ensures DistinctNames(props)
    decreases |props|
  {
    if props != [] {
      var init := props[..|props| - 1];
      var last := props[|props| - 1];
      assert forall i :: 0 <= i < |init| ==> init[i] == props[i];
      AttributesBuiltSound(init, accessors);
      assert last.name !in NamesOf(init);
      forall i, j | 0 <= i < j < |props|
        ensures props[i].name != props[j].name
      {
        if j == |props| - 1 {
          assert init[i].name in NamesOf(init);
        } else {
          assert init[i] == props[i] && init[j] == props[j];
        }
      }
    }
  }

  /** Accessors for every value and distinct names build the dictionary. */
  lemma {:induction false} AttributesBuiltComplete(props: seq<Prop>, accessors: seq<Accessor>)
    requires forall i :: 0 <= i < |props| ==> AttributeRef(props[i], accessors).Ok?
    requires DistinctNames(props)
    ensures Attributes(props, accessors).Ok?
    decreases |props|
  {
    if props != [] {
      var init := props[..|props| - 1];
      var last := props[|props| - 1];
      assert forall i :: 0 <= i < |init| ==> init[i] == props[i];
      assert DistinctNames(init);
      AttributesBuiltComplete(init, accessors);
      assert AttributeRef(last, accessors).Ok?;
      assert forall k :: 0 <= k < |init| ==> init[k].name != last.name;
      NameAbsent(init, last.name);
    }
  }

  /**
   * On an attributes object as `JObject.Parse` produces it, whose names are
   * distinct, the dictionary builds exactly when every value designates an
   * accessor: the repeated-name branch of `Dictionary.Add` is never taken.
   */
  lemma ParsedAttributesOk(jAttributes: Json, accessors: seq<Accessor>)
    requires jAttributes.JObj? && Parsed(jAttributes)
    ensures Attributes(jAttributes.props, accessors).Ok? <==>
      forall i :: 0 <= i < |jAttributes.props| ==> AttributeRef(jAttributes.props[i], accessors).Ok?
  {
    AttributesOk(jAttributes.props, accessors);
  }

  /** A failure on a prefix of the properties is the failure of the whole dictionary. */
  lemma {:induction false} AttributesPrefixErr(props: seq<Prop>, k: nat, accessors: seq<Accessor>)
    requires k <= |props| && Attributes(props[..k], accessors).Err?
    ensures Attributes(props, accessors) == Attributes(props[..k], accessors)
    decreases |props|
  {
    if k == |props| {
      assert props[..k] == props;
    } else {
      var init := props[..|props| - 1];
      assert init[..k] == props[..k];
      AttributesPrefixErr(init, k, accessors);
    }
  }

  /** The `foreach (JProperty jAttribute in jAttributes)` loop filling the dictionary. */
  method ReadAttributes(props: seq<Prop>, accessors: seq<Accessor>) returns (r: Result<map<string, Accessor>>)
    ensures r == Attributes(props, accessors)
  {
    var attributes: map<string, Accessor> := map[];
    var i := 0;
    while i < |props|
      invariant 0 <= i <= |props|
      invariant Attributes(props[..i], accessors) == Ok(attributes)
    {
      assert props[..i + 1][..i] == props[..i];
      assert props[..i + 1][i] == props[i];
      var index := ValueInt(props[i].value);
      if index.Err? {
        AttributesPrefixErr(props, i + 1, accessors);
        return Err(index.error);
      }
      if !(0 <= index.value < |accessors|) {
        AttributesPrefixErr(props, i + 1, accessors);
        return Err(IndexOutOfRange);
      }
      if props[i].name in attributes {
        AttributesPrefixErr(props, i + 1, accessors);
        return Err(Argument);
      }
      attributes := attributes[props[i].name := accessors[index.value]];
      i := i + 1;
    }
    assert props[..i] == props;
    return Ok(attributes);
  }

  /**
   * One primitive: `indices`, `material` and `mode` are set only when
   * present (the mode otherwise stays TRIANGLES); `attributes` is mandatory.
   */
  function PrimitiveEntry(accessors: seq<Accessor>, materials: seq<Material>, t: Json): (r: Result<Primitive>)
    ensures !t.JObj? ==> r.Err?
    ensures t.JObj? && Lookup(t.props, "attributes").None? ==> r.Err?
    ensures r.Ok? ==> t.JObj? && Lookup(t.props, "attributes").Some?
    ensures r.Ok? ==> OptionalRef(Lookup(t.props, "indices"), accessors) == Ok(r.value.indices)
                      && OptionalRef(Lookup(t.props, "material"), materials) == Ok(r.value.material)
    ensures r.Ok? && Lookup(t.props, "mode").None? ==> r.value.mode == Triangles
    ensures r.Ok? && Lookup(t.props, "mode").Some? ==> ValueInt(Lookup(t.props, "mode").value) == Ok(r.value.mode)
    ensures r.Ok? ==> Properties(Lookup(t.props, "attributes").value).Ok?
                      && Attributes(Properties(Lookup(t.props, "attributes").value).value, accessors) == Ok(r.value.attributes)
  {
    var props :- Members(t);
    var indices :- OptionalRef(Lookup(props, "indices"), accessors);
    var material :- OptionalRef(Lookup(props, "material"), materials);
    var mode :- if Lookup(props, "mode").None? then Ok(Triangles) else ValueInt(Lookup(props, "mode").value);
    var jAttributes := Lookup(props, "attributes");
    if jAttributes.None? then Err(NoAttributes)
    else
      var attributeProps :- Properties(jAttributes.value);
      var attributes :- Attributes(attributeProps, accessors);
      Ok(Primitive(attributes, indices, material, mode))
  }

  /** The body of the primitive loop, with the attribute loop inside it. */
  method LoadPrimitive(accessors: seq<Accessor>, materials: seq<Material>, t: Json) returns (r: Result<Primitive>)
    ensures r == PrimitiveEntry(accessors, materials, t)
  {
    var props :- Members(t);
    var indices :- OptionalRef(Lookup(props, "indices"), accessors);
    var material :- OptionalRef(Lookup(props, "material"), materials);
    var mode := Triangles;
    if Lookup(props, "mode").Some? {
      mode :- ValueInt(Lookup(props, "mode").value);
    }
    var jAttributes := Lookup(props, "attributes");
    if jAttributes.None? {
      return Err(NoAttributes);
    }
    var attributeProps :- Properties(jAttributes.value);
    var attributes :- ReadAttributes(attributeProps, accessors);
    return Ok(Primitive(attributes, indices, material, mode));
  }

  function PrimitiveReader(accessors: seq<Accessor>, materials: seq<Material>): Json -> Result<Primitive> {
    t => PrimitiveEntry(accessors, materials, t)
  }

  /** A `name` member as meshes, nodes and animations keep it: only a JSON string is taken. */
  function StringName(token: Option<Json>): (name: Option<string>)
    ensures name.Some? <==> token.Some? && token.value.JStr?
    ensures name.Some? ==> ToText(token.value) == Plain(name.value)
  {
    if token.Some? && token.value.JStr? then Some(token.value.s) else None
  }

  /** One mesh: a string `name` if any, and the mandatory `primitives`. */
  function MeshEntry(accessors: seq<Accessor>, materials: seq<Material>, t: Json): (r: Result<Mesh>)
    ensures !t.JObj? ==> r.Err?
    ensures t.JObj? && Lookup(t.props, "primitives").None? ==> r == Err(NoPrimitives)
    ensures r.Ok? ==> t.JObj? && r.value.name == StringName(Lookup(t.props, "name"))
    ensures r.Ok? ==> Lookup(t.props, "primitives").Some? && Entries(Lookup(t.props, "primitives")).Ok?
                      && MapAll(Entries(Lookup(t.props, "primitives")).value, PrimitiveReader(accessors, materials))
                         == Ok(r.value.primitives)
  {
    var props :- Members(t);
    var jPrimitives := Lookup(props, "primitives");
    if jPrimitives.None? then Err(NoPrimitives)
    else
      var items :- Entries(jPrimitives);
      var primitives :- MapAll(items, PrimitiveReader(accessors, materials));
      Ok(Mesh(StringName(Lookup(props, "name")), primitives))
  }

  /** The body of the mesh loop: the primitive loop. */
  method LoadMesh(accessors: seq<Accessor>, materials: seq<Material>, t: Json) returns (r: Result<Mesh>)
    ensures r == MeshEntry(accessors, materials, t)
  {
    var props :- Members(t);
    var jPrimitives := Lookup(props, "primitives");
    if jPrimitives.None? {
      return Err(NoPrimitives);
    }
    var items :- Entries(jPrimitives);
    ghost var rd := PrimitiveReader(accessors, materials);
    var primitives := new Primitive[|items|];
    var b := 0;
    while b < |items|
      invariant 0 <= b <= |items|
      invariant forall q :: 0 <= q < b ==> rd(items[q]) == Ok(primitives[q])
    {
      var p := LoadPrimitive(accessors, materials, items[b]);
      assert rd(items[b]) == p;
      if p.Err? {
        MapAllFirstErr(items, b, rd);
        return Err(p.error);
      }
      primitives[b] := p.value;
      b := b + 1;
    }
    MapAllAllOk(items, rd, primitives[..]);
    assert MapAll(items, rd) == Ok(primitives[..]);
    return Ok(Mesh(StringName(Lookup(props, "name")), primitives[..]));
  }

  function MeshReader(accessors: seq<Accessor>, materials: seq<Material>): Json -> Result<Mesh> {
    t => MeshEntry(accessors, materials, t)
  }

  /** `LoadMeshes`: one mesh per entry. */
  function LoadMeshesSpec(jMeshes: Option<Json>, accessors: seq<Accessor>, materials: seq<Material>): (r: Result<seq<Mesh>>)
    ensures jMeshes.None? ==> r == Err(ArgumentNull)
    ensures r.Ok? ==> Entries(jMeshes).Ok? && |r.value| == |Entries(jMeshes).value|
  {
    var items :- Entries(jMeshes);
    MapAll(items, MeshReader(accessors, materials))
  }

  /** Every reference a built primitive holds is one of those it was given. */
  predicate ResolvedIn(p: Primitive, accessors: seq<Accessor>, materials: seq<Material>) {
    && (forall name :: name in p.attributes ==> p.attributes[name] in accessors)
    && (p.indices.Some? ==> p.indices.value in accessors)
    && (p.material.Some? ==> p.material.value in materials)
  }

  /** A primitive built from an entry refers only to the accessors and materials given. */
  lemma PrimitiveResolved(accessors: seq<Accessor>, materials: seq<Material>, t: Json)
    requires PrimitiveEntry(accessors, materials, t).Ok?
    ensures ResolvedIn(PrimitiveEntry(accessors, materials, t).value, accessors, materials)
  {
    var p := PrimitiveEntry(accessors, materials, t).value;
    var attributeProps := Properties(Lookup(t.props, "attributes").value).value;
    AttributesValues(attributeProps, accessors);
    forall name | name in p.attributes
      ensures p.attributes[name] in accessors
    {
      var j := NameIndex(attributeProps, name);
      assert AttributeRef(attributeProps[j], accessors) == Ok(p.attributes[name]);
    }
  }

  /**
   * After the stage every attribute, index accessor and material of every
   * primitive is one of those the stage was given.
   */
  lemma MeshesResolved(jMeshes: Option<Json>, accessors: seq<Accessor>, materials: seq<Material>)
    requires LoadMeshesSpec(jMeshes, accessors, materials).Ok?
    ensures var meshes := LoadMeshesSpec(jMeshes, accessors, materials).value;
      forall i, k :: 0 <= i < |meshes| && 0 <= k < |meshes[i].primitives| ==>
        ResolvedIn(meshes[i].primitives[k], accessors, materials)
  {
    var items := Entries(jMeshes).value;
    var meshes := LoadMeshesSpec(jMeshes, accessors, materials).value;
    forall i, k | 0 <= i < |meshes| && 0 <= k < |meshes[i].primitives|
      ensures ResolvedIn(meshes[i].primitives[k], accessors, materials)
    {
      assert MeshReader(accessors, materials)(items[i]) == Ok(meshes[i]);
      var primitiveItems := Entries(Lookup(items[i].props, "primitives")).value;
      assert PrimitiveReader(accessors, materials)(primitiveItems[k]) == Ok(meshes[i].primitives[k]);
      PrimitiveResolved(accessors, materials, primitiveItems[k]);
    }
  }

  /** `LoadMeshes`: the loop that fills `new Mesh[jMeshes.Count()]`. */
  method LoadMeshes(jMeshes: Option<Json>, accessors: seq<Accessor>, materials: seq<Material>) returns (r: Result<array<Mesh>>)
    ensures r.Ok? <==> LoadMeshesSpec(jMeshes, accessors, materials).Ok?
    ensures r.Err? ==> r.error == LoadMeshesSpec(jMeshes, accessors, materials).error
    ensures r.Ok? ==> fresh(r.value) && r.value[..] == LoadMeshesSpec(jMeshes, accessors, materials).value
  {
    var items :- Entries(jMeshes);
    ghost var rd := MeshReader(accessors, materials);
    var meshes := new Mesh[|items|];
    ghost var done: seq<Mesh> := [];
    var a := 0;
    while a < |items|
      invariant 0 <= a <= |items| && |done| == a
      invariant forall q :: 0 <= q < a ==> rd(items[q]) == Ok(done[q])
      invariant meshes[..a] == done
    {
      var m := LoadMesh(accessors, materials, items[a]);
      assert rd(items[a]) == m;
      if m.Err? {
        MapAllFirstErr(items, a, rd);
        return Err(m.error);
      }
      meshes[a] := m.value;
      done := done + [m.value];
      a := a + 1;
    }
    assert meshes[..] == done;
    MapAllAllOk(items, rd, done);
    return Ok(meshes);
  }
}
