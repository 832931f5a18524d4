/**
 * The skin stage of `GLTFLoader`: every skin lists the nodes that are its
 * joints, may name an accessor of inverse bind matrices and may name a
 * skeleton root node. Nodes are designated by their index in the node array.
 */
module SkinStage {
  import opened Common
  import opened JsonTokens
  import opened Traverse
  import opened BufferStages
  import opened MeshStage
  import opened NodeStage

  /** A skin: `joints` and `skeleton` are indices into the node array. */
  datatype Skin = Skin(name: Option<Text>, joints: seq<int>, inverseBindMatrices: Option<Accessor>, skeleton: Option<int>)

  /** An optional node reference `nodes[token.Value<int>()]`, kept as its index. */
  function NodeRef(token: Option<Json>, nodeCount: nat): (r: Result<Option<int>>)
    ensures token.None? ==> r == Ok(None)
    ensures token.Some? ==> (r.Ok? <==> ValueInt(token.value).Ok? && 0 <= ValueInt(token.value).value < nodeCount)
    ensures r.Ok? && token.Some? ==> r.value == Some(ValueInt(token.value).value)
    ensures r.Err? && token.Some? && ValueInt(token.value).Ok? ==> r.error == IndexOutOfRange
  {
    if token.None? then Ok(None)
    else
      var index :- ValueInt(token.value);
      if 0 <= index < nodeCount then Ok(Some(index)) else Err(IndexOutOfRange)
  }

  /**
   * One skin: the text of `name` if present; the mandatory `joints`, read as
   * `int[]`, every one of which must designate a node; then the optional
   * `inverseBindMatrices` accessor and the optional `skeleton` node.
   */
  function SkinEntry(accessors: seq<Accessor>, nodeCount: nat, t: Json): (r: Result<Skin>)
    ensures !t.JObj? ==> r.Err?
    ensures t.JObj? && Lookup(t.props, "joints").None? ==> r == Err(Unexplained)
    ensures t.JObj? && Lookup(t.props, "joints").Some? && Lookup(t.props, "joints").value.JNull? ==> r == Err(Unexplained)
    ensures r.Ok? ==> t.JObj? && Lookup(t.props, "joints").Some?
                      && ToInts(Lookup(t.props, "joints").value) == Ok(Some(r.value.joints))
                      && AllBelow(r.value.joints, nodeCount)
    ensures r.Ok? ==> (r.value.name.Some? <==> Lookup(t.props, "name").Some?)
    ensures r.Ok? && r.value.name.Some? ==> r.value.name.value == ToText(Lookup(t.props, "name").value)
    ensures r.Ok? ==> OptionalRef(Lookup(t.props, "inverseBindMatrices"), accessors) == Ok(r.value.inverseBindMatrices)
    ensures r.Ok? ==> NodeRef(Lookup(t.props, "skeleton"), nodeCount) == Ok(r.value.skeleton)
    ensures t.JObj? && Lookup(t.props, "joints").Some? && ToInts(Lookup(t.props, "joints").value).Ok?
            && ToInts(Lookup(t.props, "joints").value).value.Some?
            && !AllBelow(ToInts(Lookup(t.props, "joints").value).value.value, nodeCount) ==>
      r == Err(IndexOutOfRange)
  {
    var props :- Members(t);
    var jName := Lookup(props, "name");
    var name := if jName.Some? then Some(ToText(jName.value)) else None;
    var jJoints := Lookup(props, "joints");
    if jJoints.None? then Err(Unexplained)
    else
      var indices :- ToInts(jJoints.value);
      if indices.None? then Err(Unexplained)
      else if !AllBelow(indices.value, nodeCount) then Err(IndexOutOfRange)
      else
        var inverseBindMatrices :- OptionalRef(Lookup(props, "inverseBindMatrices"), accessors);
        var skeleton :- NodeRef(Lookup(props, "skeleton"), nodeCount);
        Ok(Skin(name, indices.value, inverseBindMatrices, skeleton))
  }

  function SkinReader(accessors: seq<Accessor>, nodeCount: nat): Json -> Result<Skin> {
    t => SkinEntry(accessors, nodeCount, t)
  }

  /** The body of the skin loop, with the inner loop over the joint indices. */
  method LoadSkin(accessors: seq<Accessor>, nodeCount: nat, t: Json) returns (r: Result<Skin>)
    ensures r == SkinEntry(accessors, nodeCount, t)
  {
    var props :- Members(t);
    var jName := Lookup(props, "name");
    var name := if jName.Some? then Some(ToText(jName.value)) else None;
    var jJoints := Lookup(props, "joints");
    if jJoints.None? {
      return Err(Unexplained);
    }
    var indices :- ToInts(jJoints.value);
    if indices.None? {
      return Err(Unexplained);
    }
    var joints :- CheckIndices(indices.value, nodeCount, IndexOutOfRange);
    var inverseBindMatrices :- OptionalRef(Lookup(props, "inverseBindMatrices"), accessors);
    var skeleton :- NodeRef(Lookup(props, "skeleton"), nodeCount);
    return Ok(Skin(name, joints, inverseBindMatrices, skeleton));
  }

  /** `LoadSkins`: one skin per entry. */
  function LoadSkinsSpec(jSkins: Option<Json>, accessors: seq<Accessor>, nodeCount: nat): (r: Result<seq<Skin>>)
    ensures jSkins.None? ==> r == Err(ArgumentNull)
    ensures r.Ok? ==> Entries(jSkins).Ok? && |r.value| == |Entries(jSkins).value|
  {
    var items :- Entries(jSkins);
    MapAll(items, SkinReader(accessors, nodeCount))
  }

  /**
   * After the stage every joint and every skeleton designates one of the
   * nodes, and every inverse-bind-matrices accessor is one of the accessors.
   */
  lemma SkinsResolved(jSkins: Option<Json>, accessors: seq<Accessor>, nodeCount: nat)
    requires LoadSkinsSpec(jSkins, accessors, nodeCount).Ok?
    ensures var skins := LoadSkinsSpec(jSkins, accessors, nodeCount).value;
      forall i :: 0 <= i < |skins| ==>
        && AllBelow(skins[i].joints, nodeCount)
        && (skins[i].skeleton.Some? ==> 0 <= skins[i].skeleton.value < nodeCount)
        && (skins[i].inverseBindMatrices.Some? ==> skins[i].inverseBindMatrices.value in accessors)
  {
    var items := Entries(jSkins).value;
    var skins := LoadSkinsSpec(jSkins, accessors, nodeCount).value;
    forall i | 0 <= i < |skins|
      ensures AllBelow(skins[i].joints, nodeCount)
      ensures skins[i].skeleton.Some? ==> 0 <= skins[i].skeleton.value < nodeCount
      ensures skins[i].inverseBindMatrices.Some? ==> skins[i].inverseBindMatrices.value in accessors
    {
      assert SkinReader(accessors, nodeCount)(items[i]) == Ok(skins[i]);
      var t := items[i];
      var ibm := Lookup(t.props, "inverseBindMatrices");
      if ibm.Some? && skins[i].inverseBindMatrices.Some? {
        var k := ValueInt(ibm.value).value;
        assert skins[i].inverseBindMatrices.value == accessors[k];
      }
    }
  }

  /** A skin entry without `joints` makes the whole stage fail. */
  lemma MissingJointsFails(jSkins: Option<Json>, accessors: seq<Accessor>, nodeCount: nat, a: nat)
    requires Entries(jSkins).Ok? && a < |Entries(jSkins).value|
    requires Entries(jSkins).value[a].JObj? && Lookup(Entries(jSkins).value[a].props, "joints").None?
    ensures LoadSkinsSpec(jSkins, accessors, nodeCount).Err?
  {
    var items := Entries(jSkins).value;
    assert SkinReader(accessors, nodeCount)(items[a]).Err?;
  }

  /** `LoadSkins`: the loop that fills `new Skin[jSkins.Count()]`. */
  method LoadSkins(jSkins: Option<Json>, accessors: seq<Accessor>, nodeCount: nat) returns (r: Result<array<Skin>>)
    ensures r.Ok? <==> LoadSkinsSpec(jSkins, accessors, nodeCount).Ok?
    ensures r.Err? ==> r.error == LoadSkinsSpec(jSkins, accessors, nodeCount).error
    ensures r.Ok? ==> fresh(r.value) && r.value[..] == LoadSkinsSpec(jSkins, accessors, nodeCount).value
  {
    var items :- Entries(jSkins);
    ghost var rd := SkinReader(accessors, nodeCount);
    var skins := new Skin[|items|];
    var a := 0;
    while a < |items|
      invariant 0 <= a <= |items|
      invariant forall q :: 0 <= q < a ==> rd(items[q]) == Ok(skins[q])
    {
      var skin := LoadSkin(accessors, nodeCount, items[a]);
      assert rd(items[a]) == skin;
      if skin.Err? {
        MapAllFirstErr(items, a, rd);
        return Err(skin.error);
      }
      skins[a] := skin.value;
      a := a + 1;
    }
    MapAllAllOk(items, rd, skins[..]);
    return Ok(skins);
  }
}
