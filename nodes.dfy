/**
 * The node stage of `GLTFLoader`, in two passes: the first builds every
 * node from its own entry, the second links children once every node
 * exists. A child is held as its index in the node array, so the child a
 * node lists is the very node stored at that index.
 */
module NodeStage {
  import opened Common
  import opened JsonTokens
  import opened Traverse
  import opened MeshStage

  /** The messages the node stage raises on a bad transform or child list. */
  const ScaleNull := Raised("Scale values for node are null.")
  const ScaleLength := Raised("Scale values for node have invalid length.")
  const RotationNull := Raised("Rotation values for node are null.")
  const RotationLength := Raised("Rotation values for node have invalid length.")
  const TranslationNull := Raised("Translation values for node are null.")
  const TranslationLength := Raised("Translation values for node have invalid length.")
  const BadChild := Raised("Invalid child index for node.")

  /**
   * A node. The transform members hold the numbers of the entry (kept as
   * tokens); `None` stands for the class default (identity matrix and
   * rotation, unit scale, zero translation). `children` are node indices;
   * `None` is a null child array.
   */
  datatype Node = Node(
    name: Option<string>,
    mesh: Option<Mesh>,
    matrix: Option<seq<Json>>,
    scale: Option<seq<Json>>,
    rotation: Option<seq<Json>>,
    translation: Option<seq<Json>>,
    children: Option<seq<int>>)

  /**
   * An optional transform member: `ToObject<float[]>()`, then a null
   * result and a length other than `size` each raise.
   */
  function Transform(token: Option<Json>, size: nat, nullFault: Fault, lengthFault: Fault): (r: Result<Option<seq<Json>>>)
    ensures token.None? ==> r == Ok(None)
    ensures token.Some? && r.Ok? ==> r.value.Some? && |r.value.value| == size && ToFloats(token.value) == Ok(r.value)
    ensures token.Some? && ToFloats(token.value).Ok? ==>
      r == (if ToFloats(token.value).value.None? then Err(nullFault)
            else if |ToFloats(token.value).value.value| != size then Err(lengthFault)
            else Ok(ToFloats(token.value).value))
  {
    if token.None? then Ok(None)
    else
      var values :- ToFloats(token.value);
      if values.None? then Err(nullFault)
      else if |values.value| != size then Err(lengthFault)
      else Ok(values)
  }

  /** First pass, one entry: name, mesh and the four transforms; no children yet. */
  function NodeEntry(meshes: seq<Mesh>, t: Json): (r: Result<Node>)
    ensures !t.JObj? ==> r.Err?
    ensures r.Ok? ==> t.JObj? && r.value.children.None?
    ensures r.Ok? ==> r.value.name == StringName(Lookup(t.props, "name"))
    ensures r.Ok? ==> OptionalRef(Lookup(t.props, "mesh"), meshes) == Ok(r.value.mesh)
    ensures r.Ok? ==> (r.value.matrix.None? <==> Lookup(t.props, "matrix").None?)
                      && (r.value.matrix.Some? ==> |r.value.matrix.value| == 16)
    ensures r.Ok? ==> (r.value.scale.None? <==> Lookup(t.props, "scale").None?)
                      && (r.value.scale.Some? ==> |r.value.scale.value| == 3)
    ensures r.Ok? ==> (r.value.rotation.None? <==> Lookup(t.props, "rotation").None?)
                      && (r.value.rotation.Some? ==> |r.value.rotation.value| == 4)
    ensures r.Ok? ==> (r.value.translation.None? <==> Lookup(t.props, "translation").None?)
                      && (r.value.translation.Some? ==> |r.value.translation.value| == 3)
  {
    var props :- Members(t);
    var mesh :- OptionalRef(Lookup(props, "mesh"), meshes);
    var matrix :- Transform(Lookup(props, "matrix"), 16, Unexplained, Unexplained);
    var scale :- Transform(Lookup(props, "scale"), 3, ScaleNull, ScaleLength);
    var rotation :- Transform(Lookup(props, "rotation"), 4, RotationNull, RotationLength);
    var translation :- Transform(Lookup(props, "translation"), 3, TranslationNull, TranslationLength);
    Ok(Node(StringName(Lookup(props, "name")), mesh, matrix, scale, rotation, translation, None))
  }

  function NodeReader(meshes: seq<Mesh>): Json -> Result<Node> {
    t => NodeEntry(meshes, t)
  }

  /** Every index lies in `[0, count)`. */
  predicate AllBelow(indices: seq<int>, count: nat) {
    forall i :: 0 <= i < |indices| ==> 0 <= indices[i] < count
  }

  /**
   * Second pass, one entry: a `children` member that is a JSON array is read
   * as `int[]` and every index must designate one of the `count` nodes; any
   * other `children` member, or none, leaves the child array null.
   */
  function ChildrenEntry(count: nat, t: Json): (r: Result<Option<seq<int>>>)
    ensures !t.JObj? ==> r.Err?
    ensures t.JObj? && (Lookup(t.props, "children").None? || !Lookup(t.props, "children").value.JArr?) ==> r == Ok(None)
    ensures r.Ok? && r.value.Some? ==> AllBelow(r.value.value, count)
    ensures r.Ok? && r.value.Some? ==> ToInts(Lookup(t.props, "children").value) == Ok(r.value)
    ensures t.JObj? && Lookup(t.props, "children").Some? && ToInts(Lookup(t.props, "children").value).Ok?
            && ToInts(Lookup(t.props, "children").value).value.Some? ==>
      (r.Ok? <==> AllBelow(ToInts(Lookup(t.props, "children").value).value.value, count))
    ensures r.Err? && t.JObj? && ToInts(Lookup(t.props, "children").value).Ok? ==> r.error == BadChild
  {
    var props :- Members(t);
    var jChildren := Lookup(props, "children");
    if jChildren.None? || !jChildren.value.JArr? then Ok(None)
    else
      var indices :- ToInts(jChildren.value);
      if indices.None? then Ok(None)
      else if AllBelow(indices.value, count) then Ok(indices)
      else Err(BadChild)
  }

  function ChildrenReader(count: nat): Json -> Result<Option<seq<int>>> {
    t => ChildrenEntry(count, t)
  }

  /** Node `i` after both passes: its first-pass node with the children the second pass found. */
  function Linked(first: seq<Node>, children: seq<Option<seq<int>>>): (nodes: seq<Node>)
    requires |children| == |first|
    ensures |nodes| == |first|
    ensures forall i :: 0 <= i < |first| ==> nodes[i] == first[i].(children := children[i])
  {
    seq(|first|, i requires 0 <= i < |first| => first[i].(children := children[i]))
  }

  /**
   * `LoadNodes`: the first pass over every entry, then the second; an error
   * in the first pass is raised before the second pass starts.
   */
  function LoadNodesSpec(jNodes: Option<Json>, meshes: seq<Mesh>): (r: Result<seq<Node>>)
    ensures jNodes.None? ==> r == Err(ArgumentNull)
    ensures r.Ok? ==> Entries(jNodes).Ok? && |r.value| == |Entries(jNodes).value|
    ensures Entries(jNodes).Ok? && MapAll(Entries(jNodes).value, NodeReader(meshes)).Err? ==>
      r == Err(MapAll(Entries(jNodes).value, NodeReader(meshes)).error)
  {
    var items :- Entries(jNodes);
    var first :- MapAll(items, NodeReader(meshes));
    var children :- MapAll(items, ChildrenReader(|items|));
    Ok(Linked(first, children))
  }

  /**
   * After both passes every child index designates a node of the result,
   * and each node is the one its own entry describes, with its children.
   */
  lemma NodesLinked(jNodes: Option<Json>, meshes: seq<Mesh>)
    requires LoadNodesSpec(jNodes, meshes).Ok?
    ensures var nodes := LoadNodesSpec(jNodes, meshes).value;
      var items := Entries(jNodes).value;
      forall i :: 0 <= i < |nodes| ==>
        && (nodes[i].children.Some? ==> AllBelow(nodes[i].children.value, |nodes|))
        && NodeEntry(meshes, items[i]) == Ok(nodes[i].(children := None))
        && ChildrenEntry(|nodes|, items[i]) == Ok(nodes[i].children)
  {
    var items := Entries(jNodes).value;
    var first := MapAll(items, NodeReader(meshes)).value;
    var children := MapAll(items, ChildrenReader(|items|)).value;
    var nodes := LoadNodesSpec(jNodes, meshes).value;
    forall i | 0 <= i < |nodes|
      ensures nodes[i].children.Some? ==> AllBelow(nodes[i].children.value, |nodes|)
      ensures NodeEntry(meshes, items[i]) == Ok(nodes[i].(children := None))
      ensures ChildrenEntry(|nodes|, items[i]) == Ok(nodes[i].children)
    {
      assert NodeReader(meshes)(items[i]) == Ok(first[i]);
      assert ChildrenReader(|items|)(items[i]) == Ok(children[i]);
    }
  }

  /**
   * A child index outside the node array makes the whole stage fail once the
   * first pass has succeeded.
   */
  lemma ChildOutOfRangeFails(jNodes: Option<Json>, meshes: seq<Mesh>, a: nat, k: nat)
    requires Entries(jNodes).Ok? && MapAll(Entries(jNodes).value, NodeReader(meshes)).Ok?
    requires a < |Entries(jNodes).value|
    requires var t := Entries(jNodes).value[a];
      t.JObj? && Lookup(t.props, "children").Some? && ToInts(Lookup(t.props, "children").value).Ok?
      && ToInts(Lookup(t.props, "children").value).value.Some?
      && k < |ToInts(Lookup(t.props, "children").value).value.value|
      && !(0 <= ToInts(Lookup(t.props, "children").value).value.value[k] < |Entries(jNodes).value|)
    ensures LoadNodesSpec(jNodes, meshes).Err?
  {
    var items := Entries(jNodes).value;
    assert ChildrenReader(|items|)(items[a]).Err?;
  }

  /**
   * The loop that looks every index up in an array of `count` elements;
   * the first index outside it raises `fault`.
   */
  method CheckIndices(indices: seq<int>, count: nat, fault: Fault) returns (r: Result<seq<int>>)
    ensures r.Ok? <==> AllBelow(indices, count)
    ensures r.Ok? ==> r.value == indices
    ensures r.Err? ==> r.error == fault
  {
    var i := 0;
    while i < |indices|
      invariant 0 <= i <= |indices|
      invariant AllBelow(indices[..i], count)
    {
      if !(0 <= indices[i] < count) {
        return Err(fault);
      }
      i := i + 1;
    }
    assert indices[..i] == indices;
    return Ok(indices);
  }

  /** The body of the second pass for one entry. */
  method ReadChildren(count: nat, t: Json) returns (r: Result<Option<seq<int>>>)
    ensures r == ChildrenEntry(count, t)
  {
    var props :- Members(t);
    var jChildren := Lookup(props, "children");
    if jChildren.None? || !jChildren.value.JArr? {
      return Ok(None);
    }
    var indices :- ToInts(jChildren.value);
    if indices.None? {
      return Ok(None);
    }
    var checked :- CheckIndices(indices.value, count, BadChild);
    return Ok(Some(checked));
  }

  /**
   * The second pass of `LoadNodes`: sets `nodes[a].Children` in place for
   * every entry with a child array, stopping at the first bad entry.
   */
  method LinkChildren(nodes: array<Node>, items: seq<Json>) returns (r: Result<()>)
    requires nodes.Length == |items|
    requires forall q :: 0 <= q < nodes.Length ==> nodes[q].children.None?
    modifies nodes
    ensures r.Ok? <==> MapAll(items, ChildrenReader(|items|)).Ok?
    ensures r.Err? ==> r.error == MapAll(items, ChildrenReader(|items|)).error
    ensures r.Ok? ==> nodes[..] == Linked(old(nodes[..]), MapAll(items, ChildrenReader(|items|)).value)
  {
    ghost var first := nodes[..];
    ghost var rd := ChildrenReader(|items|);
    ghost var found: seq<Option<seq<int>>> := [];
    var a := 0;
    while a < nodes.Length
      invariant 0 <= a <= nodes.Length && |found| == a
      invariant forall q :: 0 <= q < a ==> rd(items[q]) == Ok(found[q])
      invariant forall q :: 0 <= q < a ==> nodes[q] == first[q].(children := found[q])
      invariant forall q :: a <= q < nodes.Length ==> nodes[q] == first[q]
      invariant forall q :: 0 <= q < |first| ==> first[q].children.None?
    {
      var children := ReadChildren(nodes.Length, items[a]);
      assert rd(items[a]) == children;
      if children.Err? {
        MapAllFirstErr(items, a, rd);
        return Err(children.error);
      }
      assert nodes[a] == first[a] && first[a].children.None?;
      if children.value.Some? {
        nodes[a] := nodes[a].(children := children.value);
      }
      ghost var more := found + [children.value];
      forall q | 0 <= q <= a
        ensures rd(items[q]) == Ok(more[q]) && nodes[q] == first[q].(children := more[q])
      {
        if q < a {
          assert more[q] == found[q];
        }
      }
      found := more;
      a := a + 1;
    }
    MapAllAllOk(items, rd, found);
    ghost var linked := Linked(first, found);
    assert forall q :: 0 <= q < nodes.Length ==> nodes[q] == linked[q];
    return Ok(());
  }

  /** `LoadNodes`: the first pass fills the node array, the second links the children. */
  method LoadNodes(jNodes: Option<Json>, meshes: seq<Mesh>) returns (r: Result<array<Node>>)
    ensures r.Ok? <==> LoadNodesSpec(jNodes, meshes).Ok?
    ensures r.Err? ==> r.error == LoadNodesSpec(jNodes, meshes).error
    ensures r.Ok? ==> fresh(r.value) && r.value[..] == LoadNodesSpec(jNodes, meshes).value
  {
    var items :- Entries(jNodes);
    var nodes :- Fill(items, NodeReader(meshes));
    assert forall q :: 0 <= q < nodes.Length ==> NodeReader(meshes)(items[q]) == Ok(nodes[q]);
    var linked := LinkChildren(nodes, items);
    if linked.Err? {
      return Err(linked.error);
    }
    return Ok(nodes);
  }
}
