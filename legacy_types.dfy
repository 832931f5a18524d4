/**
 * The earlier registry file of the non-core namespace: component-type
 * constants without a lookup, and a `Type` table with a case-insensitive
 * lookup that has no null guard.
 */
module LegacyTypes {
  import opened Common
  import opened Text

  /** A component-type constant: glTF code and width in bits. */
  datatype ComponentType = ComponentType(id: int, bits: nat)

  /** The six static `ComponentType` instances, 5120 through 5125. */
  function ComponentTypes(): (ts: seq<ComponentType>)
    ensures |ts| == 6
    ensures forall i :: 0 <= i < 6 ==> ts[i].id == 5120 + i
    ensures forall t :: t in ts ==> t.bits == (if t.id <= 5121 then 8 else if t.id <= 5123 then 16 else 32)
  {
    [ComponentType(5120, 8), ComponentType(5121, 8), ComponentType(5122, 16),
     ComponentType(5123, 16), ComponentType(5124, 32), ComponentType(5125, 32)]
  }

  /** A structure type: its id and its component count (named `Bits` in the source). */
  datatype Type = Type(id: string, bits: nat)

  /** The `_types` dictionary, keyed by id. */
  function Table(): map<string, Type> {
    map["SCALAR" := Type("SCALAR", 1), "VEC2" := Type("VEC2", 2), "VEC3" := Type("VEC3", 3),
        "VEC4" := Type("VEC4", 4), "MAT2" := Type("MAT2", 4), "MAT3" := Type("MAT3", 9),
        "MAT4" := Type("MAT4", 16)]
  }

  /**
   * `Type.FromSting`: upper-cases its argument (a null argument faults) and
   * looks the result up; `null` for an unknown name.
   */
  function FromSting(name: Option<string>): (r: Result<Option<Type>>)
    ensures name.None? <==> r.Err?
    ensures r.Err? ==> r.error == NullReference
    ensures r.Ok? ==> (r.value.Some? <==> ToUpper(name.value) in Table())
    ensures r.Ok? && r.value.Some? ==> r.value.value.id == ToUpper(name.value)
  {
    if name.None? then Err(NullReference)
    else
      var key := ToUpper(name.value);
      if key in Table() then Ok(Some(Table()[key])) else Ok(None)
  }

  /** The counts are 1, 2, 3, 4, 4, 9, 16, whatever the letter case of the name. */
  lemma FromStingCounts(name: string)
    ensures var u := ToUpper(name);
            FromSting(Some(name)).Ok? && FromSting(Some(name)).value.Some? ==>
              FromSting(Some(name)).value.value.bits ==
                (if u == "SCALAR" then 1 else if u == "VEC2" then 2 else if u == "VEC3" then 3
                 else if u == "VEC4" || u == "MAT2" then 4 else if u == "MAT3" then 9 else 16)
  {
  }
}
