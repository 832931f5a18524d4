/**
 * The closed component-type and structure-type registries of the accessor
 * decoder: each "smart enum" with its static instances and lookup dictionary
 * becomes a datatype with one constructor per instance.
 */
module Registry {
  import opened Common
  import opened Text

  /** The six component data types, by glTF code. */
  datatype ComponentDataType =
    | SignedByte      // 5120
    | UnsignedByte    // 5121
    | SignedShort     // 5122
    | UnsignedShort   // 5123
    | UnsignedInt     // 5125
    | Float           // 5126
  {
    function Id(): int {
      match this
      case SignedByte => 5120
      case UnsignedByte => 5121
      case SignedShort => 5122
      case UnsignedShort => 5123
      case UnsignedInt => 5125
      case Float => 5126
    }

    function Bits(): nat {
      match this
      case SignedByte => 8
      case UnsignedByte => 8
      case SignedShort => 16
      case UnsignedShort => 16
      case UnsignedInt => 32
      case Float => 32
    }

    /** `BytesPerComponent`: `Bits / 8`. */
    function Bytes(): (n: nat)
      ensures n == Bits() / 8 && 1 <= n <= 4
    {
      Bits() / 8
    }
  }

  /** `ComponentDataType.FromInt`: dictionary lookup, `null` for an unknown code. */
  function FromInt(code: int): (r: Option<ComponentDataType>)
    ensures r.Some? <==> code in {5120, 5121, 5122, 5123, 5125, 5126}
    ensures r.Some? ==> r.value.Id() == code
  {
    if code == 5120 then Some(SignedByte)
    else if code == 5121 then Some(UnsignedByte)
    else if code == 5122 then Some(SignedShort)
    else if code == 5123 then Some(UnsignedShort)
    else if code == 5125 then Some(UnsignedInt)
    else if code == 5126 then Some(Float)
    else None
  }

  /** Every registered instance is found again under its own id. */
  lemma FromIntId(t: ComponentDataType)
    ensures FromInt(t.Id()) == Some(t)
  {
    match t
    case SignedByte =>
    case UnsignedByte =>
    case SignedShort =>
    case UnsignedShort =>
    case UnsignedInt =>
    case Float =>
  }

  /** The seven element shapes and their component counts. */
  datatype StructureType = Scalar | Vec2 | Vec3 | Vec4 | Mat2 | Mat3 | Mat4
  {
    function Id(): string {
      match this
      case Scalar => "SCALAR"
      case Vec2 => "VEC2"
      case Vec3 => "VEC3"
      case Vec4 => "VEC4"
      case Mat2 => "MAT2"
      case Mat3 => "MAT3"
      case Mat4 => "MAT4"
    }

    function NumberOfComponents(): nat {
      match this
      case Scalar => 1
      case Vec2 => 2
      case Vec3 => 3
      case Vec4 => 4
      case Mat2 => 4
      case Mat3 => 9
      case Mat4 => 16
    }
  }

  /** Dictionary lookup by upper-case id. */
  function StructureById(id: string): (r: Option<StructureType>)
    ensures r.Some? ==> r.value.Id() == id
    ensures r.None? ==> forall t: StructureType :: t.Id() != id
  {
    if id == "SCALAR" then Some(Scalar)
    else if id == "VEC2" then Some(Vec2)
    else if id == "VEC3" then Some(Vec3)
    else if id == "VEC4" then Some(Vec4)
    else if id == "MAT2" then Some(Mat2)
    else if id == "MAT3" then Some(Mat3)
    else if id == "MAT4" then Some(Mat4)
    else None
  }

  /**
   * `StructureType.FromSting`: `null` for a null name, otherwise the entry
   * whose id is the upper-cased name, or `null` when there is none.
   */
  function FromSting(name: Option<string>): (r: Option<StructureType>)
    ensures name.None? ==> r.None?
    ensures name.Some? ==> (r.Some? <==> exists t: StructureType :: t.Id() == ToUpper(name.value))
    ensures r.Some? ==> r.value.Id() == ToUpper(name.value)
  {
    if name.None? then None else StructureById(ToUpper(name.value))
  }

  /** The lookup ignores letter case: a name and its upper-cased form find the same entry. */
  lemma FromStingCaseInsensitive(name: string)
    ensures FromSting(Some(name)) == FromSting(Some(ToUpper(name)))
  {
    ToUpperIdempotent(name);
  }

  /** Upper-casing maps the long `ſ` to `S`, so "ſcalar" names the scalar shape. */
  lemma LongSFindsScalar()
    ensures FromSting(Some("\U{017F}calar")) == Some(Scalar)
  {
    assert ToUpper("\U{017F}calar") == "SCALAR";
  }

  /** Every registered shape is found under its id, in any letter case. */
  lemma FromStingId(t: StructureType, spelled: string)
    requires ToUpper(spelled) == t.Id()
    ensures FromSting(Some(spelled)) == Some(t)
  {
    match t
    case Scalar =>
    case Vec2 =>
    case Vec3 =>
    case Vec4 =>
    case Mat2 =>
    case Mat3 =>
    case Mat4 =>
  }
}
