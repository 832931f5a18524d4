/**
 * The accessor extension methods of the first loader: two switch statements
 * from a code or a name to a size.
 */
module TrivialAccessor {
  import opened Common
  import Registry

  /** `ComponentTypeBitsAmount`: bits per component, or -1 for an unknown code. */
  function ComponentTypeBitsAmount(code: int): (bits: int)
    ensures bits > 0 <==> code in {5120, 5121, 5122, 5123, 5125, 5126}
    ensures bits == -1 || bits == 8 || bits == 16 || bits == 32
    ensures code in {5120, 5121} ==> bits == 8
    ensures code in {5122, 5123} ==> bits == 16
    ensures code in {5125, 5126} ==> bits == 32
  {
    if code == 5120 || code == 5121 then 8
    else if code == 5122 || code == 5123 then 16
    else if code == 5125 || code == 5126 then 32
    else -1
  }

  /**
   * `TypeComponentAmount`: components per element, or 0 for an unknown or
   * null name. The switch compares names exactly, so case matters.
   */
  function TypeComponentAmount(name: Option<string>): (n: int)
    ensures n > 0 <==> name.Some? && name.value in {"SCALAR", "VEC2", "VEC3", "VEC4", "MAT2", "MAT3", "MAT4"}
    ensures n == 0 || n == 1 || n == 2 || n == 3 || n == 4 || n == 9 || n == 16
  {
    if name.None? then 0
    else match name.value
      case "SCALAR" => 1
      case "VEC2" => 2
      case "VEC3" => 3
      case "VEC4" => 4
      case "MAT2" => 4
      case "MAT3" => 9
      case "MAT4" => 16
      case _ => 0
  }

  /** The bit table agrees with the core registry on every code, and gives -1 where that one gives null. */
  lemma BitsAgreeWithRegistry(code: int)
    ensures Registry.FromInt(code).Some? ==> ComponentTypeBitsAmount(code) == Registry.FromInt(code).value.Bits()
    ensures Registry.FromInt(code).None? ==> ComponentTypeBitsAmount(code) == -1
  {
  }

  /**
   * The count table agrees with the core registry on the upper-case ids; on
   * any other spelling it gives 0 where the core lookup still succeeds.
   */
  lemma CountsAgreeWithRegistry(t: Registry.StructureType)
    ensures TypeComponentAmount(Some(t.Id())) == t.NumberOfComponents() as int
  {
    match t
    case Scalar =>
    case Vec2 =>
    case Vec3 =>
    case Vec4 =>
    case Mat2 =>
    case Mat3 =>
    case Mat4 =>
  }

  /** Matching is case-sensitive: a lower-case name is unknown here, though the core lookup accepts it. */
  lemma LowerCaseUnknown()
    ensures TypeComponentAmount(Some("vec3")) == 0
    ensures Registry.FromSting(Some("vec3")) == Some(Registry.Vec3)
  {
    Registry.FromStingId(Registry.Vec3, "vec3");
  }
}
