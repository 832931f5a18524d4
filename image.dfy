/** The closed MIME-type registry for images embedded through a buffer view. */
module MimeTypes {
  import opened Common
  import opened Bytes

  /** The two registered image formats. */
  datatype MimeType = Png | Jpeg
  {
    function Id(): string {
      match this
      case Png => "image/png"
      case Jpeg => "image/jpeg"
    }

    /** The signature bytes the format starts with. */
    function PatternBytes(): seq<byte> {
      match this
      case Png => [0x89, 0x50, 0x4E, 0x47, 0x0D, 0x0A, 0x1A, 0x0A]
      case Jpeg => [0xFF, 0xD8, 0xFF]
    }

    /** The declared signature length, which is the length of the signature. */
    function PatternLength(): (n: nat)
      ensures n == |PatternBytes()|
      ensures n == (if this == Png then 8 else 3)
    {
      match this
      case Png => 8
      case Jpeg => 3
    }
  }

  /**
   * `MiMeType.FromString`: a null name raises ArgumentNullException; a name
   * that is exactly a registered id gives that entry; any other name raises
   * ArgumentException.
   */
  function FromString(name: Option<string>): (r: Result<MimeType>)
    ensures name.None? ==> r == Err(ArgumentNull)
    ensures name.Some? ==> (r.Ok? <==> name.value == "image/png" || name.value == "image/jpeg")
    ensures name.Some? && r.Err? ==> r.error == Argument
    ensures r.Ok? ==> r.value.Id() == name.value
  {
    if name.None? then Err(ArgumentNull)
    else if name.value == "image/png" then Ok(Png)
    else if name.value == "image/jpeg" then Ok(Jpeg)
    else Err(Argument)
  }

  /** Every entry is found again under its id, and only under that exact spelling. */
  lemma FromStringId(m: MimeType, name: string)
    ensures FromString(Some(name)) == Ok(m) <==> name == m.Id()
  {
    match m
    case Png =>
    case Jpeg =>
  }
}
