/** Shared result and failure types for the loader model. */
module Common {

  /** A nullable value: `None` stands for the C# `null`. */
  datatype Option<+T> = None | Some(value: T)

  /**
   * The exception a C# operation raises. Each constructor names the .NET
   * exception class; `Raised` is a plain `throw new Exception(...)`, tagged
   * with a short reason.
   */
  datatype Fault =
    | ArgumentNull          // ArgumentNullException
    | Argument              // ArgumentException (bad value, duplicate dictionary key)
    | ArgumentOutOfRange    // ArgumentOutOfRangeException (span slice, negative count)
    | IndexOutOfRange       // IndexOutOfRangeException (array or span index)
    | InvalidCast           // InvalidCastException (a JSON token of the wrong kind)
    | NullReference         // member access on a null reference
    | Overflow              // OverflowException (negative array size, unchecked cast)
    | NotSupported          // NotSupportedException
    | FileNotFound          // FileNotFoundException
    | FileLoad              // FileLoadException
    | InvalidOperation      // InvalidOperationException (child access on a JSON value)
    | Serialization         // JsonSerializationException (ToObject of an unsuitable token)
    | JsonReader            // JsonReaderException (text that is not a JSON object)
    | Unconverted           // a string or float token where a number is expected: .NET parses or rounds it
    | OutOfMemory           // OutOfMemoryException (an array longer than the runtime allows)
    | Raised(reason: string)

  /** A bare `throw new Exception()`: the message .NET supplies. */
  const Unexplained := Raised("Exception of type 'System.Exception' was thrown.")

  /** Either a value or the exception that ended the operation. */
  datatype Result<+T> = Ok(value: T) | Err(error: Fault) {
    predicate IsFailure() { Err? }
    function PropagateFailure<U>(): Result<U> requires Err? { Err(error) }
    function Extract(): T requires Ok? { value }
  }

  /** Signed 32-bit range of the C# `int` type. */
  predicate IsInt32(n: int) { -0x8000_0000 <= n < 0x8000_0000 }

  /** Unsigned 32-bit range of the C# `uint` type. */
  predicate IsUInt32(n: int) { 0 <= n < 0x1_0000_0000 }

  /** `Array.MaxLength`: a longer `new T[n]` raises OutOfMemoryException. */
  const ArrayLimit: nat := 0x7FFF_FFC7
}

/** Character-level helpers shared by the registries. */
module Text {

  /**
   * Upper-case one character by the invariant Unicode mapping, for the
   * letters whose upper case is ASCII: `a`..`z`, dotless `ı` (U+0131) and
   * long `ſ` (U+017F). Every other character is left as it is.
   */
  function UpperChar(c: char): (u: char)
    ensures 'a' <= c <= 'z' ==> u as int == c as int - 32
    ensures c == '\U{0131}' ==> u == 'I'
    ensures c == '\U{017F}' ==> u == 'S'
    ensures !('a' <= c <= 'z') && c != '\U{0131}' && c != '\U{017F}' ==> u == c
  {
    if 'a' <= c <= 'z' then (c as int - 32) as char
    else if c == '\U{0131}' then 'I'
    else if c == '\U{017F}' then 'S'
    else c
  }

  /** `string.ToUpper()` over the letters whose upper case is ASCII. */
  function ToUpper(s: string): (u: string)
    ensures |u| == |s|
    ensures forall i :: 0 <= i < |s| ==> u[i] == UpperChar(s[i])
  {
    seq(|s|, i requires 0 <= i < |s| => UpperChar(s[i]))
  }

  /** Upper-casing twice is upper-casing once. */
  lemma ToUpperIdempotent(s: string)
    ensures ToUpper(ToUpper(s)) == ToUpper(s)
  {
    assert forall i :: 0 <= i < |s| ==> UpperChar(UpperChar(s[i])) == UpperChar(s[i]);
  }
}
