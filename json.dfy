/**
 * A parsed JSON document as the loader sees it through Json.NET's `JToken`
 * API: the indexers, `Count()`, the explicit casts, `Value<int>()`,
 * `ToObject<T[]>()`, `ToString()` and `HasValues`.
 *
 * Absent members are `None` (a C# null reference); a JSON `null` is the
 * token `JNull`, which is a value like any other and is not a null reference.
 */
module JsonTokens {
  import opened Common

  /**
   * A JSON token. `JFloat` keeps its number as the text .NET prints for it;
   * floats are never interpreted.
   */
  datatype Json =
    | JNull
    | JBool(b: bool)
    | JInt(n: int)
    | JFloat(text: string)
    | JStr(s: string)
    | JArr(items: seq<Json>)
    | JObj(props: seq<Prop>)

  datatype Prop = Prop(name: string, value: Json)

  /** Position of the first property named `key`, or `|props|` when there is none. */
  function FirstIndex(props: seq<Prop>, key: string): (k: nat)
    ensures k <= |props|
    ensures forall j :: 0 <= j < k ==> props[j].name != key
    ensures k < |props| ==> props[k].name == key
  {
    if props == [] then 0
    else if props[0].name == key then 0
    else 1 + FirstIndex(props[1..], key)
  }

  /** The value of the first property named `key`, if any. */
  function Lookup(props: seq<Prop>, key: string): (r: Option<Json>)
    ensures r.None? <==> forall i :: 0 <= i < |props| ==> props[i].name != key
    ensures r.Some? ==> var k := FirstIndex(props, key); k < |props| && props[k] == Prop(key, r.value)
  {
    var k := FirstIndex(props, key);
    if k < |props| then Some(props[k].value) else None
  }

  /** No two properties share a name. */
  predicate DistinctNames(props: seq<Prop>) {
    forall i, j :: 0 <= i < j < |props| ==> props[i].name != props[j].name
  }

  /**
   * A document as `JObject.Parse` builds it: a key repeated in the text
   * replaces the earlier property (`DuplicatePropertyNameHandling.Replace`),
   * so every object, at any depth, has distinct names.
   */
  predicate Parsed(t: Json) {
    match t
    case JArr(items) => forall i :: 0 <= i < |items| ==> Parsed(items[i])
    case JObj(props) => DistinctNames(props) && forall i :: 0 <= i < |props| ==> Parsed(props[i].value)
    case _ => true
  }

  /**
   * In a parsed object the first property named `key` is the only one, so
   * the first match is the value `JObject.Parse` kept.
   */
  lemma LookupUnique(props: seq<Prop>, key: string, k: nat)
    requires DistinctNames(props) && k < |props| && props[k].name == key
    ensures Lookup(props, key) == Some(props[k].value)
  {
  }

  /**
   * `token[key]`: a member of an object, `None` when it is absent. An array
   * refuses a string key; a JSON value has no children.
   */
  function Get(t: Json, key: string): (r: Result<Option<Json>>)
    ensures r.Ok? <==> t.JObj?
    ensures t.JArr? ==> r == Err(Argument)
    ensures !t.JObj? && !t.JArr? ==> r == Err(InvalidOperation)
    ensures r.Ok? ==> r.value == Lookup(t.props, key)
  {
    match t
    case JObj(props) => Ok(Lookup(props, key))
    case JArr(_) => Err(Argument)
    case _ => Err(InvalidOperation)
  }

  /**
   * The members a string indexer reads: the properties of an object. The
   * first `token[key]` on any other token raises as `Get` does, and once it
   * has succeeded every further lookup on the same token is `Lookup`.
   */
  function Members(t: Json): (r: Result<seq<Prop>>)
    ensures r.Ok? <==> t.JObj?
    ensures r.Ok? ==> r.value == t.props
    ensures r.Err? ==> forall key :: Get(t, key) == Err(r.error)
  {
    match t
    case JObj(props) => Ok(props)
    case JArr(_) => Err(Argument)
    case _ => Err(InvalidOperation)
  }

  /** `token.ContainsKey(key)` on an object. */
  predicate ContainsKey(props: seq<Prop>, key: string) {
    Lookup(props, key).Some?
  }

  /**
   * The tokens a `for (i = 0; i < token.Count(); i++) token[i]` loop visits.
   * `Count()` of a null reference raises; an object counts its properties
   * and then refuses an integer key; a JSON value has no children.
   */
  function Entries(t: Option<Json>): (r: Result<seq<Json>>)
    ensures t.None? ==> r == Err(ArgumentNull)
    ensures t.Some? && t.value.JArr? ==> r == Ok(t.value.items)
    ensures t.Some? && t.value.JObj? ==> r == if t.value.props == [] then Ok([]) else Err(Argument)
    ensures t.Some? && !t.value.JArr? && !t.value.JObj? ==> r == Ok([])
  {
    match t
    case None => Err(ArgumentNull)
    case Some(JArr(items)) => Ok(items)
    case Some(JObj(props)) => if props == [] then Ok([]) else Err(Argument)
    case Some(_) => Ok([])
  }

  /**
   * The properties a `foreach (JProperty p in token)` loop visits: an
   * array's elements are not properties, a JSON value has no children.
   */
  function Properties(t: Json): (r: Result<seq<Prop>>)
    ensures t.JObj? ==> r == Ok(t.props)
    ensures t.JArr? ==> r == if t.items == [] then Ok([]) else Err(InvalidCast)
    ensures !t.JObj? && !t.JArr? ==> r == Ok([])
  {
    match t
    case JObj(props) => Ok(props)
    case JArr(items) => if items == [] then Ok([]) else Err(InvalidCast)
    case _ => Ok([])
  }

  /** `token.HasValues`: a non-empty array or object. */
  predicate HasValues(t: Json) {
    (t.JArr? && t.items != []) || (t.JObj? && t.props != [])
  }

  /** `(JObject)token`. */
  function AsObject(t: Json): (r: Result<seq<Prop>>)
    ensures r.Ok? <==> t.JObj?
    ensures r.Ok? ==> r.value == t.props
    ensures r.Err? ==> r.error == InvalidCast
  {
    if t.JObj? then Ok(t.props) else Err(InvalidCast)
  }

  /** A number in the signed 32-bit range, or OverflowException. */
  function Int32(n: int): (r: Result<int>)
    ensures r.Ok? <==> IsInt32(n)
    ensures r.Ok? ==> r.value == n
    ensures r.Err? ==> r.error == Overflow
  {
    if IsInt32(n) then Ok(n) else Err(Overflow)
  }

  /**
   * `(int)token`: a null reference raises ArgumentNullException, a JSON
   * null or a container ArgumentException; a boolean counts as 1 or 0.
   */
  function CastInt(t: Option<Json>): (r: Result<int>)
    ensures r.Ok? ==> IsInt32(r.value)
    ensures t.None? ==> r == Err(ArgumentNull)
    ensures t.Some? && t.value.JInt? ==> r == Int32(t.value.n)
    ensures t.Some? && (t.value.JNull? || t.value.JArr? || t.value.JObj?) ==> r == Err(Argument)
  {
    match t
    case None => Err(ArgumentNull)
    case Some(JInt(n)) => Int32(n)
    case Some(JBool(b)) => Ok(if b then 1 else 0)
    case Some(JStr(_)) => Err(Unconverted)
    case Some(JFloat(_)) => Err(Unconverted)
    case Some(_) => Err(Argument)
  }

  /** `(int)(token ?? fallback)`: an absent member takes the fallback. */
  function CastIntOr(t: Option<Json>, fallback: int): (r: Result<int>)
    requires IsInt32(fallback)
    ensures t.None? ==> r == Ok(fallback)
    ensures t.Some? ==> r == CastInt(t)
  {
    if t.None? then Ok(fallback) else CastInt(t)
  }

  /** `(int?)token`: an absent member or a JSON null is null. */
  function CastNullableInt(t: Option<Json>): (r: Result<Option<int>>)
    ensures t.None? || t == Some(JNull) ==> r == Ok(None)
    ensures t.Some? && t.value.JInt? ==> (r.Ok? <==> IsInt32(t.value.n))
    ensures r.Ok? && r.value.Some? ==> CastInt(t) == Ok(r.value.value)
  {
    if t.None? || t == Some(JNull) then Ok(None)
    else
      var n :- CastInt(t);
      Ok(Some(n))
  }

  /**
   * `token.Value<int>()` on a present token: a JSON null or a container
   * raises InvalidCastException, a `long` outside `int` OverflowException.
   * An integer beyond `long` is held as a BigInteger, which
   * `Convert.ChangeType` refuses with InvalidCastException.
   */
  function ValueInt(t: Json): (r: Result<int>)
    ensures r.Ok? ==> IsInt32(r.value)
    ensures t.JInt? && IsInt64(t.n) ==> r == Int32(t.n)
    ensures t.JInt? && !IsInt64(t.n) ==> r == Err(InvalidCast)
    ensures t.JNull? || t.JArr? || t.JObj? ==> r == Err(InvalidCast)
  {
    match t
    case JInt(n) => if IsInt64(n) then Int32(n) else Err(InvalidCast)
    case JBool(b) => Ok(if b then 1 else 0)
    case JStr(_) => Err(Unconverted)
    case JFloat(_) => Err(Unconverted)
    case _ => Err(InvalidCast)
  }

  /** The decimal digits of `n`. */
  function Digits(n: nat): (s: string)
    ensures |s| >= 1 && forall i :: 0 <= i < |s| ==> '0' <= s[i] <= '9'
  {
    var d := ['0', '1', '2', '3', '4', '5', '6', '7', '8', '9'][n % 10];
    if n < 10 then [d] else Digits(n / 10) + [d]
  }

  /** `n.ToString()` in the invariant culture. */
  function Decimal(n: int): string {
    if n < 0 then "-" + Digits(-n) else Digits(n)
  }

  /**
   * `(string)token`: an absent member or a JSON null is null; numbers and
   * booleans print as .NET prints them; a container raises ArgumentException.
   */
  function CastString(t: Option<Json>): (r: Result<Option<string>>)
    ensures t.None? || t == Some(JNull) ==> r == Ok(None)
    ensures t.Some? && t.value.JStr? ==> r == Ok(Some(t.value.s))
    ensures t.Some? && (t.value.JArr? || t.value.JObj?) ==> r == Err(Argument)
    ensures r.Err? ==> r.error == Argument
  {
    match t
    case None => Ok(None)
    case Some(JNull) => Ok(None)
    case Some(JStr(s)) => Ok(Some(s))
    case Some(JInt(n)) => Ok(Some(Decimal(n)))
    case Some(JBool(b)) => Ok(Some(if b then "True" else "False"))
    case Some(JFloat(text)) => Ok(Some(text))
    case Some(_) => Err(Argument)
  }

  /** `(string)(token ?? fallback)`. */
  function CastStringOr(t: Option<Json>, fallback: string): (r: Result<Option<string>>)
    ensures t.None? ==> r == Ok(Some(fallback))
    ensures t.Some? ==> r == CastString(t)
  {
    if t.None? then Ok(Some(fallback)) else CastString(t)
  }

  /**
   * `(bool)(token ?? fallback)`: a JSON null or a container raises
   * ArgumentException; a `long` is true when it is not 0. A BigInteger
   * (beyond `long`) is first cast to `int`, which raises OverflowException.
   */
  function CastBoolOr(t: Option<Json>, fallback: bool): (r: Result<bool>)
    ensures t.None? ==> r == Ok(fallback)
    ensures t.Some? && t.value.JBool? ==> r == Ok(t.value.b)
    ensures t.Some? && t.value.JInt? ==> r == if IsInt64(t.value.n) then Ok(t.value.n != 0) else Err(Overflow)
    ensures t.Some? && (t.value.JNull? || t.value.JArr? || t.value.JObj?) ==> r == Err(Argument)
  {
    match t
    case None => Ok(fallback)
    case Some(JBool(b)) => Ok(b)
    case Some(JInt(n)) => if IsInt64(n) then Ok(n != 0) else Err(Overflow)
    case Some(JStr(_)) => Err(Unconverted)
    case Some(JFloat(_)) => Err(Unconverted)
    case Some(_) => Err(Argument)
  }

  /**
   * What `token.ToString()` gives: the plain text of a scalar (a JSON null
   * gives the empty string), or the indented JSON text of a container,
   * which is kept as the container itself.
   */
  datatype Text = Plain(s: string) | Indented(container: Json)

  function ToText(t: Json): (r: Text)
    ensures r.Indented? <==> t.JArr? || t.JObj?
    ensures t.JStr? ==> r == Plain(t.s)
  {
    match t
    case JNull => Plain("")
    case JBool(b) => Plain(if b then "True" else "False")
    case JInt(n) => Plain(Decimal(n))
    case JFloat(text) => Plain(text)
    case JStr(s) => Plain(s)
    case _ => Indented(t)
  }

  predicate IsNumber(t: Json) {
    t.JInt? || t.JFloat?
  }

  /** The range of a C# `long`: the parser stores an integer that fits it as a `long`, a larger one as a BigInteger. */
  predicate IsInt64(n: int) { -0x8000_0000_0000_0000 <= n < 0x8000_0000_0000_0000 }

  /**
   * One item of `ToObject<float[]>()`, read with `ReadAsDouble`. A number is
   * kept. A JSON null or an empty string reads as null, which a `float` slot
   * refuses with JsonSerializationException. A boolean or a container is an
   * unexpected token (JsonReaderException). Any other string is left to
   * .NET's number parsing.
   */
  function FloatItem(t: Json): (r: Result<Json>)
    ensures r.Ok? <==> IsNumber(t)
    ensures r.Ok? ==> r.value == t
    ensures t.JNull? || t == JStr("") ==> r == Err(Serialization)
    ensures t.JBool? || t.JArr? || t.JObj? ==> r == Err(JsonReader)
  {
    match t
    case JInt(_) => Ok(t)
    case JFloat(_) => Ok(t)
    case JNull => Err(Serialization)
    case JStr(s) => if s == "" then Err(Serialization) else Err(Unconverted)
    case _ => Err(JsonReader)
  }

  /**
   * `token.ToObject<float[]>()`. A JSON null, or an empty string, which the
   * serializer turns into null for a reference type, gives null. An array
   * gives its numbers (kept as tokens), and otherwise the fault of its first
   * item that is not a number. Any other token cannot be deserialised.
   */
  function ToFloats(t: Json): (r: Result<Option<seq<Json>>>)
    ensures t.JNull? || t == JStr("") ==> r == Ok(None)
    ensures r.Ok? && r.value.Some? ==> t.JArr? && r.value.value == t.items
    ensures t.JArr? ==> (r.Ok? <==> forall i :: 0 <= i < |t.items| ==> IsNumber(t.items[i]))
    ensures !t.JArr? && !t.JNull? && t != JStr("") ==> r == Err(Serialization)
  {
    match t
    case JNull => Ok(None)
    case JStr(s) => if s == "" then Ok(None) else Err(Serialization)
    case JArr(items) =>
      if forall i :: 0 <= i < |items| ==> IsNumber(items[i]) then Ok(Some(items))
      else Err(FirstFloatFault(items))
    case _ => Err(Serialization)
  }

  /** The fault of the first item of `items` that is not a number. */
  function FirstFloatFault(items: seq<Json>): Fault
    decreases |items|
  {
    if items == [] then Serialization
    else if !IsNumber(items[0]) then FloatItem(items[0]).error
    else FirstFloatFault(items[1..])
  }

  predicate IsInt32Token(t: Json) {
    t.JInt? && IsInt32(t.n)
  }

  /**
   * One item of `ToObject<int[]>()`, read with `ReadAsInt32`. An integer in
   * the `int` range is itself. A `long` outside it cannot be converted
   * (JsonReaderException); a BigInteger overflows in its cast to `int`
   * (OverflowException). A JSON null or an empty string reads as null, which
   * an `int` slot refuses with JsonSerializationException. A boolean or a
   * container is an unexpected token (JsonReaderException). A float or any
   * other string is left to .NET's rounding and number parsing.
   */
  function IntItem(t: Json): (r: Result<int>)
    ensures r.Ok? <==> IsInt32Token(t)
    ensures r.Ok? ==> t == JInt(r.value)
    ensures t.JInt? && !IsInt32(t.n) ==> r == Err(if IsInt64(t.n) then JsonReader else Overflow)
    ensures t.JNull? || t == JStr("") ==> r == Err(Serialization)
    ensures t.JBool? || t.JArr? || t.JObj? ==> r == Err(JsonReader)
  {
    match t
    case JInt(n) =>
      if IsInt32(n) then Ok(n)
      else if IsInt64(n) then Err(JsonReader)
      else Err(Overflow)
    case JNull => Err(Serialization)
    case JStr(s) => if s == "" then Err(Serialization) else Err(Unconverted)
    case JFloat(_) => Err(Unconverted)
    case _ => Err(JsonReader)
  }

  /**
   * `token.ToObject<int[]>()`. A JSON null or an empty string gives null. An
   * array of integers in the `int` range gives them, and otherwise the fault
   * of its first item that is not one. Any other token cannot be deserialised.
   */
  function ToInts(t: Json): (r: Result<Option<seq<int>>>)
    ensures t.JNull? || t == JStr("") ==> r == Ok(None)
    ensures t.JArr? ==> (r.Ok? <==> forall i :: 0 <= i < |t.items| ==> IsInt32Token(t.items[i]))
    ensures r.Ok? && r.value.Some? ==> t.JArr? && |r.value.value| == |t.items|
                                       && forall i :: 0 <= i < |t.items| ==> t.items[i] == JInt(r.value.value[i])
    ensures !t.JArr? && !t.JNull? && t != JStr("") ==> r == Err(Serialization)
  {
    match t
    case JNull => Ok(None)
    case JStr(s) => if s == "" then Ok(None) else Err(Serialization)
    case JArr(items) =>
      if forall i :: 0 <= i < |items| ==> IsInt32Token(items[i]) then
        Ok(Some(seq(|items|, i requires 0 <= i < |items| => items[i].n)))
      else Err(FirstIntFault(items))
    case _ => Err(Serialization)
  }

  /** The fault of the first item of `items` that is not an `int`. */
  function FirstIntFault(items: seq<Json>): Fault
    decreases |items|
  {
    if items == [] then Serialization
    else if !IsInt32Token(items[0]) then IntItem(items[0]).error
    else FirstIntFault(items[1..])
  }

  /** The first item that is not a number decides the fault. */
  lemma {:induction false} FirstFloatFaultAt(items: seq<Json>)
    requires exists i :: 0 <= i < |items| && !IsNumber(items[i])
    ensures exists k :: 0 <= k < |items| && FloatItem(items[k]) == Err(FirstFloatFault(items))
                        && forall i :: 0 <= i < k ==> IsNumber(items[i])
    decreases |items|
  {
    if IsNumber(items[0]) {
      var j :| 0 <= j < |items| && !IsNumber(items[j]);
      assert !IsNumber(items[1..][j - 1]);
      FirstFloatFaultAt(items[1..]);
      var k :| 0 <= k < |items[1..]| && FloatItem(items[1..][k]) == Err(FirstFloatFault(items[1..]))
               && forall i :: 0 <= i < k ==> IsNumber(items[1..][i]);
      assert forall i :: 0 < i < k + 1 ==> items[i] == items[1..][i - 1];
      assert FloatItem(items[k + 1]) == Err(FirstFloatFault(items));
    } else {
      assert FloatItem(items[0]) == Err(FirstFloatFault(items));
    }
  }

  /** The first item that is not an `int` decides the fault. */
  lemma {:induction false} FirstIntFaultAt(items: seq<Json>)
    requires exists i :: 0 <= i < |items| && !IsInt32Token(items[i])
    ensures exists k :: 0 <= k < |items| && IntItem(items[k]) == Err(FirstIntFault(items))
                        && forall i :: 0 <= i < k ==> IsInt32Token(items[i])
    decreases |items|
  {
    if IsInt32Token(items[0]) {
      var j :| 0 <= j < |items| && !IsInt32Token(items[j]);
      assert !IsInt32Token(items[1..][j - 1]);
      FirstIntFaultAt(items[1..]);
      var k :| 0 <= k < |items[1..]| && IntItem(items[1..][k]) == Err(FirstIntFault(items[1..]))
               && forall i :: 0 <= i < k ==> IsInt32Token(items[1..][i]);
      assert forall i :: 0 < i < k + 1 ==> items[i] == items[1..][i - 1];
      assert IntItem(items[k + 1]) == Err(FirstIntFault(items));
    } else {
      assert IntItem(items[0]) == Err(FirstIntFault(items));
    }
  }

  /** An array that `ToObject<float[]>()` refuses raises the fault of its first item that is not a number. */
  lemma FloatsFirstFault(t: Json)
    requires t.JArr? && ToFloats(t).Err?
    ensures exists k :: 0 <= k < |t.items| && FloatItem(t.items[k]) == Err(ToFloats(t).error)
                        && forall i :: 0 <= i < k ==> IsNumber(t.items[i])
  {
    FirstFloatFaultAt(t.items);
  }

  /** An array that `ToObject<int[]>()` refuses raises the fault of its first item that is not an `int`. */
  lemma IntsFirstFault(t: Json)
    requires t.JArr? && ToInts(t).Err?
    ensures exists k :: 0 <= k < |t.items| && IntItem(t.items[k]) == Err(ToInts(t).error)
                        && forall i :: 0 <= i < k ==> IsInt32Token(t.items[i])
  {
    FirstIntFaultAt(t.items);
  }

  /** A `long` beyond `int` and a boolean item are reader errors; a null item comes first here and is a serialization error. */
  lemma IntItemFaults()
    ensures ToInts(JArr([JInt(3_000_000_000)])) == Err(JsonReader)
    ensures ToInts(JArr([JInt(2), JBool(true)])) == Err(JsonReader)
    ensures ToInts(JArr([JNull, JBool(true)])) == Err(Serialization)
  {
    var big := [JInt(3_000_000_000)];
    assert !IsInt32Token(big[0]) && IsInt64(3_000_000_000);
    assert FirstIntFault(big) == JsonReader;
    var late := [JInt(2), JBool(true)];
    assert !IsInt32Token(late[1]) && late[1..] == [JBool(true)];
    assert FirstIntFault(late[1..]) == JsonReader;
    var nulls := [JNull, JBool(true)];
    assert !IsInt32Token(nulls[0]);
    assert FirstIntFault(nulls) == Serialization;
  }

  /** A boolean or a nested array among the numbers is a reader error. */
  lemma FloatItemFaults()
    ensures ToFloats(JArr([JBool(true), JInt(1), JInt(1)])) == Err(JsonReader)
    ensures ToFloats(JArr([JInt(1), JArr([])])) == Err(JsonReader)
  {
    var first := [JBool(true), JInt(1), JInt(1)];
    assert !IsNumber(first[0]);
    assert FirstFloatFault(first) == JsonReader;
    var nested := [JInt(1), JArr([])];
    assert !IsNumber(nested[1]) && nested[1..] == [JArr([])];
    assert FirstFloatFault(nested[1..]) == JsonReader;
  }
}
