/**
 * The accessor decoder: turns the bytes an accessor designates into a flat
 * array of components, packed or interleaved, plus the restricted index
 * reader and the per-accessor result cache.
 */
module AccessorReader {
  import opened Common
  import opened Bytes
  import opened Registry
  import opened Traverse

  /**
   * One decoded array entry. An integer component is kept as the integer
   * value of the float it becomes (exact for all but unsigned ints above
   * 2^24, which round to float32); a float32 component is kept as its raw
   * bit pattern.
   */
  datatype Component = Int(v: int) | Float32(pattern: nat)

  /** A buffer as the decoder sees it: its bytes. */
  datatype BufferRef = BufferRef(bytes: seq<byte>)

  /** A buffer view: the buffer it windows (possibly null), its offset and its stride. */
  datatype ViewRef = ViewRef(buffer: Option<BufferRef>, byteOffset: int, byteStride: int)

  /** A linked accessor; `None` fields are the null references the decoder rejects. */
  datatype AccessorRef = AccessorRef(
    bufferView: Option<ViewRef>,
    byteOffset: int,
    dataType: Option<ComponentDataType>,
    normalized: bool,
    count: int,
    structureType: Option<StructureType>)

  /**
   * `TotalComponentCount`: components per element times the element count.
   * Every shape has at least one component, so the total is zero exactly
   * when there are no elements and otherwise has the sign of `Count`.
   */
  function TotalComponentCount(a: AccessorRef): (n: int)
    requires a.structureType.Some?
    ensures n == 0 <==> a.count == 0
    ensures a.count > 0 ==> n >= a.count
    ensures a.count < 0 ==> n <= a.count
  {
    a.structureType.value.NumberOfComponents() * a.count
  }

  /** Everything `ReadData` dereferences is present. */
  predicate Linked(acc: Option<AccessorRef>) {
    acc.Some? && acc.value.bufferView.Some? && acc.value.bufferView.value.buffer.Some?
    && acc.value.dataType.Some? && acc.value.structureType.Some?
  }

  /**
   * The spacing of the float32 values around `u`: 1 below 2^24, doubling
   * with every binade above (a float32 keeps 24 significant bits).
   */
  function Grain(u: nat): (p: nat)
    ensures p >= 1 && u < 0x100_0000 * p
    ensures p > 1 ==> 0x80_0000 * p <= u && p % 2 == 0
    decreases u
  {
    if u < 0x100_0000 then 1 else 2 * Grain(u / 2)
  }

  /** The grain is a power of two. */
  lemma {:induction false} GrainPowerOfTwo(u: nat)
    ensures PowerOfTwo(Grain(u))
    decreases u
  {
    if u >= 0x100_0000 {
      GrainPowerOfTwo(u / 2);
    }
  }

  /** `p` is 1, 2, 4, 8, ... */
  predicate PowerOfTwo(p: nat)
    decreases p
  {
    p == 1 || (p >= 2 && p % 2 == 0 && PowerOfTwo(p / 2))
  }

  /** A larger power of two is at least twice a smaller one. */
  lemma {:induction false} PowerOfTwoGap(p: nat, q: nat)
    requires PowerOfTwo(p) && PowerOfTwo(q) && p < q
    ensures 2 * p <= q
    decreases p
  {
    if p > 1 {
      PowerOfTwoGap(p / 2, q / 2);
    }
  }

  /**
   * The grain is the only power of two whose binade holds `u`: a float32
   * keeps 24 significant bits, so its spacing is fixed by `u` alone.
   */
  lemma GrainUnique(u: nat, p: nat)
    requires PowerOfTwo(p) && 0x80_0000 * p <= u < 0x100_0000 * p
    ensures p == Grain(u)
  {
    var g := Grain(u);
    GrainPowerOfTwo(u);
    if p < g {
      PowerOfTwoGap(p, g);
    } else if g < p {
      PowerOfTwoGap(g, p);
    }
  }

  /**
   * The implicit `uint` to `float` conversion of `ReadValue<uint>`: `u`
   * rounded to the nearest multiple of its grain, ties to the even multiple.
   * The result is the integer value of that float32.
   */
  function Float32Of(u: nat): (f: nat)
    ensures u < 0x100_0000 ==> f == u
    ensures f % Grain(u) == 0
    ensures f - u <= Grain(u) / 2 && u - f <= Grain(u) / 2
  {
    var p := Grain(u);
    var q := u / p;
    var r := u % p;
    var k := if r * 2 < p || (r * 2 == p && q % 2 == 0) then q else q + 1;
    NearestMultiple(u, p, k);
    k * p
  }

  /** Rounding `u` down or up to a multiple of `p`, on the nearer side, moves it by at most half of `p`. */
  lemma NearestMultiple(u: nat, p: nat, k: nat)
    requires p >= 1
    requires k == u / p || k == u / p + 1
    requires k == u / p ==> (u % p) * 2 <= p
    requires k == u / p + 1 ==> (u % p) * 2 >= p
    ensures (k * p) % p == 0
    ensures k * p - u <= p / 2 && u - k * p <= p / 2
    ensures p == 1 ==> k * p == u
  {
    var q := u / p;
    var r := u % p;
    assert u == q * p + r;
    if k == q + 1 {
      assert k * p == q * p + p;
    }
    var m := (k * p) / p;
    var rest := (k * p) % p;
    assert p * (k - m) == rest;
    if k - m >= 1 {
      MulMono(1, k - m, p);
    } else if k - m <= -1 {
      MulMono(1, m - k, p);
    }
  }

  /** The first unsigned int a float32 cannot hold reads back as its even neighbour below. */
  lemma Float32OfRounds()
    ensures Float32Of(0x100_0001) == 0x100_0000
    ensures Float32Of(0x100_0003) == 0x100_0004
  {
    assert Grain(0x100_0001) == 2 by { assert Grain(0x80_0000) == 1; }
    assert Grain(0x100_0003) == 2 by { assert Grain(0x80_0001) == 1; }
  }

  /**
   * `ReadValue<T>`: the component of type `t` at byte `off`. A one-byte read
   * indexes the span; a wider read slices it, and each raises when the
   * bytes are not all inside the buffer.
   */
  function ReadValue(s: seq<byte>, t: ComponentDataType, off: int): (r: Result<Component>)
    ensures r.Ok? <==> InRange(s, off, t.Bytes())
    ensures r.Err? ==> r.error == (if t.Bytes() == 1 then IndexOutOfRange else ArgumentOutOfRange)
  {
    if !InRange(s, off, t.Bytes()) then
      if t.Bytes() == 1 then Err(IndexOutOfRange) else Err(ArgumentOutOfRange)
    else
      match t
      case SignedByte => Ok(Int(Bytes.SignedByte(s[off] as nat)))
      case UnsignedByte => Ok(Int(s[off] as nat))
      case SignedShort => Ok(Int(Bytes.SignedShort(U16(s, off))))
      case UnsignedShort => Ok(Int(U16(s, off)))
      case UnsignedInt => Ok(Int(Float32Of(U32(s, off))))
      case Float => Ok(Float32(U32(s, off)))
  }

  /**
   * One entry of the output: the raw value, or 0 when the accessor is
   * normalized (the normalisation step returns 0 after reading). In the
   * packed layout (`guarded`) a start byte at or past the end of the buffer
   * raises before the read.
   */
  function ReadAt(s: seq<byte>, t: ComponentDataType, normalized: bool, guarded: bool, off: int): (r: Result<Component>)
  {
    if guarded && off >= |s| then Err(Raised("Index out of range while reading buffer data."))
    else
      var v :- ReadValue(s, t, off);
      Ok(if normalized then Int(0) else v)
  }

  function Reader(s: seq<byte>, t: ComponentDataType, normalized: bool, guarded: bool): int -> Result<Component> {
    off => ReadAt(s, t, normalized, guarded, off)
  }

  /** `base, base + step, ..., base + (n - 1) * step`. */
  function Arith(base: int, step: int, n: nat): (o: seq<int>)
    ensures |o| == n && forall k :: 0 <= k < n ==> o[k] == base + k * step
  {
    seq(n, k requires 0 <= k < n => base + k * step)
  }

  /** Byte offsets of the `c` components of element `i` in an interleaved view. */
  function ElementOffsets(base: int, stride: int, bpc: int, c: nat, i: nat): seq<int> {
    Arith(base + i * stride, bpc, c)
  }

  /** Byte offsets of the first `n` elements of an interleaved view, element by element. */
  function Strided(base: int, stride: int, bpc: int, c: nat, n: nat): (o: seq<int>)
    ensures |o| == n * c
  {
    if n == 0 then []
    else
      assert n * c == (n - 1) * c + c;
      Strided(base, stride, bpc, c, n - 1) + ElementOffsets(base, stride, bpc, c, n - 1)
  }

  /** Interleaved layout: component `j` of element `i` lies at `base + i * stride + j * bpc`. */
  lemma {:induction false} StridedAt(base: int, stride: int, bpc: int, c: nat, n: nat, i: nat, j: nat)
    requires i < n && j < c
    ensures i * c + j < n * c
    ensures Strided(base, stride, bpc, c, n)[i * c + j] == base + i * stride + j * bpc
  {
    assert (n - 1) * c + c == n * c;
    if i < n - 1 {
      StridedAt(base, stride, bpc, c, n - 1, i, j);
      assert i * c + j < (n - 1) * c;
    } else {
      assert i * c + j == (n - 1) * c + j;
    }
  }

  /**
   * `ReadData`: the decoded components of the accessor. A null accessor,
   * view, buffer, component type or structure type raises
   * ArgumentNullException. The `new float[TotalComponentCount]` comes
   * before any read: a negative length raises OverflowException, one above
   * `Array.MaxLength` OutOfMemoryException.
   */
  function ReadDataSpec(acc: Option<AccessorRef>): (r: Result<seq<Component>>)
    ensures !Linked(acc) ==> r == Err(ArgumentNull)
    ensures Linked(acc) && acc.value.count < 0 ==> r == Err(Overflow)
    ensures Linked(acc) && TotalComponentCount(acc.value) > ArrayLimit ==> r == Err(OutOfMemory)
  {
    if !Linked(acc) then Err(ArgumentNull)
    else
      var a := acc.value;
      var view := a.bufferView.value;
      if a.count < 0 then Err(Overflow)
      else if TotalComponentCount(a) > ArrayLimit then Err(OutOfMemory)
      else MapAll(Offsets(a), Reader(view.buffer.value.bytes, a.dataType.value, a.normalized, view.byteStride == 0))
  }

  /** Byte offsets `ReadData` visits, in visiting order. */
  function Offsets(a: AccessorRef): (o: seq<int>)
    requires Linked(Some(a)) && a.count >= 0
    ensures |o| == TotalComponentCount(a)
  {
    var view := a.bufferView.value;
    var t := a.dataType.value;
    var c := a.structureType.value.NumberOfComponents();
    var base := a.byteOffset + view.byteOffset;
    if view.byteStride != 0 then Strided(base, view.byteStride, t.Bytes(), c, a.count)
    else Arith(base, t.Bytes(), c * a.count)
  }

  /**
   * On success the output has exactly `NumberOfComponents * Count` entries,
   * and it succeeds exactly when every component read lies inside the buffer.
   */
  lemma ReadDataLength(a: AccessorRef)
    requires Linked(Some(a))
    ensures ReadDataSpec(Some(a)).Ok? ==> |ReadDataSpec(Some(a)).value| == TotalComponentCount(a)
    ensures a.count >= 0 && TotalComponentCount(a) <= ArrayLimit ==>
      (ReadDataSpec(Some(a)).Ok? <==>
        forall k :: 0 <= k < |Offsets(a)| ==> InRange(a.bufferView.value.buffer.value.bytes, Offsets(a)[k], a.dataType.value.Bytes()))
  {
    if a.count >= 0 && TotalComponentCount(a) <= ArrayLimit {
      var view := a.bufferView.value;
      var s := view.buffer.value.bytes;
      var t := a.dataType.value;
      var o := Offsets(a);
      var rd := Reader(s, t, a.normalized, view.byteStride == 0);
      assert ReadDataSpec(Some(a)) == MapAll(o, rd);
      forall k | 0 <= k < |o|
        ensures rd(o[k]).Ok? <==> InRange(s, o[k], t.Bytes())
      {
      }
    }
  }

  /** Interleaved layout: entry `i * c + j` is the component at `base + i * stride + j * bytesPerComponent`. */
  lemma ReadDataInterleaved(a: AccessorRef, i: nat, j: nat)
    requires Linked(Some(a)) && a.bufferView.value.byteStride != 0
    requires ReadDataSpec(Some(a)).Ok?
    requires i < a.count && j < a.structureType.value.NumberOfComponents()
    ensures var view := a.bufferView.value;
            var t := a.dataType.value;
            var c := a.structureType.value.NumberOfComponents();
            var off := a.byteOffset + view.byteOffset + i * view.byteStride + j * t.Bytes();
            i * c + j < |ReadDataSpec(Some(a)).value| &&
            ReadAt(view.buffer.value.bytes, t, a.normalized, false, off) == Ok(ReadDataSpec(Some(a)).value[i * c + j])
  {
    var view := a.bufferView.value;
    StridedAt(a.byteOffset + view.byteOffset, view.byteStride, a.dataType.value.Bytes(),
              a.structureType.value.NumberOfComponents(), a.count, i, j);
  }

  /** Packed layout: entry `k` is the component at `base + k * bytesPerComponent`. */
  lemma ReadDataPacked(a: AccessorRef, k: nat)
    requires Linked(Some(a)) && a.bufferView.value.byteStride == 0
    requires ReadDataSpec(Some(a)).Ok? && k < |ReadDataSpec(Some(a)).value|
    ensures var view := a.bufferView.value;
            var t := a.dataType.value;
            ReadAt(view.buffer.value.bytes, t, a.normalized, true, a.byteOffset + view.byteOffset + k * t.Bytes())
              == Ok(ReadDataSpec(Some(a)).value[k])
  {
  }

  /** With `Normalized` set every entry is 0, since the normalisation step is a stub. */
  lemma ReadDataNormalizedIsZero(a: AccessorRef)
    requires Linked(Some(a)) && a.normalized && ReadDataSpec(Some(a)).Ok?
    ensures forall k :: 0 <= k < |ReadDataSpec(Some(a)).value| ==> ReadDataSpec(Some(a)).value[k] == Int(0)
  {
  }

  /**
   * The meaning of an integer component: an unsigned type gives the
   * little-endian value of its bytes; a signed type gives the two's
   * complement value, the unique integer in its range with the same bytes.
   */
  lemma IntegerComponents(s: seq<byte>, t: ComponentDataType, off: int)
    requires InRange(s, off, t.Bytes()) && t != Float
    ensures ReadValue(s, t, off).value.Int?
    ensures var v := ReadValue(s, t, off).value.v;
            var u := LittleEndian(s, off, t.Bytes());
            var m := Pow256(t.Bytes());
            if t == SignedByte || t == SignedShort then -(m / 2) <= v < m / 2 && (v == u || v == u - m)
            else if t == UnsignedInt then v == Float32Of(u)
            else v == u
  {
    assert Pow256(1) == 256;
    assert Pow256(2) == 0x1_0000;
    assert LittleEndian(s, off, 1) == s[off] as nat;
  }

  /** A float32 component keeps the four little-endian bytes as its bit pattern. */
  lemma FloatComponent(s: seq<byte>, off: int)
    requires InRange(s, off, 4)
    ensures ReadValue(s, Float, off) == Ok(Float32(LittleEndian(s, off, 4)))
  {
  }

  lemma MulMono(x: int, y: int, m: nat)
    requires x <= y
    ensures x * m <= y * m
  {
    assert y * m - x * m == (y - x) * m;
  }

  lemma MulStrict(x: int, y: int, m: int)
    requires m > 0
    ensures x * m < y * m <==> x < y
  {
    if x < y {
      assert y * m - x * m == (y - x) * m;
    } else {
      assert x * m - y * m == (x - y) * m;
    }
  }

  /** An arithmetic run of `m + n` offsets is a run of `m` followed by a run of `n`. */
  lemma ArithSplit(base: int, step: int, m: nat, n: nat)
    ensures Arith(base, step, m + n) == Arith(base, step, m) + Arith(base + m * step, step, n)
  {
    var l := Arith(base, step, m + n);
    var r := Arith(base, step, m) + Arith(base + m * step, step, n);
    forall k | m <= k < m + n
      ensures l[k] == r[k]
    {
      assert (k - m) * step == k * step - m * step;
    }
  }

  /**
   * A tightly packed view and an interleaved view whose stride is the
   * element size visit the same bytes.
   */
  lemma {:induction false} StridedIsPacked(base: int, bpc: int, c: nat, n: nat)
    ensures Strided(base, c * bpc, bpc, c, n) == Arith(base, bpc, c * n)
  {
    if n > 0 {
      StridedIsPacked(base, bpc, c, n - 1);
      var m := c * (n - 1);
      ElementStart(n - 1, c, bpc);
      ArithSplit(base, bpc, m, c);
    }
  }

  /** The arithmetic of one element step: the `i`-th element of stride `c * bpc` starts at component `c * i`. */
  lemma ElementStart(i: nat, c: nat, bpc: int)
    ensures i * (c * bpc) == (c * i) * bpc
    ensures c * i + c == c * (i + 1)
  {
    assert i * (c * bpc) == (i * c) * bpc;
  }

  /**
   * Packed-versus-interleaved equivalence: a view with stride 0 and the same
   * view with stride `NumberOfComponents * BytesPerComponent` decode to the
   * same entries, and fail on the same inputs.
   */
  lemma PackedMatchesInterleaved(a: AccessorRef)
    requires Linked(Some(a)) && a.bufferView.value.byteStride == 0
    ensures var view := a.bufferView.value;
            var stride := a.structureType.value.NumberOfComponents() * a.dataType.value.Bytes();
            var b := a.(bufferView := Some(view.(byteStride := stride)));
            && (ReadDataSpec(Some(a)).Ok? <==> ReadDataSpec(Some(b)).Ok?)
            && (ReadDataSpec(Some(a)).Ok? ==> ReadDataSpec(Some(a)).value == ReadDataSpec(Some(b)).value)
  {
    var view := a.bufferView.value;
    var t := a.dataType.value;
    var c := a.structureType.value.NumberOfComponents();
    var stride := c * t.Bytes();
    var b := a.(bufferView := Some(view.(byteStride := stride)));
    assert TotalComponentCount(b) == TotalComponentCount(a);
    if a.count >= 0 && TotalComponentCount(a) <= ArrayLimit {
      var base := a.byteOffset + view.byteOffset;
      var s := view.buffer.value.bytes;
      MulStrict(0, c, t.Bytes());
      assert stride != 0;
      StridedIsPacked(base, t.Bytes(), c, a.count);
      var o := Arith(base, t.Bytes(), c * a.count);
      assert Offsets(a) == o;
      assert Offsets(b) == o;
      var guarded := Reader(s, t, a.normalized, true);
      var plain := Reader(s, t, a.normalized, false);
      assert ReadDataSpec(Some(a)) == MapAll(o, guarded);
      assert ReadDataSpec(Some(b)) == MapAll(o, plain);
      forall k | 0 <= k < |o|
        ensures guarded(o[k]).Ok? <==> plain(o[k]).Ok?
        ensures guarded(o[k]).Ok? ==> guarded(o[k]).value == plain(o[k]).value
      {
      }
      var rg := MapAll(o, guarded);
      var rp := MapAll(o, plain);
      assert rg.Ok? <==> rp.Ok?;
      if rg.Ok? {
        assert rg.value == rp.value;
      }
    }
  }

  /**
   * The interleaved branch of `ReadDataInternal<T>`: element by element,
   * component by component, at `base + i * stride + j * bpc`.
   */
  method ReadInterleaved(data: array<Component>, s: seq<byte>, t: ComponentDataType, normalized: bool,
                         base: int, stride: int, c: nat, n: nat) returns (failure: Option<Fault>)
    requires data.Length == n * c
    modifies data
    ensures var spec := MapAll(Strided(base, stride, t.Bytes(), c, n), Reader(s, t, normalized, false));
      (failure.None? <==> spec.Ok?)
      && (failure.Some? ==> failure.value == spec.error)
      && (failure.None? ==> data[..] == spec.value)
  {
    var bpc := t.Bytes();
    ghost var offs := Strided(base, stride, bpc, c, n);
    ghost var rd := Reader(s, t, normalized, false);
    var i := 0;
    var row := 0;
    while i < n
      invariant 0 <= i <= n && row == i * c && row <= data.Length
      invariant forall q :: 0 <= q < row ==> rd(offs[q]) == Ok(data[q])
    {
      MulMono(i + 1, n, c);
      assert row + c == (i + 1) * c;
      var j := 0;
      while j < c
        invariant 0 <= j <= c
        invariant forall q :: 0 <= q < row + j ==> rd(offs[q]) == Ok(data[q])
      {
        var elementOffset := base + i * stride + j * bpc;
        StridedAt(base, stride, bpc, c, n, i, j);
        var k := row + j;
        assert offs[k] == elementOffset;
        var x := ReadValue(s, t, elementOffset);
        assert rd(offs[k]) == (if x.Err? then Err(x.error) else Ok(if normalized then Int(0) else x.value));
        if x.Err? {
          MapAllFirstErr(offs, k, rd);
          return Some(x.error);
        }
        data[k] := if normalized then Int(0) else x.value;
        j := j + 1;
      }
      i := i + 1;
      row := row + c;
    }
    MapAllAllOk(offs, rd, data[..]);
    return None;
  }

  /**
   * The packed branch of `ReadDataInternal<T>`: a byte counter advances by
   * the component size, and a start byte past the end raises before the read.
   */
  method ReadPacked(data: array<Component>, s: seq<byte>, t: ComponentDataType, normalized: bool,
                    base: int, total: nat) returns (failure: Option<Fault>)
    requires data.Length == total
    modifies data
    ensures var spec := MapAll(Arith(base, t.Bytes(), total), Reader(s, t, normalized, true));
      (failure.None? <==> spec.Ok?)
      && (failure.Some? ==> failure.value == spec.error)
      && (failure.None? ==> data[..] == spec.value)
  {
    var bpc := t.Bytes();
    ghost var offs := Arith(base, bpc, total);
    var totalBytes := total * bpc;
    var index := 0;
    var b := 0;
    while b < totalBytes
      invariant 0 <= index <= total && b == index * bpc
      invariant forall q :: 0 <= q < index ==> ReadAt(s, t, normalized, true, offs[q]) == Ok(data[q])
      decreases total - index
    {
      MulStrict(index, total, bpc);
      var byteIndex := base + b;
      assert offs[index] == byteIndex;
      if byteIndex >= |s| {
        PackedFault(s, t, normalized, offs, data[..], index);
        return Some(Raised("Index out of range while reading buffer data."));
      }
      var x := ReadValue(s, t, byteIndex);
      if x.Err? {
        PackedFault(s, t, normalized, offs, data[..], index);
        return Some(x.error);
      }
      data[index] := if normalized then Int(0) else x.value;
      assert (index + 1) * bpc == index * bpc + bpc;
      index := index + 1;
      b := b + bpc;
    }
    MulStrict(index, total, bpc);
    PackedDone(s, t, normalized, offs, data[..]);
    return None;
  }

  /** The packed read stops at the first entry `ReadAt` refuses, with that entry's fault. */
  lemma PackedFault(s: seq<byte>, t: ComponentDataType, normalized: bool, offs: seq<int>, data: seq<Component>, index: nat)
    requires index < |offs| && index <= |data|
    requires forall q :: 0 <= q < index ==> ReadAt(s, t, normalized, true, offs[q]) == Ok(data[q])
    requires ReadAt(s, t, normalized, true, offs[index]).Err?
    ensures MapAll(offs, Reader(s, t, normalized, true)) == Err(ReadAt(s, t, normalized, true, offs[index]).error)
  {
    MapAllFirstErr(offs, index, Reader(s, t, normalized, true));
  }

  /** The packed read succeeds with `data` when `ReadAt` gives every entry of it. */
  lemma PackedDone(s: seq<byte>, t: ComponentDataType, normalized: bool, offs: seq<int>, data: seq<Component>)
    requires |data| == |offs|
    requires forall q :: 0 <= q < |offs| ==> ReadAt(s, t, normalized, true, offs[q]) == Ok(data[q])
    ensures MapAll(offs, Reader(s, t, normalized, true)) == Ok(data)
  {
    MapAllAllOk(offs, Reader(s, t, normalized, true), data);
  }

  /**
   * `ReadDataInternal<T>`: fills `data` in visiting order, by element and
   * component when the view has a stride, by an advancing byte counter when
   * it has none. Reports the exception that stopped it, if any.
   */
  method ReadDataInternal(data: array<Component>, a: AccessorRef) returns (failure: Option<Fault>)
    requires Linked(Some(a)) && a.count >= 0 && data.Length == TotalComponentCount(a) <= ArrayLimit
    modifies data
    ensures failure.None? <==> ReadDataSpec(Some(a)).Ok?
    ensures failure.Some? ==> failure.value == ReadDataSpec(Some(a)).error
    ensures failure.None? ==> data[..] == ReadDataSpec(Some(a)).value
  {
    var view := a.bufferView.value;
    var compCount := a.structureType.value.NumberOfComponents();
    var totalOffset := a.byteOffset + view.byteOffset;
    var s := view.buffer.value.bytes;
    var t := a.dataType.value;
    ghost var rd := Reader(s, t, a.normalized, view.byteStride == 0);
    assert ReadDataSpec(Some(a)) == MapAll(Offsets(a), rd);
    if view.byteStride != 0 {
      assert Offsets(a) == Strided(totalOffset, view.byteStride, t.Bytes(), compCount, a.count);
      failure := ReadInterleaved(data, s, t, a.normalized, totalOffset, view.byteStride, compCount, a.count);
    } else {
      assert Offsets(a) == Arith(totalOffset, t.Bytes(), compCount * a.count);
      failure := ReadPacked(data, s, t, a.normalized, totalOffset, compCount * a.count);
    }
  }

  /**
   * `ReadData`: checks the linkage, allocates `NumberOfComponents * Count`
   * entries and fills them.
   */
  method ReadData(acc: Option<AccessorRef>) returns (r: Result<array<Component>>)
    ensures r.Ok? <==> ReadDataSpec(acc).Ok?
    ensures r.Err? ==> r.error == ReadDataSpec(acc).error
    ensures r.Ok? ==> fresh(r.value) && r.value[..] == ReadDataSpec(acc).value
  {
    if !Linked(acc) {
      return Err(ArgumentNull);
    }
    var a := acc.value;
    if a.count < 0 {
      return Err(Overflow);
    }
    if TotalComponentCount(a) > ArrayLimit {
      return Err(OutOfMemory);
    }
    var data := new Component[TotalComponentCount(a)](_ => Int(0));
    var failure := ReadDataInternal(data, a);
    if failure.Some? {
      return Err(failure.value);
    }
    return Ok(data);
  }

  /**
   * One entry of `ReadIndices`: an unsigned byte, an unsigned short, or an
   * unsigned int cast unchecked to `int`; every other component type is
   * refused with NotSupportedException.
   */
  function IndexAt(s: seq<byte>, t: ComponentDataType, off: int): (r: Result<int>)
    ensures r.Ok? <==> t in {UnsignedByte, UnsignedShort, UnsignedInt} && InRange(s, off, t.Bytes())
    ensures r.Ok? ==> IsInt32(r.value)
    ensures r.Ok? && t != UnsignedInt ==> 0 <= r.value < Pow256(t.Bytes())
    ensures r.Err? ==> r.error == (if t !in {UnsignedByte, UnsignedShort, UnsignedInt} then NotSupported
                                   else if t == UnsignedByte then IndexOutOfRange else ArgumentOutOfRange)
  {
    match t
    case UnsignedByte => if InRange(s, off, 1) then Ok(s[off] as int) else Err(IndexOutOfRange)
    case UnsignedShort => if InRange(s, off, 2) then Ok(U16(s, off)) else Err(ArgumentOutOfRange)
    case UnsignedInt => if InRange(s, off, 4) then Ok(SignedInt(U32(s, off))) else Err(ArgumentOutOfRange)
    case _ => Err(NotSupported)
  }

  function IndexReader(s: seq<byte>, t: ComponentDataType): int -> Result<int> {
    off => IndexAt(s, t, off)
  }

  /**
   * `ReadIndices`: `Count` indices, the `i`-th at `base + i * stride`, where
   * the stride is the view's stride or, when that is 0, the component size.
   * A null accessor or component type is dereferenced (NullReferenceException),
   * a null view or buffer raises ArgumentNullException. The `new int[Count]`
   * comes before any read: a negative count raises OverflowException, one
   * above `Array.MaxLength` OutOfMemoryException.
   */
  function ReadIndicesSpec(acc: Option<AccessorRef>): (r: Result<seq<int>>)
    ensures acc.None? ==> r == Err(NullReference)
    ensures acc.Some? && (acc.value.bufferView.None? || acc.value.bufferView.value.buffer.None?) ==> r == Err(ArgumentNull)
    ensures r.Ok? ==> |r.value| == acc.value.count && forall i :: 0 <= i < |r.value| ==> IsInt32(r.value[i])
    ensures acc.Some? && acc.value.bufferView.Some? && acc.value.bufferView.value.buffer.Some? && acc.value.dataType.Some? ==>
      (acc.value.count < 0 ==> r == Err(Overflow)) && (acc.value.count > ArrayLimit ==> r == Err(OutOfMemory))
  {
    if acc.None? then Err(NullReference)
    else
      var a := acc.value;
      if a.bufferView.None? || a.bufferView.value.buffer.None? then Err(ArgumentNull)
      else if a.dataType.None? then Err(NullReference)
      else if a.count < 0 then Err(Overflow)
      else if a.count > ArrayLimit then Err(OutOfMemory)
      else
        var view := a.bufferView.value;
        var t := a.dataType.value;
        var stride := if view.byteStride != 0 then view.byteStride else t.Bytes();
        MapAll(Arith(view.byteOffset + a.byteOffset, stride, a.count), IndexReader(view.buffer.value.bytes, t))
  }

  /** No indices: nothing is read, so even an unsupported component type succeeds. */
  lemma ReadIndicesEmpty(a: AccessorRef)
    requires a.bufferView.Some? && a.bufferView.value.buffer.Some? && a.dataType.Some? && a.count == 0
    ensures ReadIndicesSpec(Some(a)) == Ok([])
  {
  }

  /**
   * At least one index of a signed or float component type:
   * NotSupportedException, once the array is allocated.
   */
  lemma ReadIndicesUnsupported(a: AccessorRef)
    requires a.bufferView.Some? && a.bufferView.value.buffer.Some? && a.dataType.Some? && a.count > 0
    requires a.dataType.value in {SignedByte, SignedShort, Float}
    ensures ReadIndicesSpec(Some(a)) == if a.count > ArrayLimit then Err(OutOfMemory) else Err(NotSupported)
  {
    if a.count > ArrayLimit {
      return;
    }
    var view := a.bufferView.value;
    var t := a.dataType.value;
    var stride := if view.byteStride != 0 then view.byteStride else t.Bytes();
    var offs := Arith(view.byteOffset + a.byteOffset, stride, a.count);
    MapAllFirstErr(offs, 0, IndexReader(view.buffer.value.bytes, t));
  }

  /**
   * Index `i` is the little-endian value at `base + i * stride`; a tightly
   * packed view (stride 0) steps by the component size.
   */
  lemma ReadIndicesAt(a: AccessorRef, i: nat)
    requires ReadIndicesSpec(Some(a)).Ok? && i < a.count
    ensures var view := a.bufferView.value;
      var t := a.dataType.value;
      var stride := if view.byteStride != 0 then view.byteStride else t.Bytes();
      var off := view.byteOffset + a.byteOffset + i * stride;
      t in {UnsignedByte, UnsignedShort, UnsignedInt}
      && InRange(view.buffer.value.bytes, off, t.Bytes())
      && (t == UnsignedByte ==> ReadIndicesSpec(Some(a)).value[i] == view.buffer.value.bytes[off] as int)
      && (t == UnsignedShort ==> ReadIndicesSpec(Some(a)).value[i] == U16(view.buffer.value.bytes, off))
      && (t == UnsignedInt ==> ReadIndicesSpec(Some(a)).value[i] == SignedInt(U32(view.buffer.value.bytes, off)))
  {
    var view := a.bufferView.value;
    var t := a.dataType.value;
    var stride := if view.byteStride != 0 then view.byteStride else t.Bytes();
    var offs := Arith(view.byteOffset + a.byteOffset, stride, a.count);
    assert offs[i] == view.byteOffset + a.byteOffset + i * stride;
    assert IndexReader(view.buffer.value.bytes, t)(offs[i]).Ok?;
  }

  /** The loop of `ReadIndices`: fills `indices` with the entries at `base + i * stride`. */
  method ReadIndexLoop(indices: array<int>, span: seq<byte>, t: ComponentDataType, baseOffset: int, stride: int)
      returns (failure: Option<Fault>)
    modifies indices
    ensures var spec := MapAll(Arith(baseOffset, stride, indices.Length), IndexReader(span, t));
      (failure.None? <==> spec.Ok?)
      && (failure.Some? ==> failure.value == spec.error)
      && (failure.None? ==> indices[..] == spec.value)
  {
    ghost var offs := Arith(baseOffset, stride, indices.Length);
    ghost var rd := IndexReader(span, t);
    var i := 0;
    while i < indices.Length
      invariant 0 <= i <= indices.Length
      invariant forall q :: 0 <= q < i ==> rd(offs[q]) == Ok(indices[q])
    {
      var off := baseOffset + i * stride;
      var x := IndexAt(span, t, off);
      assert offs[i] == off && rd(offs[i]) == x;
      if x.Err? {
        MapAllFirstErr(offs, i, rd);
        return Some(x.error);
      }
      indices[i] := x.value;
      i := i + 1;
    }
    MapAllAllOk(offs, rd, indices[..]);
    return None;
  }

  /** `ReadIndices`: checks the references, allocates `int[Count]` and fills it. */
  method ReadIndices(acc: Option<AccessorRef>) returns (r: Result<array<int>>)
    ensures r.Ok? <==> ReadIndicesSpec(acc).Ok?
    ensures r.Err? ==> r.error == ReadIndicesSpec(acc).error
    ensures r.Ok? ==> fresh(r.value) && r.value[..] == ReadIndicesSpec(acc).value
  {
    if acc.None? {
      return Err(NullReference);
    }
    var a := acc.value;
    if a.bufferView.None? || a.bufferView.value.buffer.None? {
      return Err(ArgumentNull);
    }
    if a.dataType.None? {
      return Err(NullReference);
    }
    var count := a.count;
    var t := a.dataType.value;
    var view := a.bufferView.value;
    var stride := if view.byteStride != 0 then view.byteStride else t.Bytes();
    var baseOffset := view.byteOffset + a.byteOffset;
    if count < 0 {
      return Err(Overflow);
    }
    if count > ArrayLimit {
      return Err(OutOfMemory);
    }
    var indices := new int[count];
    var failure := ReadIndexLoop(indices, view.buffer.value.bytes, t, baseOffset, stride);
    if failure.Some? {
      return Err(failure.value);
    }
    return Ok(indices);
  }

  /**
   * An accessor object as a dictionary key: compared by identity, and its
   * fields can still be changed after it was first read.
   */
  class AccessorHandle {
    var accessor: AccessorRef

    constructor(a: AccessorRef)
      ensures accessor == a
    {
      accessor := a;
    }
  }

  /**
   * `AccessorReaderContext`: decodes accessors through `ReadData` and keeps
   * every decoded array, keyed by the accessor object.
   */
  class AccessorReaderContext {
    var cache: map<AccessorHandle, array<Component>>

    constructor()
      ensures cache == map[]
    {
      cache := map[];
    }

    /**
     * `Read`: a cached accessor gets back the very array decoded before,
     * whatever happened to the accessor or the array since; a new one is
     * decoded and, on success, remembered. A null key is refused by the
     * dictionary; a failed decode leaves the cache as it was.
     */
    method Read(h: AccessorHandle?) returns (r: Result<array<Component>>)
      modifies this
      ensures h == null ==> r == Err(ArgumentNull) && cache == old(cache)
      ensures h != null && h in old(cache) ==> r == Ok(old(cache)[h]) && cache == old(cache)
      ensures h != null && h !in old(cache) ==>
        (r.Ok? <==> ReadDataSpec(Some(h.accessor)).Ok?)
        && (r.Err? ==> r.error == ReadDataSpec(Some(h.accessor)).error && cache == old(cache))
        && (r.Ok? ==> fresh(r.value) && r.value[..] == ReadDataSpec(Some(h.accessor)).value
                      && cache == old(cache)[h := r.value])
    {
      if h == null {
        return Err(ArgumentNull);
      }
      if h in cache {
        return Ok(cache[h]);
      }
      r := ReadData(Some(h.accessor));
      if r.Ok? {
        cache := cache[h := r.value];
      }
    }
  }
}
