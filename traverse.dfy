/**
 * The loop shape the loader and the decoder share: visit the inputs in
 * order, convert each one, and stop at the first conversion that raises.
 */
module Traverse {
  import opened Common

  /**
   * Converts every element of `xs` in order; the first failing conversion
   * decides the error.
   */
  function MapAll<A, B>(xs: seq<A>, f: A -> Result<B>): (r: Result<seq<B>>)
    ensures r.Ok? <==> forall i :: 0 <= i < |xs| ==> f(xs[i]).Ok?
    ensures r.Ok? ==> |r.value| == |xs|
    ensures r.Ok? ==> forall i :: 0 <= i < |xs| ==> r.value[i] == f(xs[i]).value
    ensures r.Err? ==> exists k :: 0 <= k < |xs| && f(xs[k]) == Err(r.error)
                                   && forall i :: 0 <= i < k ==> f(xs[i]).Ok?
    decreases |xs|
  {
    if xs == [] then Ok([])
    else
      var init :- MapAll(xs[..|xs| - 1], f);
      var last :- f(xs[|xs| - 1]);
      Ok(init + [last])
  }

  /** One more element: the traversal of `xs + [x]` continues the traversal of `xs`. */
  lemma MapAllSnoc<A, B>(xs: seq<A>, x: A, f: A -> Result<B>)
    ensures MapAll(xs + [x], f) ==
      if MapAll(xs, f).Err? then Err(MapAll(xs, f).error)
      else if f(x).Err? then Err(f(x).error)
      else Ok(MapAll(xs, f).value + [f(x).value])
  {
    assert (xs + [x])[..|xs + [x]| - 1] == xs;
  }

  /** A loop that converted every element, with results `ys`, has computed the traversal. */
  lemma MapAllAllOk<A, B>(xs: seq<A>, f: A -> Result<B>, ys: seq<B>)
    requires |ys| == |xs| && forall i :: 0 <= i < |xs| ==> f(xs[i]) == Ok(ys[i])
    ensures MapAll(xs, f) == Ok(ys)
  {
    var r := MapAll(xs, f);
    assert r.Ok?;
    assert r.value == ys;
  }

  /** A loop that converted `xs[..k]` and finds `xs[k]` failing has found the error of the traversal. */
  lemma MapAllFirstErr<A, B>(xs: seq<A>, k: nat, f: A -> Result<B>)
    requires k < |xs| && (forall i :: 0 <= i < k ==> f(xs[i]).Ok?) && f(xs[k]).Err?
    ensures MapAll(xs, f) == Err(f(xs[k]).error)
  {
  }

  /**
   * The loop every resolver stage runs: allocate `new B[items.Count()]`,
   * convert entry `i` into slot `i`, and leave at the first conversion that
   * raises.
   */
  method Fill<A, B(0)>(items: seq<A>, f: A -> Result<B>) returns (r: Result<array<B>>)
    ensures r.Ok? <==> MapAll(items, f).Ok?
    ensures r.Err? ==> r.error == MapAll(items, f).error
    ensures r.Ok? ==> fresh(r.value) && r.value[..] == MapAll(items, f).value
  {
    var slots := new B[|items|];
    var i := 0;
    while i < |items|
      invariant 0 <= i <= |items|
      invariant forall q :: 0 <= q < i ==> f(items[q]) == Ok(slots[q])
    {
      var x := f(items[i]);
      if x.Err? {
        MapAllFirstErr(items, i, f);
        return Err(x.error);
      }
      slots[i] := x.value;
      i := i + 1;
    }
    MapAllAllOk(items, f, slots[..]);
    return Ok(slots);
  }
}
