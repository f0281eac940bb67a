/**
 * The values the aggregation script handles: what a Redis reply decodes to
 * (nil, bulk strings, integers, arrays) plus the Python dictionaries the
 * script builds from them, together with the handful of Python operations
 * the script applies to them and the exceptions those operations raise.
 */
module PyValues {

  /** A Python value as seen by the script. `Null` is Python's None. */
  datatype Value =
    | Null
    | Str(s: string)
    | Int(i: int)
    | List(items: seq<Value>)
    | Dict(entries: map<Value, Value>)

  /** The Python exceptions the script can raise on unexpected input. */
  datatype PyError = KeyError | TypeError | IndexError

  datatype Option<+T> = None | Some(value: T)

  datatype Result<+T> = Ok(value: T) | Err(error: PyError) {
    predicate IsFailure() { Err? }

    function PropagateFailure<U>(): Result<U>
      requires Err?
    {
      Err(error)
    }

    function Extract(): T
      requires Ok?
    {
      value
    }
  }

  /** The empty dictionary `{}`, the zero value of the aggregation. */
  const EmptyDict: Value := Dict(map[])

  /** Only immutable scalars can be dictionary keys; lists and dicts raise TypeError. */
  predicate Hashable(v: Value) {
    v.Null? || v.Str? || v.Int?
  }

  /** `v[k]` for a string key `k`. */
  function GetItem(v: Value, k: string): (r: Result<Value>)
    ensures r.Ok? <==> v.Dict? && Str(k) in v.entries
    ensures r.Ok? ==> r.value == v.entries[Str(k)]
    ensures r.Err? ==> r.error == (if v.Dict? then KeyError else TypeError)
  {
    match v
    case Dict(m) => if Str(k) in m then Ok(m[Str(k)]) else Err(KeyError)
    case _ => Err(TypeError)
  }

  /** `v[k] = x` for a string key `k`, giving the updated dictionary. */
  function SetItem(v: Value, k: string, x: Value): (r: Result<Value>)
    ensures r.Ok? <==> v.Dict?
    ensures r.Err? ==> r.error == TypeError
    ensures r.Ok? ==> r.value.Dict?
                      && r.value.entries.Keys == v.entries.Keys + {Str(k)}
                      && r.value.entries[Str(k)] == x
                      && forall key :: key in v.entries && key != Str(k) ==> r.value.entries[key] == v.entries[key]
  {
    match v
    case Dict(m) => Ok(Dict(m[Str(k) := x]))
    case _ => Err(TypeError)
  }

  /** `v[i]` for a non-negative integer index `i`. */
  function Index(v: Value, i: nat): (r: Result<Value>)
    ensures v.List? ==> (r.Ok? <==> i < |v.items|)
    ensures v.List? && i < |v.items| ==> r == Ok(v.items[i])
    ensures v.Null? || v.Int? ==> r == Err(TypeError)
  {
    match v
    case List(xs) => if i < |xs| then Ok(xs[i]) else Err(IndexError)
    case Str(s) => if i < |s| then Ok(Str([s[i]])) else Err(IndexError)
    case Dict(m) => if Int(i) in m then Ok(m[Int(i)]) else Err(KeyError)
    case _ => Err(TypeError)
  }

  /** `len(v)`. */
  function Len(v: Value): (r: Result<nat>)
    ensures r.Ok? <==> v.List? || v.Str? || v.Dict?
    ensures v.List? ==> r == Ok(|v.items|)
    ensures v.Str? ==> r == Ok(|v.s|)
  {
    match v
    case List(xs) => Ok(|xs|)
    case Str(s) => Ok(|s|)
    case Dict(m) => Ok(|m.Keys|)
    case _ => Err(TypeError)
  }

  /**
   * `x += y` as the script uses it: integers add, strings and lists
   * concatenate (a list extended in place by a list has the contents of the
   * concatenation); every other pair raises TypeError.
   */
  function PyAdd(x: Value, y: Value): (r: Result<Value>)
    ensures x.Int? && y.Int? ==> r == Ok(Int(x.i + y.i))
    ensures x.List? && y.List? ==> r == Ok(List(x.items + y.items))
    ensures r.Ok? <==> (x.Int? && y.Int?) || (x.Str? && y.Str?) || (x.List? && y.List?)
  {
    match (x, y)
    case (Int(a), Int(b)) => Ok(Int(a + b))
    case (Str(a), Str(b)) => Ok(Str(a + b))
    case (List(a), List(b)) => Ok(List(a + b))
    case _ => Err(TypeError)
  }

  /**
   * `f` applied to every element in order, as a loop that raises on the
   * first element `f` fails on.
   */
  function MapAll<A, B>(xs: seq<A>, f: A -> Result<B>): Result<seq<B>>
    decreases |xs|
  {
    if xs == [] then Ok([])
    else
      var init :- MapAll(xs[..|xs| - 1], f);
      var y :- f(xs[|xs| - 1]);
      Ok(init + [y])
  }


  /** One more element: its image is appended, or its failure ends the loop. */
  lemma MapAllSnoc<A, B>(xs: seq<A>, x: A, f: A -> Result<B>)
    ensures MapAll(xs + [x], f)
         == if MapAll(xs, f).Err? then MapAll(xs, f).PropagateFailure()
            else if f(x).Err? then f(x).PropagateFailure()
            else Ok(MapAll(xs, f).value + [f(x).value])
  {
    assert (xs + [x])[..|xs|] == xs;
  }

  /** The loop succeeds exactly when `f` succeeds on every element, and then gives each image in order. */
  lemma {:induction false} MapAllShape<A, B>(xs: seq<A>, f: A -> Result<B>)
    ensures MapAll(xs, f).Ok? <==> forall i :: 0 <= i < |xs| ==> f(xs[i]).Ok?
    ensures MapAll(xs, f).Ok? ==>
              && |MapAll(xs, f).value| == |xs|
              && forall i :: 0 <= i < |xs| ==> Ok(MapAll(xs, f).value[i]) == f(xs[i])
    decreases |xs|
  {
    if xs != [] {
      var init := xs[..|xs| - 1];
      var last := xs[|xs| - 1];
      assert init + [last] == xs;
      MapAllShape(init, f);
      MapAllSnoc(init, last, f);
      assert forall i :: 0 <= i < |init| ==> init[i] == xs[i];
    }
  }

  /** Once the loop has failed on a prefix, it fails with the same error on the whole sequence. */
  lemma {:induction false} MapAllAbortsFrom<A, B>(xs: seq<A>, f: A -> Result<B>, k: nat)
    requires k <= |xs| && MapAll(xs[..k], f).Err?
    ensures MapAll(xs, f) == MapAll(xs[..k], f)
    decreases |xs| - k
  {
    if k < |xs| {
      assert xs[..k + 1] == xs[..k] + [xs[k]];
      MapAllSnoc(xs[..k], xs[k], f);
      MapAllAbortsFrom(xs, f, k + 1);
    } else {
      assert xs[..k] == xs;
    }
  }

  /** Mapping `xs + ys` maps `xs`, then `ys`; the first error wins. */
  lemma {:induction false} MapAllAppend<A, B>(xs: seq<A>, ys: seq<A>, f: A -> Result<B>)
    ensures MapAll(xs + ys, f)
         == if MapAll(xs, f).Err? then MapAll(xs, f)
            else if MapAll(ys, f).Err? then MapAll(ys, f)
            else Ok(MapAll(xs, f).value + MapAll(ys, f).value)
    decreases |ys|
  {
    if ys == [] {
      assert xs + ys == xs;
      if MapAll(xs, f).Ok? {
        assert MapAll(xs, f).value + [] == MapAll(xs, f).value;
      }
    } else {
      var init := ys[..|ys| - 1];
      var y := ys[|ys| - 1];
      assert xs + ys == (xs + init) + [y];
      MapAllAppend(xs, init, f);
      MapAllSnoc(xs + init, y, f);
      assert init + [y] == ys;
      MapAllSnoc(init, y, f);
      if MapAll(xs, f).Err? {
      } else if MapAll(init, f).Err? {
        assert MapAll(xs + init, f) == MapAll(init, f);
      } else if f(y).Err? {
        assert MapAll(ys, f) == Err(f(y).error);
        assert MapAll(xs + ys, f) == Err(f(y).error);
      } else {
        assert MapAll(xs, f).value + MapAll(init, f).value + [f(y).value]
            == MapAll(xs, f).value + (MapAll(init, f).value + [f(y).value]);
      }
    }
  }

  /**
   * A loop that applies `f` to each element in turn and pushes the result
   * onto `acc`; the first error ends it.
   */
  method PushEach<A, B>(xs: seq<A>, f: A -> Result<B>, acc: seq<B>) returns (r: Result<seq<B>>)
    ensures MapAll(xs, f).Err? ==> r == MapAll(xs, f)
    ensures MapAll(xs, f).Ok? ==> r == Ok(acc + MapAll(xs, f).value)
  {
    var out := acc;
    ghost var pushed: seq<B> := [];
    var j := 0;
    while j < |xs|
      invariant 0 <= j <= |xs|
      invariant MapAll(xs[..j], f) == Ok(pushed) && out == acc + pushed
    {
      assert xs[..j + 1] == xs[..j] + [xs[j]];
      MapAllSnoc(xs[..j], xs[j], f);
      var y := f(xs[j]);
      if y.Err? {
        MapAllAbortsFrom(xs, f, j + 1);
        return Err(y.error);
      }
      out := out + [y.value];
      pushed := pushed + [y.value];
      j := j + 1;
    }
    assert xs[..j] == xs;
    return Ok(out);
  }

  // ---------------------------------------------------------------------------
  // Flattening nested lists
  // ---------------------------------------------------------------------------

  /** The elements of all the lists of `xss`, list after list. */
  function Concat<A>(xss: seq<seq<A>>): seq<A>
    decreases |xss|
  {
    if xss == [] then [] else Concat(xss[..|xss| - 1]) + xss[|xss| - 1]
  }

  /** The elements of the first `m` lists start the elements of all of them. */
  lemma {:induction false} ConcatPrefix<A>(xss: seq<seq<A>>, m: nat)
    requires m <= |xss|
    ensures |Concat(xss[..m])| <= |Concat(xss)|
    ensures Concat(xss)[..|Concat(xss[..m])|] == Concat(xss[..m])
    decreases |xss|
  {
    if m == |xss| {
      assert xss[..m] == xss;
    } else {
      var init := xss[..|xss| - 1];
      ConcatPrefix(init, m);
      assert init[..m] == xss[..m];
    }
  }

  /** Element `j` of list `n` sits after the elements of the lists before it. */
  lemma {:induction false} ConcatIndex<A>(xss: seq<seq<A>>, n: nat, j: nat)
    requires n < |xss| && j < |xss[n]|
    ensures |Concat(xss[..n])| + j < |Concat(xss)|
    ensures Concat(xss)[|Concat(xss[..n])| + j] == xss[n][j]
  {
    ConcatPrefix(xss, n + 1);
    assert xss[..n + 1][..n] == xss[..n];
    assert Concat(xss[..n + 1]) == Concat(xss[..n]) + xss[n];
  }
}
