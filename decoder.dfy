/**
 * `RegistrationArrToDict` of the aggregation script: a Redis reply that lists
 * a registration as `[k1, v1, k2, v2, ...]` becomes a dictionary, recursively,
 * but only down to a fixed depth; below it, and for anything that is not a
 * list, the value is kept as it is.
 */
module Decoder {
  import opened PyValues

  /** Lists at this depth or deeper are not turned into dictionaries. */
  const MaxDepth: nat := 3

  /** `d` is a key index of `xs` counted from `i`: the position of a `k` in `k, v` pairs. */
  predicate IsKeyIndex(xs: seq<Value>, i: nat, j: int) {
    i <= j < |xs| && (j - i) % 2 == 0
  }

  /** The value `RegistrationArrToDict(v, depth)` returns, or the exception it raises. */
  function Decode(v: Value, depth: nat): Result<Value>
    decreases v, 1
  {
    if depth >= MaxDepth || !v.List? then Ok(v)
    else DecodePairs(v, depth, 0, map[])
  }

  /**
   * The loop of `RegistrationArrToDict` from index `i` on, with `d` the
   * dictionary filled so far. Each step reads the value (raising IndexError
   * on a trailing key without a value), decodes it one level deeper, and only
   * then stores it under the key, which must be hashable.
   */
  function DecodePairs(v: Value, depth: nat, i: nat, d: map<Value, Value>): Result<Value>
    requires v.List? && i <= |v.items|
    decreases v, 0, |v.items| - i
  {
    var xs := v.items;
    if i == |xs| then Ok(Dict(d))
    else if i + 1 == |xs| then Err(IndexError)
    else
      var x :- Decode(xs[i + 1], depth + 1);
      if !Hashable(xs[i]) then Err(TypeError)
      else DecodePairs(v, depth, i + 2, d[xs[i] := x])
  }

  /** The keys the loop stores from index `i` on. */
  function KeysFrom(xs: seq<Value>, i: nat): set<Value> {
    set j | 0 <= j < |xs| && IsKeyIndex(xs, i, j) :: xs[j]
  }

  /** Every pair from `i` on has a hashable key and a value that decodes. */
  ghost predicate PairsDecode(xs: seq<Value>, i: nat, depth: nat) {
    && (|xs| - i) % 2 == 0
    && forall j :: IsKeyIndex(xs, i, j) ==> j + 1 < |xs| && Hashable(xs[j]) && Decode(xs[j + 1], depth + 1).Ok?
  }

  /** No key index after `j` holds the same key as `j`: this pair is the one that is kept. */
  ghost predicate LastOccurrence(xs: seq<Value>, i: nat, j: nat) {
    forall j' :: IsKeyIndex(xs, i, j') && j < j' ==> xs[j'] != xs[j]
  }

  /** The key indices from `i + 2` on are those from `i` on, less `i` itself. */
  lemma KeyIndexStep(xs: seq<Value>, i: nat)
    requires i + 1 < |xs|
    ensures IsKeyIndex(xs, i, i)
    ensures forall j :: IsKeyIndex(xs, i, j) <==> j == i || IsKeyIndex(xs, i + 2, j)
    ensures KeysFrom(xs, i) == {xs[i]} + KeysFrom(xs, i + 2)
  {
    assert forall j :: IsKeyIndex(xs, i, j) <==> j == i || IsKeyIndex(xs, i + 2, j);
  }

  /** The pairs from `i` on are well formed exactly when the first one is and those after it are. */
  lemma PairsDecodeStep(xs: seq<Value>, i: nat, depth: nat)
    requires i + 1 < |xs|
    ensures PairsDecode(xs, i, depth)
        <==> Hashable(xs[i]) && Decode(xs[i + 1], depth + 1).Ok? && PairsDecode(xs, i + 2, depth)
  {
    KeyIndexStep(xs, i);
    assert (|xs| - i) % 2 == (|xs| - (i + 2)) % 2;
    var next := i + 2;
    if PairsDecode(xs, i, depth) {
      forall j | IsKeyIndex(xs, next, j)
        ensures j + 1 < |xs| && Hashable(xs[j]) && Decode(xs[j + 1], depth + 1).Ok?
      {
        assert IsKeyIndex(xs, i, j);
      }
    }
    if Hashable(xs[i]) && Decode(xs[i + 1], depth + 1).Ok? && PairsDecode(xs, i + 2, depth) {
      forall j | IsKeyIndex(xs, i, j)
        ensures j + 1 < |xs| && Hashable(xs[j]) && Decode(xs[j + 1], depth + 1).Ok?
      {
        if j != i {
          assert IsKeyIndex(xs, next, j);
        }
      }
    }
  }

  /** The loop succeeds exactly when every remaining pair is well formed. */
  lemma {:induction false} DecodePairsOk(v: Value, depth: nat, i: nat, d: map<Value, Value>)
    requires v.List? && i <= |v.items|
    ensures DecodePairs(v, depth, i, d).Ok? <==> PairsDecode(v.items, i, depth)
    decreases |v.items| - i
  {
    var xs := v.items;
    if i == |xs| {
    } else if i + 1 == |xs| {
      assert IsKeyIndex(xs, i, i);
    } else {
      PairsDecodeStep(xs, i, depth);
      var x := Decode(xs[i + 1], depth + 1);
      if x.Ok? && Hashable(xs[i]) {
        assert DecodePairs(v, depth, i, d) == DecodePairs(v, depth, i + 2, d[xs[i] := x.value]);
        DecodePairsOk(v, depth, i + 2, d[xs[i] := x.value]);
      }
    }
  }

  /** One step of the loop: the pair at `i` is decoded and stored, then the loop goes on at `i + 2`. */
  lemma DecodePairsStep(v: Value, depth: nat, i: nat, d: map<Value, Value>)
    requires v.List? && i < |v.items|
    requires DecodePairs(v, depth, i, d).Ok?
    ensures i + 1 < |v.items| && Decode(v.items[i + 1], depth + 1).Ok? && Hashable(v.items[i])
    ensures DecodePairs(v, depth, i, d)
         == DecodePairs(v, depth, i + 2, d[v.items[i] := Decode(v.items[i + 1], depth + 1).value])
  {
  }

  /**
   * The keys the loop ends with: those stored before `i` and the key of
   * every pair from `i` on; a key of `d` that no later pair names keeps its value.
   */
  lemma {:induction false} DecodePairsKeys(v: Value, depth: nat, i: nat, d: map<Value, Value>)
    requires v.List? && i <= |v.items|
    requires DecodePairs(v, depth, i, d).Ok?
    ensures DecodePairs(v, depth, i, d).value.Dict?
    ensures DecodePairs(v, depth, i, d).value.entries.Keys == d.Keys + KeysFrom(v.items, i)
    ensures forall k :: k in d && k !in KeysFrom(v.items, i) ==> DecodePairs(v, depth, i, d).value.entries[k] == d[k]
    decreases |v.items| - i
  {
    var xs := v.items;
    if i == |xs| {
      assert KeysFrom(xs, i) == {};
    } else {
      DecodePairsStep(v, depth, i, d);
      KeyIndexStep(xs, i);
      DecodePairsKeys(v, depth, i + 2, d[xs[i] := Decode(xs[i + 1], depth + 1).value]);
    }
  }

  /**
   * The values the loop ends with: the key of every pair that is not
   * overwritten by a later pair maps to that pair's decoded value.
   */
  lemma {:induction false} DecodePairsValues(v: Value, depth: nat, i: nat, d: map<Value, Value>)
    requires v.List? && i <= |v.items|
    requires DecodePairs(v, depth, i, d).Ok?
    ensures DecodePairs(v, depth, i, d).value.Dict?
    ensures forall j :: IsKeyIndex(v.items, i, j) && LastOccurrence(v.items, i, j) ==>
              j + 1 < |v.items| && Decode(v.items[j + 1], depth + 1).Ok? &&
              v.items[j] in DecodePairs(v, depth, i, d).value.entries &&
              DecodePairs(v, depth, i, d).value.entries[v.items[j]] == Decode(v.items[j + 1], depth + 1).value
    decreases |v.items| - i
  {
    var xs := v.items;
    if i < |xs| {
      DecodePairsStep(v, depth, i, d);
      KeyIndexStep(xs, i);
      var d' := d[xs[i] := Decode(xs[i + 1], depth + 1).value];
      DecodePairsValues(v, depth, i + 2, d');
      DecodePairsKeys(v, depth, i + 2, d');
      var m := DecodePairs(v, depth, i + 2, d').value.entries;
      forall j | IsKeyIndex(xs, i, j) && LastOccurrence(xs, i, j)
        ensures j + 1 < |xs| && Decode(xs[j + 1], depth + 1).Ok? && xs[j] in m && m[xs[j]] == Decode(xs[j + 1], depth + 1).value
      {
        if j == i {
          FirstPairLast(xs, i);
        } else {
          LaterPairLast(xs, i, j);
        }
      }
    }
  }

  /** A first pair that no later pair overrides has a key the rest of the loop does not store. */
  lemma FirstPairLast(xs: seq<Value>, i: nat)
    requires i + 1 < |xs| && LastOccurrence(xs, i, i)
    ensures xs[i] !in KeysFrom(xs, i + 2)
  {
    var next := i + 2;
    forall j | 0 <= j < |xs| && IsKeyIndex(xs, next, j) ensures xs[j] != xs[i] {
      assert IsKeyIndex(xs, i, j) && i < j;
    }
  }

  /** A later pair that is the last of its key from `i` on is also the last from `i + 2` on. */
  lemma LaterPairLast(xs: seq<Value>, i: nat, j: nat)
    requires i + 1 < |xs| && IsKeyIndex(xs, i, j) && LastOccurrence(xs, i, j) && j != i
    ensures IsKeyIndex(xs, i + 2, j) && LastOccurrence(xs, i + 2, j)
  {
    KeyIndexStep(xs, i);
  }

  /** A list above the depth bound decodes exactly when its pairs are well formed. */
  lemma DecodeOk(xs: seq<Value>, depth: nat)
    requires depth < MaxDepth
    ensures Decode(List(xs), depth).Ok? <==> PairsDecode(xs, 0, depth)
  {
    DecodePairsOk(List(xs), depth, 0, map[]);
  }

  /**
   * A decoded list is a dictionary whose keys are the elements at even
   * positions; each key maps to the decoded value that follows its LAST
   * occurrence, so a later duplicate key overwrites an earlier one.
   */
  lemma DecodeContents(xs: seq<Value>, depth: nat)
    requires depth < MaxDepth
    requires Decode(List(xs), depth).Ok?
    ensures Decode(List(xs), depth).value.Dict?
    ensures Decode(List(xs), depth).value.entries.Keys == KeysFrom(xs, 0)
    ensures forall j :: IsKeyIndex(xs, 0, j) && LastOccurrence(xs, 0, j) ==>
              j + 1 < |xs| && Decode(xs[j + 1], depth + 1).Ok? &&
              Decode(List(xs), depth).value.entries[xs[j]] == Decode(xs[j + 1], depth + 1).value
  {
    DecodePairsKeys(List(xs), depth, 0, map[]);
    DecodePairsValues(List(xs), depth, 0, map[]);
  }

  /**
   * Whatever decodes is either returned as it was (a non-list, or anything at
   * the depth bound) or is a dictionary; decoding that result again changes
   * nothing, which is why the reduce phase may decode an aggregate twice.
   */
  lemma DecodeResultShape(v: Value, depth: nat)
    requires Decode(v, depth).Ok?
    ensures depth >= MaxDepth || !v.List? ==> Decode(v, depth).value == v
    ensures depth < MaxDepth && v.List? ==> Decode(v, depth).value.Dict?
    ensures Decode(Decode(v, depth).value, depth) == Decode(v, depth)
  {
    if depth < MaxDepth && v.List? {
      DecodePairsKeys(v, depth, 0, map[]);
    }
  }

  /** Concrete case: four levels of pairs; the fourth level stays a list. */
  lemma DepthBoundExample()
    ensures Decode(List([Str("a"), List([Str("b"), List([Str("c"), List([Str("d"), Str("e")])])])]), 0)
         == Ok(Dict(map[Str("a") := Dict(map[Str("b") := Dict(map[Str("c") := List([Str("d"), Str("e")])])])]))
  {
  }

  /** `RegistrationArrToDict(registration, depth)`. */
  method RegistrationArrToDict(registration: Value, depth: nat) returns (r: Result<Value>)
    ensures r == Decode(registration, depth)
    decreases registration
  {
    if depth >= MaxDepth {
      return Ok(registration);
    }
    if !registration.List? {
      return Ok(registration);
    }
    var xs := registration.items;
    var d: map<Value, Value> := map[];
    var i := 0;
    while i < |xs|
      invariant 0 <= i <= |xs|
      invariant DecodePairs(registration, depth, i, d) == Decode(registration, depth)
      decreases |xs| - i
    {
      if i + 1 == |xs| {
        return Err(IndexError);
      }
      var x := RegistrationArrToDict(xs[i + 1], depth + 1);
      if x.Err? {
        return Err(x.error);
      }
      if !Hashable(xs[i]) {
        return Err(TypeError);
      }
      d := d[xs[i] := x.value];
      i := i + 2;
    }
    return Ok(Dict(d));
  }
}
