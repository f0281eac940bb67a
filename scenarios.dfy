/**
 * Worked examples of the model on small inputs.
 */
module Scenarios {
  import opened PyValues
  import opened Decoder
  import opened Aggregation
  import opened Grouping
  import opened Pipeline

  /** A decoded registration: a dictionary the merge accepts, which decoding leaves as it is. */
  predicate Decoded(r: Value) {
    r.Dict? && WellFormed(r)
  }

  lemma DecodedWellFormed(r: Value)
    requires Decoded(r)
    ensures Decode(r, 0) == Ok(r) && DecodesWellFormed(r)
  {
  }

  /**
   * Three decoded records whose errors are `[None]`, `"boom"` and
   * `["x", "y"]` fold into one record with three shards, the sum of their
   * runs and the errors `["boom", "x", "y"]`.
   */
  lemma ErrorsConcatenate(r0: Value, r1: Value, r2: Value)
    requires Decoded(r0) && Decoded(r1) && Decoded(r2)
    requires ErrorOf(r0) == List([Null]) && ErrorOf(r1) == Str("boom") && ErrorOf(r2) == List([Str("x"), Str("y")])
    ensures FoldGroup([r0, r1, r2], AggregateRes).Ok?
    ensures var a := FoldGroup([r0, r1, r2], AggregateRes).value;
            && Accumulator(a)
            && Shards(a) == 3
            && Counter(a, Triggered) == Counter(r0, Triggered) + Counter(r1, Triggered) + Counter(r2, Triggered)
            && Errors(a) == [Str("boom"), Str("x"), Str("y")]
  {
    var rs := [r0, r1, r2];
    DecodedWellFormed(r0);
    DecodedWellFormed(r1);
    DecodedWellFormed(r2);
    assert AllWellFormed(rs);
    FoldGroupShape(rs);
    assert rs[..2] == [r0, r1] && [r0, r1][..1] == [r0] && [r0][..0] == [];
    assert AllWellFormed([r0]) && AllWellFormed([r0, r1]);
    assert AllErrors([r0]) == [] + Normalise(ErrorOf(r0)) == [];
    assert AllErrors([r0, r1]) == AllErrors([r0]) + Normalise(ErrorOf(r1)) == [Str("boom")];
    assert AllErrors(rs) == AllErrors([r0, r1]) + Normalise(ErrorOf(r2));
    assert SumCounter([r0], Triggered) == 0 + Counter(r0, Triggered);
    assert SumCounter([r0, r1], Triggered) == SumCounter([r0], Triggered) + Counter(r1, Triggered);
    assert SumCounter(rs, Triggered) == SumCounter([r0, r1], Triggered) + Counter(r2, Triggered);
  }

  /** The raw reply of one shard for a registration whose error slot is `e`. */
  function RawRec(e: Value): Value {
    List([Str("id"), Str("0000-1"),
          Str(RegistrationData), List([Str(LastError), e,
                                       Str(NumTriggered), Int(1), Str(NumSuccess), Int(1),
                                       Str(NumFailures), Int(0), Str(NumAborted), Int(0)])])
  }

  /**
   * In a raw reply `lastError` sits two levels down, above the depth bound,
   * so a list there is decoded as pairs: `[None]` is a key without a value
   * and the record is rejected with IndexError.
   */
  lemma RawNoneListRejected()
    ensures AggregateRes(EmptyDict, RawRec(List([Null]))) == Err(IndexError)
  {
    var inner := List([Str(LastError), List([Null]),
                       Str(NumTriggered), Int(1), Str(NumSuccess), Int(1),
                       Str(NumFailures), Int(0), Str(NumAborted), Int(0)]);
    assert Decode(List([Null]), 2) == Err(IndexError);
    assert DecodePairs(inner, 1, 0, map[]) == Err(IndexError);
    assert Decode(RawRec(List([Null])), 0) == Err(IndexError);
  }

  /** A raw error list `["x", "y"]` is decoded into the dictionary `{"x": "y"}`, which is kept as one error. */
  lemma RawErrorListBecomesDict()
    ensures AggregateRes(EmptyDict, RawRec(List([Str("x"), Str("y")]))).Ok?
    ensures Accumulator(AggregateRes(EmptyDict, RawRec(List([Str("x"), Str("y")]))).value)
    ensures Errors(AggregateRes(EmptyDict, RawRec(List([Str("x"), Str("y")]))).value)
         == [Dict(map[Str("x") := Str("y")])]
  {
    var e := Dict(map[Str("x") := Str("y")]);
    RawRecDecodes();
    assert WellFormed(DecodedRec(e)) && ErrorOf(DecodedRec(e)) == e;
    SeedAccumulator(RawRec(List([Str("x"), Str("y")])));
  }

  /** The registration data of `RawRec(e)` once decoded, with `e` decoded to `d`. */
  function DecodedData(d: Value): map<Value, Value> {
    map[Str(LastError) := d][Str(NumTriggered) := Int(1)][Str(NumSuccess) := Int(1)]
                            [Str(NumFailures) := Int(0)][Str(NumAborted) := Int(0)]
  }

  /** `RawRec(e)` once decoded, with `e` decoded to `d`. */
  function DecodedRec(d: Value): Value {
    Dict(map[Str("id") := Str("0000-1")][Str(RegistrationData) := Dict(DecodedData(d))])
  }

  /** Decoding `RawRec(["x", "y"])` pairs up both levels and turns the error list into `{"x": "y"}`. */
  lemma RawRecDecodes()
    ensures Decode(RawRec(List([Str("x"), Str("y")])), 0) == Ok(DecodedRec(Dict(map[Str("x") := Str("y")])))
  {
    var raw := RawRec(List([Str("x"), Str("y")]));
    var e := Dict(map[Str("x") := Str("y")]);
    InnerDecodes();
    var top := map[Str("id") := Str("0000-1")][Str(RegistrationData) := Dict(DecodedData(e))];
    assert DecodePairs(raw, 0, 0, map[]) == DecodePairs(raw, 0, 2, map[Str("id") := Str("0000-1")]);
    assert DecodePairs(raw, 0, 2, map[Str("id") := Str("0000-1")]) == DecodePairs(raw, 0, 4, top);
  }

  /** The registration data of `RawRec(["x", "y"])` decodes one pair at a time. */
  lemma InnerDecodes()
    ensures Decode(RawRec(List([Str("x"), Str("y")])).items[3], 1) == Ok(Dict(DecodedData(Dict(map[Str("x") := Str("y")]))))
  {
    var inner := RawRec(List([Str("x"), Str("y")])).items[3];
    var e := Dict(map[Str("x") := Str("y")]);
    assert Decode(List([Str("x"), Str("y")]), 2) == Ok(e);
    var d1 := map[Str(LastError) := e];
    var d2 := d1[Str(NumTriggered) := Int(1)];
    var d3 := d2[Str(NumSuccess) := Int(1)];
    var d4 := d3[Str(NumFailures) := Int(0)];
    var d5 := d4[Str(NumAborted) := Int(0)];
    assert DecodePairs(inner, 1, 0, map[]) == DecodePairs(inner, 1, 2, d1);
    assert DecodePairs(inner, 1, 2, d1) == DecodePairs(inner, 1, 4, d2);
    assert DecodePairs(inner, 1, 4, d2) == DecodePairs(inner, 1, 6, d3);
    assert DecodePairs(inner, 1, 6, d3) == DecodePairs(inner, 1, 8, d4);
    assert DecodePairs(inner, 1, 8, d4) == DecodePairs(inner, 1, 10, d5);
  }

  /** The reply of `RG.INFOCLUSTER` for a cluster of three shards. */
  const ThreeShards: Value := List([Str("cluster"), Str("0000"), List([Str("s1"), Str("s2"), Str("s3")])])

  /**
   * A registration found without errors on two shards of a three-shard
   * cluster gets the warning once; outside cluster mode it is left alone.
   */
  lemma MissingShardWarns(r0: Value, r1: Value)
    requires Decoded(r0) && Decoded(r1) && ErrorOf(r0) == Null && ErrorOf(r1) == Null
    ensures FoldGroup([r0, r1], AggregateRes).Ok? && Accumulator(FoldGroup([r0, r1], AggregateRes).value)
    ensures var a := FoldGroup([r0, r1], AggregateRes).value;
            && CheckNumShardSanity(a, ThreeShards).Ok?
            && Accumulator(CheckNumShardSanity(a, ThreeShards).value)
            && Errors(CheckNumShardSanity(a, ThreeShards).value) == [Str(ShardWarning)]
            && CheckNumShardSanity(a, Str(NoClusterMode)) == Ok(a)
  {
    var rs := [r0, r1];
    DecodedWellFormed(r0);
    DecodedWellFormed(r1);
    assert AllWellFormed(rs);
    FoldGroupShape(rs);
    assert rs[..1] == [r0] && [r0][..0] == [];
    assert AllWellFormed([r0]);
    assert AllErrors([r0]) == [] + Normalise(ErrorOf(r0)) == [];
    assert AllErrors(rs) == AllErrors([r0]) + Normalise(ErrorOf(r1)) == [];
    assert ClusterShardCount(ThreeShards) == Ok(3);
    SanityShape(FoldGroup(rs, AggregateRes).value, ThreeShards);
  }
}
