/**
 * The whole gears-summary job of the aggregation script:
 *
 *   GB('ShardsIDReader')
 *     .flatmap(dump the registrations of each shard)
 *     .aggregateby(x[1], {}, AggregateRes, AggregateRes)
 *     .map(lambda x: x['value'])
 *     .foreach(CheckNumShardSanity)
 *     .map(json.dumps)
 *
 * run as one sequential pass. The `flatmap` step is `Concat`: the dumps of
 * all shards, concatenated in shard order. The replies of
 * `RG.DUMPREGISTRATIONS` (one per shard) and of `RG.INFOCLUSTER` are
 * parameters; `json.dumps` is the identity.
 */
module Pipeline {
  import opened PyValues
  import opened Decoder
  import opened Aggregation
  import opened Grouping

  /** Every registration of every shard is in the flattened stream, and nothing else is. */
  lemma {:induction false} FlattenMembers(dumps: seq<seq<Value>>)
    ensures forall s, j :: 0 <= s < |dumps| && 0 <= j < |dumps[s]| ==> dumps[s][j] in Concat(dumps)
    ensures forall x :: x in Concat(dumps) ==> exists s :: 0 <= s < |dumps| && x in dumps[s]
    decreases |dumps|
  {
    if dumps != [] {
      var init := dumps[..|dumps| - 1];
      FlattenMembers(init);
      forall s, j | 0 <= s < |dumps| && 0 <= j < |dumps[s]| ensures dumps[s][j] in Concat(dumps) {
        if s < |init| {
          assert init[s] == dumps[s];
          assert init[s][j] in Concat(init);
        } else {
          assert dumps[s][j] in dumps[|dumps| - 1];
        }
      }
      forall x | x in Concat(dumps) ensures exists s :: 0 <= s < |dumps| && x in dumps[s] {
        if x in Concat(init) {
          var s :| 0 <= s < |init| && x in init[s];
          assert init[s] == dumps[s];
        } else {
          assert x in dumps[|dumps| - 1];
        }
      }
    }
  }

  /** Every id of the grouping state has an accumulator. */
  predicate Listed(g: Groups) {
    forall k :: k in g.keys ==> k in g.accs
  }

  /** The `map(lambda x: x['value'])` step: the accumulators, in the order of the ids. */
  function Values(g: Groups): (r: seq<Value>)
    requires Listed(g)
    ensures |r| == |g.keys|
    ensures forall i :: 0 <= i < |r| ==> r[i] == g.accs[g.keys[i]]
  {
    seq(|g.keys|, i requires 0 <= i < |g.keys| => g.accs[g.keys[i]])
  }

  /** `CheckNumShardSanity` against the `RG.INFOCLUSTER` reply `info`, as a per-record step. */
  function Check(info: Value): Value -> Result<Value> {
    v => CheckNumShardSanity(v, info)
  }

  /** The `foreach(CheckNumShardSanity)` step over the merged records, in order. */
  function SanityAll(vs: seq<Value>, info: Value): Result<seq<Value>> {
    MapAll(vs, Check(info))
  }

  /** The list of JSON records the job returns; a Python exception aborts it. */
  function RunJob(dumps: seq<seq<Value>>, info: Value): Result<seq<Value>> {
    var xs := Concat(dumps);
    var g :- AggregateByFrom(xs, AggregateRes);
    AggregateByShape(xs, AggregateRes);
    SanityAll(Values(g), info)
  }

  /** `RG.INFOCLUSTER` answered something `CheckNumShardSanity` can read. */
  predicate InfoReadable(info: Value) {
    info == Str(NoClusterMode) || ClusterShardCount(info).Ok?
  }

  /** Every merged record passes the check, and the output holds the checked records in order. */
  lemma SanityAllShape(vs: seq<Value>, info: Value)
    requires InfoReadable(info)
    requires forall i :: 0 <= i < |vs| ==> Accumulator(vs[i])
    ensures SanityAll(vs, info).Ok?
    ensures |SanityAll(vs, info).value| == |vs|
    ensures forall i :: 0 <= i < |vs| ==> Ok(SanityAll(vs, info).value[i]) == CheckNumShardSanity(vs[i], info)
  {
    forall i | 0 <= i < |vs| ensures Check(info)(vs[i]).Ok? {
      SanityShape(vs[i], info);
    }
    MapAllShape(vs, Check(info));
  }

  /** Every record of a group comes from the stream, so it is well formed if all of them are. */
  lemma {:induction false} GroupWellFormed(xs: seq<Value>, k: Value)
    requires AllWellFormed(xs)
    ensures AllWellFormed(Group(xs, k))
    decreases |xs|
  {
    if xs != [] {
      var init := xs[..|xs| - 1];
      assert AllWellFormed(init) by {
        forall i | 0 <= i < |init| ensures DecodesWellFormed(init[i]) {
          assert init[i] == xs[i];
        }
      }
      GroupWellFormed(init, k);
      assert DecodesWellFormed(xs[|xs| - 1]);
    }
  }

  /** An id that occurs has at least one record. */
  lemma {:induction false} GroupNonEmpty(xs: seq<Value>, k: Value)
    requires k in Ids(xs)
    ensures Group(xs, k) != []
    decreases |xs|
  {
    IdsStep(xs);
    var init := xs[..|xs| - 1];
    if KeyOf(xs[|xs| - 1]) != Ok(k) {
      GroupNonEmpty(init, k);
    }
  }

  /** The shard count the cluster reports, or none outside cluster mode. */
  function Expected(info: Value): Option<nat> {
    if info == Str(NoClusterMode) then None
    else match ClusterShardCount(info)
      case Ok(n) => Some(n)
      case Err(_) => None
  }

  /** The warnings one record gets: one if the cluster reports a different number of shards. */
  function Warnings(n: int, info: Value): seq<Value> {
    if Expected(info).Some? && n != Expected(info).value then [Str(ShardWarning)] else []
  }

  /** The sanity check on a merged record, with its warning written as `Warnings`. */
  lemma SanityWarnings(a: Value, info: Value)
    requires Accumulator(a) && InfoReadable(info)
    ensures CheckNumShardSanity(a, info).Ok?
    ensures var o := CheckNumShardSanity(a, info).value;
            && Accumulator(o)
            && Shards(o) == Shards(a)
            && (forall t :: Counter(o, t) == Counter(a, t))
            && Errors(o) == Errors(a) + Warnings(Shards(a), info)
            && Rest(o) == Rest(a) && RdRest(o) == RdRest(a)
  {
    SanityShape(a, info);
    if info == Str(NoClusterMode) {
      assert Errors(a) + [] == Errors(a);
    }
  }

  /**
   * `o` is the job's record for the group `grp`: `NumShards` counts the
   * group's records, each counter is their sum, `lastError` is their
   * normalised errors in stream order followed by the shard warning if any,
   * and every other field, at the top level and inside `RegistrationData`,
   * is the first record's.
   */
  ghost predicate Reports(o: Value, grp: seq<Value>, info: Value)
    requires grp != [] && AllWellFormed(grp)
  {
    && Accumulator(o)
    && Shards(o) == |grp|
    && (forall t :: Counter(o, t) == SumCounter(grp, t))
    && Errors(o) == AllErrors(grp) + Warnings(|grp|, info)
    && Rest(o) == Rest(Decode(grp[0], 0).value)
    && RdRest(o) == RdRest(Decode(grp[0], 0).value)
  }

  /** The job's record for one id: the fold of its group, then the sanity check. */
  lemma OneRecord(grp: seq<Value>, info: Value)
    requires grp != [] && AllWellFormed(grp) && InfoReadable(info)
    ensures FoldGroup(grp, AggregateRes).Ok? && CheckNumShardSanity(FoldGroup(grp, AggregateRes).value, info).Ok?
    ensures Reports(CheckNumShardSanity(FoldGroup(grp, AggregateRes).value, info).value, grp, info)
  {
    FoldGroupShape(grp);
    SanityReports(FoldGroup(grp, AggregateRes).value, grp, info);
  }

  /** The sanity check turns a summary of a group into the job's record for it. */
  lemma SanityReports(a: Value, grp: seq<Value>, info: Value)
    requires grp != [] && AllWellFormed(grp) && Summarises(a, grp) && InfoReadable(info)
    ensures CheckNumShardSanity(a, info).Ok? && Reports(CheckNumShardSanity(a, info).value, grp, info)
  {
    SanityWarnings(a, info);
  }

  /**
   * The job on well-formed registrations that all carry an id, with an
   * `RG.INFOCLUSTER` reply it can read: one record per distinct id, in
   * first-appearance order. Each record counts the registrations with that
   * id in `NumShards`, sums their counters, concatenates their errors in
   * stream order, keeps the first one's other fields, and gets the shard
   * warning exactly when, in cluster mode, that count differs from the
   * cluster's number of shards.
   */
  lemma JobShape(dumps: seq<seq<Value>>, info: Value)
    requires AllKeyed(Concat(dumps)) && AllWellFormed(Concat(dumps)) && InfoReadable(info)
    ensures RunJob(dumps, info).Ok? && AggregateByFrom(Concat(dumps), AggregateRes).Ok?
    ensures var xs := Concat(dumps);
            var ids := AggregateByFrom(xs, AggregateRes).value.keys;
            var out := RunJob(dumps, info).value;
            && Distinct(ids) && (forall k :: k in ids <==> k in Ids(xs)) && FirstSeenOrder(ids, xs)
            && |out| == |ids|
            && forall i :: 0 <= i < |out| ==>
                 var grp := Group(xs, ids[i]);
                 var o := out[i];
                 && grp != [] && AllWellFormed(grp)
                 && Reports(o, grp, info)
  {
    var xs := Concat(dumps);
    assert GroupsFold(xs, AggregateRes) by {
      forall k | k in Ids(xs) ensures FoldGroup(Group(xs, k), AggregateRes).Ok? {
        GroupNonEmpty(xs, k);
        GroupWellFormed(xs, k);
        FoldGroupShape(Group(xs, k));
      }
    }
    AggregateByShape(xs, AggregateRes);
    AggregateByOrder(xs, AggregateRes);
    var g := AggregateByFrom(xs, AggregateRes).value;
    var vs := Values(g);
    assert forall i :: 0 <= i < |vs| ==> vs[i] == FoldGroup(Group(xs, g.keys[i]), AggregateRes).value;
    forall i | 0 <= i < |vs| ensures Accumulator(vs[i]) {
      assert g.keys[i] in g.keys;
      GroupNonEmpty(xs, g.keys[i]);
      GroupWellFormed(xs, g.keys[i]);
      FoldGroupShape(Group(xs, g.keys[i]));
    }
    SanityAllShape(vs, info);
    assert RunJob(dumps, info) == SanityAll(vs, info);
    var out := RunJob(dumps, info).value;
    forall i | 0 <= i < |out|
      ensures var grp := Group(xs, g.keys[i]);
              var o := out[i];
              && grp != [] && AllWellFormed(grp)
              && Reports(o, grp, info)
    {
      var grp := Group(xs, g.keys[i]);
      assert g.keys[i] in g.keys;
      GroupNonEmpty(xs, g.keys[i]);
      GroupWellFormed(xs, g.keys[i]);
      OneRecord(grp, info);
    }
  }

  /** Records taken from records that all carry an id all carry one. */
  lemma KeyedFrom(xs: seq<Value>, ys: seq<Value>)
    requires AllKeyed(xs) && multiset(ys) <= multiset(xs)
    ensures AllKeyed(ys)
  {
    forall i | 0 <= i < |ys| ensures KeyOf(ys[i]).Ok? {
      assert ys[i] in multiset(ys);
      var p :| 0 <= p < |xs| && xs[p] == ys[i];
    }
  }

  /** Streams with the same registrations have the same ids. */
  lemma IdsPermute(xs: seq<Value>, ys: seq<Value>)
    requires multiset(xs) == multiset(ys)
    ensures Ids(xs) == Ids(ys)
  {
    forall k | k in Ids(xs) ensures k in Ids(ys) {
      var p :| 0 <= p < |xs| && KeyOf(xs[p]).Ok? && KeyOf(xs[p]).value == k;
      assert xs[p] in multiset(ys);
      var q :| 0 <= q < |ys| && ys[q] == xs[p];
    }
    forall k | k in Ids(ys) ensures k in Ids(xs) {
      var q :| 0 <= q < |ys| && KeyOf(ys[q]).Ok? && KeyOf(ys[q]).value == k;
      assert ys[q] in multiset(xs);
      var p :| 0 <= p < |xs| && xs[p] == ys[q];
    }
  }

  /** Two records of the job agree on `NumShards` and on every counter. */
  ghost predicate SameTotals(o: Value, o': Value)
    requires Accumulator(o) && Accumulator(o')
  {
    Shards(o) == Shards(o') && forall t :: Counter(o, t) == Counter(o', t)
  }

  /**
   * Shuffling the registrations, within and across shards, leaves the job's
   * answer the same up to order: the same ids, and for each id the same
   * `NumShards` and counter sums.
   */
  lemma ShuffledJob(dumps: seq<seq<Value>>, dumps': seq<seq<Value>>, info: Value)
    requires AllKeyed(Concat(dumps)) && AllWellFormed(Concat(dumps)) && InfoReadable(info)
    requires multiset(Concat(dumps)) == multiset(Concat(dumps'))
    ensures RunJob(dumps, info).Ok? && AggregateByFrom(Concat(dumps), AggregateRes).Ok?
    ensures RunJob(dumps', info).Ok? && AggregateByFrom(Concat(dumps'), AggregateRes).Ok?
    ensures var ids := AggregateByFrom(Concat(dumps), AggregateRes).value.keys;
            var ids' := AggregateByFrom(Concat(dumps'), AggregateRes).value.keys;
            var out, out' := RunJob(dumps, info).value, RunJob(dumps', info).value;
            && |out| == |ids| && |out'| == |ids'|
            && (forall k :: k in ids <==> k in ids')
            && forall i, j :: 0 <= i < |ids| && 0 <= j < |ids'| && ids[i] == ids'[j] ==>
                 Accumulator(out[i]) && Accumulator(out'[j]) && SameTotals(out[i], out'[j])
  {
    var xs, ys := Concat(dumps), Concat(dumps');
    KeyedFrom(xs, ys);
    WellFormedFrom(xs, ys);
    IdsPermute(xs, ys);
    JobShape(dumps, info);
    JobShape(dumps', info);
    var ids := AggregateByFrom(xs, AggregateRes).value.keys;
    var ids' := AggregateByFrom(ys, AggregateRes).value.keys;
    var out, out' := RunJob(dumps, info).value, RunJob(dumps', info).value;
    forall i, j | 0 <= i < |ids| && 0 <= j < |ids'| && ids[i] == ids'[j]
      ensures Accumulator(out[i]) && Accumulator(out'[j]) && SameTotals(out[i], out'[j])
    {
      ShuffleKeepsTotals(xs, ys, ids[i]);
    }
  }

  /** A registration without an id slot aborts the whole job. */
  lemma JobNeedsIds(dumps: seq<seq<Value>>, info: Value, i: nat)
    requires i < |Concat(dumps)| && KeyOf(Concat(dumps)[i]).Err?
    ensures RunJob(dumps, info).Err?
  {
    AggregateByShape(Concat(dumps), AggregateRes);
  }

  /**
   * The job with mutable state: the stream is collected shard by shard, the
   * grouping pass runs, then each merged record is checked in place.
   */
  method Execute(dumps: seq<seq<Value>>, info: Value) returns (r: Result<seq<Value>>)
    ensures r == RunJob(dumps, info)
  {
    var xs: seq<Value> := [];
    var s := 0;
    while s < |dumps|
      invariant 0 <= s <= |dumps|
      invariant xs == Concat(dumps[..s])
    {
      assert dumps[..s + 1][..s] == dumps[..s];
      xs := xs + dumps[s];
      s := s + 1;
    }
    assert dumps[..s] == dumps;
    var grouped := AggregateBy(xs, AggregateRes);
    if grouped.Err? {
      return Err(grouped.error);
    }
    GroupingListed(xs);
    var vs := Values(grouped.value);
    r := PushEach(vs, Check(info), []);
    if r.Ok? {
      assert [] + MapAll(vs, Check(info)).value == MapAll(vs, Check(info)).value;
    }
  }

  /** A grouping that succeeds lists an accumulator for each of its ids. */
  lemma GroupingListed(xs: seq<Value>)
    requires AggregateByFrom(xs, AggregateRes).Ok?
    ensures Listed(AggregateByFrom(xs, AggregateRes).value)
  {
    AggregateByShape(xs, AggregateRes);
  }

  /**
   * The reduce phase folds the per-shard accumulators with the same
   * `AggregateRes`. An accumulator is already a dictionary, so decoding
   * leaves it as it is, and every folded value adds exactly one to
   * `NumShards`, whatever its own `NumShards` says: the result counts the
   * partial results, not the shards behind them. The counters and errors are
   * combined as for raw records.
   */
  lemma ReduceCountsPartials(ps: seq<Value>)
    requires ps != [] && forall i :: 0 <= i < |ps| ==> Accumulator(ps[i])
    ensures AllWellFormed(ps) && FoldGroup(ps, AggregateRes).Ok?
    ensures Summarises(FoldGroup(ps, AggregateRes).value, ps)
  {
    AccumulatorsDecode(ps);
    FoldGroupShape(ps);
  }

  /** An accumulator is a dictionary, which decoding leaves as it is. */
  lemma AccumulatorsDecode(ps: seq<Value>)
    requires forall i :: 0 <= i < |ps| ==> Accumulator(ps[i])
    ensures AllWellFormed(ps)
  {
    forall i | 0 <= i < |ps| ensures DecodesWellFormed(ps[i]) {
      assert Decode(ps[i], 0) == Ok(ps[i]);
    }
  }
}
