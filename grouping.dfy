/**
 * The `aggregateby(lambda x: x[1], {}, AggregateRes, AggregateRes)` step of
 * the aggregation script, run as one sequential pass: every raw record is
 * grouped by its id slot `x[1]` and each group is left-folded through
 * `AggregateRes` from `{}`.
 */
module Grouping {
  import opened PyValues
  import opened Decoder
  import opened Aggregation

  // ---------------------------------------------------------------------------
  // Folding one group
  // ---------------------------------------------------------------------------

  /** A reducer of `aggregateby`: folds one raw record into an accumulator. */
  type Reducer = (Value, Value) -> Result<Value>

  /** The left fold of the reducer `f` over `rs`, starting from `{}`. */
  function FoldGroup(rs: seq<Value>, f: Reducer): Result<Value>
    decreases |rs|
  {
    if rs == [] then Ok(EmptyDict)
    else
      var a :- FoldGroup(rs[..|rs| - 1], f);
      f(a, rs[|rs| - 1])
  }

  /** `x` decodes to a record the merge accepts. */
  predicate DecodesWellFormed(x: Value) {
    Decode(x, 0).Ok? && WellFormed(Decode(x, 0).value)
  }

  ghost predicate AllWellFormed(rs: seq<Value>) {
    forall i :: 0 <= i < |rs| ==> DecodesWellFormed(rs[i])
  }

  /** The sum of one counter over the decoded records. */
  function SumCounter(rs: seq<Value>, t: Tally): int
    requires AllWellFormed(rs)
    decreases |rs|
  {
    if rs == [] then 0
    else
      var last := rs[|rs| - 1];
      SumCounter(rs[..|rs| - 1], t) + Counter(Decode(last, 0).value, t)
  }

  /** The normalised errors of the decoded records, concatenated in order. */
  function AllErrors(rs: seq<Value>): seq<Value>
    requires AllWellFormed(rs)
    decreases |rs|
  {
    if rs == [] then []
    else
      var last := rs[|rs| - 1];
      AllErrors(rs[..|rs| - 1]) + Normalise(ErrorOf(Decode(last, 0).value))
  }

  /**
   * `a` summarises the records `rs`: `NumShards` is their number, each
   * counter is the sum over them, `lastError` is the concatenation of their
   * normalised errors in order, and every other field is the first record's.
   */
  ghost predicate Summarises(a: Value, rs: seq<Value>)
    requires rs != [] && AllWellFormed(rs)
  {
    var first := Decode(rs[0], 0).value;
    && Accumulator(a)
    && Shards(a) == |rs|
    && (forall t :: Counter(a, t) == SumCounter(rs, t))
    && Errors(a) == AllErrors(rs)
    && Rest(a) == Rest(first) && RdRest(a) == RdRest(first)
  }

  /** Folding a non-empty group of well-formed records through `AggregateRes` succeeds and summarises them. */
  lemma {:induction false} FoldGroupShape(rs: seq<Value>)
    requires rs != [] && AllWellFormed(rs)
    ensures FoldGroup(rs, AggregateRes).Ok?
    ensures Summarises(FoldGroup(rs, AggregateRes).value, rs)
    decreases |rs|
  {
    if |rs| == 1 {
      FoldOne(rs);
    } else {
      InitWellFormed(rs);
      FoldGroupShape(rs[..|rs| - 1]);
      FoldMore(rs);
    }
  }

  /** The fold of one well-formed record is its seed. */
  lemma FoldOne(rs: seq<Value>)
    requires |rs| == 1 && AllWellFormed(rs)
    ensures FoldGroup(rs, AggregateRes).Ok?
    ensures Summarises(FoldGroup(rs, AggregateRes).value, rs)
  {
    var x := rs[0];
    assert rs[..0] == [];
    assert DecodesWellFormed(x);
    assert FoldGroup(rs, AggregateRes) == AggregateRes(EmptyDict, x);
    SeedAccumulator(x);
    assert AllErrors(rs) == AllErrors([]) + Normalise(ErrorOf(Decode(x, 0).value));
  }

  /** The sums and the errors of `rs` are those of all but its last record, plus the last record's. */
  lemma SummaryStep(rs: seq<Value>)
    requires rs != [] && AllWellFormed(rs)
    ensures AllWellFormed(rs[..|rs| - 1])
    ensures var r := Decode(rs[|rs| - 1], 0).value;
            var init := rs[..|rs| - 1];
            && (forall t :: SumCounter(rs, t) == SumCounter(init, t) + Counter(r, t))
            && AllErrors(rs) == AllErrors(init) + Normalise(ErrorOf(r))
  {
    InitWellFormed(rs);
  }

  /** Every record but the last of a well-formed sequence is well formed. */
  lemma InitWellFormed(rs: seq<Value>)
    requires rs != [] && AllWellFormed(rs)
    ensures AllWellFormed(rs[..|rs| - 1])
  {
    var init := rs[..|rs| - 1];
    forall i | 0 <= i < |init| ensures DecodesWellFormed(init[i]) {
      assert init[i] == rs[i];
    }
  }

  /** Merging the last record into a summary of the records before it summarises them all. */
  lemma FoldMore(rs: seq<Value>)
    requires |rs| > 1 && AllWellFormed(rs)
    requires AllWellFormed(rs[..|rs| - 1])
    requires FoldGroup(rs[..|rs| - 1], AggregateRes).Ok?
    requires Summarises(FoldGroup(rs[..|rs| - 1], AggregateRes).value, rs[..|rs| - 1])
    ensures FoldGroup(rs, AggregateRes).Ok?
    ensures Summarises(FoldGroup(rs, AggregateRes).value, rs)
  {
    FoldGroupLast(rs, AggregateRes);
    SummaryExtends(FoldGroup(rs[..|rs| - 1], AggregateRes).value, rs);
  }

  /** Once the records before the last one have folded, the fold of `rs` reduces the last one into that result. */
  lemma FoldGroupLast(rs: seq<Value>, f: Reducer)
    requires rs != [] && FoldGroup(rs[..|rs| - 1], f).Ok?
    ensures FoldGroup(rs, f) == f(FoldGroup(rs[..|rs| - 1], f).value, rs[|rs| - 1])
  {
  }

  /** Merging the last record of `rs` into a summary of the ones before it summarises them all. */
  lemma SummaryExtends(a: Value, rs: seq<Value>)
    requires |rs| > 1 && AllWellFormed(rs)
    requires AllWellFormed(rs[..|rs| - 1]) && Summarises(a, rs[..|rs| - 1])
    ensures AggregateRes(a, rs[|rs| - 1]).Ok?
    ensures Summarises(AggregateRes(a, rs[|rs| - 1]).value, rs)
  {
    assert rs[..|rs| - 1][0] == rs[0];
    assert DecodesWellFormed(rs[|rs| - 1]);
    SummaryStep(rs);
    MergeShape(a, rs[|rs| - 1]);
  }

  /** Once the fold of a prefix has failed, the fold of the whole group fails. */
  lemma {:induction false} FoldGroupErrPersists(rs: seq<Value>, k: nat, f: Reducer)
    requires k <= |rs| && FoldGroup(rs[..k], f).Err?
    ensures FoldGroup(rs, f).Err?
    decreases |rs| - k
  {
    if k < |rs| {
      assert rs[..k + 1][..k] == rs[..k];
      FoldGroupErrPersists(rs, k + 1, f);
    } else {
      assert rs[..k] == rs;
    }
  }

  /** The first record of `rs` that is not well formed, at `k > 0`, makes the fold of `rs[..k + 1]` fail. */
  lemma FoldPrefixRejected(rs: seq<Value>, k: nat)
    requires 0 < k < |rs| && AllWellFormed(rs[..k]) && !DecodesWellFormed(rs[k])
    ensures FoldGroup(rs[..k + 1], AggregateRes).Err?
  {
    var prefix := rs[..k + 1];
    assert prefix[..k] == rs[..k];
    FoldGroupShape(rs[..k]);
    MergeShape(FoldGroup(rs[..k], AggregateRes).value, rs[k]);
  }

  /** A failure of the fold at record `k` is a failure of the whole group. */
  lemma FoldGroupFailsAt(rs: seq<Value>, k: nat)
    requires k < |rs| && FoldGroup(rs[..k + 1], AggregateRes).Err?
    ensures FoldGroup(rs, AggregateRes).Err?
  {
    FoldGroupErrPersists(rs, k + 1, AggregateRes);
  }

  /**
   * A group fails as soon as a record after the first does not decode to a
   * well-formed record, even when every record before it was well formed.
   */
  lemma FoldGroupRejects(rs: seq<Value>, k: nat)
    requires 0 < k < |rs| && AllWellFormed(rs[..k]) && !DecodesWellFormed(rs[k])
    ensures FoldGroup(rs, AggregateRes).Err?
  {
    FoldPrefixRejected(rs, k);
    FoldGroupFailsAt(rs, k);
  }

  // ---------------------------------------------------------------------------
  // Grouping by id
  // ---------------------------------------------------------------------------

  /** The grouping key `x[1]`: the id of a raw registration. */
  function KeyOf(x: Value): Result<Value> {
    Index(x, 1)
  }

  /**
   * The state of `aggregateby`: the keys in the order they were first seen
   * and the accumulator of each key.
   */
  datatype Groups = Groups(keys: seq<Value>, accs: map<Value, Value>)

  /** One record into the grouping: its key's accumulator, `{}` if the key is new, absorbs it. */
  function GroupStep(g: Groups, x: Value, f: Reducer): Result<Groups> {
    var k :- KeyOf(x);
    var a := if k in g.accs then g.accs[k] else EmptyDict;
    var a' :- f(a, x);
    Ok(Groups(if k in g.accs then g.keys else g.keys + [k], g.accs[k := a']))
  }

  /** `aggregateby(lambda x: x[1], {}, AggregateRes, ...)` over `xs`, as one sequential pass. */
  function AggregateByFrom(xs: seq<Value>, f: Reducer): Result<Groups>
    decreases |xs|
  {
    if xs == [] then Ok(Groups([], map[]))
    else
      var g :- AggregateByFrom(xs[..|xs| - 1], f);
      GroupStep(g, xs[|xs| - 1], f)
  }

  /** The records of `xs` whose key is `k`, in order. */
  function Group(xs: seq<Value>, k: Value): (r: seq<Value>)
    ensures |r| <= |xs|
    ensures forall i :: 0 <= i < |r| ==> KeyOf(r[i]) == Ok(k)
    decreases |xs|
  {
    if xs == [] then []
    else
      var last := xs[|xs| - 1];
      Group(xs[..|xs| - 1], k) + (if KeyOf(last) == Ok(k) then [last] else [])
  }

  /** The keys that occur in `xs`. */
  function Ids(xs: seq<Value>): set<Value> {
    set i | 0 <= i < |xs| && KeyOf(xs[i]).Ok? :: KeyOf(xs[i]).value
  }

  ghost predicate AllKeyed(xs: seq<Value>) {
    forall i :: 0 <= i < |xs| ==> KeyOf(xs[i]).Ok?
  }

  predicate Distinct(ks: seq<Value>) {
    forall i, j :: 0 <= i < j < |ks| ==> ks[i] != ks[j]
  }

  /** A state of the grouping that faithfully describes the records `xs` read so far. */
  ghost predicate Describes(g: Groups, xs: seq<Value>, f: Reducer) {
    && KeysMatch(g)
    && g.accs.Keys == Ids(xs)
    && forall k :: k in g.accs ==> FoldGroup(Group(xs, k), f) == Ok(g.accs[k])
  }

  /** No group of `xs` fails to fold. */
  ghost predicate GroupsFold(xs: seq<Value>, f: Reducer) {
    forall k :: k in Ids(xs) ==> FoldGroup(Group(xs, k), f).Ok?
  }

  lemma IdsStep(xs: seq<Value>)
    requires xs != []
    ensures Ids(xs) == Ids(xs[..|xs| - 1]) + (if KeyOf(xs[|xs| - 1]).Ok? then {KeyOf(xs[|xs| - 1]).value} else {})
  {
    var init := xs[..|xs| - 1];
    forall k | k in Ids(init) ensures k in Ids(xs) {
      var i :| 0 <= i < |init| && KeyOf(init[i]).Ok? && KeyOf(init[i]).value == k;
      assert xs[i] == init[i];
    }
    forall k | k in Ids(xs) ensures k in Ids(init) || (KeyOf(xs[|xs| - 1]).Ok? && k == KeyOf(xs[|xs| - 1]).value) {
      var i :| 0 <= i < |xs| && KeyOf(xs[i]).Ok? && KeyOf(xs[i]).value == k;
      if i < |init| {
        assert init[i] == xs[i];
      }
    }
  }

  /** A key that does not occur has an empty group. */
  lemma {:induction false} GroupEmpty(xs: seq<Value>, k: Value)
    requires k !in Ids(xs)
    ensures Group(xs, k) == []
    decreases |xs|
  {
    if xs != [] {
      IdsStep(xs);
      GroupEmpty(xs[..|xs| - 1], k);
    }
  }

  /** Folding one more record onto a group that folds to `a` merges that record into `a`. */
  lemma FoldGroupSnoc(rs: seq<Value>, x: Value, a: Value, f: Reducer)
    requires FoldGroup(rs, f) == Ok(a)
    ensures FoldGroup(rs + [x], f) == f(a, x)
  {
    assert (rs + [x])[..|rs|] == rs;
  }

  /** A group that fails to fold still fails with one more record. */
  lemma FoldGroupSnocErr(rs: seq<Value>, x: Value, f: Reducer)
    requires FoldGroup(rs, f).Err?
    ensures FoldGroup(rs + [x], f).Err?
  {
    assert (rs + [x])[..|rs|] == rs;
  }

  /** Appending a record grows only its own key's group. */
  lemma GroupSnoc(xs: seq<Value>, x: Value, k: Value)
    ensures Group(xs + [x], k) == Group(xs, k) + (if KeyOf(x) == Ok(k) then [x] else [])
  {
    assert (xs + [x])[..|xs|] == xs;
  }

  /** The key list holds every key of the grouping state once, and nothing else. */
  ghost predicate KeysMatch(g: Groups) {
    Distinct(g.keys) && forall k :: k in g.keys <==> k in g.accs
  }

  /** Storing an accumulator under `k` keeps the key list and key set in step. */
  lemma KeysInsert(g: Groups, k: Value, a: Value)
    requires KeysMatch(g)
    ensures KeysMatch(Groups(if k in g.accs then g.keys else g.keys + [k], g.accs[k := a]))
  {
    if k !in g.accs {
      forall i | 0 <= i < |g.keys| ensures g.keys[i] != k {
        assert g.keys[i] in g.keys;
      }
    }
  }

  /** The accumulator a step starts from is the fold of the key's group so far. */
  lemma StepStart(g: Groups, xs: seq<Value>, k: Value, f: Reducer)
    requires Describes(g, xs, f)
    ensures FoldGroup(Group(xs, k), f) == Ok(if k in g.accs then g.accs[k] else EmptyDict)
  {
    if k !in g.accs {
      GroupEmpty(xs, k);
    }
  }

  /** The new record's own group grows by that record, so its fold absorbs it. */
  lemma OwnGroupStep(g: Groups, xs: seq<Value>, x: Value, k: Value, f: Reducer)
    requires Describes(g, xs, f) && KeyOf(x) == Ok(k)
    ensures FoldGroup(Group(xs + [x], k), f) == f(if k in g.accs then g.accs[k] else EmptyDict, x)
  {
    StepStart(g, xs, k, f);
    GroupSnoc(xs, x, k);
    FoldGroupSnoc(Group(xs, k), x, if k in g.accs then g.accs[k] else EmptyDict, f);
  }

  /** Every other key's group is unchanged by the new record. */
  lemma OtherGroupsStep(xs: seq<Value>, x: Value, k: Value, accs: map<Value, Value>, f: Reducer)
    requires KeyOf(x) == Ok(k)
    requires forall k' :: k' in accs ==> FoldGroup(Group(xs, k'), f) == Ok(accs[k'])
    ensures forall k' :: k' in accs && k' != k ==> FoldGroup(Group(xs + [x], k'), f) == Ok(accs[k'])
  {
    forall k' | k' in accs && k' != k
      ensures FoldGroup(Group(xs + [x], k'), f) == Ok(accs[k'])
    {
      GroupSnoc(xs, x, k');
      assert Group(xs, k') + [] == Group(xs, k');
    }
  }

  /** Storing an accumulator under the new record's key keeps the key set equal to the ids read. */
  lemma InsertIds(accs: map<Value, Value>, xs: seq<Value>, x: Value, k: Value, a: Value)
    requires accs.Keys == Ids(xs) && KeyOf(x) == Ok(k)
    ensures accs[k := a].Keys == Ids(xs + [x])
  {
    var ys := xs + [x];
    assert ys[..|ys| - 1] == xs;
    IdsStep(ys);
  }

  /** Storing the new fold of the record's group keeps every group's fold in its slot. */
  lemma InsertFolds(accs: map<Value, Value>, xs: seq<Value>, x: Value, k: Value, a: Value, f: Reducer)
    requires KeyOf(x) == Ok(k)
    requires forall k' :: k' in accs ==> FoldGroup(Group(xs, k'), f) == Ok(accs[k'])
    requires FoldGroup(Group(xs + [x], k), f) == Ok(a)
    ensures forall k' :: k' in accs[k := a] ==> FoldGroup(Group(xs + [x], k'), f) == Ok(accs[k := a][k'])
  {
    OtherGroupsStep(xs, x, k, accs, f);
  }

  /** Storing the new fold of the record's group keeps the grouping state faithful. */
  lemma InsertDescribes(g: Groups, xs: seq<Value>, x: Value, k: Value, a: Value, f: Reducer)
    requires Describes(g, xs, f) && KeyOf(x) == Ok(k)
    requires FoldGroup(Group(xs + [x], k), f) == Ok(a)
    ensures Describes(Groups(if k in g.accs then g.keys else g.keys + [k], g.accs[k := a]), xs + [x], f)
  {
    KeysInsert(g, k, a);
    InsertIds(g.accs, xs, x, k, a);
    InsertFolds(g.accs, xs, x, k, a, f);
  }

  /** One successful step keeps the grouping state faithful. */
  lemma GroupStepDescribes(g: Groups, xs: seq<Value>, x: Value, f: Reducer)
    requires Describes(g, xs, f)
    requires GroupStep(g, x, f).Ok?
    ensures Describes(GroupStep(g, x, f).value, xs + [x], f)
  {
    var k := KeyOf(x).value;
    var a := if k in g.accs then g.accs[k] else EmptyDict;
    OwnGroupStep(g, xs, x, k, f);
    InsertDescribes(g, xs, x, k, f(a, x).value, f);
  }

  /** A failed step: the new record's key cannot be read, or its own group does not fold, so the records read so far fail. */
  lemma GroupStepFails(g: Groups, xs: seq<Value>, x: Value, f: Reducer)
    requires Describes(g, xs, f)
    requires GroupStep(g, x, f).Err?
    ensures KeyOf(x).Err? || FoldGroup(Group(xs + [x], KeyOf(x).value), f).Err?
    ensures !AllKeyed(xs + [x]) || !GroupsFold(xs + [x], f)
  {
    var ys := xs + [x];
    assert ys[|ys| - 1] == x;
    if KeyOf(x).Ok? {
      var k := KeyOf(x).value;
      var a := if k in g.accs then g.accs[k] else EmptyDict;
      assert f(a, x).Err?;
      assert ys[..|ys| - 1] == xs;
      IdsStep(ys);
      OwnGroupStep(g, xs, x, k, f);
      assert FoldGroup(Group(ys, k), f).Err?;
    }
  }

  /** A failure before the last record is kept. */
  lemma PrefixFails(xs: seq<Value>, x: Value, f: Reducer)
    requires !AllKeyed(xs) || !GroupsFold(xs, f)
    ensures !AllKeyed(xs + [x]) || !GroupsFold(xs + [x], f)
  {
    var ys := xs + [x];
    if !AllKeyed(xs) {
      var i :| 0 <= i < |xs| && KeyOf(xs[i]).Err?;
      assert ys[i] == xs[i];
    } else {
      var k :| k in Ids(xs) && FoldGroup(Group(xs, k), f).Err?;
      assert ys[..|ys| - 1] == xs;
      IdsStep(ys);
      GroupSnoc(xs, x, k);
      if KeyOf(x) == Ok(k) {
        FoldGroupSnocErr(Group(xs, k), x, f);
      } else {
        assert Group(ys, k) == Group(xs, k) + [];
        assert Group(xs, k) + [] == Group(xs, k);
      }
      assert k in Ids(ys) && FoldGroup(Group(ys, k), f).Err?;
    }
  }

  /**
   * `aggregateby` succeeds exactly when every record has an id and every
   * id's group folds; then each id (listed once, in first-appearance order
   * of the listing) maps to the fold of its own records, in their order.
   */
  lemma {:induction false} AggregateByShape(xs: seq<Value>, f: Reducer)
    ensures AggregateByFrom(xs, f).Ok? <==> AllKeyed(xs) && GroupsFold(xs, f)
    ensures AggregateByFrom(xs, f).Ok? ==> Describes(AggregateByFrom(xs, f).value, xs, f)
    decreases |xs|
  {
    if xs == [] {
      assert Ids(xs) == {};
    } else {
      var init := xs[..|xs| - 1];
      var x := xs[|xs| - 1];
      assert init + [x] == xs;
      AggregateByShape(init, f);
      if AggregateByFrom(init, f).Err? {
        PrefixFails(init, x, f);
      } else {
        var g := AggregateByFrom(init, f).value;
        assert AggregateByFrom(xs, f) == GroupStep(g, x, f);
        if GroupStep(g, x, f).Ok? {
          GroupStepDescribes(g, init, x, f);
          var g' := GroupStep(g, x, f).value;
          assert AllKeyed(xs) by {
            forall i | 0 <= i < |xs| ensures KeyOf(xs[i]).Ok? {
              if i < |init| {
                assert xs[i] == init[i];
              }
            }
          }
        } else {
          GroupStepFails(g, init, x, f);
        }
      }
    }
  }

  /**
   * The grouping pass with a mutable state: the list of ids seen so far and
   * a dictionary from id to accumulator, updated one record at a time.
   */
  method AggregateBy(xs: seq<Value>, f: Reducer) returns (r: Result<Groups>)
    ensures r == AggregateByFrom(xs, f)
  {
    var keys: seq<Value> := [];
    var accs: map<Value, Value> := map[];
    var i := 0;
    while i < |xs|
      invariant 0 <= i <= |xs|
      invariant AggregateByFrom(xs[..i], f) == Ok(Groups(keys, accs))
    {
      var x := xs[i];
      AggregateByNext(xs, i, f);
      var k := KeyOf(x);
      if k.Err? {
        FoldAbortsFrom(xs, i + 1, f);
        return Err(k.error);
      }
      var id := k.value;
      var a := if id in accs then accs[id] else EmptyDict;
      var a' := f(a, x);
      if a'.Err? {
        FoldAbortsFrom(xs, i + 1, f);
        return Err(a'.error);
      }
      if id !in accs {
        keys := keys + [id];
      }
      accs := accs[id := a'.value];
      i := i + 1;
    }
    assert xs[..i] == xs;
    return Ok(Groups(keys, accs));
  }

  /** Once the grouping of a prefix has failed, the grouping fails with the same error. */
  lemma {:induction false} FoldAbortsFrom(xs: seq<Value>, k: nat, f: Reducer)
    requires k <= |xs| && AggregateByFrom(xs[..k], f).Err?
    ensures AggregateByFrom(xs, f) == AggregateByFrom(xs[..k], f)
    decreases |xs| - k
  {
    if k < |xs| {
      assert xs[..k + 1][..k] == xs[..k];
      FoldAbortsFrom(xs, k + 1, f);
    } else {
      assert xs[..k] == xs;
    }
  }

  /** The grouping of one more record is one more step. */
  lemma AggregateByNext(xs: seq<Value>, i: nat, f: Reducer)
    requires i < |xs|
    ensures AggregateByFrom(xs[..i + 1], f)
         == (if AggregateByFrom(xs[..i], f).Err? then AggregateByFrom(xs[..i], f)
             else GroupStep(AggregateByFrom(xs[..i], f).value, xs[i], f))
  {
    assert xs[..i + 1][..i] == xs[..i];
  }

  // ---------------------------------------------------------------------------
  // Order of the ids
  // ---------------------------------------------------------------------------

  /** Some record of `xs` has the key `a`, and no record up to it has the key `b`. */
  ghost predicate SeenBefore(xs: seq<Value>, a: Value, b: Value) {
    exists p :: 0 <= p < |xs| && KeyOf(xs[p]) == Ok(a) && forall q :: 0 <= q <= p ==> KeyOf(xs[q]) != Ok(b)
  }

  /** The keys `ks` are listed in the order in which they first occur in `xs`. */
  ghost predicate FirstSeenOrder(ks: seq<Value>, xs: seq<Value>) {
    forall i, j :: 0 <= i < j < |ks| ==> SeenBefore(xs, ks[i], ks[j])
  }

  /** A record appended at the end does not change which key occurs first. */
  lemma SeenBeforeSnoc(xs: seq<Value>, x: Value, a: Value, b: Value)
    requires SeenBefore(xs, a, b)
    ensures SeenBefore(xs + [x], a, b)
  {
    var ys := xs + [x];
    var p :| 0 <= p < |xs| && KeyOf(xs[p]) == Ok(a) && forall q :: 0 <= q <= p ==> KeyOf(xs[q]) != Ok(b);
    forall q | 0 <= q <= p ensures KeyOf(ys[q]) != Ok(b) {
      assert ys[q] == xs[q];
    }
    assert ys[p] == xs[p];
  }

  /** A key that has occurred comes before a key that has not. */
  lemma SeenBeforeNew(xs: seq<Value>, x: Value, a: Value, b: Value)
    requires a in Ids(xs) && b !in Ids(xs)
    ensures SeenBefore(xs + [x], a, b)
  {
    var ys := xs + [x];
    var p :| 0 <= p < |xs| && KeyOf(xs[p]).Ok? && KeyOf(xs[p]).value == a;
    forall q | 0 <= q <= p ensures KeyOf(ys[q]) != Ok(b) {
      assert ys[q] == xs[q];
      if KeyOf(xs[q]).Ok? {
        assert KeyOf(xs[q]).value in Ids(xs);
      }
    }
    assert ys[p] == xs[p];
  }

  /** A successful step lists its key at the end when the key is new, and changes nothing in the list otherwise. */
  lemma GroupStepKeys(g: Groups, x: Value, f: Reducer)
    requires GroupStep(g, x, f).Ok?
    ensures KeyOf(x).Ok?
    ensures GroupStep(g, x, f).value.keys
         == if KeyOf(x).value in g.accs then g.keys else g.keys + [KeyOf(x).value]
  {
  }

  /** The key list of a step keeps the order of first occurrence. */
  lemma StepOrder(g: Groups, xs: seq<Value>, x: Value, f: Reducer)
    requires Describes(g, xs, f) && FirstSeenOrder(g.keys, xs)
    requires GroupStep(g, x, f).Ok?
    ensures FirstSeenOrder(GroupStep(g, x, f).value.keys, xs + [x])
  {
    GroupStepKeys(g, x, f);
    var k := KeyOf(x).value;
    var ks := GroupStep(g, x, f).value.keys;
    forall i, j | 0 <= i < j < |ks| ensures SeenBefore(xs + [x], ks[i], ks[j]) {
      if j < |g.keys| {
        assert ks[i] == g.keys[i] && ks[j] == g.keys[j];
        SeenBeforeSnoc(xs, x, g.keys[i], g.keys[j]);
      } else {
        assert ks[i] == g.keys[i] && ks[j] == k && k !in g.accs;
        assert g.keys[i] in g.keys;
        SeenBeforeNew(xs, x, g.keys[i], k);
      }
    }
  }

  /** `aggregateby` lists the ids in the order in which they first occur in the stream. */
  lemma {:induction false} AggregateByOrder(xs: seq<Value>, f: Reducer)
    requires AggregateByFrom(xs, f).Ok?
    ensures FirstSeenOrder(AggregateByFrom(xs, f).value.keys, xs)
    decreases |xs|
  {
    if xs != [] {
      var init := xs[..|xs| - 1];
      var x := xs[|xs| - 1];
      assert init + [x] == xs;
      var g := AggregateByFrom(init, f).value;
      AggregateByOrder(init, f);
      AggregateByShape(init, f);
      StepOrder(g, init, x, f);
    }
  }

  // ---------------------------------------------------------------------------
  // Shuffling the stream
  // ---------------------------------------------------------------------------

  /** A record occurs in the group of `k` exactly as often as in the stream when its key is `k`, and never otherwise. */
  lemma {:induction false} GroupCount(xs: seq<Value>, k: Value, v: Value)
    ensures multiset(Group(xs, k))[v] == if KeyOf(v) == Ok(k) then multiset(xs)[v] else 0
    decreases |xs|
  {
    if xs != [] {
      var init := xs[..|xs| - 1];
      assert xs == init + [xs[|xs| - 1]];
      GroupCount(init, k, v);
    }
  }

  /** Permuting the stream permutes each group. */
  lemma GroupPermutes(xs: seq<Value>, ys: seq<Value>, k: Value)
    requires multiset(xs) == multiset(ys)
    ensures multiset(Group(xs, k)) == multiset(Group(ys, k))
  {
    forall v ensures multiset(Group(xs, k))[v] == multiset(Group(ys, k))[v] {
      GroupCount(xs, k, v);
      GroupCount(ys, k, v);
    }
  }

  /** Records taken from well-formed records are well formed. */
  lemma WellFormedFrom(rs: seq<Value>, ss: seq<Value>)
    requires AllWellFormed(rs) && multiset(ss) <= multiset(rs)
    ensures AllWellFormed(ss)
  {
    forall i | 0 <= i < |ss| ensures DecodesWellFormed(ss[i]) {
      assert ss[i] in multiset(ss);
      var p :| 0 <= p < |rs| && rs[p] == ss[i];
    }
  }

  /** The sum of a counter over two runs of records is the sum of their sums. */
  lemma {:induction false} SumCounterAppend(rs: seq<Value>, ss: seq<Value>, t: Tally)
    requires AllWellFormed(rs) && AllWellFormed(ss) && AllWellFormed(rs + ss)
    ensures SumCounter(rs + ss, t) == SumCounter(rs, t) + SumCounter(ss, t)
    decreases |ss|
  {
    if ss == [] {
      assert rs + ss == rs;
    } else {
      var init := ss[..|ss| - 1];
      InitWellFormed(ss);
      InitWellFormed(rs + ss);
      assert (rs + ss)[..|rs + ss| - 1] == rs + init;
      SumCounterAppend(rs, init, t);
    }
  }

  /** Taking record `j` out of `ss` takes its counter out of the sum. */
  lemma SumCounterRemove(ss: seq<Value>, j: nat, t: Tally)
    requires j < |ss| && AllWellFormed(ss)
    ensures AllWellFormed(ss[..j] + ss[j + 1..])
    ensures SumCounter(ss, t) == SumCounter(ss[..j] + ss[j + 1..], t) + Counter(Decode(ss[j], 0).value, t)
  {
    var left, right := ss[..j], ss[j + 1..];
    assert ss == left + [ss[j]] + right;
    WellFormedFrom(ss, left);
    WellFormedFrom(ss, right);
    WellFormedFrom(ss, left + right);
    WellFormedFrom(ss, left + [ss[j]]);
    WellFormedFrom(ss, [ss[j]]);
    SumCounterAppend(left + [ss[j]], right, t);
    SumCounterAppend(left, [ss[j]], t);
    SumCounterAppend(left, right, t);
    assert [ss[j]][..0] == [];
  }

  /** Taking the last record out of `rs` and a copy of it out of `ss` keeps their multisets equal. */
  lemma RemoveMatching(rs: seq<Value>, ss: seq<Value>, j: nat)
    requires rs != [] && multiset(rs) == multiset(ss) && j < |ss| && ss[j] == rs[|rs| - 1]
    ensures multiset(rs[..|rs| - 1]) == multiset(ss[..j] + ss[j + 1..])
  {
    var init, x, rest := rs[..|rs| - 1], rs[|rs| - 1], ss[..j] + ss[j + 1..];
    assert rs == init + [x];
    assert ss == ss[..j] + [x] + ss[j + 1..];
    assert multiset(ss) == multiset(rest) + multiset{x};
    assert multiset(rs) == multiset(init) + multiset{x};
    assert multiset(init) == multiset(rs) - multiset{x} == multiset(ss) - multiset{x} == multiset(rest);
  }

  /** The sum of a counter does not depend on the order of the records. */
  lemma {:induction false} SumCounterPermutes(rs: seq<Value>, ss: seq<Value>, t: Tally)
    requires AllWellFormed(rs) && multiset(rs) == multiset(ss)
    ensures AllWellFormed(ss) && SumCounter(rs, t) == SumCounter(ss, t)
    decreases |rs|
  {
    WellFormedFrom(rs, ss);
    if rs == [] {
      assert |ss| == |multiset(ss)| == 0;
    } else {
      var init, x := rs[..|rs| - 1], rs[|rs| - 1];
      assert x in multiset(rs);
      var j :| 0 <= j < |ss| && ss[j] == x;
      var rest := ss[..j] + ss[j + 1..];
      RemoveMatching(rs, ss, j);
      InitWellFormed(rs);
      SumCounterRemove(ss, j, t);
      SumCounterPermutes(init, rest, t);
    }
  }

  /**
   * Shuffling the stream leaves every group's number of records and counter
   * sums as they were (its errors, collected in stream order, may change
   * order).
   */
  lemma ShuffleKeepsTotals(xs: seq<Value>, ys: seq<Value>, k: Value)
    requires multiset(xs) == multiset(ys) && AllWellFormed(Group(xs, k))
    ensures AllWellFormed(Group(ys, k))
    ensures |Group(xs, k)| == |Group(ys, k)|
    ensures forall t :: SumCounter(Group(xs, k), t) == SumCounter(Group(ys, k), t)
  {
    GroupPermutes(xs, ys, k);
    WellFormedFrom(Group(xs, k), Group(ys, k));
    assert |Group(xs, k)| == |multiset(Group(xs, k))|;
    assert |Group(ys, k)| == |multiset(Group(ys, k))|;
    forall t ensures SumCounter(Group(xs, k), t) == SumCounter(Group(ys, k), t) {
      SumCounterPermutes(Group(xs, k), Group(ys, k), t);
    }
  }
}
