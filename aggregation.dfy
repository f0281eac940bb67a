/**
 * The merge step of the aggregation script, `AggregateRes`, and the view of a
 * merged registration record that its properties are stated in: the shard
 * count `NumShards`, the four counters of `RegistrationData`, its error list
 * `lastError`, and everything else, which the merge must leave alone.
 */
module Aggregation {
  import opened PyValues
  import opened Decoder

  const RegistrationData := "RegistrationData"
  const LastError := "lastError"
  const NumShards := "NumShards"
  const NumTriggered := "numTriggered"
  const NumSuccess := "numSuccess"
  const NumFailures := "numFailures"
  const NumAborted := "numAborted"

  /** The four counters of `RegistrationData` that the merge adds up. */
  datatype Tally = Triggered | Success | Failures | Aborted

  /** The key of each counter in `RegistrationData`. */
  function Name(t: Tally): string {
    match t
    case Triggered => NumTriggered
    case Success => NumSuccess
    case Failures => NumFailures
    case Aborted => NumAborted
  }

  /** The keys of `RegistrationData` that the merge writes. */
  const TrackedKeys: set<Value> :=
    {Str(LastError), Str(NumTriggered), Str(NumSuccess), Str(NumFailures), Str(NumAborted)}

  // ---------------------------------------------------------------------------
  // The record view
  // ---------------------------------------------------------------------------

  /** `v` is a dictionary whose `RegistrationData` is a dictionary. */
  predicate HasRd(v: Value) {
    v.Dict? && Str(RegistrationData) in v.entries && v.entries[Str(RegistrationData)].Dict?
  }

  function RdOf(v: Value): map<Value, Value>
    requires HasRd(v)
  {
    v.entries[Str(RegistrationData)].entries
  }

  /** `v['RegistrationData']['lastError']` exists. */
  predicate HasError(v: Value) {
    HasRd(v) && Str(LastError) in RdOf(v)
  }

  function ErrorOf(v: Value): Value
    requires HasError(v)
  {
    RdOf(v)[Str(LastError)]
  }

  /** `v['RegistrationData'][Name(t)]` exists and is an integer. */
  predicate HasCounter(v: Value, t: Tally) {
    HasRd(v) && Str(Name(t)) in RdOf(v) && RdOf(v)[Str(Name(t))].Int?
  }

  function Counter(v: Value, t: Tally): int
    requires HasCounter(v, t)
  {
    RdOf(v)[Str(Name(t))].i
  }

  /** `v` has the four integer counters. */
  predicate HasCounters(v: Value) {
    forall t: Tally :: HasCounter(v, t)
  }

  /** A decoded per-shard record the merge accepts: an error slot and four integer counters. */
  predicate WellFormed(v: Value) {
    HasError(v) && HasCounters(v)
  }

  /** A merged record: well formed, with an integer `NumShards` and a list `lastError`. */
  predicate Accumulator(v: Value) {
    WellFormed(v) && Str(NumShards) in v.entries && v.entries[Str(NumShards)].Int? && ErrorOf(v).List?
  }

  function Shards(v: Value): int
    requires Accumulator(v)
  {
    v.entries[Str(NumShards)].i
  }

  function Errors(v: Value): seq<Value>
    requires Accumulator(v)
  {
    ErrorOf(v).items
  }

  /** The top-level fields the merge does not write. */
  function Rest(v: Value): map<Value, Value>
    requires v.Dict?
  {
    v.entries - {Str(NumShards), Str(RegistrationData)}
  }

  /** The `RegistrationData` fields the merge does not write. */
  function RdRest(v: Value): map<Value, Value>
    requires HasRd(v)
  {
    RdOf(v) - TrackedKeys
  }

  /**
   * The errors one record contributes: nothing for None and for `[None]`,
   * the elements of any other list, and the value itself otherwise.
   */
  function Normalise(e: Value): (r: seq<Value>)
    ensures e == Null || e == List([Null]) ==> r == []
    ensures e.List? && e != List([Null]) ==> r == e.items
    ensures !e.List? && !e.Null? ==> r == [e]
  {
    if e == List([Null]) || e == Null then []
    else if e.List? then e.items
    else [e]
  }

  // ---------------------------------------------------------------------------
  // AggregateRes
  // ---------------------------------------------------------------------------

  /** `v['RegistrationData'][name]`. */
  function RdField(v: Value, name: string): Result<Value> {
    var rd :- GetItem(v, RegistrationData);
    GetItem(rd, name)
  }

  /** `v['RegistrationData'][name] += rhs`, reading the target before evaluating `rhs`. */
  function AugAssignRd(v: Value, name: string, rhs: Result<Value>): Result<Value> {
    var rd :- GetItem(v, RegistrationData);
    var cur :- GetItem(rd, name);
    var y :- rhs;
    var updated :- PyAdd(cur, y);
    var rd' :- SetItem(rd, name, updated);
    SetItem(v, RegistrationData, rd')
  }

  /**
   * `AggregateRes(k, a, r)`: decode `raw`; into the empty accumulator it
   * becomes the seed, otherwise it is merged into `a`. The key `k` is unused.
   */
  function AggregateRes(a: Value, raw: Value): Result<Value> {
    var r :- Decode(raw, 0);
    if a == EmptyDict then Seed(r) else Merge(a, r)
  }

  /** The seed branch: `lastError` is taken out, reset to `[]`, and put back normalised. */
  function Seed(r: Value): Result<Value> {
    var rd :- GetItem(r, RegistrationData);
    var lastError :- GetItem(rd, LastError);
    var rd1 :- SetItem(rd, LastError, List([]));
    var r1 :- SetItem(r, RegistrationData, rd1);
    var r2 :- SetItem(r1, NumShards, Int(1));
    if lastError != List([Null]) && lastError != Null then
      AugAssignRd(r2, LastError, Ok(if lastError.List? then lastError else List([lastError])))
    else
      Ok(r2)
  }

  /** The merge branch: one more shard, the counters added, the errors appended. */
  function Merge(a: Value, r: Value): Result<Value> {
    var a1 :- BumpShards(a);
    var a5 :- AddCounters(a1, r);
    AppendErrors(a5, r)
  }

  /** `a['NumShards'] += 1`. */
  function BumpShards(a: Value): Result<Value> {
    var shards :- GetItem(a, NumShards);
    var shards' :- PyAdd(shards, Int(1));
    SetItem(a, NumShards, shards')
  }

  /** `a['RegistrationData'][name] += r['RegistrationData'][name]`. */
  function AddCounter(a: Value, r: Value, t: Tally): Result<Value> {
    AugAssignRd(a, Name(t), RdField(r, Name(t)))
  }

  /** The four counter updates in the script's order. */
  function AddCounters(a: Value, r: Value): Result<Value> {
    var a2 :- AddCounter(a, r, Triggered);
    var a3 :- AddCounter(a2, r, Success);
    var a4 :- AddCounter(a3, r, Failures);
    AddCounter(a4, r, Aborted)
  }

  /** Appends `r`'s error, flattened if it is a list, unless it is None or `[None]`. */
  function AppendErrors(a: Value, r: Value): Result<Value> {
    var e :- RdField(r, LastError);
    if e != List([Null]) && e != Null then
      AugAssignRd(a, LastError, Ok(if e.List? then e else List([e])))
    else
      Ok(a)
  }

  /**
   * Seeding: merging into `{}` succeeds exactly when the decoded record has a
   * `RegistrationData` dictionary with a `lastError`; the result is that
   * record with `NumShards = 1` and `lastError` normalised, nothing else changed.
   */
  lemma SeedShape(raw: Value)
    ensures AggregateRes(EmptyDict, raw).Ok? <==> Decode(raw, 0).Ok? && HasError(Decode(raw, 0).value)
    ensures AggregateRes(EmptyDict, raw).Ok? ==>
              var r := Decode(raw, 0).value;
              AggregateRes(EmptyDict, raw).value == SeedOf(r)
  {
    if Decode(raw, 0).Ok? {
      var r := Decode(raw, 0).value;
      assert AggregateRes(EmptyDict, raw) == Seed(r);
      if HasError(r) {
        SeedClosed(r);
      }
    }
  }

  /** The seed `SeedShape` describes: `NumShards = 1` and `lastError` normalised. */
  function SeedOf(r: Value): Value
    requires HasError(r)
  {
    Dict(r.entries[Str(NumShards) := Int(1)]
                  [Str(RegistrationData) := Dict(RdOf(r)[Str(LastError) := List(Normalise(ErrorOf(r)))])])
  }

  /** The seed branch on a decoded record with an error slot. */
  lemma SeedClosed(r: Value)
    requires HasError(r)
    ensures Seed(r) == Ok(SeedOf(r))
  {
    var e := ErrorOf(r);
    var rd1 := RdOf(r)[Str(LastError) := List([])];
    var r2 := r.entries[Str(RegistrationData) := Dict(rd1)][Str(NumShards) := Int(1)];
    var n := Normalise(e);
    var want := SeedOf(r);
    assert rd1[Str(LastError) := List(n)] == RdOf(r)[Str(LastError) := List(n)];
    assert r2[Str(RegistrationData) := Dict(RdOf(r)[Str(LastError) := List(n)])] == want.entries;
    if e != List([Null]) && e != Null {
      var extra := if e.List? then e else List([e]);
      assert [] + extra.items == n;
      assert Seed(r) == AugAssignRd(Dict(r2), LastError, Ok(extra));
    } else {
      assert rd1 == RdOf(r)[Str(LastError) := List(n)];
      assert Seed(r) == Ok(Dict(r2));
      assert r2 == want.entries;
    }
  }

  /**
   * Seeding with a well-formed record, in terms of the record view: a merged
   * record with one shard, the record's counters, its normalised errors and
   * all its other fields.
   */
  lemma SeedAccumulator(raw: Value)
    requires Decode(raw, 0).Ok? && WellFormed(Decode(raw, 0).value)
    ensures AggregateRes(EmptyDict, raw).Ok?
    ensures var r := Decode(raw, 0).value;
            var s := AggregateRes(EmptyDict, raw).value;
            && Accumulator(s)
            && Shards(s) == 1
            && (forall t :: Counter(s, t) == Counter(r, t))
            && Errors(s) == Normalise(ErrorOf(r))
            && Rest(s) == Rest(r) && RdRest(s) == RdRest(r)
  {
    SeedShape(raw);
    SeedView(Decode(raw, 0).value);
  }

  /** The seed of a well-formed record, `SeedShape`'s closed form, read through the record view. */
  lemma SeedView(r: Value)
    requires WellFormed(r)
    ensures var s := SeedOf(r);
            && Accumulator(s)
            && Shards(s) == 1
            && (forall t :: Counter(s, t) == Counter(r, t))
            && Errors(s) == Normalise(ErrorOf(r))
            && Rest(s) == Rest(r) && RdRest(s) == RdRest(r)
  {
    var s := SeedOf(r);
    CountersAgree(r, s);
    assert Rest(s) == Rest(r);
    assert RdRest(s) == RdRest(r);
  }

  /** `v` with `v['RegistrationData'][key]` replaced by `x`. */
  function WithRd(v: Value, key: Value, x: Value): (r: Value)
    requires HasRd(v)
    ensures HasRd(r) && RdOf(r) == RdOf(v)[key := x]
    ensures r.entries.Keys == v.entries.Keys && Rest(r) == Rest(v)
    ensures Str(NumShards) in v.entries ==> Str(NumShards) in r.entries && r.entries[Str(NumShards)] == v.entries[Str(NumShards)]
  {
    var r := Dict(v.entries[Str(RegistrationData) := Dict(RdOf(v)[key := x])]);
    assert Rest(r) == Rest(v);
    r
  }

  /** `v['RegistrationData'][Name(t)] += rhs` on an integer counter adds an integer `rhs` and fails otherwise. */
  lemma AugAssignCounter(v: Value, t: Tally, rhs: Result<Value>)
    requires HasCounter(v, t)
    ensures AugAssignRd(v, Name(t), rhs).Ok? <==> rhs.Ok? && rhs.value.Int?
    ensures AugAssignRd(v, Name(t), rhs).Ok? ==>
              AugAssignRd(v, Name(t), rhs).value == WithRd(v, Str(Name(t)), Int(Counter(v, t) + rhs.value.i))
  {
  }

  /** `v['RegistrationData']['lastError'] += extra` on a list appends the list `extra`. */
  lemma AugAssignErrors(v: Value, extra: Value)
    requires HasError(v) && ErrorOf(v).List? && extra.List?
    ensures AugAssignRd(v, LastError, Ok(extra)) == Ok(WithRd(v, Str(LastError), List(ErrorOf(v).items + extra.items)))
  {
  }

  /** Reading `r['RegistrationData'][name]` succeeds exactly when the field is there. */
  lemma RdFieldOk(r: Value, name: string)
    ensures RdField(r, name).Ok? <==> HasRd(r) && Str(name) in RdOf(r)
    ensures RdField(r, name).Ok? ==> RdField(r, name).value == RdOf(r)[Str(name)]
  {
  }

  /** The counter names and `lastError` are five different keys. */
  lemma TrackedNamesDistinct()
    ensures |{NumTriggered, NumSuccess, NumFailures, NumAborted, LastError}| == 5
  {
    assert NumSuccess[3] != NumAborted[3];
  }

  /** Different counters have different keys, none of them `lastError`, all of them tracked. */
  lemma NameDistinct(t: Tally, t': Tally)
    ensures t != t' ==> Name(t) != Name(t')
    ensures Name(t) != LastError
    ensures Str(Name(t)) in TrackedKeys
  {
    TrackedNamesDistinct();
  }

  /** A record whose `RegistrationData` agrees with `v`'s everywhere except perhaps at `lastError` has `v`'s counters. */
  lemma CountersAgree(v: Value, w: Value)
    requires WellFormed(v) && HasRd(w)
    requires forall k | k in RdOf(v) && k != Str(LastError) :: k in RdOf(w) && RdOf(w)[k] == RdOf(v)[k]
    ensures HasCounters(w) && forall t :: Counter(w, t) == Counter(v, t)
  {
    forall t ensures HasCounter(w, t) && Counter(w, t) == Counter(v, t) {
      NameDistinct(t, t);
      assert HasCounter(v, t);
    }
  }

  /**
   * One counter update `v['RegistrationData'][Name(t)] += r['RegistrationData'][Name(t)]`:
   * it succeeds exactly when `r` has that integer counter, adds it, and
   * leaves every other field as it was.
   */
  lemma CounterStep(v: Value, r: Value, t: Tally)
    requires WellFormed(v)
    ensures AddCounter(v, r, t).Ok? <==> HasCounter(r, t)
    ensures AddCounter(v, r, t).Ok? ==>
              var s := AddCounter(v, r, t).value;
              && WellFormed(s) && ErrorOf(s) == ErrorOf(v)
              && (forall t' :: Counter(s, t') == Counter(v, t') + if t' == t then Counter(r, t) else 0)
              && s.entries.Keys == v.entries.Keys && Rest(s) == Rest(v)
              && RdOf(s).Keys == RdOf(v).Keys && RdRest(s) == RdRest(v)
              && (Str(NumShards) in v.entries ==> Str(NumShards) in s.entries && s.entries[Str(NumShards)] == v.entries[Str(NumShards)])
  {
    assert HasCounter(v, t);
    RdFieldOk(r, Name(t));
    AugAssignCounter(v, t, RdField(r, Name(t)));
    if HasCounter(r, t) {
      CounterUpdate(v, t, Counter(v, t) + Counter(r, t));
    }
  }

  /** Setting one counter to `x` changes that counter and nothing else. */
  lemma CounterUpdate(v: Value, t: Tally, x: int)
    requires WellFormed(v)
    ensures var s := WithRd(v, Str(Name(t)), Int(x));
            && WellFormed(s) && ErrorOf(s) == ErrorOf(v)
            && (forall t' :: Counter(s, t') == if t' == t then x else Counter(v, t'))
            && RdOf(s).Keys == RdOf(v).Keys && RdRest(s) == RdRest(v)
  {
    var s := WithRd(v, Str(Name(t)), Int(x));
    NameDistinct(t, t);
    assert HasCounter(v, t);
    forall t' ensures HasCounter(s, t') && Counter(s, t') == if t' == t then x else Counter(v, t') {
      NameDistinct(t, t');
      assert HasCounter(v, t');
    }
    assert RdRest(s) == RdRest(v);
  }

  /** Adding the counters succeeds exactly when `r` has the four integer counters, and adds each of them. */
  lemma AddCountersShape(a: Value, r: Value)
    requires WellFormed(a)
    ensures AddCounters(a, r).Ok? <==> HasCounters(r)
    ensures AddCounters(a, r).Ok? ==>
              var s := AddCounters(a, r).value;
              && WellFormed(s) && ErrorOf(s) == ErrorOf(a)
              && (forall t :: Counter(s, t) == Counter(a, t) + Counter(r, t))
              && s.entries.Keys == a.entries.Keys && Rest(s) == Rest(a)
              && RdOf(s).Keys == RdOf(a).Keys && RdRest(s) == RdRest(a)
              && (Str(NumShards) in a.entries ==> Str(NumShards) in s.entries && s.entries[Str(NumShards)] == a.entries[Str(NumShards)])
  {
    CounterStep(a, r, Triggered);
    if !HasCounter(r, Triggered) {
      return;
    }
    var a2 := AddCounter(a, r, Triggered).value;
    CounterStep(a2, r, Success);
    if !HasCounter(r, Success) {
      return;
    }
    var a3 := AddCounter(a2, r, Success).value;
    CounterStep(a3, r, Failures);
    if !HasCounter(r, Failures) {
      return;
    }
    var a4 := AddCounter(a3, r, Failures).value;
    CounterStep(a4, r, Aborted);
    if !HasCounter(r, Aborted) {
      return;
    }
    assert AddCounters(a, r) == AddCounter(a4, r, Aborted);
    EachCounter(r);
    var s := AddCounters(a, r).value;
    forall t ensures Counter(s, t) == Counter(a, t) + Counter(r, t) {
      match t
      case Triggered =>
      case Success =>
      case Failures =>
      case Aborted =>
    }
  }

  /** A record with each of the four counters has the counters. */
  lemma EachCounter(r: Value)
    requires HasCounter(r, Triggered) && HasCounter(r, Success) && HasCounter(r, Failures) && HasCounter(r, Aborted)
    ensures HasCounters(r)
  {
    forall t ensures HasCounter(r, t) {
      match t
      case Triggered =>
      case Success =>
      case Failures =>
      case Aborted =>
    }
  }

  /**
   * Appending succeeds exactly when `r` has an error slot; it appends `r`'s
   * normalised errors to the list and leaves every other field as it was.
   */
  lemma AppendErrorsShape(a: Value, r: Value)
    requires WellFormed(a) && ErrorOf(a).List?
    ensures AppendErrors(a, r).Ok? <==> HasError(r)
    ensures AppendErrors(a, r).Ok? ==>
              var s := AppendErrors(a, r).value;
              && WellFormed(s) && ErrorOf(s) == List(ErrorOf(a).items + Normalise(ErrorOf(r)))
              && (forall t :: Counter(s, t) == Counter(a, t))
              && s.entries.Keys == a.entries.Keys && Rest(s) == Rest(a)
              && RdOf(s).Keys == RdOf(a).Keys && RdRest(s) == RdRest(a)
              && (Str(NumShards) in a.entries ==> Str(NumShards) in s.entries && s.entries[Str(NumShards)] == a.entries[Str(NumShards)])
  {
    RdFieldOk(r, LastError);
    if HasError(r) {
      var e := ErrorOf(r);
      if e != List([Null]) && e != Null {
        AugAssignErrors(a, if e.List? then e else List([e]));
      } else {
        assert ErrorOf(a).items + [] == ErrorOf(a).items;
        assert List(ErrorOf(a).items) == ErrorOf(a);
        assert RdOf(a)[Str(LastError) := ErrorOf(a)] == RdOf(a);
        assert a.entries[Str(RegistrationData) := Dict(RdOf(a))] == a.entries;
      }
      var s := WithRd(a, Str(LastError), List(ErrorOf(a).items + Normalise(ErrorOf(r))));
      assert AppendErrors(a, r) == Ok(s);
      assert Str(LastError) in TrackedKeys;
      assert RdRest(s) == RdRest(a);
      CountersAgree(a, s);
    }
  }

  /** On an accumulator, `a['NumShards'] += 1` adds one to the count and changes nothing else. */
  lemma BumpShardsShape(a: Value)
    requires Accumulator(a)
    ensures BumpShards(a).Ok?
    ensures var a1 := BumpShards(a).value;
            && WellFormed(a1) && ErrorOf(a1) == ErrorOf(a) && RdOf(a1) == RdOf(a)
            && Str(NumShards) in a1.entries && a1.entries[Str(NumShards)] == Int(Shards(a) + 1)
            && a1.entries.Keys == a.entries.Keys && Rest(a1) == Rest(a)
  {
    var a1 := Dict(a.entries[Str(NumShards) := Int(Shards(a) + 1)]);
    assert BumpShards(a) == Ok(a1);
    assert Rest(a1) == Rest(a);
    CountersAgree(a, a1);
  }

  /** The merge branch on a decoded record `r`; see MergeShape. */
  lemma MergeBranchShape(a: Value, r: Value)
    requires Accumulator(a)
    ensures Merge(a, r).Ok? <==> WellFormed(r)
    ensures Merge(a, r).Ok? ==>
              var s := Merge(a, r).value;
              && Accumulator(s)
              && Shards(s) == Shards(a) + 1
              && (forall t :: Counter(s, t) == Counter(a, t) + Counter(r, t))
              && Errors(s) == Errors(a) + Normalise(ErrorOf(r))
              && s.entries.Keys == a.entries.Keys && Rest(s) == Rest(a)
              && RdOf(s).Keys == RdOf(a).Keys && RdRest(s) == RdRest(a)
  {
    BumpShardsShape(a);
    var a1 := BumpShards(a).value;
    AddCountersShape(a1, r);
    if AddCounters(a1, r).Err? {
      assert Merge(a, r).Err?;
      return;
    }
    var a5 := AddCounters(a1, r).value;
    assert Merge(a, r) == AppendErrors(a5, r);
    AppendErrorsShape(a5, r);
  }

  /**
   * Merging into a non-empty accumulator succeeds exactly when the decoded
   * record is well formed. It adds exactly one to `NumShards` (whatever the
   * record's own `NumShards`), adds the four counters, appends the record's
   * normalised errors at the end, and changes nothing else.
   */
  lemma MergeShape(a: Value, raw: Value)
    requires Accumulator(a)
    ensures AggregateRes(a, raw).Ok? <==> Decode(raw, 0).Ok? && WellFormed(Decode(raw, 0).value)
    ensures AggregateRes(a, raw).Ok? ==>
              var r := Decode(raw, 0).value;
              var s := AggregateRes(a, raw).value;
              && Accumulator(s)
              && Shards(s) == Shards(a) + 1
              && (forall t :: Counter(s, t) == Counter(a, t) + Counter(r, t))
              && Errors(s) == Errors(a) + Normalise(ErrorOf(r))
              && s.entries.Keys == a.entries.Keys && Rest(s) == Rest(a)
              && RdOf(s).Keys == RdOf(a).Keys && RdRest(s) == RdRest(a)
  {
    assert a != EmptyDict by { assert Str(NumShards) in a.entries; }
    if Decode(raw, 0).Ok? {
      MergeBranchShape(a, Decode(raw, 0).value);
    }
  }

  // ---------------------------------------------------------------------------
  // CheckNumShardSanity
  // ---------------------------------------------------------------------------

  /** What `RG.INFOCLUSTER` answers outside a cluster. */
  const NoClusterMode := "no cluster mode"

  /** The warning appended to a record that was not seen on every shard. */
  const ShardWarning := "Warning: not all shards contains the registration."

  /** `len(info[2])`: the number of shards the cluster reports. */
  function ClusterShardCount(info: Value): Result<nat> {
    var shardList :- Index(info, 2);
    Len(shardList)
  }

  /**
   * `CheckNumShardSanity(r)` with `info` the reply of `RG.INFOCLUSTER`:
   * outside cluster mode nothing happens; otherwise the warning is appended
   * when `NumShards` differs from the cluster's shard count.
   */
  function CheckNumShardSanity(r: Value, info: Value): Result<Value> {
    if info == Str(NoClusterMode) then Ok(r)
    else
      var n :- ClusterShardCount(info);
      var shards :- GetItem(r, NumShards);
      if shards != Int(n) then AugAssignRd(r, LastError, Ok(List([Str(ShardWarning)])))
      else Ok(r)
  }

  /**
   * Outside cluster mode the record is returned untouched. In cluster mode a
   * merged record passes exactly when the shard count can be read, and gains
   * exactly one warning at the end of `lastError` iff its `NumShards` differs
   * from that count; no other field changes.
   */
  lemma SanityShape(r: Value, info: Value)
    requires Accumulator(r)
    ensures info == Str(NoClusterMode) ==> CheckNumShardSanity(r, info) == Ok(r)
    ensures info != Str(NoClusterMode) ==>
              (CheckNumShardSanity(r, info).Ok? <==> ClusterShardCount(info).Ok?)
    ensures info != Str(NoClusterMode) && ClusterShardCount(info).Ok? ==>
              var s := CheckNumShardSanity(r, info).value;
              var n := ClusterShardCount(info).value;
              && Accumulator(s)
              && Errors(s) == Errors(r) + (if Shards(r) != n then [Str(ShardWarning)] else [])
              && Shards(s) == Shards(r)
              && (forall t :: Counter(s, t) == Counter(r, t))
              && s.entries.Keys == r.entries.Keys && Rest(s) == Rest(r)
              && RdOf(s).Keys == RdOf(r).Keys && RdRest(s) == RdRest(r)
  {
    if info != Str(NoClusterMode) && ClusterShardCount(info).Ok? {
      var n := ClusterShardCount(info).value;
      if Shards(r) != n {
        AugAssignErrors(r, List([Str(ShardWarning)]));
        var s := WithRd(r, Str(LastError), List(Errors(r) + [Str(ShardWarning)]));
        assert CheckNumShardSanity(r, info) == Ok(s);
        assert Str(LastError) in TrackedKeys;
        assert RdRest(s) == RdRest(r);
        CountersAgree(r, s);
      } else {
        assert Errors(r) + [] == Errors(r);
      }
    }
  }
}
