# Gears summary model

This project models the part of the RedisGears explorer that summarises the
registrations deployed on a Redis cluster. `GearsManager.getRegisteredGears`
sends the embedded Python script to `RG.PYEXECUTE`. The script dumps the
registrations of every shard with `RG.DUMPREGISTRATIONS` and decodes each raw
reply into a dictionary (`RegistrationArrToDict`). It groups the
registrations by their id `x[1]` and folds each group through `AggregateRes`,
which adds up the counters and collects the errors. `CheckNumShardSanity`
then warns when a registration was not found on every shard. The TypeScript
side turns the JSON answer into directory entries `reader:sequence`.
`getModuleInfo` reads the gears version out of `MODULE LIST`.

The model has six modules:

- `PyValues` (`values.dfy`) holds the Python values the script handles, the
  Python operations it uses (`d[k]`, `d[k] = x`, `+`, `len`) with their
  exceptions, and `MapAll`. `MapAll` is a per-element pass that stops at the
  first exception. `PushEach` is its loop form. `Concat` flattens a list of
  lists; both the job's `flatmap` and the client's loop over the reply
  entries are that flattening.
- `Decoder` (`decoder.dfy`) is `RegistrationArrToDict`: a recursive
  function `Decode` and the method with the source's loop.
- `Aggregation` (`aggregation.dfy`) holds `AggregateRes`, split into its
  seed and merge branches, and `CheckNumShardSanity`. It defines the view of
  a merged record in which their properties are stated: `NumShards`, the four
  counters indexed by `Tally`, `lastError`, and the fields left untouched.
- `Grouping` (`grouping.dfy`) is `aggregateby(lambda x: x[1], {}, …)`,
  generic in the reducer. `AggregateBy` is the mutable pass that keeps an id
  list and a dictionary. `FoldGroup` is the fold of one group.
- `Pipeline` (`job.dfy`) is the whole `GB(...)` job as one sequential pass.
  `Execute` is its imperative form.
- `Client` (`client.dfy`) holds the `getRegisteredGears` shaping loop and
  the `getModuleInfo` scan. It includes JavaScript's `String()`, `split("-")`
  and loose `==` as far as those loops need them.

The replies of `RG.DUMPREGISTRATIONS`, `RG.INFOCLUSTER`, `RG.PYEXECUTE` and
`MODULE LIST` are parameters. `json.dumps` and `JSON.parse` are the identity
on values.

Decoding stops at depth 3. The layout of a `RG.DUMPREGISTRATIONS` reply is
not part of this model. If `lastError` sits at depth 2 of a raw reply, as the
script's `x['RegistrationData']['lastError']` access suggests, then a list
error is itself decoded as key/value pairs before `AggregateRes` looks at it.
`[None]` then raises IndexError, and `["x", "y"]` becomes `{"x": "y"}`. In
that case the `isinstance(lastError, list)` branches only see lists in
values that are already decoded, as in the reduce phase. The scenarios state
both cases for that reply layout; nothing here shows that the layout is the
real one.

## Model

| member | source | states |
|---|---|---|
| Decoder.RegistrationArrToDict | src/GearsManager.ts:183-191 | The loop, with its early returns on a missing value or an unhashable key, returns exactly what `Decode` returns. |
| Decoder.DecodeOk | src/GearsManager.ts:184-191 | Above the depth bound, a list decodes if and only if it has an even length, every key is hashable, and every value decodes one level deeper. |
| Decoder.DecodeContents | src/GearsManager.ts:188-191 | A decoded list is a dictionary whose keys are exactly the elements at even positions. Each key holds the decoded value after its last occurrence, so a later duplicate key overwrites an earlier one. |
| Decoder.DecodeResultShape | src/GearsManager.ts:184-187 | Non-lists and values at depth 3 or deeper come back unchanged. Lists above the bound become dictionaries. Decoding a result again changes nothing, which is what lets the reduce phase decode an accumulator a second time. |
| Decoder.DepthBoundExample | src/GearsManager.ts:184-185 | Four levels of pairs decode into three nested dictionaries; the fourth level stays a list. |
| Decoder.DecodePairsOk | src/GearsManager.ts:189-190 | The loop from index `i` succeeds if and only if every remaining pair is well formed. |
| Decoder.DecodePairsKeys | src/GearsManager.ts:188-190 | The loop from index `i` adds exactly the keys from `i` on and keeps the entries it has already stored under other keys. |
| Decoder.DecodePairsValues | src/GearsManager.ts:190 | Each key the loop stores from `i` on holds the value decoded after its last occurrence. |
| Aggregation.SeedShape | src/GearsManager.ts:194-205 | Into `{}`, `AggregateRes` succeeds if and only if the decoded record has `RegistrationData` with a `lastError`. The result is that record with `NumShards = 1` and `lastError` normalised: `[]` for None and `[None]`, the list itself, or a one-element list. |
| Aggregation.SeedAccumulator | src/GearsManager.ts:194-205 | Seeding a well-formed record gives an accumulator: one shard, the record's counters, its normalised errors, and every other field as in the record. |
| Aggregation.SeedClosed | src/GearsManager.ts:197-205 | The seed branch computes the closed form `SeedOf`. |
| Aggregation.MergeShape | src/GearsManager.ts:206-216 | Into a non-empty accumulator, the merge succeeds if and only if the decoded record is well formed. It adds exactly 1 to `NumShards`, whatever the record's own count. It adds each of the four counters and appends the record's normalised errors at the end. Every other field is unchanged. |
| Aggregation.MergeBranchShape | src/GearsManager.ts:206-216 | The same as `MergeShape`, for a record that is already decoded. |
| Aggregation.BumpShardsShape | src/GearsManager.ts:206 | `NumShards += 1` on an accumulator adds one and changes nothing else. |
| Aggregation.AddCountersShape | src/GearsManager.ts:207-210 | The four counter updates succeed if and only if the record has all four integer counters. Each counter becomes the sum of the two; every other field is unchanged. |
| Aggregation.CounterStep | src/GearsManager.ts:207 | One `+=` on a counter succeeds if and only if the record has that integer counter. It changes that counter alone. |
| Aggregation.AppendErrorsShape | src/GearsManager.ts:211-215 | Appending succeeds if and only if the record has a `lastError`. It appends that error normalised and changes nothing else. |
| Aggregation.SanityShape | src/GearsManager.ts:219-225 | Outside cluster mode the record is returned untouched. In cluster mode the check succeeds if and only if the shard list can be read. It appends exactly one warning if and only if `NumShards` differs from the number of shards, and changes nothing else. |
| Grouping.FoldGroupShape | src/GearsManager.ts:194-216 | Folding a non-empty group of well-formed records succeeds and `Summarises` it. `NumShards` is the number of records. Each counter is the sum over them. `lastError` is their normalised errors concatenated in order. The other fields are the first record's. |
| Grouping.SummaryExtends | src/GearsManager.ts:206-216 | Merging one more record into a summary of the records before it summarises them all. |
| Grouping.FoldGroupRejects | src/GearsManager.ts:206-216 | When the first record that is not well formed comes after the first record, the whole group's fold fails. |
| Grouping.AggregateByShape | src/GearsManager.ts:231 | The grouping succeeds if and only if every record has an id `x[1]` and every id's group folds. Then the key list holds each id once. Each id maps to the left fold of its own records, in stream order. |
| Grouping.AggregateBy | src/GearsManager.ts:231 | The mutable pass, with its id list, its dictionary and its early exits, computes exactly `AggregateByFrom`. |
| Grouping.GroupStepDescribes | src/GearsManager.ts:231 | One successful step keeps the grouping state faithful to the records read so far. |
| Grouping.GroupStepFails | src/GearsManager.ts:231 | A failed step means that the new record has no id, or that the new record's own group no longer folds. Either way the records read so far do not all have an id and fold. |
| Grouping.AggregateByOrder | src/GearsManager.ts:231 | A successful grouping lists each id before every id whose first record comes later in the stream. |
| Grouping.StepOrder | src/GearsManager.ts:231 | One successful step keeps the id list in order of first occurrence: a new id goes after every id already seen. |
| Grouping.GroupPermutes | src/GearsManager.ts:231 | Permuting the stream permutes each id's group. |
| Grouping.SumCounterPermutes | src/GearsManager.ts:207-210 | The sum of a counter over records does not depend on their order. |
| Grouping.ShuffleKeepsTotals | src/GearsManager.ts:206-210 | Permuting the stream keeps each group's number of records and each of its counter sums. |
| Pipeline.FlattenMembers | src/GearsManager.ts:230 | Every registration of every shard is in the flattened stream, and nothing else is. |
| Pipeline.SanityAllShape | src/GearsManager.ts:233 | With a readable `RG.INFOCLUSTER` reply, the check passes on every accumulator. The output keeps the order and holds each record's checked version. |
| Pipeline.OneRecord | src/GearsManager.ts:231-233 | The job's record for one id `Reports` its group: its shard count, counter sums, errors plus the shard warning when one is due, and the first record's other fields. |
| Pipeline.JobShape | src/GearsManager.ts:229-234 | On well-formed registrations that all have an id, the job returns one record per distinct id, listed in the order in which the ids first occur in the stream (`FirstSeenOrder`), and each record `Reports` its group. |
| Pipeline.ShuffledJob | src/GearsManager.ts:229-234 | Two streams holding the same registrations in any order give the same ids, and for each id the same `NumShards` and counter sums. |
| Pipeline.JobNeedsIds | src/GearsManager.ts:231 | A registration without an id slot aborts the whole job. |
| Pipeline.Execute | src/GearsManager.ts:229-234 | The job with mutable state (the flatmap loop, the grouping pass, the check loop) returns exactly `RunJob`. |
| Pipeline.ReduceCountsPartials | src/GearsManager.ts:231 | Folding already merged accumulators with the same `AggregateRes` counts the partial results, not the shards behind them: `NumShards` is the number of partials. Counters and errors combine as for raw records. |
| Scenarios.ErrorsConcatenate | src/GearsManager.ts:200-215 | Decoded errors `[None]`, `"boom"` and `["x", "y"]` fold into three shards with the errors `["boom", "x", "y"]` and the summed runs. |
| Scenarios.RawNoneListRejected | src/GearsManager.ts:189-195 | A raw reply whose `lastError` is `[None]` is rejected with IndexError while it is decoded. |
| Scenarios.RawErrorListBecomesDict | src/GearsManager.ts:189-204 | A raw error list `["x", "y"]` is decoded to `{"x": "y"}` and kept as one error. |
| Scenarios.MissingShardWarns | src/GearsManager.ts:219-225 | A registration found on two shards of a three-shard cluster gets the warning once. Outside cluster mode it is left alone. |
| PyValues.MapAllShape | src/GearsManager.ts:71-83 | The per-element pass succeeds if and only if every element succeeds. Its result lists each element's value in order. |
| PyValues.MapAllAppend | src/GearsManager.ts:71-83 | The pass over a concatenation is the pass over the first part, then over the second; the first failure wins. |
| PyValues.PushEach | src/GearsManager.ts:73-81 | The loop that pushes one converted element at a time onto `acc` returns `acc` followed by the pass's result, or the pass's error. |
| Client.EntryKey | src/GearsManager.ts:75-79 | A record with a string reader and an id `execution-sequence` gets the key `reader:sequence` and keeps its id. |
| Client.SplitJoin | src/GearsManager.ts:76 | Joining the pieces of `split(sep)` gives back the string. |
| Client.SplitShape | src/GearsManager.ts:76 | Splitting `a-b`, where neither part contains `-`, gives `[a, b]`. |
| Client.Digits | src/GearsManager.ts:166 | JavaScript's text of a number: decimal digits only, with no leading zero. |
| Client.DigitsRoundTrip | src/GearsManager.ts:76 | The decimal text of a number reads back as that number. |
| Client.ListingShape | src/GearsManager.ts:70-83 | The listing fails only if some record's conversion throws. When it succeeds, it holds one entry per record of every reply entry, in reply order, each the record's own entry. |
| PyValues.ConcatIndex | src/GearsManager.ts:71-73 | Record `j` of reply entry `n` comes after the records of all earlier entries. The same holds for the registrations of each shard in the `flatmap` stream. |
| Client.GetRegisteredGears | src/GearsManager.ts:70-83 | The nested loops, which skip empty entries and push onto `retVal`, return exactly `Listing`. The first record that throws ends the method with its error. |
| Client.ModuleInfoShape | src/GearsManager.ts:162-171 | The answer is "(No gear)" if and only if no row is the gears module. Otherwise it is `(v<row[3]>)` of the first row whose `row[1]` loosely equals `"rg"`. |
| Client.GetModuleInfo | src/GearsManager.ts:162-171 | The scan resolves at every gears row, but only the first resolution counts. Without a gears row it resolves "(No gear)". It returns exactly `ModuleInfo`. |

## Left out

- Connecting, disconnecting and `isConnected`, `registerGearsFromFile` and `unregisterGear` are not part of this model: they only forward a command to Redis and report the outcome in the editor.
- VS Code messages, console logging, promise plumbing and the `.catch` handlers are left out. One consequence: when the remote call fails, the source calls `reject()` and still iterates `result`; the model starts from a reply that has arrived.
- `RG.PYEXECUTE`, `RG.DUMPREGISTRATIONS`, `RG.INFOCLUSTER` and `MODULE LIST` are parameters. `CheckNumShardSanity` uses one `RG.INFOCLUSTER` reply for every record.
- The distributed execution of RedisGears is modelled as one sequential pass that folds each group from `{}`. The per-shard local phase followed by a reduce phase is covered only by `Pipeline.ReduceCountsPartials`, which states what the reduce fold of partial results computes.
- Pipeline.RunJob: one Python exception aborts the whole job in the model; RedisGears records per-record errors and carries on.
- Grouping.AggregateByFrom: the ids come out in first-appearance order; RedisGears does not promise an order.
- `json.dumps` and `JSON.parse` are the identity on values. Text formatting, floats and booleans are not modelled; integers are unbounded.
- PyValues.PyAdd: `list += x` is modelled only for a list `x`; Python also accepts any other iterable there.
- The script updates its dictionaries in place; the model computes the updated values instead. Decoding does not always build fresh values: an accumulator that is already a dictionary comes back as the same object, and values at depth 3 or deeper are the reply's own objects. No aliasing is lost all the same, because no record object is used again once it has been folded.
- Dictionary keys may be any hashable value of the model, without Python's `1 == True` key collisions.
- Client.Entry: the `type` field gets the `GearsTypes.ItemType` enumeration object itself, the same for every entry, so it is not kept.
- Client.ToEntry: `JSON.parse` of invalid text is left out, because the job's output is already a value.
