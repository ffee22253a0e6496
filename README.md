# Materialize compute logging, persist Arrow codec, stash v36→v37 migration, mzbuild and int4 operators, in Dafny

This project models six parts of the Materialize repository and proves
properties of them.

- **The compute-logging demultiplexer** (`compute_demux.dfy`, `log_math.dfy`,
  `log_arrange.dfy`). Each worker consumes a stream of
  `(arrival, worker, ComputeEvent)` triples. It keeps three maps:
  - the active dataflows with their dependencies;
  - the pending peeks;
  - the per-source queues and delay histograms of storage sources.
  It appends signed-multiplicity updates to seven changelogs, each
  timestamped with a coarse bucket time. `Demux` is a class whose fields are
  those maps and changelogs. Its invariant `Valid` says that the net
  frontier-delay multiplicity of every row equals the count the live
  histograms hold. Every event method keeps it, so a dropped dataflow's
  delay rows net to zero. The collections are then routed into
  arrangements by a key/value projection that is proved lossless.
- **The arrangement heap-size probe and `mz_reduce_abelian`**
  (`arrangement_size.dfy`).
  - A trace is a sequence of batches. Measuring it walks the batch
    buffers in layout order.
  - `SizeProbe` is a class that keeps the previous totals. Each activation
    logs one delta per metric that changed, so the logged deltas always sum
    to the last totals seen.
  - The reduction closure replaces the previous output by the new one.
- **The protobuf codec and the total order of Arrow data**
  (`arrow_proto.dfy`, `arrow_ord.dfy`).
  - Decoding inverts encoding, in both directions.
  - Cells of typed arrays compare with nulls last. The comparison is
    `None` where the source panics. Otherwise it is a total order: it is
    antisymmetric and transitive, reflexive on well-formed arrays, and it
    never panics on in-range cells of arrays of one data type.
- **The stash migration from catalog objects v36 to v37**
  (`objects_v36.dfy`, `objects_v37.dfy`, `stash_upgrade.dfy`). An item's
  nested definition becomes its `create_sql`. Every other field converts
  wire-compatibly, and the conversion is proved invertible.
- **The mzbuild image builder** (`mzbuild.dfy`, `mzbuild_deps.dfy`,
  `sorting.dfy`):
  - execute-bit arithmetic, package names and image-name checks;
  - `MZFROM` parsing, Docker names and builder paths;
  - repository discovery;
  - dependency resolution in topological order with cycle reports;
  - dependency listing;
  - Python's string sort.
- **The `int4` unary operators** (`int32_funcs.dfy`): negation, bitwise not
  and absolute value on two's-complement 32-bit integers.

`wrappers.dfy` holds the `Option` and `Result` types used throughout.

## Model

| member | source | states |
|---|---|---|
| LogMath.IntervalMs | src/compute/src/logging/compute.rs:98 | the bucket width is at least 1 ms; it is 1 below one millisecond and the whole number of milliseconds otherwise |
| LogMath.BucketTime | src/compute/src/logging/compute.rs:148-150 | the bucket time is a multiple of the interval, strictly after the arrival millisecond and at most one interval after it |
| LogMath.BucketTimeIsLeast | src/compute/src/logging/compute.rs:148-150 | the bucket time is the least multiple of the interval after the arrival millisecond |
| LogMath.NextPowerOfTwo | src/compute/src/logging/compute.rs:236 | `next_power_of_two` is a power of two at least `n`, and its half is below `n` unless it is 1 |
| LogMath.NextPowerOfTwoIsLeast | src/compute/src/logging/compute.rs:304 | every power of two at least `n` is at least `next_power_of_two(n)` |
| LogMath.AsI64 | src/compute/src/logging/compute.rs:262 | `u64 as i64` lies in the i64 range, is `x` or `x - 2^64`, and is non-negative exactly when `x <= i64::MAX` |
| ComputeDemux.ReadyCount | src/compute/src/logging/compute.rs:231-248 | the entries a frontier advance pops are a prefix all at or below the frontier, and the entry after them is above it |
| ComputeDemux.Advance | src/compute/src/logging/compute.rs:231-249 | after an advance the queue is a suffix of the old one whose head, if any, is above the frontier; every dropped entry is at or below the frontier; each bucket's count grows by that bucket's number of popped delays |
| ComputeDemux.Demux.constructor | src/compute/src/logging/compute.rs:119-126 | the demultiplexer starts with empty maps and changelogs, bucket width `max(1, interval_ns / 1_000_000)`, and its invariant holds |
| ComputeDemux.Demux.Bucket | src/compute/src/logging/compute.rs:148-150 | the bucket time is a multiple of the interval, above the arrival millisecond and at most one interval past it |
| ComputeDemux.Demux.Tick | src/compute/src/logging/compute.rs:147 | taking the next event, whose arrival is not before the last one, keeps the invariant and moves the clock to its arrival |
| ComputeDemux.Demux.ApplyDataflow | src/compute/src/logging/compute.rs:153-197 | a dataflow event logs ±1 at the bucket time. A create registers the dataflow with no dependencies. A drop removes it, retracts each recorded dependency (or reports an unknown dataflow), and retracts every delay bucket of its sources with exactly one row per held bucket, by its count, so that they net to zero; nothing is retracted when it had no tracking. The invariant is kept and nothing else changes |
| ComputeDemux.Demux.CreateDataflow | src/compute/src/logging/compute.rs:162-163 | a create maps the dataflow to an empty dependency list and keeps the invariant |
| ComputeDemux.Demux.DropAndForget | src/compute/src/logging/compute.rs:164-195 | the drop branch retracts dependencies and, one row per held bucket, the delay histograms (none when the dataflow had no tracking), and keeps the invariant |
| ComputeDemux.Demux.DropDataflow | src/compute/src/logging/compute.rs:165-182 | the dataflow is removed; its dependencies are retracted in order at −1, or a missing dataflow is reported as a diagnostic |
| ComputeDemux.Demux.ForgetSources | src/compute/src/logging/compute.rs:185-195 | the dataflow's source tracking is removed; nothing is appended when it had none; otherwise exactly one row per bucket it held is appended (rows pairwise distinct, every held bucket covered), each at the drop time retracting that bucket's count (at most -1); the dataflow's delay rows net to zero, and the ledger stays balanced with every held count positive |
| ComputeDemux.Demux.RetractDependencies | src/compute/src/logging/compute.rs:168-175 | one −1 dependency row per recorded source, in recording order, at the drop's bucket time |
| ComputeDemux.Demux.RetractDelays | src/compute/src/logging/compute.rs:185-195 | one row per held bucket, whatever the map order: every row names a bucket of the histograms, no two rows name the same bucket, every bucket has a row, and each row is of the dropped dataflow at the drop time, carrying minus its (positive) count; every row key nets to minus what the histograms held |
| ComputeDemux.Demux.RetractSource | src/compute/src/logging/compute.rs:187-193 | one source's buckets are retracted, one distinct row per held bucket, so that its rows net to minus their counts, and the other sources' rows are left as they were |
| ComputeDemux.Demux.ApplyDependency | src/compute/src/logging/compute.rs:198-211 | a dependency row is logged with +1; a known dataflow gets the source appended to its list, an unknown one is reported; nothing else changes |
| ComputeDemux.Demux.ApplyFrontier | src/compute/src/logging/compute.rs:212-253 | the frontier row is logged with its delta. An advance of a dataflow with tracked sources drains every source queue up to the frontier, appending exactly each source's popped delay rows. Otherwise the tracking is unchanged |
| ComputeDemux.Demux.AdvanceSources | src/compute/src/logging/compute.rs:228-251 | every tracked source of the dataflow advances to the frontier; the appended rows, split by source, are that source's popped delays; the invariant is kept |
| ComputeDemux.Demux.AdvanceMap | src/compute/src/logging/compute.rs:230-250 | the loop over sources yields the advanced map and, per source, the rows of its popped delays, whatever the map order |
| ComputeDemux.Demux.DrainQueue | src/compute/src/logging/compute.rs:231-249 | the pop/put-back loop leaves the queue and histogram of `Advance` and reports the popped delay buckets in order |
| ComputeDemux.Demux.ApplySourceFrontier | src/compute/src/logging/compute.rs:254-286 | the source-frontier row is logged with the logical time as i64. An advance of an active dataflow enqueues `(logical, arrival)` for the source, creating its tracking if needed. Otherwise nothing is tracked |
| ComputeDemux.Demux.ApplyPeek | src/compute/src/logging/compute.rs:287-316 | a peek row is logged ±1. An install stores the arrival time and reports a duplicate. A retire removes the peek and logs its power-of-two duration, or reports an unregistered peek |
| ComputeDemux.Demux.Apply | src/compute/src/logging/compute.rs:146-317 | each event has exactly the effect of its own kind (`Applied`): the rows appended to each changelog, the map updates and the diagnostics that the per-kind methods state. Each event adds exactly one row to the changelog of its kind, and the invariant is kept |
| ComputeDemux.AdvanceIdempotent | src/compute/src/logging/compute.rs:231-249 | a second advance to the same frontier changes nothing |
| ComputeDemux.AdvanceSplitsAtFrontier | src/compute/src/logging/compute.rs:231-249 | the popped entries are a prefix at or below the frontier, one delay each; the entry left at the head is above the frontier |
| ComputeDemux.TallyCounts | src/compute/src/logging/compute.rs:237-239 | bumping a histogram by a list of delays adds each delay's number of occurrences to its bucket |
| ComputeDemux.NetDelayRows | src/compute/src/logging/compute.rs:240-244 | the +1 rows for a list of delays net, per row, to how often that delay occurs |
| ComputeDemux.AdvanceKeepsPositive | src/compute/src/logging/compute.rs:230-242 | advancing one dataflow's sources keeps every count its histograms hold at least 1, since a bucket is only ever inserted at 0 and then incremented |
| ComputeDemux.TallyPositive | src/compute/src/logging/compute.rs:237-239 | incrementing buckets of a histogram whose counts are all positive leaves them all positive |
| ComputeDemux.AdvanceKeepsBalance | src/compute/src/logging/compute.rs:224-252 | advancing one dataflow's sources and appending their rows keeps every delay row's net equal to the histogram count |
| ComputeDemux.AdvanceKeepsArrival | src/compute/src/logging/compute.rs:231-249 | after an advance every queued arrival instant is still at or before now |
| ComputeDemux.RetractKeepsBalance | src/compute/src/logging/compute.rs:185-195 | removing a dataflow's histograms together with their retractions keeps the ledger balanced |
| LogArrange.Columns | src/compute/src/logging/compute.rs:426 | the selected datums are the row's datums at the listed columns, in order |
| LogArrange.Project | src/compute/src/logging/compute.rs:424-430 | the key has one datum per key column and the value one per value column |
| LogArrange.Unproject | src/compute/src/logging/compute.rs:411-419 | a row of the log's arity is reassembled from key and value parts |
| LogArrange.ProjectIsLossless | src/compute/src/logging/compute.rs:411-430 | when the key and value columns cover the row, projecting and reassembling gives back the row |
| LogArrange.Arranged | src/compute/src/logging/compute.rs:421-434 | the arranged collection has one `(key, value)` pair per row, that row's projection |
| LogArrange.Route | src/compute/src/logging/compute.rs:410-442 | the traces hold exactly the active variants, each arranged by its own layout; each log configured for a sink is handed to it, at most one handoff per log |
| LogArrange.RoutedTraceKeys | src/compute/src/logging/compute.rs:411-435 | a variant has a trace exactly when it is listed and active |
| LogArrange.RoutedTraceValues | src/compute/src/logging/compute.rs:411-435 | with each variant listed once, an active variant's trace is its own collection arranged |
| LogArrange.RoutedSinksHold | src/compute/src/logging/compute.rs:438-441 | the sink handoffs number at most the logs, and a handoff exists exactly for each log configured for a sink |
| ArrangementSize.VecSize | src/compute/src/extensions/operator.rs:143-146 | a vector reports length × element size and capacity × element size; size never exceeds capacity when length does not |
| ArrangementSize.Walk | src/compute/src/extensions/operator.rs:225-311 | each batch layout makes its fixed number of vector callbacks, 5 for error-value spines and 3 for error spines, after the callbacks of its columnar regions |
| ArrangementSize.Measure | src/compute/src/extensions/operator.rs:218-233 | the counters equal the totals of every callback of every batch in order |
| ArrangementSize.MeasureBatch | src/compute/src/extensions/operator.rs:225-231 | one batch's walk extends the accumulated totals by its callbacks |
| ArrangementSize.AccumulateCounts | src/compute/src/extensions/operator.rs:220-224 | the callback counts one allocation per call and sums sizes and capacities |
| ArrangementSize.CallbacksLength | src/compute/src/extensions/operator.rs:225-231 | a trace makes one callback per buffer its batches' layouts visit |
| ArrangementSize.ErrSpineAllocations | src/compute/src/extensions/operator.rs:281-285 | an `ErrSpine` trace reports three allocations per batch |
| ArrangementSize.ErrValSpineAllocations | src/compute/src/extensions/operator.rs:253-259 | an `ErrValSpine` trace reports five allocations per batch |
| ArrangementSize.AllocationsPerBatch | src/compute/src/extensions/operator.rs:246-259 | a trace whose batches all visit `k` buffers reports `k` allocations per batch |
| ArrangementSize.SizeWithinCapacity | src/compute/src/extensions/operator.rs:218-233 | a trace whose buffers are within capacity never reports more size than capacity |
| ArrangementSize.CallbacksWithin | src/compute/src/extensions/operator.rs:225-231 | buffers within capacity yield only callbacks within capacity |
| ArrangementSize.SumsWithin | src/compute/src/extensions/operator.rs:220-224 | callbacks within capacity sum to a size within the summed capacity |
| ArrangementSize.Trace.constructor | src/compute/src/extensions/operator.rs:149 | shared trace storage holds the given batches |
| ArrangementSize.TraceHandle.constructor | src/compute/src/extensions/operator.rs:149 | a handle reads the given storage with the given compaction frontiers |
| ArrangementSize.TraceHandle.Clone | src/compute/src/extensions/operator.rs:159 | a clone is a new handle onto the same storage with the same frontiers |
| ArrangementSize.DeltasReportChanges | src/compute/src/extensions/operator.rs:177-199 | a metric's delta is logged exactly when the metric changed, and each metric's logged deltas sum to its change |
| ArrangementSize.Deltas | src/compute/src/extensions/operator.rs:177-199 | one activation logs at most three events, and none when no metric changed |
| ArrangementSize.DeltasLogChanges | src/compute/src/extensions/operator.rs:177-199 | a metric's event is logged exactly when the metric changed |
| ArrangementSize.DeltasSumChanges | src/compute/src/extensions/operator.rs:177-199 | each metric's logged deltas sum to its change |
| ArrangementSize.SumsAppend | src/compute/src/extensions/operator.rs:177-203 | the sum of logged deltas over two activations is the sum of each |
| ArrangementSize.UnchangedTraceLogsNothing | src/compute/src/extensions/operator.rs:177-199 | an activation that finds the totals unchanged logs nothing |
| ArrangementSize.SizeProbe.constructor | src/compute/src/extensions/operator.rs:166-171 | the probe starts with zero totals, having logged only its registration, and its invariant holds |
| ArrangementSize.SizeProbe.Install | src/compute/src/extensions/operator.rs:157-171 | without a logger nothing is installed. Otherwise the probe has a fresh clone of the handle onto the same storage with empty compaction frontiers, and has logged its registration |
| ArrangementSize.SizeProbe.Activate | src/compute/src/extensions/operator.rs:173-204 | an activation logs the deltas from the old totals to the trace's current totals and remembers them, so the logged deltas keep summing to the last totals |
| ArrangementSize.SizeProbe.Emit | src/compute/src/extensions/operator.rs:177-199 | the three guarded log calls append exactly the deltas |
| ArrangementSize.Negated | src/compute/src/extensions/operator.rs:342 | every drained update is kept with its diff negated |
| ArrangementSize.ReduceAbelian | src/compute/src/extensions/operator.rs:338-343 | the change is the logic's output (only for a non-empty input) followed by the prior output negated, and the output buffer is drained |
| ArrangementSize.NetOfAppend | src/compute/src/extensions/operator.rs:342 | net multiplicities add over concatenation |
| ArrangementSize.NetOfNegated | src/compute/src/extensions/operator.rs:342 | negating every diff negates every net multiplicity |
| ArrangementSize.ReduceAbelianReplacesOutput | src/compute/src/extensions/operator.rs:338-343 | the prior output plus the change nets to exactly the logic's output, and to nothing for an empty input |
| ArrowProto.EncodeFields | src/persist-types/src/arrow.rs:113 | struct children encode one message per field |
| ArrowProto.EncodeType | src/persist-types/src/arrow.rs:87-119 | every supported type encodes to a message with its `kind` set, keeping the fixed size, the map's `sorted` flag and value, and one message per struct child |
| ArrowProto.EncodeField | src/persist-types/src/arrow.rs:164-170 | a field encodes with its name and nullability and with its data type present |
| ArrowProto.DecodeType | src/persist-types/src/arrow.rs:122-160 | a message without a kind is rejected as missing `kind`; whatever decodes is a supported type |
| ArrowProto.DecodeField | src/persist-types/src/arrow.rs:172-183 | a field without a data type is rejected as missing `field.data_type`; a decoded field keeps the name and nullability and, built by `Field::new`, has no metadata and default dictionary settings at every level |
| ArrowProto.DecodeFields | src/persist-types/src/arrow.rs:149-155 | the children decode one field each, or the first failing child's error |
| ArrowProto.MapWithoutValueIsRejected | src/persist-types/src/arrow.rs:143-146 | a map message without its value is rejected as missing `map.value` |
| ArrowProto.DecodeEncodeType | src/persist-types/src/arrow.rs:87-160 | decoding the encoding of any supported type, nested lists, maps and structs included, gives the type back, with every nested field's metadata and dictionary settings reset to `Field::new`'s defaults |
| ArrowProto.DecodeEncodeScalarType | src/persist-types/src/arrow.rs:89-103 | the scalar and fixed-size-binary kinds round-trip |
| ArrowProto.DecodeEncodeField | src/persist-types/src/arrow.rs:164-183 | a supported field round-trips to its name, nullability and type, with metadata and dictionary settings reset to the defaults |
| ArrowProto.DecodeEncodeFields | src/persist-types/src/arrow.rs:112-115 | a list of supported fields round-trips, each field reset to the default metadata and dictionary settings |
| ArrowProto.FieldRoundTripIsExact | src/persist-types/src/arrow.rs:164-183 | a supported field round-trips exactly if and only if it, and every field nested in it, has no metadata, dictionary id 0 and an unordered dictionary |
| ArrowProto.PlainFixesPlainTypes | src/persist-types/src/arrow.rs:182 | resetting metadata leaves a type unchanged exactly when every nested field already has the defaults |
| ArrowProto.EncodeDecodeType | src/persist-types/src/arrow.rs:87-160 | a message that decodes is exactly the encoding of what it decodes to |
| ArrowProto.EncodeDecodeField | src/persist-types/src/arrow.rs:164-183 | a field message that decodes re-encodes to itself |
| ArrowProto.EncodeDecodeFields | src/persist-types/src/arrow.rs:149-155 | a list of field messages that decodes re-encodes to itself |
| ArrowProto.EncodeBooleanBuffer | src/persist-types/src/arrow.rs:200-205 | only the viewed bits are sent, with their count as the length |
| ArrowProto.DecodeBooleanBuffer | src/persist-types/src/arrow.rs:207-211 | a missing buffer is rejected, as is a length beyond the buffer; a decoded buffer views from bit 0 for the sent length |
| ArrowProto.BooleanBufferRoundTrip | src/persist-types/src/arrow.rs:199-211 | a round trip keeps every viewed bit and rebases the view at offset 0 |
| ArrowOrd.CmpBytes | src/persist-types/src/arrow.rs:358-361 | byte strings compare equal exactly when they are equal |
| ArrowOrd.Eq | src/persist-types/src/arrow.rs:414-416 | `eq` holds exactly when `cmp` is `Equal`, and panics exactly when `cmp` does |
| ArrowOrd.PartialCmp | src/persist-types/src/arrow.rs:408-410 | `partial_cmp` is always `Some(cmp)` |
| ArrowOrd.CmpScalarFlip | src/persist-types/src/arrow.rs:343-362 | swapping two values flips their comparison |
| ArrowOrd.CmpBytesFlip | src/persist-types/src/arrow.rs:358-361 | swapping two byte strings flips their comparison |
| ArrowOrd.CmpFlip | src/persist-types/src/arrow.rs:313-404 | swapping two cells flips the result, and one comparison panics exactly when the other does |
| ArrowOrd.CmpRangesFlip | src/persist-types/src/arrow.rs:370-386 | swapping two list ranges flips their lexicographic comparison |
| ArrowOrd.CmpColumnsFlip | src/persist-types/src/arrow.rs:395-399 | swapping two struct rows flips their column-wise comparison |
| ArrowOrd.EqSymmetric | src/persist-types/src/arrow.rs:414-416 | cell equality is symmetric |
| ArrowOrd.WellFormedFewerRows | src/persist-types/src/arrow.rs:370-378 | an array well formed for some rows is well formed for fewer |
| ArrowOrd.CmpReflexive | src/persist-types/src/arrow.rs:313-404 | every in-range cell of a well-formed array compares `Equal` to itself and never panics |
| ArrowOrd.Cmp | src/persist-types/src/arrow.rs:313-404 | cells of arrays of different kinds cannot be compared (the `array types did not match` panic); cells of null arrays are always `Equal` |
| ArrowOrd.CmpRanges | src/persist-types/src/arrow.rs:370-385 | two list ranges compare `Equal` only when they hold the same number of cells |
| ArrowOrd.CmpColumns | src/persist-types/src/arrow.rs:395-398 | two struct rows compare `Equal` only when the arrays have the same number of columns |
| ArrowOrd.IsNull | src/persist-types/src/arrow.rs:315-317 | no bitmap means no nulls; an index past the bitmap panics; otherwise the bitmap's bit |
| ArrowOrd.Offset | src/persist-types/src/arrow.rs:376-377 | an offset is read only inside the buffer and only when it is a valid index |
| ArrowOrd.CmpTransitive | src/persist-types/src/arrow.rs:313-404 | the order is transitive: `a ≤ b` and `b ≤ c` without panics give `a ≤ c` without a panic, `Equal` exactly when both steps are |
| ArrowOrd.CmpRangesTransitive | src/persist-types/src/arrow.rs:378-385 | lexicographic comparison of list ranges is transitive |
| ArrowOrd.CmpColumnsTransitive | src/persist-types/src/arrow.rs:390-399 | column-by-column comparison of struct rows is transitive |
| ArrowOrd.CmpScalarTransitive | src/persist-types/src/arrow.rs:343-362 | value comparison, `total_cmp` on floats included, is transitive |
| ArrowOrd.CmpBytesTransitive | src/persist-types/src/arrow.rs:358-362 | lexicographic byte-string order is transitive |
| ArrowOrd.CmpTotal | src/persist-types/src/arrow.rs:313-404 | the order is total: in-range cells of well-formed arrays shaped by one data type always compare, without a panic |
| ArrowOrd.CmpRangesTotal | src/persist-types/src/arrow.rs:378-385 | in-range list ranges always compare |
| ArrowOrd.CmpColumnsTotal | src/persist-types/src/arrow.rs:390-399 | in-range struct rows always compare |
| ArrowOrd.CmpRangesReflexive | src/persist-types/src/arrow.rs:370-386 | an in-range list range compares `Equal` to itself |
| ArrowOrd.CmpColumnsReflexive | src/persist-types/src/arrow.rs:395-399 | an in-range struct row compares `Equal` to itself |
| ArrowOrd.CmpScalarReflexive | src/persist-types/src/arrow.rs:343-362 | every value compares `Equal` to itself |
| ArrowOrd.NullArraysEqual | src/persist-types/src/arrow.rs:335-341 | two cells of null arrays are equal whatever their indices |
| ArrowOrd.NullsSortLast | src/persist-types/src/arrow.rs:326-331 | a null cell sorts after every non-null cell of the same kind of array, in both argument orders |
| ArrowOrd.NullsEqual | src/persist-types/src/arrow.rs:329 | two null cells of the same kind of array are `Equal`, whatever their indices, at primitive, list and struct level |
| ArrowOrd.MismatchedKindsPanic | src/persist-types/src/arrow.rs:402 | cells of arrays of different kinds cannot be compared |
| ArrowOrd.New | src/persist-types/src/arrow.rs:255-294 | downcasting succeeds exactly for arrays without maps or other types at any depth. Primitive and null arrays keep their validity and values; lists keep their validity and offsets; structs keep one column per child |
| ArrowOrd.NewColumns | src/persist-types/src/arrow.rs:285-289 | the struct columns downcast one per child, exactly when every child does |
| ArrowOrd.NewSameKind | src/persist-types/src/arrow.rs:255-294 | two arrays of one primitive or null data type downcast to arrays whose cells compare without a kind mismatch |
| ArrowOrd.NewConforms | src/persist-types/src/arrow.rs:255-294 | the downcast of a consistently typed array has the shape of its data type at every depth |
| ArrowOrd.NewTotal | src/persist-types/src/arrow.rs:255-404 | cells of two downcasts of one data type always compare: `Ord` is total there |
| StashUpgrade.ConvertGlobalIdValue | src/stash/src/upgrade/v36_to_v37.rs:15 | the global-id conversion is inverted by its back conversion |
| StashUpgrade.ConvertItemKey | src/stash/src/upgrade/v36_to_v37.rs:15 | the item-key conversion loses nothing |
| StashUpgrade.ConvertSchemaIdValue | src/stash/src/upgrade/v36_to_v37.rs:16 | the schema-id value conversion loses nothing |
| StashUpgrade.ConvertSchemaId | src/stash/src/upgrade/v36_to_v37.rs:16 | the schema-id conversion loses nothing |
| StashUpgrade.ConvertRoleIdValue | src/stash/src/upgrade/v36_to_v37.rs:17 | the role-id value conversion loses nothing |
| StashUpgrade.ConvertRole | src/stash/src/upgrade/v36_to_v37.rs:54-56 | the optional owner converts without loss |
| StashUpgrade.ConvertAclItem | src/stash/src/upgrade/v36_to_v37.rs:18 | a privilege converts without loss |
| StashUpgrade.UpgradeValue | src/stash/src/upgrade/v36_to_v37.rs:38-63 | the upgrade succeeds exactly when the definition and its value are present, failing with the source's message otherwise. On success it keeps the name, takes `create_sql` from the definition, keeps the presence of schema and owner, and converts every privilege losslessly in order |
| StashUpgrade.Downgrade | src/stash/src/upgrade/v36_to_v37.rs:40-53 | the inverse of the upgrade yields a v36 item with a definition and the same name |
| StashUpgrade.DowngradeUpgrade | src/stash/src/upgrade/v36_to_v37.rs:38-63 | upgrading then downgrading an item with a definition gives it back |
| StashUpgrade.UpgradeDowngrade | src/stash/src/upgrade/v36_to_v37.rs:38-63 | downgrading then upgrading any v37 item gives it back |
| StashUpgrade.RoleRoundTrip | src/stash/src/upgrade/v36_to_v37.rs:54-56 | converting back and forth leaves a v37 owner unchanged |
| StashUpgrade.Upgrade | src/stash/src/upgrade/v36_to_v37.rs:23-36 | the migration succeeds exactly when every item has a definition. It then yields one update per entry, in order, keyed by the old key, whose new key and value convert back to the entry |
| StashUpgrade.UpgradeFailsAtFirst | src/stash/src/upgrade/v36_to_v37.rs:23-36 | a failing migration reports the error of one of its entries |
| StashUpgrade.UpgradeKeys | src/stash/src/upgrade/v36_to_v37.rs:23-36 | the updated keys are exactly the keys of the collection |
| StashUpgrade.SmokeTest | src/stash/src/upgrade/v36_to_v37.rs:70-166 | the smoke test's item migrates to exactly the expected v37 item, for any `create_sql` |
| Int32Funcs.NegInt32 | src/expr/src/scalar/func/impls/int32.rs:11-14 | `-a` exists exactly when `a` is not `i32::MIN`, adds to `a` to give zero, and fails only where the negation exceeds `i32::MAX` |
| Int32Funcs.NegInvolution | src/expr/src/scalar/func/impls/int32.rs:11-14 | negating twice gives back every `a` other than `i32::MIN` |
| Int32Funcs.AbsInt32 | src/expr/src/scalar/func/impls/int32.rs:25-28 | `abs` exists exactly when `a` is not `i32::MIN`, is non-negative and equals `a` or `-a`, and is the negation for a negative `a` |
| Int32Funcs.UnsignedEncode | src/expr/src/scalar/func/impls/int32.rs:18-21 | encoding a number that fits in the width loses nothing |
| Int32Funcs.FromToBits | src/expr/src/scalar/func/impls/int32.rs:18-21 | reading back the two's-complement pattern of `a` gives `a` |
| Int32Funcs.UnsignedFlip | src/expr/src/scalar/func/impls/int32.rs:18-21 | a bit pattern and its complement add up to all ones |
| Int32Funcs.BitNotInt32 | src/expr/src/scalar/func/impls/int32.rs:18-21 | `!a` is the value whose two's-complement pattern is the complement of `a`'s, bit by bit |
| Int32Funcs.ToFromBits | src/expr/src/scalar/func/impls/int32.rs:18-21 | reading a 32-bit pattern as a value and writing it back gives the pattern |
| Int32Funcs.EncodeUnsigned | src/expr/src/scalar/func/impls/int32.rs:18-21 | writing out the value of a bit pattern gives the pattern |
| Int32Funcs.BitNotIsNegMinusOne | src/expr/src/scalar/func/impls/int32.rs:18-21 | `!a` is `-a - 1` for every `a`, so it always fits |
| Int32Funcs.BitNotInvolution | src/expr/src/scalar/func/impls/int32.rs:18-21 | complementing twice gives back `a` |
| Mzbuild.ChmodX | misc/python/materialize/mzbuild.py:155-160 | no bit of the mode is cleared |
| Mzbuild.ChmodXOnlyExecute | misc/python/materialize/mzbuild.py:159 | only execute bits change |
| Mzbuild.ChmodXSetsExecute | misc/python/materialize/mzbuild.py:159 | each class's execute bit is set exactly when it was set or that class's read bit is |
| Mzbuild.ChmodXIdempotent | misc/python/materialize/mzbuild.py:159 | marking executable twice is marking once |
| Mzbuild.FirstSegment | misc/python/materialize/mzbuild.py:452-454 | `split(c)[0]` is a prefix without `c`, followed by `c` unless it is the whole string |
| Mzbuild.LastSegment | misc/python/materialize/mzbuild.py:452-454 | `split(c)[-1]` is a suffix without `c`, preceded by `c` unless it is the whole string |
| Mzbuild.FirstSegmentAt | misc/python/materialize/mzbuild.py:452 | the first segment ends at the first separator |
| Mzbuild.LastSegmentAt | misc/python/materialize/mzbuild.py:454 | the last segment starts after the last separator |
| Mzbuild.PackageName | misc/python/materialize/mzbuild.py:450-454 | the package name holds no `#` or `@`, and no `/` for an id without `@` |
| Mzbuild.PackageNameOfVersionedId | misc/python/materialize/mzbuild.py:446-452 | an id `source#name@version` names `name` |
| Mzbuild.PackageNameOfPathId | misc/python/materialize/mzbuild.py:449-454 | an id `dirs/name#version` without `@` names `name` |
| Mzbuild.Characters | misc/python/materialize/mzbuild.py:252-257 | `list += str` adds one single-character string per character, in order |
| Mzbuild.Extra | misc/python/materialize/mzbuild.py:248-259 | `extra` returns a sorted arrangement of the collected flags joined by `,` |
| Mzbuild.ExtraDeterministic | misc/python/materialize/mzbuild.py:258-259 | the result of `extra` is determined by the configuration: the sorted arrangement is unique |
| Mzbuild.JoinSinglesLength | misc/python/materialize/mzbuild.py:259 | joining `n` one-character strings with `,` gives `2n - 1` characters |
| Mzbuild.Join | misc/python/materialize/mzbuild.py:259 | `sep.join` starts with the first string, and its length is the strings' total plus one separator between each two |
| Mzbuild.ExtraSplitsWords | misc/python/materialize/mzbuild.py:252-253 | a plain release build yields 13 characters, never the word `release` |
| Mzbuild.ExtraWords | misc/python/materialize/mzbuild.py:248-259 | with each flag appended as one word, the result is the sorted words joined by `,` |
| Mzbuild.ExtraWordsOfRelease | misc/python/materialize/mzbuild.py:252-253 | with whole words, a plain release build yields `release` |
| Mzbuild.FindInvalid | misc/python/materialize/mzbuild.py:521 | no position is found exactly when every character is alphanumeric or `-`; a found position holds a disallowed character |
| Mzbuild.CheckImageName | misc/python/materialize/mzbuild.py:521-524 | a name passes exactly when every character is allowed, and fails with the source's message otherwise |
| Mzbuild.SpacePrefix | misc/python/materialize/mzbuild.py:497 | `\s*` matches the longest run of blanks |
| Mzbuild.WordPrefix | misc/python/materialize/mzbuild.py:497 | `\S+` matches the longest run of non-blanks |
| Mzbuild.ParseMzfrom | misc/python/materialize/mzbuild.py:497 | a matched `MZFROM` target is a non-empty word without blanks |
| Mzbuild.ParseDirective | misc/python/materialize/mzbuild.py:497 | a matched directive argument is a non-empty word without blanks |
| Mzbuild.ParseMzfromShape | misc/python/materialize/mzbuild.py:497 | a line `MZFROM`, blanks, a word, then nothing or a blank yields that word |
| Mzbuild.DirectiveShape | misc/python/materialize/mzbuild.py:497 | a line made of the keyword, blanks, a word, then nothing or a blank yields that word |
| Mzbuild.SpacePrefixOf | misc/python/materialize/mzbuild.py:497 | blanks before a non-blank are exactly what `\s*` matches |
| Mzbuild.WordPrefixOf | misc/python/materialize/mzbuild.py:497 | a word before a blank or the end is exactly what `\S+` matches |
| Mzbuild.ScanDockerfile | misc/python/materialize/mzbuild.py:526-531 | one non-empty dependency per `MZFROM` line, in line order |
| Mzbuild.MzfromTargets | misc/python/materialize/mzbuild.py:526-531 | at most one target per line, each a non-empty word without blanks |
| Mzbuild.DockerName | misc/python/materialize/mzbuild.py:559-564 | the name is `registry/prefix+name`, followed by `:tag` exactly when a non-empty tag is given |
| Mzbuild.DockerNameTag | misc/python/materialize/mzbuild.py:559-564 | a tag without `:` is recovered as the text after the last `:` of the Docker name |
| Mzbuild.LastSegmentAfter | misc/python/materialize/mzbuild.py:562-563 | text after a final separator is the last segment |
| Mzbuild.RelativeTo | misc/python/materialize/mzbuild.py:127-129 | `relative_to` succeeds exactly when the base leads the path, and then the base plus the result is the path |
| Mzbuild.RewriteBuilderPathForHost | misc/python/materialize/mzbuild.py:118-129 | a path under the builder's target directory moves, with the same remainder, under the host's; any other path is unchanged |
| Sorting.StrLeTotal | misc/python/materialize/mzbuild.py:258 | any two strings are ordered one way or the other |
| Sorting.StrLeReflexive | misc/python/materialize/mzbuild.py:258 | every string is at most itself |
| Sorting.StrLeTransitive | misc/python/materialize/mzbuild.py:258 | the string order is transitive |
| Sorting.StrLeAntisymmetric | misc/python/materialize/mzbuild.py:258 | strings ordered both ways are equal |
| Sorting.Sort | misc/python/materialize/mzbuild.py:258 | the result is ordered and a permutation of the input |
| Sorting.Insert | misc/python/materialize/mzbuild.py:1058 | inserting into an ordered list keeps it ordered and adds exactly the element |
| Sorting.SortedUnique | misc/python/materialize/mzbuild.py:1058 | two ordered arrangements of one collection are equal |
| MzbuildDeps.ResolveNext | misc/python/materialize/mzbuild.py:1060 | resolving an image whose dependencies are resolved keeps every image after its dependencies |
| MzbuildDeps.Resolver.constructor | misc/python/materialize/mzbuild.py:1047-1048 | resolution starts with nothing resolved or visiting |
| MzbuildDeps.Resolver.Visit | misc/python/materialize/mzbuild.py:1050-1060 | a visit either resolves the image after all of its dependencies or reports `circular dependency in mzbuild:` with a dependency walk that closes a cycle |
| MzbuildDeps.Resolver.VisitAll | misc/python/materialize/mzbuild.py:1058-1059 | visiting the sorted dependencies resolves every one of them, or reports a cycle |
| MzbuildDeps.CycleClosed | misc/python/materialize/mzbuild.py:1053-1055 | reaching an image already on the path closes a cycle |
| MzbuildDeps.ResolveDependencies | misc/python/materialize/mzbuild.py:1035-1065 | on success every image comes once, after all of its dependencies, and every target is there; on failure the message draws a walk that closes a cycle |
| MzbuildDeps.ChainDescends | misc/python/materialize/mzbuild.py:1050-1060 | a dependency walk strictly descends any ranking of the images |
| MzbuildDeps.RankedHasNoCycle | misc/python/materialize/mzbuild.py:1053-1055 | a repository whose images can be ranked has no cycle, so resolving never reports one |
| MzbuildDeps.IndexOfName | misc/python/materialize/mzbuild.py:694-700 | a found position holds the image named, and no position is found only when there is no such image |
| MzbuildDeps.IndexOfEarlier | misc/python/materialize/mzbuild.py:694-700 | in a topologically sorted set every dependency of an image is found before it |
| MzbuildDeps.ListDependencies | misc/python/materialize/mzbuild.py:694-700 | the result holds every direct dependency, and every name in it belongs to an image sorted before this one |
| MzbuildDeps.DirectDependencies | misc/python/materialize/mzbuild.py:694-700 | without `transitive` the result is exactly the direct dependencies |
| MzbuildDeps.TransitiveDependencies | misc/python/materialize/mzbuild.py:694-700 | the transitive dependencies include the direct ones, are closed under dependency and all come before the image, which never depends on itself |
| MzbuildDeps.NamesOkPrefix | misc/python/materialize/mzbuild.py:935-946 | names acceptable for a walk are acceptable for every prefix of it |
| MzbuildDeps.ImagesOf | misc/python/materialize/mzbuild.py:935-941 | the images of a walk are filed under their own names, one per image name |
| MzbuildDeps.CompositionsOf | misc/python/materialize/mzbuild.py:942-946 | the compositions of a walk are filed under their directory names |
| MzbuildDeps.Discover | misc/python/materialize/mzbuild.py:905-954 | discovery succeeds exactly when the names are valid and unique and every dependency is an image; the result files every image and composition under its name |
| MzbuildDeps.File | misc/python/materialize/mzbuild.py:935-946 | one directory is filed exactly when its names are allowed next to those filed before, and then its image and its composition are added under their names |
| MzbuildDeps.WalkStep | misc/python/materialize/mzbuild.py:920-946 | extending the walk by one directory extends the filed images and compositions by that directory's |
| MzbuildDeps.MissingDependency | misc/python/materialize/mzbuild.py:948-954 | no missing dependency is found exactly when every dependency is an image; a found one is a dependency of an image that is not an image |

## Left out

- The Timely and differential-dataflow plumbing is not modelled: operator scheduling, sessions, capabilities, `mz_replay`, and the arrangement and persist-sink operators. Changelogs are sequences of updates, and a routed sink is recorded as a handoff.
- `Row` and `Datum` packing is not modelled. Rows are typed records or sequences of generic datums, and the `count_total`, `map` and `Row::pack_slice` steps after the demultiplexer are left out.
- `HashMap` iteration order is unspecified in the source. The model chooses an arbitrary element each round and proves what holds for every order.
- `error!` log lines become entries of a `diagnostics` sequence. Their text is not modelled.
- `ComputeDemux.Demux.Apply`: each `expect("must fit")` is a precondition instead of a panic: the bucket time fits `u64` (`Accepts`), and the frontier's logical time fits `i64`.
- `ComputeDemux.Demux.Apply`: events must arrive in non-decreasing time order (`clock <= now` in `Accepts`). The `u128` subtractions of an arrival instant from the current one (compute.rs:235 and :302) rely on that order, and the model makes it a precondition rather than modelling an underflow.
- `ComputeDemux.Demux.Apply`: the delay histogram counts are `i32` (compute.rs:124), and `*delay_count += 1` (compute.rs:239) would overflow after 2^31 − 1 bumps of one bucket. Counts are unbounded integers in the model, and that overflow is not modelled.
- `LogMath.NextPowerOfTwo`: integers are unbounded, so the overflow of `u128::next_power_of_two` is not modelled.
- `LogMath.AsI64`: the two's-complement reinterpretation is written out; `u64` values are assumed below 2^64.
- `ArrangementSize.SizeProbe.Activate`: the `isize` conversions that `expect("must fit")` are a precondition on a 64-bit target.
- `ArrangementSize.SizeProbe.Install`: the registration event is logged when the probe is built, as operator.rs:170-171 does.
- The heap size of a columnar region is taken as the callbacks it makes; the region's internals are not modelled.
- The `ArrayData` protobuf codec, `Buffer` copying and `build_aligned` are not modelled. Only the data types, fields and boolean buffers are.
- `ArrowProto.EncodeType`: a data type outside the supported set reaches `unimplemented!` (arrow.rs:116). The model makes `Supported(t)` a precondition of the encoder instead of modelling that panic.
- `ArrowProto.DecodeBooleanBuffer`: `BooleanBuffer::new` asserts that the buffer is long enough. The model turns that panic into an error value.
- Byte padding of boolean buffers is not modelled; a buffer is a sequence of bits.
- Float values are represented by their position in IEEE `totalOrder`. `total_cmp` is therefore integer comparison here.
- `ArrowOrd.Cmp`: panics (kind mismatch, index past a buffer) are `None`. A negative list offset is outside the domain: `OffsetBuffer::new` rejects it when the buffer is built, and the model maps it to `None`. The `debug_assert!` on null-array bounds is not modelled.
- `StashUpgrade.UpgradeValue`: the two `expect` panics are errors carrying the same messages.
- The transaction I/O of `migrate_to` and the async `upgrade` are not modelled. `Upgrade` models the closure over the collection's entries.
- The `wire_compatible!` conversions are modelled as structure-preserving maps between the two versions' types.
- `StashUpgrade.SmokeTest`: the test's item is checked for any `create_sql` rather than the literal SQL text. The stash setup and reads are not modelled.
- `Int32Funcs.NegInt32` and `Int32Funcs.AbsInt32`: `-i32::MIN` and `i32::MIN.abs()` overflow in Rust (a panic in debug builds, wrap-around in release builds). The model reports that case as `Int32OutOfRange` and states no result value.
- Docker, git, cargo, YAML, the file system and `os.walk` are not modelled. The directories of the walk are a given sequence, each with its declared image and whether it holds `mzcompose.py`. The directories the walk skips are not modelled.
- `Mzbuild.ChmodX`: the file mode is a 32-bit vector; `os.stat`/`os.chmod` are not modelled.
- Fingerprints (SHA-1 over inputs), `inputs`, publishing and building images are not modelled.
- `MzbuildDeps.Discover`: the text of the non-existent-dependency error is not stated. The source reports the first missing dependency in image insertion order, which is the directory-walk order. `set(dirs)` (mzbuild.py:925) leaves that order unspecified. The model files images in a `map`, which keeps no insertion order. Whether the error occurs is stated exactly.
- `MzbuildDeps.ResolveDependencies`: the exact output order beyond topological order, and minimality of the resolved set, are not stated.
- `Mzbuild.ParseMzfromShape`: only completeness is stated: lines of that shape parse to their word. That every parsed word comes from such a line is not stated.
- `Mzbuild.RewriteBuilderPathForHost`: `pathlib` normalisation is not modelled; a path is a sequence of parts.
- The bytes regex `\s` is modelled on characters; file lines are not decoded from bytes.

## Findings

| source | as written | input that shows it | evidently intended | confidence | as-written member | corrected member |
|---|---|---|---|---|---|---|
| misc/python/materialize/mzbuild.py:252-257 | `flags += "release"` extends the list with the characters of the string, so `extra` returns `"a,e,e,e,l,r,s"` | release mode, no coverage, no sanitizer | the flag list holds whole words, so `extra` returns `"release"` | not executed | Mzbuild.ExtraSplitsWords | Mzbuild.ExtraWordsOfRelease |
