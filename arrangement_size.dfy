/**
 * The arrangement heap-size probe and `mz_reduce_abelian` of
 * src/compute/src/extensions/operator.rs (lines 137-345). A trace is a
 * sequence of batches; each batch layout names the buffers the size walk
 * visits. The heap size of a columnar region is taken as the sequence of
 * `(size, capacity)` callbacks it makes, without looking inside it.
 */
module ArrangementSize {
  import opened Wrappers

  /** Largest `isize` on a 64-bit target. */
  const ISIZE_MAX: int := 0x7FFF_FFFF_FFFF_FFFF

  /** A `Vec<T>`: its length, its capacity and `size_of::<T>()`. */
  datatype Vec = Vec(len: nat, capacity: nat, elemSize: nat)

  /** The `(size, capacity)` callbacks of a columnar region's `heap_size`. */
  type HeapSize = seq<(nat, nat)>

  /**
   * `vec_size`: the one callback for a vector, in bytes. A vector never
   * holds more elements than it has room for, so neither does the callback.
   */
  function VecSize(v: Vec): (cb: (nat, nat))
    ensures v.len <= v.capacity ==> cb.0 <= cb.1
    ensures v.elemSize == 0 ==> cb == (0, 0)
  {
    (v.len * v.elemSize, v.capacity * v.elemSize)
  }

  /** One batch of each trace layout, with the buffers the walk visits. */
  datatype Batch =
    | RowBatch(keys: HeapSize, valKeys: HeapSize, offs: Vec, valOffs: Vec, vals: Vec)
    | ErrValBatch(errKeys: Vec, errOffs: Vec, errValKeys: Vec, errValOffs: Vec, errVals: Vec)
    | ErrBatch(eKeys: Vec, eOffs: Vec, eVals: Vec)
    | RowKeyBatch(rowKeys: HeapSize, keyOffs: Vec, keyVals: Vec)

  /** The callbacks one batch makes, in the order its layout walks them (operator.rs:218-312). */
  function Walk(b: Batch): (cbs: seq<(nat, nat)>)
    ensures b.RowBatch? ==> |cbs| == |b.keys| + |b.valKeys| + 3
    ensures b.ErrValBatch? ==> |cbs| == 5
    ensures b.ErrBatch? ==> |cbs| == 3
    ensures b.RowKeyBatch? ==> |cbs| == |b.rowKeys| + 2
  {
    match b
    case RowBatch(keys, valKeys, offs, valOffs, vals) =>
      keys + valKeys + [VecSize(offs), VecSize(valOffs), VecSize(vals)]
    case ErrValBatch(keys, offs, valKeys, valOffs, vals) =>
      [VecSize(keys), VecSize(offs), VecSize(valKeys), VecSize(valOffs), VecSize(vals)]
    case ErrBatch(keys, offs, vals) =>
      [VecSize(keys), VecSize(offs), VecSize(vals)]
    case RowKeyBatch(keys, offs, vals) =>
      keys + [VecSize(offs), VecSize(vals)]
  }

  /** The callbacks of every batch of a trace (`map_batches`), in batch order. */
  function Callbacks(batches: seq<Batch>): seq<(nat, nat)>
  {
    if batches == [] then [] else Callbacks(batches[..|batches| - 1]) + Walk(batches[|batches| - 1])
  }

  datatype Totals = Totals(size: nat, capacity: nat, allocations: nat)

  /** The callback `|siz, cap| { allocations += 1; size += siz; capacity += cap }` applied in turn. */
  function Accumulate(t: Totals, cbs: seq<(nat, nat)>): Totals
  {
    if cbs == [] then t
    else
      var last := cbs[|cbs| - 1];
      var prev := Accumulate(t, cbs[..|cbs| - 1]);
      Totals(prev.size + last.0, prev.capacity + last.1, prev.allocations + 1)
  }

  /** The `(size, capacity, allocations)` a trace reports. */
  function TraceTotals(batches: seq<Batch>): Totals
  {
    Accumulate(Totals(0, 0, 0), Callbacks(batches))
  }

  /** Total walked size and capacity, callback by callback. */
  function SizeSum(cbs: seq<(nat, nat)>): nat
  {
    if cbs == [] then 0 else SizeSum(cbs[..|cbs| - 1]) + cbs[|cbs| - 1].0
  }

  function CapacitySum(cbs: seq<(nat, nat)>): nat
  {
    if cbs == [] then 0 else CapacitySum(cbs[..|cbs| - 1]) + cbs[|cbs| - 1].1
  }

  /**
   * The measuring closure each layout passes to the probe: three counters
   * starting at zero, bumped by every callback of every batch.
   */
  method Measure(batches: seq<Batch>) returns (size: nat, capacity: nat, allocations: nat)
    ensures Totals(size, capacity, allocations) == TraceTotals(batches)
  {
    size, capacity, allocations := 0, 0, 0;
    var b := 0;
    while b < |batches|
      invariant 0 <= b <= |batches|
      invariant Totals(size, capacity, allocations) == TraceTotals(batches[..b])
    {
      CallbacksSnoc(batches, b);
      size, capacity, allocations := MeasureBatch(Callbacks(batches[..b]), Walk(batches[b]), size, capacity, allocations);
      b := b + 1;
    }
    assert batches[..b] == batches;
  }

  /** The callbacks of one more batch come after those of the batches before it. */
  lemma CallbacksSnoc(batches: seq<Batch>, b: nat)
    requires b < |batches|
    ensures Callbacks(batches[..b + 1]) == Callbacks(batches[..b]) + Walk(batches[b])
  {
    assert batches[..b + 1][..b] == batches[..b];
  }

  /** `batch.heap_size(callback)` for one batch: the counters bumped by each of its buffers. */
  method MeasureBatch(ghost before: seq<(nat, nat)>, walk: seq<(nat, nat)>, size0: nat, capacity0: nat, allocations0: nat)
    returns (size: nat, capacity: nat, allocations: nat)
    requires Totals(size0, capacity0, allocations0) == Accumulate(Totals(0, 0, 0), before)
    ensures Totals(size, capacity, allocations) == Accumulate(Totals(0, 0, 0), before + walk)
  {
    size, capacity, allocations := size0, capacity0, allocations0;
    var i := 0;
    assert before + walk[..0] == before;
    while i < |walk|
      invariant 0 <= i <= |walk|
      invariant Totals(size, capacity, allocations) == Accumulate(Totals(0, 0, 0), before + walk[..i])
    {
      assert before + walk[..i + 1] == (before + walk[..i]) + [walk[i]];
      AccumulateSnoc(Totals(0, 0, 0), before + walk[..i], walk[i]);
      allocations := allocations + 1;
      size := size + walk[i].0;
      capacity := capacity + walk[i].1;
      i := i + 1;
    }
    assert walk[..i] == walk;
  }

  lemma AccumulateSnoc(t: Totals, cbs: seq<(nat, nat)>, c: (nat, nat))
    ensures var prev := Accumulate(t, cbs);
            Accumulate(t, cbs + [c]) == Totals(prev.size + c.0, prev.capacity + c.1, prev.allocations + 1)
  {
    assert (cbs + [c])[..|cbs|] == cbs;
  }

  // ---------------------------------------------------------------------
  // Properties of the walk
  // ---------------------------------------------------------------------

  /** Every callback counts one allocation and adds its size and capacity. */
  lemma {:induction false} AccumulateCounts(cbs: seq<(nat, nat)>)
    ensures Accumulate(Totals(0, 0, 0), cbs) == Totals(SizeSum(cbs), CapacitySum(cbs), |cbs|)
  {
    if cbs != [] {
      AccumulateCounts(cbs[..|cbs| - 1]);
    }
  }

  lemma {:induction false} CallbacksLength(batches: seq<Batch>)
    ensures |Callbacks(batches)| == AllocationsOf(batches)
  {
    if batches != [] {
      CallbacksLength(batches[..|batches| - 1]);
    }
  }

  /** The number of buffers a trace's walk visits, batch by batch. */
  function AllocationsOf(batches: seq<Batch>): nat
  {
    if batches == [] then 0 else AllocationsOf(batches[..|batches| - 1]) + |Walk(batches[|batches| - 1])|
  }

  /** An `ErrSpine` trace reports three allocations per batch. */
  lemma {:induction false} ErrSpineAllocations(batches: seq<Batch>)
    requires forall i :: 0 <= i < |batches| ==> batches[i].ErrBatch?
    ensures TraceTotals(batches).allocations == 3 * |batches|
  {
    AccumulateCounts(Callbacks(batches));
    CallbacksLength(batches);
    AllocationsPerBatch(batches, 3);
  }

  /** An `ErrValSpine` trace reports five allocations per batch. */
  lemma {:induction false} ErrValSpineAllocations(batches: seq<Batch>)
    requires forall i :: 0 <= i < |batches| ==> batches[i].ErrValBatch?
    ensures TraceTotals(batches).allocations == 5 * |batches|
  {
    AccumulateCounts(Callbacks(batches));
    CallbacksLength(batches);
    AllocationsPerBatch(batches, 5);
  }

  lemma {:induction false} AllocationsPerBatch(batches: seq<Batch>, k: nat)
    requires forall i :: 0 <= i < |batches| ==> |Walk(batches[i])| == k
    ensures AllocationsOf(batches) == k * |batches|
  {
    if batches != [] {
      var init := batches[..|batches| - 1];
      assert forall i :: 0 <= i < |init| ==> init[i] == batches[i];
      AllocationsPerBatch(init, k);
      assert |Walk(batches[|batches| - 1])| == k;
      assert |batches| == |init| + 1;
      assert k * (|init| + 1) == k * |init| + k;
    }
  }

  /** A callback whose size does not exceed its capacity. */
  predicate WithinCapacity(cbs: seq<(nat, nat)>)
  {
    forall i :: 0 <= i < |cbs| ==> cbs[i].0 <= cbs[i].1
  }

  predicate VecWithin(v: Vec)
  {
    v.len <= v.capacity
  }

  /** Every buffer of a batch uses no more than it has allocated. */
  predicate BatchWithin(b: Batch)
  {
    match b
    case RowBatch(keys, valKeys, offs, valOffs, vals) =>
      WithinCapacity(keys) && WithinCapacity(valKeys) && VecWithin(offs) && VecWithin(valOffs) && VecWithin(vals)
    case ErrValBatch(keys, offs, valKeys, valOffs, vals) =>
      VecWithin(keys) && VecWithin(offs) && VecWithin(valKeys) && VecWithin(valOffs) && VecWithin(vals)
    case ErrBatch(keys, offs, vals) => VecWithin(keys) && VecWithin(offs) && VecWithin(vals)
    case RowKeyBatch(keys, offs, vals) => WithinCapacity(keys) && VecWithin(offs) && VecWithin(vals)
  }

  /** A trace whose buffers are all within capacity never reports more size than capacity. */
  lemma {:induction false} SizeWithinCapacity(batches: seq<Batch>)
    requires forall i :: 0 <= i < |batches| ==> BatchWithin(batches[i])
    ensures TraceTotals(batches).size <= TraceTotals(batches).capacity
  {
    CallbacksWithin(batches);
    AccumulateCounts(Callbacks(batches));
    SumsWithin(Callbacks(batches));
  }

  lemma {:induction false} CallbacksWithin(batches: seq<Batch>)
    requires forall i :: 0 <= i < |batches| ==> BatchWithin(batches[i])
    ensures WithinCapacity(Callbacks(batches))
  {
    if batches != [] {
      CallbacksWithin(batches[..|batches| - 1]);
      var b := batches[|batches| - 1];
      assert BatchWithin(b);
      var w := Walk(b);
      assert WithinCapacity(w) by {
        match b
        case RowBatch(keys, valKeys, offs, valOffs, vals) =>
          assert VecWithin(offs) && VecWithin(valOffs) && VecWithin(vals);
        case ErrValBatch(keys, offs, valKeys, valOffs, vals) =>
        case ErrBatch(keys, offs, vals) =>
        case RowKeyBatch(keys, offs, vals) =>
      }
    }
  }

  lemma {:induction false} SumsWithin(cbs: seq<(nat, nat)>)
    requires WithinCapacity(cbs)
    ensures SizeSum(cbs) <= CapacitySum(cbs)
  {
    if cbs != [] {
      SumsWithin(cbs[..|cbs| - 1]);
    }
  }

  // ---------------------------------------------------------------------
  // The probe
  // ---------------------------------------------------------------------

  /** The shared trace storage an arrangement's handles read. */
  class Trace {
    var batches: seq<Batch>

    constructor (batches: seq<Batch>)
      ensures this.batches == batches
    {
      this.batches := batches;
    }
  }

  /** A `TraceAgent` handle: shared storage plus this handle's own compaction frontiers. */
  class TraceHandle {
    const trace: Trace
    var logicalCompaction: seq<nat>
    var physicalCompaction: seq<nat>

    constructor (trace: Trace, logical: seq<nat>, physical: seq<nat>)
      ensures this.trace == trace && logicalCompaction == logical && physicalCompaction == physical
    {
      this.trace := trace;
      logicalCompaction := logical;
      physicalCompaction := physical;
    }

    /** `arranged.trace.clone()`: a new handle onto the same storage. */
    method Clone() returns (h: TraceHandle)
      ensures fresh(h) && h.trace == trace
      ensures h.logicalCompaction == logicalCompaction && h.physicalCompaction == physicalCompaction
    {
      h := new TraceHandle(trace, logicalCompaction, physicalCompaction);
    }
  }

  /** What the probe logs through the compute logger. */
  datatype HeapEvent =
    | HeapSizeOperator(operator: nat, address: seq<nat>)
    | HeapSize(sizeOperator: nat, size: int)
    | HeapCapacity(capacityOperator: nat, capacity: int)
    | HeapAllocations(allocationsOperator: nat, allocations: int)

  function SumSize(es: seq<HeapEvent>): int
  {
    if es == [] then 0
    else SumSize(es[..|es| - 1]) + (if es[|es| - 1].HeapSize? then es[|es| - 1].size else 0)
  }

  function SumCapacity(es: seq<HeapEvent>): int
  {
    if es == [] then 0
    else SumCapacity(es[..|es| - 1]) + (if es[|es| - 1].HeapCapacity? then es[|es| - 1].capacity else 0)
  }

  function SumAllocations(es: seq<HeapEvent>): int
  {
    if es == [] then 0
    else SumAllocations(es[..|es| - 1]) + (if es[|es| - 1].HeapAllocations? then es[|es| - 1].allocations else 0)
  }

  /**
   * The events one activation logs for operator `op` when the totals move
   * from `before` to `after`: one per metric that changed, carrying after − before,
   * in the order size, capacity, allocations (operator.rs:177-199).
   */
  function Deltas(op: nat, before: Totals, after: Totals): (r: seq<HeapEvent>)
    ensures |r| <= 3
    ensures before == after ==> r == []
  {
    (if after.size != before.size then [HeapSize(op, after.size - before.size)] else [])
    + (if after.capacity != before.capacity then [HeapCapacity(op, after.capacity - before.capacity)] else [])
    + (if after.allocations != before.allocations then [HeapAllocations(op, after.allocations - before.allocations)] else [])
  }

  /** Each metric's delta is logged exactly when the metric changed, and carries the change. */
  lemma DeltasReportChanges(op: nat, before: Totals, after: Totals)
    ensures (exists e :: e in Deltas(op, before, after) && e.HeapSize?) <==> after.size != before.size
    ensures (exists e :: e in Deltas(op, before, after) && e.HeapCapacity?) <==> after.capacity != before.capacity
    ensures (exists e :: e in Deltas(op, before, after) && e.HeapAllocations?) <==> after.allocations != before.allocations
    ensures SumSize(Deltas(op, before, after)) == after.size - before.size
    ensures SumCapacity(Deltas(op, before, after)) == after.capacity - before.capacity
    ensures SumAllocations(Deltas(op, before, after)) == after.allocations - before.allocations
  {
    DeltasLogChanges(op, before, after);
    DeltasSumChanges(op, before, after);
  }

  /** A metric's event is present exactly when the metric changed. */
  lemma DeltasLogChanges(op: nat, before: Totals, after: Totals)
    ensures (exists e :: e in Deltas(op, before, after) && e.HeapSize?) <==> after.size != before.size
    ensures (exists e :: e in Deltas(op, before, after) && e.HeapCapacity?) <==> after.capacity != before.capacity
    ensures (exists e :: e in Deltas(op, before, after) && e.HeapAllocations?) <==> after.allocations != before.allocations
  {
    if after.size != before.size {
      assert HeapSize(op, after.size - before.size) in Deltas(op, before, after);
    }
    if after.capacity != before.capacity {
      assert HeapCapacity(op, after.capacity - before.capacity) in Deltas(op, before, after);
    }
    if after.allocations != before.allocations {
      assert HeapAllocations(op, after.allocations - before.allocations) in Deltas(op, before, after);
    }
  }

  /** Each metric's logged deltas sum to its change. */
  lemma DeltasSumChanges(op: nat, before: Totals, after: Totals)
    ensures SumSize(Deltas(op, before, after)) == after.size - before.size
    ensures SumCapacity(Deltas(op, before, after)) == after.capacity - before.capacity
    ensures SumAllocations(Deltas(op, before, after)) == after.allocations - before.allocations
  {
    var a := if after.size != before.size then [HeapSize(op, after.size - before.size)] else [];
    var b := if after.capacity != before.capacity then [HeapCapacity(op, after.capacity - before.capacity)] else [];
    var c := if after.allocations != before.allocations then [HeapAllocations(op, after.allocations - before.allocations)] else [];
    SumsAppend(a + b, c);
    SumsAppend(a, b);
    SumsAppend([], a);
    assert [] + a == a;
  }

  lemma {:induction false} SumsAppend(a: seq<HeapEvent>, b: seq<HeapEvent>)
    ensures SumSize(a + b) == SumSize(a) + SumSize(b)
    ensures SumCapacity(a + b) == SumCapacity(a) + SumCapacity(b)
    ensures SumAllocations(a + b) == SumAllocations(a) + SumAllocations(b)
    decreases |b|
  {
    if b == [] {
      assert a + b == a;
    } else {
      assert (a + b)[..|a + b| - 1] == a + b[..|b| - 1];
      SumsAppend(a, b[..|b| - 1]);
    }
  }

  /** An activation that finds the totals unchanged logs nothing. */
  lemma UnchangedTraceLogsNothing(op: nat, t: Totals)
    ensures Deltas(op, t, t) == []
  {
  }

  /**
   * The probe installed on one arrangement (`log_arrangement_size_inner`):
   * its own trace handle, the previous totals, and the events it has logged.
   */
  class SizeProbe {
    const operator: nat
    const handle: TraceHandle
    var oldSize: nat
    var oldCapacity: nat
    var oldAllocations: nat
    var events: seq<HeapEvent>

    /** The deltas logged so far sum to the totals last seen. */
    ghost predicate Valid()
      reads this
    {
      && SumSize(events) == oldSize
      && SumCapacity(events) == oldCapacity
      && SumAllocations(events) == oldAllocations
    }

    constructor (operator: nat, address: seq<nat>, handle: TraceHandle)
      ensures this.operator == operator && this.handle == handle
      ensures oldSize == 0 && oldCapacity == 0 && oldAllocations == 0
      ensures events == [HeapSizeOperator(operator, address)]
      ensures Valid()
    {
      this.operator := operator;
      this.handle := handle;
      oldSize, oldCapacity, oldAllocations := 0, 0, 0;
      events := [HeapSizeOperator(operator, address)];
      new;
      assert events[..0] == [];
    }

    /**
     * Installs a probe on `arranged` (operator.rs:149-172): without a
     * registered logger nothing is installed; otherwise the probe gets its
     * own clone of the handle with empty compaction frontiers, so it never
     * holds back compaction, and logs the registration event once.
     */
    static method Install(arranged: TraceHandle, operator: nat, address: seq<nat>, hasLogger: bool)
      returns (probe: SizeProbe?)
      ensures !hasLogger ==> probe == null
      ensures hasLogger ==>
                && probe != null && fresh(probe) && fresh(probe.handle)
                && probe.handle.trace == arranged.trace
                && probe.handle.logicalCompaction == [] && probe.handle.physicalCompaction == []
                && probe.operator == operator
                && probe.oldSize == 0 && probe.oldCapacity == 0 && probe.oldAllocations == 0
                && probe.events == [HeapSizeOperator(operator, address)]
                && probe.Valid()
    {
      if !hasLogger {
        return null;
      }
      var trace := arranged.Clone();
      trace.logicalCompaction := [];
      trace.physicalCompaction := [];
      probe := new SizeProbe(operator, address, trace);
    }

    /**
     * One activation (operator.rs:173-204): measure the shared trace, log
     * the change of every metric that moved, and remember the new totals.
     * The totals must fit in an `isize`.
     */
    method Activate()
      requires Valid()
      requires TraceTotals(handle.trace.batches).size <= ISIZE_MAX
      requires TraceTotals(handle.trace.batches).capacity <= ISIZE_MAX
      requires TraceTotals(handle.trace.batches).allocations <= ISIZE_MAX
      modifies this
      ensures Valid()
      ensures var t := TraceTotals(handle.trace.batches);
              && oldSize == t.size && oldCapacity == t.capacity && oldAllocations == t.allocations
              && events == old(events) + Deltas(operator, Totals(old(oldSize), old(oldCapacity), old(oldAllocations)), t)
    {
      var size, capacity, allocations := Measure(handle.trace.batches);
      var logged := Emit(operator, events, Totals(oldSize, oldCapacity, oldAllocations), Totals(size, capacity, allocations));
      DeltasReportChanges(operator, Totals(oldSize, oldCapacity, oldAllocations), Totals(size, capacity, allocations));
      SumsAppend(events, Deltas(operator, Totals(oldSize, oldCapacity, oldAllocations), Totals(size, capacity, allocations)));
      events := logged;
      oldSize := size;
      oldCapacity := capacity;
      oldAllocations := allocations;
    }

    /** The three guarded `logger.log` calls of one activation. */
    static method Emit(op: nat, events: seq<HeapEvent>, before: Totals, after: Totals) returns (logged: seq<HeapEvent>)
      ensures logged == events + Deltas(op, before, after)
    {
      logged := events;
      if after.size != before.size {
        logged := logged + [HeapSize(op, after.size - before.size)];
      }
      if after.capacity != before.capacity {
        logged := logged + [HeapCapacity(op, after.capacity - before.capacity)];
      }
      if after.allocations != before.allocations {
        logged := logged + [HeapAllocations(op, after.allocations - before.allocations)];
      }
    }
  }

  // ---------------------------------------------------------------------
  // mz_reduce_abelian
  // ---------------------------------------------------------------------

  /** The net multiplicity of `x` in a list of `(value, diff)` updates. */
  function NetOf<D(==)>(us: seq<(D, int)>, x: D): int
  {
    if us == [] then 0 else NetOf(us[..|us| - 1], x) + (if us[|us| - 1].0 == x then us[|us| - 1].1 else 0)
  }

  function Negated<D>(us: seq<(D, int)>): (r: seq<(D, int)>)
    ensures |r| == |us|
    ensures forall i :: 0 <= i < |us| ==> r[i] == (us[i].0, -us[i].1)
  {
    seq(|us|, i requires 0 <= i < |us| => (us[i].0, -us[i].1))
  }

  /**
   * The reduction closure for one key (operator.rs:338-343): the user
   * logic appends the desired output to `change` only when the input is
   * non-empty; then every prior output update is drained into `change`
   * with its diff negated.
   */
  method ReduceAbelian<K, V, D>(logic: (K, seq<(V, int)>) -> seq<(D, int)>, key: K, input: seq<(V, int)>,
                                output: seq<(D, int)>, change: seq<(D, int)>)
    returns (newChange: seq<(D, int)>, drained: seq<(D, int)>)
    ensures drained == []
    ensures newChange == change + (if input != [] then logic(key, input) else []) + Negated(output)
  {
    newChange := change;
    if input != [] {
      newChange := newChange + logic(key, input);
    }
    ghost var afterLogic := newChange;
    var i := 0;
    while i < |output|
      invariant 0 <= i <= |output|
      invariant newChange == afterLogic + Negated(output[..i])
    {
      assert Negated(output[..i + 1]) == Negated(output[..i]) + [(output[i].0, -output[i].1)];
      newChange := newChange + [(output[i].0, -output[i].1)];
      i := i + 1;
    }
    assert output[..i] == output;
    drained := [];
  }

  lemma {:induction false} NetOfAppend<D>(a: seq<(D, int)>, b: seq<(D, int)>, x: D)
    ensures NetOf(a + b, x) == NetOf(a, x) + NetOf(b, x)
    decreases |b|
  {
    if b == [] {
      assert a + b == a;
    } else {
      assert (a + b)[..|a + b| - 1] == a + b[..|b| - 1];
      NetOfAppend(a, b[..|b| - 1], x);
    }
  }

  lemma {:induction false} NetOfNegated<D>(us: seq<(D, int)>, x: D)
    ensures NetOf(Negated(us), x) == -NetOf(us, x)
    decreases |us|
  {
    if us != [] {
      assert Negated(us)[..|us| - 1] == Negated(us[..|us| - 1]);
      NetOfNegated(us[..|us| - 1], x);
    }
  }

  /**
   * Starting from an empty change, applying the change to the prior output
   * leaves exactly what the logic produced (nothing for an empty input).
   */
  lemma ReduceAbelianReplacesOutput<K, V, D>(logic: (K, seq<(V, int)>) -> seq<(D, int)>, key: K,
                                             input: seq<(V, int)>, output: seq<(D, int)>, x: D)
    ensures var change := [] + (if input != [] then logic(key, input) else []) + Negated(output);
            NetOf(output + change, x) == (if input != [] then NetOf(logic(key, input), x) else 0)
  {
    var produced := if input != [] then logic(key, input) else [];
    var change := [] + produced + Negated(output);
    assert [] + produced == produced;
    NetOfAppend(output, change, x);
    NetOfAppend(produced, Negated(output), x);
    NetOfNegated(output, x);
  }
}
