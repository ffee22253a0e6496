/**
 * The per-worker compute-logging demultiplexer of
 * src/compute/src/logging/compute.rs (lines 119-321): it consumes
 * `(arrival, worker, ComputeEvent)` triples in delivery order, keeps three
 * maps of bookkeeping, and appends signed-multiplicity updates to seven
 * changelogs. Each changelog is a field holding the sequence of updates
 * given to its output session so far; `diagnostics` records every place
 * where the source logs an `error!`.
 */
module ComputeDemux {
  import opened LogMath

  type GlobalId = nat
  type WorkerId = nat
  type Uuid = nat
  /** `mz_repr::Timestamp`, an unsigned 64-bit logical time. */
  type Timestamp = t: nat | t <= U64_MAX
  type I64 = x: int | I64_MIN <= x <= I64_MAX
  type I8 = x: int | -128 <= x <= 127

  datatype Peek = Peek(id: GlobalId, time: Timestamp, uuid: Uuid)

  datatype ComputeEvent =
    | Dataflow(id: GlobalId, isCreate: bool)
    | DataflowDependency(dataflow: GlobalId, source: GlobalId)
    | PeekEvent(peek: Peek, isInstall: bool)
    | Frontier(name: GlobalId, logical: Timestamp, delta: I64)
    | SourceFrontier(dataflow: GlobalId, source: GlobalId, sourceLogical: Timestamp, sourceDelta: I8)

  /** One `(data, time, diff)` update given to an output session. */
  datatype Update<R> = Update(row: R, time: nat, diff: int)

  datatype DataflowRow = DataflowRow(id: GlobalId, worker: WorkerId)
  datatype DependencyRow = DependencyRow(dataflow: GlobalId, source: GlobalId, worker: WorkerId)
  datatype FrontierRow = FrontierRow(name: GlobalId, worker: WorkerId, logical: int)
  datatype SourceFrontierRow = SourceFrontierRow(dataflow: GlobalId, source: GlobalId, worker: WorkerId, logical: int)
  datatype DelayRow = DelayRow(dataflow: GlobalId, source: GlobalId, worker: WorkerId, delayNs: nat)
  datatype PeekRow = PeekRow(peek: Peek, worker: WorkerId)
  datatype PeekDurationRow = PeekDurationRow(worker: WorkerId, delayNs: nat)

  /** The inconsistencies the demultiplexer reports with `error!` and then skips. */
  datatype Diagnostic =
    | DropOfUnknownDataflow(id: GlobalId, worker: WorkerId)
    | DependencyOfUnknownDataflow(dataflow: GlobalId, source: GlobalId, worker: WorkerId)
    | PeekAlreadyRegistered(worker: WorkerId, uuid: Uuid)
    | PeekNotRegistered(worker: WorkerId, uuid: Uuid)

  /** A FIFO of `(source logical time, arrival ns)` and a histogram `delay_ns -> count`. */
  datatype SourceTracking = SourceTracking(queue: seq<(Timestamp, nat)>, delays: map<nat, int>)

  type SourceMap = map<GlobalId, SourceTracking>
  type StorageSources = map<(GlobalId, WorkerId), SourceMap>

  // ---------------------------------------------------------------------
  // Specification functions for the frontier-delay bookkeeping
  // ---------------------------------------------------------------------

  /**
   * How many entries a frontier advance to `logical` pops from the front of
   * a queue: every popped entry is at or below the frontier, and the entry
   * after them (put back at the front) is above it.
   */
  function ReadyCount(q: seq<(Timestamp, nat)>, logical: Timestamp): (n: nat)
    ensures n <= |q|
    ensures forall i :: 0 <= i < n ==> q[i].0 <= logical
    ensures n < |q| ==> q[n].0 > logical
  {
    if q == [] || q[0].0 > logical then 0 else 1 + ReadyCount(q[1..], logical)
  }

  ghost predicate ArrivedBy(q: seq<(Timestamp, nat)>, now: nat)
  {
    forall i :: 0 <= i < |q| ==> q[i].1 <= now
  }

  /** The power-of-two delay bucket of each queued entry, measured at `now`. */
  function DelayBuckets(q: seq<(Timestamp, nat)>, now: nat): seq<nat>
    requires ArrivedBy(q, now)
  {
    seq(|q|, i requires 0 <= i < |q| => NextPowerOfTwo(now - q[i].1))
  }

  function Count(h: map<nat, int>, d: nat): int
  {
    if d in h then h[d] else 0
  }

  /** `*delay_map.entry(d).or_insert(0) += 1` */
  function Bump(h: map<nat, int>, d: nat): map<nat, int>
  {
    h[d := Count(h, d) + 1]
  }

  /** The histogram after bumping every bucket of `ds`, in order. */
  function Tally(h: map<nat, int>, ds: seq<nat>): map<nat, int>
    decreases |ds|
  {
    if ds == [] then h else Tally(Bump(h, ds[0]), ds[1..])
  }

  function Occurrences(ds: seq<nat>, d: nat): nat
  {
    if ds == [] then 0 else Occurrences(ds[..|ds| - 1], d) + (if ds[|ds| - 1] == d then 1 else 0)
  }

  /** The delays recorded by one source when the frontier advances to `logical` at `now`. */
  function PoppedDelays(t: SourceTracking, logical: Timestamp, now: nat): seq<nat>
    requires ArrivedBy(t.queue, now)
  {
    DelayBuckets(t.queue[..ReadyCount(t.queue, logical)], now)
  }

  /** One source's tracking after the frontier advances to `logical` at `now`. */
  function Advance(t: SourceTracking, logical: Timestamp, now: nat): (r: SourceTracking)
    requires ArrivedBy(t.queue, now)
    ensures |r.queue| <= |t.queue| && r.queue == t.queue[|t.queue| - |r.queue|..]
    ensures r.queue == [] || r.queue[0].0 > logical
    ensures forall i :: 0 <= i < |t.queue| - |r.queue| ==> t.queue[i].0 <= logical
    ensures forall d :: Count(r.delays, d) == Count(t.delays, d) + Occurrences(PoppedDelays(t, logical, now), d)
  {
    TallyAll(t.delays, PoppedDelays(t, logical, now));
    SourceTracking(t.queue[ReadyCount(t.queue, logical)..], Tally(t.delays, PoppedDelays(t, logical, now)))
  }

  /** Every source of one dataflow after the frontier advances to `logical` at `now`. */
  function AdvanceAll(sm: SourceMap, logical: Timestamp, now: nat): SourceMap
    requires forall s :: s in sm ==> ArrivedBy(sm[s].queue, now)
  {
    map s | s in sm :: Advance(sm[s], logical, now)
  }

  function DelayRows(dataflow: GlobalId, source: GlobalId, worker: WorkerId, ds: seq<nat>, time: nat)
    : seq<Update<DelayRow>>
  {
    seq(|ds|, i requires 0 <= i < |ds| => Update(DelayRow(dataflow, source, worker, ds[i]), time, 1))
  }

  /** The updates of `us` whose row names `source`, in order. */
  function OfSource(us: seq<Update<DelayRow>>, source: GlobalId): seq<Update<DelayRow>>
  {
    if us == [] then []
    else OfSource(us[..|us| - 1], source) + (if us[|us| - 1].row.source == source then [us[|us| - 1]] else [])
  }

  /** `storage_sources[(dataflow, worker)][source].entry(delay)` push of one `(logical, arrival)` pair. */
  function Enqueue(sm: SourceMap, source: GlobalId, entry: (Timestamp, nat)): SourceMap
  {
    if source in sm
    then sm[source := SourceTracking(sm[source].queue + [entry], sm[source].delays)]
    else sm[source := SourceTracking([entry], map[])]
  }

  function WithSource(sm: SourceMap, source: GlobalId, t: SourceTracking): SourceMap
  {
    sm[source := t]
  }

  /** A source map in which every source outside `remaining` has advanced to `logical`. */
  ghost function AdvancedExcept(sm: SourceMap, remaining: set<GlobalId>, logical: Timestamp, now: nat): SourceMap
    requires forall s :: s in sm ==> ArrivedBy(sm[s].queue, now)
  {
    map s | s in sm :: if s in remaining then sm[s] else Advance(sm[s], logical, now)
  }

  /** The net multiplicity of `key` over a changelog. */
  ghost function Net<R>(us: seq<Update<R>>, key: R): int
  {
    if us == [] then 0
    else Net(us[..|us| - 1], key) + (if us[|us| - 1].row == key then us[|us| - 1].diff else 0)
  }

  /** The count one dataflow's histograms hold for a frontier-delay row (0 when there is none). */
  ghost function RecordedIn(sm: SourceMap, key: DelayRow): int
  {
    if key.source in sm then Count(sm[key.source].delays, key.delayNs) else 0
  }

  /** The count the live histograms hold for a frontier-delay row (0 when there is none). */
  ghost function Recorded(ss: StorageSources, key: DelayRow): int
  {
    var k := (key.dataflow, key.worker);
    if k in ss then RecordedIn(ss[k], key) else 0
  }

  ghost predicate QueuesArrivedBy(ss: StorageSources, now: nat)
  {
    forall k, s :: k in ss && s in ss[k] ==> ArrivedBy(ss[k][s].queue, now)
  }

  /** Every bucket a histogram holds has been bumped at least once (`or_insert(0)` then `+= 1`). */
  ghost predicate PositiveCounts(h: map<nat, int>)
  {
    forall d :: d in h ==> h[d] >= 1
  }

  ghost predicate HistogramsPositive(ss: StorageSources)
  {
    forall k, s :: k in ss && s in ss[k] ==> PositiveCounts(ss[k][s].delays)
  }

  /** The frontier-delay row names a bucket some source of `sm` holds. */
  ghost predicate Held(sm: SourceMap, row: DelayRow)
  {
    row.source in sm && row.delayNs in sm[row.source].delays
  }

  /** Every frontier-delay row nets to what the live histograms hold for it. */
  ghost predicate Balanced(log: seq<Update<DelayRow>>, ss: StorageSources)
  {
    forall key :: Net(log, key) == Recorded(ss, key)
  }

  function Retractions(dataflow: GlobalId, sources: seq<(GlobalId, WorkerId)>, time: nat)
    : seq<Update<DependencyRow>>
  {
    seq(|sources|, i requires 0 <= i < |sources| =>
      Update(DependencyRow(dataflow, sources[i].0, sources[i].1), time, -1))
  }

  // ---------------------------------------------------------------------
  // The demultiplexer
  // ---------------------------------------------------------------------

  class Demux {
    /** `interval_ms`, the bucket width (compute.rs:98). */
    const intervalMs: nat

    var activeDataflows: map<(GlobalId, WorkerId), seq<(GlobalId, WorkerId)>>
    var peekStash: map<(WorkerId, Uuid), nat>
    var storageSources: StorageSources

    var dataflowLog: seq<Update<DataflowRow>>
    var dependencyLog: seq<Update<DependencyRow>>
    var frontierLog: seq<Update<FrontierRow>>
    var sourceFrontierLog: seq<Update<SourceFrontierRow>>
    var frontierDelayLog: seq<Update<DelayRow>>
    var peekLog: seq<Update<PeekRow>>
    var peekDurationLog: seq<Update<PeekDurationRow>>
    var diagnostics: seq<Diagnostic>

    /** The latest arrival instant processed; events arrive in non-decreasing order. */
    ghost var clock: nat

    /**
     * The demultiplexer's invariant: tracked sources belong to active
     * dataflows, every stored instant has already arrived, every bucket a
     * histogram holds has a positive count, and the net
     * frontier-delay multiplicity of every row equals the count held by the
     * live histograms (so a dropped dataflow nets to zero).
     */
    ghost predicate Valid()
      reads this
    {
      && intervalMs >= 1
      && storageSources.Keys <= activeDataflows.Keys
      && (forall k :: k in peekStash ==> peekStash[k] <= clock)
      && QueuesArrivedBy(storageSources, clock)
      && HistogramsPositive(storageSources)
      && Balanced(frontierDelayLog, storageSources)
    }

    /** The bucket time of an event arriving at `now` (compute.rs:148). */
    function Bucket(now: nat): (r: nat)
      requires intervalMs >= 1
      ensures r % intervalMs == 0 && Millis(now) < r <= Millis(now) + intervalMs
    {
      BucketTime(now, intervalMs)
    }

    /** Events this demultiplexer can take without the source's `expect("must fit")` failing. */
    ghost predicate Accepts(now: nat)
      reads this
    {
      intervalMs >= 1 && clock <= now && Bucket(now) <= U64_MAX
    }

    constructor (intervalNs: nat)
      ensures Valid() && intervalMs == IntervalMs(intervalNs)
      ensures activeDataflows == map[] && peekStash == map[] && storageSources == map[]
      ensures dataflowLog == [] && dependencyLog == [] && frontierLog == [] && sourceFrontierLog == []
      ensures frontierDelayLog == [] && peekLog == [] && peekDurationLog == [] && diagnostics == []
    {
      intervalMs := IntervalMs(intervalNs);
      activeDataflows, peekStash, storageSources := map[], map[], map[];
      dataflowLog, dependencyLog, frontierLog, sourceFrontierLog := [], [], [], [];
      frontierDelayLog, peekLog, peekDurationLog, diagnostics := [], [], [], [];
      clock := 0;
    }

    /** Advances the arrival clock to the instant of the next event. */
    ghost method Tick(now: nat)
      requires Valid() && clock <= now
      modifies this`clock
      ensures Valid() && clock == now
    {
      clock := now;
      forall k, s | k in storageSources && s in storageSources[k]
        ensures ArrivedBy(storageSources[k][s].queue, now)
      {
        assert ArrivedBy(storageSources[k][s].queue, old(clock));
      }
    }

    /** The effect of `ComputeEvent::Dataflow(id, is_create)` arriving at `now`. */
    twostate predicate DataflowApplied(now: nat, worker: WorkerId, id: GlobalId, isCreate: bool)
      reads this
    {
      && intervalMs >= 1
      && dataflowLog == old(dataflowLog) + [Update(DataflowRow(id, worker), Bucket(now), if isCreate then 1 else -1)]
      && (isCreate ==>
            && activeDataflows == old(activeDataflows)[(id, worker) := []]
            && dependencyLog == old(dependencyLog) && diagnostics == old(diagnostics)
            && storageSources == old(storageSources) && frontierDelayLog == old(frontierDelayLog))
      && (!isCreate ==> Dropped(old(activeDataflows), old(dependencyLog), old(diagnostics), id, worker, Bucket(now)))
      && (!isCreate ==> Forgotten(old(storageSources), old(frontierDelayLog), (id, worker), Bucket(now)))
      && frontierLog == old(frontierLog) && sourceFrontierLog == old(sourceFrontierLog)
      && peekStash == old(peekStash) && peekLog == old(peekLog) && peekDurationLog == old(peekDurationLog)
    }

    /** `ComputeEvent::Dataflow(id, is_create)` (compute.rs:153-197). */
    method ApplyDataflow(now: nat, worker: WorkerId, id: GlobalId, isCreate: bool)
      requires Valid() && Accepts(now)
      modifies this
      ensures Valid() && clock == now
      ensures DataflowApplied(now, worker, id, isCreate)
    {
      Tick(now);
      var t := Bucket(now);
      dataflowLog := dataflowLog + [Update(DataflowRow(id, worker), t, if isCreate then 1 else -1)];
      if isCreate {
        CreateDataflow(id, worker);
      } else {
        DropAndForget(id, worker, t);
      }
    }

    /** The drop branch: retract the dependencies, then the frontier delays, of the dataflow. */
    method DropAndForget(id: GlobalId, worker: WorkerId, t: nat)
      requires Valid()
      modifies this`activeDataflows, this`dependencyLog, this`diagnostics, this`storageSources, this`frontierDelayLog
      ensures Valid()
      ensures Dropped(old(activeDataflows), old(dependencyLog), old(diagnostics), id, worker, t)
      ensures Forgotten(old(storageSources), old(frontierDelayLog), (id, worker), t)
    {
      DropDataflow(id, worker, t);
      if (id, worker) in storageSources {
        ForgetSources((id, worker), t);
      }
    }

    /** `active_dataflows.insert((id, worker), vec![])` (compute.rs:162-163): a create starts with no dependencies. */
    method CreateDataflow(id: GlobalId, worker: WorkerId)
      requires Valid()
      modifies this`activeDataflows
      ensures Valid() && activeDataflows == old(activeDataflows)[(id, worker) := []]
    {
      activeDataflows := activeDataflows[(id, worker) := []];
    }

    /** The drop of a dataflow's dependencies after the drop event. */
    ghost predicate Dropped(active0: map<(GlobalId, WorkerId), seq<(GlobalId, WorkerId)>>,
                            dependencies0: seq<Update<DependencyRow>>, diagnostics0: seq<Diagnostic>,
                            id: GlobalId, worker: WorkerId, t: nat)
      reads this
    {
      var key := (id, worker);
      && activeDataflows == active0 - {key}
      && dependencyLog == dependencies0 + (if key in active0 then Retractions(id, active0[key], t) else [])
      && diagnostics == diagnostics0 + (if key in active0 then [] else [DropOfUnknownDataflow(id, worker)])
    }

    /**
     * The drop of a dataflow's delay tracking after the drop event: the
     * tracking is gone; nothing is emitted when there was none; otherwise
     * exactly one update per bucket it held is emitted, retracting that
     * bucket's (positive) count, so its rows net to zero.
     */
    ghost predicate Forgotten(ss0: StorageSources, log0: seq<Update<DelayRow>>, key: (GlobalId, WorkerId), t: nat)
      reads this
    {
      && storageSources == ss0 - {key}
      && |log0| <= |frontierDelayLog| && frontierDelayLog[..|log0|] == log0
      && (if key in ss0 then RetractsHeld(ss0[key], key, t, frontierDelayLog[|log0|..]) else frontierDelayLog == log0)
      && (forall k: DelayRow :: (k.dataflow, k.worker) == key ==> Net(frontierDelayLog, k) == 0)
    }

    /**
     * `rows` retracts, at time `t`, every bucket of `key`'s histograms `sm`
     * exactly once, each by its count: every row names a held bucket and
     * carries minus its (positive) count, no two rows name the same bucket,
     * and every held bucket has a row.
     */
    static ghost predicate RetractsHeld(sm: SourceMap, key: (GlobalId, WorkerId), t: nat, rows: seq<Update<DelayRow>>)
    {
      && (forall i :: 0 <= i < |rows| ==>
            && Held(sm, rows[i].row)
            && (rows[i].row.dataflow, rows[i].row.worker) == key && rows[i].time == t
            && rows[i].diff == -RecordedIn(sm, rows[i].row) && rows[i].diff <= -1)
      && (forall i, j :: 0 <= i < j < |rows| ==> rows[i].row != rows[j].row)
      && (forall s, d :: s in sm && d in sm[s].delays ==>
            exists i :: 0 <= i < |rows| && rows[i].row == DelayRow(key.0, s, key.1, d))
    }

    method DropDataflow(id: GlobalId, worker: WorkerId, t: nat)
      requires Valid()
      modifies this`activeDataflows, this`dependencyLog, this`diagnostics
      ensures storageSources.Keys - {(id, worker)} <= activeDataflows.Keys && (id, worker) !in activeDataflows
      ensures Dropped(old(activeDataflows), old(dependencyLog), old(diagnostics), id, worker, t)
    {
      var key := (id, worker);
      if key in activeDataflows {
        var retracted := RetractDependencies(id, activeDataflows[key], t);
        activeDataflows := activeDataflows - {key};
        dependencyLog := dependencyLog + retracted;
      } else {
        activeDataflows := activeDataflows - {key};
        diagnostics := diagnostics + [DropOfUnknownDataflow(id, worker)];
      }
    }

    method ForgetSources(key: (GlobalId, WorkerId), t: nat)
      requires key in storageSources
      requires QueuesArrivedBy(storageSources, clock) && HistogramsPositive(storageSources)
      requires Balanced(frontierDelayLog, storageSources)
      modifies this`storageSources, this`frontierDelayLog
      ensures QueuesArrivedBy(storageSources, clock) && HistogramsPositive(storageSources)
      ensures Balanced(frontierDelayLog, storageSources)
      ensures Forgotten(old(storageSources), old(frontierDelayLog), key, t)
    {
      var rows := RetractDelays(storageSources[key], key.0, key.1, t);
      RetractKeepsBalance(frontierDelayLog, storageSources, key, rows);
      ghost var ss0: StorageSources := storageSources;
      ghost var log0 := frontierDelayLog;
      storageSources := storageSources - {key};
      frontierDelayLog := frontierDelayLog + rows;
      forall k: DelayRow | (k.dataflow, k.worker) == key
        ensures Net(frontierDelayLog, k) == 0
      {
        assert Recorded(storageSources, k) == 0;
      }
      assert frontierDelayLog[..|log0|] == log0 && frontierDelayLog[|log0|..] == rows;
    }

    /** The `for (source, worker) in sources` loop retracting a dropped dataflow's dependencies (compute.rs:168-175). */
    static method RetractDependencies(id: GlobalId, sources: seq<(GlobalId, WorkerId)>, t: nat)
      returns (retracted: seq<Update<DependencyRow>>)
      ensures retracted == Retractions(id, sources, t)
    {
      retracted := [];
      var i := 0;
      while i < |sources|
        invariant 0 <= i <= |sources|
        invariant retracted == Retractions(id, sources[..i], t)
      {
        retracted := retracted + [Update(DependencyRow(id, sources[i].0, sources[i].1), t, -1)];
        i := i + 1;
      }
      assert sources[..i] == sources;
    }

    /**
     * The retraction of a dropped dataflow's delay histograms, source by
     * source and bucket by bucket in the maps' own (unspecified) order
     * (compute.rs:185-195): each row nets to minus the count it held.
     */
    static method RetractDelays(sourceMap: SourceMap, dataflow: GlobalId, worker: WorkerId, t: nat)
      returns (rows: seq<Update<DelayRow>>)
      requires forall s :: s in sourceMap ==> PositiveCounts(sourceMap[s].delays)
      ensures forall i :: 0 <= i < |rows| ==>
                && Held(sourceMap, rows[i].row)
                && rows[i].row.dataflow == dataflow && rows[i].row.worker == worker && rows[i].time == t
                && rows[i].diff == -RecordedIn(sourceMap, rows[i].row) && rows[i].diff <= -1
      ensures forall i, j :: 0 <= i < j < |rows| ==> rows[i].row != rows[j].row
      ensures forall s, d :: s in sourceMap && d in sourceMap[s].delays ==>
                exists i :: 0 <= i < |rows| && rows[i].row == DelayRow(dataflow, s, worker, d)
      ensures forall k :: Net(rows, k) ==
                if k.dataflow == dataflow && k.worker == worker then -RecordedIn(sourceMap, k) else 0
    {
      rows := [];
      var remaining := sourceMap.Keys;
      while remaining != {}
        invariant remaining <= sourceMap.Keys
        invariant BucketRetractions(sourceMap, dataflow, worker, t, rows)
        invariant forall i :: 0 <= i < |rows| ==> Held(sourceMap, rows[i].row) && rows[i].row.source !in remaining
        invariant forall i, j :: 0 <= i < j < |rows| ==> rows[i].row != rows[j].row
        invariant forall k :: Net(rows, k) ==
                    if k.dataflow == dataflow && k.worker == worker && k.source !in remaining
                    then -RecordedIn(sourceMap, k) else 0
      {
        var source :| source in remaining;
        rows := RetractSource(sourceMap, dataflow, worker, t, source, remaining, rows);
        remaining := remaining - {source};
      }
      forall s, d | s in sourceMap && d in sourceMap[s].delays
        ensures exists i :: 0 <= i < |rows| && rows[i].row == DelayRow(dataflow, s, worker, d)
      {
        assert Net(rows, DelayRow(dataflow, s, worker, d)) <= -1;
        NetNonzeroHasRow(rows, DelayRow(dataflow, s, worker, d));
      }
    }

    /** Every row retracts, at time `t`, the count of a histogram bucket of `(dataflow, worker)`. */
    static ghost predicate BucketRetractions(sourceMap: SourceMap, dataflow: GlobalId, worker: WorkerId, t: nat, rows: seq<Update<DelayRow>>)
    {
      forall i :: 0 <= i < |rows| ==>
        && rows[i].row.dataflow == dataflow && rows[i].row.worker == worker && rows[i].time == t
        && rows[i].diff == -RecordedIn(sourceMap, rows[i].row)
    }

    /** The inner loop of the drop retraction: one row per bucket of one source's histogram. */
    static method RetractSource(sourceMap: SourceMap, dataflow: GlobalId, worker: WorkerId, t: nat,
                                source: GlobalId, ghost remaining: set<GlobalId>, rows0: seq<Update<DelayRow>>)
      returns (rows: seq<Update<DelayRow>>)
      requires source in remaining && remaining <= sourceMap.Keys
      requires BucketRetractions(sourceMap, dataflow, worker, t, rows0)
      requires forall i :: 0 <= i < |rows0| ==> Held(sourceMap, rows0[i].row) && rows0[i].row.source !in remaining
      requires forall i, j :: 0 <= i < j < |rows0| ==> rows0[i].row != rows0[j].row
      requires forall k :: Net(rows0, k) ==
                 if k.dataflow == dataflow && k.worker == worker && k.source !in remaining
                 then -RecordedIn(sourceMap, k) else 0
      ensures BucketRetractions(sourceMap, dataflow, worker, t, rows)
      ensures forall i :: 0 <= i < |rows| ==> Held(sourceMap, rows[i].row) && rows[i].row.source !in remaining - {source}
      ensures forall i, j :: 0 <= i < j < |rows| ==> rows[i].row != rows[j].row
      ensures forall k :: Net(rows, k) ==
                if k.dataflow == dataflow && k.worker == worker && k.source !in remaining - {source}
                then -RecordedIn(sourceMap, k) else 0
    {
      rows := rows0;
      var delayMap := sourceMap[source].delays;
      var pending := delayMap.Keys;
      while pending != {}
        invariant pending <= delayMap.Keys
        invariant BucketRetractions(sourceMap, dataflow, worker, t, rows)
        invariant forall i :: 0 <= i < |rows| ==>
                    && Held(sourceMap, rows[i].row)
                    && (rows[i].row.source !in remaining || (rows[i].row.source == source && rows[i].row.delayNs !in pending))
        invariant forall i, j :: 0 <= i < j < |rows| ==> rows[i].row != rows[j].row
        invariant forall k :: Net(rows, k) ==
                    if k.dataflow == dataflow && k.worker == worker &&
                       (k.source !in remaining || (k.source == source && k.delayNs !in pending))
                    then -RecordedIn(sourceMap, k) else 0
      {
        var delayNs :| delayNs in pending;
        var u := Update(DelayRow(dataflow, source, worker, delayNs), t, -delayMap[delayNs]);
        NetSnoc(rows, u);
        rows := rows + [u];
        pending := pending - {delayNs};
      }
    }

    /** The effect of `ComputeEvent::DataflowDependency` arriving at `now`. */
    twostate predicate DependencyApplied(now: nat, worker: WorkerId, dataflow: GlobalId, source: GlobalId)
      reads this
    {
      && intervalMs >= 1
      && dependencyLog == old(dependencyLog) + [Update(DependencyRow(dataflow, source, worker), Bucket(now), 1)]
      && (var key := (dataflow, worker);
          if key in old(activeDataflows) then
            && activeDataflows == old(activeDataflows)[key := old(activeDataflows)[key] + [(source, worker)]]
            && diagnostics == old(diagnostics)
          else
            && activeDataflows == old(activeDataflows)
            && diagnostics == old(diagnostics) + [DependencyOfUnknownDataflow(dataflow, source, worker)])
      && storageSources == old(storageSources) && peekStash == old(peekStash)
      && dataflowLog == old(dataflowLog) && frontierLog == old(frontierLog)
      && sourceFrontierLog == old(sourceFrontierLog) && frontierDelayLog == old(frontierDelayLog)
      && peekLog == old(peekLog) && peekDurationLog == old(peekDurationLog)
    }

    /** `ComputeEvent::DataflowDependency` (compute.rs:198-211). */
    method ApplyDependency(now: nat, worker: WorkerId, dataflow: GlobalId, source: GlobalId)
      requires Valid() && Accepts(now)
      modifies this
      ensures Valid() && clock == now
      ensures DependencyApplied(now, worker, dataflow, source)
    {
      Tick(now);
      dependencyLog := dependencyLog + [Update(DependencyRow(dataflow, source, worker), Bucket(now), 1)];
      var key := (dataflow, worker);
      if key in activeDataflows {
        activeDataflows := activeDataflows[key := activeDataflows[key] + [(source, worker)]];
      } else {
        diagnostics := diagnostics + [DependencyOfUnknownDataflow(dataflow, source, worker)];
      }
    }

    /** The effect of `ComputeEvent::Frontier(name, logical, delta)` arriving at `now`. */
    twostate predicate FrontierApplied(now: nat, worker: WorkerId, name: GlobalId, logical: Timestamp, delta: I64)
      reads this
    {
      && intervalMs >= 1
      && frontierLog == old(frontierLog) + [Update(FrontierRow(name, worker, logical), Bucket(now), delta)]
      && (var key := (name, worker);
          if delta > 0 && key in old(storageSources) then
            var sm := old(storageSources)[key];
            && (forall s :: s in sm ==> ArrivedBy(sm[s].queue, now))
            && storageSources == old(storageSources)[key := AdvanceAll(sm, logical, now)]
            && |old(frontierDelayLog)| <= |frontierDelayLog|
            && frontierDelayLog[..|old(frontierDelayLog)|] == old(frontierDelayLog)
            && (forall s :: OfSource(frontierDelayLog[|old(frontierDelayLog)|..], s) ==
                  if s in sm then DelayRows(name, s, worker, PoppedDelays(sm[s], logical, now), Bucket(now)) else [])
          else
            storageSources == old(storageSources) && frontierDelayLog == old(frontierDelayLog))
      && activeDataflows == old(activeDataflows) && peekStash == old(peekStash)
      && dataflowLog == old(dataflowLog) && dependencyLog == old(dependencyLog)
      && sourceFrontierLog == old(sourceFrontierLog) && peekLog == old(peekLog)
      && peekDurationLog == old(peekDurationLog) && diagnostics == old(diagnostics)
    }

    /**
     * `ComputeEvent::Frontier(name, logical, delta)` (compute.rs:212-253):
     * report the frontier and, on an advance, drain every tracked source's
     * queue up to the new frontier into the delay histograms.
     */
    method ApplyFrontier(now: nat, worker: WorkerId, name: GlobalId, logical: Timestamp, delta: I64)
      requires Valid() && Accepts(now)
      requires logical <= I64_MAX
      modifies this
      ensures Valid() && clock == now
      ensures FrontierApplied(now, worker, name, logical, delta)
    {
      Tick(now);
      frontierLog := frontierLog + [Update(FrontierRow(name, worker, logical), Bucket(now), delta)];
      var key := (name, worker);
      if delta > 0 && key in storageSources {
        AdvanceSources(key, logical, now);
      }
    }

    /**
     * The `for (source, time_deque) in source_map.iter_mut()` loop
     * (compute.rs:225-250): every tracked source of `key` drains its queue
     * up to the new frontier, in the map's own (unspecified) order.
     */
    method AdvanceSources(key: (GlobalId, WorkerId), logical: Timestamp, now: nat)
      requires Valid() && clock == now
      requires key in storageSources
      modifies this`storageSources, this`frontierDelayLog
      ensures Valid()
      ensures var sm := old(storageSources)[key];
              && storageSources == old(storageSources)[key := AdvanceAll(sm, logical, now)]
              && |old(frontierDelayLog)| <= |frontierDelayLog|
              && frontierDelayLog[..|old(frontierDelayLog)|] == old(frontierDelayLog)
              && (forall s :: OfSource(frontierDelayLog[|old(frontierDelayLog)|..], s) ==
                    if s in sm then DelayRows(key.0, s, key.1, PoppedDelays(sm[s], logical, now), Bucket(now)) else [])
    {
      var t := Bucket(now);
      var advanced, rows := AdvanceMap(storageSources[key], key.0, key.1, logical, now, t);
      AdvanceKeepsBalance(frontierDelayLog, storageSources, key, logical, now, rows, t);
      AdvanceKeepsPositive(storageSources, key, logical, now);
      storageSources := storageSources[key := advanced];
      frontierDelayLog := frontierDelayLog + rows;
      assert frontierDelayLog[|old(frontierDelayLog)|..] == rows;
    }

    /** The loop over one dataflow's sources, on values: the advanced map and the updates emitted. */
    static method AdvanceMap(sourceMap: SourceMap, dataflow: GlobalId, worker: WorkerId,
                             logical: Timestamp, now: nat, t: nat)
      returns (advanced: SourceMap, rows: seq<Update<DelayRow>>)
      requires forall s :: s in sourceMap ==> ArrivedBy(sourceMap[s].queue, now)
      ensures advanced == AdvanceAll(sourceMap, logical, now)
      ensures forall s :: OfSource(rows, s) ==
                if s in sourceMap then DelayRows(dataflow, s, worker, PoppedDelays(sourceMap[s], logical, now), t) else []
    {
      ghost var expected := map s | s in sourceMap :: DelayRows(dataflow, s, worker, PoppedDelays(sourceMap[s], logical, now), t);
      advanced := sourceMap;
      rows := [];
      var remaining := sourceMap.Keys;
      AdvancedNone(sourceMap, logical, now);
      while remaining != {}
        invariant remaining <= sourceMap.Keys
        invariant advanced == AdvancedExcept(sourceMap, remaining, logical, now)
        invariant forall s :: OfSource(rows, s) == if s in expected && s !in remaining then expected[s] else []
      {
        var source :| source in remaining;
        advanced, rows := AdvanceOne(sourceMap, dataflow, worker, logical, now, t, expected, remaining, source, advanced, rows);
        remaining := remaining - {source};
      }
      assert advanced == AdvanceAll(sourceMap, logical, now);
    }

    /** One round of the loop over a dataflow's sources: drain `source` and append its rows. */
    static method AdvanceOne(sourceMap: SourceMap, dataflow: GlobalId, worker: WorkerId, logical: Timestamp, now: nat,
                             t: nat, ghost expected: map<GlobalId, seq<Update<DelayRow>>>, ghost remaining: set<GlobalId>,
                             source: GlobalId, advanced0: SourceMap, rows0: seq<Update<DelayRow>>)
      returns (advanced: SourceMap, rows: seq<Update<DelayRow>>)
      requires forall s :: s in sourceMap ==> ArrivedBy(sourceMap[s].queue, now)
      requires expected == map s | s in sourceMap :: DelayRows(dataflow, s, worker, PoppedDelays(sourceMap[s], logical, now), t)
      requires source in remaining && remaining <= sourceMap.Keys
      requires advanced0 == AdvancedExcept(sourceMap, remaining, logical, now)
      requires forall s :: OfSource(rows0, s) == if s in expected && s !in remaining then expected[s] else []
      ensures advanced == AdvancedExcept(sourceMap, remaining - {source}, logical, now)
      ensures forall s :: OfSource(rows, s) == if s in expected && s !in remaining - {source} then expected[s] else []
    {
      var next, popped := DrainQueue(sourceMap[source], logical, now);
      AdvancedStep(sourceMap, remaining, source, logical, now);
      advanced := WithSource(advanced0, source, next);
      var block := DelayRows(dataflow, source, worker, popped, t);
      OfSourceRows(dataflow, source, worker, popped, t);
      OfSourceExtend(rows0, block, source, remaining, expected);
      rows := rows0 + block;
    }

    /**
     * The `while let Some(current_front) = time_deque.pop_front()` loop for
     * one source (compute.rs:231-249): pop every entry at or below the
     * frontier and bump its delay bucket; put the first entry above the
     * frontier back at the front. `popped` lists the buckets bumped, in
     * order, one +1 frontier-delay update each.
     */
    static method DrainQueue(tracking: SourceTracking, logical: Timestamp, now: nat)
      returns (next: SourceTracking, popped: seq<nat>)
      requires ArrivedBy(tracking.queue, now)
      ensures next == Advance(tracking, logical, now)
      ensures popped == PoppedDelays(tracking, logical, now)
    {
      var timeDeque := tracking.queue;
      var delayMap := tracking.delays;
      popped := [];
      ghost var n := 0;
      while timeDeque != []
        invariant n <= |tracking.queue| && timeDeque == tracking.queue[n..]
        invariant forall i :: 0 <= i < n ==> tracking.queue[i].0 <= logical
        invariant popped == DelayBuckets(tracking.queue[..n], now)
        invariant delayMap == Tally(tracking.delays, popped)
      {
        var currentFront := timeDeque[0];
        timeDeque := timeDeque[1..];  // pop_front
        if logical >= currentFront.0 {
          var delayNs := NextPowerOfTwo(now - currentFront.1);
          PopStep(tracking, n, now);
          delayMap := Bump(delayMap, delayNs);
          popped := popped + [delayNs];
          n := n + 1;
        } else {
          timeDeque := [currentFront] + timeDeque;  // push_front
          break;
        }
      }
      ReadyCountIsPopped(tracking.queue, logical, n);
      next := SourceTracking(timeDeque, delayMap);
    }

    /** The effect of `ComputeEvent::SourceFrontier` arriving at `now`. */
    twostate predicate SourceFrontierApplied(now: nat, worker: WorkerId, dataflow: GlobalId, source: GlobalId,
                                             logical: Timestamp, delta: I8)
      reads this
    {
      && intervalMs >= 1
      && sourceFrontierLog == old(sourceFrontierLog) +
           [Update(SourceFrontierRow(dataflow, source, worker, AsI64(logical)), Bucket(now), delta)]
      && (var key := (dataflow, worker);
          storageSources ==
            if delta > 0 && key in old(activeDataflows)
            then old(storageSources)[key := Enqueue(if key in old(storageSources) then old(storageSources)[key] else map[],
                                                    source, (logical, now))]
            else old(storageSources))
      && activeDataflows == old(activeDataflows) && peekStash == old(peekStash)
      && dataflowLog == old(dataflowLog) && dependencyLog == old(dependencyLog)
      && frontierLog == old(frontierLog) && frontierDelayLog == old(frontierDelayLog)
      && peekLog == old(peekLog) && peekDurationLog == old(peekDurationLog) && diagnostics == old(diagnostics)
    }

    /** `ComputeEvent::SourceFrontier` (compute.rs:254-286). */
    method ApplySourceFrontier(now: nat, worker: WorkerId, dataflow: GlobalId, source: GlobalId,
                               logical: Timestamp, delta: I8)
      requires Valid() && Accepts(now)
      modifies this
      ensures Valid() && clock == now
      ensures SourceFrontierApplied(now, worker, dataflow, source, logical, delta)
    {
      Tick(now);
      sourceFrontierLog := sourceFrontierLog +
        [Update(SourceFrontierRow(dataflow, source, worker, AsI64(logical)), Bucket(now), delta)];
      if delta > 0 {
        var key := (dataflow, worker);
        if key in activeDataflows {
          var sourceMap := if key in storageSources then storageSources[key] else map[];
          ghost var ss0 := storageSources;
          storageSources := storageSources[key := Enqueue(sourceMap, source, (logical, now))];
          forall k ensures Recorded(storageSources, k) == Recorded(ss0, k) {
          }
        }
      }
    }

    /** The effect of `ComputeEvent::Peek(peek, is_install)` arriving at `now`. */
    twostate predicate PeekApplied(now: nat, worker: WorkerId, peek: Peek, isInstall: bool)
      reads this
    {
      && intervalMs >= 1
      && peekLog == old(peekLog) + [Update(PeekRow(peek, worker), Bucket(now), if isInstall then 1 else -1)]
      && (var key := (worker, peek.uuid);
          if isInstall then
            && peekStash == old(peekStash)[key := now]
            && peekDurationLog == old(peekDurationLog)
            && diagnostics == old(diagnostics) + (if key in old(peekStash) then [PeekAlreadyRegistered(worker, peek.uuid)] else [])
          else
            && peekStash == old(peekStash) - {key}
            && if key in old(peekStash) then
                 && old(peekStash)[key] <= now
                 && peekDurationLog == old(peekDurationLog) +
                      [Update(PeekDurationRow(worker, NextPowerOfTwo(now - old(peekStash)[key])), Bucket(now), 1)]
                 && diagnostics == old(diagnostics)
               else
                 && peekDurationLog == old(peekDurationLog)
                 && diagnostics == old(diagnostics) + [PeekNotRegistered(worker, peek.uuid)])
      && activeDataflows == old(activeDataflows) && storageSources == old(storageSources)
      && dataflowLog == old(dataflowLog) && dependencyLog == old(dependencyLog)
      && frontierLog == old(frontierLog) && sourceFrontierLog == old(sourceFrontierLog)
      && frontierDelayLog == old(frontierDelayLog)
    }

    /** `ComputeEvent::Peek(peek, is_install)` (compute.rs:287-316). */
    method ApplyPeek(now: nat, worker: WorkerId, peek: Peek, isInstall: bool)
      requires Valid() && Accepts(now)
      modifies this
      ensures Valid() && clock == now
      ensures PeekApplied(now, worker, peek, isInstall)
    {
      Tick(now);
      var t := Bucket(now);
      var key := (worker, peek.uuid);
      if isInstall {
        peekLog := peekLog + [Update(PeekRow(peek, worker), t, 1)];
        if key in peekStash {
          diagnostics := diagnostics + [PeekAlreadyRegistered(worker, peek.uuid)];
        }
        peekStash := peekStash[key := now];
      } else {
        peekLog := peekLog + [Update(PeekRow(peek, worker), t, -1)];
        if key in peekStash {
          var start := peekStash[key];
          peekStash := peekStash - {key};
          var elapsedNs := now - start;
          peekDurationLog := peekDurationLog + [Update(PeekDurationRow(worker, NextPowerOfTwo(elapsedNs)), t, 1)];
        } else {
          peekStash := peekStash - {key};
          diagnostics := diagnostics + [PeekNotRegistered(worker, peek.uuid)];
        }
      }
    }

    /** The effect of one event arriving at `now`: that of its own kind. */
    twostate predicate Applied(now: nat, worker: WorkerId, event: ComputeEvent)
      reads this
    {
      match event
      case Dataflow(id, isCreate) => DataflowApplied(now, worker, id, isCreate)
      case DataflowDependency(dataflow, source) => DependencyApplied(now, worker, dataflow, source)
      case PeekEvent(peek, isInstall) => PeekApplied(now, worker, peek, isInstall)
      case Frontier(name, logical, delta) => FrontierApplied(now, worker, name, logical, delta)
      case SourceFrontier(dataflow, source, logical, delta) =>
        SourceFrontierApplied(now, worker, dataflow, source, logical, delta)
    }

    /**
     * One `(time, worker, datum)` triple of the event stream (compute.rs:146-317):
     * dispatch on the event kind. Each event adds exactly one row to the
     * changelog of its own kind.
     */
    method Apply(now: nat, worker: WorkerId, event: ComputeEvent)
      requires Valid() && Accepts(now)
      requires event.Frontier? ==> event.logical <= I64_MAX
      modifies this
      ensures Valid() && clock == now
      ensures Applied(now, worker, event)
      ensures |dataflowLog| == |old(dataflowLog)| + (if event.Dataflow? then 1 else 0)
      ensures |frontierLog| == |old(frontierLog)| + (if event.Frontier? then 1 else 0)
      ensures |sourceFrontierLog| == |old(sourceFrontierLog)| + (if event.SourceFrontier? then 1 else 0)
      ensures |peekLog| == |old(peekLog)| + (if event.PeekEvent? then 1 else 0)
      ensures event.DataflowDependency? ==> |dependencyLog| == |old(dependencyLog)| + 1
    {
      match event
      case Dataflow(id, isCreate) => ApplyDataflow(now, worker, id, isCreate);
      case DataflowDependency(dataflow, source) => ApplyDependency(now, worker, dataflow, source);
      case PeekEvent(peek, isInstall) => ApplyPeek(now, worker, peek, isInstall);
      case Frontier(name, logical, delta) => ApplyFrontier(now, worker, name, logical, delta);
      case SourceFrontier(dataflow, source, logical, delta) =>
        ApplySourceFrontier(now, worker, dataflow, source, logical, delta);
    }
  }

  // ---------------------------------------------------------------------
  // Lemmas
  // ---------------------------------------------------------------------

  /** Appending one source's block to a changelog split by source. */
  lemma OfSourceExtend(appended: seq<Update<DelayRow>>, block: seq<Update<DelayRow>>, source: GlobalId,
                       remaining: set<GlobalId>, expected: map<GlobalId, seq<Update<DelayRow>>>)
    requires source in expected && source in remaining && block == expected[source]
    requires forall s :: OfSource(appended, s) == if s in expected && s !in remaining then expected[s] else []
    requires forall s :: OfSource(block, s) == if s == source then block else []
    ensures forall s :: OfSource(appended + block, s) ==
              if s in expected && s !in remaining - {source} then expected[s] else []
  {
    forall s
      ensures OfSource(appended + block, s) == if s in expected && s !in remaining - {source} then expected[s] else []
    {
      OfSourceAppend(appended, block, s);
      var mine := OfSource(appended, s);
      if s == source {
        assert mine == [];
        assert [] + block == block;
      } else {
        assert OfSource(block, s) == [];
        assert mine + [] == mine;
      }
    }
  }

  lemma AdvancedNone(sm: SourceMap, logical: Timestamp, now: nat)
    requires forall s :: s in sm ==> ArrivedBy(sm[s].queue, now)
    ensures AdvancedExcept(sm, sm.Keys, logical, now) == sm
  {
  }

  lemma AdvancedStep(sm: SourceMap, remaining: set<GlobalId>, source: GlobalId, logical: Timestamp, now: nat)
    requires forall s :: s in sm ==> ArrivedBy(sm[s].queue, now)
    requires source in remaining && remaining <= sm.Keys
    ensures WithSource(AdvancedExcept(sm, remaining, logical, now), source, Advance(sm[source], logical, now))
            == AdvancedExcept(sm, remaining - {source}, logical, now)
  {
  }

  /**
   * A second advance to the same frontier finds nothing more to pop: the
   * entry left at the head is above the frontier.
   */
  lemma AdvanceIdempotent(t: SourceTracking, logical: Timestamp, now: nat)
    requires ArrivedBy(t.queue, now)
    ensures ArrivedBy(Advance(t, logical, now).queue, now)
    ensures Advance(Advance(t, logical, now), logical, now) == Advance(t, logical, now)
  {
    var n := ReadyCount(t.queue, logical);
    var a := Advance(t, logical, now);
    assert ArrivedBy(a.queue, now) by {
      forall i | 0 <= i < |a.queue| ensures a.queue[i].1 <= now {
        assert a.queue[i] == t.queue[n + i];
      }
    }
    if a.queue != [] {
      assert a.queue[0] == t.queue[n];
    }
    assert ReadyCount(a.queue, logical) == 0;
    assert a.queue[0..] == a.queue;
    assert a.queue[..0] == [];
  }

  /** Every popped entry had reached the frontier; every entry left behind starts above it. */
  lemma AdvanceSplitsAtFrontier(t: SourceTracking, logical: Timestamp, now: nat)
    requires ArrivedBy(t.queue, now)
    ensures var a := Advance(t, logical, now);
            var n := |t.queue| - |a.queue|;
            && 0 <= n <= |t.queue| && t.queue == t.queue[..n] + a.queue
            && |PoppedDelays(t, logical, now)| == n
            && (forall i :: 0 <= i < n ==> t.queue[i].0 <= logical)
            && (a.queue != [] ==> a.queue[0].0 > logical)
  {
    var n := ReadyCount(t.queue, logical);
    assert t.queue == t.queue[..n] + t.queue[n..];
  }

  lemma NetSnoc<R>(us: seq<Update<R>>, u: Update<R>)
    ensures forall k :: Net(us + [u], k) == Net(us, k) + (if u.row == k then u.diff else 0)
  {
    assert (us + [u])[..|us|] == us;
  }

  /** A row with a nonzero net occurs in the changelog. */
  lemma {:induction false} NetNonzeroHasRow<R>(us: seq<Update<R>>, key: R)
    requires Net(us, key) != 0
    ensures exists i :: 0 <= i < |us| && us[i].row == key
    decreases |us|
  {
    var last := us[|us| - 1];
    if last.row != key {
      NetNonzeroHasRow(us[..|us| - 1], key);
      var i :| 0 <= i < |us| - 1 && us[..|us| - 1][i].row == key;
      assert us[i].row == key;
    }
  }

  /** Bumping buckets never makes a count non-positive. */
  lemma {:induction false} TallyPositive(h: map<nat, int>, ds: seq<nat>)
    requires PositiveCounts(h)
    ensures PositiveCounts(Tally(h, ds))
    decreases |ds|
  {
    if ds != [] {
      TallyPositive(Bump(h, ds[0]), ds[1..]);
    }
  }

  /** Advancing every source of one dataflow keeps every held count positive. */
  lemma AdvanceKeepsPositive(ss: StorageSources, key: (GlobalId, WorkerId), logical: Timestamp, now: nat)
    requires key in ss && QueuesArrivedBy(ss, now) && HistogramsPositive(ss)
    ensures HistogramsPositive(ss[key := AdvanceAll(ss[key], logical, now)])
  {
    forall s | s in ss[key]
      ensures PositiveCounts(Advance(ss[key][s], logical, now).delays)
    {
      TallyPositive(ss[key][s].delays, PoppedDelays(ss[key][s], logical, now));
    }
  }

  /** Popping the entry at position `n` extends the popped buckets and the histogram by its bucket. */
  lemma PopStep(tracking: SourceTracking, n: nat, now: nat)
    requires n < |tracking.queue| && ArrivedBy(tracking.queue, now)
    ensures var q := tracking.queue;
            var d := NextPowerOfTwo(now - q[n].1);
            && DelayBuckets(q[..n + 1], now) == DelayBuckets(q[..n], now) + [d]
            && Tally(tracking.delays, DelayBuckets(q[..n + 1], now)) == Bump(Tally(tracking.delays, DelayBuckets(q[..n], now)), d)
  {
    var q := tracking.queue;
    assert q[..n + 1] == q[..n] + [q[n]];
    TallySnoc(tracking.delays, DelayBuckets(q[..n], now), NextPowerOfTwo(now - q[n].1));
  }

  lemma {:induction false} TallySnoc(h: map<nat, int>, ds: seq<nat>, d: nat)
    ensures Tally(h, ds + [d]) == Bump(Tally(h, ds), d)
    decreases |ds|
  {
    if ds == [] {
      assert ds + [d] == [d];
    } else {
      assert (ds + [d])[1..] == ds[1..] + [d];
      TallySnoc(Bump(h, ds[0]), ds[1..], d);
    }
  }

  lemma {:induction false} ReadyCountIsPopped(q: seq<(Timestamp, nat)>, logical: Timestamp, n: nat)
    requires n <= |q|
    requires forall i :: 0 <= i < n ==> q[i].0 <= logical
    requires n < |q| ==> q[n].0 > logical
    ensures ReadyCount(q, logical) == n
  {
  }

  lemma {:induction false} OfSourceAppend(a: seq<Update<DelayRow>>, b: seq<Update<DelayRow>>, s: GlobalId)
    ensures OfSource(a + b, s) == OfSource(a, s) + OfSource(b, s)
    decreases |b|
  {
    if b == [] {
      assert a + b == a;
    } else {
      var b' := b[..|b| - 1];
      assert (a + b)[..|a + b| - 1] == a + b';
      OfSourceAppend(a, b', s);
    }
  }

  lemma {:induction false} OfSourceRows(dataflow: GlobalId, source: GlobalId, worker: WorkerId, ds: seq<nat>, time: nat)
    ensures var rows := DelayRows(dataflow, source, worker, ds, time);
            forall s :: OfSource(rows, s) == if s == source then rows else []
    decreases |ds|
  {
    if ds != [] {
      var ds' := ds[..|ds| - 1];
      assert DelayRows(dataflow, source, worker, ds, time)[..|ds| - 1] == DelayRows(dataflow, source, worker, ds', time);
      OfSourceRows(dataflow, source, worker, ds', time);
    }
  }

  lemma {:induction false} NetAppend<R>(a: seq<Update<R>>, b: seq<Update<R>>, k: R)
    ensures Net(a + b, k) == Net(a, k) + Net(b, k)
    decreases |b|
  {
    if b == [] {
      assert a + b == a;
    } else {
      var b' := b[..|b| - 1];
      assert (a + b)[..|a + b| - 1] == a + b';
      NetAppend(a, b', k);
    }
  }

  /** Only the updates of a row's own source contribute to its net multiplicity. */
  lemma {:induction false} NetOfSource(us: seq<Update<DelayRow>>, k: DelayRow)
    ensures Net(us, k) == Net(OfSource(us, k.source), k)
    decreases |us|
  {
    if us != [] {
      var us' := us[..|us| - 1];
      var u := us[|us| - 1];
      NetOfSource(us', k);
      if u.row.source == k.source {
        NetSnoc(OfSource(us', k.source), u);
      } else {
        assert OfSource(us', k.source) + [] == OfSource(us', k.source);
      }
    }
  }

  /** The rows for a list of delays net to how often each delay occurs. */
  lemma {:induction false} NetDelayRows(dataflow: GlobalId, source: GlobalId, worker: WorkerId, ds: seq<nat>,
                                        time: nat, k: DelayRow)
    ensures Net(DelayRows(dataflow, source, worker, ds, time), k) ==
              if k.dataflow == dataflow && k.source == source && k.worker == worker then Occurrences(ds, k.delayNs) else 0
    decreases |ds|
  {
    if ds != [] {
      var ds' := ds[..|ds| - 1];
      assert DelayRows(dataflow, source, worker, ds, time)[..|ds| - 1] == DelayRows(dataflow, source, worker, ds', time);
      NetDelayRows(dataflow, source, worker, ds', time, k);
    }
  }

  /** Tallying a list of delays adds each delay's number of occurrences to its bucket. */
  lemma TallyAll(h: map<nat, int>, ds: seq<nat>)
    ensures forall d :: Count(Tally(h, ds), d) == Count(h, d) + Occurrences(ds, d)
  {
    forall d
      ensures Count(Tally(h, ds), d) == Count(h, d) + Occurrences(ds, d)
    {
      TallyCounts(h, ds, d);
    }
  }

  lemma {:induction false} TallyCounts(h: map<nat, int>, ds: seq<nat>, d: nat)
    ensures Count(Tally(h, ds), d) == Count(h, d) + Occurrences(ds, d)
    decreases |ds|
  {
    if ds != [] {
      var ds' := ds[..|ds| - 1];
      assert ds == ds' + [ds[|ds| - 1]];
      TallySnoc(h, ds', ds[|ds| - 1]);
      TallyCounts(h, ds', d);
    }
  }

  /** Advancing every source of one dataflow keeps the frontier-delay ledger balanced. */
  lemma AdvanceKeepsBalance(log: seq<Update<DelayRow>>, ss: StorageSources, key: (GlobalId, WorkerId),
                            logical: Timestamp, now: nat, rows: seq<Update<DelayRow>>, t: nat)
    requires key in ss && QueuesArrivedBy(ss, now) && Balanced(log, ss)
    requires forall s :: OfSource(rows, s) ==
               if s in ss[key] then DelayRows(key.0, s, key.1, PoppedDelays(ss[key][s], logical, now), t) else []
    ensures var ss' := ss[key := AdvanceAll(ss[key], logical, now)];
            QueuesArrivedBy(ss', now) && Balanced(log + rows, ss')
  {
    AdvanceKeepsArrival(ss, key, logical, now);
    forall k: DelayRow
      ensures Net(log + rows, k) == Recorded(ss[key := AdvanceAll(ss[key], logical, now)], k)
    {
      AdvanceBalanceAt(log, ss, key, logical, now, rows, t, k);
    }
  }

  lemma AdvanceKeepsArrival(ss: StorageSources, key: (GlobalId, WorkerId), logical: Timestamp, now: nat)
    requires key in ss && QueuesArrivedBy(ss, now)
    ensures QueuesArrivedBy(ss[key := AdvanceAll(ss[key], logical, now)], now)
  {
    var ss': StorageSources := ss[key := AdvanceAll(ss[key], logical, now)];
    forall k: (GlobalId, WorkerId), s: GlobalId | k in ss' && s in ss'[k]
      ensures ArrivedBy(ss'[k][s].queue, now)
    {
      assert ArrivedBy(ss[k][s].queue, now);
    }
  }

  lemma AdvanceBalanceAt(log: seq<Update<DelayRow>>, ss: StorageSources, key: (GlobalId, WorkerId),
                         logical: Timestamp, now: nat, rows: seq<Update<DelayRow>>, t: nat, k: DelayRow)
    requires key in ss && QueuesArrivedBy(ss, now) && Net(log, k) == Recorded(ss, k)
    requires forall s :: OfSource(rows, s) ==
               if s in ss[key] then DelayRows(key.0, s, key.1, PoppedDelays(ss[key][s], logical, now), t) else []
    ensures Net(log + rows, k) == Recorded(ss[key := AdvanceAll(ss[key], logical, now)], k)
  {
    var sm := ss[key];
    NetAppend(log, rows, k);
    NetOfSource(rows, k);
    if k.source in sm {
      var ds := PoppedDelays(sm[k.source], logical, now);
      NetDelayRows(key.0, k.source, key.1, ds, t, k);
      TallyCounts(sm[k.source].delays, ds, k.delayNs);
    }
  }

  /** Dropping one dataflow's histograms together with their retractions keeps the ledger balanced. */
  lemma RetractKeepsBalance(log: seq<Update<DelayRow>>, ss: StorageSources, key: (GlobalId, WorkerId),
                            rows: seq<Update<DelayRow>>)
    requires key in ss && Balanced(log, ss)
    requires forall k :: Net(rows, k) == if (k.dataflow, k.worker) == key then -RecordedIn(ss[key], k) else 0
    ensures Balanced(log + rows, ss - {key})
  {
    forall k: DelayRow
      ensures Net(log + rows, k) == Recorded(ss - {key}, k)
    {
      NetAppend(log, rows, k);
    }
  }
}
