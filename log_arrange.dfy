/**
 * Routing of the seven compute-log collections to arrangements and sinks,
 * and the key/value projection applied to every row before it is arranged
 * (src/compute/src/logging/compute.rs:384-443). A row is a sequence of
 * datums; the datum type is left generic.
 */
module LogArrange {

  /** The seven compute log variants, in the order the logging dataflow lists them. */
  datatype ComputeLog =
    | DataflowCurrent
    | DataflowDependency
    | FrontierCurrent
    | SourceFrontierCurrent
    | FrontierDelay
    | PeekCurrent
    | PeekDuration

  type Row<T> = seq<T>

  /** Columns `cols` of `row`, in the order listed. */
  function Columns<T>(row: Row<T>, cols: seq<nat>): (r: Row<T>)
    requires forall i :: 0 <= i < |cols| ==> cols[i] < |row|
    ensures |r| == |cols|
    ensures forall i :: 0 <= i < |cols| ==> r[i] == row[cols[i]]
  {
    if cols == [] then [] else [row[cols[0]]] + Columns(row, cols[1..])
  }

  /**
   * The row mapped to its arrangement key and value: first the key columns,
   * then, into a cleared buffer, the value columns (compute.rs:424-430).
   */
  function Project<T>(row: Row<T>, key: seq<nat>, value: seq<nat>): (kv: (Row<T>, Row<T>))
    requires forall i :: 0 <= i < |key| ==> key[i] < |row|
    requires forall i :: 0 <= i < |value| ==> value[i] < |row|
    ensures |kv.0| == |key| && |kv.1| == |value|
  {
    (Columns(row, key), Columns(row, value))
  }

  /** The position of the first occurrence of `c` in `cols`. */
  function IndexOf(cols: seq<nat>, c: nat): (i: nat)
    requires c in cols
    ensures i < |cols| && cols[i] == c
    ensures forall j :: 0 <= j < i ==> cols[j] != c
  {
    if cols[0] == c then 0 else 1 + IndexOf(cols[1..], c)
  }

  /** Every column of a row of width `arity` is a key column or a value column. */
  predicate Covers(key: seq<nat>, value: seq<nat>, arity: nat)
  {
    forall c :: 0 <= c < arity ==> c in key || c in value
  }

  /** Reassembles a row of width `arity` from its key and value parts. */
  function Unproject<T>(kv: (Row<T>, Row<T>), key: seq<nat>, value: seq<nat>, arity: nat): (row: Row<T>)
    requires Covers(key, value, arity)
    requires |kv.0| == |key| && |kv.1| == |value|
    ensures |row| == arity
  {
    seq(arity, c requires 0 <= c < arity =>
      if c in key then kv.0[IndexOf(key, c)] else kv.1[IndexOf(value, c)])
  }

  /**
   * The projection loses nothing when the key and value columns together
   * cover the row, as the arrangement permutation guarantees.
   */
  lemma ProjectIsLossless<T>(row: Row<T>, key: seq<nat>, value: seq<nat>)
    requires forall i :: 0 <= i < |key| ==> key[i] < |row|
    requires forall i :: 0 <= i < |value| ==> value[i] < |row|
    requires Covers(key, value, |row|)
    ensures Unproject(Project(row, key, value), key, value, |row|) == row
  {
    var kv := Project(row, key, value);
    var back := Unproject(kv, key, value, |row|);
    forall c | 0 <= c < |row|
      ensures back[c] == row[c]
    {
      if c in key {
        assert kv.0[IndexOf(key, c)] == row[key[IndexOf(key, c)]];
      } else {
        assert kv.1[IndexOf(value, c)] == row[value[IndexOf(value, c)]];
      }
    }
  }

  /** Key and value columns each row of a collection projects to. */
  datatype Layout = Layout(key: seq<nat>, value: seq<nat>)

  /** Every key and value column exists in every row (the source indexes the datums unchecked). */
  predicate Fits<T>(rows: seq<Row<T>>, layout: Layout)
  {
    && (forall j, i :: 0 <= j < |rows| && 0 <= i < |layout.key| ==> layout.key[i] < |rows[j]|)
    && (forall j, i :: 0 <= j < |rows| && 0 <= i < |layout.value| ==> layout.value[i] < |rows[j]|)
  }

  /** The arranged (key, value) pairs of a collection under `layout`. */
  function Arranged<T>(rows: seq<Row<T>>, layout: Layout): (pairs: seq<(Row<T>, Row<T>)>)
    requires Fits(rows, layout)
    ensures |pairs| == |rows|
    ensures forall i :: 0 <= i < |rows| ==> pairs[i] == Project(rows[i], layout.key, layout.value)
  {
    seq(|rows|, i requires 0 <= i < |rows| => Project(rows[i], layout.key, layout.value))
  }

  /**
   * The `for (variant, collection) in logs` loop (compute.rs:410-442): an
   * active variant is arranged by its layout and added to the result; a
   * variant configured for a sink is handed to that sink, in list order.
   */
  method Route<T, SinkId>(logs: seq<(ComputeLog, seq<Row<T>>)>, activeLogs: map<ComputeLog, Layout>,
                          sinkLogs: map<ComputeLog, SinkId>)
    returns (traces: map<ComputeLog, seq<(Row<T>, Row<T>)>>, sinks: seq<(SinkId, ComputeLog)>)
    requires forall i, j :: 0 <= i < j < |logs| ==> logs[i].0 != logs[j].0
    requires LogsFit(logs, activeLogs)
    ensures traces == RoutedTraces(logs, activeLogs) && sinks == RoutedSinks(logs, sinkLogs)
    ensures forall v :: v in traces <==> exists i :: 0 <= i < |logs| && logs[i].0 == v && v in activeLogs
    ensures forall i :: 0 <= i < |logs| && logs[i].0 in activeLogs ==>
              traces[logs[i].0] == Arranged(logs[i].1, activeLogs[logs[i].0])
    ensures |sinks| <= |logs|
    ensures forall s :: s in sinks <==>
              exists i :: 0 <= i < |logs| && logs[i].0 in sinkLogs && s == (sinkLogs[logs[i].0], logs[i].0)
  {
    traces := map[];
    sinks := [];
    var n := 0;
    while n < |logs|
      invariant 0 <= n <= |logs|
      invariant LogsFit(logs[..n], activeLogs)
      invariant traces == RoutedTraces(logs[..n], activeLogs) && sinks == RoutedSinks(logs[..n], sinkLogs)
    {
      assert logs[..n + 1][..n] == logs[..n] && logs[..n + 1][n] == logs[n];
      var (variant, collection) := logs[n];
      if variant in activeLogs {
        traces := traces[variant := Arranged(collection, activeLogs[variant])];
      }
      if variant in sinkLogs {
        sinks := sinks + [(sinkLogs[variant], variant)];
      }
      n := n + 1;
    }
    assert logs[..n] == logs;
    RoutedTraceKeys(logs, activeLogs);
    RoutedTraceValues(logs, activeLogs);
    RoutedSinksHold(logs, sinkLogs);
  }

  /** Every active log's rows have the columns its layout names. */
  ghost predicate LogsFit<T>(logs: seq<(ComputeLog, seq<Row<T>>)>, activeLogs: map<ComputeLog, Layout>)
  {
    forall i :: 0 <= i < |logs| && logs[i].0 in activeLogs ==> Fits(logs[i].1, activeLogs[logs[i].0])
  }

  /** The traces the loop builds: each active log's arrangement under its variant. */
  ghost function RoutedTraces<T>(logs: seq<(ComputeLog, seq<Row<T>>)>, activeLogs: map<ComputeLog, Layout>)
    : map<ComputeLog, seq<(Row<T>, Row<T>)>>
    requires LogsFit(logs, activeLogs)
  {
    if logs == [] then map[]
    else
      var init := logs[..|logs| - 1];
      var last := logs[|logs| - 1];
      LogsFitPrefix(logs, activeLogs);
      var rest := RoutedTraces(init, activeLogs);
      if last.0 in activeLogs then rest[last.0 := Arranged(last.1, activeLogs[last.0])] else rest
  }

  /** The sink handoffs the loop makes, in list order. */
  ghost function RoutedSinks<T, SinkId>(logs: seq<(ComputeLog, seq<Row<T>>)>, sinkLogs: map<ComputeLog, SinkId>)
    : seq<(SinkId, ComputeLog)>
  {
    if logs == [] then []
    else
      var last := logs[|logs| - 1];
      RoutedSinks(logs[..|logs| - 1], sinkLogs) + (if last.0 in sinkLogs then [(sinkLogs[last.0], last.0)] else [])
  }

  lemma LogsFitPrefix<T>(logs: seq<(ComputeLog, seq<Row<T>>)>, activeLogs: map<ComputeLog, Layout>)
    requires LogsFit(logs, activeLogs) && |logs| > 0
    ensures LogsFit(logs[..|logs| - 1], activeLogs)
  {
    var init := logs[..|logs| - 1];
    forall i | 0 <= i < |init| && init[i].0 in activeLogs
      ensures Fits(init[i].1, activeLogs[init[i].0])
    {
      assert init[i] == logs[i];
    }
  }

  /** The routed traces hold exactly the active variants among the logs. */
  lemma {:induction false} RoutedTraceKeys<T>(logs: seq<(ComputeLog, seq<Row<T>>)>, activeLogs: map<ComputeLog, Layout>)
    requires LogsFit(logs, activeLogs)
    ensures forall v :: v in RoutedTraces(logs, activeLogs) <==>
              exists i :: 0 <= i < |logs| && logs[i].0 == v && v in activeLogs
  {
    if logs != [] {
      var init := logs[..|logs| - 1];
      var last := logs[|logs| - 1];
      LogsFitPrefix(logs, activeLogs);
      RoutedTraceKeys(init, activeLogs);
      var rest := RoutedTraces(init, activeLogs);
      forall v
        ensures v in RoutedTraces(logs, activeLogs) <==> exists i :: 0 <= i < |logs| && logs[i].0 == v && v in activeLogs
      {
        if v in rest {
          var i :| 0 <= i < |init| && init[i].0 == v && v in activeLogs;
          assert logs[i].0 == v;
        }
        if v == last.0 && v in activeLogs {
          assert logs[|logs| - 1].0 == v;
        }
        if exists i :: 0 <= i < |logs| && logs[i].0 == v && v in activeLogs {
          var i :| 0 <= i < |logs| && logs[i].0 == v && v in activeLogs;
          if i < |init| {
            assert init[i].0 == v;
          }
        }
      }
    }
  }

  /** With each variant listed once, every active log's trace is its own collection arranged. */
  lemma {:induction false} RoutedTraceValues<T>(logs: seq<(ComputeLog, seq<Row<T>>)>, activeLogs: map<ComputeLog, Layout>)
    requires forall i, j :: 0 <= i < j < |logs| ==> logs[i].0 != logs[j].0
    requires LogsFit(logs, activeLogs)
    ensures forall i :: 0 <= i < |logs| && logs[i].0 in activeLogs ==>
              logs[i].0 in RoutedTraces(logs, activeLogs) &&
              RoutedTraces(logs, activeLogs)[logs[i].0] == Arranged(logs[i].1, activeLogs[logs[i].0])
  {
    if logs != [] {
      var init := logs[..|logs| - 1];
      var last := logs[|logs| - 1];
      LogsFitPrefix(logs, activeLogs);
      RoutedTraceValues(init, activeLogs);
      forall i | 0 <= i < |logs| && logs[i].0 in activeLogs
        ensures logs[i].0 in RoutedTraces(logs, activeLogs)
        ensures RoutedTraces(logs, activeLogs)[logs[i].0] == Arranged(logs[i].1, activeLogs[logs[i].0])
      {
        if i < |init| {
          assert init[i] == logs[i];
          assert logs[i].0 != last.0;
        }
      }
    }
  }

  /** At most one handoff per log, and exactly one for each log configured for a sink. */
  lemma {:induction false} RoutedSinksHold<T, SinkId>(logs: seq<(ComputeLog, seq<Row<T>>)>, sinkLogs: map<ComputeLog, SinkId>)
    ensures var sinks := RoutedSinks(logs, sinkLogs);
            && |sinks| <= |logs|
            && (forall s :: s in sinks <==>
                  exists i :: 0 <= i < |logs| && logs[i].0 in sinkLogs && s == (sinkLogs[logs[i].0], logs[i].0))
  {
    if logs != [] {
      var init := logs[..|logs| - 1];
      RoutedSinksHold(init, sinkLogs);
      var sinks := RoutedSinks(logs, sinkLogs);
      forall s
        ensures s in sinks <==>
                exists i :: 0 <= i < |logs| && logs[i].0 in sinkLogs && s == (sinkLogs[logs[i].0], logs[i].0)
      {
        if s in RoutedSinks(init, sinkLogs) {
          var i :| 0 <= i < |init| && init[i].0 in sinkLogs && s == (sinkLogs[init[i].0], init[i].0);
          assert logs[i] == init[i];
        }
        if exists i :: 0 <= i < |logs| && logs[i].0 in sinkLogs && s == (sinkLogs[logs[i].0], logs[i].0) {
          var i :| 0 <= i < |logs| && logs[i].0 in sinkLogs && s == (sinkLogs[logs[i].0], logs[i].0);
          if i < |init| {
            assert init[i] == logs[i];
          }
        }
      }
    }
  }
}
