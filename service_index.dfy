/**
 * The in-memory index of operations per service that the span reader serves
 * GetServices and GetOperations from. Spans written through the store add
 * to it one at a time; the first read merges in the (service, operation)
 * pairs the engine holds for the last fourteen days.
 */
module ServiceIndex {
  import opened Wrappers
  import opened Text

  /** Service name -> the set of its operation names (the code's map[string]bool). */
  type Index = map<string, set<string>>

  /** One row of the service query. */
  datatype SvcOpRow = SvcOpRow(service: string, operation: string)

  /** The operations recorded for `svc`, none when the service is unknown. */
  function OpsIn(m: Index, svc: string): set<string> {
    if svc in m then m[svc] else {}
  }

  /** Records one (service, operation) pair; every other service is left as it was. */
  function Record(m: Index, svc: string, op: string): (r: Index)
    ensures r.Keys == m.Keys + {svc}
    ensures OpsIn(r, svc) == OpsIn(m, svc) + {op}
    ensures forall s :: s != svc ==> OpsIn(r, s) == OpsIn(m, s)
  {
    m[svc := OpsIn(m, svc) + {op}]
  }

  /** Recording a pair twice is recording it once. */
  lemma RecordIdempotent(m: Index, svc: string, op: string)
    ensures Record(Record(m, svc, op), svc, op) == Record(m, svc, op)
  {
    var r := Record(m, svc, op);
    var rr := Record(r, svc, op);
    assert rr.Keys == r.Keys;
    forall s | s in rr ensures rr[s] == r[s] {
      assert OpsIn(rr, s) == OpsIn(r, s);
    }
  }

  /** The index does not depend on the order in which pairs arrive. */
  lemma RecordCommutes(m: Index, a: string, x: string, b: string, y: string)
    ensures Record(Record(m, a, x), b, y) == Record(Record(m, b, y), a, x)
  {
    var l := Record(Record(m, a, x), b, y);
    var r := Record(Record(m, b, y), a, x);
    assert l.Keys == r.Keys;
    forall s | s in l ensures l[s] == r[s] {
      assert OpsIn(l, s) == OpsIn(r, s);
    }
  }

  /** Records every row, in order. */
  function MergeRows(m: Index, rows: seq<SvcOpRow>): Index {
    if rows == [] then m
    else Record(MergeRows(m, rows[..|rows| - 1]), rows[|rows| - 1].service, rows[|rows| - 1].operation)
  }

  /** The operations the rows name for one service. */
  function RowOps(rows: seq<SvcOpRow>, svc: string): set<string> {
    set i | 0 <= i < |rows| && rows[i].service == svc :: rows[i].operation
  }

  /** The services the rows name. */
  function RowServices(rows: seq<SvcOpRow>): set<string> {
    set i | 0 <= i < |rows| :: rows[i].service
  }

  lemma RowServicesSnoc(rows: seq<SvcOpRow>, v: SvcOpRow)
    ensures RowServices(rows + [v]) == RowServices(rows) + {v.service}
  {
    var all := rows + [v];
    forall s | s in RowServices(all) ensures s in RowServices(rows) + {v.service} {
      var i :| 0 <= i < |all| && all[i].service == s;
      if i < |rows| { assert all[i] == rows[i]; }
    }
    forall s | s in RowServices(rows) ensures s in RowServices(all) {
      var i :| 0 <= i < |rows| && rows[i].service == s;
      assert all[i] == rows[i];
    }
    assert all[|rows|] == v;
  }

  lemma RowOpsSnoc(rows: seq<SvcOpRow>, v: SvcOpRow, svc: string)
    ensures RowOps(rows + [v], svc) == RowOps(rows, svc) + (if v.service == svc then {v.operation} else {})
  {
    var all := rows + [v];
    forall o | o in RowOps(all, svc)
      ensures o in RowOps(rows, svc) + (if v.service == svc then {v.operation} else {})
    {
      var i :| 0 <= i < |all| && all[i].service == svc && all[i].operation == o;
      if i < |rows| { assert all[i] == rows[i]; }
    }
    forall o | o in RowOps(rows, svc) ensures o in RowOps(all, svc) {
      var i :| 0 <= i < |rows| && rows[i].service == svc && rows[i].operation == o;
      assert all[i] == rows[i];
    }
    assert all[|rows|] == v;
  }

  /**
   * After the merge the index knows the services it knew and the services of
   * the rows, and each service's operations are the old ones plus those the
   * rows name for it.
   */
  lemma {:induction false} MergeRowsSpec(m: Index, rows: seq<SvcOpRow>)
    ensures MergeRows(m, rows).Keys == m.Keys + RowServices(rows)
    ensures forall s :: OpsIn(MergeRows(m, rows), s) == OpsIn(m, s) + RowOps(rows, s)
    decreases |rows|
  {
    if rows != [] {
      var init := rows[..|rows| - 1];
      var last := rows[|rows| - 1];
      assert init + [last] == rows;
      MergeRowsSpec(m, init);
      RowServicesSnoc(init, last);
      forall s ensures OpsIn(MergeRows(m, rows), s) == OpsIn(m, s) + RowOps(rows, s) {
        RowOpsSnoc(init, last, s);
      }
    }
  }

  /** The loop form of MergeRows: recording one more row. */
  lemma MergeRowsSnoc(m: Index, rows: seq<SvcOpRow>, v: SvcOpRow)
    ensures MergeRows(m, rows + [v]) == Record(MergeRows(m, rows), v.service, v.operation)
  {
    assert (rows + [v])[..|rows|] == rows;
  }

  // ---------------------------------------------------------------- the service query

  const ServiceHead := "FIND $svc, $op WHERE [$svc /process/serviceName][$op /operationName][/startTime TIMEFRAME("

  /** Fourteen days (336 hours) in nanoseconds. */
  const Retention := 336 * 3600 * 1_000_000_000

  /**
   * The query for every (service, operation) pair of the last fourteen days.
   * The code reads the clock twice: `firstNow` for the start of the window and
   * `secondNow` for its end, both in Unix nanoseconds.
   */
  function ServiceQuery(firstNow: int, secondNow: int): string {
    ServiceHead + WindowText(ToMicros(firstNow - Retention), ToMicros(secondNow))
  }

  /**
   * The service query's window starts fourteen days before the first reading
   * and ends at the second, in microseconds. After the epoch, and when the
   * clock has not stepped back between the readings, it spans at least 336
   * hours, and exactly 336 hours when both readings are the same instant.
   */
  lemma ServiceQueryWindow(firstNow: int, secondNow: int)
    ensures ReadWindow(ServiceQuery(firstNow, secondNow), ServiceHead)
            == Some((ToMicros(firstNow - Retention), ToMicros(secondNow)))
    ensures firstNow >= Retention && firstNow <= secondNow ==>
              ToMicros(secondNow) - ToMicros(firstNow - Retention) >= 336 * 3600 * 1_000_000
    ensures firstNow >= Retention && firstNow == secondNow ==>
              ToMicros(secondNow) - ToMicros(firstNow - Retention) == 336 * 3600 * 1_000_000
  {
    if firstNow >= Retention {
      ToMicrosShift(firstNow, 336 * 3600 * 1_000_000);
      if firstNow <= secondNow {
        ToMicrosMonotone(firstNow, secondNow);
      }
    }
    var lo, hi := ToMicros(firstNow - Retention), ToMicros(secondNow);
    assert ServiceQuery(firstNow, secondNow) == ServiceHead + WindowText(lo, hi) + "";
    WindowReadsBack(ServiceHead, lo, hi, "");
  }

  // ---------------------------------------------------------------- listing a set

  /** Lists a set in some order, each element once (the code ranges over a map). */
  method Enumerate<T>(s: set<T>) returns (r: seq<T>)
    ensures |r| == |s|
    ensures forall x :: x in r <==> x in s
    ensures forall i, j :: 0 <= i < j < |r| ==> r[i] != r[j]
  {
    r := [];
    var left := s;
    while left != {}
      invariant left <= s
      invariant forall x :: x in r <==> x in s && x !in left
      invariant forall i, j :: 0 <= i < j < |r| ==> r[i] != r[j]
      invariant |r| + |left| == |s|
      decreases |left|
    {
      var x :| x in left;
      r := r + [x];
      left := left - {x};
    }
  }
}
