/**
 * The span store: the span writer, the span reader and the dependency reader
 * over one embedded storage engine.
 *
 * The engine is modelled by what the store sees of it: each query text
 * yields either a decoded list of rows or an error, and writing a span yields
 * an error or nothing. Every call to the current time becomes a parameter in
 * Unix nanoseconds. The one-time bootstrap of the service index is a flag.
 */
module Store {
  import opened Wrappers
  import opened TraceQuery
  import opened Traces
  import opened Dependencies
  import opened ServiceIndex

  /** The storage engine as the store uses it; each query includes decoding its JSON result. */
  datatype Engine = Engine(
    findTraceIds: string -> Result<seq<string>, Error>,
    findSpans: string -> Result<seq<StoredSpan>, Error>,
    findDependencyRows: string -> Result<seq<DepRow>, Error>,
    findServiceRows: string -> Result<seq<SvcOpRow>, Error>,
    appendSpan: Span -> Option<Error>)

  /** At most `n` IDs, the first ones. */
  function Truncate(ids: seq<string>, n: nat): (r: seq<string>)
    ensures |r| == if |ids| > n then n else |ids|
    ensures r == ids[..|r|]
  {
    if |ids| > n then ids[..n] else ids
  }

  /** `traces` lists each group of `g` as one trace, and nothing else. */
  ghost predicate ListsGroups(traces: seq<Trace>, g: map<string, seq<Span>>) {
    && |traces| == |g.Keys|
    && (forall id :: id in g ==> Trace(g[id]) in traces)
    && (forall t :: t in traces ==> exists id :: id in g && t == Trace(g[id]))
  }

  class WaveRider {
    const engine: Engine
    /** The document-to-domain span converter. */
    const toDomain: StoredSpan -> Result<Span, Error>
    /** Parsing a trace ID from its text form. */
    const traceIdFromString: string -> Result<TraceId, Error>
    /** Operations per service. */
    var serviceOperations: Index
    /** Whether the service index has been bootstrapped from the engine. */
    var bootstrapped: bool

    constructor (engine: Engine, toDomain: StoredSpan -> Result<Span, Error>,
                 traceIdFromString: string -> Result<TraceId, Error>)
      ensures this.engine == engine && this.toDomain == toDomain
      ensures this.traceIdFromString == traceIdFromString
      ensures serviceOperations == map[] && !bootstrapped
    {
      this.engine := engine;
      this.toDomain := toDomain;
      this.traceIdFromString := traceIdFromString;
      serviceOperations := map[];
      bootstrapped := false;
    }

    // ---------------------------------------------------------------- writing

    /** Records the span's service and operation, then hands the span to the engine. */
    method WriteSpan(span: Span) returns (err: Option<Error>)
      modifies this
      ensures serviceOperations == Record(old(serviceOperations), span.serviceName, span.operationName)
      ensures bootstrapped == old(bootstrapped)
      ensures err == engine.appendSpan(span)
    {
      UpdateSvcOp(span);
      err := engine.appendSpan(span);
    }

    method UpdateSvcOp(span: Span)
      modifies this
      ensures serviceOperations == Record(old(serviceOperations), span.serviceName, span.operationName)
      ensures bootstrapped == old(bootstrapped)
    {
      RecordOperation(span.serviceName, span.operationName);
    }

    /** Marks `operation` as seen for `service`, creating the service's set when it is new. */
    method RecordOperation(service: string, operation: string)
      modifies this
      ensures serviceOperations == Record(old(serviceOperations), service, operation)
      ensures bootstrapped == old(bootstrapped)
    {
      if service !in serviceOperations {
        serviceOperations := serviceOperations[service := {}];
      }
      var op := serviceOperations[service];
      serviceOperations := serviceOperations[service := op + {operation}];
    }

    // ---------------------------------------------------------------- the service index

    /** The index after the service query: unchanged when the query fails. */
    function AfterServiceQuery(m: Index, firstNow: int, secondNow: int): Index {
      match engine.findServiceRows(ServiceQuery(firstNow, secondNow))
      case Err(_) => m
      case Ok(rows) => MergeRows(m, rows)
    }

    method QueryService(firstNow: int, secondNow: int)
      modifies this
      ensures serviceOperations == AfterServiceQuery(old(serviceOperations), firstNow, secondNow)
      ensures bootstrapped == old(bootstrapped)
    {
      var rs := engine.findServiceRows(ServiceQuery(firstNow, secondNow));
      if rs.Err? {
        return;
      }
      var rows := rs.value;
      ghost var start := serviceOperations;
      for i := 0 to |rows|
        invariant serviceOperations == MergeRows(start, rows[..i])
        invariant bootstrapped == old(bootstrapped)
      {
        MergeRowsSnoc(start, rows[..i], rows[i]);
        assert rows[..i + 1] == rows[..i] + [rows[i]];
        RecordOperation(rows[i].service, rows[i].operation);
      }
      assert rows[..|rows|] == rows;
    }

    /** The first read, and only the first, runs the service query. */
    method Bootstrap(firstNow: int, secondNow: int)
      modifies this
      ensures bootstrapped
      ensures serviceOperations
              == if old(bootstrapped) then old(serviceOperations) else AfterServiceQuery(old(serviceOperations), firstNow, secondNow)
    {
      if !bootstrapped {
        QueryService(firstNow, secondNow);
        bootstrapped := true;
      }
    }

    /** Every service in the index, each once. */
    method GetServices(firstNow: int, secondNow: int) returns (svc: seq<string>)
      modifies this
      ensures bootstrapped
      ensures serviceOperations
              == if old(bootstrapped) then old(serviceOperations) else AfterServiceQuery(old(serviceOperations), firstNow, secondNow)
      ensures forall s :: s in svc <==> s in serviceOperations
      ensures forall i, j :: 0 <= i < j < |svc| ==> svc[i] != svc[j]
    {
      Bootstrap(firstNow, secondNow);
      svc := Enumerate(serviceOperations.Keys);
    }

    /** Every operation the index holds for `service`, each once; none for an unknown service. */
    method GetOperations(service: string, firstNow: int, secondNow: int) returns (ops: seq<string>)
      modifies this
      ensures bootstrapped
      ensures serviceOperations
              == if old(bootstrapped) then old(serviceOperations) else AfterServiceQuery(old(serviceOperations), firstNow, secondNow)
      ensures forall o :: o in ops <==> o in OpsIn(serviceOperations, service)
      ensures forall i, j :: 0 <= i < j < |ops| ==> ops[i] != ops[j]
    {
      Bootstrap(firstNow, secondNow);
      var known := if service in serviceOperations then serviceOperations[service] else {};
      ops := Enumerate(known);
    }

    // ---------------------------------------------------------------- reading one trace

    /** The trace the engine holds under `id`, as GetTrace computes it. */
    function StoredTrace(id: string): Result<Trace, Error> {
      match engine.findSpans(TraceKeyQuery(id))
      case Err(e) => Err(e)
      case Ok(rows) =>
        match ConvertAll(toDomain, rows)
        case Err(e) => Err(e)
        case Ok(spans) => Ok(Trace(spans))
    }

    /**
     * A trace is read iff the query succeeds and every span converts; it then
     * holds one span per row, in row order. No rows read as an empty trace.
     */
    lemma StoredTraceSpec(id: string)
      ensures StoredTrace(id).Ok? <==>
                engine.findSpans(TraceKeyQuery(id)).Ok?
                && forall i :: 0 <= i < |engine.findSpans(TraceKeyQuery(id)).value| ==>
                     toDomain(engine.findSpans(TraceKeyQuery(id)).value[i]).Ok?
      ensures StoredTrace(id).Ok? ==>
                var rows := engine.findSpans(TraceKeyQuery(id)).value;
                |StoredTrace(id).value.spans| == |rows|
                && forall i :: 0 <= i < |rows| ==> StoredTrace(id).value.spans[i] == toDomain(rows[i]).value
      ensures engine.findSpans(TraceKeyQuery(id)) == Ok([]) ==> StoredTrace(id) == Ok(Trace([]))
    {
      if engine.findSpans(TraceKeyQuery(id)).Ok? {
        ConvertAllSpec(toDomain, engine.findSpans(TraceKeyQuery(id)).value);
      }
    }

    method GetTrace(id: string) returns (r: Result<Trace, Error>)
      ensures r == StoredTrace(id)
    {
      var rs := engine.findSpans(TraceKeyQuery(id));
      if rs.Err? {
        return Err(rs.error);
      }
      var spans := ConvertEach(toDomain, rs.value);
      if spans.Err? {
        return Err(spans.error);
      }
      r := Ok(Trace(spans.value));
    }

    /** GetTrace as documented: a trace with no stored spans is not found. */
    method GetTraceChecked(id: string) returns (r: Result<Trace, Error>)
      ensures engine.findSpans(TraceKeyQuery(id)) == Ok([]) ==> r == Err(TraceNotFound)
      ensures r.Ok? ==> r.value.spans != [] && r == StoredTrace(id)
      ensures StoredTrace(id).Ok? && StoredTrace(id).value.spans != [] ==> r == StoredTrace(id)
      ensures StoredTrace(id).Err? ==> r == StoredTrace(id)
    {
      StoredTraceSpec(id);
      r := GetTrace(id);
      if r.Ok? && r.value.spans == [] {
        r := Err(TraceNotFound);
      }
    }

    // ---------------------------------------------------------------- searching traces

    /** The IDs of the traces matching the query, as the engine returns them. */
    function TraceIdSearch(query: TraceQueryParameters, order: seq<string>): Result<seq<string>, Error>
      requires IsTagOrder(query.tags, order)
    {
      engine.findTraceIds(Render(Plan(query, order)))
    }

    /**
     * The traces matching the query: at most numTraces trace IDs are kept,
     * all their spans in the search window are fetched, the spans that
     * convert are grouped by trace ID, and each group is one trace. `order`
     * is the order in which the tag map is visited.
     */
    method FindTraces(query: TraceQueryParameters, order: seq<string>) returns (r: Result<seq<Trace>, Error>)
      requires IsTagOrder(query.tags, order)
      requires query.numTraces >= 0
      ensures TraceIdSearch(query, order).Err? ==> r == Err(TraceIdSearch(query, order).error)
      ensures TraceIdSearch(query, order) == Ok([]) ==> r == Ok([])
      ensures TraceIdSearch(query, order).Ok? && TraceIdSearch(query, order).value != [] ==>
                var plan := Plan(query, order);
                var kept := Truncate(TraceIdSearch(query, order).value, query.numTraces);
                var fetched := engine.findSpans(SpanFetchQuery(plan.min, plan.max, kept));
                && (fetched.Err? ==> r == Err(fetched.error))
                && (fetched.Ok? ==> r.Ok? && ListsGroups(r.value, Group(Converted(toDomain, fetched.value))))
    {
      var qry, min, max := BuildTraceIdQuery(query, order);
      var rs := engine.findTraceIds(qry);
      if rs.Err? {
        return Err(rs.error);
      }
      var ids := rs.value;
      if |ids| == 0 {
        return Ok([]);
      }
      if |ids| > query.numTraces {
        ids := ids[..query.numTraces];
      }
      var fetch := BuildSpanFetchQuery(min, max, ids);
      var ss := engine.findSpans(fetch);
      if ss.Err? {
        return Err(ss.error);
      }
      var traces := GroupConverted(ss.value);
      var out := ListTraces(traces);
      r := Ok(out);
    }

    /** FindTraces' grouping loop; spans that fail to convert are dropped. */
    method GroupConverted(rows: seq<StoredSpan>) returns (traces: map<string, seq<Span>>)
      ensures traces == Group(Converted(toDomain, rows))
    {
      traces := map[];
      for i := 0 to |rows|
        invariant traces == Group(Converted(toDomain, rows[..i]))
      {
        assert rows[..i + 1] == rows[..i] + [rows[i]];
        ConvertedSnoc(toDomain, rows[..i], rows[i]);
        var c := toDomain(rows[i]);
        if c.Ok? {
          var span := c.value;
          ghost var done := Converted(toDomain, rows[..i]);
          assert Converted(toDomain, rows[..i + 1]) == done + [span];
          GroupSnoc(done, span);
          if span.traceID !in traces {
            traces := traces[span.traceID := []];
          }
          var trace := traces[span.traceID];
          traces := traces[span.traceID := trace + [span]];
        } else {
          assert Converted(toDomain, rows[..i]) + [] == Converted(toDomain, rows[..i]);
        }
      }
      assert rows[..|rows|] == rows;
    }

    method ListTraces(traces: map<string, seq<Span>>) returns (out: seq<Trace>)
      ensures ListsGroups(out, traces)
    {
      var keys := Enumerate(traces.Keys);
      out := [];
      for j := 0 to |keys|
        invariant |out| == j
        invariant forall k :: 0 <= k < j ==> out[k] == Trace(traces[keys[k]])
      {
        out := out + [Trace(traces[keys[j]])];
      }
      forall id | id in traces ensures Trace(traces[id]) in out {
        var k :| 0 <= k < |keys| && keys[k] == id;
        assert out[k] == Trace(traces[id]);
      }
      forall t | t in out ensures exists id :: id in traces && t == Trace(traces[id]) {
        var k :| 0 <= k < |out| && out[k] == t;
        assert keys[k] in traces;
      }
    }

    /** The IDs of the matching traces, all of them: numTraces does not apply here. */
    method FindTraceIDs(query: TraceQueryParameters, order: seq<string>) returns (r: Result<seq<TraceId>, Error>)
      requires IsTagOrder(query.tags, order)
      ensures TraceIdSearch(query, order).Err? ==> r == Err(TraceIdSearch(query, order).error)
      ensures TraceIdSearch(query, order) == Ok([]) ==> r == Ok([])
      ensures TraceIdSearch(query, order).Ok? && TraceIdSearch(query, order).value != [] ==>
                r == ConvertAll(traceIdFromString, TraceIdSearch(query, order).value)
    {
      var qry, _, _ := BuildTraceIdQuery(query, order);
      var rs := engine.findTraceIds(qry);
      if rs.Err? {
        return Err(rs.error);
      }
      var ids := rs.value;
      if |ids| == 0 {
        return Ok([]);
      }
      r := ConvertEach(traceIdFromString, ids);
    }

    // ---------------------------------------------------------------- dependencies

    /** The service links of the spans started in the lookback window ending at `endNanos`. */
    method GetDependencies(endNanos: int, lookbackNanos: int) returns (r: Result<seq<DependencyLink>, Error>)
      ensures engine.findDependencyRows(DependencyQuery(endNanos, lookbackNanos)).Err? ==>
                r == Err(engine.findDependencyRows(DependencyQuery(endNanos, lookbackNanos)).error)
      ensures engine.findDependencyRows(DependencyQuery(endNanos, lookbackNanos)).Ok? ==>
                r == Ok(Links(engine.findDependencyRows(DependencyQuery(endNanos, lookbackNanos)).value))
    {
      var rs := engine.findDependencyRows(DependencyQuery(endNanos, lookbackNanos));
      if rs.Err? {
        return Err(rs.error);
      }
      var links := InferLinks(rs.value, TextKey);
      r := Ok(links);
    }
 
    /**
     * GetDependencies with links keyed by the (parent, child) pair: one link
     * per distinct call, in first-call order, with the number of its calls.
     */
    method GetDependenciesByPair(endNanos: int, lookbackNanos: int) returns (r: Result<seq<DependencyLink>, Error>)
      ensures engine.findDependencyRows(DependencyQuery(endNanos, lookbackNanos)).Err? ==>
                r == Err(engine.findDependencyRows(DependencyQuery(endNanos, lookbackNanos)).error)
      ensures engine.findDependencyRows(DependencyQuery(endNanos, lookbackNanos)).Ok? ==>
                var rows := engine.findDependencyRows(DependencyQuery(endNanos, lookbackNanos)).value;
                r == Ok(ReferenceLinks(PairsOf(rows, rows)))
    {
      var rs := engine.findDependencyRows(DependencyQuery(endNanos, lookbackNanos));
      if rs.Err? {
        return Err(rs.error);
      }
      var links := InferLinks(rs.value, PairKey);
      CorrectLinksSpec(rs.value);
      r := Ok(links);
    }
  }
}
