/**
 * The trace-ID search query (buildTraceIdQuery) and the follow-up span-fetch
 * query FindTraces builds from its result, plus the key query of GetTrace.
 *
 * A query is specified in two layers: a plan (the time window and the list of
 * filter clauses the parameters call for) and its rendering as query text.
 * The builder methods append to a string step by step, as the strings.Builder
 * code does, and are proved to produce exactly the rendering of the plan.
 */
module TraceQuery {
  import opened Wrappers
  import opened Text

  /** spanstore.TraceQueryParameters. */
  datatype TraceQueryParameters = TraceQueryParameters(
    serviceName: string,
    operationName: string,
    tags: map<string, string>,
    startTimeMin: Option<int>,  // UnixNano of the bound; None for the zero time.Time
    startTimeMax: Option<int>,
    durationMin: int,           // time.Duration, in nanoseconds
    durationMax: int,
    numTraces: int)

  /** One bracketed clause after the time window. Durations are microseconds. */
  datatype Filter =
    | ServiceIs(service: string)
    | OperationIs(operation: string)
    | DurationBetween(low: int, high: int)
    | DurationAtLeast(low: int)
    | DurationAtMost(high: int)
    | TagIs(key: string, value: string)

  datatype FilterKind = ServiceKind | OperationKind | DurationKind | TagKind

  function KindOf(f: Filter): FilterKind {
    match f
    case ServiceIs(_) => ServiceKind
    case OperationIs(_) => OperationKind
    case TagIs(_, _) => TagKind
    case _ => DurationKind
  }

  /** The window [min, max] in Unix microseconds and the filters, in emission order. */
  datatype TraceIdPlan = TraceIdPlan(min: int, max: int, filters: seq<Filter>)

  const TraceIdHead: string := "FIND $tid, $st WHERE [$tid /traceID] [$st /startTime TIMEFRAME("
  const OrderByTail: string := "order-by $st desc"

  // ---------------------------------------------------------------- rendering

  function ServiceClause(name: string): string {
    "[/process/serviceName CONTAIN('^" + name + "$')]"
  }

  function OperationClause(name: string): string {
    "[/operationName CONTAIN('^" + name + "$')]"
  }

  function BetweenClause(low: int, high: int): string {
    "[/duration BETWEEN(" + FormatInt(low) + "," + FormatInt(high) + ")]"
  }

  function AtLeastClause(low: int): string {
    "[/duration GE(" + FormatInt(low) + ")]"
  }

  function AtMostClause(high: int): string {
    "[/duration LE(" + FormatInt(high) + ")]"
  }

  /** A tag object whose key and value both contain the given text. */
  function TagClause(key: string, value: string): string {
    "[/tags " + "[/key " + " CONTAIN('" + key + "')]" + "[/value " + " CONTAIN('" + value + "')]" + "]"
  }

  function RenderFilter(f: Filter): string {
    match f
    case ServiceIs(n) => ServiceClause(n)
    case OperationIs(n) => OperationClause(n)
    case DurationBetween(lo, hi) => BetweenClause(lo, hi)
    case DurationAtLeast(lo) => AtLeastClause(lo)
    case DurationAtMost(hi) => AtMostClause(hi)
    case TagIs(k, v) => TagClause(k, v)
  }

  function RenderFilters(fs: seq<Filter>): string {
    ConcatMap(RenderFilter, fs)
  }


  function Render(plan: TraceIdPlan): string {
    TraceIdHead + WindowText(plan.min, plan.max) + RenderFilters(plan.filters) + OrderByTail
  }

  // ---------------------------------------------------------------- planning

  /** The tag keys in the order a range over the Go map visits them: each key once. */
  predicate IsTagOrder(tags: map<string, string>, order: seq<string>) {
    && (forall i, j :: 0 <= i < j < |order| ==> order[i] != order[j])
    && (forall k :: k in order ==> k in tags)
    && (forall k :: k in tags ==> k in order)
  }

  function NameFilters(p: TraceQueryParameters): seq<Filter> {
    (if |p.serviceName| > 0 then [ServiceIs(p.serviceName)] else [])
      + (if |p.operationName| > 0 then [OperationIs(p.operationName)] else [])
  }

  function DurationFilters(p: TraceQueryParameters): seq<Filter> {
    if p.durationMin != 0 && p.durationMax != 0 then
      [DurationBetween(ToMicros(p.durationMin), ToMicros(p.durationMax))]
    else if p.durationMin > 0 then [DurationAtLeast(ToMicros(p.durationMin))]
    else if p.durationMax > 0 then [DurationAtMost(ToMicros(p.durationMax))]
    else []
  }

  function TagFilters(tags: map<string, string>, order: seq<string>): seq<Filter>
    requires forall k :: k in order ==> k in tags
  {
    if order == [] then []
    else TagFilters(tags, order[..|order| - 1]) + [TagIs(order[|order| - 1], tags[order[|order| - 1]])]
  }

  /** Appending one clause's text extends the rendered filter list by that clause. */
  lemma AppendClause(sb: string, base: string, done: seq<Filter>, f: Filter)
    requires sb == base + RenderFilters(done)
    ensures sb + RenderFilter(f) == base + RenderFilters(done + [f])
  {
    ConcatMapExtend(RenderFilter, sb, base, done, [f]);
    ConcatMapSingle(RenderFilter, f);
  }

  lemma TagFiltersSnoc(tags: map<string, string>, order: seq<string>, i: nat)
    requires i < |order| && forall k :: k in order ==> k in tags
    ensures TagFilters(tags, order[..i + 1]) == TagFilters(tags, order[..i]) + [TagIs(order[i], tags[order[i]])]
  {
    assert order[..i + 1][..i] == order[..i];
  }

  function Plan(p: TraceQueryParameters, order: seq<string>): TraceIdPlan
    requires IsTagOrder(p.tags, order)
  {
    var min := if p.startTimeMin.Some? then ToMicros(p.startTimeMin.value) else 0;
    var max := if p.startTimeMax.Some? then ToMicros(p.startTimeMax.value) else MaxInt64;
    TraceIdPlan(min, max, NameFilters(p) + DurationFilters(p) + TagFilters(p.tags, order))
  }

  // ---------------------------------------------------------------- the builder

  /** buildTraceIdQuery: the query text and the window it used. */
  method BuildTraceIdQuery(p: TraceQueryParameters, order: seq<string>) returns (q: string, min: int, max: int)
    requires IsTagOrder(p.tags, order)
    ensures q == Render(Plan(p, order))
    ensures min == Plan(p, order).min && max == Plan(p, order).max
  {
    min, max := 0, MaxInt64;
    if p.startTimeMin.Some? {
      min := ToMicros(p.startTimeMin.value);
    }
    if p.startTimeMax.Some? {
      max := ToMicros(p.startTimeMax.value);
    }

    ghost var plan := Plan(p, order);
    assert min == plan.min && max == plan.max;
    ghost var head := TraceIdHead + WindowText(min, max);
    ghost var names, durations, tags :=
      RenderFilters(NameFilters(p)), RenderFilters(DurationFilters(p)), RenderFilters(TagFilters(p.tags, order));

    var sb := TraceIdHead + WindowText(min, max);
    sb := AppendNameClauses(sb, p);
    assert sb == head + names;
    sb := AppendDurationClause(sb, p);
    assert sb == head + names + durations;
    sb := AppendTagClauses(sb, p.tags, order);
    assert sb == head + names + durations + tags;
    sb := sb + OrderByTail;
    q := sb;
    PlanText(p, order);
    assert RenderFilters(plan.filters) == names + durations + tags;
    Regroup(head, names, durations, tags);
  }

  lemma Regroup(a: string, b: string, c: string, d: string)
    ensures a + (b + c + d) == a + b + c + d
  {
  }

  /** The rendered filters of a plan are the names', then the duration's, then the tags'. */
  lemma PlanText(p: TraceQueryParameters, order: seq<string>)
    requires IsTagOrder(p.tags, order)
    ensures RenderFilters(Plan(p, order).filters)
            == RenderFilters(NameFilters(p)) + RenderFilters(DurationFilters(p)) + RenderFilters(TagFilters(p.tags, order))
  {
    ConcatMapAppend(RenderFilter, NameFilters(p), DurationFilters(p));
    ConcatMapAppend(RenderFilter, NameFilters(p) + DurationFilters(p), TagFilters(p.tags, order));
  }

  /** The service clause when a service is named, then the operation clause when an operation is named. */
  method AppendNameClauses(sb: string, p: TraceQueryParameters) returns (r: string)
    ensures r == sb + RenderFilters(NameFilters(p))
  {
    var sn: seq<Filter> := if |p.serviceName| > 0 then [ServiceIs(p.serviceName)] else [];
    var on: seq<Filter> := if |p.operationName| > 0 then [OperationIs(p.operationName)] else [];
    ConcatMapAppend(RenderFilter, sn, on);
    r := sb;
    if |p.serviceName| > 0 {
      r := r + ServiceClause(p.serviceName);
      ConcatMapSingle(RenderFilter, ServiceIs(p.serviceName));
    }
    if |p.operationName| > 0 {
      r := r + OperationClause(p.operationName);
      ConcatMapSingle(RenderFilter, OperationIs(p.operationName));
    }
  }

  /** The three-way choice of the one duration clause. */
  method AppendDurationClause(sb: string, p: TraceQueryParameters) returns (r: string)
    ensures r == sb + RenderFilters(DurationFilters(p))
  {
    r := sb;
    if p.durationMin != 0 && p.durationMax != 0 {
      r := r + BetweenClause(ToMicros(p.durationMin), ToMicros(p.durationMax));
      ConcatMapSingle(RenderFilter, DurationBetween(ToMicros(p.durationMin), ToMicros(p.durationMax)));
    } else if p.durationMin > 0 {
      r := r + AtLeastClause(ToMicros(p.durationMin));
      ConcatMapSingle(RenderFilter, DurationAtLeast(ToMicros(p.durationMin)));
    } else if p.durationMax > 0 {
      r := r + AtMostClause(ToMicros(p.durationMax));
      ConcatMapSingle(RenderFilter, DurationAtMost(ToMicros(p.durationMax)));
    } else {
      assert r == sb + "";
    }
  }

  /** The loop over the tag map: one tag clause per key, in the order visited. */
  method AppendTagClauses(sb: string, tags: map<string, string>, order: seq<string>) returns (r: string)
    requires forall k :: k in order ==> k in tags
    ensures r == sb + RenderFilters(TagFilters(tags, order))
  {
    r := sb;
    var i := 0;
    ghost var tagsDone: seq<Filter> := [];
    assert order[..0] == [];
    while i < |order|
      invariant 0 <= i <= |order|
      invariant tagsDone == TagFilters(tags, order[..i])
      invariant r == sb + RenderFilters(tagsDone)
    {
      var k := order[i];
      AppendClause(r, sb, tagsDone, TagIs(k, tags[k]));
      r := r + TagClause(k, tags[k]);
      TagFiltersSnoc(tags, order, i);
      tagsDone := tagsDone + [TagIs(k, tags[k])];
      i := i + 1;
    }
    assert order[..i] == order;
  }

  // ---------------------------------------------------------------- what a plan says

  function CountKind(fs: seq<Filter>, k: FilterKind): nat {
    if fs == [] then 0 else CountKind(fs[..|fs| - 1], k) + (if KindOf(fs[|fs| - 1]) == k then 1 else 0)
  }

  lemma {:induction false} CountKindAppend(a: seq<Filter>, b: seq<Filter>, k: FilterKind)
    ensures CountKind(a + b, k) == CountKind(a, k) + CountKind(b, k)
    decreases |b|
  {
    if b == [] {
      assert a + b == a;
    } else {
      assert (a + b)[..|a + b| - 1] == a + b[..|b| - 1];
      assert (a + b)[|a + b| - 1] == b[|b| - 1];
      CountKindAppend(a, b[..|b| - 1], k);
    }
  }

  lemma {:induction false} TagFiltersElements(tags: map<string, string>, order: seq<string>)
    requires forall k :: k in order ==> k in tags
    ensures |TagFilters(tags, order)| == |order|
    ensures forall i :: 0 <= i < |order| ==> TagFilters(tags, order)[i] == TagIs(order[i], tags[order[i]])
    ensures CountKind(TagFilters(tags, order), TagKind) == |order|
    ensures forall k :: k != TagKind ==> CountKind(TagFilters(tags, order), k) == 0
    decreases |order|
  {
    if order != [] {
      var o := order[..|order| - 1];
      TagFiltersElements(tags, o);
      var fs := TagFilters(tags, order);
      assert fs[..|fs| - 1] == TagFilters(tags, o);
      forall i | 0 <= i < |order| ensures fs[i] == TagIs(order[i], tags[order[i]]) {
        if i < |o| { assert order[i] == o[i]; }
      }
    }
  }

  /** A sequence without repetitions has as many elements as its set. */
  lemma {:induction false} DistinctCardinality(xs: seq<string>)
    requires forall i, j :: 0 <= i < j < |xs| ==> xs[i] != xs[j]
    ensures |(set x | x in xs)| == |xs|
    decreases |xs|
  {
    if xs != [] {
      var ys := xs[..|xs| - 1];
      DistinctCardinality(ys);
      var last := xs[|xs| - 1];
      assert (set x | x in xs) == (set y | y in ys) + {last};
      assert last !in ys by {
        forall i | 0 <= i < |ys| ensures ys[i] != last { assert ys[i] == xs[i]; }
      }
    }
  }

  /** The search window: an unset bound is the widest int64 range, a set one is in microseconds. */
  lemma WindowBounds(p: TraceQueryParameters, order: seq<string>)
    requires IsTagOrder(p.tags, order)
    ensures p.startTimeMin.None? ==> Plan(p, order).min == 0
    ensures p.startTimeMax.None? ==> Plan(p, order).max == MaxInt64
    ensures p.startTimeMin.Some? ==> Plan(p, order).min == ToMicros(p.startTimeMin.value)
    ensures p.startTimeMax.Some? ==> Plan(p, order).max == ToMicros(p.startTimeMax.value)
    ensures p.startTimeMin.Some? && p.startTimeMax.Some? && p.startTimeMin.value <= p.startTimeMax.value
            ==> Plan(p, order).min <= Plan(p, order).max
  {
    if p.startTimeMin.Some? && p.startTimeMax.Some? && p.startTimeMin.value <= p.startTimeMax.value {
      ToMicrosMonotone(p.startTimeMin.value, p.startTimeMax.value);
    }
  }

  lemma CountSingle(f: Filter, k: FilterKind)
    ensures CountKind([f], k) == if KindOf(f) == k then 1 else 0
  {
    assert [f][..0] == [];
  }

  lemma NameFilterCounts(p: TraceQueryParameters, k: FilterKind)
    ensures CountKind(NameFilters(p), k)
            == (if k == ServiceKind && p.serviceName != "" then 1 else 0)
             + (if k == OperationKind && p.operationName != "" then 1 else 0)
  {
    var sn := if |p.serviceName| > 0 then [ServiceIs(p.serviceName)] else [];
    var on := if |p.operationName| > 0 then [OperationIs(p.operationName)] else [];
    CountKindAppend(sn, on, k);
    if sn != [] { CountSingle(ServiceIs(p.serviceName), k); }
    if on != [] { CountSingle(OperationIs(p.operationName), k); }
  }

  lemma DurationFilterCounts(p: TraceQueryParameters, k: FilterKind)
    ensures CountKind(DurationFilters(p), k)
            == if k == DurationKind && ((p.durationMin != 0 && p.durationMax != 0) || p.durationMin > 0 || p.durationMax > 0)
               then 1 else 0
  {
    var d := DurationFilters(p);
    if d != [] { CountSingle(d[0], k); }
  }

  lemma PlanCount(p: TraceQueryParameters, order: seq<string>, k: FilterKind)
    requires IsTagOrder(p.tags, order)
    ensures CountKind(Plan(p, order).filters, k)
            == CountKind(NameFilters(p), k) + CountKind(DurationFilters(p), k) + CountKind(TagFilters(p.tags, order), k)
  {
    CountKindAppend(NameFilters(p), DurationFilters(p), k);
    CountKindAppend(NameFilters(p) + DurationFilters(p), TagFilters(p.tags, order), k);
  }

  /**
   * A service clause iff a service name is given, an operation clause iff an
   * operation name is given, each with the name as given.
   */
  lemma NameClauses(p: TraceQueryParameters, order: seq<string>)
    requires IsTagOrder(p.tags, order)
    ensures CountKind(Plan(p, order).filters, ServiceKind) == if p.serviceName != "" then 1 else 0
    ensures CountKind(Plan(p, order).filters, OperationKind) == if p.operationName != "" then 1 else 0
    ensures p.serviceName != "" ==> ServiceIs(p.serviceName) in Plan(p, order).filters
    ensures p.operationName != "" ==> OperationIs(p.operationName) in Plan(p, order).filters
    ensures forall f :: f in Plan(p, order).filters && f.ServiceIs? ==> f.service == p.serviceName
    ensures forall f :: f in Plan(p, order).filters && f.OperationIs? ==> f.operation == p.operationName
  {
    NameClauseCount(p, order, ServiceKind);
    NameClauseCount(p, order, OperationKind);
    NameClauseMembers(p, order);
  }

  lemma NameClauseCount(p: TraceQueryParameters, order: seq<string>, k: FilterKind)
    requires IsTagOrder(p.tags, order) && (k == ServiceKind || k == OperationKind)
    ensures CountKind(Plan(p, order).filters, k)
            == (if k == ServiceKind && p.serviceName != "" then 1 else 0)
             + (if k == OperationKind && p.operationName != "" then 1 else 0)
  {
    TagFiltersElements(p.tags, order);
    PlanCount(p, order, k);
    NameFilterCounts(p, k);
    DurationFilterCounts(p, k);
  }

  lemma NameClauseMembers(p: TraceQueryParameters, order: seq<string>)
    requires IsTagOrder(p.tags, order)
    ensures p.serviceName != "" ==> ServiceIs(p.serviceName) in Plan(p, order).filters
    ensures p.operationName != "" ==> OperationIs(p.operationName) in Plan(p, order).filters
    ensures forall f :: f in Plan(p, order).filters && f.ServiceIs? ==> f.service == p.serviceName
    ensures forall f :: f in Plan(p, order).filters && f.OperationIs? ==> f.operation == p.operationName
  {
    TagFiltersElements(p.tags, order);
    var n, d, t := NameFilters(p), DurationFilters(p), TagFilters(p.tags, order);
    var fs := Plan(p, order).filters;
    assert fs == n + d + t;
    forall f | f in t ensures f.TagIs? {
      var i :| 0 <= i < |t| && t[i] == f;
    }
    forall f | f in fs && (f.ServiceIs? || f.OperationIs?) ensures f in n {
      assert f !in t && f !in d;
    }
  }

  /**
   * At most one duration clause: BETWEEN when both bounds are non-zero, else
   * GE when the minimum is positive, else LE when the maximum is positive.
   */
  lemma DurationClause(p: TraceQueryParameters, order: seq<string>)
    requires IsTagOrder(p.tags, order)
    ensures CountKind(Plan(p, order).filters, DurationKind)
            == if (p.durationMin != 0 && p.durationMax != 0) || p.durationMin > 0 || p.durationMax > 0 then 1 else 0
    ensures p.durationMin != 0 && p.durationMax != 0
            ==> DurationBetween(ToMicros(p.durationMin), ToMicros(p.durationMax)) in Plan(p, order).filters
    ensures !(p.durationMin != 0 && p.durationMax != 0) && p.durationMin > 0
            ==> DurationAtLeast(ToMicros(p.durationMin)) in Plan(p, order).filters
    ensures !(p.durationMin != 0 && p.durationMax != 0) && p.durationMin <= 0 && p.durationMax > 0
            ==> DurationAtMost(ToMicros(p.durationMax)) in Plan(p, order).filters
  {
    TagFiltersElements(p.tags, order);
    PlanCount(p, order, DurationKind);
    NameFilterCounts(p, DurationKind);
    DurationFilterCounts(p, DurationKind);
    var d := DurationFilters(p);
    if d != [] {
      assert Plan(p, order).filters[|NameFilters(p)|] == d[0];
    }
  }

  lemma TagFiltersMembers(tags: map<string, string>, order: seq<string>)
    requires IsTagOrder(tags, order)
    ensures forall k :: k in tags ==> TagIs(k, tags[k]) in TagFilters(tags, order)
    ensures forall f :: f in TagFilters(tags, order) ==> f.TagIs? && f.key in tags && f.value == tags[f.key]
  {
    var t := TagFilters(tags, order);
    TagFiltersElements(tags, order);
    forall k | k in tags ensures TagIs(k, tags[k]) in t {
      var i :| 0 <= i < |order| && order[i] == k;
      assert t[i] == TagIs(k, tags[k]);
    }
    forall f | f in t ensures f.TagIs? && f.key in tags && f.value == tags[f.key] {
      var i :| 0 <= i < |t| && t[i] == f;
      assert f == TagIs(order[i], tags[order[i]]);
    }
  }

  /** A tag order lists every key exactly once. */
  lemma TagOrderLength(tags: map<string, string>, order: seq<string>)
    requires IsTagOrder(tags, order)
    ensures |order| == |tags|
  {
    DistinctCardinality(order);
    assert (set x | x in order) == tags.Keys;
  }

  lemma TagClauseCount(p: TraceQueryParameters, order: seq<string>)
    requires IsTagOrder(p.tags, order)
    ensures CountKind(Plan(p, order).filters, TagKind) == |p.tags|
  {
    TagFiltersElements(p.tags, order);
    PlanCount(p, order, TagKind);
    NameFilterCounts(p, TagKind);
    DurationFilterCounts(p, TagKind);
    TagOrderLength(p.tags, order);
  }

  /** One tag clause per entry of the tag map, carrying that entry's key and value. */
  lemma TagClauses(p: TraceQueryParameters, order: seq<string>)
    requires IsTagOrder(p.tags, order)
    ensures CountKind(Plan(p, order).filters, TagKind) == |p.tags|
    ensures forall k :: k in p.tags ==> TagIs(k, p.tags[k]) in Plan(p, order).filters
    ensures forall f :: f in Plan(p, order).filters && f.TagIs? ==> f.key in p.tags && f.value == p.tags[f.key]
  {
    var n, d, t := NameFilters(p), DurationFilters(p), TagFilters(p.tags, order);
    var fs := Plan(p, order).filters;
    assert fs == n + d + t;
    TagClauseCount(p, order);
    TagFiltersMembers(p.tags, order);
    forall f | f in fs && f.TagIs? ensures f.key in p.tags && f.value == p.tags[f.key] {
      assert f !in n && f !in d;
    }
  }

  /** Every trace-ID query starts with the FIND head and ends with the ordering. */
  lemma RenderShape(plan: TraceIdPlan)
    ensures |Render(plan)| >= |TraceIdHead| + |OrderByTail|
    ensures Render(plan)[..|TraceIdHead|] == TraceIdHead
    ensures Render(plan)[|Render(plan)| - |OrderByTail|..] == OrderByTail
  {
    var mid := WindowText(plan.min, plan.max) + RenderFilters(plan.filters);
    assert Render(plan) == TraceIdHead + mid + OrderByTail;
  }

  /** The trace-ID query carries the plan's window. */
  lemma RenderedWindow(plan: TraceIdPlan)
    ensures ReadWindow(Render(plan), TraceIdHead) == Some((plan.min, plan.max))
  {
    assert Render(plan) == TraceIdHead + WindowText(plan.min, plan.max) + (RenderFilters(plan.filters) + OrderByTail);
    WindowReadsBack(TraceIdHead, plan.min, plan.max, RenderFilters(plan.filters) + OrderByTail);
  }

  /**
   * Names are written into the query verbatim, with no escaping: a service
   * name holding clause text produces the same query as a service name plus
   * an operation name.
   */
  lemma NamesAreNotEscaped()
    ensures var crafted := TraceQueryParameters("a$')][/operationName CONTAIN('^b", "", map[], None, None, 0, 0, 20);
            var plain := TraceQueryParameters("a", "b", map[], None, None, 0, 0, 20);
            crafted != plain && Render(Plan(crafted, [])) == Render(Plan(plain, []))
  {
    var crafted := TraceQueryParameters("a$')][/operationName CONTAIN('^b", "", map[], None, None, 0, 0, 20);
    var plain := TraceQueryParameters("a", "b", map[], None, None, 0, 0, 20);
    NamesOnly(crafted);
    NamesOnly(plain);
    ConcatMapSingle(RenderFilter, ServiceIs(crafted.serviceName));
    ConcatMapSnoc(RenderFilter, [ServiceIs("a")], OperationIs("b"));
    ConcatMapSingle(RenderFilter, ServiceIs("a"));
    CraftedServiceClause();
  }

  lemma CraftedServiceClause()
    ensures ServiceClause("a$')][/operationName CONTAIN('^b") == ServiceClause("a") + OperationClause("b")
  {
  }

  lemma NamesOnly(p: TraceQueryParameters)
    requires p.tags == map[] && p.startTimeMin.None? && p.startTimeMax.None? && p.durationMin == 0 && p.durationMax == 0
    ensures IsTagOrder(p.tags, [])
    ensures Render(Plan(p, [])) == TraceIdHead + WindowText(0, MaxInt64) + RenderFilters(NameFilters(p)) + OrderByTail
  {
    assert Plan(p, []).filters == NameFilters(p);
  }

  // ---------------------------------------------------------------- fetching the spans of the found traces

  const SpanFetchHead := "FIND $s WHERE [$s /] [/startTime TIMEFRAME("

  function Quoted(id: string): string {
    "'" + id + "'"
  }

  /** Trace IDs, each in single quotes, separated by commas. */
  function QuotedList(ids: seq<string>): string {
    if ids == [] then ""
    else if |ids| == 1 then Quoted(ids[0])
    else Quoted(ids[0]) + "," + QuotedList(ids[1..])
  }

  /** The query fetching every span of the given traces, restricted to the search window. */
  function SpanFetchQuery(min: int, max: int, ids: seq<string>): string {
    SpanFetchHead + WindowText(min, max) + " [/traceID IN(" + QuotedList(ids) + ")]"
  }

  lemma {:induction false} QuotedListSnoc(ids: seq<string>, x: string)
    ensures QuotedList(ids + [x]) == QuotedList(ids) + (if ids == [] then "" else ",") + Quoted(x)
    decreases |ids|
  {
    if |ids| > 1 {
      assert (ids + [x])[1..] == ids[1..] + [x];
      QuotedListSnoc(ids[1..], x);
    } else if |ids| == 1 {
      assert (ids + [x])[1..] == [x];
    }
  }

  lemma ExtendQuotedList(q: string, base: string, ids: seq<string>, i: nat, comma: string)
    requires i < |ids|
    requires q == base + QuotedList(ids[..i])
    requires comma == if i == 0 then "" else ","
    ensures q + comma + Quoted(ids[i]) == base + QuotedList(ids[..i + 1])
  {
    assert ids[..i + 1] == ids[..i] + [ids[i]];
    QuotedListSnoc(ids[..i], ids[i]);
    Regroup(base, QuotedList(ids[..i]), comma, Quoted(ids[i]));
  }

  /** FindTraces' second query, built as the Go code builds it, with a leading-comma variable. */
  method BuildSpanFetchQuery(min: int, max: int, ids: seq<string>) returns (q: string)
    ensures q == SpanFetchQuery(min, max, ids)
  {
    q := SpanFetchHead + WindowText(min, max) + " [/traceID IN(";
    ghost var base := q;
    var comma := "";
    for i := 0 to |ids|
      invariant q == base + QuotedList(ids[..i])
      invariant comma == if i == 0 then "" else ","
    {
      ExtendQuotedList(q, base, ids, i, comma);
      q := q + comma + Quoted(ids[i]);
      comma := ",";
    }
    assert ids[..|ids|] == ids;
    q := q + ")]";
  }

  /** The inverse of QuotedList for IDs without quotes; a trailing comma is rejected. */
  function ParseQuotedList(s: string): Option<seq<string>>
    decreases |s|
  {
    if s == [] then Some([])
    else if s[0] != '\'' then None
    else
      var j := IndexOf(s[1..], "'");
      if j < 0 then None
      else
        var rest := s[j + 2..];
        if rest == [] then Some([s[1..j + 1]])
        else if rest[0] != ',' || rest[1..] == [] then None
        else match ParseQuotedList(rest[1..])
          case Some(more) => Some([s[1..j + 1]] + more)
          case None => None
  }

  lemma ParseFirstId(x: string, tail: string)
    requires '\'' !in x
    ensures IndexOf((Quoted(x) + tail)[1..], "'") == |x|
    ensures (Quoted(x) + tail)[1..|x| + 1] == x
    ensures (Quoted(x) + tail)[|x| + 2..] == tail
  {
    var s := Quoted(x) + tail;
    assert s[1..] == x + ['\''] + tail;
    IndexOfAfterPrefix(x, '\'', tail);
    assert "'" == ['\''];
  }

  lemma ParseOne(x: string)
    requires '\'' !in x
    ensures ParseQuotedList(Quoted(x)) == Some([x])
  {
    ParseFirstId(x, "");
    assert Quoted(x) + "" == Quoted(x);
  }

  lemma ParseMore(x: string, more: string, ms: seq<string>)
    requires '\'' !in x
    requires more != [] && ParseQuotedList(more) == Some(ms)
    ensures ParseQuotedList(Quoted(x) + ("," + more)) == Some([x] + ms)
  {
    ParseFirstId(x, "," + more);
    assert ("," + more)[1..] == more;
  }

  /** The IN-list names exactly the given trace IDs, in order, when no ID holds a quote. */
  lemma {:induction false} QuotedListRoundTrip(ids: seq<string>)
    requires forall i :: 0 <= i < |ids| ==> '\'' !in ids[i]
    ensures ParseQuotedList(QuotedList(ids)) == Some(ids)
    decreases |ids|
  {
    if |ids| == 1 {
      ParseOne(ids[0]);
      assert ids == [ids[0]];
    } else if |ids| > 1 {
      QuotedListRoundTrip(ids[1..]);
      QuotedListCons(ids);
      ParseMore(ids[0], QuotedList(ids[1..]), ids[1..]);
      assert [ids[0]] + ids[1..] == ids;
    }
  }

  lemma QuotedListCons(ids: seq<string>)
    requires |ids| > 1
    ensures QuotedList(ids) == Quoted(ids[0]) + ("," + QuotedList(ids[1..]))
    ensures QuotedList(ids[1..]) != []
  {
    var more := ids[1..];
    assert |QuotedList(more)| > 0 by {
      if |more| == 1 {
        assert QuotedList(more) == Quoted(more[0]);
      } else {
        assert QuotedList(more)[..|Quoted(more[0])|] == Quoted(more[0]);
      }
    }
  }

  /** The span-fetch query carries the trace-ID query's window. */
  lemma SpanFetchWindow(min: int, max: int, ids: seq<string>)
    ensures ReadWindow(SpanFetchQuery(min, max, ids), SpanFetchHead) == Some((min, max))
  {
    assert SpanFetchQuery(min, max, ids) == SpanFetchHead + WindowText(min, max) + (" [/traceID IN(" + QuotedList(ids) + ")]");
    WindowReadsBack(SpanFetchHead, min, max, " [/traceID IN(" + QuotedList(ids) + ")]");
  }

  // ---------------------------------------------------------------- fetching one trace

  const TraceKeyHead := "FIND $s WHERE [/traceID KEY('"

  /** GetTrace's query: every span stored under the key. */
  function TraceKeyQuery(id: string): string {
    TraceKeyHead + id + "')] [$s /]"
  }

  /** The key that follows the head, up to the first quote. */
  function ReadKey(q: string): Option<string> {
    if |q| < |TraceKeyHead| || q[..|TraceKeyHead|] != TraceKeyHead then None
    else
      var rest := q[|TraceKeyHead|..];
      var j := IndexOf(rest, "'");
      if j < 0 then None else Some(rest[..j])
  }

  /** The key query names the trace asked for, when its ID holds no quote. */
  lemma TraceKeyRoundTrip(id: string)
    requires '\'' !in id
    ensures ReadKey(TraceKeyQuery(id)) == Some(id)
  {
    var q := TraceKeyQuery(id);
    assert q[..|TraceKeyHead|] == TraceKeyHead;
    assert q[|TraceKeyHead|..] == id + ['\''] + ")] [$s /]";
    IndexOfAfterPrefix(id, '\'', ")] [$s /]");
    assert "'" == ['\''];
    assert q[|TraceKeyHead|..][..|id|] == id;
  }
}
