/**
 * Dependency inference: from one row per span (its references, its span ID
 * and its service) the store derives parent -> child service links, each
 * with the number of spans that made the call.
 *
 * A span's parent is the target of its last CHILD_OF reference; the parent
 * span is the last row carrying that span ID. Rows with no parent, with a
 * parent outside the rows, or whose parent is in the same service add no
 * link. Links appear in the order their first call is met.
 */
module Dependencies {
  import opened Wrappers
  import opened Text

  datatype RefType = ChildOf | FollowsFrom

  datatype Reference = Reference(refType: RefType, spanID: string)

  /** One row of the dependency query. */
  datatype DepRow = DepRow(refs: seq<Reference>, spanID: string, service: string)

  datatype DependencyLink = DependencyLink(parent: string, child: string, callCount: nat)

  /** A (parent service, child service) pair. */
  type ServicePair = (string, string)

  // ---------------------------------------------------------------- the query

  const DependencyHead :=
    "FIND $ref, $sid, $svc WHERE [$ref /references][$sid /spanID][$svc /process/serviceName][/startTime TIMEFRAME("

  /** The query for the spans started in the `lookback` window ending at `end`, both in nanoseconds. */
  function DependencyQuery(endNanos: int, lookbackNanos: int): string {
    DependencyHead + WindowText(ToMicros(endNanos - lookbackNanos), ToMicros(endNanos))
  }

  /** The query's window runs from end - lookback to end, in microseconds. */
  lemma DependencyQueryWindow(endNanos: int, lookbackNanos: int)
    ensures ReadWindow(DependencyQuery(endNanos, lookbackNanos), DependencyHead)
            == Some((ToMicros(endNanos - lookbackNanos), ToMicros(endNanos)))
    ensures lookbackNanos >= 0 ==> ToMicros(endNanos - lookbackNanos) <= ToMicros(endNanos)
  {
    var lo, hi := ToMicros(endNanos - lookbackNanos), ToMicros(endNanos);
    assert DependencyQuery(endNanos, lookbackNanos) == DependencyHead + WindowText(lo, hi) + "";
    WindowReadsBack(DependencyHead, lo, hi, "");
    if lookbackNanos >= 0 {
      ToMicrosMonotone(endNanos - lookbackNanos, endNanos);
    }
  }

  // ---------------------------------------------------------------- span IDs to rows

  /** Span ID -> index of the last row carrying it. */
  function SpanIndex(rows: seq<DepRow>): (m: map<string, nat>)
    ensures forall id :: id in m ==> m[id] < |rows| && rows[m[id]].spanID == id
    ensures forall i :: 0 <= i < |rows| ==> rows[i].spanID in m && i <= m[rows[i].spanID]
  {
    if rows == [] then map[]
    else
      var init := rows[..|rows| - 1];
      assert forall i :: 0 <= i < |init| ==> init[i] == rows[i];
      SpanIndex(init)[rows[|rows| - 1].spanID := |rows| - 1]
  }

  method BuildSpanIndex(rows: seq<DepRow>) returns (m: map<string, nat>)
    ensures m == SpanIndex(rows)
  {
    m := map[];
    for i := 0 to |rows|
      invariant m == SpanIndex(rows[..i])
    {
      assert rows[..i + 1][..i] == rows[..i];
      m := m[rows[i].spanID := i];
    }
    assert rows[..|rows|] == rows;
  }

  // ---------------------------------------------------------------- the parent of a span

  /** The span ID of the last CHILD_OF reference, or "" when there is none. */
  function ParentId(refs: seq<Reference>): (pid: string)
    ensures (forall k :: 0 <= k < |refs| ==> refs[k].refType != ChildOf) ==> pid == ""
    ensures (exists k :: 0 <= k < |refs| && refs[k].refType == ChildOf) ==>
              exists k :: 0 <= k < |refs| && refs[k].refType == ChildOf && refs[k].spanID == pid
                          && forall j :: k < j < |refs| ==> refs[j].refType != ChildOf
  {
    if refs == [] then ""
    else if refs[|refs| - 1].refType == ChildOf then refs[|refs| - 1].spanID
    else ParentId(refs[..|refs| - 1])
  }

  method FindParent(refs: seq<Reference>) returns (pid: string)
    ensures pid == ParentId(refs)
  {
    pid := "";
    for j := 0 to |refs|
      invariant pid == ParentId(refs[..j])
    {
      assert refs[..j + 1][..j] == refs[..j];
      if refs[j].refType == ChildOf {
        pid := refs[j].spanID;
      }
    }
    assert refs[..|refs|] == refs;
  }

  /**
   * The call that row `v` records, if any: the service of its parent span and
   * its own service. A missing parent, an unknown parent span and a call
   * inside one service record nothing.
   */
  function ParentEdge(rows: seq<DepRow>, v: DepRow): (e: Option<ServicePair>)
    ensures e.Some? <==>
              ParentId(v.refs) != "" && ParentId(v.refs) in SpanIndex(rows)
              && rows[SpanIndex(rows)[ParentId(v.refs)]].service != v.service
    ensures e.Some? ==>
              e.value == (rows[SpanIndex(rows)[ParentId(v.refs)]].service, v.service)
              && e.value.0 != e.value.1
  {
    var pid := ParentId(v.refs);
    var index := SpanIndex(rows);
    if |pid| == 0 || pid !in index then None
    else
      var parent := rows[index[pid]].service;
      if parent == v.service then None else Some((parent, v.service))
  }

  /** The calls recorded by `vs`, in order. */
  function PairsOf(rows: seq<DepRow>, vs: seq<DepRow>): (ps: seq<ServicePair>)
    ensures |ps| <= |vs|
  {
    if vs == [] then []
    else
      var init := PairsOf(rows, vs[..|vs| - 1]);
      match ParentEdge(rows, vs[|vs| - 1])
      case Some(p) => init + [p]
      case None => init
  }

  /** Every recorded call comes from one of the rows. */
  lemma {:induction false} PairsOfSource(rows: seq<DepRow>, vs: seq<DepRow>)
    ensures forall p :: p in PairsOf(rows, vs) ==> exists v :: v in vs && ParentEdge(rows, v) == Some(p)
    decreases |vs|
  {
    if vs != [] {
      var init := vs[..|vs| - 1];
      PairsOfSource(rows, init);
      forall p | p in PairsOf(rows, vs) ensures exists v :: v in vs && ParentEdge(rows, v) == Some(p) {
        if p in PairsOf(rows, init) {
          var v :| v in init && ParentEdge(rows, v) == Some(p);
          assert v in vs;
        } else {
          assert vs[|vs| - 1] in vs;
        }
      }
    }
  }

  // ---------------------------------------------------------------- accumulating links

  /** The link map and the links; each key of the map indexes its link. */
  datatype LinkState<K> = LinkState(deps: map<K, nat>, links: seq<DependencyLink>)

  predicate Consistent<K>(st: LinkState<K>) {
    forall k :: k in st.deps ==> st.deps[k] < |st.links|
  }

  /** One call: a new key appends a link with one call, a known key counts one more call. */
  function Step<K(==)>(key: ServicePair -> K, st: LinkState<K>, e: Option<ServicePair>): (r: LinkState<K>)
    requires Consistent(st)
    ensures Consistent(r)
  {
    match e
    case None => st
    case Some(pc) =>
      var k := key(pc);
      if k !in st.deps then LinkState(st.deps[k := |st.links|], st.links + [DependencyLink(pc.0, pc.1, 1)])
      else
        var i := st.deps[k];
        LinkState(st.deps, st.links[i := st.links[i].(callCount := st.links[i].callCount + 1)])
  }

  /** The state after the rows `vs`, with links keyed by `key`. */
  function FoldLinks<K(==)>(key: ServicePair -> K, rows: seq<DepRow>, vs: seq<DepRow>): (st: LinkState<K>)
    ensures Consistent(st)
  {
    if vs == [] then LinkState(map[], [])
    else Step(key, FoldLinks(key, rows, vs[..|vs| - 1]), ParentEdge(rows, vs[|vs| - 1]))
  }

  /** The store's map key: parent and child joined by "&&&". */
  function TextKey(pc: ServicePair): string {
    pc.0 + "&&&" + pc.1
  }

  function PairKey(pc: ServicePair): ServicePair {
    pc
  }

  /** The links as the code computes them, keyed by text. */
  function Links(rows: seq<DepRow>): seq<DependencyLink> {
    FoldLinks(TextKey, rows, rows).links
  }

  /** The links keyed by the pair itself. */
  function CorrectLinks(rows: seq<DepRow>): seq<DependencyLink> {
    FoldLinks(PairKey, rows, rows).links
  }

  /** GetDependencies' loops over the rows, with links keyed by `key`. */
  method InferLinks<K(==)>(rows: seq<DepRow>, key: ServicePair -> K) returns (links: seq<DependencyLink>)
    ensures links == FoldLinks(key, rows, rows).links
  {
    var spanMap := BuildSpanIndex(rows);
    var deps: map<K, nat> := map[];
    links := [];
    for i := 0 to |rows|
      invariant LinkState(deps, links) == FoldLinks(key, rows, rows[..i])
    {
      assert rows[..i + 1][..i] == rows[..i];
      ghost var before := LinkState(deps, links);
      assert FoldLinks(key, rows, rows[..i + 1]) == Step(key, before, ParentEdge(rows, rows[i]));
      var v := rows[i];
      var pid := FindParent(v.refs);
      if |pid| == 0 {
        assert ParentEdge(rows, v) == None;
        continue;
      }
      if pid in spanMap {
        var parent := spanMap[pid];
        if rows[parent].service == v.service {
          assert ParentEdge(rows, v) == None;
          continue;
        }
        var pc := (rows[parent].service, v.service);
        assert ParentEdge(rows, v) == Some(pc);
        deps, links := CountCall(key, deps, links, pc);
      } else {
        assert ParentEdge(rows, v) == None;
      }
    }
    assert rows[..|rows|] == rows;
  }

  /** A new key gets a link with one call at the end; a known key's link counts one more call. */
  method CountCall<K(==)>(key: ServicePair -> K, deps: map<K, nat>, links: seq<DependencyLink>, pc: ServicePair)
    returns (deps': map<K, nat>, links': seq<DependencyLink>)
    requires Consistent(LinkState(deps, links))
    ensures LinkState(deps', links') == Step(key, LinkState(deps, links), Some(pc))
  {
    var depKey := key(pc);
    if depKey !in deps {
      deps' := deps[depKey := |links|];
      links' := links + [DependencyLink(pc.0, pc.1, 1)];
    } else {
      var j := deps[depKey];
      deps' := deps;
      links' := links[j := links[j].(callCount := links[j].callCount + 1)];
    }
  }

  // ---------------------------------------------------------------- what the accumulation keeps, whatever the key

  function LinkPair(l: DependencyLink): ServicePair {
    (l.parent, l.child)
  }

  /** The sum of the call counts. */
  function TotalCalls(links: seq<DependencyLink>): nat {
    if links == [] then 0 else TotalCalls(links[..|links| - 1]) + links[|links| - 1].callCount
  }

  lemma {:induction false} TotalCallsUpdate(links: seq<DependencyLink>, i: nat, l: DependencyLink)
    requires i < |links|
    ensures TotalCalls(links[i := l]) == TotalCalls(links) - links[i].callCount + l.callCount
    decreases |links|
  {
    var n := |links| - 1;
    var u := links[i := l];
    assert u[..n] == if i == n then links[..n] else links[..n][i := l];
    if i < n {
      TotalCallsUpdate(links[..n], i, l);
    }
  }

  lemma TotalCallsSnoc(links: seq<DependencyLink>, l: DependencyLink)
    ensures TotalCalls(links + [l]) == TotalCalls(links) + l.callCount
  {
    assert (links + [l])[..|links|] == links;
  }

  /** Each link sits at the index its key maps to, and each key maps to the link with that key. */
  ghost predicate KeyedBy<K>(key: ServicePair -> K, st: LinkState<K>) {
    && (forall i :: 0 <= i < |st.links| ==>
          st.links[i].callCount >= 1 && key(LinkPair(st.links[i])) in st.deps && st.deps[key(LinkPair(st.links[i]))] == i)
    && (forall k :: k in st.deps ==> st.deps[k] < |st.links| && key(LinkPair(st.links[st.deps[k]])) == k)
  }

  /** A step keeps links where they were and may append one for the new call. */
  ghost predicate Extends(r: seq<DependencyLink>, st: seq<DependencyLink>, e: Option<ServicePair>) {
    forall i :: 0 <= i < |r| ==>
      (i < |st| && LinkPair(r[i]) == LinkPair(st[i])) || (e.Some? && LinkPair(r[i]) == e.value)
  }

  lemma StepKeyedNew<K>(key: ServicePair -> K, st: LinkState<K>, pc: ServicePair)
    requires Consistent(st) && KeyedBy(key, st) && key(pc) !in st.deps
    ensures KeyedBy(key, Step(key, st, Some(pc)))
    ensures TotalCalls(Step(key, st, Some(pc)).links) == TotalCalls(st.links) + 1
    ensures Extends(Step(key, st, Some(pc)).links, st.links, Some(pc))
  {
    var l := DependencyLink(pc.0, pc.1, 1);
    assert Step(key, st, Some(pc)) == LinkState(st.deps[key(pc) := |st.links|], st.links + [l]);
    TotalCallsSnoc(st.links, l);
    AppendKeepsKeys(key, st, pc);
  }

  /** A link for a new key, appended under that key, keeps every link where its key says. */
  lemma AppendKeepsKeys<K>(key: ServicePair -> K, st: LinkState<K>, pc: ServicePair)
    requires KeyedBy(key, st) && key(pc) !in st.deps
    ensures var r := LinkState(st.deps[key(pc) := |st.links|], st.links + [DependencyLink(pc.0, pc.1, 1)]);
      KeyedBy(key, r) && Extends(r.links, st.links, Some(pc))
  {
    var n := |st.links|;
    var r := LinkState(st.deps[key(pc) := n], st.links + [DependencyLink(pc.0, pc.1, 1)]);
    assert LinkPair(r.links[n]) == pc;
    forall j | 0 <= j < n ensures r.links[j] == st.links[j] && key(LinkPair(r.links[j])) != key(pc) {
    }
    forall k | k in r.deps ensures r.deps[k] < |r.links| && key(LinkPair(r.links[r.deps[k]])) == k {
      if k != key(pc) {
        assert r.deps[k] == st.deps[k];
      }
    }
  }

  lemma StepKeyedKnown<K>(key: ServicePair -> K, st: LinkState<K>, pc: ServicePair)
    requires Consistent(st) && KeyedBy(key, st) && key(pc) in st.deps
    ensures KeyedBy(key, Step(key, st, Some(pc)))
    ensures TotalCalls(Step(key, st, Some(pc)).links) == TotalCalls(st.links) + 1
    ensures Extends(Step(key, st, Some(pc)).links, st.links, Some(pc))
  {
    var i := st.deps[key(pc)];
    var l := st.links[i].(callCount := st.links[i].callCount + 1);
    assert Step(key, st, Some(pc)) == LinkState(st.deps, st.links[i := l]);
    TotalCallsUpdate(st.links, i, l);
    BumpKeepsKeys(key, st, i);
  }

  /** Counting one more call on an existing link keeps every link where its key says. */
  lemma BumpKeepsKeys<K>(key: ServicePair -> K, st: LinkState<K>, i: nat)
    requires KeyedBy(key, st) && i < |st.links|
    ensures var r := LinkState(st.deps, st.links[i := st.links[i].(callCount := st.links[i].callCount + 1)]);
      KeyedBy(key, r) && Extends(r.links, st.links, None)
  {
    var r := LinkState(st.deps, st.links[i := st.links[i].(callCount := st.links[i].callCount + 1)]);
    forall j | 0 <= j < |r.links| ensures LinkPair(r.links[j]) == LinkPair(st.links[j]) && r.links[j].callCount >= 1 {
    }
  }

  lemma StepKeyed<K>(key: ServicePair -> K, st: LinkState<K>, e: Option<ServicePair>)
    requires Consistent(st) && KeyedBy(key, st)
    ensures KeyedBy(key, Step(key, st, e))
    ensures TotalCalls(Step(key, st, e).links) == TotalCalls(st.links) + (if e.Some? then 1 else 0)
    ensures Extends(Step(key, st, e).links, st.links, e)
  {
    if e.Some? {
      if key(e.value) in st.deps {
        StepKeyedKnown(key, st, e.value);
      } else {
        StepKeyedNew(key, st, e.value);
      }
    }
  }

  /**
   * Whatever the key: every key indexes exactly one link, every count is at
   * least one, every link is a recorded call, and the counts add up to the
   * number of rows that record a call.
   */
  lemma {:induction false} FoldKeyed<K>(key: ServicePair -> K, rows: seq<DepRow>, vs: seq<DepRow>)
    ensures KeyedBy(key, FoldLinks(key, rows, vs))
    ensures TotalCalls(FoldLinks(key, rows, vs).links) == |PairsOf(rows, vs)|
    ensures forall i :: 0 <= i < |FoldLinks(key, rows, vs).links| ==> LinkPair(FoldLinks(key, rows, vs).links[i]) in PairsOf(rows, vs)
    decreases |vs|
  {
    if vs != [] {
      var init := vs[..|vs| - 1];
      var st := FoldLinks(key, rows, init);
      var e := ParentEdge(rows, vs[|vs| - 1]);
      FoldKeyed(key, rows, init);
      StepKeyed(key, st, e);
      var r := FoldLinks(key, rows, vs);
      forall i | 0 <= i < |r.links| ensures LinkPair(r.links[i]) in PairsOf(rows, vs) {
        if i < |st.links| && LinkPair(r.links[i]) == LinkPair(st.links[i]) {
          assert LinkPair(st.links[i]) in PairsOf(rows, init);
        }
      }
    }
  }

  /**
   * The code's links: no two links share a key, every count is at least one,
   * no link stays inside one service, and the counts add up to the number of
   * rows that record a call, which is at most the number of rows.
   */
  lemma LinksSpecAnyServices(rows: seq<DepRow>)
    ensures forall i, j :: 0 <= i < j < |Links(rows)| ==> TextKey(LinkPair(Links(rows)[i])) != TextKey(LinkPair(Links(rows)[j]))
    ensures forall i :: 0 <= i < |Links(rows)| ==> Links(rows)[i].callCount >= 1 && Links(rows)[i].parent != Links(rows)[i].child
    ensures TotalCalls(Links(rows)) == |PairsOf(rows, rows)| <= |rows|
  {
    var st := FoldLinks(TextKey, rows, rows);
    FoldKeyed(TextKey, rows, rows);
    KeyedDistinct(TextKey, st);
    CallsCrossServices(rows, st.links);
  }

  /** Under KeyedBy, no two links share a key. */
  lemma KeyedDistinct<K>(key: ServicePair -> K, st: LinkState<K>)
    requires KeyedBy(key, st)
    ensures forall i, j :: 0 <= i < j < |st.links| ==> key(LinkPair(st.links[i])) != key(LinkPair(st.links[j]))
  {
    forall i, j | 0 <= i < j < |st.links| ensures key(LinkPair(st.links[i])) != key(LinkPair(st.links[j])) {
      assert st.deps[key(LinkPair(st.links[i]))] == i;
      assert st.deps[key(LinkPair(st.links[j]))] == j;
    }
  }

  /** Links made of recorded calls never stay inside one service. */
  lemma CallsCrossServices(rows: seq<DepRow>, links: seq<DependencyLink>)
    requires forall i :: 0 <= i < |links| ==> LinkPair(links[i]) in PairsOf(rows, rows)
    ensures forall i :: 0 <= i < |links| ==> links[i].parent != links[i].child
  {
    PairsOfSource(rows, rows);
    forall i | 0 <= i < |links| ensures links[i].parent != links[i].child {
      var p := LinkPair(links[i]);
      var v :| v in rows && ParentEdge(rows, v) == Some(p);
    }
  }

  // ---------------------------------------------------------------- the reference: one link per distinct call

  /** First occurrences, in order. */
  function Dedup(ps: seq<ServicePair>): (d: seq<ServicePair>)
    ensures forall p :: p in d <==> p in ps
    ensures forall i, j :: 0 <= i < j < |d| ==> d[i] != d[j]
  {
    if ps == [] then []
    else
      var init := Dedup(ps[..|ps| - 1]);
      var last := ps[|ps| - 1];
      assert forall p :: p in ps <==> p in ps[..|ps| - 1] || p == last;
      if last in init then init else init + [last]
  }

  /** One link per distinct pair, in first-call order, counting every call. */
  function ReferenceLinks(ps: seq<ServicePair>): seq<DependencyLink> {
    var d := Dedup(ps);
    seq(|d|, i requires 0 <= i < |d| => DependencyLink(d[i].0, d[i].1, multiset(ps)[d[i]]))
  }

  ghost predicate InjectiveOn<K>(key: ServicePair -> K, ps: seq<ServicePair>) {
    forall p, q :: p in ps && q in ps && key(p) == key(q) ==> p == q
  }

  /** `links` holds one link per pair of `d`, in that order, counting its calls in `ps`. */
  ghost predicate CountsCalls(links: seq<DependencyLink>, d: seq<ServicePair>, ps: seq<ServicePair>) {
    && |links| == |d|
    && forall i :: 0 <= i < |d| ==> links[i] == DependencyLink(d[i].0, d[i].1, multiset(ps)[d[i]])
  }

  /** The key of each pair of `d` maps to its index, and every key in `deps` is one of those. */
  ghost predicate IndexesKeys<K>(key: ServicePair -> K, deps: map<K, nat>, d: seq<ServicePair>) {
    && (forall i :: 0 <= i < |d| ==> key(d[i]) in deps && deps[key(d[i])] == i)
    && (forall k :: k in deps ==> exists i :: 0 <= i < |d| && key(d[i]) == k)
  }

  /** The state records `ps`: one link per distinct pair with its count, each key indexing its link. */
  ghost predicate Represents<K>(key: ServicePair -> K, st: LinkState<K>, ps: seq<ServicePair>) {
    CountsCalls(st.links, Dedup(ps), ps) && IndexesKeys(key, st.deps, Dedup(ps))
  }

  lemma StepKnown<K>(key: ServicePair -> K, st: LinkState<K>, ps: seq<ServicePair>, p: ServicePair)
    requires Consistent(st) && Represents(key, st, ps) && p in ps
    ensures Represents(key, Step(key, st, Some(p)), ps + [p])
  {
    var d := Dedup(ps);
    var ps' := ps + [p];
    assert ps'[..|ps'| - 1] == ps;
    assert Dedup(ps') == d;
    var i :| 0 <= i < |d| && d[i] == p;
    assert st.deps[key(p)] == i;
    var r := Step(key, st, Some(p));
    assert multiset(ps') == multiset(ps) + multiset{p};
    forall j | 0 <= j < |d| ensures r.links[j] == DependencyLink(d[j].0, d[j].1, multiset(ps')[d[j]]) {
      if j != i {
        assert d[j] != p;
      }
    }
  }

  lemma StepNew<K>(key: ServicePair -> K, st: LinkState<K>, ps: seq<ServicePair>, p: ServicePair)
    requires Consistent(st) && Represents(key, st, ps) && p !in ps
    requires InjectiveOn(key, ps + [p])
    ensures Represents(key, Step(key, st, Some(p)), ps + [p])
  {
    NewKeyIsFresh(key, st, ps, p);
    AppendRepresents(key, st, ps, p);
  }

  /** A pair not yet recorded has a key no recorded pair has, when the key is injective. */
  lemma NewKeyIsFresh<K>(key: ServicePair -> K, st: LinkState<K>, ps: seq<ServicePair>, p: ServicePair)
    requires Represents(key, st, ps) && p !in ps
    requires InjectiveOn(key, ps + [p])
    ensures key(p) !in st.deps
  {
    var d := Dedup(ps);
    forall i | 0 <= i < |d| ensures key(d[i]) != key(p) {
      assert d[i] in ps + [p] && d[i] != p;
    }
  }

  /** Appending a link with one call for a new pair under a fresh key. */
  lemma AppendRepresents<K>(key: ServicePair -> K, st: LinkState<K>, ps: seq<ServicePair>, p: ServicePair)
    requires Represents(key, st, ps) && p !in ps && key(p) !in st.deps
    ensures Represents(key, LinkState(st.deps[key(p) := |st.links|], st.links + [DependencyLink(p.0, p.1, 1)]), ps + [p])
  {
    var ps' := ps + [p];
    assert ps'[..|ps'| - 1] == ps;
    assert Dedup(ps') == Dedup(ps) + [p];
    AppendCountsCalls(st.links, Dedup(ps), ps, p);
    AppendIndexesKeys(key, st.deps, Dedup(ps), p);
  }

  lemma AppendCountsCalls(links: seq<DependencyLink>, d: seq<ServicePair>, ps: seq<ServicePair>, p: ServicePair)
    requires CountsCalls(links, d, ps) && p !in ps
    requires forall q :: q in d ==> q in ps
    ensures CountsCalls(links + [DependencyLink(p.0, p.1, 1)], d + [p], ps + [p])
  {
    var links', d', ps' := links + [DependencyLink(p.0, p.1, 1)], d + [p], ps + [p];
    assert multiset(ps') == multiset(ps) + multiset{p};
    forall i | 0 <= i < |d'| ensures links'[i] == DependencyLink(d'[i].0, d'[i].1, multiset(ps')[d'[i]]) {
      if i < |d| {
        assert d'[i] == d[i] && d[i] in ps;
      }
    }
  }

  lemma AppendIndexesKeys<K>(key: ServicePair -> K, deps: map<K, nat>, d: seq<ServicePair>, p: ServicePair)
    requires IndexesKeys(key, deps, d) && key(p) !in deps
    ensures IndexesKeys(key, deps[key(p) := |d|], d + [p])
  {
    var deps', d' := deps[key(p) := |d|], d + [p];
    forall i | 0 <= i < |d'| ensures key(d'[i]) in deps' && deps'[key(d'[i])] == i {
      if i < |d| {
        assert d'[i] == d[i];
      }
    }
    forall k | k in deps' ensures exists i :: 0 <= i < |d'| && key(d'[i]) == k {
      if k != key(p) {
        var i :| 0 <= i < |d| && key(d[i]) == k;
        assert d'[i] == d[i];
      } else {
        assert d'[|d|] == p;
      }
    }
  }

  /** Keyed by an injective key, the accumulation matches the reference. */
  lemma {:induction false} FoldRepresents<K>(key: ServicePair -> K, rows: seq<DepRow>, vs: seq<DepRow>)
    requires InjectiveOn(key, PairsOf(rows, vs))
    ensures Represents(key, FoldLinks(key, rows, vs), PairsOf(rows, vs))
    decreases |vs|
  {
    if vs != [] {
      var init := vs[..|vs| - 1];
      var st := FoldLinks(key, rows, init);
      var ps := PairsOf(rows, init);
      assert InjectiveOn(key, ps) by {
        assert forall p :: p in ps ==> p in PairsOf(rows, vs);
      }
      FoldRepresents(key, rows, init);
      match ParentEdge(rows, vs[|vs| - 1])
      case None =>
      case Some(p) =>
        if p in ps {
          StepKnown(key, st, ps, p);
        } else {
          StepNew(key, st, ps, p);
        }
    }
  }

  lemma RepresentsLinks<K>(key: ServicePair -> K, st: LinkState<K>, ps: seq<ServicePair>)
    requires Represents(key, st, ps)
    ensures st.links == ReferenceLinks(ps)
  {
  }

  /** Keyed by the pair, the links are one per distinct call, in first-call order, with its count. */
  lemma CorrectLinksSpec(rows: seq<DepRow>)
    ensures CorrectLinks(rows) == ReferenceLinks(PairsOf(rows, rows))
  {
    FoldRepresents(PairKey, rows, rows);
    RepresentsLinks(PairKey, FoldLinks(PairKey, rows, rows), PairsOf(rows, rows));
  }

  /**
   * What a reference link says: each distinct call is listed once with the
   * number of its calls, which is at least one, and nothing else is listed.
   */
  lemma ReferenceLinksSpec(ps: seq<ServicePair>)
    ensures forall p :: p in ps <==> exists i :: 0 <= i < |ReferenceLinks(ps)|
                                        && (ReferenceLinks(ps)[i].parent, ReferenceLinks(ps)[i].child) == p
    ensures forall i :: 0 <= i < |ReferenceLinks(ps)| ==>
              ReferenceLinks(ps)[i].callCount
              == multiset(ps)[(ReferenceLinks(ps)[i].parent, ReferenceLinks(ps)[i].child)] >= 1
    ensures forall i, j :: 0 <= i < j < |ReferenceLinks(ps)| ==>
              (ReferenceLinks(ps)[i].parent, ReferenceLinks(ps)[i].child)
              != (ReferenceLinks(ps)[j].parent, ReferenceLinks(ps)[j].child)
  {
    var d := Dedup(ps);
    var r := ReferenceLinks(ps);
    forall i | 0 <= i < |r| ensures (r[i].parent, r[i].child) == d[i] && multiset(ps)[d[i]] >= 1 {
      assert d[i] in ps;
    }
    forall p | p in ps ensures exists i :: 0 <= i < |r| && (r[i].parent, r[i].child) == p {
      var i :| 0 <= i < |d| && d[i] == p;
      assert (r[i].parent, r[i].child) == p;
    }
  }

  // ---------------------------------------------------------------- the text key

  /** Joined with "&&&", names without '&' can be split apart again. */
  lemma TextKeyInjective(p: ServicePair, q: ServicePair)
    requires '&' !in p.0 && '&' !in p.1 && '&' !in q.0 && '&' !in q.1
    requires TextKey(p) == TextKey(q)
    ensures p == q
  {
    var s := TextKey(p);
    assert s == p.0 + ['&'] + ("&&" + p.1);
    assert s == q.0 + ['&'] + ("&&" + q.1);
    IndexOfAfterPrefix(p.0, '&', "&&" + p.1);
    IndexOfAfterPrefix(q.0, '&', "&&" + q.1);
    assert p.0 == s[..|p.0|] == q.0;
    assert p.1 == s[|p.0| + 3..] == q.1;
  }

  /** No service name holds '&' in these rows. */
  predicate PlainServices(rows: seq<DepRow>) {
    forall i :: 0 <= i < |rows| ==> '&' !in rows[i].service
  }

  lemma PairsArePlain(rows: seq<DepRow>, vs: seq<DepRow>)
    requires PlainServices(rows) && PlainServices(vs)
    ensures forall p :: p in PairsOf(rows, vs) ==> '&' !in p.0 && '&' !in p.1
  {
    PairsOfSource(rows, vs);
    forall p | p in PairsOf(rows, vs) ensures '&' !in p.0 && '&' !in p.1 {
      var v :| v in vs && ParentEdge(rows, v) == Some(p);
    }
  }

  /** When no service name holds '&', the code's links are the reference links. */
  lemma LinksSpec(rows: seq<DepRow>)
    requires PlainServices(rows)
    ensures Links(rows) == ReferenceLinks(PairsOf(rows, rows))
    ensures Links(rows) == CorrectLinks(rows)
  {
    var ps := PairsOf(rows, rows);
    PairsArePlain(rows, rows);
    forall p, q | p in ps && q in ps && TextKey(p) == TextKey(q) ensures p == q {
      TextKeyInjective(p, q);
    }
    FoldRepresents(TextKey, rows, rows);
    RepresentsLinks(TextKey, FoldLinks(TextKey, rows, rows), ps);
    CorrectLinksSpec(rows);
  }

  /** Two calls whose services differ only in where the '&' sits. */
  function CollidingRows(): seq<DepRow> {
    [ DepRow([], "1", "x&"), DepRow([Reference(ChildOf, "1")], "2", "y"),
      DepRow([], "3", "x"), DepRow([Reference(ChildOf, "3")], "4", "&y") ]
  }

  lemma CollidingEdges()
    ensures ParentEdge(CollidingRows(), CollidingRows()[0]) == None
    ensures ParentEdge(CollidingRows(), CollidingRows()[1]) == Some(("x&", "y"))
    ensures ParentEdge(CollidingRows(), CollidingRows()[2]) == None
    ensures ParentEdge(CollidingRows(), CollidingRows()[3]) == Some(("x", "&y"))
  {
    var rows := CollidingRows();
    var m := SpanIndex(rows);
    assert ParentId(rows[1].refs) == "1";
    assert ParentId(rows[3].refs) == "3";
    assert rows[0].spanID == "1" && rows[1].spanID == "2" && rows[2].spanID == "3" && rows[3].spanID == "4";
    assert "1" in m && "3" in m;
    var k1, k3 := m["1"], m["3"];
    assert rows[k1].spanID == "1" && rows[k3].spanID == "3";
    assert k1 == 0 && k3 == 2;
  }

  lemma PairsOfSnoc(rows: seq<DepRow>, vs: seq<DepRow>, v: DepRow)
    ensures PairsOf(rows, vs + [v])
            == PairsOf(rows, vs) + (if ParentEdge(rows, v).Some? then [ParentEdge(rows, v).value] else [])
  {
    assert (vs + [v])[..|vs|] == vs;
  }

  lemma PairsOfTwoCalls(rows: seq<DepRow>, r0: DepRow, r1: DepRow, r2: DepRow, r3: DepRow, a: ServicePair, b: ServicePair)
    requires ParentEdge(rows, r0) == None && ParentEdge(rows, r1) == Some(a)
    requires ParentEdge(rows, r2) == None && ParentEdge(rows, r3) == Some(b)
    ensures PairsOf(rows, [r0, r1, r2, r3]) == [a, b]
  {
    PairsOfSnoc(rows, [], r0);
    PairsOfSnoc(rows, [r0], r1);
    PairsOfSnoc(rows, [r0, r1], r2);
    PairsOfSnoc(rows, [r0, r1, r2], r3);
    assert [] + [r0] == [r0];
    assert [r0] + [r1] == [r0, r1];
    assert [r0, r1] + [r2] == [r0, r1, r2];
    assert [r0, r1, r2] + [r3] == [r0, r1, r2, r3];
  }

  lemma CollidingPairs()
    ensures PairsOf(CollidingRows(), CollidingRows()) == [("x&", "y"), ("x", "&y")]
  {
    var rows := CollidingRows();
    CollidingEdges();
    PairsOfTwoCalls(rows, rows[0], rows[1], rows[2], rows[3], ("x&", "y"), ("x", "&y"));
    assert [rows[0], rows[1], rows[2], rows[3]] == rows;
  }

  /**
   * The text key merges distinct calls: "x&" -> "y" and "x" -> "&y" both
   * key "x&&&&y", so the code reports one link with two calls where there
   * are two links with one call each.
   */
  lemma TextKeyMergesCalls()
    ensures Links(CollidingRows()) == [DependencyLink("x&", "y", 2)]
    ensures CorrectLinks(CollidingRows()) == [DependencyLink("x&", "y", 1), DependencyLink("x", "&y", 1)]
  {
    var rows := CollidingRows();
    CollidingEdges();
    CollidingKeys();
    FoldOneMergedCall(TextKey, rows, rows[0], rows[1], rows[2], rows[3], ("x&", "y"), ("x", "&y"));
    assert [rows[0], rows[1], rows[2], rows[3]] == rows;
    CorrectCollidingLinks();
  }

  lemma FoldLinksSnoc<K>(key: ServicePair -> K, rows: seq<DepRow>, vs: seq<DepRow>, v: DepRow)
    ensures FoldLinks(key, rows, vs + [v]) == Step(key, FoldLinks(key, rows, vs), ParentEdge(rows, v))
  {
    assert (vs + [v])[..|vs|] == vs;
  }

  /** Two calls whose pairs share a key fold into one link with two calls. */
  lemma FoldOneMergedCall<K>(key: ServicePair -> K, rows: seq<DepRow>, r0: DepRow, r1: DepRow, r2: DepRow, r3: DepRow,
                                 a: ServicePair, b: ServicePair)
    requires ParentEdge(rows, r0) == None && ParentEdge(rows, r1) == Some(a)
    requires ParentEdge(rows, r2) == None && ParentEdge(rows, r3) == Some(b)
    requires key(a) == key(b)
    ensures FoldLinks(key, rows, [r0, r1, r2, r3]).links == [DependencyLink(a.0, a.1, 2)]
  {
    FoldLinksSnoc(key, rows, [], r0);
    FoldLinksSnoc(key, rows, [r0], r1);
    FoldLinksSnoc(key, rows, [r0, r1], r2);
    FoldLinksSnoc(key, rows, [r0, r1, r2], r3);
    assert [] + [r0] == [r0];
    assert [r0] + [r1] == [r0, r1];
    assert [r0, r1] + [r2] == [r0, r1, r2];
    assert [r0, r1, r2] + [r3] == [r0, r1, r2, r3];
    assert FoldLinks(key, rows, [r0, r1]) == LinkState(map[key(a) := 0], [DependencyLink(a.0, a.1, 1)]);
  }

  lemma CollidingKeys()
    ensures TextKey(("x", "&y")) == TextKey(("x&", "y"))
  {
    assert TextKey(("x", "&y")) == ['x', '&', '&', '&', '&', 'y'];
    assert TextKey(("x&", "y")) == ['x', '&', '&', '&', '&', 'y'];
  }

  lemma CorrectCollidingLinks()
    ensures CorrectLinks(CollidingRows()) == [DependencyLink("x&", "y", 1), DependencyLink("x", "&y", 1)]
  {
    CollidingPairs();
    CorrectLinksSpec(CollidingRows());
    CollidingDedup();
  }

  lemma CollidingDedup()
    ensures var ps: seq<ServicePair> := [("x&", "y"), ("x", "&y")];
            ReferenceLinks(ps) == [DependencyLink("x&", "y", 1), DependencyLink("x", "&y", 1)]
  {
    var a, b: ServicePair := ("x&", "y"), ("x", "&y");
    var ps: seq<ServicePair> := [a, b];
    assert Dedup([a]) == [a] by {
      assert [a][..0] == [];
    }
    assert a != b;
    assert Dedup(ps) == ps by {
      assert ps[..1] == [a];
    }
    assert multiset(ps)[a] == 1 && multiset(ps)[b] == 1;
  }

}
