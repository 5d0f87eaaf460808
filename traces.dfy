/**
 * Traces as the span reader returns them: stored span documents converted to
 * the domain model, one at a time, and grouped into traces by trace ID.
 *
 * The document format and the converter are not modelled: a stored span is
 * an opaque document and the converter is a function parameter that either
 * yields a domain span or fails.
 */
module Traces {
  import opened Wrappers

  /** One span document as the engine returns it. */
  datatype StoredSpan = StoredSpan(document: string)

  /** The domain span, reduced to what the store looks at; `traceID` is the ID's text form. */
  datatype Span = Span(traceID: string, spanID: string, serviceName: string, operationName: string)

  datatype Trace = Trace(spans: seq<Span>)

  /** A 128-bit trace ID as two 64-bit halves. */
  datatype TraceId = TraceId(high: nat, low: nat)

  // ---------------------------------------------------------------- converting every row, failing on the first error

  /** Converts every element; the first element that fails decides the error. */
  function ConvertAll<A, B>(f: A -> Result<B, Error>, xs: seq<A>): Result<seq<B>, Error> {
    if xs == [] then Ok([])
    else match f(xs[0])
      case Err(e) => Err(e)
      case Ok(y) =>
        match ConvertAll(f, xs[1..])
        case Err(e) => Err(e)
        case Ok(ys) => Ok([y] + ys)
  }

  /** The index of the first element `f` rejects, if any. */
  predicate FirstFailure<A, B>(f: A -> Result<B, Error>, xs: seq<A>, k: int) {
    0 <= k < |xs| && f(xs[k]).Err? && forall i :: 0 <= i < k ==> f(xs[i]).Ok?
  }

  /**
   * ConvertAll succeeds iff every element converts, and then yields the
   * conversions in order; otherwise it yields the first failure's error.
   */
  lemma {:induction false} ConvertAllSpec<A, B>(f: A -> Result<B, Error>, xs: seq<A>)
    ensures ConvertAll(f, xs).Ok? <==> forall i :: 0 <= i < |xs| ==> f(xs[i]).Ok?
    ensures ConvertAll(f, xs).Ok? ==>
              |ConvertAll(f, xs).value| == |xs|
              && forall i :: 0 <= i < |xs| ==> ConvertAll(f, xs).value[i] == f(xs[i]).value
    ensures ConvertAll(f, xs).Err? ==>
              exists k :: FirstFailure(f, xs, k) && ConvertAll(f, xs).error == f(xs[k]).error
    decreases |xs|
  {
    if xs != [] {
      ConvertAllSpec(f, xs[1..]);
      var r := ConvertAll(f, xs);
      if f(xs[0]).Err? {
        assert FirstFailure(f, xs, 0);
      } else if ConvertAll(f, xs[1..]).Err? {
        var k :| FirstFailure(f, xs[1..], k) && ConvertAll(f, xs[1..]).error == f(xs[1..][k]).error;
        assert FirstFailure(f, xs, k + 1) by {
          forall i | 0 <= i < k + 1 ensures f(xs[i]).Ok? {
            if i > 0 { assert xs[i] == xs[1..][i - 1]; }
          }
        }
      } else {
        forall i | 0 <= i < |xs| ensures f(xs[i]).Ok? && r.value[i] == f(xs[i]).value {
          if i > 0 { assert xs[i] == xs[1..][i - 1]; }
        }
      }
    }
  }

  /** Once a prefix fails, whatever follows cannot change the error. */
  lemma {:induction false} ConvertAllAppendErr<A, B>(f: A -> Result<B, Error>, a: seq<A>, b: seq<A>)
    requires ConvertAll(f, a).Err?
    ensures ConvertAll(f, a + b) == ConvertAll(f, a)
    decreases |a|
  {
    var ab := a + b;
    assert ab[0] == a[0];
    if f(a[0]).Ok? {
      assert ab[1..] == a[1..] + b;
      ConvertAllAppendErr(f, a[1..], b);
    }
  }

  /** The loop form of ConvertAll: converting one more element. */
  lemma {:induction false} ConvertAllSnoc<A, B>(f: A -> Result<B, Error>, xs: seq<A>, x: A)
    requires ConvertAll(f, xs).Ok?
    ensures f(x).Err? ==> ConvertAll(f, xs + [x]) == Err(f(x).error)
    ensures f(x).Ok? ==> ConvertAll(f, xs + [x]) == Ok(ConvertAll(f, xs).value + [f(x).value])
    decreases |xs|
  {
    if xs == [] {
      assert xs + [x] == [x];
      assert [x][0] == x && [x][1..] == [];
      assert ConvertAll(f, [x][1..]) == Ok([]);
      if f(x).Ok? {
        assert [f(x).value] + [] == ConvertAll(f, xs).value + [f(x).value];
      }
    } else {
      assert (xs + [x])[1..] == xs[1..] + [x];
      ConvertAllSnoc(f, xs[1..], x);
      if f(x).Ok? {
        assert [f(xs[0]).value] + (ConvertAll(f, xs[1..]).value + [f(x).value])
            == ([f(xs[0]).value] + ConvertAll(f, xs[1..]).value) + [f(x).value];
      }
    }
  }

  /** The conversion loop of GetTrace and FindTraceIDs: converts in order and stops at the first failure. */
  method ConvertEach<A, B>(f: A -> Result<B, Error>, xs: seq<A>) returns (r: Result<seq<B>, Error>)
    ensures r == ConvertAll(f, xs)
  {
    var out: seq<B> := [];
    for i := 0 to |xs|
      invariant ConvertAll(f, xs[..i]) == Ok(out)
    {
      assert xs[..i + 1] == xs[..i] + [xs[i]];
      ConvertAllSnoc(f, xs[..i], xs[i]);
      var c := f(xs[i]);
      if c.Err? {
        ConvertAllAppendErr(f, xs[..i + 1], xs[i + 1..]);
        assert xs[..i + 1] + xs[i + 1..] == xs;
        return Err(c.error);
      }
      out := out + [c.value];
    }
    assert xs[..|xs|] == xs;
    r := Ok(out);
  }

  // ---------------------------------------------------------------- converting every row, dropping failures

  /** The conversions that succeed, in row order; rows that fail are skipped. */
  function Converted<A, B>(f: A -> Result<B, Error>, xs: seq<A>): seq<B> {
    if xs == [] then []
    else Converted(f, xs[..|xs| - 1]) + (if f(xs[|xs| - 1]).Ok? then [f(xs[|xs| - 1]).value] else [])
  }

  /** A value is kept iff some row converts to it. */
  lemma {:induction false} ConvertedMembers<A, B>(f: A -> Result<B, Error>, xs: seq<A>)
    ensures forall y :: y in Converted(f, xs) <==> exists i :: 0 <= i < |xs| && f(xs[i]) == Ok(y)
    ensures |Converted(f, xs)| <= |xs|
    decreases |xs|
  {
    if xs != [] {
      var init := xs[..|xs| - 1];
      ConvertedMembers(f, init);
      forall y ensures y in Converted(f, xs) <==> exists i :: 0 <= i < |xs| && f(xs[i]) == Ok(y) {
        if y in Converted(f, init) {
          var i :| 0 <= i < |init| && f(init[i]) == Ok(y);
          assert xs[i] == init[i];
        }
        if exists i :: 0 <= i < |xs| && f(xs[i]) == Ok(y) {
          var i :| 0 <= i < |xs| && f(xs[i]) == Ok(y);
          if i < |init| { assert xs[i] == init[i]; }
        }
      }
    }
  }

  // ---------------------------------------------------------------- grouping by trace ID

  /** Spans grouped by trace ID, each group in the order the spans came. */
  function Group(spans: seq<Span>): map<string, seq<Span>> {
    if spans == [] then map[]
    else
      var g := Group(spans[..|spans| - 1]);
      var x := spans[|spans| - 1];
      g[x.traceID := (if x.traceID in g then g[x.traceID] else []) + [x]]
  }

  /** The spans of one trace, in order: the reference for a group. */
  function SpansOf(spans: seq<Span>, id: string): (r: seq<Span>)
    ensures forall x :: x in r <==> x in spans && x.traceID == id
  {
    if spans == [] then []
    else SpansOf(spans[..|spans| - 1], id) + (if spans[|spans| - 1].traceID == id then [spans[|spans| - 1]] else [])
  }

  /**
   * There is a group for exactly the trace IDs that occur, and each group
   * holds exactly that trace's spans, in their original order.
   */
  lemma {:induction false} GroupSpec(spans: seq<Span>)
    ensures forall id :: id in Group(spans) <==> exists i :: 0 <= i < |spans| && spans[i].traceID == id
    ensures forall id :: id in Group(spans) ==> Group(spans)[id] == SpansOf(spans, id) && Group(spans)[id] != []
    decreases |spans|
  {
    if spans != [] {
      var init := spans[..|spans| - 1];
      var x := spans[|spans| - 1];
      GroupSpec(init);
      forall id ensures id in Group(spans) <==> exists i :: 0 <= i < |spans| && spans[i].traceID == id {
        if id in Group(init) {
          var i :| 0 <= i < |init| && init[i].traceID == id;
          assert spans[i] == init[i];
        }
        if exists i :: 0 <= i < |spans| && spans[i].traceID == id {
          var i :| 0 <= i < |spans| && spans[i].traceID == id;
          if i < |init| { assert spans[i] == init[i]; }
        }
      }
      forall id | id in Group(spans) ensures Group(spans)[id] == SpansOf(spans, id) {
        assert SpansOf(spans, id) == SpansOf(init, id) + (if x.traceID == id then [x] else []);
        if id !in Group(init) {
          NoSpansOf(init, id);
        }
      }
    }
  }

  lemma NoSpansOf(spans: seq<Span>, id: string)
    requires forall i :: 0 <= i < |spans| ==> spans[i].traceID != id
    ensures SpansOf(spans, id) == []
  {
  }

  /** The loop form of Group: adding one more span. */
  lemma GroupSnoc(spans: seq<Span>, x: Span)
    ensures Group(spans + [x])
            == Group(spans)[x.traceID := (if x.traceID in Group(spans) then Group(spans)[x.traceID] else []) + [x]]
  {
    assert (spans + [x])[..|spans|] == spans;
  }

  lemma ConvertedSnoc<A, B>(f: A -> Result<B, Error>, xs: seq<A>, x: A)
    ensures Converted(f, xs + [x]) == Converted(f, xs) + (if f(x).Ok? then [f(x).value] else [])
  {
    assert (xs + [x])[..|xs|] == xs;
  }
}
