/**
 * The textual time-window injection the dashboard data source applies to a
 * query before sending it to the engine (modifyTimeframe). The query is never
 * parsed: a case-insensitive search for " where " decides where a
 * `[<path> timeframe(<from>,<to>)]` clause goes, and a query that already
 * mentions a timeframe or key clause is passed through.
 */
module Timeframe {
  import opened Wrappers
  import opened Text

  /** The text of the clause up to its first bound. */
  function ClauseHead(timeframe: string): string {
    "[" + timeframe + " timeframe("
  }

  /** The clause that is spliced in; bounds are Unix microseconds. */
  function Clause(timeframe: string, fromNanos: int, toNanos: int): string {
    ClauseHead(timeframe) + WindowText(ToMicros(fromNanos), ToMicros(toNanos))
  }

  /** The clause's bounds are the decimal microseconds of the two instants. */
  lemma ClauseBounds(timeframe: string, fromNanos: int, toNanos: int)
    ensures ReadWindow(Clause(timeframe, fromNanos, toNanos), ClauseHead(timeframe))
            == Some((ToMicros(fromNanos), ToMicros(toNanos)))
  {
    var head, w := ClauseHead(timeframe), WindowText(ToMicros(fromNanos), ToMicros(toNanos));
    assert head + w + "" == head + w;
    WindowReadsBack(head, ToMicros(fromNanos), ToMicros(toNanos), "");
  }

  /** Where the clause goes: just past the first " where " of the lower-cased query. */
  function SpliceAt(original: string): int {
    IndexOf(ToLower(original), " where ") + 7
  }

  function ModifyTimeframe(original: string, timeframe: string, fromNanos: int, toNanos: int): string {
    var norm := ToLower(original);
    if Contains(norm, " timeframe") || Contains(norm, " key") then original
    else
      var off := IndexOf(norm, " where ");
      if off <= 0 then original
      else original[..off + 7] + Clause(timeframe, fromNanos, toNanos) + original[off + 7..]
  }

  /** The query already names a timeframe or a key, ignoring case. */
  ghost predicate MentionsWindow(q: string) {
    exists i :: OccursAt(ToLower(q), " timeframe", i) || OccursAt(ToLower(q), " key", i)
  }

  lemma KeepsQueryWithWindow(q: string, timeframe: string, fromNanos: int, toNanos: int)
    requires MentionsWindow(q)
    ensures ModifyTimeframe(q, timeframe, fromNanos, toNanos) == q
  {
    var i :| OccursAt(ToLower(q), " timeframe", i) || OccursAt(ToLower(q), " key", i);
    ContainsIff(ToLower(q), " timeframe", i);
    ContainsIff(ToLower(q), " key", i);
  }

  /** No " where " at all, or only at the very start: nothing to anchor the clause to. */
  lemma KeepsQueryWithoutWhere(q: string, timeframe: string, fromNanos: int, toNanos: int)
    requires (forall i :: !OccursAt(ToLower(q), " where ", i)) || OccursAt(ToLower(q), " where ", 0)
    ensures ModifyTimeframe(q, timeframe, fromNanos, toNanos) == q
  {
  }

  /** Otherwise the clause is inserted right after the first case-insensitive " where ". */
  lemma SplicesAfterFirstWhere(q: string, timeframe: string, fromNanos: int, toNanos: int, p: int)
    requires !MentionsWindow(q)
    requires 0 < p && OccursAt(ToLower(q), " where ", p)
    requires forall i :: 0 <= i < p ==> !OccursAt(ToLower(q), " where ", i)
    ensures p + 7 <= |q|
    ensures ModifyTimeframe(q, timeframe, fromNanos, toNanos)
         == q[..p + 7] + Clause(timeframe, fromNanos, toNanos) + q[p + 7..]
  {
    var norm := ToLower(q);
    var t, k, w := IndexOf(norm, " timeframe"), IndexOf(norm, " key"), IndexOf(norm, " where ");
    assert t >= 0 ==> OccursAt(norm, " timeframe", t);
    assert k >= 0 ==> OccursAt(norm, " key", k);
    assert !Contains(norm, " timeframe") && !Contains(norm, " key");
    assert w == p;
  }

  /**
   * A changed query is the original with exactly the clause inserted at
   * SpliceAt: the text up to the splice point and after it keep their
   * original case, the seven characters before it read " where " ignoring
   * case, and cutting the clause out gives the original back.
   */
  lemma SpliceShape(q: string, timeframe: string, fromNanos: int, toNanos: int)
    ensures var r, c, off := ModifyTimeframe(q, timeframe, fromNanos, toNanos), Clause(timeframe, fromNanos, toNanos), SpliceAt(q);
      r != q ==>
        && 7 < off <= |q|
        && |r| == |q| + |c|
        && ToLower(q[off - 7..off]) == " where "
        && r[..off] == q[..off]
        && r[off..off + |c|] == c
        && r[off + |c|..] == q[off..]
        && r[..off] + r[off + |c|..] == q
  {
    var r, c, off := ModifyTimeframe(q, timeframe, fromNanos, toNanos), Clause(timeframe, fromNanos, toNanos), SpliceAt(q);
    if r != q {
      var norm := ToLower(q);
      var w := IndexOf(norm, " where ");
      assert w > 0 && OccursAt(norm, " where ", w);
      assert r == q[..off] + c + q[off..];
      assert ToLower(q[w..off]) == norm[w..off];
      InsertionParts(q, c, off);
    }
  }

  /** Inserting `c` at `off` and cutting it out again. */
  lemma InsertionParts(q: string, c: string, off: int)
    requires 0 <= off <= |q|
    ensures var r := q[..off] + c + q[off..];
      && |r| == |q| + |c|
      && r[..off] == q[..off]
      && r[off..off + |c|] == c
      && r[off + |c|..] == q[off..]
      && r[..off] + r[off + |c|..] == q
  {
    var r := q[..off] + c + q[off..];
    assert r[..off] == q[..off];
    assert r[off + |c|..] == q[off..];
    assert q[..off] + q[off..] == q;
  }

  /** Lower-cased, a query carrying the clause mentions " timeframe". */
  lemma ClauseMarksQuery(pre: string, timeframe: string, fromNanos: int, toNanos: int, post: string)
    ensures Contains(ToLower(pre + Clause(timeframe, fromNanos, toNanos) + post), " timeframe")
  {
    var r := pre + Clause(timeframe, fromNanos, toNanos) + post;
    var k := |pre| + 1 + |timeframe|;
    assert r[k..k + 10] == " timeframe";
    var lr := ToLower(r);
    forall j | k <= j < k + 10 ensures lr[j] == r[j] {
      assert r[j] == " timeframe"[j - k];
    }
    assert lr[k..k + 10] == " timeframe";
    ContainsIff(lr, " timeframe", k);
  }

  /** A query whose lower-cased text names " timeframe" is passed through. */
  lemma KeepsMarkedQuery(q: string, timeframe: string, fromNanos: int, toNanos: int)
    requires Contains(ToLower(q), " timeframe")
    ensures ModifyTimeframe(q, timeframe, fromNanos, toNanos) == q
  {
  }

  /** Once a clause has been injected, any further injection leaves the query alone. */
  lemma InjectionIsFinal(q: string, timeframe: string, fromNanos: int, toNanos: int,
                         timeframe': string, fromNanos': int, toNanos': int)
    ensures var r := ModifyTimeframe(q, timeframe, fromNanos, toNanos);
      ModifyTimeframe(r, timeframe', fromNanos', toNanos') == r
  {
    var r := ModifyTimeframe(q, timeframe, fromNanos, toNanos);
    var norm := ToLower(q);
    if Contains(norm, " timeframe") || Contains(norm, " key") || IndexOf(norm, " where ") <= 0 {
      assert r == q;
    } else {
      var off := IndexOf(norm, " where ") + 7;
      assert r == q[..off] + Clause(timeframe, fromNanos, toNanos) + q[off..];
      ClauseMarksQuery(q[..off], timeframe, fromNanos, toNanos, q[off..]);
      KeepsMarkedQuery(r, timeframe', fromNanos', toNanos');
    }
  }
}
