/**
 * String and number helpers shared by the query builders: ASCII lower-casing,
 * substring search with the semantics of Go's strings.Index, decimal rendering
 * with the semantics of strconv.FormatInt(n, 10), and the truncating division
 * by 1000 that turns nanoseconds into microseconds.
 */
module Text {
  import opened Wrappers

  // ---------------------------------------------------------------- casing

  /** strings.ToLower restricted to ASCII: only 'A'..'Z' change. */
  function LowerChar(c: char): char {
    if 'A' <= c <= 'Z' then (c as int + 32) as char else c
  }

  function ToLower(s: string): (r: string)
    ensures |r| == |s|
    ensures forall i :: 0 <= i < |s| ==> r[i] == LowerChar(s[i])
  {
    if s == [] then [] else [LowerChar(s[0])] + ToLower(s[1..])
  }

  // ---------------------------------------------------------------- joining

  /** The concatenation of `f(x)` over `xs`, in order. */
  function ConcatMap<T>(f: T -> string, xs: seq<T>): string {
    if xs == [] then "" else ConcatMap(f, xs[..|xs| - 1]) + f(xs[|xs| - 1])
  }

  lemma ConcatMapSnoc<T>(f: T -> string, xs: seq<T>, x: T)
    ensures ConcatMap(f, xs + [x]) == ConcatMap(f, xs) + f(x)
  {
    assert (xs + [x])[..|xs|] == xs;
  }

  lemma ConcatMapSingle<T>(f: T -> string, x: T)
    ensures ConcatMap(f, [x]) == f(x)
  {
    assert [x][..0] == [];
  }

  /** Appending the text of `fs` to a rendering of `done` renders `done + fs`. */
  lemma ConcatMapExtend<T>(f: T -> string, sb: string, base: string, done: seq<T>, fs: seq<T>)
    requires sb == base + ConcatMap(f, done)
    ensures sb + ConcatMap(f, fs) == base + ConcatMap(f, done + fs)
  {
    ConcatMapAppend(f, done, fs);
  }

  lemma {:induction false} ConcatMapAppend<T>(f: T -> string, a: seq<T>, b: seq<T>)
    ensures ConcatMap(f, a + b) == ConcatMap(f, a) + ConcatMap(f, b)
    decreases |b|
  {
    if b == [] {
      assert a + b == a;
    } else {
      var b' := b[..|b| - 1];
      assert a + b == (a + b') + [b[|b| - 1]];
      ConcatMapSnoc(f, a + b', b[|b| - 1]);
      ConcatMapAppend(f, a, b');
      ConcatMapSnoc(f, b', b[|b| - 1]);
      assert b' + [b[|b| - 1]] == b;
    }
  }

  // ---------------------------------------------------------------- search

  /** `pat` occurs in `s` starting at index `i`. */
  predicate OccursAt(s: string, pat: string, i: int) {
    0 <= i && i + |pat| <= |s| && s[i..i + |pat|] == pat
  }

  /** strings.Index: the first index at which `pat` occurs, or -1. */
  function IndexOf(s: string, pat: string): (r: int)
    ensures -1 <= r <= |s|
    ensures r >= 0 ==> OccursAt(s, pat, r)
    ensures forall i :: 0 <= i && (r == -1 || i < r) ==> !OccursAt(s, pat, i)
  {
    IndexFrom(s, pat, 0)
  }

  function IndexFrom(s: string, pat: string, from: nat): (r: int)
    requires from <= |s|
    decreases |s| - from
    ensures r == -1 || (from <= r <= |s| && OccursAt(s, pat, r))
    ensures forall i :: from <= i && (r == -1 || i < r) ==> !OccursAt(s, pat, i)
  {
    if OccursAt(s, pat, from) then from
    else if from == |s| then -1
    else IndexFrom(s, pat, from + 1)
  }

  /** strings.Contains. */
  predicate Contains(s: string, pat: string) {
    IndexOf(s, pat) >= 0
  }

  lemma ContainsIff(s: string, pat: string, i: int)
    ensures OccursAt(s, pat, i) ==> Contains(s, pat)
    ensures !Contains(s, pat) ==> !OccursAt(s, pat, i)
  {
  }

  /** A one-character pattern is first found just past a prefix that lacks it. */
  lemma IndexOfAfterPrefix(a: string, c: char, rest: string)
    requires c !in a
    ensures IndexOf(a + [c] + rest, [c]) == |a|
  {
    var s := a + [c] + rest;
    assert s[|a|..|a| + 1] == [c];
    assert OccursAt(s, [c], |a|);
    forall i | 0 <= i < |a| ensures !OccursAt(s, [c], i) {
      assert s[i] == a[i];
    }
  }

  // ---------------------------------------------------------------- numbers

  const MaxInt64: int := 0x7fff_ffff_ffff_ffff

  /**
   * Go's `n / 1000` on int64, which truncates toward zero (Dafny's `/` is
   * Euclidean): the microseconds of a nanosecond count.
   */
  function ToMicros(nanos: int): (r: int)
    ensures nanos >= 0 ==> r >= 0 && r * 1000 <= nanos < r * 1000 + 1000
    ensures nanos < 0 ==> r <= 0 && r * 1000 - 1000 < nanos <= r * 1000
  {
    if nanos >= 0 then nanos / 1000 else -((-nanos) / 1000)
  }

  /** Going back a whole number of microseconds from a time at or after the epoch. */
  lemma ToMicrosShift(nanos: int, micros: nat)
    requires nanos - micros * 1000 >= 0
    ensures ToMicros(nanos - micros * 1000) == ToMicros(nanos) - micros
  {
    var a, b := ToMicros(nanos - micros * 1000), ToMicros(nanos);
    assert (a + micros) * 1000 <= nanos < (a + micros) * 1000 + 1000;
  }

  lemma ToMicrosMonotone(a: int, b: int)
    requires a <= b
    ensures ToMicros(a) <= ToMicros(b)
  {
  }

  predicate IsDigit(c: char) { '0' <= c <= '9' }

  predicate AllDigits(s: string) {
    forall i :: 0 <= i < |s| ==> IsDigit(s[i])
  }

  function DigitChar(d: nat): (c: char)
    requires d < 10
    ensures IsDigit(c)
  {
    ('0' as int + d) as char
  }

  function DigitValue(c: char): (d: nat)
    requires IsDigit(c)
    ensures d < 10 && DigitChar(d) == c
  {
    c as int - '0' as int
  }

  /** The decimal digits of `n`, most significant first, without leading zeros. */
  function NatToString(n: nat): (r: string)
    decreases n
  {
    if n < 10 then [DigitChar(n)] else NatToString(n / 10) + [DigitChar(n % 10)]
  }

  /** strconv.FormatInt(n, 10). */
  function FormatInt(n: int): string {
    if n < 0 then "-" + NatToString(-n) else NatToString(n)
  }

  /** The value of a non-empty string of decimal digits. */
  function ParseNat(s: string): nat
    requires |s| > 0 && AllDigits(s)
  {
    if |s| == 1 then DigitValue(s[0]) else ParseNat(s[..|s| - 1]) * 10 + DigitValue(s[|s| - 1])
  }

  /** strconv.ParseInt(s, 10, 0) without the range check: an optional '-' and digits. */
  function ParseInt(s: string): Option<int> {
    if |s| > 1 && s[0] == '-' && AllDigits(s[1..]) then Some(0 - ParseNat(s[1..]) as int)
    else if |s| > 0 && AllDigits(s) then Some(ParseNat(s))
    else None
  }

  lemma {:induction false} NatToStringDigits(n: nat)
    ensures |NatToString(n)| > 0 && AllDigits(NatToString(n))
    ensures ParseNat(NatToString(n)) == n
    decreases n
  {
    if n >= 10 {
      NatToStringDigits(n / 10);
      var s := NatToString(n);
      assert s[..|s| - 1] == NatToString(n / 10);
    }
  }

  /** Rendering is injective: the decimal text of `n` reads back as `n`. */
  lemma FormatIntRoundTrip(n: int)
    ensures ParseInt(FormatInt(n)) == Some(n)
  {
    if n < 0 {
      NatToStringDigits(-n);
      assert FormatInt(n)[1..] == NatToString(-n);
    } else {
      NatToStringDigits(n);
    }
  }

  /** Decimal text holds no character other than '-' and digits. */
  lemma FormatIntChars(n: int)
    ensures forall i :: 0 <= i < |FormatInt(n)| ==> FormatInt(n)[i] == '-' || IsDigit(FormatInt(n)[i])
  {
    if n < 0 {
      NatToStringDigits(-n);
      assert forall i :: 1 <= i < |FormatInt(n)| ==> FormatInt(n)[i] == NatToString(-n)[i - 1];
    } else {
      NatToStringDigits(n);
    }
  }

  // ---------------------------------------------------------------- time windows in query text

  /** The two bounds of a TIMEFRAME(...) clause and the text that closes it. */
  function WindowText(min: int, max: int): string {
    FormatInt(min) + "," + FormatInt(max) + ")]"
  }

  /** The integer text of `s` up to the first `c`, and what follows that `c`. */
  function ReadIntUntil(s: string, c: char): Option<(int, string)> {
    var k := IndexOf(s, [c]);
    if k < 0 then None
    else match ParseInt(s[..k])
      case Some(n) => Some((n, s[k + 1..]))
      case None => None
  }

  /** The decimal text of `n` followed by a character that is neither '-' nor a digit reads back as `n`. */
  lemma ReadIntUntilFormat(n: int, c: char, rest: string)
    requires c != '-' && !IsDigit(c)
    ensures ReadIntUntil(FormatInt(n) + [c] + rest, c) == Some((n, rest))
  {
    var t := FormatInt(n);
    var s := t + [c] + rest;
    FormatIntChars(n);
    assert c !in t by {
      forall i | 0 <= i < |t| ensures t[i] != c { }
    }
    IndexOfAfterPrefix(t, c, rest);
    assert s[..|t|] == t;
    assert s[|t| + 1..] == rest;
    FormatIntRoundTrip(n);
  }

  /**
   * The two bounds that follow `head` in a query: the integer text up to the
   * first comma, then the integer text up to the first closing parenthesis.
   */
  function ReadWindow(q: string, head: string): Option<(int, int)> {
    if |q| < |head| || q[..|head|] != head then None
    else match ReadIntUntil(q[|head|..], ',')
      case None => None
      case Some((lo, after)) =>
        match ReadIntUntil(after, ')')
        case None => None
        case Some((hi, _)) => Some((lo, hi))
  }

  /** Whatever the head and the rest, the bounds written by WindowText read back unchanged. */
  lemma WindowReadsBack(head: string, min: int, max: int, tail: string)
    ensures ReadWindow(head + WindowText(min, max) + tail, head) == Some((min, max))
  {
    var q := head + WindowText(min, max) + tail;
    var after := FormatInt(max) + [')'] + ("]" + tail);
    assert q[..|head|] == head;
    assert q[|head|..] == FormatInt(min) + [','] + after;
    ReadIntUntilFormat(min, ',', after);
    ReadIntUntilFormat(max, ')', "]" + tail);
  }

}
