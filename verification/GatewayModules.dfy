/**
 Brace matching in `scripts/check_gateway_boundaries.py`: blanking the bodies of
 test modules, and the depth walk that both it and the grouped-import scan use.
 The regular expression that finds a module header is a parameter: the ordered
 list of its non-overlapping matches, each ending at an opening brace.
 */
module GatewayModules {
  import opened GatewayStripper

  datatype Match = Match(start: nat, end: nat)

  /** What `finditer` yields: in order, not overlapping, each match ending just past a `{`. */
  ghost predicate Found(s: string, ms: seq<Match>) {
    && (forall a :: 0 <= a < |ms| ==> ms[a].start < ms[a].end <= |s| && s[ms[a].end - 1] == '{')
    && (forall a, b :: 0 <= a < b < |ms| ==> ms[a].end <= ms[b].start)
  }

  function Weight(c: char): int {
    if c == '{' then 1 else if c == '}' then -1 else 0
  }

  /** Opening minus closing braces. */
  function Net(s: string): int {
    if s == [] then 0 else Net(s[..|s| - 1]) + Weight(s[|s| - 1])
  }

  /** Opening minus closing braces between two positions. */
  function Span(s: string, lo: nat, hi: nat): int
    requires lo <= hi <= |s|
  {
    Net(s[lo..hi])
  }

  lemma SpanStep(s: string, lo: nat, j: nat)
    requires lo <= j < |s|
    ensures Span(s, lo, j + 1) == Span(s, lo, j) + Weight(s[j])
  {
    assert s[lo..j + 1][..j - lo] == s[lo..j];
  }

  lemma {:induction false} SpanSplit(s: string, lo: nat, k: nat, hi: nat)
    requires lo <= k <= hi <= |s|
    ensures Span(s, lo, hi) == Span(s, lo, k) + Span(s, k, hi)
    decreases hi
  {
    if k < hi {
      SpanSplit(s, lo, k, hi - 1);
      SpanStep(s, lo, hi - 1);
      SpanStep(s, k, hi - 1);
    }
  }

  /** Where the depth walk stops when it is at `j` with `depth` braces open. */
  function WalkEnd(s: string, j: nat, depth: nat): (e: nat)
    requires j <= |s|
    ensures j <= e <= |s|
    decreases |s| - j
  {
    if j == |s| || depth == 0 then j else WalkEnd(s, j + 1, depth + Weight(s[j]))
  }

  method Walk(s: string, open: nat) returns (j: nat, depth: nat)
    requires open < |s|
    ensures j == WalkEnd(s, open + 1, 1) && depth == 1 + Span(s, open + 1, j)
  {
    j, depth := open + 1, 1;
    while j < |s| && depth > 0
      invariant open + 1 <= j <= |s|
      invariant WalkEnd(s, j, depth) == WalkEnd(s, open + 1, 1)
      invariant depth == 1 + Span(s, open + 1, j)
    {
      SpanStep(s, open + 1, j);
      depth := depth + Weight(s[j]);
      j := j + 1;
    }
  }

  /** The brace just before `from` has its match. */
  ghost predicate Closed(s: string, from: nat)
    requires from <= |s|
  {
    Span(s, from, WalkEnd(s, from, 1)) == -1
  }

  /** The walk stops at the first place the depth is back to zero, or at the end of the text. */
  lemma WalkStopsFirst(s: string, from: nat)
    requires from <= |s|
    ensures var e := WalkEnd(s, from, 1);
            && (forall q :: from <= q < e ==> Span(s, from, q) > -1)
            && (Closed(s, from) || (e == |s| && Span(s, from, |s|) > -1))
  {
    WalkStops(s, from, from, 1);
  }

  lemma {:induction false} WalkStops(s: string, from: nat, j: nat, depth: nat)
    requires from <= j <= |s| && depth == 1 + Span(s, from, j)
    ensures var e := WalkEnd(s, j, depth);
            && (forall q :: j <= q < e ==> Span(s, from, q) > -1)
            && Span(s, from, e) >= -1
            && (Span(s, from, e) == -1 || e == |s|)
    decreases |s| - j
  {
    if j < |s| && depth > 0 {
      SpanStep(s, from, j);
      WalkStops(s, from, j + 1, depth + Weight(s[j]));
    }
  }

  /** A half-open range of blanked positions, and whether the walk found its closing brace. */
  datatype Body = Body(lo: nat, hi: nat, closed: bool)

  function BodyAt(s: string, open: nat): Body
    requires open < |s|
  {
    var e := WalkEnd(s, open + 1, 1);
    Body(open + 1, if e - 1 < open + 1 then open + 1 else e - 1, Span(s, open + 1, e) == -1)
  }

  /** The bodies the loop blanks from match `i` on, given where the last blanked module ended. */
  ghost function Bodies(s: string, ms: seq<Match>, i: nat, lastEnd: nat): seq<Body>
    requires Found(s, ms) && i <= |ms|
    decreases |ms| - i
  {
    if i == |ms| then [] else
    if ms[i].start < lastEnd then Bodies(s, ms, i + 1, lastEnd) else
    [BodyAt(s, ms[i].end - 1)] + Bodies(s, ms, i + 1, WalkEnd(s, ms[i].end, 1))
  }

  ghost predicate Inside(bs: seq<Body>, k: int) {
    exists b :: b in bs && b.lo <= k < b.hi
  }

  /** `out` is `s` with exactly the given bodies blanked. */
  ghost predicate IsBlanking(out: string, s: string, bs: seq<Body>) {
    && |out| == |s|
    && forall k :: 0 <= k < |s| ==> out[k] == if Inside(bs, k) then Blank(s[k]) else s[k]
  }

  ghost predicate Patched(before: string, after: string, b: Body) {
    && |after| == |before|
    && forall k :: 0 <= k < |before| ==> after[k] == if b.lo <= k < b.hi then Blank(before[k]) else before[k]
  }

  method ListOf(s: string) returns (out: array<char>)
    ensures fresh(out) && out[..] == s
  {
    out := new char[|s|](k requires 0 <= k < |s| => s[k]);
  }

  method BlankTestModules(sanitized: string, ms: seq<Match>) returns (blanked: string)
    requires Found(sanitized, ms)
    ensures IsBlanking(blanked, sanitized, Bodies(sanitized, ms, 0, 0))
  {
    var out := ListOf(sanitized);
    BlankAll(out, sanitized, ms);
    blanked := out[..];
  }

  /** The loop over the matches, overwriting `out` in place. */
  method BlankAll(out: array<char>, s: string, ms: seq<Match>)
    requires Found(s, ms) && out[..] == s
    modifies out
    ensures IsBlanking(out[..], s, Bodies(s, ms, 0, 0))
  {
    hide *;
    var lastEnd: nat := 0;
    ghost var done: seq<Body> := [];
    Begun(out[..], s, ms);
    for i := 0 to |ms|
      invariant out.Length == |s|
      invariant SoFar(out[..], s, ms, i, lastEnd, done)
    {
      ghost var before, was := out[..], lastEnd;
      FoundAt(s, ms, i);
      if ms[i].start >= lastEnd {
        lastEnd := BlankModule(out, s, ms[i].end - 1);
        BlankedOne(before, out[..], s, ms, i, was, done);
        done := done + [BodyAt(s, ms[i].end - 1)];
      } else {
        SkippedOne(before, s, ms, i, lastEnd, done);
      }
    }
    Finished(out[..], s, ms, lastEnd, done);
  }

  /** The loop invariant: `done` is blanked, and it is what the matches before `i` account for. */
  ghost predicate SoFar(out: string, s: string, ms: seq<Match>, i: nat, lastEnd: nat, done: seq<Body>) {
    Found(s, ms) && i <= |ms| &&
    Bodies(s, ms, 0, 0) == done + Bodies(s, ms, i, lastEnd) && IsBlanking(out, s, done)
  }

  lemma FoundAt(s: string, ms: seq<Match>, i: nat)
    requires Found(s, ms) && i < |ms|
    ensures ms[i].start < ms[i].end <= |s| && s[ms[i].end - 1] == '{'
  {
  }

  lemma Begun(out: string, s: string, ms: seq<Match>)
    requires Found(s, ms) && out == s
    ensures SoFar(out, s, ms, 0, 0, [])
  {
  }

  lemma SkippedOne(out: string, s: string, ms: seq<Match>, i: nat, lastEnd: nat, done: seq<Body>)
    requires Found(s, ms) && i < |ms| && SoFar(out, s, ms, i, lastEnd, done) && ms[i].start < lastEnd
    ensures SoFar(out, s, ms, i + 1, lastEnd, done)
  {
  }

  lemma BlankedOne(before: string, after: string, s: string, ms: seq<Match>, i: nat, lastEnd: nat, done: seq<Body>)
    requires Found(s, ms) && i < |ms| && SoFar(before, s, ms, i, lastEnd, done) && ms[i].start >= lastEnd
    requires Patched(before, after, BodyAt(s, ms[i].end - 1))
    ensures SoFar(after, s, ms, i + 1, WalkEnd(s, ms[i].end, 1), done + [BodyAt(s, ms[i].end - 1)])
  {
    hide BodyAt, WalkEnd, IsBlanking, Patched;
    BlankingSnoc(before, after, s, done, BodyAt(s, ms[i].end - 1));
  }

  lemma Finished(out: string, s: string, ms: seq<Match>, lastEnd: nat, done: seq<Body>)
    requires Found(s, ms) && SoFar(out, s, ms, |ms|, lastEnd, done)
    ensures IsBlanking(out, s, Bodies(s, ms, 0, 0))
  {
    assert Bodies(s, ms, |ms|, lastEnd) == [];
    assert done + [] == done;
  }

  /** One selected match: walk to the closing brace, blank strictly between the braces. */
  method BlankModule(out: array<char>, s: string, open: nat) returns (j: nat)
    requires open < |s| == out.Length
    modifies out
    ensures j == WalkEnd(s, open + 1, 1)
    ensures Patched(old(out[..]), out[..], BodyAt(s, open))
  {
    var depth;
    j, depth := Walk(s, open);
    BodyShape(s, open);
    BlankRange(out, open + 1, if j - 1 < open + 1 then open + 1 else j - 1);
  }

  lemma BlankingSnoc(before: string, after: string, s: string, done: seq<Body>, body: Body)
    requires IsBlanking(before, s, done) && Patched(before, after, body)
    ensures IsBlanking(after, s, done + [body])
  {
  }

  /** The innermost loop: overwrite in place, keeping newlines and tabs. */
  method BlankRange(out: array<char>, lo: nat, hi: nat)
    requires lo <= hi <= out.Length
    modifies out
    ensures forall k :: 0 <= k < out.Length ==> out[k] == if lo <= k < hi then Blank(old(out[k])) else old(out[k])
  {
    for k := lo to hi
      invariant forall l :: 0 <= l < out.Length ==> out[l] == if lo <= l < k then Blank(old(out[l])) else old(out[l])
    {
      if out[k] != '\n' && out[k] != '\t' {
        out[k] := ' ';
      }
    }
  }

  ghost predicate Ordered(s: string, bs: seq<Body>) {
    && (forall b :: b in bs ==> b.lo <= b.hi <= |s|)
    && (forall i, j :: 0 <= i < j < |bs| ==> bs[i].hi <= bs[j].lo)
  }

  /** What one selected match gives: a closed body is balanced, an open one reaches the end of the text. */
  lemma BodyShape(s: string, open: nat)
    requires open < |s|
    ensures var b := BodyAt(s, open);
            && b.lo == open + 1 <= b.hi <= |s|
            && b.hi <= WalkEnd(s, open + 1, 1)
            && (b.closed ==> Span(s, b.lo, b.hi) == 0 && b.hi < |s| && s[b.hi] == '}')
            && (!b.closed ==> WalkEnd(s, open + 1, 1) == |s|)
  {
    WalkStopsFirst(s, open + 1);
    var e := WalkEnd(s, open + 1, 1);
    if Closed(s, open + 1) {
      assert e > open + 1;
      SpanStep(s, open + 1, e - 1);
    }
  }

  /** Where a body ends, by depth alone: at the first brace that brings it back to zero, else just before the last character. */
  lemma BodyIs(s: string, lo: nat, e: nat)
    requires 0 < lo <= e <= |s| && forall q :: lo <= q < e ==> Span(s, lo, q) > -1
    ensures Span(s, lo, e) == -1 ==> BodyAt(s, lo - 1) == Body(lo, e - 1, true)
    ensures e == |s| && Span(s, lo, e) > -1 ==> BodyAt(s, lo - 1) == Body(lo, if e > lo then e - 1 else e, false)
  {
    WalkStopsFirst(s, lo);
    assert Span(s, lo, lo) == 0;
    hide WalkEnd, Span;
  }

  /** Bodies are in order and apart. */
  lemma {:induction false} BodiesOrdered(s: string, ms: seq<Match>, i: nat, lastEnd: nat)
    requires Found(s, ms) && i <= |ms|
    ensures var bs := Bodies(s, ms, i, lastEnd);
            Ordered(s, bs) && forall b :: b in bs ==> b.lo >= lastEnd
    decreases |ms| - i
  {
    hide Span, WalkEnd, BodyAt, Ordered;
    if i == |ms| {
      OrderedNone(s);
    } else if ms[i].start < lastEnd {
      BodiesOrdered(s, ms, i + 1, lastEnd);
    } else {
      var open := ms[i].end - 1;
      var e := WalkEnd(s, open + 1, 1);
      BodiesOrdered(s, ms, i + 1, e);
      BodyShape(s, open);
      OrderedCons(s, BodyAt(s, open), Bodies(s, ms, i + 1, e));
    }
  }

  /** Every closed body is balanced. */
  lemma {:induction false} BodiesBalanced(s: string, ms: seq<Match>, i: nat, lastEnd: nat)
    requires Found(s, ms) && i <= |ms|
    ensures var bs := Bodies(s, ms, i, lastEnd);
            forall b :: b in bs ==> b.lo <= b.hi <= |s| && (b.closed ==> Span(s, b.lo, b.hi) == 0)
    decreases |ms| - i
  {
    hide Span, WalkEnd, BodyAt;
    if i < |ms| {
      if ms[i].start < lastEnd {
        BodiesBalanced(s, ms, i + 1, lastEnd);
        assert Bodies(s, ms, i, lastEnd) == Bodies(s, ms, i + 1, lastEnd);
      } else {
        var open := ms[i].end - 1;
        var e := WalkEnd(s, open + 1, 1);
        BodiesBalanced(s, ms, i + 1, e);
        BodyShape(s, open);
      }
    }
  }

  /** Only the last body may be open: an open one runs to the end of the text. */
  lemma {:induction false} OnlyLastOpen(s: string, ms: seq<Match>, i: nat, lastEnd: nat, k: nat)
    requires Found(s, ms) && i <= |ms| && k + 1 < |Bodies(s, ms, i, lastEnd)|
    ensures Bodies(s, ms, i, lastEnd)[k].closed
    decreases |ms| - i
  {
    hide Span, WalkEnd, BodyAt;
    if ms[i].start < lastEnd {
      OnlyLastOpen(s, ms, i + 1, lastEnd, k);
    } else {
      var open := ms[i].end - 1;
      var e := WalkEnd(s, open + 1, 1);
      if k > 0 {
        OnlyLastOpen(s, ms, i + 1, e, k - 1);
      } else {
        BodyShape(s, open);
        if e == |s| {
          NoneAfter(s, ms, i + 1);
        }
      }
    }
  }

  lemma OrderedNone(s: string)
    ensures Ordered(s, [])
  {
  }

  lemma OrderedCons(s: string, b: Body, bs: seq<Body>)
    requires Ordered(s, bs) && b.lo <= b.hi <= |s| && forall c :: c in bs ==> b.hi <= c.lo
    ensures Ordered(s, [b] + bs)
  {
  }

  /** Once a module runs to the end of the text, no later match starts beyond it. */
  lemma {:induction false} NoneAfter(s: string, ms: seq<Match>, i: nat)
    requires Found(s, ms) && i <= |ms|
    ensures Bodies(s, ms, i, |s|) == []
    decreases |ms| - i
  {
    if i < |ms| {
      NoneAfter(s, ms, i + 1);
    }
  }

  /** A position that is not strictly inside any blanked body. */
  ghost predicate Outside(bs: seq<Body>, p: nat) {
    forall b :: b in bs ==> !(b.lo < p < b.hi)
  }

  lemma {:induction false} BlankedNet(out: string, s: string, bs: seq<Body>, b: Body, p: nat)
    requires IsBlanking(out, s, bs) && b in bs && b.lo <= p <= b.hi <= |s|
    ensures Span(out, b.lo, p) == 0
    decreases p
  {
    if p > b.lo {
      BlankedNet(out, s, bs, b, p - 1);
      SpanStep(out, b.lo, p - 1);
      assert Inside(bs, p - 1);
    }
  }

  /** Across a body the depth used to move by the body's own braces; now it does not move. */
  lemma AcrossBody(out: string, s: string, bs: seq<Body>, b: Body)
    requires IsBlanking(out, s, bs) && b in bs && b.lo <= b.hi <= |s|
    ensures Span(out, 0, b.hi) == Span(out, 0, b.lo)
    ensures Span(s, 0, b.hi) == Span(s, 0, b.lo) + Span(s, b.lo, b.hi)
  {
    BlankedNet(out, s, bs, b, b.hi);
    SpanSplit(out, 0, b.lo, b.hi);
    SpanSplit(s, 0, b.lo, b.hi);
  }

  lemma {:induction false} DepthKeptAt(out: string, s: string, bs: seq<Body>, p: nat)
    requires IsBlanking(out, s, bs) && Ordered(s, bs)
    requires forall b :: b in bs && b.hi <= p ==> Span(s, b.lo, b.hi) == 0
    requires p <= |s| && Outside(bs, p)
    ensures Span(out, 0, p) == Span(s, 0, p)
    decreases p
  {
    if b :| b in bs && b.lo < p == b.hi {
      AcrossBody(out, s, bs, b);
      DepthKeptAt(out, s, bs, b.lo);
    } else if p > 0 {
      assert !Inside(bs, p - 1);
      DepthKeptAt(out, s, bs, p - 1);
      SpanStep(out, 0, p - 1);
      SpanStep(s, 0, p - 1);
    }
  }

  ghost predicate DepthKept(out: string, s: string, bs: seq<Body>) {
    |out| == |s| && forall p :: 0 <= p <= |s| && Outside(bs, p) ==> Span(out, 0, p) == Span(s, 0, p)
  }

  /**
   The brace depth at every position outside a blanked body is what it was before,
   exactly when the last module, if it is never closed, happens to be balanced
   up to its final character.
   */
  lemma DepthKeptExactly(out: string, s: string, ms: seq<Match>)
    requires Found(s, ms) && IsBlanking(out, s, Bodies(s, ms, 0, 0))
    ensures var bs := Bodies(s, ms, 0, 0);
            && Ordered(s, bs)
            && (DepthKept(out, s, bs) <==>
                bs == [] || (var last := bs[|bs| - 1]; last.closed || Span(s, last.lo, last.hi) == 0))
  {
    hide Span, IsBlanking, Bodies, Found;
    var bs := Bodies(s, ms, 0, 0);
    BodiesOrdered(s, ms, 0, 0);
    BodiesBalanced(s, ms, 0, 0);
    forall k: nat | k + 1 < |bs| ensures bs[k].closed {
      OnlyLastOpen(s, ms, 0, 0, k);
    }
    BlankingLength(out, s, bs);
    if bs == [] || (var last := bs[|bs| - 1]; last.closed || Span(s, last.lo, last.hi) == 0) {
      forall p | 0 <= p <= |s| && Outside(bs, p)
        ensures Span(out, 0, p) == Span(s, 0, p)
      {
        DepthKeptAt(out, s, bs, p);
      }
    } else {
      var last := bs[|bs| - 1];
      AcrossBody(out, s, bs, last);
    }
  }

  lemma BlankingLength(out: string, s: string, bs: seq<Body>)
    requires IsBlanking(out, s, bs)
    ensures |out| == |s|
  {
  }

  /** Newlines and length survive blanking, so line numbers do. */
  lemma LinesKept(out: string, s: string, bs: seq<Body>)
    requires IsBlanking(out, s, bs)
    ensures forall k :: 0 <= k < |s| ==> (out[k] == '\n' <==> s[k] == '\n')
  {
  }

  /** A module that is never closed keeps its last character visible, so a depth can change. */
  lemma UnclosedModule()
    ensures var s, out := "mod tests {{{", "mod tests { {";
            && Found(s, [Match(0, 11)])
            && Bodies(s, [Match(0, 11)], 0, 0) == [Body(11, 12, false)]
            && IsBlanking(out, s, [Body(11, 12, false)])
            && Span(s, 0, 12) == 2 && Span(out, 0, 12) == 1
  {
    var s, out := "mod tests {{{", "mod tests { {";
    UnclosedBody(s);
    var ms := [Match(0, 11)];
    assert Bodies(s, ms, 1, 13) == [];
    forall k | 0 <= k < 13 ensures Inside([Body(11, 12, false)], k) <==> k == 11 {
      assert Body(11, 12, false) in [Body(11, 12, false)];
    }
    NoBraces(s, 10);
    SpanStep(s, 0, 10);
    SpanStep(s, 0, 11);
    NoBraces(out, 10);
    SpanStep(out, 0, 10);
    SpanStep(out, 0, 11);
  }

  lemma UnclosedBody(s: string)
    requires s == "mod tests {{{"
    ensures WalkEnd(s, 11, 1) == 13 && Span(s, 11, 13) == 2
  {
    assert WalkEnd(s, 13, 3) == 13;
    assert WalkEnd(s, 12, 2) == 13;
    assert Span(s, 11, 11) == 0;
    SpanStep(s, 11, 11);
    SpanStep(s, 11, 12);
  }

  lemma {:induction false} NoBraces(s: string, p: nat)
    requires p <= |s| && forall k :: 0 <= k < p ==> s[k] != '{' && s[k] != '}'
    ensures Span(s, 0, p) == 0
  {
    if p > 0 {
      NoBraces(s, p - 1);
      SpanStep(s, 0, p - 1);
    }
  }
}
