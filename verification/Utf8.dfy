/**
 UTF-8 as section 4 of RFC 3629 writes it, and the two searches for a character boundary:
 `utf8_floor` (`src/tracing_fmt.rs`) and `floor_char_boundary` (`src/util.rs`).
 */
module Utf8 {
  type Bytes = seq<bv8>

  /** A continuation byte: the two top bits are 10. */
  predicate Tail(b: bv8) {
    b & 0xC0 == 0x80
  }

  /** The first two bytes of a three-byte character: neither overlong nor a surrogate. */
  predicate OpensThree(a: bv8, b: bv8) {
    || (a == 0xE0 && 0xA0 <= b <= 0xBF)
    || (0xE1 <= a <= 0xEC && Tail(b))
    || (a == 0xED && 0x80 <= b <= 0x9F)
    || (0xEE <= a <= 0xEF && Tail(b))
  }

  /** The first two bytes of a four-byte character: neither overlong nor above U+10FFFF. */
  predicate OpensFour(a: bv8, b: bv8) {
    || (a == 0xF0 && 0x90 <= b <= 0xBF)
    || (0xF1 <= a <= 0xF3 && Tail(b))
    || (a == 0xF4 && 0x80 <= b <= 0x8F)
  }

  /** The length of the character at `i`, or 0 if none is there. */
  function CharLen(s: Bytes, i: nat): (n: nat)
    requires i < |s|
    ensures i + n <= |s| && n <= 4
  {
    if s[i] < 0x80 then 1
    else if i + 1 < |s| && 0xC2 <= s[i] <= 0xDF && Tail(s[i + 1]) then 2
    else if i + 2 < |s| && OpensThree(s[i], s[i + 1]) && Tail(s[i + 2]) then 3
    else if i + 3 < |s| && OpensFour(s[i], s[i + 1]) && Tail(s[i + 2]) && Tail(s[i + 3]) then 4
    else 0
  }

  /** Characters one after the other up to the end. */
  predicate ValidFrom(s: Bytes, i: nat)
    requires i <= |s|
    decreases |s| - i
  {
    i == |s| || (CharLen(s, i) > 0 && ValidFrom(s, i + CharLen(s, i)))
  }

  predicate Valid(s: Bytes) {
    ValidFrom(s, 0)
  }

  /** `pos` lies between two characters of those from `i` on, or at either end. */
  predicate BoundaryFrom(s: Bytes, i: nat, pos: nat)
    requires i <= |s|
    decreases |s| - i
  {
    pos == i || (i < |s| && CharLen(s, i) > 0 && BoundaryFrom(s, i + CharLen(s, i), pos))
  }

  predicate Boundary(s: Bytes, pos: nat) {
    BoundaryFrom(s, 0, pos)
  }

  // ----- Boundaries are the bytes that are not continuations -----

  lemma CharShape(s: Bytes, i: nat)
    requires i < |s| && CharLen(s, i) > 0
    ensures !Tail(s[i]) && forall k :: i < k < i + CharLen(s, i) ==> Tail(s[k])
  {
  }

  lemma {:induction false} BoundaryPlaces(s: Bytes, i: nat, pos: nat)
    requires i <= |s| && ValidFrom(s, i) && i <= pos <= |s|
    ensures BoundaryFrom(s, i, pos) <==> pos == i || pos == |s| || !Tail(s[pos])
    decreases |s| - i
  {
    hide CharLen, Tail;
    if i < |s| {
      var n := CharLen(s, i);
      CharShape(s, i);
      if pos < i + n {
        if pos > i && BoundaryFrom(s, i, pos) {
          BoundaryAhead(s, i + n, pos);
        }
      } else {
        BoundaryPlaces(s, i + n, pos);
        if pos == i + n && pos < |s| {
          CharShape(s, pos);
        }
      }
    }
  }

  lemma {:induction false} BoundaryAhead(s: Bytes, i: nat, pos: nat)
    requires i <= |s| && BoundaryFrom(s, i, pos)
    ensures i <= pos <= |s|
    decreases |s| - i
  {
    hide CharLen;
    if pos != i {
      BoundaryAhead(s, i + CharLen(s, i), pos);
    }
  }

  /** A continuation byte lies at most three bytes after the start of its character. */
  lemma {:induction false} TailsInARow(s: Bytes, i: nat, from: nat, pos: nat)
    requires i <= |s| && ValidFrom(s, i) && i <= from <= pos < |s|
    requires forall k :: from < k <= pos ==> Tail(s[k])
    ensures pos - from <= 3
    decreases |s| - i
  {
    hide Tail, CharLen;
    var n := CharLen(s, i);
    CharShape(s, i);
    if from < i + n <= pos {
      CharShape(s, i + n);
    } else if i + n <= from {
      TailsInARow(s, i + n, from, pos);
    }
  }

  // ----- The two searches -----

  /** The first byte back from `pos` that is not a continuation, or 0. */
  function Floor(s: Bytes, pos: nat): (i: nat)
    requires pos == 0 || pos < |s|
    ensures i <= pos && (i > 0 ==> !Tail(s[i])) && forall k :: i < k <= pos ==> Tail(s[k])
  {
    if pos > 0 && Tail(s[pos]) then Floor(s, pos - 1) else pos
  }

  /** `cut` is the largest character boundary not above `pos`. */
  ghost predicate LargestBoundary(s: Bytes, pos: nat, cut: nat) {
    cut <= pos && Boundary(s, cut) && forall k :: cut < k <= pos ==> !Boundary(s, k)
  }

  /** Stopping at the first byte back that is not a continuation finds the largest boundary. */
  lemma StopsAtLargest(s: Bytes, pos: nat, cut: nat)
    requires Valid(s) && (cut <= pos < |s| || cut == pos == |s|)
    requires cut == 0 || cut == |s| || !Tail(s[cut])
    requires forall k :: cut < k <= pos ==> Tail(s[k])
    ensures LargestBoundary(s, pos, cut) && pos - cut <= 3
  {
    hide Tail;
    BoundaryPlaces(s, 0, cut);
    forall k | cut < k <= pos ensures !Boundary(s, k) {
      BoundaryPlaces(s, 0, k);
    }
    if cut < pos {
      TailsInARow(s, 0, cut, pos);
    }
  }

  /** In UTF-8 that is the largest character boundary, so the two searches agree. */
  lemma FloorIsLargest(s: Bytes, pos: nat, cut: nat)
    requires Valid(s) && (pos == 0 || pos < |s|)
    ensures LargestBoundary(s, pos, cut) <==> cut == Floor(s, pos)
    ensures pos - Floor(s, pos) <= 3
  {
    StopsAtLargest(s, pos, Floor(s, pos));
  }

  /** The byte search; it reads `bytes[pos]`, so `pos` lies inside unless it is 0. */
  method Utf8Floor(bytes: Bytes, pos: nat) returns (i: nat)
    requires pos == 0 || pos < |bytes|
    ensures i == Floor(bytes, pos)
    ensures Valid(bytes) ==> LargestBoundary(bytes, pos, i) && pos - i <= 3
  {
    i := pos;
    while i > 0 && bytes[i] & 0xC0 == 0x80
      invariant i <= pos && Floor(bytes, i) == Floor(bytes, pos)
    {
      i := i - 1;
    }
    if Valid(bytes) {
      FloorIsLargest(bytes, pos, i);
    }
  }

  /** `str::is_char_boundary`: an end, or a byte that is at least -0x40 as a signed one. */
  predicate IsCharBoundary(s: Bytes, i: nat) {
    i == 0 || i == |s| || (i < |s| && (s[i] < 0x80 || s[i] >= 0xC0))
  }

  method FloorCharBoundary(s: Bytes, pos: nat) returns (i: nat)
    requires Valid(s)
    ensures pos >= |s| ==> i == |s|
    ensures pos < |s| ==> i == Floor(s, pos) && LargestBoundary(s, pos, i) && pos - i <= 3
  {
    if pos >= |s| {
      return |s|;
    }
    i := pos;
    while i > 0 && !IsCharBoundary(s, i)
      invariant i <= pos && Floor(s, i) == Floor(s, pos)
    {
      i := i - 1;
    }
    FloorIsLargest(s, pos, i);
  }

  /** Rust's test for a boundary in a string agrees with the grammar. */
  lemma CharBoundaryIsBoundary(s: Bytes, i: nat)
    requires Valid(s)
    ensures IsCharBoundary(s, i) <==> Boundary(s, i)
  {
    if i <= |s| {
      BoundaryPlaces(s, 0, i);
    } else if Boundary(s, i) {
      BoundaryAhead(s, 0, i);
    }
  }

  // ----- Cutting and joining -----

  lemma {:induction false} ValidFromEnd(s: Bytes, i: nat, pos: nat)
    requires i <= |s| && ValidFrom(s, i) && BoundaryFrom(s, i, pos)
    ensures pos <= |s| && ValidFrom(s, pos)
    decreases |s| - i
  {
    hide CharLen;
    if pos != i {
      ValidFromEnd(s, i + CharLen(s, i), pos);
    }
  }

  lemma {:induction false} ValidPrefixFrom(s: Bytes, i: nat, pos: nat)
    requires i <= pos <= |s| && ValidFrom(s, i) && BoundaryFrom(s, i, pos)
    ensures ValidFrom(s[..pos], i)
    decreases |s| - i
  {
    if pos != i {
      var n := CharLen(s, i);
      BoundaryAhead(s, i + n, pos);
      SameChar(s, s[..pos], i, i);
      ValidPrefixFrom(s, i + n, pos);
    }
  }

  /** A character is read from its own bytes. */
  lemma SameChar(s: Bytes, t: Bytes, i: nat, j: nat)
    requires i < |s| && CharLen(s, i) > 0 && j + CharLen(s, i) <= |t|
    requires s[i..i + CharLen(s, i)] == t[j..j + CharLen(s, i)]
    ensures CharLen(t, j) == CharLen(s, i)
  {
    hide OpensThree, OpensFour;
    var n := CharLen(s, i);
    var at := s[i..i + n];
    assert at[0] == s[i] == t[j];
    assert n > 1 ==> at[1] == s[i + 1] == t[j + 1];
    assert n > 2 ==> at[2] == s[i + 2] == t[j + 2];
    assert n > 3 ==> at[3] == s[i + 3] == t[j + 3];
  }

  lemma {:induction false} ValidShifted(s: Bytes, i: nat, t: Bytes, j: nat)
    requires i <= |s| && j <= |t| && s[i..] == t[j..] && ValidFrom(s, i)
    ensures ValidFrom(t, j)
    decreases |s| - i
  {
    assert |s[i..]| == |t[j..]|;
    if i < |s| {
      hide CharLen;
      var n := CharLen(s, i);
      assert s[i..i + n] == s[i..][..n] && t[j..j + n] == t[j..][..n];
      SameChar(s, t, i, j);
      assert s[i + n..] == s[i..][n..] && t[j + n..] == t[j..][n..];
      ValidShifted(s, i + n, t, j + n);
    }
  }

  /** Both sides of a boundary are UTF-8. */
  lemma ValidSplit(s: Bytes, pos: nat)
    requires Valid(s) && Boundary(s, pos)
    ensures pos <= |s| && Valid(s[..pos]) && Valid(s[pos..])
  {
    ValidFromEnd(s, 0, pos);
    ValidPrefixFrom(s, 0, pos);
    ValidShifted(s, pos, s[pos..], 0);
  }

  lemma {:induction false} ValidJoinFrom(a: Bytes, b: Bytes, i: nat)
    requires i <= |a| && ValidFrom(a, i) && Valid(b)
    ensures ValidFrom(a + b, i)
    decreases |a| - i
  {
    if i == |a| {
      assert (a + b)[i..] == b[0..];
      ValidShifted(b, 0, a + b, i);
    } else {
      hide CharLen;
      SameChar(a, a + b, i, i);
      ValidJoinFrom(a, b, i + CharLen(a, i));
    }
  }

  lemma ValidJoin(a: Bytes, b: Bytes)
    requires Valid(a) && Valid(b)
    ensures Valid(a + b)
  {
    ValidJoinFrom(a, b, 0);
  }

  lemma {:induction false} AsciiValid(s: Bytes, i: nat)
    requires i <= |s| && forall k :: i <= k < |s| ==> s[k] < 0x80
    ensures ValidFrom(s, i)
    decreases |s| - i
  {
    if i < |s| {
      AsciiValid(s, i + 1);
    }
  }

  /** The grammar's edges: the first and the last sequence of each length, and those just outside. */
  lemma GrammarEdges()
    ensures CharLen([0x00], 0) == 1 && CharLen([0x7F], 0) == 1 && CharLen([0x80], 0) == 0 && CharLen([0xBF], 0) == 0
    ensures CharLen([0xC1, 0xBF], 0) == 0 && CharLen([0xC2, 0x80], 0) == 2 && CharLen([0xDF, 0xBF], 0) == 2
    ensures CharLen([0xC2, 0x7F], 0) == 0 && CharLen([0xC2, 0xC0], 0) == 0
    ensures CharLen([0xE0, 0x9F, 0xBF], 0) == 0 && CharLen([0xE0, 0xA0, 0x80], 0) == 3 && CharLen([0xE0, 0xBF, 0xBF], 0) == 3
    ensures CharLen([0xE1, 0x80, 0x80], 0) == 3 && CharLen([0xEC, 0xBF, 0xBF], 0) == 3
    ensures CharLen([0xED, 0x80, 0x80], 0) == 3 && CharLen([0xED, 0x9F, 0xBF], 0) == 3 && CharLen([0xED, 0xA0, 0x80], 0) == 0
    ensures CharLen([0xEE, 0x80, 0x80], 0) == 3 && CharLen([0xEF, 0xBF, 0xBF], 0) == 3
    ensures CharLen([0xF0, 0x8F, 0xBF, 0xBF], 0) == 0 && CharLen([0xF0, 0x90, 0x80, 0x80], 0) == 4
    ensures CharLen([0xF0, 0xBF, 0xBF, 0xBF], 0) == 4 && CharLen([0xF1, 0x80, 0x80, 0x80], 0) == 4
    ensures CharLen([0xF3, 0xBF, 0xBF, 0xBF], 0) == 4 && CharLen([0xF4, 0x80, 0x80, 0x80], 0) == 4
    ensures CharLen([0xF4, 0x8F, 0xBF, 0xBF], 0) == 4 && CharLen([0xF4, 0x90, 0x80, 0x80], 0) == 0
    ensures CharLen([0xF5, 0x80, 0x80, 0x80], 0) == 0
  {
  }
}
