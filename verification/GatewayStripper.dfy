/**
 The comment-and-string stripper of `scripts/check_gateway_boundaries.py`.

 The script walks the text once with a handful of mode flags, of which at most
 one is ever set; `Mode` is that flag set as one value. `Strip` is the
 suffix-recursive reading of the walk and `StripCommentsAndStrings` is the
 index loop of the script, proved equal to it. Python strings are sequences of
 code points, as Dafny strings are.
 */
module GatewayStripper {

  /** `Block(outer)` is block-comment depth `outer + 1`. */
  datatype Mode =
    | Code
    | LineComment
    | Block(outer: nat)
    | Raw(hashes: nat)
    | Str(escaped: bool)
    | Chr(escaped: bool)

  /** One turn of the loop: how much it consumes, what it appends, the next mode. */
  datatype Move = Move(take: nat, out: string, next: Mode)

  function Blank(c: char): char {
    if c == '\n' || c == '\t' then c else ' '
  }

  function Blanks(s: string): (t: string)
    ensures |t| == |s|
  {
    seq(|s|, i requires 0 <= i < |s| => Blank(s[i]))
  }

  function Spaces(n: nat): string {
    seq(n, _ => ' ')
  }

  function Hashes(n: nat): string {
    seq(n, _ => '#')
  }

  predicate Starts2(s: string, a: char, b: char) {
    |s| >= 2 && s[0] == a && s[1] == b
  }

  /** The number of `#` at the front of `s`. */
  function HashRun(s: string): (n: nat)
    ensures n <= |s|
    ensures forall k :: 0 <= k < n ==> s[k] == '#'
    ensures n < |s| ==> s[n] != '#'
  {
    if s != [] && s[0] == '#' then 1 + HashRun(s[1..]) else 0
  }

  /** `r`, any number of `#`, then a quote. */
  predicate RawOpens(s: string) {
    s != [] && s[0] == 'r' && 1 + HashRun(s[1..]) < |s| && s[1 + HashRun(s[1..])] == '"'
  }

  predicate RawCloses(s: string, hashes: nat) {
    |s| >= 1 + hashes && s[..1 + hashes] == "\"" + Hashes(hashes)
  }

  /** The char-literal heuristic: another apostrophe within the next five characters. */
  predicate CharOpens(s: string) {
    s != [] && s[0] == '\'' && exists k :: 1 <= k < 6 && k < |s| && s[k] == '\''
  }

  /** Nothing begins at the front of `s`: code mode copies its first character. */
  predicate Inert(s: string) {
    && s != []
    && !Starts2(s, '/', '/')
    && !Starts2(s, '/', '*')
    && !RawOpens(s)
    && s[0] != '"'
    && !CharOpens(s)
  }

  function Step(s: string, m: Mode): (r: Move)
    requires s != []
    ensures 0 < r.take <= |s| && |r.out| == r.take
  {
    match m
    case LineComment =>
      Move(1, [Blank(s[0])], if s[0] == '\n' then Code else LineComment)
    case Block(outer) =>
      if Starts2(s, '/', '*') then Move(2, Spaces(2), Block(outer + 1))
      else if Starts2(s, '*', '/') then Move(2, Spaces(2), if outer == 0 then Code else Block(outer - 1))
      else Move(1, [Blank(s[0])], m)
    case Raw(hashes) =>
      if RawCloses(s, hashes) then Move(1 + hashes, Spaces(1 + hashes), Code)
      else Move(1, [Blank(s[0])], m)
    case Str(escaped) =>
      Move(1, [Blank(s[0])],
           if escaped then Str(false)
           else if s[0] == '\\' then Str(true)
           else if s[0] == '"' then Code
           else m)
    case Chr(escaped) =>
      if escaped then Move(1, " ", Chr(false))
      else Move(1, [Blank(s[0])],
                if s[0] == '\\' then Chr(true) else if s[0] == '\'' then Code else m)
    case Code =>
      if Starts2(s, '/', '/') then Move(2, Spaces(2), LineComment)
      else if Starts2(s, '/', '*') then Move(2, Spaces(2), Block(0))
      else if RawOpens(s) then
        var h := HashRun(s[1..]);
        Move(h + 2, Spaces(h + 2), Raw(h))
      else if s[0] == '"' then Move(1, " ", Str(false))
      else if CharOpens(s) then Move(1, " ", Chr(false))
      else Move(1, [s[0]], Code)
  }

  function Strip(s: string, m: Mode): (t: string)
    ensures |t| == |s|
    decreases |s|
  {
    if s == [] then [] else
    var r := Step(s, m);
    r.out + Strip(s[r.take..], r.next)
  }

  /** The script's loop, on indices, against the suffix-recursive form. */
  method StripCommentsAndStrings(src: string) returns (out: string)
    ensures out == Strip(src, Code)
  {
    out := [];
    var i, mode, n := 0, Code, |src|;
    hide Strip, Step;
    ghost var whole := Strip(src, Code);
    assert src[0..] == src && [] + whole == whole;
    while i < n
      invariant 0 <= i <= n
      invariant out + Strip(src[i..], mode) == whole
    {
      var piece, next := LoopBody(src, i, mode);
      StepAt(out, src, i, mode, piece, next);
      out := out + piece;
      i, mode := i + |piece|, next;
    }
    NothingLeft(src[n..], mode);
    assert out + [] == out;
  }

  lemma NothingLeft(s: string, m: Mode)
    requires s == []
    ensures Strip(s, m) == []
  {
  }

  /** The loop body: which flag is set decides what is appended and what comes next. */
  method LoopBody(src: string, i: nat, mode: Mode) returns (piece: string, next: Mode)
    requires i < |src|
    ensures Step(src[i..], mode) == Move(|piece|, piece, next)
  {
    if mode == Code {
      piece, next := StepInCode(src, i);
    } else if mode.LineComment? || mode.Block? {
      piece, next := StepInComment(src, i, mode);
    } else {
      piece, next := StepInLiteral(src, i, mode);
    }
  }

  /** The loop body while a line comment or a block comment is open. */
  method StepInComment(src: string, i: nat, mode: Mode) returns (piece: string, next: Mode)
    requires i < |src| && (mode.LineComment? || mode.Block?)
    ensures Step(src[i..], mode) == Move(|piece|, piece, next)
  {
    var c := src[i];
    piece, next := [Blank(c)], mode;
    if mode.LineComment? {
      if c == '\n' { next := Code; }
    } else if c == '/' && i + 1 < |src| && src[i + 1] == '*' {
      piece, next := Spaces(2), Block(mode.outer + 1);
    } else if c == '*' && i + 1 < |src| && src[i + 1] == '/' {
      piece, next := Spaces(2), if mode.outer == 0 then Code else Block(mode.outer - 1);
    }
  }

  /** The loop body while a raw string, a string or a char literal is open. */
  method StepInLiteral(src: string, i: nat, mode: Mode) returns (piece: string, next: Mode)
    requires i < |src| && (mode.Raw? || mode.Str? || mode.Chr?)
    ensures Step(src[i..], mode) == Move(|piece|, piece, next)
  {
    var c := src[i];
    piece, next := [Blank(c)], mode;
    match mode {
      case Raw(hashes) =>
        if c == '"' {
          var closing := "\"" + Hashes(hashes);
          if i + |closing| <= |src| && src[i..i + |closing|] == closing {
            assert src[i..][..|closing|] == src[i..i + |closing|];
            piece, next := Spaces(|closing|), Code;
          }
        }
      case Str(escaped) =>
        next := if escaped then Str(false)
                else if c == '\\' then Str(true)
                else if c == '"' then Code
                else mode;
      case Chr(escaped) =>
        if escaped {
          piece, next := " ", Chr(false);
        } else {
          next := if c == '\\' then Chr(true) else if c == '\'' then Code else mode;
        }
    }
  }

  /** The part of the loop body reached when no flag is set, with its inner scans. */
  method StepInCode(src: string, i: nat) returns (piece: string, next: Mode)
    requires i < |src|
    ensures Step(src[i..], Code) == Move(|piece|, piece, next)
  {
    var n, c := |src|, src[i];
    if c == '/' && i + 1 < n && src[i + 1] == '/' {
      return Spaces(2), LineComment;
    }
    if c == '/' && i + 1 < n && src[i + 1] == '*' {
      return Spaces(2), Block(0);
    }
    if c == 'r' {
      var j, hashes := i + 1, 0;
      while j < n && src[j] == '#'
        invariant i + 1 <= j <= n && hashes == j - i - 1
        invariant forall k :: i + 1 <= k < j ==> src[k] == '#'
      {
        hashes, j := hashes + 1, j + 1;
      }
      HashRunIs(src[i + 1..], hashes);
      assert src[i..][1..] == src[i + 1..];
      if j < n && src[j] == '"' {
        return Spaces(j - i + 1), Raw(hashes);
      }
    }
    if c == '"' {
      return " ", Str(false);
    }
    if c == '\'' && i + 1 < n {
      var k := 1;
      while k < 6 && i + k < n && src[i + k] != '\''
        invariant 1 <= k <= 6 && i + k <= n
        invariant forall l :: 1 <= l < k ==> src[i..][l] != '\''
      {
        k := k + 1;
      }
      if k < 6 && i + k < n {
        assert src[i..][k] == '\'';
        return " ", Chr(false);
      }
    }
    return [c], Code;
  }

  lemma HashRunIs(s: string, n: nat)
    requires n <= |s|
    requires forall k :: 0 <= k < n ==> s[k] == '#'
    requires n < |s| ==> s[n] != '#'
    ensures HashRun(s) == n
  {
  }

  lemma StepAt(out: string, src: string, i: nat, m: Mode, piece: string, next: Mode)
    requires i < |src|
    requires Step(src[i..], m) == Move(|piece|, piece, next)
    ensures i + |piece| <= |src|
    ensures out + Strip(src[i..], m) == out + piece + Strip(src[i + |piece|..], next)
  {
    assert src[i..][|piece|..] == src[i + |piece|..];
  }

  // ----- What the output looks like, for every input -----

  /** `t` is `s` with some characters replaced by spaces. */
  ghost predicate Faded(t: string, s: string) {
    |t| == |s| && forall p :: 0 <= p < |s| ==> t[p] == s[p] || t[p] == ' '
  }

  /** No quote, no comment opener, no two apostrophes within five characters. */
  ghost predicate Clean(t: string) {
    && (forall p :: 0 <= p < |t| ==> t[p] != '"')
    && (forall p :: 0 <= p < |t| - 1 ==> !(t[p] == '/' && (t[p + 1] == '/' || t[p + 1] == '*')))
    && (forall p, q :: 0 <= p < q < |t| && q <= p + 5 ==> !(t[p] == '\'' && t[q] == '\''))
  }

  lemma {:induction false} StripFades(s: string, m: Mode)
    ensures Faded(Strip(s, m), s)
    decreases |s|
  {
    if s != [] {
      var r := Step(s, m);
      StripFades(s[r.take..], r.next);
    }
  }

  lemma {:induction false} StripIsClean(s: string, m: Mode)
    ensures Clean(Strip(s, m))
    decreases |s|
  {
    if s != [] {
      var r := Step(s, m);
      StripIsClean(s[r.take..], r.next);
      StripFades(s[r.take..], r.next);
      if m == Code && Inert(s) {
        ConsClean(s, Strip(s[1..], Code));
      } else {
        forall k | 0 <= k < |r.out| ensures r.out[k] in " \n\t" {}
        PadClean(r.out, Strip(s[r.take..], r.next));
      }
    }
  }

  lemma PadClean(pad: string, t: string)
    requires Clean(t)
    requires forall k :: 0 <= k < |pad| ==> pad[k] in " \n\t"
    ensures Clean(pad + t)
  {
    var u := pad + t;
    forall p | 0 <= p < |u| ensures u[p] in " \n\t" || (p >= |pad| && u[p] == t[p - |pad|]) {}
  }

  lemma ConsClean(s: string, t: string)
    requires Inert(s) && Faded(t, s[1..]) && Clean(t)
    ensures Clean([s[0]] + t)
  {
    var u := [s[0]] + t;
    assert forall p :: 1 <= p < |u| ==> u[p] == t[p - 1] && (u[p] == s[p] || u[p] == ' ');
    forall p, q | 0 <= p < q < |u| && q <= p + 5
      ensures !(u[p] == '\'' && u[q] == '\'')
    {
      if p > 0 {
        assert u[p] == t[p - 1] && u[q] == t[q - 1];
      }
    }
    forall p | 0 <= p < |u| - 1
      ensures !(u[p] == '/' && (u[p + 1] == '/' || u[p + 1] == '*'))
    {
      if p > 0 {
        assert u[p] == t[p - 1] && u[p + 1] == t[p - 1 + 1];
      }
    }
  }

  lemma {:induction false} CleanIsFixed(t: string)
    requires Clean(t)
    ensures Strip(t, Code) == t
    decreases |t|
  {
    if t != [] {
      assert Inert(t);
      var u := t[1..];
      forall p | 0 <= p < |u| ensures u[p] == t[p + 1] {}
      assert Clean(u) by {
        forall p | 0 <= p < |u| - 1
          ensures !(u[p] == '/' && (u[p + 1] == '/' || u[p + 1] == '*'))
        {
          assert u[p] == t[p + 1] && u[p + 1] == t[p + 1 + 1];
        }
      }
      CleanIsFixed(u);
      assert Step(t, Code) == Move(1, [t[0]], Code);
      assert t == [t[0]] + u;
    }
  }

  /** The clean texts are exactly the fixed points, and stripping always lands on one. */
  lemma FixedPoints(s: string)
    ensures Strip(Strip(s, Code), Code) == Strip(s, Code)
    ensures Strip(s, Code) == s <==> Clean(s)
  {
    StripIsClean(s, Code);
    CleanIsFixed(Strip(s, Code));
    if Clean(s) {
      CleanIsFixed(s);
    }
  }
}
