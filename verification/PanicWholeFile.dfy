/**
 Sanitising line by line against lexing the whole file in one pass: the two agree as
 long as no line that follows an escaped line break, empty lines aside, starts with a
 quote or a backslash.
 */
module PanicWholeFile {
  import opened GatewayStripper
  import opened PanicLexer

  /** What the line break itself does to the mode in one pass: it is an ordinary string character. */
  function AtBreak(m: Mode): Mode {
    match m
    case LineComment => Code
    case Chr(_) => Code
    case Str(_) => Str(false)
    case _ => m
  }

  /** One pass over the text, line breaks included and kept. */
  function Whole(l: Letters, s: string, m: Mode): (t: string)
    ensures |t| == |s|
    decreases |s|
  {
    if s == [] then []
    else if s[0] == '\n' then "\n" + Whole(l, s[1..], AtBreak(m))
    else if m == LineComment then " " + Whole(l, s[1..], m)
    else if m == Code && Starts2(s, '/', '/') then Spaces(2) + Whole(l, s[2..], LineComment)
    else var r := Turn(l, s, m); r.out + Whole(l, s[r.take..], r.next)
  }

  /** The lines sanitised one after the other. */
  function Linewise(l: Letters, lines: seq<string>, m: Mode): seq<string> {
    if lines == [] then [] else
    var r := Sanitize(l, lines[0], m);
    [r.0] + Linewise(l, lines[1..], r.1)
  }

  function Text(lines: seq<string>): string {
    if lines == [] then [] else
    if |lines| == 1 then lines[0] else lines[0] + "\n" + Text(lines[1..])
  }

  /** A line break is not a letter, and no line contains one. */
  ghost predicate Lines(l: Letters, lines: seq<string>) {
    !l.alpha('\n') && !l.alnum('\n') && forall i :: 0 <= i < |lines| ==> '\n' !in lines[i]
  }

  predicate StartsEscapable(line: string) {
    line != [] && (line[0] == '"' || line[0] == '\\')
  }

  /** A backslash pending inside a string at the end of a line meets a character it would change. */
  predicate EscapeMisread(l: Letters, lines: seq<string>, m: Mode) {
    |lines| > 1 &&
    var next := Sanitize(l, lines[0], m).1;
    (next == Str(true) && StartsEscapable(lines[1])) || EscapeMisread(l, lines[1..], next)
  }

  ghost predicate EndsLine(after: string) {
    after == [] || after[0] == '\n'
  }

  lemma {:induction false} HashRunLocal(s: string, after: string)
    requires EndsLine(after)
    ensures HashRun(s + after) == HashRun(s)
  {
    if s == [] {
      assert s + after == after;
    } else {
      assert (s + after)[1..] == s[1..] + after;
      HashRunLocal(s[1..], after);
    }
  }

  lemma {:induction false} IdentLocal(l: Letters, s: string, after: string, i: nat)
    requires EndsLine(after) && !l.alnum('\n') && i <= |s|
    ensures IdentEnd(l, s + after, i) == IdentEnd(l, s, i)
    decreases |s| - i
  {
    if i < |s| {
      IdentLocal(l, s, after, i + 1);
    }
  }

  /** No lookahead crosses the end of the line. */
  lemma TurnLocal(l: Letters, s: string, after: string, m: Mode)
    requires s != [] && '\n' !in s && EndsLine(after) && !l.alpha('\n') && !l.alnum('\n')
    requires m != LineComment && !(m == Code && Starts2(s, '/', '/'))
    ensures Turn(l, s + after, m) == Turn(l, s, m)
    ensures !(m == Code && Starts2(s + after, '/', '/'))
  {
    var u := s + after;
    SameFront(s, after);
    if m == Code && s[0] == '\'' {
      LifetimeLocal(l, s, after);
    }
    hide HashRun, Lifetime;
  }

  lemma SameFront(s: string, after: string)
    requires s != [] && '\n' !in s && EndsLine(after)
    ensures var u := s + after;
            && u[0] == s[0]
            && HashRun(u[1..]) == HashRun(s[1..])
            && RawOpens(u) == RawOpens(s)
            && (Starts2(u, '/', '*') <==> Starts2(s, '/', '*'))
            && (Starts2(u, '*', '/') <==> Starts2(s, '*', '/'))
            && (Starts2(u, '/', '/') <==> Starts2(s, '/', '/'))
  {
    var u := s + after;
    assert |u| > 1 ==> u[1] == if |s| > 1 then s[1] else '\n';
    assert u[1..] == s[1..] + after;
    HashRunLocal(s[1..], after);
    assert forall k :: 0 <= k < |s| ==> u[k] == s[k];
  }

  lemma LifetimeLocal(l: Letters, s: string, after: string)
    requires s != [] && s[0] == '\'' && EndsLine(after) && !l.alpha('\n') && !l.alnum('\n')
    ensures Lifetime(l, s + after) == Lifetime(l, s)
  {
    var u := s + after;
    assert forall k :: 0 <= k < |s| ==> u[k] == s[k];
    if |s| > 1 {
      IdentLocal(l, s, after, 2);
    } else {
      assert |u| > 1 ==> u[1] == '\n';
    }
  }

  lemma {:induction false} CommentRest(l: Letters, s: string, after: string)
    requires '\n' !in s && EndsLine(after)
    ensures Whole(l, s + after, LineComment) == Spaces(|s|) + Whole(l, after, LineComment)
  {
    if s == [] {
      assert s + after == after;
    } else {
      assert (s + after)[1..] == s[1..] + after;
      CommentRest(l, s[1..], after);
      assert Spaces(|s|) == " " + Spaces(|s| - 1);
    }
  }

  /** Over one line the single pass does what the line sanitiser does, and hands on the same mode. */
  lemma {:induction false} OneLine(l: Letters, s: string, after: string, m: Mode)
    requires '\n' !in s && EndsLine(after) && !l.alpha('\n') && !l.alnum('\n') && m != LineComment
    ensures Whole(l, s + after, m) == Sanitize(l, s, m).0 + Whole(l, after, Sanitize(l, s, m).1)
    ensures Sanitize(l, s, m).1 != LineComment
    decreases |s|
  {
    hide Turn, Whole, Sanitize;
    if s == [] {
      assert s + after == after;
      LineEnds(l, after, m);
      SanitizeNone(l, m);
      assert [] + Whole(l, after, AtLineEnd(m)) == Whole(l, after, AtLineEnd(m));
    } else if m == Code && Starts2(s, '/', '/') {
      CommentLine(l, s, after);
    } else {
      TurnLocal(l, s, after, m);
      var t := Turn(l, s, m);
      var tail := s[t.take..];
      assert (s + after)[t.take..] == tail + after;
      BothTurn(l, s + after, m);
      BothTurn(l, s, m);
      OneLine(l, tail, after, t.next);
      var rest := Sanitize(l, tail, t.next);
      assert t.out + (rest.0 + Whole(l, after, rest.1)) == t.out + rest.0 + Whole(l, after, rest.1);
    }
  }

  lemma LineEnds(l: Letters, after: string, m: Mode)
    requires EndsLine(after) && m != LineComment
    ensures Whole(l, after, m) == Whole(l, after, AtLineEnd(m)) && AtLineEnd(m) != LineComment
  {
  }

  lemma SanitizeNone(l: Letters, m: Mode)
    ensures Sanitize(l, [], m) == ([], AtLineEnd(m))
  {
  }

  /** One turn of each pass. */
  lemma BothTurn(l: Letters, s: string, m: Mode)
    requires s != []
    ensures var t := Turn(l, s, m); var rest := Sanitize(l, s[t.take..], t.next);
            Sanitize(l, s, m) == (t.out + rest.0, rest.1)
    ensures s[0] != '\n' && m != LineComment && !(m == Code && Starts2(s, '/', '/')) ==>
              var r := Turn(l, s, m); Whole(l, s, m) == r.out + Whole(l, s[r.take..], r.next)
  {
  }

  lemma CommentLine(l: Letters, s: string, after: string)
    requires '\n' !in s && EndsLine(after) && Starts2(s, '/', '/')
    ensures Sanitize(l, s, Code) == (Spaces(|s|), Code)
    ensures Whole(l, s + after, Code) == Spaces(|s|) + Whole(l, after, Code)
  {
    hide Turn;
    var n, rest := |s|, Whole(l, after, Code);
    CommentRest(l, s[2..], after);
    WholeComment(l, s, after);
    SanitizeComment(l, s);
    assert Spaces(2) + (Spaces(n - 2) + rest) == Spaces(n) + rest;
  }

  lemma WholeComment(l: Letters, s: string, after: string)
    requires Starts2(s, '/', '/')
    ensures Whole(l, s + after, Code) == Spaces(2) + Whole(l, s[2..] + after, LineComment)
  {
    hide Turn;
    assert (s + after)[2..] == s[2..] + after && (s + after)[0] == '/';
  }

  lemma SanitizeComment(l: Letters, s: string)
    requires Starts2(s, '/', '/')
    ensures Sanitize(l, s, Code) == (Spaces(|s|), Code)
  {
    SanitizeNone(l, Code);
    assert s[|s|..] == [] && Spaces(|s|) + [] == Spaces(|s|);
  }

  /** The two passes are in the same mode, or the line-wise one alone still has the backslash pending. */
  predicate InStep(m: Mode, w: Mode, lines: seq<string>) {
    w == m || (m == Str(true) && w == Str(false) && (lines == [] || !StartsEscapable(lines[0])))
  }

  /** Line-by-line sanitising with a carried state is lexing the whole text once, if no pending escape is misread. */
  lemma {:induction false} LinewiseIsWhole(l: Letters, lines: seq<string>, m: Mode, w: Mode)
    requires Lines(l, lines) && m != LineComment && InStep(m, w, lines) && !EscapeMisread(l, lines, m)
    ensures Whole(l, Text(lines), w) == Text(Linewise(l, lines, m))
  {
    hide Turn, Sanitize, Whole, InStep, AtBreak;
    if lines == [] {
      assert Whole(l, [], w) == [];
    } else if |lines| == 1 {
      assert lines == [lines[0]];
      LastLine(l, lines[0], m, w);
      assert Linewise(l, lines[1..], Sanitize(l, lines[0], m).1) == [];
    } else {
      StillInStep(l, lines, m, w);
      LinewiseIsWhole(l, lines[1..], Sanitize(l, lines[0], m).1, AtBreak(Sanitize(l, lines[0], w).1));
      LineThenRest(l, lines[0], Text(lines[1..]), w);
      assert |Linewise(l, lines[1..], Sanitize(l, lines[0], m).1)| > 0;
    }
  }

  lemma LastLine(l: Letters, line: string, m: Mode, w: Mode)
    requires Lines(l, [line]) && m != LineComment && InStep(m, w, [line])
    ensures Whole(l, line, w) == Sanitize(l, line, m).0
  {
    hide Turn, Sanitize, Whole;
    assert '\n' !in [line][0];
    SameLine(l, line, m, w);
    OneLine(l, line, [], w);
    assert Whole(l, [], (Sanitize(l, line, w).1)) == [];
    assert Sanitize(l, line, w).0 + [] == Sanitize(l, line, w).0;
    assert line + [] == line;
  }

  lemma StillInStep(l: Letters, lines: seq<string>, m: Mode, w: Mode)
    requires |lines| > 1 && m != LineComment && InStep(m, w, lines) && !EscapeMisread(l, lines, m)
    ensures var r, rw := Sanitize(l, lines[0], m), Sanitize(l, lines[0], w);
            r.0 == rw.0 && w != LineComment && r.1 != LineComment && InStep(r.1, AtBreak(rw.1), lines[1..])
  {
    hide Turn, Sanitize;
    SameLine(l, lines[0], m, w);
    SanitizeNone(l, m);
    SanitizeNone(l, w);
    LineEndMode(l, lines[0], m);
  }

  lemma LineThenRest(l: Letters, line: string, rest: string, w: Mode)
    requires '\n' !in line && !l.alpha('\n') && !l.alnum('\n') && w != LineComment
    ensures var r := Sanitize(l, line, w);
            Whole(l, line + "\n" + rest, w) == r.0 + "\n" + Whole(l, rest, AtBreak(r.1))
  {
    hide Turn, Sanitize, Whole, AtBreak;
    assert line + "\n" + rest == line + ("\n" + rest);
    OneLine(l, line, "\n" + rest, w);
    WholeBreak(l, rest, Sanitize(l, line, w).1);
  }

  lemma SameLine(l: Letters, s: string, m: Mode, w: Mode)
    requires w == m || (m == Str(true) && w == Str(false) && !StartsEscapable(s))
    ensures Sanitize(l, s, m).0 == Sanitize(l, s, w).0
    ensures s != [] ==> Sanitize(l, s, m) == Sanitize(l, s, w)
  {
    if w != m && s != [] {
      EscapedBreakHarmless(l, s);
    }
  }

  lemma WholeBreak(l: Letters, rest: string, m: Mode)
    ensures Whole(l, "\n" + rest, m) == "\n" + Whole(l, rest, AtBreak(m))
  {
    assert ("\n" + rest)[1..] == rest;
  }

  lemma {:induction false} LineEndMode(l: Letters, s: string, m: Mode)
    requires m != LineComment
    ensures !Sanitize(l, s, m).1.Chr? && Sanitize(l, s, m).1 != LineComment
    decreases |s|
  {
    if s != [] {
      var t := Turn(l, s, m);
      LineEndMode(l, s[t.take..], t.next);
    }
  }

  /** An escaped break is forgotten at once unless the next line starts with a quote or a backslash. */
  lemma EscapedBreakHarmless(l: Letters, s: string)
    requires s != [] && !StartsEscapable(s)
    ensures Sanitize(l, s, Str(true)) == Sanitize(l, s, Str(false))
  {
  }

  /** And at once for no other line: there the two readings of its first character part. */
  lemma PendingEscapeMatters(l: Letters, s: string)
    requires s != []
    ensures Turn(l, s, Str(true)).next == Turn(l, s, Str(false)).next <==> !StartsEscapable(s)
  {
  }

  // ----- On modes the condition is exact -----

  /** The modes after each turn over a line. */
  function Turns(l: Letters, s: string, m: Mode): seq<Mode>
    decreases |s|
  {
    if s == [] then [] else
    var t := Turn(l, s, m);
    [t.next] + Turns(l, s[t.take..], t.next)
  }

  /**
   On every line the line-wise pass, in mode `m`, and the single pass, in mode `w`, start alike, a
   pending escape aside, and go through the same modes. What the single pass hands on to the
   text after a line is what `LineThenRest` says.
   */
  ghost predicate Aligned(l: Letters, lines: seq<string>, m: Mode, w: Mode)
    decreases |lines|
  {
    lines == [] ||
    (&& (w == m || (m == Str(true) && w == Str(false)))
     && Turns(l, lines[0], m) == Turns(l, lines[0], w)
     && Aligned(l, lines[1..], Sanitize(l, lines[0], m).1, AtBreak(Sanitize(l, lines[0], w).1)))
  }

  lemma PendingTurns(l: Letters, s: string)
    ensures Turns(l, s, Str(true)) == Turns(l, s, Str(false)) <==> !StartsEscapable(s)
  {
    if s != [] {
      assert Turns(l, s, Str(true))[0] == Str(false);
      assert Turns(l, s, Str(false))[0] == Turn(l, s, Str(false)).next;
    }
  }

  /** The two passes go through the same modes, pending escapes aside, if and only if no pending escape is misread. */
  lemma AlignedIff(l: Letters, lines: seq<string>, m: Mode)
    requires m != LineComment
    ensures Aligned(l, lines, m, m) <==> !EscapeMisread(l, lines, m)
  {
    AlignedFrom(l, lines, m, m);
  }

  lemma {:induction false} AlignedFrom(l: Letters, lines: seq<string>, m: Mode, w: Mode)
    requires m != LineComment && (w == m || (m == Str(true) && w == Str(false)))
    ensures Aligned(l, lines, m, w) <==> !EscapeMisread(l, lines, m) && InStep(m, w, lines)
    decreases |lines|
  {
    hide Turn, Sanitize, Turns;
    if lines != [] {
      var r, rw := Sanitize(l, lines[0], m), Sanitize(l, lines[0], w);
      if w != m {
        PendingTurns(l, lines[0]);
      }
      if InStep(m, w, lines) {
        SameLine(l, lines[0], m, w);
        SanitizeNone(l, m);
        SanitizeNone(l, w);
        LineEndMode(l, lines[0], m);
        AlignedFrom(l, lines[1..], r.1, AtBreak(rw.1));
      }
    }
  }

  /** A string continued by a backslash whose next line begins with the closing quote is never closed. */
  lemma EscapedBreakHarms(l: Letters)
    ensures var r := Sanitize(l, "\"\\", Code); r.0 == "  " && r.1 == Str(true)
    ensures var r := Sanitize(l, "\" {", Str(true)); r.0 == "   " && r.1 == Str(false)
    ensures var r := Sanitize(l, "\" {", Str(false)); r.0 == "  {" && r.1 == Code
    ensures !l.alpha('\n') && !l.alnum('\n') ==>
              var lines := ["\"\\", "\" {"];
              Text(Linewise(l, lines, Code)) == "  \n   " && Whole(l, Text(lines), Code) == "  \n  {"
  {
    hide Sanitize;
    SanitizeNone(l, Str(true));
    SanitizeNone(l, Str(false));
    SanitizeNone(l, Code);
    OneChar(l, '\\', [], Str(false), Str(true), " ");
    OneChar(l, '"', ['\\'] + [], Code, Str(false), " ");
    assert "\"\\" == ['"'] + (['\\'] + []);
    OneChar(l, '{', [], Str(false), Str(false), " ");
    OneChar(l, ' ', ['{'] + [], Str(false), Str(false), " ");
    OneChar(l, '"', [' '] + (['{'] + []), Str(true), Str(false), " ");
    OneChar(l, '{', [], Code, Code, "{");
    OneChar(l, ' ', ['{'] + [], Code, Code, " ");
    OneChar(l, '"', [' '] + (['{'] + []), Str(false), Code, " ");
    assert "\" {" == ['"'] + ([' '] + (['{'] + []));
    if !l.alpha('\n') && !l.alnum('\n') {
      TwoLines(l, "\"\\", "\" {");
    }
  }

  lemma TwoLines(l: Letters, a: string, b: string)
    requires '\n' !in a && '\n' !in b && !l.alpha('\n') && !l.alnum('\n')
    ensures var r := Sanitize(l, a, Code);
            && Text(Linewise(l, [a, b], Code)) == r.0 + "\n" + Sanitize(l, b, r.1).0
            && Whole(l, Text([a, b]), Code) == r.0 + "\n" + Sanitize(l, b, AtBreak(r.1)).0
  {
    hide Turn, Sanitize, Whole;
    var r := Sanitize(l, a, Code);
    assert [a, b][1..] == [b] && [b][1..] == [];
    assert Linewise(l, [b], r.1) == [Sanitize(l, b, r.1).0];
    assert Linewise(l, [a, b], Code) == [r.0] + [Sanitize(l, b, r.1).0];
    assert ([r.0] + [Sanitize(l, b, r.1).0])[1..] == [Sanitize(l, b, r.1).0];
    LineEndMode(l, a, Code);
    LineThenRest(l, a, b, Code);
    assert Lines(l, [b]);
    LastLine(l, b, AtBreak(r.1), AtBreak(r.1));
  }

  lemma OneChar(l: Letters, c: char, rest: string, m: Mode, next: Mode, out: string)
    requires Turn(l, [c] + rest, m) == Move(1, out, next)
    ensures Sanitize(l, [c] + rest, m).0 == out + Sanitize(l, rest, next).0
    ensures Sanitize(l, [c] + rest, m).1 == Sanitize(l, rest, next).1
  {
    assert ([c] + rest)[1..] == rest;
  }
}
