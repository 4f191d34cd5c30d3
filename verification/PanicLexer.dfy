/**
 The line sanitiser of `scripts/check_no_panics.py`: it lexes a file one line at a
 time, carrying its mode from line to line in a `LexerState`. The lines have no line
 break in them. Python's `isalpha` and `isalnum` are parameters.
 */
module PanicLexer {
  import opened Wrappers
  import opened GatewayStripper

  datatype Letters = Letters(alpha: char -> bool, alnum: char -> bool)

  /** The end of the run of letters, digits and underscores that starts at `i`. */
  function IdentEnd(l: Letters, s: string, i: nat): (e: nat)
    requires i <= |s|
    ensures i <= e <= |s|
    decreases |s| - i
  {
    if i < |s| && (l.alnum(s[i]) || s[i] == '_') then IdentEnd(l, s, i + 1) else i
  }

  /** An apostrophe that starts a lifetime: an identifier follows, and no closing quote after it. */
  predicate Lifetime(l: Letters, s: string) {
    && |s| > 1 && s[0] == '\'' && (l.alpha(s[1]) || s[1] == '_')
    && var j := IdentEnd(l, s, 2); !(j < |s| && s[j] == '\'')
  }

  /** One turn of the loop. A line comment takes the rest of the line. */
  function Turn(l: Letters, s: string, m: Mode): (r: Move)
    requires s != []
    ensures 0 < r.take <= |s| && |r.out| == r.take
    ensures r.next != LineComment || m == LineComment
  {
    match m
    case Block(outer) =>
      if Starts2(s, '/', '*') then Move(2, Spaces(2), Block(outer + 1))
      else if Starts2(s, '*', '/') then Move(2, Spaces(2), if outer == 0 then Code else Block(outer - 1))
      else Move(1, " ", m)
    case Raw(hashes) =>
      if s[0] == '"' && HashRun(s[1..]) == hashes then Move(1 + hashes, Spaces(1 + hashes), Code)
      else Move(1, " ", m)
    case Str(escaped) =>
      Move(1, " ",
           if escaped then Str(false) else if s[0] == '\\' then Str(true) else if s[0] == '"' then Code else m)
    case Chr(escaped) =>
      Move(1, " ",
           if escaped then Chr(false) else if s[0] == '\\' then Chr(true) else if s[0] == '\'' then Code else m)
    case _ =>
      if Starts2(s, '/', '/') then Move(|s|, Spaces(|s|), Code)
      else if Starts2(s, '/', '*') then Move(2, Spaces(2), Block(0))
      else if RawOpens(s) then
        var h := HashRun(s[1..]);
        Move(h + 2, Spaces(h + 2), Raw(h))
      else if s[0] == '"' then Move(1, " ", Str(false))
      else if s[0] == '\'' then Move(1, " ", if Lifetime(l, s) then Code else Chr(false))
      else Move(1, [s[0]], Code)
  }

  /** A char literal cannot span lines. */
  function AtLineEnd(m: Mode): Mode {
    if m.Chr? then Code else m
  }

  function Sanitize(l: Letters, s: string, m: Mode): (r: (string, Mode))
    ensures |r.0| == |s|
    decreases |s|
  {
    if s == [] then ([], AtLineEnd(m)) else
    var t := Turn(l, s, m);
    var rest := Sanitize(l, s[t.take..], t.next);
    (t.out + rest.0, rest.1)
  }

  class LexerState {
    var blockCommentDepth: nat
    var inString: bool
    var stringEscape: bool
    var inChar: bool
    var charEscape: bool
    var rawStringHashes: Option<nat>

    /** At most one of the modes is on, and an escape only within its own. */
    ghost predicate Valid()
      reads this
    {
      && (blockCommentDepth > 0 ==> !inString && !inChar && rawStringHashes.None?)
      && (rawStringHashes.Some? ==> !inString && !inChar)
      && (inString ==> !inChar)
      && (stringEscape ==> inString) && (charEscape ==> inChar)
    }

    function Current(): Mode
      reads this
    {
      if blockCommentDepth > 0 then Block(blockCommentDepth - 1)
      else if rawStringHashes.Some? then Raw(rawStringHashes.value)
      else if inString then Str(stringEscape)
      else if inChar then Chr(charEscape)
      else Code
    }

    constructor ()
      ensures Valid() && Current() == Code
    {
      blockCommentDepth, inString, stringEscape, inChar, charEscape, rawStringHashes := 0, false, false, false, false, None;
    }

    /** The body of the loop at `i`: how far to move and what stays visible. */
    method Advance(l: Letters, line: string, i: nat) returns (next: nat, visible: bool)
      requires Valid() && i < |line|
      modifies this
      ensures Valid()
      ensures var t := Turn(l, line[i..], old(Current()));
              && next == i + t.take && Current() == t.next
              && t.out == if visible then [line[i]] else Spaces(t.take)
    {
      visible := false;
      if blockCommentDepth > 0 {
        next := AdvanceBlock(l, line, i);
      } else if rawStringHashes.Some? {
        next := AdvanceRaw(l, line, i);
      } else if inString {
        if stringEscape { stringEscape := false; }
        else if line[i] == '\\' { stringEscape := true; }
        else if line[i] == '"' { inString := false; }
        next := i + 1;
      } else if inChar {
        if charEscape { charEscape := false; }
        else if line[i] == '\\' { charEscape := true; }
        else if line[i] == '\'' { inChar := false; }
        next := i + 1;
      } else {
        next, visible := AdvanceCode(l, line, i);
      }
    }

    method AdvanceBlock(l: Letters, line: string, i: nat) returns (next: nat)
      requires Valid() && i < |line| && blockCommentDepth > 0
      modifies this`blockCommentDepth
      ensures var t := Turn(l, line[i..], old(Current()));
              next == i + t.take && Current() == t.next && t.out == Spaces(t.take)
    {
      if line[i] == '/' && i + 1 < |line| && line[i + 1] == '*' {
        blockCommentDepth := blockCommentDepth + 1;
        return i + 2;
      }
      if line[i] == '*' && i + 1 < |line| && line[i + 1] == '/' {
        blockCommentDepth := blockCommentDepth - 1;
        return i + 2;
      }
      return i + 1;
    }

    method AdvanceRaw(l: Letters, line: string, i: nat) returns (next: nat)
      requires Valid() && i < |line| && blockCommentDepth == 0 && rawStringHashes.Some?
      modifies this`rawStringHashes
      ensures var t := Turn(l, line[i..], old(Current()));
              next == i + t.take && Current() == t.next && t.out == Spaces(t.take)
    {
      if line[i] == '"' {
        var hashes := CountHashes(line, i + 1);
        if hashes == rawStringHashes.value {
          rawStringHashes := None;
          return i + 1 + hashes;
        }
      }
      return i + 1;
    }

    method AdvanceCode(l: Letters, line: string, i: nat) returns (next: nat, visible: bool)
      requires Valid() && i < |line| && Current() == Code
      modifies this
      ensures Valid()
      ensures var t := Turn(l, line[i..], Code);
              && next == i + t.take && Current() == t.next
              && t.out == if visible then [line[i]] else Spaces(t.take)
    {
      var ch := line[i];
      visible := false;
      if ch == '/' && i + 1 < |line| && line[i + 1] == '/' {
        return |line|, false;
      }
      if ch == '/' && i + 1 < |line| && line[i + 1] == '*' {
        blockCommentDepth := blockCommentDepth + 1;
        return i + 2, false;
      }
      if ch == 'r' {
        var hashes := CountHashes(line, i + 1);
        if i + 1 + hashes < |line| && line[i + 1 + hashes] == '"' {
          rawStringHashes := Some(hashes);
          return i + hashes + 2, false;
        }
      }
      if ch == '"' {
        inString := true;
        return i + 1, false;
      }
      if ch == '\'' {
        var lifetime := IsLifetime(l, line, i);
        inChar := !lifetime;
        return i + 1, false;
      }
      return i + 1, true;
    }
  }

  method CountHashes(line: string, from: nat) returns (hashes: nat)
    requires from <= |line|
    ensures hashes == HashRun(line[from..])
    ensures forall i :: 0 <= i < from ==> line[i..][from - i..] == line[from..]
  {
    var j := from;
    while j < |line| && line[j] == '#'
      invariant from <= j <= |line|
      invariant forall k :: from <= k < j ==> line[k] == '#'
    {
      j := j + 1;
    }
    hashes := j - from;
    HashRunIs(line[from..], hashes);
  }

  method IsLifetime(l: Letters, line: string, i: nat) returns (r: bool)
    requires i < |line| && line[i] == '\''
    ensures r == Lifetime(l, line[i..])
  {
    if i + 1 < |line| && (l.alpha(line[i + 1]) || line[i + 1] == '_') {
      var j := i + 2;
      while j < |line| && (l.alnum(line[j]) || line[j] == '_')
        invariant i + 2 <= j <= |line|
        invariant IdentEnd(l, line[i..], 2) == IdentEnd(l, line[i..], j - i)
      {
        j := j + 1;
      }
      return !(j < |line| && line[j] == '\'');
    }
    return false;
  }

  method SanitizeLine(l: Letters, line: string, state: LexerState) returns (out: string)
    requires state.Valid()
    modifies state
    ensures state.Valid() && (out, state.Current()) == Sanitize(l, line, old(state.Current()))
  {
    out := [];
    var i := 0;
    ghost var all := Sanitize(l, line, state.Current());
    hide Sanitize, Turn, Remaining;
    NothingDone(l, line, state.Current());
    while i < |line|
      invariant i <= |line| && state.Valid()
      invariant Remaining(l, line, i, state.Current(), out, all)
      decreases |line| - i
    {
      ghost var m := state.Current();
      var next, visible := state.Advance(l, line, i);
      var piece := if visible then [line[i]] else Spaces(next - i);
      OneTurn(l, line, i, m, out, all);
      out := out + piece;
      i := next;
    }
    LineDone(l, line, state.Current(), out, all);
    if state.inChar {
      state.inChar, state.charEscape := false, false;
    }
  }

  /** The loop invariant: what is out so far, followed by the rest of the line, is the answer. */
  ghost predicate Remaining(l: Letters, line: string, i: nat, m: Mode, out: string, all: (string, Mode)) {
    i <= |line| &&
    var rest := Sanitize(l, line[i..], m);
    all == (out + rest.0, rest.1)
  }

  lemma NothingDone(l: Letters, line: string, m: Mode)
    ensures Remaining(l, line, 0, m, [], Sanitize(l, line, m))
  {
    assert line[0..] == line;
    assert [] + Sanitize(l, line, m).0 == Sanitize(l, line, m).0;
  }

  lemma OneTurn(l: Letters, line: string, i: nat, m: Mode, out: string, all: (string, Mode))
    requires i < |line| && Remaining(l, line, i, m, out, all)
    ensures var t := Turn(l, line[i..], m); i + t.take <= |line| && Remaining(l, line, i + t.take, t.next, out + t.out, all)
  {
    hide Turn;
    var t := Turn(l, line[i..], m);
    assert line[i..][t.take..] == line[i + t.take..];
    var rest := Sanitize(l, line[i + t.take..], t.next);
    assert out + (t.out + rest.0) == out + t.out + rest.0;
  }

  lemma LineDone(l: Letters, line: string, m: Mode, out: string, all: (string, Mode))
    requires Remaining(l, line, |line|, m, out, all)
    ensures all == (out, AtLineEnd(m))
  {
    assert line[|line|..] == [];
    assert out + [] == out;
  }
}
