/** What the `.env` line editor is for: it edits a finite map, and leaves everything else alone. */
module EnvLaws {
  import opened Wrappers
  import opened Escaping
  import opened EnvFile

  // ----- One variable -----

  lemma NewLineSets(key: string, value: string)
    ensures Sets(NewLine(key, value), key)
  {
    assert NewLine(key, value)[..|key| + 1] == key + "=";
  }

  /** The written key is on exactly one line, with its value; all other lines are kept, in order. */
  lemma {:induction false} UpsertKeepsOthers(ls: seq<string>, key: string, value: string, found: bool)
    ensures Filter(Upserted(ls, key, value, found), l => !Sets(l, key)) == Filter(ls, l => !Sets(l, key))
    ensures Filter(Upserted(ls, key, value, found), l => Sets(l, key)) == if found then [] else [NewLine(key, value)]
  {
    var added, other, mine := [NewLine(key, value)], (l: string) => !Sets(l, key), (l: string) => Sets(l, key);
    NewLineSets(key, value);
    assert added[1..] == [];
    assert Filter(added, other) == [] && Filter(added, mine) == added;
    if ls != [] {
      var found' := found || Sets(ls[0], key);
      UpsertKeepsOthers(ls[1..], key, value, found');
      var head := if !Sets(ls[0], key) then [ls[0]] else if found then [] else added;
      assert Filter([ls[0]], other) == (if Sets(ls[0], key) then [] else [ls[0]]);
      FilterAppend(head, Upserted(ls[1..], key, value, found'), other);
      FilterAppend(head, Upserted(ls[1..], key, value, found'), mine);
    }
  }

  /** A later value for the same key is all that is left of the two. */
  lemma {:induction false} UpsertOverwrites(ls: seq<string>, key: string, v: string, w: string, found: bool)
    ensures Upserted(Upserted(ls, key, v, found), key, w, found) == Upserted(ls, key, w, found)
  {
    NewLineSets(key, v);
    if ls == [] {
      if !found {
        assert [NewLine(key, v)][1..] == [];
      }
    } else {
      var found' := found || Sets(ls[0], key);
      var rest := Upserted(ls[1..], key, v, found');
      UpsertOverwrites(ls[1..], key, v, w, found');
      if !Sets(ls[0], key) {
        assert ([ls[0]] + rest)[1..] == rest;
      } else if !found {
        assert ([NewLine(key, v)] + rest)[1..] == rest;
      } else {
        assert [] + rest == rest;
      }
    }
  }

  lemma ChopSets(l: string, key: string)
    ensures Sets(Chop(l), key) == Sets(l, key)
  {
    if Sets(l, key) {
      assert l[..|key| + 1] == key + "=";
      assert l[|key|] == '=';
    }
  }

  lemma {:induction false} UpsertChopped(ls: seq<string>, key: string, value: string, found: bool)
    ensures Upserted(Chopped(ls), key, value, found) == Chopped(Upserted(ls, key, value, found))
  {
    assert Chop(NewLine(key, value)) == NewLine(key, value);
    if ls != [] {
      ChopSets(ls[0], key);
      assert Chopped(ls)[1..] == Chopped(ls[1..]);
      UpsertChopped(ls[1..], key, value, found || Sets(ls[0], key));
      ChoppedAppend(if !Sets(ls[0], key) then [ls[0]] else if found then [] else [NewLine(key, value)],
                    Upserted(ls[1..], key, value, found || Sets(ls[0], key)));
    }
  }

  lemma ChoppedAppend(a: seq<string>, b: seq<string>)
    ensures Chopped(a + b) == Chopped(a) + Chopped(b)
  {
  }

  lemma {:induction false} EscapeUnbroken(s: string)
    requires '\n' !in s
    ensures '\n' !in EscapeValue(s)
  {
    EscapeValueIsMap(s);
    if s != [] {
      EscapeValueIsMap(s[1..]);
      EscapeUnbroken(s[1..]);
    }
  }

  lemma NewLineUnbroken(key: string, value: string)
    requires '\n' !in key && '\n' !in value
    ensures '\n' !in NewLine(key, value)
  {
    EscapeUnbroken(value);
  }

  // ----- Through the file: lines with line breaks in them -----

  /** A line as the file's own lines, before carriage returns are dropped. */
  function Pieces(s: string): (ps: seq<string>)
    ensures ps != [] && Unbroken(ps)
  {
    var n := BreakAt(s);
    if n == |s| then assert s[..n] == s; [s] else [s[..n]] + Pieces(s[n + 1..])
  }

  function Flat(ls: seq<string>): (ps: seq<string>)
    ensures Unbroken(ps)
  {
    if ls == [] then [] else Pieces(ls[0]) + Flat(ls[1..])
  }

  lemma {:induction false} UnlinesAppend(a: seq<string>, b: seq<string>)
    ensures Unlines(a + b) == Unlines(a) + Unlines(b)
  {
    if a == [] {
      assert a + b == b;
    } else {
      assert (a + b)[1..] == a[1..] + b;
      UnlinesAppend(a[1..], b);
    }
  }

  lemma {:induction false} UnlinesPieces(s: string)
    ensures Unlines(Pieces(s)) == s + "\n"
  {
    hide Chop;
    var n := BreakAt(s);
    if n == |s| {
      UnlinesOne(s);
    } else {
      var head, tail := s[..n], s[n + 1..];
      UnlinesPieces(tail);
      UnlinesAppend([head], Pieces(tail));
      UnlinesOne(head);
      hide Unlines, Pieces;
      assert s == head + "\n" + tail;
    }
  }

  lemma UnlinesOne(l: string)
    ensures Unlines([l]) == l + "\n"
  {
    assert [l][1..] == [];
    assert l + "\n" + [] == l + "\n";
  }

  lemma {:induction false} UnlinesFlat(ls: seq<string>)
    ensures Unlines(Flat(ls)) == Unlines(ls)
  {
    if ls != [] {
      UnlinesAppend(Pieces(ls[0]), Flat(ls[1..]));
      UnlinesPieces(ls[0]);
      UnlinesFlat(ls[1..]);
    }
  }

  lemma {:induction false} FlatAppend(a: seq<string>, b: seq<string>)
    ensures Flat(a + b) == Flat(a) + Flat(b)
  {
    if a == [] {
      assert a + b == b;
    } else {
      assert (a + b)[1..] == a[1..] + b;
      FlatAppend(a[1..], b);
    }
  }

  lemma {:induction false} FlatUnbroken(ls: seq<string>)
    requires Unbroken(ls)
    ensures Flat(ls) == ls
  {
    if ls != [] {
      NoBreak(ls[0]);
      FlatUnbroken(ls[1..]);
    }
  }

  lemma NoBreak(s: string)
    requires '\n' !in s
    ensures Pieces(s) == [s]
  {
    assert forall i :: 0 <= i < |s| ==> s[i] != '\n';
  }

  /** What a written file reads back as, and when two written files are the same. */
  lemma FileLines(ls: seq<string>)
    ensures Lines(Unlines(ls)) == Chopped(Flat(ls))
  {
    UnlinesFlat(ls);
    LinesOfUnlines(Flat(ls));
  }

  lemma SameFile(a: seq<string>, b: seq<string>)
    ensures Unlines(a) == Unlines(b) <==> Flat(a) == Flat(b)
  {
    UnlinesFlat(a);
    UnlinesFlat(b);
    if Unlines(a) == Unlines(b) {
      UnlinesInjective(Flat(a), Flat(b));
    }
  }

  /** Lines of a written value, after its first, that do not look like the variable again. */
  function Leftover(key: string, value: string): seq<string> {
    Filter(Pieces(NewLine(key, value))[1..], l => !Sets(l, key))
  }

  function Others(ls: seq<string>, key: string): seq<string> {
    Filter(ls, l => !Sets(l, key))
  }

  lemma {:induction false} UpsertedFound(ls: seq<string>, key: string, value: string)
    ensures Upserted(ls, key, value, true) == Others(ls, key)
  {
    if ls != [] {
      UpsertedFound(ls[1..], key, value);
    }
  }

  lemma {:induction false} FilterUnbroken(ls: seq<string>, keep: string -> bool)
    requires Unbroken(ls)
    ensures Unbroken(Filter(ls, keep))
  {
    if ls != [] {
      FilterUnbroken(ls[1..], keep);
    }
  }

  /** The first line of a written variable begins with its key. */
  lemma FirstPiece(key: string, value: string)
    requires '\n' !in key
    ensures Sets(Pieces(NewLine(key, value))[0], key)
  {
    var l := NewLine(key, value);
    assert l[..|key| + 1] == key + "=";
    assert forall i :: 0 <= i <= |key| ==> l[i] == (key + "=")[i] && l[i] != '\n';
    var n := BreakAt(l);
    assert n > |key|;
    assert l[..n][..|key| + 1] == key + "=";
  }

  /** The variable's own lines, once written, at the second write. */
  lemma OwnLines(key: string, value: string, rest: seq<string>)
    requires '\n' !in key
    ensures Upserted(Pieces(NewLine(key, value)) + rest, key, value, false)
         == [NewLine(key, value)] + (Leftover(key, value) + Others(rest, key))
  {
    hide Pieces, NewLine, Sets, Filter;
    var ps := Pieces(NewLine(key, value));
    FirstPiece(key, value);
    assert (ps + rest)[0] == ps[0] && (ps + rest)[1..] == ps[1..] + rest;
    UpsertedFound(ps[1..] + rest, key, value);
    FilterAppend(ps[1..], rest, l => !Sets(l, key));
  }

  lemma {:induction false} FilterKept(ls: seq<string>, keep: string -> bool)
    ensures Filter(Filter(ls, keep), keep) == Filter(ls, keep)
  {
    if ls != [] {
      FilterKept(ls[1..], keep);
      FilterAppend(if keep(ls[0]) then [ls[0]] else [], Filter(ls[1..], keep), keep);
    }
  }

  /** The lines before, in and after the written variable. */
  datatype Parts = Parts(before: seq<string>, after: seq<string>)

  function Around(ls: seq<string>, key: string): Parts {
    if ls == [] then Parts([], [])
    else if Sets(ls[0], key) then Parts([], Others(ls[1..], key))
    else Parts([ls[0]] + Around(ls[1..], key).before, Around(ls[1..], key).after)
  }

  lemma {:induction false} UpsertedParts(ls: seq<string>, key: string, value: string)
    requires Unbroken(ls)
    ensures var ps := Around(ls, key);
            && Upserted(ls, key, value, false) == ps.before + ([NewLine(key, value)] + ps.after)
            && Others(ls, key) == ps.before + ps.after
            && Unbroken(ps.before) && Unbroken(ps.after)
            && (forall l :: l in ps.before ==> !Sets(l, key)) && Others(ps.after, key) == ps.after
    decreases |ls|
  {
    if ls == [] {
    } else if Sets(ls[0], key) {
      UpsertedFound(ls[1..], key, value);
      FilterUnbroken(ls[1..], l => !Sets(l, key));
      FilterKept(ls[1..], l => !Sets(l, key));
    } else {
      UpsertedParts(ls[1..], key, value);
    }
  }

  lemma {:induction false} UpsertedBehind(before: seq<string>, rest: seq<string>, key: string, value: string)
    requires forall l :: l in before ==> !Sets(l, key)
    ensures Upserted(before + rest, key, value, false) == before + Upserted(rest, key, value, false)
  {
    if before == [] {
      assert before + rest == rest;
    } else {
      assert (before + rest)[0] == before[0] && (before + rest)[1..] == before[1..] + rest;
      UpsertedBehind(before[1..], rest, key, value);
    }
  }

  /** The file's own lines after one write, and after another. */
  lemma TwiceParts(ls: seq<string>, key: string, value: string)
    requires Unbroken(ls) && '\n' !in key
    ensures var ps, once := Around(ls, key), Upserted(ls, key, value, false);
            var twice := Upserted(Lines(Unlines(once)), key, value, false);
            && Flat(once) == ps.before + (Pieces(NewLine(key, value)) + ps.after)
            && Flat(twice) == Chopped(ps.before) + (Pieces(NewLine(key, value)) + (Chopped(Leftover(key, value)) + Chopped(ps.after)))
  {
    hide Upserted, Flat, Pieces, Filter, NewLine, Lines, Unlines, Sets, Around, EscapeValue;
    var ps, n := Around(ls, key), NewLine(key, value);
    var once := Upserted(ls, key, value, false);
    UpsertedParts(ls, key, value);
    FlatAppend(ps.before, [n] + ps.after);
    FlatAppend([n], ps.after);
    FlatUnbroken(ps.before);
    FlatUnbroken(ps.after);
    FlatOne(n);
    FileLines(once);
    UpsertChopped(Flat(once), key, value, false);
    UpsertedBehind(ps.before, Pieces(n) + ps.after, key, value);
    OwnLines(key, value, ps.after);
    var rest := Leftover(key, value) + ps.after;
    ChoppedAppend(ps.before, [n] + rest);
    ChoppedAppend([n], rest);
    ChoppedAppend(Leftover(key, value), ps.after);
    QuotedChops(key, value);
    var cb, cr := Chopped(ps.before), Chopped(Leftover(key, value)) + Chopped(ps.after);
    FlatAppend(cb, [n] + cr);
    FlatAppend([n], cr);
    FilterUnbroken(Pieces(n)[1..], l => !Sets(l, key));
    FlatUnbroken(cb);
    FlatUnbroken(cr);
  }

  lemma FlatOne(l: string)
    ensures Flat([l]) == Pieces(l)
  {
    assert Pieces(l) + [] == Pieces(l);
  }

  /** A written value ends in a quote. */
  lemma QuotedChops(key: string, value: string)
    ensures Chopped([NewLine(key, value)]) == [NewLine(key, value)] && Chop(QuotedValue(value)) == QuotedValue(value)
  {
  }

  /**
   Writing the same variable twice, with any value, leaves the file as writing it once did exactly
   when no other line ends in a carriage return, of which every rewrite takes one away, and
   every line of the written value after its first begins with the key again.
   */
  lemma UpsertTwice(text: string, key: string, value: string)
    requires '\n' !in key
    ensures var once := Upserted(Lines(text), key, value, false);
            var twice := Upserted(Lines(Unlines(once)), key, value, false);
            Unlines(twice) == Unlines(once) <==> Tidy(Others(Lines(text), key)) && Leftover(key, value) == []
  {
    hide Upserted, Flat, Pieces, Leftover, Others, Around;
    var ls := Lines(text);
    var once := Upserted(ls, key, value, false);
    var twice := Upserted(Lines(Unlines(once)), key, value, false);
    LinesUnbroken(text);
    UpsertedParts(ls, key, value);
    TwiceParts(ls, key, value);
    SameFile(twice, once);
    var ps, mine, left := Around(ls, key), Pieces(NewLine(key, value)), Leftover(key, value);
    SamePieces(ps.before, mine, left, ps.after);
  }

  lemma SamePieces(before: seq<string>, mine: seq<string>, left: seq<string>, after: seq<string>)
    ensures Chopped(before) + (mine + (Chopped(left) + Chopped(after))) == before + (mine + after)
       <==> Tidy(before + after) && left == []
  {
    hide Chopped, Tidy;
    var cb, cl, ca := Chopped(before), Chopped(left), Chopped(after);
    TidyIsChopped(before + after);
    ChoppedAppend(before, after);
    SplitAt(cb, ca, before, after);
    if cb + (mine + (cl + ca)) == before + (mine + after) {
      SplitAt(cb, mine + (cl + ca), before, mine + after);
      SplitAt(mine, cl + ca, mine, after);
      assert |cl + ca| == |cl| + |ca|;
      assert cl == [];
      assert [] + ca == ca;
    }
    if cb == before && ca == after && left == [] {
      assert [] + ca == ca && cl == [];
    }
  }

  lemma SplitAt(a: seq<string>, b: seq<string>, c: seq<string>, d: seq<string>)
    requires |a| == |c|
    ensures a + b == c + d <==> a == c && b == d
  {
    if a + b == c + d {
      assert (a + b)[..|a|] == a && (c + d)[..|a|] == c;
      assert (a + b)[|a|..] == b && (c + d)[|a|..] == d;
    }
  }

  /** Every further write adds the leftover lines once more. */
  lemma RewriteGrows(text: string, key: string, value: string)
    requires '\n' !in key
    ensures var once := Upserted(Lines(text), key, value, false);
            var twice := Upserted(Lines(Unlines(once)), key, value, false);
            |Lines(Unlines(twice))| == |Lines(Unlines(once))| + |Leftover(key, value)|
  {
    hide Upserted, Flat, Pieces, Leftover, Around;
    var once := Upserted(Lines(text), key, value, false);
    LinesUnbroken(text);
    TwiceParts(Lines(text), key, value);
    FileLines(once);
    FileLines(Upserted(Lines(Unlines(once)), key, value, false));
  }

  /** A value without line breaks leaves nothing over. */
  lemma PlainLeavesNothing(key: string, value: string)
    requires '\n' !in key && '\n' !in value
    ensures Leftover(key, value) == []
  {
    NewLineUnbroken(key, value);
    NoBreak(NewLine(key, value));
    assert [NewLine(key, value)][1..] == [];
  }

  lemma TidyIsChopped(ls: seq<string>)
    ensures Tidy(ls) <==> Chopped(ls) == ls
  {
  }

  /** A value whose second half is left over, and one whose every line looks like the variable again. */
  lemma BrokenValues()
    ensures Leftover("K", "a\nb") == ["b\""]
    ensures Leftover("K", "\nK=") == []
  {
    BrokenLines();
    assert Sets("K=\"", "K") && !Sets("b\"", "K") by {
      assert "K=\""[..2] == "K=" && "b\""[0] == 'b';
    }
    hide NewLine, Sets;
    SecondPiece("K", "a\nb", "K=\"a", "b\"");
    SecondPiece("K", "\nK=", "K=\"", "K=\"");
  }

  lemma SecondPiece(key: string, value: string, a: string, b: string)
    requires NewLine(key, value) == a + "\n" + b && '\n' !in a && '\n' !in b
    ensures Leftover(key, value) == if Sets(b, key) then [] else [b]
  {
    hide NewLine, Sets;
    TwoPieces(a, b);
    assert Pieces(NewLine(key, value))[1..] == [b];
    FilterOne(b, l => !Sets(l, key));
  }

  lemma FilterOne(l: string, keep: string -> bool)
    ensures Filter([l], keep) == if keep(l) then [l] else []
  {
    assert [l][1..] == [];
  }

  lemma BrokenLines()
    ensures NewLine("K", "a\nb") == "K=\"a" + "\n" + "b\"" && NewLine("K", "\nK=") == "K=\"" + "\n" + "K=\""
  {
    EscapeValueIsMap("a\nb");
    assert "a\nb"[1..] == "\nb" && "\nb"[1..] == "b" && "b"[1..] == "";
    assert EachChar("b", ValueChar) == "b" && EachChar("\nb", ValueChar) == "\nb";
    EscapeValueIsMap("\nK=");
    assert "\nK="[1..] == "K=" && "K="[1..] == "=" && "="[1..] == "";
    assert EachChar("=", ValueChar) == "=" && EachChar("K=", ValueChar) == "K=";
  }

  lemma TwoPieces(a: string, b: string)
    requires '\n' !in a && '\n' !in b
    ensures Pieces(a + "\n" + b) == [a, b]
  {
    var s := a + "\n" + b;
    BreakAfter(a, b);
    assert s[..|a|] == a && s[|a| + 1..] == b;
    NoBreak(b);
  }

  // ----- Several variables: the loader's map -----

  function AfterEquals(l: string): string
    requires EqualsAt(l) < |l|
  {
    l[EqualsAt(l) + 1..]
  }

  /** What a loader that trims keys finds for `key`: the text after `=` on its first line. */
  function RawOf(space: char -> bool, ls: seq<string>, key: string): Option<string> {
    if ls == [] then None
    else if KeyOf(space, ls[0]) == Some(key) then Some(AfterEquals(ls[0]))
    else RawOf(space, ls[1..], key)
  }

  function QuotedValue(v: string): string {
    "\"" + EscapeValue(v) + "\""
  }

  ghost predicate PlainKey(space: char -> bool, key: string) {
    '=' !in key && '\n' !in key && TrimSpace(space, key) == key
  }

  ghost predicate PlainVars(space: char -> bool, vars: seq<Var>) {
    && (forall i :: 0 <= i < |vars| ==> PlainKey(space, vars[i].key))
    && (forall i, j :: 0 <= i < j < |vars| ==> vars[i].key != vars[j].key)
  }

  lemma {:induction false} EqualsAfter(key: string, rest: string)
    requires '=' !in key
    ensures EqualsAt(key + "=" + rest) == |key|
  {
    var l := key + "=" + rest;
    if key == [] {
      assert l[0] == '=';
    } else {
      assert l[1..] == key[1..] + "=" + rest;
      EqualsAfter(key[1..], rest);
    }
  }

  lemma NewLineReads(space: char -> bool, key: string, v: string)
    requires PlainKey(space, key)
    ensures EqualsAt(NewLine(key, v)) < |NewLine(key, v)|
    ensures KeyOf(space, NewLine(key, v)) == Some(key) && AfterEquals(NewLine(key, v)) == QuotedValue(v)
  {
    var l := key + "=" + QuotedValue(v);
    assert NewLine(key, v) == l;
    EqualsAfter(key, QuotedValue(v));
    assert l[..|key|] == key && l[|key| + 1..] == QuotedValue(v);
  }

  lemma {:induction false} NewLinesRead(space: char -> bool, vars: seq<Var>, key: string)
    requires PlainVars(space, vars)
    ensures Written(vars, Some(key)) ==>
              exists i :: 0 <= i < |vars| && vars[i].key == key && RawOf(space, NewLines(vars), key) == Some(QuotedValue(vars[i].value))
    ensures !Written(vars, Some(key)) ==> RawOf(space, NewLines(vars), key) == None
  {
    if vars != [] {
      NewLineReads(space, vars[0].key, vars[0].value);
      NewLinesRead(space, vars[1..], key);
      assert NewLines(vars)[1..] == NewLines(vars[1..]);
      assert forall i :: 0 <= i < |vars[1..]| ==> vars[1..][i] == vars[i + 1];
      if vars[0].key == key {
        assert RawOf(space, NewLines(vars), key) == Some(QuotedValue(vars[0].value));
      } else if Written(vars, Some(key)) {
        assert Written(vars[1..], Some(key));
      }
    }
  }

  /** The batched edit is a map update: written keys get their values, every other key keeps what it had. */
  lemma {:induction false} BatchIsMapUpdate(space: char -> bool, ls: seq<string>, vars: seq<Var>, key: string)
    requires PlainVars(space, vars)
    ensures Written(vars, Some(key)) ==>
              exists i :: 0 <= i < |vars| && vars[i].key == key
                          && RawOf(space, Batched(space, ls, vars), key) == Some(QuotedValue(vars[i].value))
    ensures !Written(vars, Some(key)) ==> RawOf(space, Batched(space, ls, vars), key) == RawOf(space, ls, key)
  {
    if ls == [] {
      NewLinesRead(space, vars, key);
    } else {
      var rest := Batched(space, ls[1..], vars);
      BatchIsMapUpdate(space, ls[1..], vars, key);
      if Overwritten(space, ls[0], vars) {
        assert [] + rest == rest;
      } else {
        assert ([ls[0]] + rest)[1..] == rest;
      }
    }
  }

  /** And a loader that reads quoted values gets back exactly what was written. */
  lemma WrittenValueReadsBack(v: string)
    ensures ScanQuoted(QuotedValue(v)[1..]) == Some(Scan(v, []))
  {
    QuotedReadsBack(v, []);
    assert QuotedValue(v)[1..] == EscapeValue(v) + "\"" + [];
  }

  lemma {:induction false} NewLinesOwned(space: char -> bool, vars: seq<Var>, i: nat)
    requires PlainVars(space, vars) && i < |vars|
    ensures Filter(NewLines(vars), l => KeyOf(space, l) == Some(vars[i].key)) == [NewLine(vars[i].key, vars[i].value)]
  {
    hide NewLine, KeyOf;
    var tail := vars[1..];
    assert NewLines(vars)[1..] == NewLines(tail);
    NewLineReads(space, vars[0].key, vars[0].value);
    assert forall k :: 0 <= k < |tail| ==> tail[k] == vars[k + 1];
    if i == 0 {
      NewLinesForeign(space, tail, vars[0].key);
    } else {
      NewLinesOwned(space, tail, i - 1);
    }
  }

  lemma {:induction false} NewLinesForeign(space: char -> bool, vars: seq<Var>, key: string)
    requires PlainVars(space, vars) && !Written(vars, Some(key))
    ensures Filter(NewLines(vars), l => KeyOf(space, l) == Some(key)) == []
  {
    if vars != [] {
      assert NewLines(vars)[1..] == NewLines(vars[1..]);
      NewLineReads(space, vars[0].key, vars[0].value);
      assert forall k :: 0 <= k < |vars[1..]| ==> vars[1..][k] == vars[k + 1];
      NewLinesForeign(space, vars[1..], key);
    }
  }

  /** Each written key is on exactly one line, whatever variants of it the file held. */
  lemma {:induction false} BatchOneLineEach(space: char -> bool, ls: seq<string>, vars: seq<Var>, i: nat)
    requires PlainVars(space, vars) && i < |vars|
    ensures Filter(Batched(space, ls, vars), l => KeyOf(space, l) == Some(vars[i].key)) == [NewLine(vars[i].key, vars[i].value)]
  {
    if ls == [] {
      NewLinesOwned(space, vars, i);
    } else {
      BatchOneLineEach(space, ls[1..], vars, i);
      var rest := Batched(space, ls[1..], vars);
      if Overwritten(space, ls[0], vars) {
        assert [] + rest == rest;
      } else {
        assert KeyOf(space, ls[0]) != Some(vars[i].key);
        assert ([ls[0]] + rest)[1..] == rest;
      }
    }
  }

  ghost function Kept(space: char -> bool, ls: seq<string>, vars: seq<Var>): seq<string> {
    if ls == [] then [] else (if Overwritten(space, ls[0], vars) then [] else [ls[0]]) + Kept(space, ls[1..], vars)
  }

  lemma {:induction false} BatchShape(space: char -> bool, ls: seq<string>, vars: seq<Var>)
    ensures Batched(space, ls, vars) == Kept(space, ls, vars) + NewLines(vars)
  {
    if ls == [] {
      assert [] + NewLines(vars) == NewLines(vars);
    } else {
      BatchShape(space, ls[1..], vars);
    }
  }

  // ----- The batch through the file -----

  lemma {:induction false} KeptAppend(space: char -> bool, a: seq<string>, b: seq<string>, vars: seq<Var>)
    ensures Kept(space, a + b, vars) == Kept(space, a, vars) + Kept(space, b, vars)
  {
    if a == [] {
      assert a + b == b;
    } else {
      assert (a + b)[1..] == a[1..] + b;
      KeptAppend(space, a[1..], b, vars);
    }
  }

  lemma ChopEquals(l: string)
    ensures EqualsAt(l) < |l| <==> EqualsAt(Chop(l)) < |Chop(l)|
    ensures EqualsAt(l) < |l| ==> EqualsAt(Chop(l)) == EqualsAt(l) && AfterEquals(Chop(l)) == Chop(AfterEquals(l))
  {
    var n, chopped := EqualsAt(l), Chop(l);
    hide EqualsAt;
    assert chopped == l[..|chopped|];
    if n < |l| {
      assert n < |chopped| && chopped[..n] == l[..n];
      EqualsPlace(chopped, n);
      assert chopped[n + 1..] == Chop(l[n + 1..]);
    } else {
      assert l[..n] == l && chopped[..|chopped|] == chopped;
      EqualsPlace(chopped, |chopped|);
    }
  }

  lemma {:induction false} EqualsPlace(l: string, n: nat)
    requires n <= |l| && '=' !in l[..n] && (n < |l| ==> l[n] == '=')
    ensures EqualsAt(l) == n
  {
    if l != [] && n > 0 {
      assert l[..n][0] == l[0] && l[..n][0] in l[..n];
      assert l[1..][..n - 1] == l[..n][1..];
      EqualsPlace(l[1..], n - 1);
    }
  }

  lemma ChopKey(space: char -> bool, l: string)
    ensures KeyOf(space, Chop(l)) == KeyOf(space, l)
  {
    ChopEquals(l);
    var n := EqualsAt(l);
    if n < |l| {
      assert Chop(l)[..n] == l[..n];
    }
  }

  lemma {:induction false} KeptChopped(space: char -> bool, ls: seq<string>, vars: seq<Var>)
    ensures Kept(space, Chopped(ls), vars) == Chopped(Kept(space, ls, vars))
  {
    if ls != [] {
      ChopKey(space, ls[0]);
      KeptChopped(space, ls[1..], vars);
      assert Chopped(ls)[1..] == Chopped(ls[1..]);
      ChoppedAppend(if Overwritten(space, ls[0], vars) then [] else [ls[0]], Kept(space, ls[1..], vars));
    }
  }

  lemma {:induction false} KeptTwice(space: char -> bool, ls: seq<string>, vars: seq<Var>)
    ensures Kept(space, Kept(space, ls, vars), vars) == Kept(space, ls, vars)
    ensures forall l :: l in Kept(space, ls, vars) ==> l in ls
  {
    if ls != [] {
      KeptTwice(space, ls[1..], vars);
      KeptAppend(space, if Overwritten(space, ls[0], vars) then [] else [ls[0]], Kept(space, ls[1..], vars), vars);
      KeptOne(space, ls[0], vars);
    }
  }

  lemma KeptOne(space: char -> bool, l: string, vars: seq<Var>)
    ensures Kept(space, [l], vars) == if Overwritten(space, l, vars) then [] else [l]
  {
    assert [l][1..] == [];
  }

  lemma KeptUnbroken(space: char -> bool, ls: seq<string>, vars: seq<Var>)
    requires Unbroken(ls)
    ensures Unbroken(Kept(space, ls, vars))
  {
    KeptTwice(space, ls, vars);
    var ks := Kept(space, ls, vars);
    assert forall i :: 0 <= i < |ks| ==> ks[i] in ls;
  }

  /** The file after a batch: the other lines, each less a carriage return, then the lines of the written values. */
  lemma BatchFile(space: char -> bool, text: string, vars: seq<Var>)
    ensures Flat(Batched(space, Lines(text), vars)) == Kept(space, Lines(text), vars) + Flat(NewLines(vars))
    ensures Lines(Unlines(Batched(space, Lines(text), vars)))
         == Chopped(Kept(space, Lines(text), vars)) + Chopped(Flat(NewLines(vars)))
  {
    var ks := Kept(space, Lines(text), vars);
    LinesUnbroken(text);
    KeptUnbroken(space, Lines(text), vars);
    BatchShape(space, Lines(text), vars);
    FlatAppend(ks, NewLines(vars));
    FlatUnbroken(ks);
    FileLines(Batched(space, Lines(text), vars));
    ChoppedAppend(ks, Flat(NewLines(vars)));
  }

  /** Lines of the written values that a second batch would not take for its own. */
  ghost function BatchLeftover(space: char -> bool, vars: seq<Var>): seq<string> {
    Kept(space, Flat(NewLines(vars)), vars)
  }

  /**
   A second call of the batched edit leaves the file as the first did exactly when no other line
   ends in a carriage return and no value leaves a line over.
   */
  lemma BatchTwice(space: char -> bool, text: string, vars: seq<Var>)
    ensures var once := Batched(space, Lines(text), vars);
            var twice := Batched(space, Lines(Unlines(once)), vars);
            Unlines(twice) == Unlines(once) <==> Tidy(Kept(space, Lines(text), vars)) && BatchLeftover(space, vars) == []
  {
    hide Batched, Kept, Flat, Lines, Unlines, Chopped, NewLines;
    var once, news := Batched(space, Lines(text), vars), Flat(NewLines(vars));
    var twice := Batched(space, Lines(Unlines(once)), vars);
    var ks, left := Kept(space, Lines(text), vars), BatchLeftover(space, vars);
    BatchFile(space, text, vars);
    BatchFile(space, Unlines(once), vars);
    KeptAppend(space, Chopped(ks), Chopped(news), vars);
    KeptChopped(space, ks, vars);
    KeptChopped(space, news, vars);
    KeptTwice(space, Lines(text), vars);
    SameFile(twice, once);
    SameEnds(ks, left, news);
  }

  /** A line that ends in two carriage returns loses one at the first write and one at the second. */
  lemma CarriageReturnsGo(space: char -> bool, v: string)
    ensures var once := Upserted(Lines("c\r\r\n"), "K", v, false);
            Unlines(Upserted(Lines(Unlines(once)), "K", v, false)) != Unlines(once)
    ensures var vars := [Var("K", v)];
            var once := Batched(space, Lines("c\r\r\n"), vars);
            Unlines(Batched(space, Lines(Unlines(once)), vars)) != Unlines(once)
  {
    var text, l, vars := "c\r\r\n", "c\r", [Var("K", v)];
    BreakAfter("c\r\r", "");
    assert "c\r\r" + "\n" + "" == text;
    assert text[..3] == "c\r\r" && text[4..] == "" && "c\r\r"[..2] == l;
    assert Lines(text) == [l];
    assert !Tidy([l]) by {
      assert Chop([l][0]) == "c";
    }
    UpsertTwice(text, "K", v);
    BatchTwice(space, text, vars);
    hide Upserted, Batched, Unlines, Tidy, Leftover;
    FilterOne(l, x => !Sets(x, "K"));
    EqualsPlace(l, 2);
    KeptOne(space, l, vars);
  }

  lemma SameEnds(ks: seq<string>, left: seq<string>, news: seq<string>)
    ensures Chopped(ks) + Chopped(left) + news == ks + news <==> Tidy(ks) && left == []
  {
    hide Chopped, Tidy;
    var ck, cl := Chopped(ks), Chopped(left);
    TidyIsChopped(ks);
    assert ck + cl + news == ck + (cl + news);
    SplitAt(ck, cl + news, ks, news);
    if ck + (cl + news) == ks + news {
      assert |cl + news| == |cl| + |news|;
      assert cl == [];
    }
    if left == [] {
      assert cl == [] && [] + news == news;
    }
  }

  lemma {:induction false} NewLinesUnbroken(space: char -> bool, vars: seq<Var>)
    requires PlainVars(space, vars) && forall i :: 0 <= i < |vars| ==> '\n' !in vars[i].value
    ensures Unbroken(NewLines(vars))
  {
    if vars != [] {
      NewLineUnbroken(vars[0].key, vars[0].value);
      assert forall i :: 0 <= i < |vars[1..]| ==> vars[1..][i] == vars[i + 1];
      NewLinesUnbroken(space, vars[1..]);
    }
  }

  function ChopFound(v: Option<string>): Option<string> {
    match v case None => None case Some(l) => Some(Chop(l))
  }

  lemma {:induction false} RawChopped(space: char -> bool, ls: seq<string>, key: string)
    ensures RawOf(space, Chopped(ls), key) == ChopFound(RawOf(space, ls, key))
  {
    if ls != [] {
      ChopKey(space, ls[0]);
      ChopEquals(ls[0]);
      assert Chopped(ls)[1..] == Chopped(ls[1..]);
      RawChopped(space, ls[1..], key);
    }
  }

  /**
   In the file the batched edit is a map update: a loader finds the new values of the written keys,
   and of every other key what it found before, less a carriage return at its end.
   */
  lemma BatchUpdatesFile(space: char -> bool, text: string, vars: seq<Var>, key: string)
    requires PlainVars(space, vars) && forall i :: 0 <= i < |vars| ==> '\n' !in vars[i].value
    ensures var after := Lines(Unlines(Batched(space, Lines(text), vars)));
            && (Written(vars, Some(key)) ==>
                  exists i :: 0 <= i < |vars| && vars[i].key == key && RawOf(space, after, key) == Some(QuotedValue(vars[i].value)))
            && (!Written(vars, Some(key)) ==> RawOf(space, after, key) == ChopFound(RawOf(space, Lines(text), key)))
  {
    hide Batched, Kept, Lines, Unlines, RawOf, NewLines, PlainKey, QuotedValue;
    var once := Batched(space, Lines(text), vars);
    LinesUnbroken(text);
    KeptUnbroken(space, Lines(text), vars);
    NewLinesUnbroken(space, vars);
    FlatUnbroken(NewLines(vars));
    BatchFile(space, text, vars);
    BatchShape(space, Lines(text), vars);
    ChoppedAppend(Kept(space, Lines(text), vars), NewLines(vars));
    RawChopped(space, once, key);
    BatchIsMapUpdate(space, Lines(text), vars, key);
    if Written(vars, Some(key)) {
      var i :| 0 <= i < |vars| && vars[i].key == key && RawOf(space, once, key) == Some(QuotedValue(vars[i].value));
      QuotedChops(key, vars[i].value);
    }
  }

  // ----- Rolling a write back -----

  lemma SetsOwns(space: char -> bool, l: string, key: string)
    requires PlainKey(space, key) && Sets(l, key)
    ensures KeyOf(space, l) == Some(key)
  {
    var rest := l[|key| + 1..];
    assert l == key + "=" + rest;
    EqualsAfter(key, rest);
    assert l[..|key|] == key;
  }

  lemma {:induction false} NothingOwned(space: char -> bool, ls: seq<string>, key: string, v: string)
    requires PlainKey(space, key) && RawOf(space, ls, key) == None
    ensures Batched(space, ls, [Var(key, v)]) == ls + [NewLine(key, v)]
    ensures Removed(ls + [NewLine(key, v)], key) == ls
  {
    var vars := [Var(key, v)];
    NewLineSets(key, v);
    if ls == [] {
      assert NewLines(vars[1..]) == [];
      assert ls + [NewLine(key, v)] == [NewLine(key, v)];
      assert [NewLine(key, v)][1..] == [];
      assert Filter([NewLine(key, v)], l => !Sets(l, key)) == [];
    } else {
      NothingOwned(space, ls[1..], key, v);
      assert !Overwritten(space, ls[0], vars);
      if Sets(ls[0], key) {
        SetsOwns(space, ls[0], key);
        assert false;
      }
      assert (ls + [NewLine(key, v)])[1..] == ls[1..] + [NewLine(key, v)];
    }
  }

  /**
   Writing a key that was absent and removing it again gives back the original lines,
   exactly when none of them ends in a carriage return.
   */
  lemma RollbackRestores(space: char -> bool, text: string, key: string, v: string)
    requires PlainKey(space, key) && '\n' !in v && RawOf(space, Lines(text), key) == None
    ensures var written := Unlines(Batched(space, Lines(text), [Var(key, v)]));
            var restored := Removed(Lines(written), key);
            && restored == Chopped(Lines(text))
            && (restored == Lines(text) <==> Tidy(Lines(text)))
  {
    var ls, added := Lines(text), [NewLine(key, v)];
    NothingOwned(space, ls, key, v);
    LinesUnbroken(text);
    NewLineUnbroken(key, v);
    LinesOfUnlines(ls + added);
    ChoppedAppend(ls, added);
    assert Chopped(added) == added;
    forall i | 0 <= i < |ls| ensures Sets(Chopped(ls)[i], key) == Sets(ls[i], key) {
      ChopSets(ls[i], key);
    }
    NothingSets(space, ls, key);
    FilterAppend(Chopped(ls), added, l => !Sets(l, key));
    FilterAll(Chopped(ls), l => !Sets(l, key));
    NewLineSets(key, v);
    assert Filter(added, l => !Sets(l, key)) == [];
  }

  lemma {:induction false} NothingSets(space: char -> bool, ls: seq<string>, key: string)
    requires PlainKey(space, key) && RawOf(space, ls, key) == None
    ensures forall i :: 0 <= i < |ls| ==> !Sets(ls[i], key)
  {
    if ls != [] {
      if Sets(ls[0], key) {
        SetsOwns(space, ls[0], key);
        assert false;
      }
      NothingSets(space, ls[1..], key);
    }
  }

  /**
   The single-variable edit looks for the bare prefix, not the trimmed key. A loader sees its
   value exactly when the first line for that key, if there is one, begins with the prefix or
   happens to hold that value already.
   */
  lemma {:induction false} UpsertSeen(space: char -> bool, ls: seq<string>, key: string, v: string)
    requires PlainKey(space, key)
    ensures var first := FirstOwned(space, ls, key);
            RawOf(space, Upserted(ls, key, v, false), key) == Some(QuotedValue(v)) <==>
            first.None? || Sets(first.value, key) || AfterEquals(first.value) == QuotedValue(v)
  {
    NewLineReads(space, key, v);
    if ls == [] {
      assert [NewLine(key, v)][0] == NewLine(key, v);
    } else if Sets(ls[0], key) {
      SetsOwns(space, ls[0], key);
      assert Upserted(ls, key, v, false)[0] == NewLine(key, v);
    } else if KeyOf(space, ls[0]) == Some(key) {
      assert Upserted(ls, key, v, false)[0] == ls[0];
    } else {
      UpsertSeen(space, ls[1..], key, v);
      assert Upserted(ls, key, v, false)[1..] == Upserted(ls[1..], key, v, false);
    }
  }

  /** So after `KEY =x` a value set for `KEY` is never seen. */
  lemma VariantHides(space: char -> bool, v: string)
    requires space(' ') && !space('K')
    ensures RawOf(space, Upserted(Lines("K =x\n"), "K", v, false), "K") == Some("x")
  {
    var l := "K =x";
    NoBreak(l);
    BreakAfter(l, "");
    assert l + "\n" + "" == "K =x\n";
    assert "K =x\n"[..4] == l && "K =x\n"[5..] == "";
    assert Lines("K =x\n") == [l];
    EqualsAfter("K ", "x");
    assert "K " + "=" + "x" == l && l[..2] == "K " && l[3..] == "x";
    assert "K "[..1] == "K" && TrimSpace(space, "K ") == "K";
    assert l[..2] != "K=" by {
      assert l[1] == ' ';
    }
    assert Upserted([l], "K", v, false) == [l] + Upserted([l][1..], "K", v, false);
  }

  /** The first line a loader takes for the key. */
  function FirstOwned(space: char -> bool, ls: seq<string>, key: string): (first: Option<string>)
    ensures first.Some? ==> KeyOf(space, first.value) == Some(key)
  {
    if ls == [] then None
    else if KeyOf(space, ls[0]) == Some(key) then Some(ls[0])
    else FirstOwned(space, ls[1..], key)
  }
}
