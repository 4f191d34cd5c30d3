/**
 The line editor for `~/.ironclaw/.env` in `src/bootstrap.rs`. The file is its text;
 `Lines` is `str::lines` and every edit writes its lines back with line breaks.
 */
module EnvFile {
  import opened Wrappers
  import opened Escaping

  // ----- Lines -----

  function BreakAt(s: string): (n: nat)
    ensures n <= |s| && '\n' !in s[..n]
    ensures n < |s| ==> s[n] == '\n'
  {
    if s == [] || s[0] == '\n' then 0 else
    var n := 1 + BreakAt(s[1..]);
    assert s[..n] == [s[0]] + s[1..][..n - 1];
    n
  }

  /** A carriage return just before a line break belongs to the break. */
  function Chop(l: string): string {
    if l != [] && l[|l| - 1] == '\r' then l[..|l| - 1] else l
  }

  function Lines(s: string): seq<string> {
    if s == [] then [] else
    var n := BreakAt(s);
    if n == |s| then [s] else [Chop(s[..n])] + Lines(s[n + 1..])
  }

  function Unlines(ls: seq<string>): string {
    if ls == [] then [] else ls[0] + "\n" + Unlines(ls[1..])
  }

  ghost predicate Unbroken(ls: seq<string>) {
    forall i :: 0 <= i < |ls| ==> '\n' !in ls[i]
  }

  /** No line ends in a carriage return. */
  predicate Tidy(ls: seq<string>) {
    forall i :: 0 <= i < |ls| ==> Chop(ls[i]) == ls[i]
  }

  function Chopped(ls: seq<string>): (cs: seq<string>)
    ensures |cs| == |ls| && forall i :: 0 <= i < |ls| ==> cs[i] == Chop(ls[i])
  {
    if ls == [] then [] else [Chop(ls[0])] + Chopped(ls[1..])
  }

  lemma {:induction false} LinesUnbroken(s: string)
    ensures Unbroken(Lines(s))
    decreases |s|
  {
    if s != [] {
      var n := BreakAt(s);
      if n == |s| {
        assert s[..n] == s;
      } else {
        LinesUnbroken(s[n + 1..]);
      }
    }
  }

  lemma {:induction false} BreakAfter(l: string, rest: string)
    requires '\n' !in l
    ensures BreakAt(l + "\n" + rest) == |l|
  {
    var s := l + "\n" + rest;
    if l == [] {
      assert s[0] == '\n';
    } else {
      assert s[1..] == l[1..] + "\n" + rest;
      BreakAfter(l[1..], rest);
    }
  }

  /** What comes back from a written file: each line, less a carriage return at its end. */
  lemma {:induction false} LinesOfUnlines(ls: seq<string>)
    requires Unbroken(ls)
    ensures Lines(Unlines(ls)) == Chopped(ls)
  {
    if ls != [] {
      var rest := Unlines(ls[1..]);
      BreakAfter(ls[0], rest);
      assert Unlines(ls)[..|ls[0]|] == ls[0] && Unlines(ls)[|ls[0]| + 1..] == rest;
      LinesOfUnlines(ls[1..]);
    }
  }

  lemma {:induction false} UnlinesInjective(a: seq<string>, b: seq<string>)
    requires Unbroken(a) && Unbroken(b) && Unlines(a) == Unlines(b)
    ensures a == b
  {
    if a != [] && b != [] {
      BreakAfter(a[0], Unlines(a[1..]));
      BreakAfter(b[0], Unlines(b[1..]));
      var s := Unlines(a);
      assert s[..|a[0]|] == a[0] && s[..|b[0]|] == b[0];
      assert s[|a[0]| + 1..] == Unlines(a[1..]) && s[|b[0]| + 1..] == Unlines(b[1..]);
      UnlinesInjective(a[1..], b[1..]);
    }
  }

  function Filter(ls: seq<string>, keep: string -> bool): seq<string> {
    if ls == [] then [] else (if keep(ls[0]) then [ls[0]] else []) + Filter(ls[1..], keep)
  }

  lemma {:induction false} FilterAppend(a: seq<string>, b: seq<string>, keep: string -> bool)
    ensures Filter(a + b, keep) == Filter(a, keep) + Filter(b, keep)
  {
    if a == [] {
      assert a + b == b;
    } else {
      assert (a + b)[1..] == a[1..] + b;
      FilterAppend(a[1..], b, keep);
    }
  }

  lemma {:induction false} FilterAll(ls: seq<string>, keep: string -> bool)
    requires forall i :: 0 <= i < |ls| ==> keep(ls[i])
    ensures Filter(ls, keep) == ls
  {
    if ls != [] {
      FilterAll(ls[1..], keep);
    }
  }

  // ----- One variable -----

  function NewLine(key: string, value: string): string {
    key + "=\"" + EscapeValue(value) + "\""
  }

  predicate Sets(l: string, key: string) {
    key + "=" <= l
  }

  /** The lines after `upsert_bootstrap_var_to`, once it is known whether the key was already written. */
  function Upserted(ls: seq<string>, key: string, value: string, found: bool): seq<string> {
    if ls == [] then (if found then [] else [NewLine(key, value)])
    else if Sets(ls[0], key) then
      (if found then [] else [NewLine(key, value)]) + Upserted(ls[1..], key, value, true)
    else [ls[0]] + Upserted(ls[1..], key, value, found)
  }

  function Removed(ls: seq<string>, key: string): seq<string> {
    Filter(ls, l => !Sets(l, key))
  }

  // ----- Several variables -----

  /** The trimmed text before the first `=`: the key the batched editor and the loader see. */
  function KeyOf(space: char -> bool, l: string): Option<string> {
    var n := EqualsAt(l);
    if n == |l| then None else Some(TrimSpace(space, l[..n]))
  }

  function EqualsAt(l: string): (n: nat)
    ensures n <= |l| && '=' !in l[..n]
    ensures n < |l| ==> l[n] == '='
  {
    if l == [] || l[0] == '=' then 0 else
    var n := 1 + EqualsAt(l[1..]);
    assert l[..n] == [l[0]] + l[1..][..n - 1];
    n
  }

  function TrimSpace(space: char -> bool, s: string): string {
    if s == [] then []
    else if space(s[0]) then TrimSpace(space, s[1..])
    else if space(s[|s| - 1]) then TrimSpace(space, s[..|s| - 1])
    else s
  }

  datatype Var = Var(key: string, value: string)

  function NewLines(vars: seq<Var>): seq<string> {
    if vars == [] then [] else [NewLine(vars[0].key, vars[0].value)] + NewLines(vars[1..])
  }

  ghost predicate Written(vars: seq<Var>, key: Option<string>) {
    exists i :: 0 <= i < |vars| && key == Some(vars[i].key)
  }

  ghost predicate Overwritten(space: char -> bool, l: string, vars: seq<Var>) {
    Written(vars, KeyOf(space, l))
  }

  ghost function Batched(space: char -> bool, ls: seq<string>, vars: seq<Var>): seq<string> {
    if ls == [] then NewLines(vars)
    else (if Overwritten(space, ls[0], vars) then [] else [ls[0]]) + Batched(space, ls[1..], vars)
  }

  datatype IoError = Unreadable

  /** The file: absent, or some text. `readable` says whether reading it succeeds this time. */
  class EnvFile {
    var content: Option<string>

    method Save(vars: seq<Var>)
      modifies this
      ensures content == Some(Unlines(NewLines(vars)))
    {
      var text: string := [];
      assert vars[0..] == vars;
      for i := 0 to |vars|
        invariant text + Unlines(NewLines(vars[i..])) == Unlines(NewLines(vars))
      {
        assert vars[i..][1..] == vars[i + 1..];
        var line := NewLine(vars[i].key, vars[i].value) + "\n";
        assert text + (line + Unlines(NewLines(vars[i + 1..]))) == text + line + Unlines(NewLines(vars[i + 1..]));
        text := text + line;
      }
      assert vars[|vars|..] == [];
      assert text + [] == text;
      content := Some(text);
    }

    /** A file that cannot be read is treated as empty and overwritten. */
    method UpsertVar(key: string, value: string, readable: bool)
      modifies this
      ensures var before := if readable && old(content).Some? then Lines(old(content).value) else [];
              content == Some(Unlines(Upserted(before, key, value, false)))
    {
      var existing := if readable && content.Some? then Lines(content.value) else [];
      var result := UpsertLines(existing, key, value);
      content := Some(Unlines(result));
    }

    /** A missing file is empty; any other read failure is an error and nothing is written. */
    method UpsertVars(space: char -> bool, vars: seq<Var>, readable: bool) returns (r: Result<(), IoError>)
      modifies this
      ensures content.Some? || content == old(content)
      ensures old(content).Some? && !readable ==> r == Err(Unreadable) && content == old(content)
      ensures old(content).None? || readable ==>
                r == Ok(()) && content == Some(Unlines(Batched(space, if old(content).Some? then Lines(old(content).value) else [], vars)))
    {
      if content.Some? && !readable {
        return Err(Unreadable);
      }
      var existing := if content.Some? then Lines(content.value) else [];
      var result := UpsertManyLines(space, existing, vars);
      content := Some(Unlines(result));
      return Ok(());
    }

    /** Nothing is written when nothing was removed. */
    method RemoveVar(key: string, readable: bool) returns (r: Result<(), IoError>)
      modifies this
      ensures old(content).None? ==> r == Ok(()) && content == None
      ensures old(content).Some? && !readable ==> r == Err(Unreadable) && content == old(content)
      ensures old(content).Some? && readable ==>
                var ls := Lines(old(content).value);
                r == Ok(()) && content == if Removed(ls, key) == ls then old(content) else Some(Unlines(Removed(ls, key)))
    {
      if content.None? {
        return Ok(());
      }
      if !readable {
        return Err(Unreadable);
      }
      var result, removed := RemoveLines(Lines(content.value), key);
      if removed {
        content := Some(Unlines(result));
      }
      return Ok(());
    }
  }

  /** Replace the first line for the key, skip any further ones, append if there was none. */
  method UpsertLines(ls: seq<string>, key: string, value: string) returns (result: seq<string>)
    ensures result == Upserted(ls, key, value, false)
  {
    var found := false;
    result := [];
    assert ls[0..] == ls;
    for i := 0 to |ls|
      invariant result + Upserted(ls[i..], key, value, found) == Upserted(ls, key, value, false)
    {
      hide Upserted;
      UpsertStep(result, ls, i, key, value, found);
      if key + "=" <= ls[i] {
        if !found {
          result := result + [NewLine(key, value)];
          found := true;
        }
      } else {
        result := result + [ls[i]];
      }
    }
    assert ls[|ls|..] == [];
    if !found {
      result := result + [NewLine(key, value)];
    }
  }

  /** Drop every line whose trimmed key is written, then append the new lines in order. */
  method UpsertManyLines(space: char -> bool, ls: seq<string>, vars: seq<Var>) returns (result: seq<string>)
    ensures result == Batched(space, ls, vars)
  {
    assert Batched(space, [], vars) == NewLines(vars);
    hide *;
    var keys := set i | 0 <= i < |vars| :: vars[i].key;
    result := [];
    assert ls[0..] == ls;
    for i := 0 to |ls|
      invariant result + Batched(space, ls[i..], vars) == Batched(space, ls, vars)
    {
      BatchStep(space, result, ls, i, vars);
      var k := KeyOf(space, ls[i]);
      KeyWritten(space, ls[i], vars, keys);
      if k.Some? && k.value in keys {
        assert result + [] == result;
      } else {
        result := result + [ls[i]];
      }
    }
    assert ls[|ls|..] == [];
    result := result + NewLines(vars);
  }

  lemma KeyWritten(space: char -> bool, l: string, vars: seq<Var>, keys: set<string>)
    requires keys == set i | 0 <= i < |vars| :: vars[i].key
    ensures Overwritten(space, l, vars) <==> KeyOf(space, l).Some? && KeyOf(space, l).value in keys
  {
  }

  method RemoveLines(ls: seq<string>, key: string) returns (result: seq<string>, removed: bool)
    ensures result == Removed(ls, key)
    ensures removed <==> result != ls
  {
    removed, result := false, [];
    assert ls[0..] == ls;
    for i := 0 to |ls|
      invariant result + Removed(ls[i..], key) == Removed(ls, key)
      invariant if removed then |result| < i else result == ls[..i]
    {
      hide Removed;
      if key + "=" <= ls[i] {
        removed := true;
      } else {
        result := result + [ls[i]];
      }
    }
    assert ls[|ls|..] == [];
    assert result + [] == result;
  }

  lemma BatchStep(space: char -> bool, before: seq<string>, ls: seq<string>, i: nat, vars: seq<Var>)
    requires i < |ls|
    ensures before + Batched(space, ls[i..], vars)
         == before + (if Overwritten(space, ls[i], vars) then [] else [ls[i]]) + Batched(space, ls[i + 1..], vars)
  {
    assert ls[i..][1..] == ls[i + 1..];
  }

  lemma UpsertStep(before: seq<string>, ls: seq<string>, i: nat, key: string, value: string, found: bool)
    requires i < |ls|
    ensures before + Upserted(ls[i..], key, value, found)
         == before + (if !Sets(ls[i], key) then [ls[i]] else if found then [] else [NewLine(key, value)])
            + Upserted(ls[i + 1..], key, value, found || Sets(ls[i], key))
  {
    assert ls[i..][1..] == ls[i + 1..];
  }
}
