/**
 The block-context tracker of `scripts/check_no_panics.py`: which lines of a file lie in
 test-only code. The two regular expressions are parameters (`Rules`).
 */
module PanicContexts {
  import opened Wrappers
  import opened GatewayStripper
  import opened PanicLexer

  /** What the item pattern captures. */
  datatype Item = Item(kind: string, name: string)

  datatype Rules = Rules(testAttr: string -> bool, item: string -> Option<Item>, space: char -> bool)

  function TrimLeft(r: Rules, s: string): string {
    if s != [] && r.space(s[0]) then TrimLeft(r, s[1..]) else s
  }

  function TrimRight(r: Rules, s: string): string {
    if s != [] && r.space(s[|s| - 1]) then TrimRight(r, s[..|s| - 1]) else s
  }

  function Trim(r: Rules, s: string): string {
    TrimRight(r, TrimLeft(r, s))
  }

  /** The variables carried from line to line. */
  datatype State = State(stack: seq<bool>, pendingAttr: bool, pendingBlock: Option<bool>)

  const START := State([], false, None)

  function Top(stack: seq<bool>): bool {
    if stack == [] then false else stack[|stack| - 1]
  }

  /** One character of sanitised code. */
  function Brace(st: State, c: char): State {
    if c == '{' then
      if st.pendingBlock.Some? then st.(stack := st.stack + [st.pendingBlock.value], pendingBlock := None)
      else st.(stack := st.stack + [Top(st.stack)])
    else if c == '}' && st.stack != [] then st.(stack := st.stack[..|st.stack| - 1])
    else st
  }

  function Braces(st: State, code: string): State
    decreases code
  {
    if code == [] then st else Braces(Brace(st, code[0]), code[1..])
  }

  function IsTestItem(item: Option<Item>, pendingAttr: bool): bool {
    item.Some? && (pendingAttr || (item.value.kind == "mod" && item.value.name == "tests"))
  }

  /** What the line does before its braces are looked at. */
  function Head(r: Rules, st: State, code: string): State {
    var stripped := Trim(r, code);
    var attr := st.pendingAttr || r.testAttr(stripped);
    if r.item(code).Some? then
      State(st.stack, false, Some(IsTestItem(r.item(code), attr) || Top(st.stack)))
    else if stripped != [] && !("#[" <= stripped) then st.(pendingAttr := false)
    else st.(pendingAttr := attr)
  }

  /** Whether the line is in test-only code. */
  function Marked(r: Rules, st: State, code: string): bool {
    Top(st.stack) || Head(r, st, code).pendingBlock == Some(true)
  }

  function AfterLine(r: Rules, st: State, code: string): State {
    var stripped, st' := Trim(r, code), Braces(Head(r, st, code), code);
    if stripped != [] && stripped[|stripped| - 1] == ';' then st'.(pendingBlock := None) else st'
  }

  function AfterLines(r: Rules, st: State, codes: seq<string>): State
    decreases codes
  {
    if codes == [] then st else AfterLines(r, AfterLine(r, st, codes[0]), codes[1..])
  }

  function Contexts(r: Rules, st: State, codes: seq<string>): (cs: seq<bool>)
    ensures |cs| == |codes|
    decreases codes
  {
    if codes == [] then [] else [Marked(r, st, codes[0])] + Contexts(r, AfterLine(r, st, codes[0]), codes[1..])
  }

  /** The lines as the sanitiser leaves them, mode carried along. */
  function Sanitized(l: Letters, lines: seq<string>, m: Mode): (codes: seq<string>)
    ensures |codes| == |lines|
  {
    if lines == [] then [] else [Sanitize(l, lines[0], m).0] + Sanitized(l, lines[1..], Sanitize(l, lines[0], m).1)
  }

  /** The script's loop over lines and characters. */
  method LineTestContexts(l: Letters, r: Rules, lines: seq<string>) returns (contexts: seq<bool>)
    ensures contexts == Contexts(r, START, Sanitized(l, lines, Code))
  {
    contexts := [];
    var lexer := new LexerState();
    var st := START;
    assert lines[0..] == lines;
    for i := 0 to |lines|
      invariant lexer.Valid() && fresh(lexer)
      invariant Done(l, r, lines, i, lexer.Current(), st, contexts)
    {
      hide *;
      DoneStep(l, r, lines, i, lexer.Current(), st, contexts);
      var code := SanitizeLine(l, lines[i], lexer);
      var context, st' := Line(r, st, code);
      contexts := contexts + [context];
      st := st';
    }
    assert lines[|lines|..] == [];
  }

  /** The body of the loop over lines, with its loop over characters. */
  method Line(r: Rules, st: State, code: string) returns (context: bool, st': State)
    ensures context == Marked(r, st, code) && st' == AfterLine(r, st, code)
  {
    var stripped := Trim(r, code);
    var blockStack, pendingTestAttr, pendingBlock := st.stack, st.pendingAttr, st.pendingBlock;
    var current := if blockStack != [] then blockStack[|blockStack| - 1] else false;
    if r.testAttr(stripped) {
      pendingTestAttr := true;
    }
    var item := r.item(code);
    if item.Some? {
      pendingBlock := Some(IsTestItem(item, pendingTestAttr) || current);
      pendingTestAttr := false;
    } else if stripped != [] && !("#[" <= stripped) && pendingTestAttr {
      pendingTestAttr := false;
    }
    context := current || pendingBlock == Some(true);
    assert State(blockStack, pendingTestAttr, pendingBlock) == Head(r, st, code);
    assert code[0..] == code;
    for j := 0 to |code|
      invariant Braces(State(blockStack, pendingTestAttr, pendingBlock), code[j..]) == Braces(Head(r, st, code), code)
    {
      assert code[j..][1..] == code[j + 1..];
      if code[j] == '{' {
        if pendingBlock.Some? {
          blockStack := blockStack + [pendingBlock.value];
          pendingBlock := None;
        } else {
          blockStack := blockStack + [if blockStack != [] then blockStack[|blockStack| - 1] else false];
        }
      } else if code[j] == '}' && blockStack != [] {
        blockStack := blockStack[..|blockStack| - 1];
      }
    }
    assert code[|code|..] == [];
    if stripped != [] && stripped[|stripped| - 1] == ';' {
      pendingBlock := None;
    }
    st' := State(blockStack, pendingTestAttr, pendingBlock);
  }

  ghost predicate Done(l: Letters, r: Rules, lines: seq<string>, i: nat, m: Mode, st: State, contexts: seq<bool>)
    requires i <= |lines|
  {
    Contexts(r, START, Sanitized(l, lines, Code)) == contexts + Contexts(r, st, Sanitized(l, lines[i..], m))
  }

  lemma DoneStep(l: Letters, r: Rules, lines: seq<string>, i: nat, m: Mode, st: State, contexts: seq<bool>)
    requires i < |lines| && Done(l, r, lines, i, m, st, contexts)
    ensures var (code, next) := Sanitize(l, lines[i], m);
            Done(l, r, lines, i + 1, next, AfterLine(r, st, code), contexts + [Marked(r, st, code)])
  {
    hide Sanitize, AfterLine, Marked;
    var (code, next) := Sanitize(l, lines[i], m);
    var codes, st' := Sanitized(l, lines[i + 1..], next), AfterLine(r, st, code);
    assert lines[i..][1..] == lines[i + 1..];
    assert ([code] + codes)[1..] == codes;
    assert contexts + ([Marked(r, st, code)] + Contexts(r, st', codes)) == contexts + [Marked(r, st, code)] + Contexts(r, st', codes);
  }

  // ----- The invariant of every run -----

  /** Test blocks nest only inside test blocks, and a pending production item is not inside one. */
  ghost predicate Ordered(st: State) {
    && (forall i, j :: 0 <= i < j < |st.stack| && st.stack[i] ==> st.stack[j])
    && (st.pendingBlock == Some(false) ==> true !in st.stack)
  }

  lemma {:induction false} BracesOrdered(st: State, code: string)
    requires Ordered(st)
    ensures Ordered(Braces(st, code))
    decreases |code|
  {
    if code != [] {
      assert Ordered(Brace(st, code[0]));
      BracesOrdered(Brace(st, code[0]), code[1..]);
    }
  }

  lemma HeadOrdered(r: Rules, st: State, code: string)
    requires Ordered(st)
    ensures Ordered(Head(r, st, code)) && Head(r, st, code).stack == st.stack
  {
    assert !Top(st.stack) ==> true !in st.stack;
  }

  /** Whatever lines come, in whatever state they are read, the stack stays falses followed by trues. */
  lemma {:induction false} AlwaysOrdered(r: Rules, st: State, codes: seq<string>)
    requires Ordered(st)
    ensures Ordered(AfterLines(r, st, codes))
    decreases |codes|
  {
    if codes != [] {
      HeadOrdered(r, st, codes[0]);
      BracesOrdered(Head(r, st, codes[0]), codes[0]);
      AlwaysOrdered(r, AfterLine(r, st, codes[0]), codes[1..]);
    }
  }

  // ----- Blocks -----

  /** How deep `code` ends when it starts `d` blocks deep, or nothing if it closes more than it opened. */
  function Depth(code: string, d: nat): Option<nat> {
    if code == [] then Some(d)
    else if code[0] == '{' then Depth(code[1..], d + 1)
    else if code[0] == '}' then (if d == 0 then None else Depth(code[1..], d - 1))
    else Depth(code[1..], d)
  }

  function DepthOf(codes: seq<string>, d: nat): Option<nat> {
    if codes == [] then Some(d) else
    match Depth(codes[0], d) case None => None case Some(e) => DepthOf(codes[1..], e)
  }

  /** `st` is `d` blocks deep inside the blocks of `base`. */
  ghost predicate Within(st: State, base: seq<bool>, d: nat) {
    |st.stack| == |base| + d && st.stack[..|base|] == base
  }

  lemma {:induction false} BracesWithin(st: State, base: seq<bool>, d: nat, code: string)
    requires Within(st, base, d) && Depth(code, d).Some?
    ensures Within(Braces(st, code), base, Depth(code, d).value)
    decreases |code|
  {
    if code != [] {
      var e := if code[0] == '{' then d + 1 else if code[0] == '}' then d - 1 else d;
      assert Within(Brace(st, code[0]), base, e);
      BracesWithin(Brace(st, code[0]), base, e, code[1..]);
    }
  }

  /**
   From the opening brace of a test block to its matching brace every line is marked,
   whatever items, attributes and inner blocks the lines hold.
   */
  lemma {:induction false} TestBlockMarked(r: Rules, st: State, base: seq<bool>, d: nat, codes: seq<string>, k: nat)
    requires Ordered(st) && Within(st, base, d) && Top(base)
    requires k < |codes| && DepthOf(codes[..k], d).Some?
    ensures Contexts(r, st, codes)[k]
    decreases |codes|
  {
    if k == 0 {
      assert st.stack[|base| - 1] == base[|base| - 1];
    } else {
      var st' := AfterLine(r, st, codes[0]);
      assert codes[..k][0] == codes[0] && codes[..k][1..] == codes[1..][..k - 1];
      HeadOrdered(r, st, codes[0]);
      BracesOrdered(Head(r, st, codes[0]), codes[0]);
      BracesWithin(Head(r, st, codes[0]), base, d, codes[0]);
      TestBlockMarked(r, st', base, Depth(codes[0], d).value, codes[1..], k - 1);
    }
  }

  /** Lines whose braces balance leave the stack exactly as they found it, in test code or not. */
  lemma {:induction false} BalancedRestores(r: Rules, st: State, base: seq<bool>, d: nat, codes: seq<string>)
    requires Within(st, base, d) && DepthOf(codes, d).Some?
    ensures Within(AfterLines(r, st, codes), base, DepthOf(codes, d).value)
    ensures DepthOf(codes, d) == Some(0) ==> AfterLines(r, st, codes).stack == base
    decreases |codes|
  {
    if codes == [] {
      assert st.stack[..|base|] == base;
    } else {
      BracesWithin(Head(r, st, codes[0]), base, d, codes[0]);
      BalancedRestores(r, AfterLine(r, st, codes[0]), base, Depth(codes[0], d).value, codes[1..]);
    }
  }

  /** A line that says nothing about items or blocks. */
  ghost predicate Quiet(r: Rules, code: string) {
    && r.item(code).None? && '{' !in code && '}' !in code
    && (Trim(r, code) != [] ==> Trim(r, code)[|Trim(r, code)| - 1] != ';')
  }

  /** What the braces of a line leave alone. */
  lemma {:induction false} BracesKeep(st: State, code: string)
    ensures Braces(st, code).pendingAttr == st.pendingAttr
    ensures '{' !in code && '}' !in code ==> Braces(st, code) == st
    ensures true !in st.stack && st.pendingBlock.None? ==> true !in Braces(st, code).stack && Braces(st, code).pendingBlock.None?
    decreases |code|
  {
    if code != [] {
      BracesKeep(Brace(st, code[0]), code[1..]);
    }
  }

  /**
   A test item is marked from its own line on: over any quiet lines of its signature, and
   then over the whole block its first brace opens.
   */
  lemma {:induction false} TestItemMarked(r: Rules, st: State, codes: seq<string>, k: nat)
    requires Ordered(st) && st.pendingBlock == Some(true)
    requires k < |codes| && forall i :: 0 <= i < k ==> Quiet(r, codes[i])
    requires r.item(codes[k]).None?
    ensures Contexts(r, st, codes)[k] && AfterLines(r, st, codes[..k]).stack == st.stack
    ensures AfterLines(r, st, codes[..k]).pendingBlock == Some(true)
    decreases k
  {
    if k > 0 {
      BracesKeep(Head(r, st, codes[0]), codes[0]);
      assert codes[..k][1..] == codes[1..][..k - 1];
      TestItemMarked(r, AfterLine(r, st, codes[0]), codes[1..], k - 1);
    } else {
      assert codes[..0] == [];
    }
  }

  /**
   A line that may stand between a test attribute and its item: blank, or another attribute,
   whatever else is on its line.
   */
  ghost predicate BetweenAttribute(r: Rules, code: string) {
    r.item(code).None? && (Trim(r, code) == [] || "#[" <= Trim(r, code))
  }

  /** An item that is test code: it bears a test attribute, is the module `tests`, or lies in test code. */
  ghost predicate StartsTest(r: Rules, st: State, code: string) {
    r.item(code).Some? && (IsTestItem(r.item(code), st.pendingAttr || r.testAttr(Trim(r, code))) || Top(st.stack))
  }

  /** The attribute line is remembered over blank lines and further attributes, braces among them or not. */
  lemma {:induction false} AttributeCarries(r: Rules, st: State, codes: seq<string>)
    requires codes != [] && (st.pendingAttr || r.testAttr(Trim(r, codes[0])))
    requires forall i :: 0 <= i < |codes| ==> BetweenAttribute(r, codes[i])
    ensures AfterLines(r, st, codes).pendingAttr
    ensures (forall i :: 0 <= i < |codes| ==> '{' !in codes[i] && '}' !in codes[i]) ==> AfterLines(r, st, codes).stack == st.stack
    decreases |codes|
  {
    BracesKeep(Head(r, st, codes[0]), codes[0]);
    var st' := AfterLine(r, st, codes[0]);
    if |codes| == 1 {
      assert codes[1..] == [];
    } else {
      assert forall i :: 0 <= i < |codes[1..]| ==> codes[1..][i] == codes[i + 1];
      AttributeCarries(r, st', codes[1..]);
    }
  }

  /** The item's own line is marked, and with it the block its braces are about to open. */
  lemma ItemLineMarked(r: Rules, st: State, code: string)
    requires StartsTest(r, st, code)
    ensures Marked(r, st, code) && Head(r, st, code) == State(st.stack, false, Some(true))
    ensures AfterLine(r, st, code).stack == Braces(State(st.stack, false, Some(true)), code).stack
    ensures '{' !in code && '}' !in code && (Trim(r, code) == [] || Trim(r, code)[|Trim(r, code)| - 1] != ';') ==>
              AfterLine(r, st, code) == State(st.stack, false, Some(true))
  {
    BracesKeep(State(st.stack, false, Some(true)), code);
  }

  /** A line with nothing on it that opens, closes or ends the item. */
  ghost predicate NoEnd(r: Rules, code: string) {
    '{' !in code && '}' !in code && (Trim(r, code) == [] || Trim(r, code)[|Trim(r, code)| - 1] != ';')
  }

  /** An item that is test code: its own line is marked, and so is every quiet line of its signature up to line `k`. */
  lemma ItemMarked(r: Rules, st: State, codes: seq<string>, k: nat)
    requires Ordered(st) && k < |codes| && StartsTest(r, st, codes[0])
    requires k > 0 ==> NoEnd(r, codes[0]) && r.item(codes[k]).None?
    requires forall i :: 0 < i < k ==> Quiet(r, codes[i])
    ensures Contexts(r, st, codes)[0] && Contexts(r, st, codes)[k]
    ensures k > 0 ==> AfterLines(r, st, codes[..k]).stack == st.stack && AfterLines(r, st, codes[..k]).pendingBlock == Some(true)
  {
    ItemLineMarked(r, st, codes[0]);
    if k > 0 {
      var rest, st' := codes[1..], AfterLine(r, st, codes[0]);
      AlwaysOrdered(r, st, [codes[0]]);
      assert AfterLines(r, st, [codes[0]]) == st' by {
        assert [codes[0]][1..] == [];
      }
      hide Marked, AfterLine, Head, Quiet, Ordered;
      TestItemMarked(r, st', rest, k - 1);
      assert codes[..k][0] == codes[0] && codes[..k][1..] == rest[..k - 1];
    }
  }

  lemma {:induction false} LinesShift(r: Rules, st: State, codes: seq<string>, a: nat, k: nat)
    requires a <= k < |codes|
    ensures Contexts(r, st, codes)[k] == Contexts(r, AfterLines(r, st, codes[..a]), codes[a..])[k - a]
    ensures AfterLines(r, st, codes[..k]) == AfterLines(r, AfterLines(r, st, codes[..a]), codes[a..][..k - a])
    decreases a
  {
    hide Marked, AfterLine;
    if a == 0 {
      assert codes[..0] == [] && codes[0..] == codes;
    } else {
      assert codes[..a][0] == codes[0] && codes[..a][1..] == codes[1..][..a - 1];
      assert codes[..k][0] == codes[0] && codes[..k][1..] == codes[1..][..k - 1];
      assert codes[a..] == codes[1..][a - 1..];
      LinesShift(r, AfterLine(r, st, codes[0]), codes[1..], a - 1, k - 1);
    }
  }

  /**
   From a test attribute to the block: with attribute lines `codes[..a]`, the item on line `a` and
   quiet lines of its signature up to line `k`, the item's line and line `k` are marked, and line
   `k` is read with a test block pending, which `FirstBraceOpensTestBlock` opens.
   */
  lemma AttributedItemMarked(r: Rules, st: State, codes: seq<string>, a: nat, k: nat)
    requires Ordered(st) && 0 < a <= k < |codes|
    requires r.testAttr(Trim(r, codes[0])) && forall i :: 0 <= i < a ==> BetweenAttribute(r, codes[i])
    requires r.item(codes[a]).Some? && (k > a ==> NoEnd(r, codes[a]) && r.item(codes[k]).None?)
    requires forall i :: a < i < k ==> Quiet(r, codes[i])
    ensures Contexts(r, st, codes)[a] && Contexts(r, st, codes)[k]
    ensures k > a ==> AfterLines(r, st, codes[..k]).stack == AfterLines(r, st, codes[..a]).stack
    ensures k > a ==> AfterLines(r, st, codes[..k]).pendingBlock == Some(true)
    ensures (forall i :: 0 <= i < a ==> '{' !in codes[i] && '}' !in codes[i]) ==> AfterLines(r, st, codes[..a]).stack == st.stack
  {
    hide Marked, Head, AfterLine, Quiet, NoEnd, Ordered, Contexts, AfterLines;
    var st' := AfterLines(r, st, codes[..a]);
    assert forall i :: 0 <= i < a ==> codes[..a][i] == codes[i];
    AttributeCarries(r, st, codes[..a]);
    AlwaysOrdered(r, st, codes[..a]);
    assert codes[a..][0] == codes[a];
    assert forall i :: 0 < i <= k - a ==> codes[a..][i] == codes[a + i];
    ItemMarked(r, st', codes[a..], k - a);
    LinesShift(r, st, codes, a, a);
    LinesShift(r, st, codes, a, k);
  }

  /** The first brace after a test item opens a block that is test code. */
  lemma {:induction false} FirstBraceOpensTestBlock(st: State, before: string, after: string)
    requires st.pendingBlock == Some(true) && '{' !in before && '}' !in before
    ensures Braces(st, before + "{" + after) == Braces(State(st.stack + [true], st.pendingAttr, None), after)
    decreases |before|
  {
    var code := before + "{" + after;
    if before == [] {
      assert code == "{" + after && code[1..] == after;
    } else {
      assert code[1..] == before[1..] + "{" + after;
      FirstBraceOpensTestBlock(st, before[1..], after);
    }
  }

  // ----- An item on the line of its attribute -----

  /**
   The item pattern is tried at the start of the line, where the attribute stands, so the item is not
   found: up to the next item no line is marked, the block it opens included, and it is that next
   item that the attribute marks, by `AttributedItemMarked`.
   */
  lemma {:induction false} OneLineItemMissed(r: Rules, st: State, codes: seq<string>, k: nat)
    requires true !in st.stack && st.pendingBlock.None? && k < |codes|
    requires forall i :: 0 <= i <= k ==> r.item(codes[i]).None?
    ensures !Contexts(r, st, codes)[k]
    ensures r.testAttr(Trim(r, codes[0])) && "#[" <= Trim(r, codes[0]) ==> AfterLine(r, st, codes[0]).pendingAttr
    decreases k
  {
    BracesKeep(Head(r, st, codes[0]), codes[0]);
    if k > 0 {
      OneLineItemMissed(r, AfterLine(r, st, codes[0]), codes[1..], k - 1);
    }
  }

  // ----- What is not marked -----

  /** A line that bears no test attribute and does not begin the module `tests`; any other item may be on it. */
  ghost predicate Ordinary(r: Rules, code: string) {
    && !r.testAttr(Trim(r, code))
    && (r.item(code).Some? ==> !(r.item(code).value.kind == "mod" && r.item(code).value.name == "tests"))
  }

  /** Outside all test code. */
  ghost predicate Production(st: State) {
    true !in st.stack && st.pendingBlock != Some(true) && !st.pendingAttr
  }

  lemma {:induction false} BracesProduction(st: State, code: string)
    requires Production(st)
    ensures Production(Braces(st, code))
    decreases |code|
  {
    if code != [] {
      BracesProduction(Brace(st, code[0]), code[1..]);
    }
  }

  /** From outside test code no line is marked before one that bears a test attribute or begins the module `tests`. */
  lemma {:induction false} ProductionUnmarked(r: Rules, st: State, codes: seq<string>, k: nat)
    requires Production(st) && k < |codes| && forall i :: 0 <= i <= k ==> Ordinary(r, codes[i])
    ensures !Contexts(r, st, codes)[k] && Production(AfterLines(r, st, codes[..k + 1]))
    decreases k
  {
    var st' := AfterLine(r, st, codes[0]);
    assert Ordinary(r, codes[0]) && Production(Head(r, st, codes[0]));
    BracesProduction(Head(r, st, codes[0]), codes[0]);
    assert codes[..k + 1][0] == codes[0] && codes[..k + 1][1..] == codes[1..][..k];
    if k > 0 {
      ProductionUnmarked(r, st', codes[1..], k - 1);
    }
  }

  /** A line with a test item is marked, and outside test code no other line is, unless a test item waits for its block. */
  lemma MarkedIff(r: Rules, st: State, code: string)
    ensures Marked(r, st, code) <==>
            || (st.stack != [] && st.stack[|st.stack| - 1])
            || (r.item(code).None? && st.pendingBlock == Some(true))
            || (r.item(code).Some?
                && (st.pendingAttr || r.testAttr(Trim(r, code))
                    || (r.item(code).value.kind == "mod" && r.item(code).value.name == "tests")))
  {
  }

  /** The first brace opens a block of the kind that waits for one, else of the kind it stands in. */
  lemma {:induction false} FirstBraceOpens(st: State, before: string, after: string)
    requires '{' !in before && '}' !in before
    ensures var kind := if st.pendingBlock.Some? then st.pendingBlock.value else st.stack != [] && st.stack[|st.stack| - 1];
            Braces(st, before + "{" + after) == Braces(State(st.stack + [kind], st.pendingAttr, None), after)
    decreases |before|
  {
    var code := before + "{" + after;
    if before == [] {
      assert code == "{" + after && code[1..] == after;
    } else {
      assert code[1..] == before[1..] + "{" + after;
      FirstBraceOpens(st, before[1..], after);
    }
  }

  /**
   What waits: an item uses the attribute up and waits for its block, as test code if it is a test
   item; other code drops the attribute and keeps what waits; a final semicolon drops that.
   */
  lemma WhatWaits(r: Rules, st: State, code: string)
    requires '{' !in code && '}' !in code
    ensures var st', line := AfterLine(r, st, code), Trim(r, code);
            var bears := st.pendingAttr || r.testAttr(line);
            && st'.stack == st.stack
            && (st'.pendingAttr <==> bears && r.item(code).None? && (line == [] || "#[" <= line))
            && st'.pendingBlock ==
               if line != [] && line[|line| - 1] == ';' then None
               else if r.item(code).None? then st.pendingBlock
               else Some(bears || (r.item(code).value.kind == "mod" && r.item(code).value.name == "tests")
                         || (st.stack != [] && st.stack[|st.stack| - 1]))
  {
    BracesKeep(Head(r, st, code), code);
  }

  /** A trimmed line begins and ends with no space, and only spaces were around it. */
  lemma TrimIs(r: Rules, s: string)
    ensures var t := Trim(r, s);
            && (t != [] ==> !r.space(t[0]) && !r.space(t[|t| - 1]))
            && exists i, j :: 0 <= i <= j <= |s| && t == s[i..j] && (forall k :: 0 <= k < i || j <= k < |s| ==> r.space(s[k]))
  {
    TrimLeftIs(r, s);
    var t := TrimLeft(r, s);
    TrimRightIs(r, t);
    var i, n := |s| - |t|, |TrimRight(r, t)|;
    assert s[i..i + n] == s[i..][..n];
    forall k | i + n <= k < |s| ensures r.space(s[k]) {
      assert s[k] == s[i..][k - i];
    }
  }

  lemma {:induction false} TrimLeftIs(r: Rules, s: string)
    ensures var t := TrimLeft(r, s);
            && (t != [] ==> !r.space(t[0])) && |t| <= |s| && t == s[|s| - |t|..]
            && forall k :: 0 <= k < |s| - |t| ==> r.space(s[k])
  {
    if s != [] && r.space(s[0]) {
      TrimLeftIs(r, s[1..]);
    }
  }

  lemma {:induction false} TrimRightIs(r: Rules, s: string)
    ensures var t := TrimRight(r, s);
            && (t != [] ==> !r.space(t[|t| - 1])) && |t| <= |s| && t == s[..|t|]
            && forall k :: |t| <= k < |s| ==> r.space(s[k])
    decreases |s|
  {
    if s != [] && r.space(s[|s| - 1]) {
      TrimRightIs(r, s[..|s| - 1]);
    }
  }
}
