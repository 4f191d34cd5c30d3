/**
 The pairing of test starts with outcomes in `parse_log`
 (`scripts/live-canary/emit_results_json.py`). A line is given as its two regular expressions
 see it; the panic messages of the first pass are a parameter.
 */
module LogParser {
  import opened Wrappers

  datatype Outcome = Passed | Failed | Ignored

  /** `test NAME ... TRAILER` with the trailer stripped, an outcome on a line of its own, or neither. */
  datatype Line = Start(name: string, trailer: string) | Standalone(outcome: Outcome) | Other

  datatype Entry = Entry(mode: string, success: bool, error: Option<string>)

  datatype Interleaved = Interleaved(name: string, previous: string)

  datatype State = State(current: Option<string>, entries: seq<Entry>)

  type Panics = map<string, string>

  const NO_MESSAGE := "test failed (no panic message captured)"

  /** Cargo's inline outcome: the trailer is nothing but the word. */
  function Inline(trailer: string): Option<Outcome> {
    if trailer == "ok" then Some(Passed)
    else if trailer == "FAILED" then Some(Failed)
    else if trailer == "ignored" then Some(Ignored)
    else None
  }

  function Recorded(x: Panics, name: string, outcome: Outcome): seq<Entry> {
    match outcome
    case Ignored => []
    case Passed => [Entry(name, true, None)]
    case Failed => [Entry(name, false, Some(if name in x then x[name] else NO_MESSAGE))]
  }

  function Step(x: Panics, s: State, line: Line): Result<State, Interleaved> {
    match line
    case Start(name, trailer) =>
      (match Inline(trailer)
       case Some(outcome) => Ok(State(None, s.entries + Recorded(x, name, outcome)))
       case None => if s.current.Some? then Err(Interleaved(name, s.current.value)) else Ok(s.(current := Some(name))))
    case Standalone(outcome) =>
      if s.current.Some? then Ok(State(None, s.entries + Recorded(x, s.current.value, outcome))) else Ok(s)
    case Other => Ok(s)
  }

  /** The state after the lines, or the first error. */
  function After(x: Panics, s: State, lines: seq<Line>): Result<State, Interleaved>
    decreases |lines|
  {
    if lines == [] then Ok(s) else
    match Step(x, s, lines[0])
    case Ok(s') => After(x, s', lines[1..])
    case Err(e) => Err(e)
  }

  const FRESH := State(None, [])

  function Parse(x: Panics, lines: seq<Line>): Result<seq<Entry>, Interleaved> {
    match After(x, FRESH, lines)
    case Ok(s) => Ok(s.entries)
    case Err(e) => Err(e)
  }

  method ParseLog(x: Panics, lines: seq<Line>) returns (r: Result<seq<Entry>, Interleaved>)
    ensures r == Parse(x, lines)
  {
    var current: Option<string> := None;
    var entries: seq<Entry> := [];
    for i := 0 to |lines|
      invariant After(x, State(current, entries), lines[i..]) == After(x, FRESH, lines)
    {
      assert lines[i..][0] == lines[i] && lines[i..][1..] == lines[i + 1..];
      match lines[i] {
        case Start(name, trailer) =>
          var inline := Inline(trailer);
          if inline.Some? {
            entries := entries + Recorded(x, name, inline.value);
            current := None;
          } else {
            if current.Some? {
              return Err(Interleaved(name, current.value));
            }
            current := Some(name);
          }
        case Standalone(outcome) =>
          if current.Some? {
            entries := entries + Recorded(x, current.value, outcome);
            current := None;
          }
        case Other =>
      }
    }
    return Ok(entries);
  }

  lemma {:induction false} AfterJoin(x: Panics, s: State, a: seq<Line>, b: seq<Line>)
    ensures After(x, s, a + b) == match After(x, s, a) case Ok(s') => After(x, s', b) case Err(e) => Err(e)
    decreases |a|
  {
    if a == [] {
      assert a + b == b;
    } else {
      assert (a + b)[0] == a[0] && (a + b)[1..] == a[1..] + b;
      match Step(x, s, a[0]) {
        case Ok(s') => AfterJoin(x, s', a[1..], b);
        case Err(_) =>
      }
    }
  }

  // ----- When it raises -----

  /** A start that waits for an outcome. */
  predicate Opens(line: Line) {
    line.Start? && Inline(line.trailer).None?
  }

  /** A line after which no start is waiting. */
  predicate Closes(line: Line) {
    line.Standalone? || (line.Start? && Inline(line.trailer).Some?)
  }

  /** The start at `i` still waits before line `j`. */
  ghost predicate Waits(lines: seq<Line>, i: nat, j: nat) {
    i < j <= |lines| && Opens(lines[i]) && forall k :: i < k < j ==> !Closes(lines[k])
  }

  lemma {:induction false} WaitingAfter(x: Panics, lines: seq<Line>, n: nat)
    requires n <= |lines|
    ensures var r := After(x, FRESH, lines[..n]);
            && (r.Err? <==> exists i, j :: 0 <= i < j < n && Opens(lines[j]) && Waits(lines, i, j))
            && (r.Ok? ==> (r.value.current.Some? <==> exists i :: 0 <= i < n && Waits(lines, i, n)))
    decreases n
  {
    if n > 0 {
      WaitingAfter(x, lines, n - 1);
      assert lines[..n] == lines[..n - 1] + [lines[n - 1]];
      AfterJoin(x, FRESH, lines[..n - 1], [lines[n - 1]]);
      assert forall i :: 0 <= i < n ==>
              (Waits(lines, i, n) <==>
               (i < n - 1 && Waits(lines, i, n - 1) && !Closes(lines[n - 1])) || (i == n - 1 && Opens(lines[i])));
    }
  }

  /** It raises exactly when a start meets another that still waits: no outcome and no inline start between them. */
  lemma RaisesIff(x: Panics, lines: seq<Line>)
    ensures Parse(x, lines).Err? <==> exists i, j :: 0 <= i < j < |lines| && Opens(lines[j]) && Waits(lines, i, j)
  {
    WaitingAfter(x, lines, |lines|);
    assert lines[..|lines|] == lines;
  }

  // ----- What it makes of a serial run -----

  /**
   A test as cargo reports it, or a line cargo prints between tests. `Collapsed` printed nothing;
   `Noisy` ended its output with a line break, so its outcome has a line of its own; `Unended` did
   not, so its outcome is part of its last line and stands nowhere by itself. An ignored test whose
   line gives its reason is `Unended` too: the line is no inline outcome, and no other follows.
   */
  datatype Item =
    | Collapsed(name: string, outcome: Outcome)
    | Noisy(name: string, glued: string, stdout: seq<Line>, outcome: Outcome)
    | Unended(name: string, glued: string, stdout: seq<Line>, outcome: Outcome)
    | Between(line: Line)

  function Word(outcome: Outcome): string {
    match outcome case Passed => "ok" case Failed => "FAILED" case Ignored => "ignored"
  }

  function RenderItem(t: Item): seq<Line> {
    match t
    case Collapsed(name, outcome) => [Start(name, Word(outcome))]
    case Noisy(name, glued, stdout, outcome) => [Start(name, glued)] + (stdout + [Standalone(outcome)])
    case Unended(name, glued, stdout, _) => [Start(name, glued)] + stdout
    case Between(line) => [line]
  }

  function Render(run: seq<Item>): seq<Line> {
    if run == [] then [] else RenderItem(run[0]) + Render(run[1..])
  }

  /** One test at a time: nothing printed meanwhile looks like the start of a test. */
  ghost predicate Serial(t: Item) {
    match t
    case Collapsed(_, _) => true
    case Between(line) => !line.Start?
    case _ => forall k :: 0 <= k < |t.stdout| ==> !t.stdout[k].Start?
  }

  ghost predicate SerialRun(run: seq<Item>) {
    forall i :: 0 <= i < |run| ==> Serial(run[i])
  }

  /** The first outcome on a line of its own. */
  function FirstWord(lines: seq<Line>): Option<Outcome> {
    if lines == [] then None
    else if lines[0].Standalone? then Some(lines[0].outcome)
    else FirstWord(lines[1..])
  }

  /** A test that starts by waiting for an outcome. */
  predicate Waiting(t: Item) {
    (t.Noisy? || t.Unended?) && Inline(t.glued).None?
  }

  /** A test that is still waiting when its lines are over. */
  predicate LeftWaiting(t: Item) {
    t.Unended? && Inline(t.glued).None? && FirstWord(t.stdout).None?
  }

  /** The outcome a test left waiting takes: one that stands alone before the next test. */
  function LaterWord(rest: seq<Item>): Option<Outcome> {
    if rest == [] || !rest[0].Between? then None
    else if rest[0].line.Standalone? then Some(rest[0].line.outcome)
    else LaterWord(rest[1..])
  }

  /** The outcome read for a test: the first word that looks like one, its own or not; none counts as `ignored`. */
  function Read(t: Item, rest: seq<Item>): Outcome
    requires !t.Between?
  {
    match t
    case Collapsed(_, outcome) => outcome
    case Noisy(_, glued, stdout, outcome) =>
      if Inline(glued).Some? then Inline(glued).value
      else if FirstWord(stdout).Some? then FirstWord(stdout).value
      else outcome
    case Unended(_, glued, stdout, _) =>
      if Inline(glued).Some? then Inline(glued).value
      else if FirstWord(stdout).Some? then FirstWord(stdout).value
      else if LaterWord(rest).Some? then LaterWord(rest).value
      else Ignored
  }

  function Seen(x: Panics, run: seq<Item>): seq<Entry> {
    if run == [] then []
    else if run[0].Between? then Seen(x, run[1..])
    else Recorded(x, run[0].name, Read(run[0], run[1..])) + Seen(x, run[1..])
  }

  function Expected(x: Panics, run: seq<Item>): seq<Entry> {
    if run == [] then []
    else if run[0].Between? then Expected(x, run[1..])
    else Recorded(x, run[0].name, run[0].outcome) + Expected(x, run[1..])
  }

  /** With a test already waiting, the next test to wait comes with no outcome and no other test before it. */
  predicate MetWaiting(run: seq<Item>) {
    run != [] && (Waiting(run[0]) || (run[0].Between? && !run[0].line.Standalone? && MetWaiting(run[1..])))
  }

  /** Somewhere a test left waiting is met by the next test to wait. */
  ghost predicate Clashes(run: seq<Item>) {
    exists i :: 0 <= i < |run| && LeftWaiting(run[i]) && MetWaiting(run[i + 1..])
  }

  lemma ClashesFrom(run: seq<Item>)
    requires run != []
    ensures Clashes(run) <==> (LeftWaiting(run[0]) && MetWaiting(run[1..])) || Clashes(run[1..])
  {
    forall i | 0 <= i < |run| - 1 ensures run[1..][i] == run[i + 1] && run[1..][i + 1..] == run[i + 2..] {
    }
    if Clashes(run) {
      var i :| 0 <= i < |run| && LeftWaiting(run[i]) && MetWaiting(run[i + 1..]);
      assert i > 0 ==> run[1..][i - 1] == run[i] && run[1..][i - 1 + 1..] == run[i + 1..];
    }
    if LeftWaiting(run[0]) && MetWaiting(run[1..]) {
      assert run[0 + 1..] == run[1..];
    }
    if Clashes(run[1..]) {
      var i :| 0 <= i < |run[1..]| && LeftWaiting(run[1..][i]) && MetWaiting(run[1..][i + 1..]);
      assert run[1..][i] == run[i + 1] && run[1..][i + 1..] == run[i + 1 + 1..];
    }
  }

  lemma {:induction false} IdleSkips(x: Panics, s: State, lines: seq<Line>)
    requires s.current.None? && forall k :: 0 <= k < |lines| ==> !lines[k].Start?
    ensures After(x, s, lines) == Ok(s)
    decreases |lines|
  {
    if lines != [] {
      IdleSkips(x, s, lines[1..]);
    }
  }

  lemma {:induction false} WaitingReads(x: Panics, s: State, lines: seq<Line>)
    requires s.current.Some? && forall k :: 0 <= k < |lines| ==> !lines[k].Start?
    ensures After(x, s, lines) ==
            if FirstWord(lines).Some? then Ok(State(None, s.entries + Recorded(x, s.current.value, FirstWord(lines).value)))
            else Ok(s)
    decreases |lines|
  {
    hide Recorded;
    if lines != [] {
      if lines[0].Standalone? {
        IdleSkips(x, State(None, s.entries + Recorded(x, s.current.value, lines[0].outcome)), lines[1..]);
      } else {
        WaitingReads(x, s, lines[1..]);
      }
    }
  }

  lemma {:induction false} OwnWord(stdout: seq<Line>, outcome: Outcome)
    ensures FirstWord(stdout + [Standalone(outcome)]) ==
            Some(if FirstWord(stdout).Some? then FirstWord(stdout).value else outcome)
  {
    if stdout != [] {
      assert (stdout + [Standalone(outcome)])[1..] == stdout[1..] + [Standalone(outcome)];
      OwnWord(stdout[1..], outcome);
    }
  }

  /** One item, whether or not a test is waiting when it comes. */
  lemma ItemReads(x: Panics, s: State, t: Item)
    requires Serial(t)
    ensures s.current.Some? && Waiting(t) ==> After(x, s, RenderItem(t)).Err?
    ensures t.Between? ==>
              After(x, s, RenderItem(t)) ==
              Ok(if s.current.Some? && t.line.Standalone?
                 then State(None, s.entries + Recorded(x, s.current.value, t.line.outcome)) else s)
    ensures !t.Between? && (s.current.None? || !Waiting(t)) ==>
              After(x, s, RenderItem(t)) ==
              Ok(if LeftWaiting(t) then State(Some(t.name), s.entries)
                 else State(None, s.entries + Recorded(x, t.name, Read(t, []))))
  {
    hide Recorded;
    if t.Noisy? || t.Unended? {
      var rest := if t.Noisy? then t.stdout + [Standalone(t.outcome)] else t.stdout;
      assert RenderItem(t) == [Start(t.name, t.glued)] + rest;
      assert RenderItem(t)[1..] == rest;
      OwnWord(t.stdout, t.outcome);
      if Inline(t.glued).Some? {
        IdleSkips(x, State(None, s.entries + Recorded(x, t.name, Inline(t.glued).value)), rest);
      } else if s.current.None? {
        WaitingReads(x, s.(current := Some(t.name)), rest);
      }
    }
  }

  ghost predicate Outcomes(x: Panics, s: State, run: seq<Item>, r: Result<State, Interleaved>) {
    && (r.Err? <==> (s.current.Some? && MetWaiting(run)) || Clashes(run))
    && (r.Ok? ==>
          r.value.entries == s.entries
          + (if s.current.Some? && LaterWord(run).Some? then Recorded(x, s.current.value, LaterWord(run).value) else [])
          + Seen(x, run))
  }

  /** What becomes of the rest of a run, with nobody waiting and with a test waiting. */
  lemma {:induction false} RunReads(x: Panics, s: State, run: seq<Item>)
    requires SerialRun(run)
    ensures Outcomes(x, s, run, After(x, s, Render(run)))
    decreases |run|, 1
  {
    hide Recorded, RenderItem, Step, SerialRun, Clashes, Inline;
    if run == [] {
      NoClash();
      assert s.entries + [] + [] == s.entries;
    } else {
      var t, rest := run[0], run[1..];
      SerialParts(run);
      AfterJoin(x, s, RenderItem(t), Render(rest));
      ItemReads(x, s, t);
      ClashesFrom(run);
      if t.Between? {
        BetweenReads(x, s, run);
      } else if s.current.None? || !Waiting(t) {
        TestReads(x, s, run);
      }
    }
  }

  lemma NoClash()
    ensures !Clashes([])
  {
  }

  lemma SerialParts(run: seq<Item>)
    requires SerialRun(run) && run != []
    ensures Serial(run[0]) && SerialRun(run[1..])
  {
    assert forall i :: 0 <= i < |run[1..]| ==> run[1..][i] == run[i + 1];
  }

  lemma {:induction false} BetweenReads(x: Panics, s: State, run: seq<Item>)
    requires SerialRun(run) && run != [] && run[0].Between?
    requires Clashes(run) <==> Clashes(run[1..])
    requires After(x, s, Render(run)) ==
             After(x, if s.current.Some? && run[0].line.Standalone?
                      then State(None, s.entries + Recorded(x, s.current.value, run[0].line.outcome)) else s, Render(run[1..]))
    ensures Outcomes(x, s, run, After(x, s, Render(run)))
    decreases |run|, 0
  {
    hide Recorded, RenderItem, Step, SerialRun, Clashes, Serial;
    SerialParts(run);
    var s' := if s.current.Some? && run[0].line.Standalone?
              then State(None, s.entries + Recorded(x, s.current.value, run[0].line.outcome)) else s;
    RunReads(x, s', run[1..]);
    assert s'.entries + [] == s'.entries;
  }

  lemma {:induction false} TestReads(x: Panics, s: State, run: seq<Item>)
    requires SerialRun(run) && run != [] && !run[0].Between? && (s.current.None? || !Waiting(run[0]))
    requires Clashes(run) <==> (LeftWaiting(run[0]) && MetWaiting(run[1..])) || Clashes(run[1..])
    requires After(x, s, Render(run)) ==
             After(x, if LeftWaiting(run[0]) then State(Some(run[0].name), s.entries)
                      else State(None, s.entries + Recorded(x, run[0].name, Read(run[0], []))), Render(run[1..]))
    ensures Outcomes(x, s, run, After(x, s, Render(run)))
    decreases |run|, 0
  {
    hide RenderItem, Step, SerialRun, Clashes, Serial, Inline;
    SerialParts(run);
    var t, rest := run[0], run[1..];
    if LeftWaiting(t) {
      RunReads(x, State(Some(t.name), s.entries), rest);
      var later := if LaterWord(rest).Some? then Recorded(x, t.name, LaterWord(rest).value) else [];
      assert later == Recorded(x, t.name, Read(t, rest));
      assert s.entries + later + Seen(x, rest) == s.entries + [] + (later + Seen(x, rest));
    } else {
      var own := Recorded(x, t.name, Read(t, []));
      RunReads(x, State(None, s.entries + own), rest);
      assert s.entries + own + [] + Seen(x, rest) == s.entries + [] + (own + Seen(x, rest));
    }
  }

  /** A serial run raises if and only if a test whose output did not end in a line break is met by the next test to wait. */
  lemma SerialRunParses(x: Panics, run: seq<Item>)
    requires SerialRun(run)
    ensures Parse(x, Render(run)).Err? <==> Clashes(run)
    ensures !Clashes(run) ==> Parse(x, Render(run)) == Ok(Seen(x, run))
  {
    hide Clashes, SerialRun;
    RunReads(x, FRESH, run);
    assert [] + [] + Seen(x, run) == Seen(x, run);
  }

  /** So one in which every test ends its output with a line break, or has nothing but its outcome on its line, never raises. */
  lemma EndedRunsParse(x: Panics, run: seq<Item>)
    requires SerialRun(run) && forall i :: 0 <= i < |run| ==> !run[i].Unended?
    ensures Parse(x, Render(run)) == Ok(Seen(x, run))
  {
    SerialRunParses(x, run);
  }

  ghost predicate DistinctNames(run: seq<Item>) {
    forall i, j :: 0 <= i < j < |run| && !run[i].Between? && !run[j].Between? ==> run[i].name != run[j].name
  }

  /** Every test's outcome is read as its own. */
  ghost predicate ReadsOwn(run: seq<Item>) {
    forall i :: 0 <= i < |run| && !run[i].Between? ==> Read(run[i], run[i + 1..]) == run[i].outcome
  }

  /** The entries are right when nothing clashes and every outcome is read as its own, and, with one name a test, only then. */
  lemma RightIff(x: Panics, run: seq<Item>)
    requires SerialRun(run)
    ensures !Clashes(run) && ReadsOwn(run) ==> Parse(x, Render(run)) == Ok(Expected(x, run))
    ensures DistinctNames(run) && Parse(x, Render(run)) == Ok(Expected(x, run)) ==> !Clashes(run) && ReadsOwn(run)
  {
    hide Clashes, ReadsOwn, DistinctNames, SerialRun;
    SerialRunParses(x, run);
    SeenIsExpected(x, run);
  }

  lemma {:induction false} SeenIsExpected(x: Panics, run: seq<Item>)
    ensures ReadsOwn(run) ==> Seen(x, run) == Expected(x, run)
    ensures DistinctNames(run) && Seen(x, run) == Expected(x, run) ==> ReadsOwn(run)
    decreases |run|
  {
    if run != [] {
      hide Recorded, Read;
      var t, rest := run[0], run[1..];
      SeenIsExpected(x, rest);
      if !t.Between? && DistinctNames(run) {
        assert forall i :: 0 <= i < |rest| ==> rest[i] == run[i + 1];
        ModesAreNames(x, rest);
        FirstEntries(x, Seen(x, rest), Expected(x, rest), t.name, Read(t, rest), t.outcome);
      } else if DistinctNames(run) {
        assert forall i :: 0 <= i < |rest| ==> rest[i] == run[i + 1];
      }
    }
  }

  lemma {:induction false} ModesAreNames(x: Panics, run: seq<Item>)
    ensures forall e :: e in Seen(x, run) || e in Expected(x, run) ==>
              exists i :: 0 <= i < |run| && !run[i].Between? && run[i].name == e.mode
    decreases |run|
  {
    if run != [] {
      hide Read;
      var rest := run[1..];
      ModesAreNames(x, rest);
      forall e | e in Seen(x, run) || e in Expected(x, run)
        ensures exists i :: 0 <= i < |run| && !run[i].Between? && run[i].name == e.mode
      {
        if e in Seen(x, rest) || e in Expected(x, rest) {
          var i :| 0 <= i < |rest| && !rest[i].Between? && rest[i].name == e.mode;
          assert run[i + 1] == rest[i];
        } else {
          assert run[0].name == e.mode;
        }
      }
    }
  }

  lemma FirstEntries(x: Panics, a: seq<Entry>, b: seq<Entry>, name: string, o: Outcome, p: Outcome)
    requires forall e :: e in a || e in b ==> e.mode != name
    ensures Recorded(x, name, o) + a == Recorded(x, name, p) + b <==> o == p && a == b
  {
    var ro, rp := Recorded(x, name, o), Recorded(x, name, p);
    if ro + a == rp + b {
      if |ro| == 1 {
        assert (ro + a)[0] == ro[0];
      }
      if |rp| == 1 {
        assert (rp + b)[0] == rp[0];
      }
      assert |ro| == |rp| ==> a == (ro + a)[|ro|..] && b == (rp + b)[|rp|..];
    }
  }

  /** A test that prints `ok` first and then fails is reported as passed. */
  lemma PrintedOkHidesFailure(x: Panics, name: string)
    ensures Parse(x, Render([Noisy(name, "ok", [], Failed)])) == Ok([Entry(name, true, None)])
    ensures Parse(x, Render([Noisy(name, "", [Standalone(Passed)], Failed)])) == Ok([Entry(name, true, None)])
  {
    SeenAlone(x, Noisy(name, "ok", [], Failed));
    SeenAlone(x, Noisy(name, "", [Standalone(Passed)], Failed));
  }

  lemma SeenAlone(x: Panics, t: Item)
    requires Serial(t) && !t.Between? && !LeftWaiting(t)
    ensures Parse(x, Render([t])) == Ok(Recorded(x, t.name, Read(t, [])))
  {
    var one := [t];
    assert one[1..] == [];
    ClashesFrom(one);
    NoClash();
    SerialRunParses(x, one);
    assert Seen(x, one) == Recorded(x, t.name, Read(t, [])) + [] == Recorded(x, t.name, Read(t, []));
  }

  /** Two serial tests, of which the first prints `abc` and no line break: the second raises. */
  lemma UnendedRaises(x: Panics, first: string, second: string)
    ensures Parse(x, Render([Unended(first, "abcok", [], Passed), Noisy(second, "", [], Passed)])).Err?
  {
    var run := [Unended(first, "abcok", [], Passed), Noisy(second, "", [], Passed)];
    assert "abcok"[0] == 'a' && "ok"[0] == 'o' && "FAILED"[0] == 'F' && "ignored"[0] == 'i';
    assert LeftWaiting(run[0]);
    assert run[0 + 1..] == [Noisy(second, "", [], Passed)];
    assert MetWaiting(run[0 + 1..]);
    SerialRunParses(x, run);
  }

  /** A test ignored for a reason, and a serial test after it, which raises. */
  lemma IgnoredReasonRaises(x: Panics, first: string, reason: string, second: string)
    ensures Parse(x, Render([Unended(first, "ignored, " + reason, [], Ignored), Noisy(second, "", [], Passed)])).Err?
  {
    var glued := "ignored, " + reason;
    var run := [Unended(first, glued, [], Ignored), Noisy(second, "", [], Passed)];
    assert glued[0] == 'i' && |glued| > 7 && "ok"[0] == 'o' && "FAILED"[0] == 'F';
    assert LeftWaiting(run[0]);
    assert run[0 + 1..] == [Noisy(second, "", [], Passed)];
    assert MetWaiting(run[0 + 1..]);
    SerialRunParses(x, run);
  }

  // ----- What an entry says -----

  /** The entry of a test that ran: whether it passed, and if not the panic message found for it or the stock one. */
  ghost predicate Tells(x: Panics, e: Entry, name: string, outcome: Outcome) {
    && e.mode == name && (e.success <==> outcome == Passed)
    && (outcome == Passed ==> e.error == None)
    && (outcome == Failed ==> e.error == Some(if name in x then x[name] else "test failed (no panic message captured)"))
  }

  ghost predicate AllTell(x: Panics, es: seq<Entry>, ran: seq<Item>) {
    |es| == |ran| && forall i :: 0 <= i < |ran| ==> !ran[i].Between? && Tells(x, es[i], ran[i].name, ran[i].outcome)
  }

  lemma FirstTells(x: Panics, e: Entry, t: Item, es: seq<Entry>, ran: seq<Item>)
    requires !t.Between? && Tells(x, e, t.name, t.outcome) && AllTell(x, es, ran)
    ensures AllTell(x, [e] + es, [t] + ran)
  {
    hide Tells;
  }

  /** The right entries of a run: one for each test that ran, in order, that tells its outcome. */
  lemma {:induction false} EntriesTell(x: Panics, run: seq<Item>)
    ensures AllTell(x, Expected(x, run), RanOf(run))
    decreases |run|
  {
    if run != [] {
      var rest, ran := Expected(x, run[1..]), RanOf(run[1..]);
      EntriesTell(x, run[1..]);
      assert [] + ran == ran && [] + rest == rest;
      if !run[0].Between? {
        RecordedTells(x, run[0].name, run[0].outcome);
        var own := Recorded(x, run[0].name, run[0].outcome);
        hide Recorded, Tells, AllTell;
        if run[0].outcome != Ignored {
          assert own == [own[0]];
          FirstTells(x, own[0], run[0], rest, ran);
        }
      }
    }
  }

  lemma RecordedTells(x: Panics, name: string, outcome: Outcome)
    ensures var es := Recorded(x, name, outcome);
            if outcome == Ignored then es == [] else |es| == 1 && Tells(x, es[0], name, outcome)
  {
  }

  /** The tests that ran, in order. */
  function RanOf(run: seq<Item>): (ran: seq<Item>)
    ensures forall t :: t in ran <==> t in run && !t.Between? && t.outcome != Ignored
  {
    if run == [] then [] else
    (if run[0].Between? || run[0].outcome == Ignored then [] else [run[0]]) + RanOf(run[1..])
  }

  /** The trailers that are outcomes are the three words, and no other. */
  lemma InlineIs(trailer: string)
    ensures Inline(trailer) == Some(Passed) <==> trailer == "ok"
    ensures Inline(trailer) == Some(Failed) <==> trailer == "FAILED"
    ensures Inline(trailer) == Some(Ignored) <==> trailer == "ignored"
  {
    assert "ok"[0] == 'o' && "FAILED"[0] == 'F' && "ignored"[0] == 'i';
  }
}
