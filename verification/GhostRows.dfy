/**
 `cleanup_ghost_seeded_tool_permissions` in `src/app.rs`: the one-shot removal of permission
 rows that only repeat the seeded default. The seeded defaults are a parameter; a row is known
 by its tool.
 */
module GhostRows {
  import opened Wrappers

  datatype Permission = AlwaysAllow | AskEachTime | Disabled

  type Seeded = string -> Option<Permission>

  type Rows = map<string, Permission>

  datatype World = World(sentinel: bool, rows: Rows)

  /** Which store calls of one start work; `fails` are the tools whose row is not deleted. */
  datatype Luck = Luck(sentinelReads: bool, rowsRead: bool, fails: set<string>, sentinelWrites: bool)

  predicate Ghost(seeded: Seeded, rows: Rows, tool: string) {
    tool in rows && seeded(tool) == Some(rows[tool])
  }

  /** One start's cleanup. */
  function Cleaned(seeded: Seeded, w: World, l: Luck): World {
    if w.sentinel || !l.sentinelReads || !l.rowsRead then w
    else World(l.sentinelWrites, map t | t in w.rows && (Ghost(seeded, w.rows, t) ==> t in l.fails) :: w.rows[t])
  }

  class Settings {
    var sentinel: bool
    var rows: Rows

    /** The rows are read once and deleted one by one, in no particular order. */
    method CleanupGhostSeededToolPermissions(seeded: Seeded, l: Luck)
      modifies this
      ensures World(sentinel, rows) == Cleaned(seeded, old(World(sentinel, rows)), l)
    {
      if !l.sentinelReads || sentinel || !l.rowsRead {
        return;
      }
      var existing := rows;
      var todo := existing.Keys;
      while todo != {}
        invariant todo <= existing.Keys
        invariant forall t :: t in rows <==> t in existing && (t in todo || !Ghost(seeded, existing, t) || t in l.fails)
        invariant forall t :: t in rows ==> rows[t] == existing[t]
        invariant sentinel == old(sentinel)
        decreases |todo|
      {
        var tool :| tool in todo;
        todo := todo - {tool};
        if seeded(tool) == Some(existing[tool]) && tool !in l.fails {
          rows := rows - {tool};
        }
      }
      if l.sentinelWrites {
        sentinel := true;
      }
    }
  }

  // ----- Over any number of starts -----

  function Starts(seeded: Seeded, w: World, runs: seq<Luck>): World
    decreases |runs|
  {
    if runs == [] then w else Starts(seeded, Cleaned(seeded, w, runs[0]), runs[1..])
  }

  /** The `i`-th start gets as far as deleting: it reads both, and no earlier one that did wrote the sentinel. */
  ghost predicate Acts(w: World, runs: seq<Luck>, i: nat) {
    && i < |runs| && !w.sentinel && runs[i].sentinelReads && runs[i].rowsRead
    && forall k :: 0 <= k < i && runs[k].sentinelReads && runs[k].rowsRead ==> !runs[k].sentinelWrites
  }

  /**
   What is left after all starts: every row that is not a ghost, and exactly those ghosts that
   no acting start could delete. Nothing is ever added or changed.
   */
  lemma {:induction false} SurvivesIff(seeded: Seeded, w: World, runs: seq<Luck>, tool: string)
    ensures var w' := Starts(seeded, w, runs);
            && (tool in w'.rows <==>
                tool in w.rows &&
                (Ghost(seeded, w.rows, tool) ==> forall i :: 0 <= i < |runs| && Acts(w, runs, i) ==> tool in runs[i].fails))
            && (tool in w'.rows ==> w'.rows[tool] == w.rows[tool])
    decreases |runs|
  {
    if runs != [] {
      var w1 := Cleaned(seeded, w, runs[0]);
      SurvivesIff(seeded, w1, runs[1..], tool);
      if !w.sentinel {
        ActsLater(seeded, w, runs);
        if tool in w.rows && Ghost(seeded, w.rows, tool) {
          assert Acts(w, runs, 0) <==> !w.sentinel && runs[0].sentinelReads && runs[0].rowsRead;
          assert forall i :: 0 < i < |runs| && Acts(w, runs, i) ==> Acts(w1, runs[1..], i - 1) && runs[i] == runs[1..][i - 1];
          assert forall i :: 0 <= i < |runs[1..]| && Acts(w1, runs[1..], i) ==> Acts(w, runs, i + 1) && runs[1..][i] == runs[i + 1];
        }
      }
    }
  }

  lemma ActsLater(seeded: Seeded, w: World, runs: seq<Luck>)
    requires runs != [] && !w.sentinel
    ensures forall i :: 0 < i < |runs| ==> (Acts(w, runs, i) <==> Acts(Cleaned(seeded, w, runs[0]), runs[1..], i - 1))
  {
    forall i | 0 < i < |runs|
      ensures Acts(w, runs, i) <==> Acts(Cleaned(seeded, w, runs[0]), runs[1..], i - 1)
    {
      assert forall k :: 0 < k <= i ==> runs[k] == runs[1..][k - 1];
    }
  }

  /** A start that writes the sentinel leaves only explicit choices exactly when none of its deletions failed. */
  lemma OnlyChoicesLeftIff(seeded: Seeded, w: World, l: Luck)
    requires !w.sentinel && Cleaned(seeded, w, l).sentinel
    ensures (forall t: string :: !Ghost(seeded, Cleaned(seeded, w, l).rows, t)) <==>
            (forall t: string :: Ghost(seeded, w.rows, t) ==> t !in l.fails)
  {
    var w' := Cleaned(seeded, w, l);
    forall t: string ensures Ghost(seeded, w'.rows, t) <==> Ghost(seeded, w.rows, t) && t in l.fails {
    }
  }

  /** The sentinel is written after a failed deletion too, and then that ghost stays for good. */
  lemma {:induction false} FailedGhostStays(seeded: Seeded, w: World, l: Luck, runs: seq<Luck>, tool: string)
    requires !w.sentinel && Cleaned(seeded, w, l).sentinel
    requires Ghost(seeded, w.rows, tool) && tool in l.fails
    ensures Ghost(seeded, Starts(seeded, w, [l] + runs).rows, tool)
  {
    SurvivesIff(seeded, w, [l] + runs, tool);
    assert forall i :: 0 < i < |[l] + runs| ==> !Acts(w, [l] + runs, i) by {
      assert ([l] + runs)[0] == l;
    }
  }
}
