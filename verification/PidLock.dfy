/**
 The PID lock of `src/bootstrap.rs` as what the operating system sees of it: any number
 of processes interleave opening the lock file, trying its advisory lock, and, when the
 holder drops it, unlinking the path and only then closing the file. A crash closes
 files without unlinking.
 */
module PidLock {
  import opened Wrappers

  type Pid = nat
  type File = nat

  datatype Phase =
    | Outside
    | Opened(file: File)
    | Running(file: File)
    | Unlinked(file: File)

  /** What the path names, the next new file, who holds each file's lock, where each process is. */
  datatype World = World(path: Option<File>, next: File, locks: map<File, Pid>, procs: map<Pid, Phase>)

  datatype Event = Open(p: Pid) | TryLock(p: Pid) | Unlink(p: Pid) | Close(p: Pid) | Crash(p: Pid)

  const BOOT := World(None, 0, map[], map[])

  function At(w: World, p: Pid): Phase {
    if p in w.procs then w.procs[p] else Outside
  }

  function To(w: World, p: Pid, ph: Phase): World {
    w.(procs := w.procs[p := ph])
  }

  /** One step of one process, if it is at a point where it can take it. */
  function Next(w: World, e: Event): Option<World> {
    match e
    case Open(p) =>
      if At(w, p) != Outside then None
      else if w.path.Some? then Some(To(w, p, Opened(w.path.value)))
      else Some(To(w.(path := Some(w.next), next := w.next + 1), p, Opened(w.next)))
    case TryLock(p) =>
      if !At(w, p).Opened? then None
      else var f := At(w, p).file;
        if f in w.locks then Some(To(w, p, Outside))
        else Some(To(w.(locks := w.locks[f := p]), p, Running(f)))
    case Unlink(p) =>
      if !At(w, p).Running? then None else Some(To(w.(path := None), p, Unlinked(At(w, p).file)))
    case Close(p) =>
      if !At(w, p).Unlinked? then None else Some(To(w.(locks := w.locks - {At(w, p).file}), p, Outside))
    case Crash(p) =>
      if At(w, p) == Outside then None
      else Some(To(w.(locks := map f | f in w.locks && w.locks[f] != p :: w.locks[f]), p, Outside))
  }

  function Run(w: World, es: seq<Event>): Option<World>
    decreases es
  {
    if es == [] then Some(w) else
    match Next(w, es[0]) case None => None case Some(w') => Run(w', es[1..])
  }

  ghost predicate Holds(w: World, p: Pid, f: File) {
    At(w, p) == Running(f) || At(w, p) == Unlinked(f)
  }

  /** True of every reachable world. */
  ghost predicate Inv(w: World) {
    && (forall p, f :: Holds(w, p, f) <==> (f in w.locks && w.locks[f] == p))
    && (forall p :: At(w, p) != Outside ==> At(w, p).file < w.next)
    && (w.path.Some? ==> w.path.value < w.next)
    && (forall p :: At(w, p).Unlinked? ==> w.path != Some(At(w, p).file))
  }

  lemma StepInv(w: World, e: Event)
    requires Inv(w) && Next(w, e).Some?
    ensures Inv(Next(w, e).value)
    ensures Next(w, e).value.next >= w.next
  {
    var w' := Next(w, e).value;
    assert forall q :: q != e.p ==> At(w', q) == At(w, q);
    forall q, f ensures Holds(w', q, f) <==> (f in w'.locks && w'.locks[f] == q) {
      assert Holds(w, q, f) <==> (f in w.locks && w.locks[f] == q);
      if At(w, e.p) != Outside {
        assert Holds(w, e.p, At(w, e.p).file) <==> (At(w, e.p).file in w.locks && w.locks[At(w, e.p).file] == e.p);
      }
    }
    forall q | At(w', q).Unlinked? ensures w'.path != Some(At(w', q).file) {
      assert q != e.p ==> w.path != Some(At(w, q).file);
      assert q != e.p ==> At(w, q).file < w.next;
    }
  }

  lemma {:induction false} RunInv(w: World, es: seq<Event>)
    requires Inv(w) && Run(w, es).Some?
    ensures Inv(Run(w, es).value)
    decreases |es|
  {
    if es != [] {
      StepInv(w, es[0]);
      RunInv(Next(w, es[0]).value, es[1..]);
    }
  }

  /** In every run each file's lock has at most one holder. */
  lemma OneHolderPerFile(es: seq<Event>, p: Pid, q: Pid, f: File)
    requires Run(BOOT, es).Some?
    requires Holds(Run(BOOT, es).value, p, f) && Holds(Run(BOOT, es).value, q, f)
    ensures p == q
  {
    RunInv(BOOT, es);
  }

  // ----- One running instance -----

  /** The path no longer names the file this process opened. */
  ghost predicate Stale(w: World, p: Pid) {
    (At(w, p).Opened? || At(w, p).Running?) && w.path != Some(At(w, p).file)
  }

  ghost predicate Single(w: World) {
    forall p, q :: At(w, p).Running? && At(w, q).Running? ==> p == q
  }

  /** In this run nobody takes the lock of a file the path no longer names. */
  ghost predicate NoStaleLock(w: World, es: seq<Event>)
    requires Run(w, es).Some?
    decreases |es|
  {
    es != [] ==>
      && (es[0].TryLock? && At(Next(w, es[0]).value, es[0].p).Running? ==> !Stale(w, es[0].p))
      && NoStaleLock(Next(w, es[0]).value, es[1..])
  }

  /** In this run no unlink falls between another process's open and its lock attempt. */
  ghost predicate NoUnlinkInWindow(w: World, es: seq<Event>)
    requires Run(w, es).Some?
    decreases |es|
  {
    es != [] ==>
      && (es[0].Unlink? ==> forall q :: !At(w, q).Opened?)
      && NoUnlinkInWindow(Next(w, es[0]).value, es[1..])
  }

  ghost predicate RunnersLinked(w: World) {
    forall p :: At(w, p).Running? ==> !Stale(w, p)
  }

  ghost predicate NobodyStale(w: World) {
    forall p :: !Stale(w, p)
  }

  lemma LinkedIsSingle(w: World)
    requires Inv(w) && RunnersLinked(w)
    ensures Single(w)
  {
    forall p, q | At(w, p).Running? && At(w, q).Running? ensures p == q {
      assert !Stale(w, p) && !Stale(w, q);
      assert Holds(w, p, At(w, p).file) && Holds(w, q, At(w, q).file);
    }
  }

  lemma StepLinked(w: World, e: Event)
    requires Inv(w) && RunnersLinked(w) && Next(w, e).Some?
    requires e.TryLock? && At(Next(w, e).value, e.p).Running? ==> !Stale(w, e.p)
    ensures RunnersLinked(Next(w, e).value)
  {
    var w' := Next(w, e).value;
    LinkedIsSingle(w);
    forall p | At(w', p).Running? ensures !Stale(w', p) {
      assert p != e.p ==> At(w', p) == At(w, p);
      if p != e.p {
        assert !Stale(w, p);
        assert e.Unlink? ==> At(w, e.p).Running?;
      }
    }
  }

  /** Whatever the interleaving, if no stale file is ever locked there is at most one instance. */
  lemma {:induction false} SingleInstance(w: World, es: seq<Event>)
    requires Inv(w) && RunnersLinked(w) && Run(w, es).Some? && NoStaleLock(w, es)
    ensures Single(Run(w, es).value) && RunnersLinked(Run(w, es).value)
    decreases |es|
  {
    if es == [] {
      LinkedIsSingle(w);
    } else {
      StepInv(w, es[0]);
      StepLinked(w, es[0]);
      SingleInstance(Next(w, es[0]).value, es[1..]);
    }
  }

  lemma StepNobodyStale(w: World, e: Event)
    requires Inv(w) && NobodyStale(w) && Next(w, e).Some?
    requires e.Unlink? ==> forall q :: !At(w, q).Opened?
    ensures NobodyStale(Next(w, e).value)
  {
    var w' := Next(w, e).value;
    assert RunnersLinked(w);
    LinkedIsSingle(w);
    forall p ensures !Stale(w', p) {
      if p != e.p {
        assert At(w', p) == At(w, p) && !Stale(w, p);
      } else {
        assert !Stale(w, p);
      }
    }
  }

  /** Keeping unlinks out of everybody's open-to-lock window is enough for that. */
  lemma {:induction false} WindowsSuffice(w: World, es: seq<Event>)
    requires Inv(w) && NobodyStale(w) && Run(w, es).Some? && NoUnlinkInWindow(w, es)
    ensures NoStaleLock(w, es) && Single(Run(w, es).value)
    decreases |es|
  {
    if es == [] {
      LinkedIsSingle(w);
    } else {
      StepInv(w, es[0]);
      StepNobodyStale(w, es[0]);
      WindowsSuffice(Next(w, es[0]).value, es[1..]);
    }
  }

  /** Main theorem: from boot, at most one running instance in every such run. */
  lemma AtMostOneInstance(es: seq<Event>)
    requires Run(BOOT, es).Some? && NoUnlinkInWindow(BOOT, es)
    ensures Single(Run(BOOT, es).value)
  {
    WindowsSuffice(BOOT, es);
  }

  /** Within one window the open file goes stale exactly when someone unlinks. */
  lemma {:induction false} StaleIffUnlinked(w: World, es: seq<Event>, p: Pid)
    requires Inv(w) && At(w, p).Opened? && Run(w, es).Some?
    requires forall i :: 0 <= i < |es| ==> es[i].p != p
    ensures At(Run(w, es).value, p) == At(w, p)
    ensures Stale(Run(w, es).value, p) <==> Stale(w, p) || exists i :: 0 <= i < |es| && es[i].Unlink?
    decreases |es|
  {
    if es != [] {
      var w' := Next(w, es[0]).value;
      StepInv(w, es[0]);
      assert At(w', p) == At(w, p);
      assert forall i :: 0 <= i < |es[1..]| ==> es[1..][i] == es[i + 1];
      StaleIffUnlinked(w', es[1..], p);
      assert Stale(w', p) <==> Stale(w, p) || es[0].Unlink?;
      if Stale(w, p) || exists i :: 0 <= i < |es| && es[i].Unlink? {
        if !Stale(w, p) && !es[0].Unlink? {
          var i :| 0 <= i < |es| && es[i].Unlink?;
          assert es[1..][i - 1].Unlink?;
        }
      }
    }
  }

  /** The condition is needed: once a stale file is locked, two more steps of any idle process make two instances. */
  lemma StaleLockAdmitsSecond(w: World, p: Pid, q: Pid)
    requires Inv(w) && At(w, p).Running? && Stale(w, p) && At(w, q) == Outside
    ensures !Single(w) || (Run(w, [Open(q), TryLock(q)]).Some? && !Single(Run(w, [Open(q), TryLock(q)]).value))
  {
    var es := [Open(q), TryLock(q)];
    assert es[1..] == [TryLock(q)] && es[1..][1..] == [];
    var w1 := Next(w, es[0]).value;
    var f := At(w1, q).file;
    assert Holds(w, p, At(w, p).file);
    if f in w.locks {
      var r := w.locks[f];
      assert Holds(w, r, f);
      assert At(w, r) == Running(f);
    } else {
      var w2 := Next(w1, es[1]).value;
      assert At(w2, q).Running? && At(w2, p) == At(w, p);
      RunStep(w1, es, 1, w2);
      RunStep(w, es, 0, w1);
      assert es[0..] == es && es[2..] == [];
    }
  }

  /** With one more process starting now there is at most one running instance. */
  ghost predicate Secure(w: World, q: Pid) {
    Run(w, [Open(q), TryLock(q)]).Some? && Single(Run(w, [Open(q), TryLock(q)]).value)
  }

  /** At every point of the run, were the idle process `q` to start there. */
  ghost predicate AlwaysSecure(w: World, es: seq<Event>, q: Pid)
    requires Run(w, es).Some?
    decreases |es|
  {
    Secure(w, q) && (es != [] ==> AlwaysSecure(Next(w, es[0]).value, es[1..], q))
  }

  lemma TwoMoves(w: World, q: Pid)
    requires Inv(w) && At(w, q) == Outside
    ensures Next(w, Open(q)).Some?
    ensures var w1 := Next(w, Open(q)).value;
            && Next(w1, TryLock(q)).Some?
            && Run(w, [Open(q), TryLock(q)]) == Next(w1, TryLock(q))
            && Inv(w1) && !Stale(w1, q)
            && Inv(Next(w1, TryLock(q)).value)
            && (forall p :: p != q ==> At(Next(w1, TryLock(q)).value, p) == At(w, p))
  {
    StepInv(w, Open(q));
    StepInv(Next(w, Open(q)).value, TryLock(q));
    TwoSteps(w, Open(q), TryLock(q));
  }

  /** One more start is harmless exactly when every runner's file is still the one the path names. */
  lemma SecureIffLinked(w: World, q: Pid)
    requires Inv(w) && At(w, q) == Outside
    ensures Secure(w, q) <==> RunnersLinked(w)
  {
    hide Next, Inv, Holds;
    TwoMoves(w, q);
    var w1 := Next(w, Open(q)).value;
    var w2 := Next(w1, TryLock(q)).value;
    if RunnersLinked(w) {
      StepLinked(w, Open(q));
      StepLinked(w1, TryLock(q));
      LinkedIsSingle(w2);
    } else {
      var p :| At(w, p).Running? && Stale(w, p);
      if !Single(w) {
        var a, b :| At(w, a).Running? && At(w, b).Running? && a != b;
        assert At(w2, a).Running? && At(w2, b).Running?;
      } else {
        StaleLockAdmitsSecond(w, p, q);
      }
    }
  }

  /**
   The exact condition for one instance: in a run from boot beside which a process stays idle,
   that process could start at any point without a second instance if and only if nobody in the
   run locks a file the path no longer names.
   */
  lemma OneInstanceIff(es: seq<Event>, q: Pid)
    requires Run(BOOT, es).Some? && forall i :: 0 <= i < |es| ==> es[i].p != q
    ensures AlwaysSecure(BOOT, es, q) <==> NoStaleLock(BOOT, es)
  {
    SecureFrom(BOOT, es, q);
  }

  lemma {:induction false} SecureFrom(w: World, es: seq<Event>, q: Pid)
    requires Inv(w) && RunnersLinked(w) && At(w, q) == Outside
    requires Run(w, es).Some? && forall i :: 0 <= i < |es| ==> es[i].p != q
    ensures AlwaysSecure(w, es, q) <==> NoStaleLock(w, es)
    decreases |es|
  {
    SecureIffLinked(w, q);
    if es != [] {
      var w' := Next(w, es[0]).value;
      StepInv(w, es[0]);
      assert At(w', q) == At(w, q);
      assert forall i :: 0 <= i < |es[1..]| ==> es[1..][i] == es[i + 1];
      hide Inv, Secure;
      if es[0].TryLock? && At(w', es[0].p).Running? && Stale(w, es[0].p) {
        SecureIffLinked(w', q);
        assert !AlwaysSecure(w', es[1..], q);
      } else {
        StepLinked(w, es[0]);
        SecureFrom(w', es[1..], q);
      }
    }
  }

  lemma {:induction false} RunJoin(w: World, a: seq<Event>, b: seq<Event>)
    requires Run(w, a).Some?
    ensures Run(w, a + b) == Run(Run(w, a).value, b)
    decreases |a|
  {
    hide Next;
    if a == [] {
      assert a + b == b;
    } else {
      assert (a + b)[0] == a[0] && (a + b)[1..] == a[1..] + b;
      RunJoin(Next(w, a[0]).value, a[1..], b);
    }
  }

  /** The second process opened the file before the first one unlinked it and left. */
  lemma Unlinking()
    ensures var es := [Open(1), TryLock(1), Open(2)] + [Unlink(1), Close(1)];
            && Run(BOOT, es).Some?
            && var w := Run(BOOT, es).value;
               w.path == None && w.next == 1 && w.locks == map[] && At(w, 2) == Opened(0) && At(w, 3) == Outside
  {
    var w1 := Next(BOOT, Open(1)).value;
    var w2 := Next(w1, TryLock(1)).value;
    var w3 := Next(w2, Open(2)).value;
    var w4 := Next(w3, Unlink(1)).value;
    var w5 := Next(w4, Close(1)).value;
    assert w5.locks == map[];
    hide Next;
    TwoSteps(w1, TryLock(1), Open(2));
    assert [Open(1), TryLock(1), Open(2)] == [Open(1)] + [TryLock(1), Open(2)];
    RunJoin(BOOT, [Open(1)], [TryLock(1), Open(2)]);
    TwoSteps(w3, Unlink(1), Close(1));
    RunJoin(BOOT, [Open(1), TryLock(1), Open(2)], [Unlink(1), Close(1)]);
  }

  /** Then the second process locks a file nobody can find, and a third makes a new one. */
  lemma ThenBoth(w: World)
    requires w.path == None && w.next == 1 && w.locks == map[] && At(w, 2) == Opened(0) && At(w, 3) == Outside
    ensures var es := [TryLock(2)] + [Open(3), TryLock(3)];
            Run(w, es).Some? && At(Run(w, es).value, 2).Running? && At(Run(w, es).value, 3).Running?
  {
    var w1 := Next(w, TryLock(2)).value;
    var w2 := Next(w1, Open(3)).value;
    var w3 := Next(w2, TryLock(3)).value;
    assert At(w3, 2).Running? && At(w3, 3).Running?;
    hide Next;
    TwoSteps(w1, Open(3), TryLock(3));
    RunJoin(w, [TryLock(2)], [Open(3), TryLock(3)]);
  }

  /** The window itself: two instances. */
  lemma TwoInstances()
    ensures var es := [Open(1), TryLock(1), Open(2)] + [Unlink(1), Close(1)] + ([TryLock(2)] + [Open(3), TryLock(3)]);
            && Run(BOOT, es).Some?
            && At(Run(BOOT, es).value, 2).Running? && At(Run(BOOT, es).value, 3).Running?
  {
    hide Run, Next;
    var first := [Open(1), TryLock(1), Open(2)] + [Unlink(1), Close(1)];
    Unlinking();
    ThenBoth(Run(BOOT, first).value);
    RunJoin(BOOT, first, [TryLock(2)] + [Open(3), TryLock(3)]);
  }

  lemma RunStep(w: World, es: seq<Event>, i: nat, w': World)
    requires i < |es| && Next(w, es[i]) == Some(w')
    ensures Run(w, es[i..]) == Run(w', es[i + 1..])
  {
    assert es[i..][1..] == es[i + 1..];
  }

  lemma TwoSteps(w: World, a: Event, b: Event)
    requires Next(w, a).Some?
    ensures Run(w, [a, b]) == Next(Next(w, a).value, b)
  {
    var w' := Next(w, a).value;
    RunStep(w, [a, b], 0, w');
    assert [a, b][0..] == [a, b] && [a, b][1..] == [b] && [b][1..] == [];
  }

  // ----- When a start succeeds -----

  /** A process that opens and tries with nothing in between runs if and only if nobody holds the file the path names. */
  lemma AcquiresIff(w: World, p: Pid)
    requires Inv(w) && At(w, p) == Outside
    ensures var r := Run(w, [Open(p), TryLock(p)]);
            && r.Some?
            && (At(r.value, p).Running? <==> forall q :: w.path.Some? ==> !Holds(w, q, w.path.value))
            && (!At(r.value, p).Running? ==> At(r.value, p) == Outside && r.value.locks == w.locks && r.value.path == w.path)
  {
    TwoSteps(w, Open(p), TryLock(p));
    assert forall f :: f in w.locks ==> Holds(w, w.locks[f], f);
  }

  /** So once an instance has crashed, or has dropped its lock, the next one can start. */
  lemma NextCanStart(w: World, p: Pid, q: Pid)
    requires Inv(w) && p != q && At(w, p).Running? && w.path == Some(At(w, p).file) && At(w, q) == Outside
    ensures Run(w, [Crash(p)] + [Open(q), TryLock(q)]).Some?
    ensures At(Run(w, [Crash(p)] + [Open(q), TryLock(q)]).value, q).Running?
    ensures Run(w, [Unlink(p), Close(p)] + [Open(q), TryLock(q)]).Some?
    ensures At(Run(w, [Unlink(p), Close(p)] + [Open(q), TryLock(q)]).value, q).Running?
  {
    var crashed := Next(w, Crash(p)).value;
    StepInv(w, Crash(p));
    var unlinked := Next(w, Unlink(p)).value;
    StepInv(w, Unlink(p));
    var closed := Next(unlinked, Close(p)).value;
    StepInv(unlinked, Close(p));
    assert forall r :: r != p ==> At(crashed, r) == At(w, r) && At(closed, r) == At(w, r);
    assert crashed.path == w.path && closed.path.None? && At(crashed, p) == Outside;
    forall r ensures !Holds(crashed, r, w.path.value) {
      assert Holds(w, p, w.path.value) && (Holds(w, r, w.path.value) ==> r == p);
    }
    TwoSteps(w, Unlink(p), Close(p));
    assert [Crash(p)][1..] == [];
    assert Run(w, [Crash(p)]) == Some(crashed);
    hide Next, Run, Inv;
    AcquiresIff(crashed, q);
    AcquiresIff(closed, q);
    RunJoin(w, [Crash(p)], [Open(q), TryLock(q)]);
    RunJoin(w, [Unlink(p), Close(p)], [Open(q), TryLock(q)]);
  }

  // ----- The operations one process performs -----

  datatype LockError = AlreadyRunning

  /** The shared file system, updated by one process's calls when no other process runs in between. */
  class Host {
    var world: World

    constructor ()
      ensures world == BOOT
    {
      world := BOOT;
    }

    method AcquireAt(p: Pid) returns (r: Result<File, LockError>)
      requires At(world, p) == Outside
      modifies this
      ensures Run(old(world), [Open(p), TryLock(p)]) == Some(world)
      ensures match r case Ok(f) => At(world, p) == Running(f) case Err(_) => At(world, p) == Outside
    {
      TwoSteps(world, Open(p), TryLock(p));
      var file;
      if world.path.Some? {
        file := world.path.value;
      } else {
        file := world.next;
        world := world.(path := Some(file), next := file + 1);
      }
      world := world.(procs := world.procs[p := Opened(file)]);
      if file in world.locks {
        world := world.(procs := world.procs[p := Outside]);
        return Err(AlreadyRunning);
      }
      world := world.(locks := world.locks[file := p], procs := world.procs[p := Running(file)]);
      return Ok(file);
    }

    /** Drop: the path is unlinked first, the lock released when the file is closed after it. */
    method Release(p: Pid)
      requires At(world, p).Running?
      modifies this
      ensures Run(old(world), [Unlink(p), Close(p)]) == Some(world)
    {
      TwoSteps(world, Unlink(p), Close(p));
      var file := world.procs[p].file;
      world := world.(path := None, procs := world.procs[p := Unlinked(file)]);
      world := world.(locks := world.locks - {file}, procs := world.procs[p := Outside]);
    }
  }
}
