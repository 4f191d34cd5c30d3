/**
 The per-tenant rate registry of `src/tenant.rs`: any number of tasks interleave
 `get_or_create`, a read-locked lookup, then a write-locked second look and insert, and
 take and return LLM permits on the state they were handed.
 */
module TenantRegistry {
  import opened Wrappers

  type Task = nat
  type User = string
  type Id = nat
  type Permit = nat

  datatype Point =
    | Idle
    | Reading(user: User)
    | Missed(user: User)
    | Writing(user: User)
    | Created(user: User, id: Id)
    | Holding(user: User, id: Id)

  /** Which lock is held, and by whom. */
  datatype Lock = Lock(readers: set<Task>, writer: Option<Task>)

  datatype Grant = Grant(user: User, id: Id)

  /**
   `table` is the registry's map and `made` counts the states ever constructed; `free` is
   each state's semaphore and `out` the permits not yet returned.
   */
  datatype World = World(
    table: map<User, Id>, made: nat, lock: Lock, tasks: map<Task, Point>,
    free: map<Id, nat>, out: map<Permit, Grant>)

  datatype Event =
    | Call(t: Task, user: User)
    | LookUp(t: Task)
    | WaitWrite(t: Task)
    | LookAgain(t: Task)
    | Insert(t: Task)
    | Acquire(t: Task, permit: Permit)
    | Release(permit: Permit)
    | Leave(t: Task)

  const EMPTY := World(map[], 0, Lock({}, None), map[], map[], map[])

  function At(w: World, t: Task): Point {
    if t in w.tasks then w.tasks[t] else Idle
  }

  function To(w: World, t: Task, pt: Point): World {
    w.(tasks := w.tasks[t := pt])
  }

  /** One step; `limit` is `max_llm_concurrent`. A call may be dropped while it waits for the write lock. */
  function Next(limit: nat, w: World, e: Event): Option<World> {
    match e
    case Call(t, user) =>
      if At(w, t) != Idle || w.lock.writer.Some? then None
      else Some(To(w.(lock := w.lock.(readers := w.lock.readers + {t})), t, Reading(user)))
    case LookUp(t) =>
      if !At(w, t).Reading? then None
      else var user := At(w, t).user;
        var w' := w.(lock := w.lock.(readers := w.lock.readers - {t}));
        Some(To(w', t, if user in w.table then Holding(user, w.table[user]) else Missed(user)))
    case WaitWrite(t) =>
      if !At(w, t).Missed? || w.lock.readers != {} || w.lock.writer.Some? then None
      else Some(To(w.(lock := w.lock.(writer := Some(t))), t, Writing(At(w, t).user)))
    case LookAgain(t) =>
      if !At(w, t).Writing? then None
      else var user := At(w, t).user;
        if user in w.table then
          Some(To(w.(lock := w.lock.(writer := None)), t, Holding(user, w.table[user])))
        else
          Some(To(w.(made := w.made + 1, free := w.free[w.made := limit]), t, Created(user, w.made)))
    case Insert(t) =>
      if !At(w, t).Created? then None
      else var pt := At(w, t);
        Some(To(w.(table := w.table[pt.user := pt.id], lock := w.lock.(writer := None)), t, Holding(pt.user, pt.id)))
    case Acquire(t, permit) =>
      if !At(w, t).Holding? || permit in w.out then None
      else var pt := At(w, t);
        if pt.id !in w.free || w.free[pt.id] == 0 then None
        else Some(w.(free := w.free[pt.id := w.free[pt.id] - 1], out := w.out[permit := Grant(pt.user, pt.id)]))
    case Release(permit) =>
      if permit !in w.out then None
      else var id := w.out[permit].id;
        if id !in w.free then None
        else Some(w.(free := w.free[id := w.free[id] + 1], out := w.out - {permit}))
    case Leave(t) =>
      if !At(w, t).Holding? && !At(w, t).Missed? then None else Some(To(w, t, Idle))
  }

  function Run(limit: nat, w: World, es: seq<Event>): Option<World>
    decreases es
  {
    if es == [] then Some(w) else
    match Next(limit, w, es[0]) case None => None case Some(w') => Run(limit, w', es[1..])
  }

  lemma {:induction false} RunSnoc(limit: nat, w: World, es: seq<Event>, e: Event)
    requires Run(limit, w, es).Some?
    ensures Run(limit, w, es + [e]) == Next(limit, Run(limit, w, es).value, e)
    decreases |es|
  {
    hide Next;
    if es == [] {
      assert es + [e] == [e] && [e][1..] == [];
    } else {
      assert (es + [e])[0] == es[0] && (es + [e])[1..] == es[1..] + [e];
      RunSnoc(limit, Next(limit, w, es[0]).value, es[1..], e);
    }
  }

  /** The registry itself, used by one task while no other is at work on it. */
  class Registry {
    var world: World
    const limit: nat

    constructor (limit: nat)
      ensures world == EMPTY && this.limit == limit
    {
      this.world, this.limit := EMPTY, limit;
    }

    /** Look under the read lock; if there is nothing, look again under the write lock and insert. */
    method GetOrCreate(t: Task, user: User) returns (id: Id)
      requires At(world, t) == Idle && world.lock == Lock({}, None)
      modifies this`world
      ensures var missing := user !in old(world.table);
              && Run(limit, old(world), [Call(t, user), LookUp(t)] +
                     if missing then [WaitWrite(t), LookAgain(t), Insert(t)] else []) == Some(world)
              && id == (if missing then old(world.made) else old(world.table)[user])
              && world.table == old(world.table)[user := id]
              && world.lock == Lock({}, None) && At(world, t) == Holding(user, id)
    {
      ghost var before, done: seq<Event> := world, [];
      assert world.lock.readers + {t} == {t};
      done := StepTo(world.(lock := Lock({t}, None), tasks := world.tasks[t := Reading(user)]), before, done, Call(t, user));
      var unlocked := world.(lock := Lock(world.lock.readers - {t}, None));
      if user in world.table {
        id := world.table[user];
        done := StepTo(unlocked.(tasks := world.tasks[t := Holding(user, id)]), before, done, LookUp(t));
      } else {
        done := StepTo(unlocked.(tasks := world.tasks[t := Missed(user)]), before, done, LookUp(t));
        done := StepTo(world.(lock := Lock({}, Some(t)), tasks := world.tasks[t := Writing(user)]), before, done, WaitWrite(t));
        id := world.made;
        done := StepTo(world.(made := id + 1, free := world.free[id := limit], tasks := world.tasks[t := Created(user, id)]),
                       before, done, LookAgain(t));
        done := StepTo(world.(table := world.table[user := id], lock := Lock({}, None), tasks := world.tasks[t := Holding(user, id)]),
                       before, done, Insert(t));
      }
      assert done == [Call(t, user), LookUp(t)] + if user !in before.table then [WaitWrite(t), LookAgain(t), Insert(t)] else [];
    }

    method StepTo(w: World, ghost before: World, ghost done: seq<Event>, ghost e: Event) returns (ghost done': seq<Event>)
      requires Run(limit, before, done) == Some(world) && Next(limit, world, e) == Some(w)
      modifies this`world
      ensures world == w && done' == done + [e] && Run(limit, before, done') == Some(world)
    {
      RunSnoc(limit, before, done, e);
      world, done' := w, done + [e];
    }
  }

  /** The permits out on one state. */
  function OutOn(out: map<Permit, Grant>, id: Id): set<Permit> {
    set p | p in out && out[p].id == id
  }

  lemma OutAdd(out: map<Permit, Grant>, permit: Permit, g: Grant, id: Id)
    requires permit !in out
    ensures |OutOn(out[permit := g], id)| == |OutOn(out, id)| + if id == g.id then 1 else 0
  {
    assert OutOn(out[permit := g], id) == if id == g.id then OutOn(out, id) + {permit} else OutOn(out, id);
  }

  lemma OutRemove(out: map<Permit, Grant>, permit: Permit, id: Id)
    requires permit in out
    ensures |OutOn(out - {permit}, id)| == |OutOn(out, id)| - if id == out[permit].id then 1 else 0
  {
    if id == out[permit].id {
      assert permit in OutOn(out, id);
      assert OutOn(out - {permit}, id) == OutOn(out, id) - {permit};
    } else {
      assert OutOn(out - {permit}, id) == OutOn(out, id);
    }
  }

  function OutTo(w: World, user: User): set<Permit> {
    set p | p in w.out && w.out[p].user == user
  }

  /** Only the writer is between its second look and its insert, and it alone may have made a state not yet in the table. */
  ghost predicate Locked(w: World) {
    && (forall t: Task :: At(w, t).Reading? <==> t in w.lock.readers)
    && (forall t: Task :: At(w, t).Writing? || At(w, t).Created? <==> w.lock.writer == Some(t))
    && (w.lock.writer.Some? ==> w.lock.readers == {})
  }

  ghost predicate Unique(w: World) {
    && (forall u :: u in w.table ==> w.table[u] < w.made)
    && (forall u, v :: u in w.table && v in w.table && w.table[u] == w.table[v] ==> u == v)
    && (forall t: Task :: At(w, t).Holding? ==> Lookup(w.table, At(w, t).user) == Some(At(w, t).id))
    && (forall t: Task :: At(w, t).Created? ==> At(w, t).user !in w.table && At(w, t).id < w.made && At(w, t).id !in w.table.Values)
    && (forall id: Id :: id < w.made ==> id in w.table.Values || exists t: Task :: At(w, t).Created? && At(w, t).id == id)
  }

  ghost predicate Counted(limit: nat, w: World) {
    && (forall p :: p in w.out ==> Lookup(w.table, w.out[p].user) == Some(w.out[p].id))
    && (forall id: Id :: id < w.made ==> id in w.free && w.free[id] + |OutOn(w.out, id)| == limit)
  }

  ghost predicate Inv(limit: nat, w: World) {
    Locked(w) && Unique(w) && Counted(limit, w)
  }

  lemma StepLocked(limit: nat, w: World, e: Event)
    requires Locked(w) && Next(limit, w, e).Some?
    ensures Locked(Next(limit, w, e).value)
  {
    var w' := Next(limit, w, e).value;
    if !e.Release? {
      assert forall t: Task :: t != e.t ==> At(w', t) == At(w, t);
    } else {
      assert forall t: Task :: At(w', t) == At(w, t);
    }
  }

  lemma StepUnique(limit: nat, w: World, e: Event)
    requires Locked(w) && Unique(w) && Next(limit, w, e).Some?
    ensures Unique(Next(limit, w, e).value)
  {
    var w' := Next(limit, w, e).value;
    if e.Release? || e.Acquire? {
      assert forall t: Task :: At(w', t) == At(w, t);
    } else {
      assert forall t: Task :: t != e.t ==> At(w', t) == At(w, t);
      if e.LookAgain? && At(w', e.t).Created? {
        MadeOne(w, w', e.t);
      } else if e.Insert? {
        InsertedOne(w, w', e.t);
      } else {
        SameStates(w, w', e.t);
      }
    }
  }

  lemma SameStates(w: World, w': World, t: Task)
    requires Unique(w) && w'.table == w.table && w'.made == w.made
    requires forall s: Task :: s != t ==> At(w', s) == At(w, s)
    requires !At(w, t).Created? && !At(w', t).Created?
    requires At(w', t).Holding? ==> Lookup(w.table, At(w', t).user) == Some(At(w', t).id)
    ensures Unique(w')
  {
    forall id: Id | id < w'.made && id !in w'.table.Values
      ensures exists s: Task :: At(w', s).Created? && At(w', s).id == id
    {
      var s: Task :| At(w, s).Created? && At(w, s).id == id;
      assert At(w', s).Created? && At(w', s).id == id;
    }
  }

  lemma MadeOne(w: World, w': World, t: Task)
    requires Locked(w) && Unique(w) && At(w, t).Writing? && At(w, t).user !in w.table
    requires w'.table == w.table && w'.made == w.made + 1
    requires forall s: Task :: s != t ==> At(w', s) == At(w, s)
    requires At(w', t) == Created(At(w, t).user, w.made)
    ensures Unique(w')
  {
    forall id: Id | id < w'.made && id !in w'.table.Values
      ensures exists s: Task :: At(w', s).Created? && At(w', s).id == id
    {
      if id == w.made {
        assert At(w', t).Created? && At(w', t).id == id;
      }
    }
  }

  lemma InsertedOne(w: World, w': World, t: Task)
    requires Locked(w) && Unique(w) && At(w, t).Created?
    requires w'.table == w.table[At(w, t).user := At(w, t).id] && w'.made == w.made
    requires forall s: Task :: s != t ==> At(w', s) == At(w, s)
    requires At(w', t) == Holding(At(w, t).user, At(w, t).id)
    ensures Unique(w')
  {
    var user, id := At(w, t).user, At(w, t).id;
    assert forall s: Task :: At(w, s).Created? ==> s == t;
    forall i: Id | i < w'.made ensures i in w'.table.Values {
      if i == id {
        assert w'.table[user] == i;
      } else if i in w.table.Values {
        var u :| u in w.table && w.table[u] == i;
        assert u in w'.table && w'.table[u] == i;
      }
    }
  }

  lemma StepCounted(limit: nat, w: World, e: Event)
    requires Locked(w) && Unique(w) && Counted(limit, w) && Next(limit, w, e).Some?
    ensures Counted(limit, Next(limit, w, e).value)
  {
    var w' := Next(limit, w, e).value;
    if e.Acquire? {
      AcquireCounted(limit, w, w', e.permit, Grant(At(w, e.t).user, At(w, e.t).id));
    } else if e.Release? {
      ReleaseCounted(limit, w, w', e.permit);
    } else {
      KeptCounted(limit, w, w');
    }
  }

  lemma KeptCounted(limit: nat, w: World, w': World)
    requires Unique(w) && Counted(limit, w) && w'.out == w.out
    requires forall u :: u in w.table ==> Lookup(w'.table, u) == Lookup(w.table, u)
    requires (w'.made == w.made && w'.free == w.free) || (w'.made == w.made + 1 && w'.free == w.free[w.made := limit])
    ensures Counted(limit, w')
  {
    hide OutOn;
    forall p | p in w.out ensures Lookup(w'.table, w.out[p].user) == Some(w.out[p].id) {
      assert Lookup(w.table, w.out[p].user) == Some(w.out[p].id);
    }
    FreshUnused(limit, w);
  }

  lemma AcquireCounted(limit: nat, w: World, w': World, permit: Permit, g: Grant)
    requires Counted(limit, w) && permit !in w.out && Lookup(w.table, g.user) == Some(g.id)
    requires g.id in w.free && w.free[g.id] > 0
    requires w'.table == w.table && w'.made == w.made
    requires w'.out == w.out[permit := g] && w'.free == w.free[g.id := w.free[g.id] - 1]
    ensures Counted(limit, w')
  {
    hide OutOn;
    forall i: Id | i < w'.made ensures i in w'.free && w'.free[i] + |OutOn(w'.out, i)| == limit {
      OutAdd(w.out, permit, g, i);
    }
  }

  lemma ReleaseCounted(limit: nat, w: World, w': World, permit: Permit)
    requires Counted(limit, w) && permit in w.out && w.out[permit].id in w.free
    requires w'.table == w.table && w'.made == w.made
    requires w'.out == w.out - {permit} && w'.free == w.free[w.out[permit].id := w.free[w.out[permit].id] + 1]
    ensures Counted(limit, w')
  {
    hide OutOn;
    forall i: Id | i < w'.made ensures i in w'.free && w'.free[i] + |OutOn(w'.out, i)| == limit {
      OutRemove(w.out, permit, i);
    }
  }

  lemma FreshUnused(limit: nat, w: World)
    requires Unique(w) && Counted(limit, w)
    ensures OutOn(w.out, w.made) == {}
  {
    forall p | p in w.out ensures w.out[p].id != w.made {
      assert Lookup(w.table, w.out[p].user) == Some(w.out[p].id);
    }
  }

  lemma {:induction false} RunInv(limit: nat, w: World, es: seq<Event>)
    requires Inv(limit, w) && Run(limit, w, es).Some?
    ensures Inv(limit, Run(limit, w, es).value)
    decreases |es|
  {
    hide Locked, Unique, Counted;
    if es != [] {
      StepLocked(limit, w, es[0]);
      StepUnique(limit, w, es[0]);
      StepCounted(limit, w, es[0]);
      RunInv(limit, Next(limit, w, es[0]).value, es[1..]);
    }
  }

  /** In every interleaving two tasks holding a state hold the same one exactly when they asked for the same user. */
  lemma OneStatePerUser(limit: nat, es: seq<Event>, s: Task, t: Task)
    requires Run(limit, EMPTY, es).Some?
    requires At(Run(limit, EMPTY, es).value, s).Holding? && At(Run(limit, EMPTY, es).value, t).Holding?
    ensures var w := Run(limit, EMPTY, es).value;
            At(w, s).id == At(w, t).id <==> At(w, s).user == At(w, t).user
  {
    RunInv(limit, EMPTY, es);
  }

  /** No state is made and thrown away: each is in the table, or its maker is about to put it there. */
  lemma NoStateDiscarded(limit: nat, es: seq<Event>, id: Id)
    requires Run(limit, EMPTY, es).Some? && id < Run(limit, EMPTY, es).value.made
    ensures var w := Run(limit, EMPTY, es).value;
            id in w.table.Values || exists t: Task :: At(w, t).Created? && At(w, t).id == id && w.lock.writer == Some(t)
  {
    RunInv(limit, EMPTY, es);
    var w := Run(limit, EMPTY, es).value;
    if id !in w.table.Values {
      var t: Task :| At(w, t).Created? && At(w, t).id == id;
      assert w.lock.writer == Some(t);
    }
  }

  /** A user never has more permits out than the limit, over all the contexts the registry served. */
  lemma PermitsBounded(limit: nat, es: seq<Event>, user: User)
    requires Run(limit, EMPTY, es).Some?
    ensures |OutTo(Run(limit, EMPTY, es).value, user)| <= limit
  {
    RunInv(limit, EMPTY, es);
    var w := Run(limit, EMPTY, es).value;
    if user in w.table {
      var id := w.table[user];
      forall p | p in w.out ensures w.out[p].user == user <==> w.out[p].id == id {
        assert Lookup(w.table, w.out[p].user) == Some(w.out[p].id);
      }
      assert OutTo(w, user) == OutOn(w.out, id);
    } else {
      assert OutTo(w, user) == {};
    }
  }

  /** A permit is refused to a user only when all of theirs are out. */
  lemma RefusedOnlyWhenFull(limit: nat, es: seq<Event>, t: Task, permit: Permit)
    requires Run(limit, EMPTY, es).Some?
    requires var w := Run(limit, EMPTY, es).value;
             At(w, t).Holding? && permit !in w.out && Next(limit, w, Acquire(t, permit)).None?
    ensures |OutTo(Run(limit, EMPTY, es).value, At(Run(limit, EMPTY, es).value, t).user)| == limit
  {
    RunInv(limit, EMPTY, es);
    var w := Run(limit, EMPTY, es).value;
    var user, id := At(w, t).user, At(w, t).id;
    assert w.table[user] == id;
    forall p | p in w.out ensures w.out[p].user == user <==> w.out[p].id == id {
      assert Lookup(w.table, w.out[p].user) == Some(w.out[p].id);
    }
    assert OutTo(w, user) == OutOn(w.out, id);
  }
}
