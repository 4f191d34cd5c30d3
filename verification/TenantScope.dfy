/**
 The ownership-guarded calls of `TenantScope` in `src/tenant.rs`, over a database that
 looks rows up by id alone. Each guarded call checks the owner and then acts; the two
 halves are separate database calls, so calls of several users may interleave.
 */
module TenantScope {
  import opened Wrappers

  type User = string
  type Id = nat

  datatype Job = Job(owner: User, status: string, reason: Option<string>)
  datatype Routine = Routine(id: Id, owner: User, name: string, enabled: bool)
  datatype Conversation = Conversation(owner: User, channel: string, messages: seq<string>, metadata: map<string, string>, touches: nat)

  datatype Store = Store(jobs: map<Id, Job>, routines: map<Id, Routine>, conversations: map<Id, Conversation>)

  datatype Call =
    | GetJob(id: Id)
    | FailureReason(id: Id)
    | UpdateJobStatus(id: Id, status: string, reason: Option<string>)
    | GetRoutine(id: Id)
    | UpdateRoutine(routine: Routine)
    | DeleteRoutine(id: Id)
    | AddMessage(id: Id, text: string)
    | Touch(id: Id)
    | ListMessages(id: Id)
    | SetMetadata(id: Id, key: string, value: string)
    | GetMetadata(id: Id)
    | CreateRoutine(routine: Routine)
    | EnsureConversation(id: Id, channel: string)

  datatype Answer =
    | Nothing
    | NotFound
    | Done
    | Conflict
    | Flag(b: bool)
    | AJob(job: Job)
    | ARoutine(r: Routine)
    | Reason(reason: Option<string>)
    | Messages(messages: seq<string>)
    | Metadata(metadata: map<string, string>)

  function JobOwner(s: Store, id: Id): Option<User> {
    if id in s.jobs then Some(s.jobs[id].owner) else None
  }

  function RoutineOwner(s: Store, id: Id): Option<User> {
    if id in s.routines then Some(s.routines[id].owner) else None
  }

  function ConversationOwner(s: Store, id: Id): Option<User> {
    if id in s.conversations then Some(s.conversations[id].owner) else None
  }

  /** The ownership check a call makes first; calls without one pass. */
  predicate Guard(u: User, s: Store, c: Call) {
    match c
    case GetJob(id) => JobOwner(s, id) == Some(u)
    case FailureReason(id) => JobOwner(s, id) == Some(u)
    case UpdateJobStatus(id, _, _) => JobOwner(s, id) == Some(u)
    case GetRoutine(id) => RoutineOwner(s, id) == Some(u)
    case UpdateRoutine(r) => RoutineOwner(s, r.id) == Some(u)
    case DeleteRoutine(id) => RoutineOwner(s, id) == Some(u)
    case AddMessage(id, _) => ConversationOwner(s, id) == Some(u)
    case Touch(id) => ConversationOwner(s, id) == Some(u)
    case ListMessages(id) => ConversationOwner(s, id) == Some(u)
    case SetMetadata(id, _, _) => ConversationOwner(s, id) == Some(u)
    case GetMetadata(id) => ConversationOwner(s, id) == Some(u)
    case CreateRoutine(_) => true
    case EnsureConversation(_, _) => true
  }

  /** The answer when the check fails. */
  function Refusal(c: Call): Answer {
    if c.GetJob? || c.FailureReason? || c.GetRoutine? then Nothing else NotFound
  }

  /** What the database does, by id alone; an update never writes the owner column. */
  function Act(u: User, s: Store, c: Call): (Store, Answer) {
    match c
    case GetJob(id) => (s, if id in s.jobs then AJob(s.jobs[id]) else Nothing)
    case FailureReason(id) => (s, Reason(if id in s.jobs then s.jobs[id].reason else None))
    case UpdateJobStatus(id, status, reason) =>
      (if id in s.jobs then s.(jobs := s.jobs[id := s.jobs[id].(status := status, reason := reason)]) else s, Done)
    case GetRoutine(id) => (s, if id in s.routines then ARoutine(s.routines[id]) else Nothing)
    case UpdateRoutine(r) =>
      (if r.id in s.routines then s.(routines := s.routines[r.id := r.(owner := s.routines[r.id].owner)]) else s, Done)
    case DeleteRoutine(id) => (s.(routines := s.routines - {id}), Flag(id in s.routines))
    case AddMessage(id, text) => (OnConversation(s, id, (cv: Conversation) => cv.(messages := cv.messages + [text])), Done)
    case Touch(id) => (OnConversation(s, id, (cv: Conversation) => cv.(touches := cv.touches + 1)), Done)
    case ListMessages(id) => (s, Messages(if id in s.conversations then s.conversations[id].messages else []))
    case SetMetadata(id, key, value) => (OnConversation(s, id, (cv: Conversation) => cv.(metadata := cv.metadata[key := value])), Done)
    case GetMetadata(id) => (s, Metadata(if id in s.conversations then s.conversations[id].metadata else map[]))
    case CreateRoutine(r) => if r.id in s.routines then (s, Conflict) else (s.(routines := s.routines[r.id := r]), Done)
    case EnsureConversation(id, channel) =>
      if id !in s.conversations then
        (s.(conversations := s.conversations[id := Conversation(u, channel, [], map[], 0)]), Flag(true))
      else if s.conversations[id].owner == u && s.conversations[id].channel == channel then
        (OnConversation(s, id, (cv: Conversation) => cv.(touches := cv.touches + 1)), Flag(true))
      else (s, Flag(false))
  }

  function OnConversation(s: Store, id: Id, f: Conversation -> Conversation): Store {
    if id in s.conversations then s.(conversations := s.conversations[id := f(s.conversations[id])]) else s
  }

  /** A whole call, check and act with nothing in between. */
  function Do(u: User, s: Store, c: Call): (Store, Answer) {
    if Guard(u, s, c) then Act(u, s, c) else (s, Refusal(c))
  }

  function DoAll(u: User, s: Store, cs: seq<Call>): Store
    decreases cs
  {
    if cs == [] then s else DoAll(u, Do(u, s, cs[0]).0, cs[1..])
  }

  // ----- The scope object -----

  class Database {
    var store: Store
  }

  class Scope {
    const user: User
    const db: Database

    constructor (user: User, db: Database)
      ensures this.user == user && this.db == db
    {
      this.user, this.db := user, db;
    }

    method GetJob(id: Id) returns (r: Option<Job>)
      ensures r == match Do(user, db.store, Call.GetJob(id)).1 case AJob(j) => Some(j) case _ => None
    {
      if id in db.store.jobs && db.store.jobs[id].owner == user {
        return Some(db.store.jobs[id]);
      }
      return None;
    }

    method UpdateJobStatus(id: Id, status: string, reason: Option<string>) returns (r: Answer)
      modifies db
      ensures (db.store, r) == Do(user, old(db.store), Call.UpdateJobStatus(id, status, reason))
    {
      var job := GetJob(id);
      if job.None? {
        return NotFound;
      }
      var s := db.store;
      db.store := s.(jobs := s.jobs[id := s.jobs[id].(status := status, reason := reason)]);
      return Done;
    }

    method UpdateRoutine(routine: Routine) returns (r: Answer)
      modifies db
      ensures (db.store, r) == Do(user, old(db.store), Call.UpdateRoutine(routine))
    {
      var s := db.store;
      if !(routine.id in s.routines && s.routines[routine.id].owner == user) {
        return NotFound;
      }
      db.store := s.(routines := s.routines[routine.id := routine.(owner := s.routines[routine.id].owner)]);
      return Done;
    }

    method DeleteRoutine(id: Id) returns (r: Answer)
      modifies db
      ensures (db.store, r) == Do(user, old(db.store), Call.DeleteRoutine(id))
    {
      var s := db.store;
      if !(id in s.routines && s.routines[id].owner == user) {
        return NotFound;
      }
      db.store := s.(routines := s.routines - {id});
      return Flag(true);
    }

    /** The owner of the new routine is only a debug assertion. */
    method CreateRoutine(routine: Routine) returns (r: Answer)
      modifies db
      ensures (db.store, r) == Do(user, old(db.store), Call.CreateRoutine(routine))
    {
      var s := db.store;
      if routine.id in s.routines {
        return Conflict;
      }
      db.store := s.(routines := s.routines[routine.id := routine]);
      return Done;
    }

    method AddConversationMessage(id: Id, text: string) returns (r: Answer)
      modifies db
      ensures (db.store, r) == Do(user, old(db.store), AddMessage(id, text))
    {
      var s := db.store;
      if !(id in s.conversations && s.conversations[id].owner == user) {
        return NotFound;
      }
      var cv := s.conversations[id];
      db.store := s.(conversations := s.conversations[id := cv.(messages := cv.messages + [text])]);
      return Done;
    }
  }

  // ----- Isolation, call by call -----

  /** The rows of `v` are the same in both. */
  ghost predicate SameRows(v: User, a: Store, b: Store) {
    && (forall id: Id :: JobOwner(a, id) == Some(v) || JobOwner(b, id) == Some(v) ==> Lookup(a.jobs, id) == Lookup(b.jobs, id))
    && (forall id: Id :: RoutineOwner(a, id) == Some(v) || RoutineOwner(b, id) == Some(v) ==>
          Lookup(a.routines, id) == Lookup(b.routines, id))
    && (forall id: Id :: ConversationOwner(a, id) == Some(v) || ConversationOwner(b, id) == Some(v) ==>
          Lookup(a.conversations, id) == Lookup(b.conversations, id))
  }

  lemma SameRowsTransitive(v: User, a: Store, b: Store, c: Store)
    requires SameRows(v, a, b) && SameRows(v, b, c)
    ensures SameRows(v, a, c)
  {
    forall id: Id | JobOwner(a, id) == Some(v) || JobOwner(c, id) == Some(v) ensures Lookup(a.jobs, id) == Lookup(c.jobs, id) {
      assert JobOwner(b, id) == Some(v);
    }
    forall id: Id | RoutineOwner(a, id) == Some(v) || RoutineOwner(c, id) == Some(v)
      ensures Lookup(a.routines, id) == Lookup(c.routines, id) {
      assert RoutineOwner(b, id) == Some(v);
    }
    forall id: Id | ConversationOwner(a, id) == Some(v) || ConversationOwner(c, id) == Some(v)
      ensures Lookup(a.conversations, id) == Lookup(c.conversations, id) {
      assert ConversationOwner(b, id) == Some(v);
    }
  }

  /** A call made for `u` that would plant a row of `v`. */
  predicate Plants(s: Store, c: Call, v: User) {
    c.CreateRoutine? && c.routine.id !in s.routines && c.routine.owner == v
  }

  /** A call by `u` leaves the rows of another user alone exactly when it does not create a routine in that user's name. */
  lemma CallIsolates(u: User, v: User, s: Store, c: Call)
    requires v != u
    ensures SameRows(v, s, Do(u, s, c).0) <==> !Plants(s, c, v)
  {
    var s' := Do(u, s, c).0;
    if Plants(s, c, v) {
      assert RoutineOwner(s', c.routine.id) == Some(v);
      assert Lookup(s.routines, c.routine.id) != Lookup(s'.routines, c.routine.id);
    }
  }

  /** Some call of the run plants a row of `v`. */
  ghost predicate RunPlants(u: User, s: Store, cs: seq<Call>, v: User)
    decreases |cs|
  {
    cs != [] && (Plants(s, cs[0], v) || RunPlants(u, Do(u, s, cs[0]).0, cs[1..], v))
  }

  /** A routine of another user stays that user's. */
  lemma {:induction false} StaysOwned(u: User, v: User, s: Store, cs: seq<Call>, id: Id)
    requires v != u && RoutineOwner(s, id) == Some(v)
    ensures RoutineOwner(DoAll(u, s, cs), id) == Some(v)
    decreases |cs|
  {
    if cs != [] {
      assert RoutineOwner(Do(u, s, cs[0]).0, id) == Some(v);
      StaysOwned(u, v, Do(u, s, cs[0]).0, cs[1..], id);
    }
  }

  /** So does every sequence of a user's calls: what is planted stays, so nothing later makes up for it. */
  lemma {:induction false} RunIsolates(u: User, v: User, s: Store, cs: seq<Call>)
    requires v != u
    ensures SameRows(v, s, DoAll(u, s, cs)) <==> !RunPlants(u, s, cs, v)
    decreases |cs|
  {
    if cs != [] {
      var s1, end := Do(u, s, cs[0]).0, DoAll(u, s, cs);
      CallIsolates(u, v, s, cs[0]);
      RunIsolates(u, v, s1, cs[1..]);
      if Plants(s, cs[0], v) {
        StaysOwned(u, v, s1, cs[1..], cs[0].routine.id);
        assert RoutineOwner(s, cs[0].routine.id) != RoutineOwner(end, cs[0].routine.id) == Some(v);
      } else if SameRows(v, s, end) {
        SameRowsTransitive(v, s1, s, end);
      } else if SameRows(v, s1, end) {
        SameRowsTransitive(v, s, s1, end);
      }
    }
  }

  /** In particular a run that creates routines only for its own user. */
  lemma {:induction false} OwnRoutinesOnly(u: User, v: User, s: Store, cs: seq<Call>)
    requires v != u && forall i :: 0 <= i < |cs| && cs[i].CreateRoutine? ==> cs[i].routine.owner == u
    ensures !RunPlants(u, s, cs, v)
    decreases |cs|
  {
    if cs != [] {
      assert forall i :: 0 <= i < |cs[1..]| ==> cs[1..][i] == cs[i + 1];
      OwnRoutinesOnly(u, v, Do(u, s, cs[0]).0, cs[1..]);
    }
  }

  /** Calls guarded by an id: everything but the two that create. */
  predicate Guarded(c: Call) {
    !c.CreateRoutine? && !c.EnsureConversation?
  }

  function Target(c: Call): Id {
    if c.UpdateRoutine? || c.CreateRoutine? then c.routine.id else c.id
  }

  /** At one id the two stores agree on the row, if either holds a row of `u` there. */
  lemma SameAt(u: User, a: Store, b: Store, id: Id)
    requires SameRows(u, a, b)
    ensures JobOwner(a, id) == Some(u) || JobOwner(b, id) == Some(u) ==> Lookup(a.jobs, id) == Lookup(b.jobs, id)
    ensures RoutineOwner(a, id) == Some(u) || RoutineOwner(b, id) == Some(u) ==> Lookup(a.routines, id) == Lookup(b.routines, id)
    ensures ConversationOwner(a, id) == Some(u) || ConversationOwner(b, id) == Some(u) ==>
              Lookup(a.conversations, id) == Lookup(b.conversations, id)
  {
  }

  lemma ActAtRoutine(u: User, a: Store, b: Store, c: Call, id: Id)
    requires Guarded(c)
    ensures Lookup(a.routines, id) == Lookup(b.routines, id) ==>
              Lookup(Act(u, a, c).0.routines, id) == Lookup(Act(u, b, c).0.routines, id)
  {
    if id == Target(c) {
      assert id in a.routines <==> Lookup(a.routines, id).Some?;
    }
  }

  lemma ActAtConversation(u: User, a: Store, b: Store, c: Call, id: Id)
    requires Guarded(c)
    ensures Lookup(a.conversations, id) == Lookup(b.conversations, id) ==>
              Lookup(Act(u, a, c).0.conversations, id) == Lookup(Act(u, b, c).0.conversations, id)
  {
  }

  lemma RoutinesGone(u: User, s: Store, c: Call, id: Id)
    requires Guarded(c)
    ensures RoutineOwner(Act(u, s, c).0, id).Some? ==> RoutineOwner(s, id) == RoutineOwner(Act(u, s, c).0, id)
    ensures JobOwner(Act(u, s, c).0, id) == JobOwner(s, id)
    ensures ConversationOwner(Act(u, s, c).0, id) == ConversationOwner(s, id)
  {
  }

  /** Nothing a user learns through guarded calls depends on anybody else's rows. */
  lemma CallBlind(u: User, a: Store, b: Store, c: Call)
    requires SameRows(u, a, b) && Guarded(c)
    ensures Do(u, a, c).1 == Do(u, b, c).1 && SameRows(u, Do(u, a, c).0, Do(u, b, c).0)
  {
    AnswerBlind(u, a, b, c);
    if Guard(u, a, c) {
      var a', b' := Act(u, a, c).0, Act(u, b, c).0;
      hide Act, SameRows, JobOwner, RoutineOwner, ConversationOwner;
      forall id: Id
        ensures JobOwner(a', id) == Some(u) || JobOwner(b', id) == Some(u) ==> Lookup(a'.jobs, id) == Lookup(b'.jobs, id)
        ensures RoutineOwner(a', id) == Some(u) || RoutineOwner(b', id) == Some(u) ==> Lookup(a'.routines, id) == Lookup(b'.routines, id)
        ensures ConversationOwner(a', id) == Some(u) || ConversationOwner(b', id) == Some(u) ==>
                  Lookup(a'.conversations, id) == Lookup(b'.conversations, id)
      {
        SameAt(u, a, b, id);
        assert Lookup(a.jobs, id) == Lookup(b.jobs, id) ==> Lookup(Act(u, a, c).0.jobs, id) == Lookup(Act(u, b, c).0.jobs, id);
        ActAtRoutine(u, a, b, c, id);
        ActAtConversation(u, a, b, c, id);
        RoutinesGone(u, a, c, id);
        RoutinesGone(u, b, c, id);
      }
      assert SameRows(u, a', b');
    }
  }

  lemma AnswerBlind(u: User, a: Store, b: Store, c: Call)
    requires SameRows(u, a, b) && Guarded(c)
    ensures Guard(u, a, c) <==> Guard(u, b, c)
    ensures Do(u, a, c).1 == Do(u, b, c).1
  {
    SameAt(u, a, b, Target(c));
    hide SameRows, OnConversation;
    var id := Target(c);
    assert Lookup(a.jobs, id) == Lookup(b.jobs, id) ==> (id in a.jobs <==> id in b.jobs);
    assert Lookup(a.routines, id) == Lookup(b.routines, id) ==> (id in a.routines <==> id in b.routines);
    assert Lookup(a.conversations, id) == Lookup(b.conversations, id) ==> (id in a.conversations <==> id in b.conversations);
  }

  function Answers(u: User, s: Store, cs: seq<Call>): seq<Answer>
    decreases cs
  {
    if cs == [] then [] else [Do(u, s, cs[0]).1] + Answers(u, Do(u, s, cs[0]).0, cs[1..])
  }

  lemma {:induction false} RunBlind(u: User, a: Store, b: Store, cs: seq<Call>)
    requires SameRows(u, a, b) && forall i :: 0 <= i < |cs| ==> Guarded(cs[i])
    ensures Answers(u, a, cs) == Answers(u, b, cs) && SameRows(u, DoAll(u, a, cs), DoAll(u, b, cs))
    decreases |cs|
  {
    if cs != [] {
      CallBlind(u, a, b, cs[0]);
      assert forall i :: 0 <= i < |cs[1..]| ==> cs[1..][i] == cs[i + 1];
      RunBlind(u, Do(u, a, cs[0]).0, Do(u, b, cs[0]).0, cs[1..]);
    }
  }

  // ----- Isolation when checks and acts interleave -----

  datatype Pending = Pending(user: User, call: Call)

  /** `usedRoutines` is every routine id that was ever a row. */
  datatype World = World(store: Store, pending: seq<Pending>, usedRoutines: set<Id>)

  datatype Event = Check(user: User, call: Call) | Finish(i: nat)

  function Next(w: World, e: Event): Option<World> {
    match e
    case Check(u, c) =>
      if Guard(u, w.store, c) then Some(w.(pending := w.pending + [Pending(u, c)])) else Some(w)
    case Finish(i) =>
      if i >= |w.pending| then None
      else
        var p := w.pending[i];
        var s' := Act(p.user, w.store, p.call).0;
        Some(World(s', w.pending[..i] + w.pending[i + 1..], w.usedRoutines + s'.routines.Keys))
  }

  /** The call names a row that is the user's own, or gone. */
  ghost predicate Owned(w: World, p: Pending) {
    match p.call
    case GetJob(id) => JobOwner(w.store, id) == Some(p.user)
    case FailureReason(id) => JobOwner(w.store, id) == Some(p.user)
    case UpdateJobStatus(id, _, _) => JobOwner(w.store, id) == Some(p.user)
    case GetRoutine(id) => RoutineGoneOrOwn(w, id, p.user)
    case UpdateRoutine(r) => RoutineGoneOrOwn(w, r.id, p.user)
    case DeleteRoutine(id) => RoutineGoneOrOwn(w, id, p.user)
    case CreateRoutine(_) => true
    case EnsureConversation(_, _) => true
    case _ => ConversationOwner(w.store, p.call.id) == Some(p.user)
  }

  ghost predicate RoutineGoneOrOwn(w: World, id: Id, u: User) {
    id in w.usedRoutines && (RoutineOwner(w.store, id) == Some(u) || RoutineOwner(w.store, id) == None)
  }

  ghost predicate Inv(w: World) {
    && w.store.routines.Keys <= w.usedRoutines
    && forall i :: 0 <= i < |w.pending| ==> Owned(w, w.pending[i])
  }

  /** A creation uses an id that was never a row before, and creates for its own user. */
  ghost predicate FreshAndOwn(w: World, e: Event) {
    e.Finish? && e.i < |w.pending| && w.pending[e.i].call.CreateRoutine? ==>
      w.pending[e.i].call.routine.id !in w.usedRoutines && w.pending[e.i].call.routine.owner == w.pending[e.i].user
  }

  /** Ownership of a row never changes hands, so a check stays good until its act, whoever runs in between. */
  lemma StepInv(w: World, e: Event)
    requires Inv(w) && FreshAndOwn(w, e) && Next(w, e).Some?
    ensures Inv(Next(w, e).value)
  {
    var w' := Next(w, e).value;
    match e {
      case Check(u, c) =>
        if Guard(u, w.store, c) {
          assert Owned(w', Pending(u, c));
        }
        forall i | 0 <= i < |w'.pending| ensures Owned(w', w'.pending[i]) {
          assert i < |w.pending| ==> Owned(w, w.pending[i]);
        }
      case Finish(i) =>
        OwnersKept(w.pending[i].user, w.store, w.pending[i].call);
        forall j | 0 <= j < |w'.pending| ensures Owned(w', w'.pending[j]) {
          var k := if j < i then j else j + 1;
          assert w'.pending[j] == w.pending[k];
          assert Owned(w', w.pending[k]);
        }
    }
  }

  /** Acting keeps the owner of every row that stays. */
  lemma OwnersKept(u: User, s: Store, c: Call)
    ensures var s' := Act(u, s, c).0;
            && (forall id: Id :: JobOwner(s', id) == JobOwner(s, id))
            && (forall id: Id :: id in s.conversations ==> ConversationOwner(s', id) == ConversationOwner(s, id))
            && (forall id: Id :: id in s'.routines && id in s.routines ==> RoutineOwner(s', id) == RoutineOwner(s, id))
            && (forall id: Id :: id in s'.routines && id !in s.routines ==> c.CreateRoutine? && c.routine.id == id)
  {
  }

  /** Every act, however late, leaves every other user's rows as they are. */
  lemma InterleavedIsolation(w: World, i: nat, v: User)
    requires Inv(w) && i < |w.pending| && FreshAndOwn(w, Finish(i)) && v != w.pending[i].user
    ensures Next(w, Finish(i)).Some? && SameRows(v, w.store, Next(w, Finish(i)).value.store)
  {
    assert Owned(w, w.pending[i]);
  }

  function Run(w: World, es: seq<Event>): Option<World>
    decreases es
  {
    if es == [] then Some(w) else
    match Next(w, es[0]) case None => None case Some(w') => Run(w', es[1..])
  }

  /** A check and its act with nothing in between are the whole call; a check that fails leaves nothing to act on. */
  lemma AtOnceIsWhole(w: World, u: User, c: Call)
    requires w.pending == []
    ensures var checked := Next(w, Check(u, c)).value;
            if Guard(u, w.store, c) then
              && Next(checked, Finish(0)).Some?
              && Next(checked, Finish(0)).value.store == Do(u, w.store, c).0 && Next(checked, Finish(0)).value.pending == []
            else checked == w && Next(checked, Finish(0)).None?
  {
  }

  /** No creation reuses an id or names another user, and none of the acts are made for `v`. */
  ghost predicate WithoutHelpOf(v: User, w: World, es: seq<Event>)
    requires Run(w, es).Some?
    decreases |es|
  {
    es != [] ==>
      && FreshAndOwn(w, es[0])
      && (es[0].Finish? ==> w.pending[es[0].i].user != v)
      && WithoutHelpOf(v, Next(w, es[0]).value, es[1..])
  }

  /** However the checks and acts of the other users interleave, a user's rows stay as they are. */
  lemma {:induction false} InterleavedRun(v: User, w: World, es: seq<Event>)
    requires Inv(w) && Run(w, es).Some? && WithoutHelpOf(v, w, es)
    ensures Inv(Run(w, es).value) && SameRows(v, w.store, Run(w, es).value.store)
    decreases |es|
  {
    hide Inv, SameRows, FreshAndOwn, Next;
    if es == [] {
      SameSelf(v, w.store);
    } else {
      var w' := Next(w, es[0]).value;
      StepInv(w, es[0]);
      StepIsolates(v, w, es[0]);
      InterleavedRun(v, w', es[1..]);
      SameRowsTransitive(v, w.store, w'.store, Run(w, es).value.store);
    }
  }

  lemma SameSelf(v: User, s: Store)
    ensures SameRows(v, s, s)
  {
  }

  lemma StepIsolates(v: User, w: World, e: Event)
    requires Inv(w) && FreshAndOwn(w, e) && Next(w, e).Some?
    requires e.Finish? ==> w.pending[e.i].user != v
    ensures SameRows(v, w.store, Next(w, e).value.store)
  {
    hide Inv, SameRows, FreshAndOwn;
    if e.Finish? {
      InterleavedIsolation(w, e.i, v);
    } else {
      SameSelf(v, w.store);
    }
  }

  /**
   Without fresh ids the window between check and act is real: the checked routine is
   deleted, its id given to another user's routine, and the late act edits that one.
   */
  lemma ReusedIdCrosses(u: User, v: User)
    requires u != v
    ensures var mine, theirs := Routine(7, u, "mine", true), Routine(7, v, "theirs", true);
            var s := Store(map[], map[7 := mine], map[]);
            var checked := Guard(u, s, UpdateRoutine(mine));
            var deleted := Do(u, s, DeleteRoutine(7)).0;
            var created := Do(v, deleted, CreateRoutine(theirs)).0;
            var late := Act(u, created, UpdateRoutine(mine)).0;
            checked && created.routines[7] == theirs && late.routines[7] == Routine(7, v, "mine", true)
            && !SameRows(v, created, late)
  {
    var mine, theirs := Routine(7, u, "mine", true), Routine(7, v, "theirs", true);
    var s := Store(map[], map[7 := mine], map[]);
    var created := Do(v, Do(u, s, DeleteRoutine(7)).0, CreateRoutine(theirs)).0;
    var late := Act(u, created, UpdateRoutine(mine)).0;
    assert RoutineOwner(created, 7) == Some(v);
    assert late.routines[7].name == "mine" && created.routines[7].name == "theirs";
    assert "mine"[0] != "theirs"[0];
    assert Lookup(created.routines, 7) != Lookup(late.routines, 7);
  }

  // ----- What a call does to its caller's own rows -----

  /** The owner's new status and reason are what is read back, and nothing else changes; anyone else is not served. */
  lemma StatusReadsBack(u: User, s: Store, id: Id, status: string, reason: Option<string>)
    ensures var (s', a) := Do(u, s, UpdateJobStatus(id, status, reason));
            if id in s.jobs && s.jobs[id].owner == u then
              && a == Done && s' == Store(s.jobs[id := Job(u, status, reason)], s.routines, s.conversations)
              && Do(u, s', GetJob(id)) == (s', AJob(Job(u, status, reason)))
              && Do(u, s', FailureReason(id)) == (s', Reason(reason))
            else
              && a == NotFound && s' == s
              && Do(u, s, GetJob(id)) == (s, Nothing) && Do(u, s, FailureReason(id)) == (s, Nothing)
  {
  }

  /** So are a routine's new fields, all but its owner. */
  lemma RoutineReadsBack(u: User, s: Store, r: Routine)
    ensures var (s', a) := Do(u, s, UpdateRoutine(r));
            if r.id in s.routines && s.routines[r.id].owner == u then
              && a == Done && s' == Store(s.jobs, s.routines[r.id := Routine(r.id, u, r.name, r.enabled)], s.conversations)
              && Do(u, s', GetRoutine(r.id)) == (s', ARoutine(Routine(r.id, u, r.name, r.enabled)))
            else a == NotFound && s' == s && Do(u, s, GetRoutine(r.id)) == (s, Nothing)
  {
  }

  /** A deleted routine is gone, for everyone, and only that one. */
  lemma DeletedIsGone(u: User, s: Store, id: Id, v: User)
    ensures var (s', a) := Do(u, s, DeleteRoutine(id));
            if id in s.routines && s.routines[id].owner == u then
              && a == Flag(true) && s' == Store(s.jobs, s.routines - {id}, s.conversations)
              && Do(v, s', GetRoutine(id)) == (s', Nothing)
            else a == NotFound && s' == s
  {
  }

  /** A created routine is stored as given and read by the user it names; a taken id is a conflict. */
  lemma CreatedReadsBack(u: User, s: Store, r: Routine, v: User)
    ensures var (s', a) := Do(u, s, CreateRoutine(r));
            if r.id in s.routines then a == Conflict && s' == s
            else && a == Done && s' == Store(s.jobs, s.routines[r.id := r], s.conversations)
                 && Do(v, s', GetRoutine(r.id)) == (s', if v == r.owner then ARoutine(r) else Nothing)
  {
  }

  /** A message is the last one read back, after those there were. */
  lemma MessageReadsBack(u: User, s: Store, id: Id, text: string)
    ensures var (s', a) := Do(u, s, AddMessage(id, text));
            if id in s.conversations && s.conversations[id].owner == u then
              var cv := s.conversations[id];
              && a == Done
              && s' == Store(s.jobs, s.routines,
                             s.conversations[id := Conversation(u, cv.channel, cv.messages + [text], cv.metadata, cv.touches)])
              && Do(u, s, ListMessages(id)) == (s, Messages(cv.messages))
              && Do(u, s', ListMessages(id)) == (s', Messages(cv.messages + [text]))
            else a == NotFound && s' == s && Do(u, s, ListMessages(id)) == (s, NotFound)
  {
  }

  /** A metadata field is read back among the others; a touch is counted and nothing else. */
  lemma MetadataReadsBack(u: User, s: Store, id: Id, key: string, value: string)
    ensures var (s', a) := Do(u, s, SetMetadata(id, key, value));
            if id in s.conversations && s.conversations[id].owner == u then
              var cv := s.conversations[id];
              && a == Done
              && s' == Store(s.jobs, s.routines,
                             s.conversations[id := Conversation(u, cv.channel, cv.messages, cv.metadata[key := value], cv.touches)])
              && Do(u, s', GetMetadata(id)) == (s', Metadata(cv.metadata[key := value]))
              && Do(u, s, Touch(id)) ==
                   (Store(s.jobs, s.routines,
                          s.conversations[id := Conversation(u, cv.channel, cv.messages, cv.metadata, cv.touches + 1)]), Done)
            else a == NotFound && s' == s && Do(u, s, GetMetadata(id)) == (s, NotFound) && Do(u, s, Touch(id)) == (s, NotFound)
  {
  }

  /** A conversation that is ensured is the caller's from then on, empty if it is new; an id that is taken otherwise is refused. */
  lemma EnsuredIsOwned(u: User, s: Store, id: Id, channel: string)
    ensures var (s', a) := Do(u, s, EnsureConversation(id, channel));
            if id !in s.conversations then
              && a == Flag(true)
              && s' == Store(s.jobs, s.routines, s.conversations[id := Conversation(u, channel, [], map[], 0)])
              && Do(u, s', ListMessages(id)) == (s', Messages([]))
            else
              var cv := s.conversations[id];
              if cv.owner == u && cv.channel == channel then
                && a == Flag(true)
                && s' == Store(s.jobs, s.routines,
                               s.conversations[id := Conversation(u, channel, cv.messages, cv.metadata, cv.touches + 1)])
              else a == Flag(false) && s' == s
  {
  }

  /** A call and who makes it. */
  datatype Made = Made(user: User, call: Call)

  function DoMade(s: Store, ms: seq<Made>): Store
    decreases |ms|
  {
    if ms == [] then s else DoMade(Do(ms[0].user, s, ms[0].call).0, ms[1..])
  }

  /** Calls of other users that create no routine in the user's name. */
  ghost predicate ByOthers(u: User, ms: seq<Made>) {
    forall i :: 0 <= i < |ms| ==> ms[i].user != u && (ms[i].call.CreateRoutine? ==> ms[i].call.routine.owner != u)
  }

  lemma {:induction false} OthersKeep(u: User, s: Store, ms: seq<Made>)
    requires ByOthers(u, ms)
    ensures SameRows(u, s, DoMade(s, ms))
    decreases |ms|
  {
    if ms != [] {
      var s1 := Do(ms[0].user, s, ms[0].call).0;
      CallIsolates(ms[0].user, u, s, ms[0].call);
      assert forall i :: 0 <= i < |ms[1..]| ==> ms[1..][i] == ms[i + 1];
      OthersKeep(u, s1, ms[1..]);
      SameRowsTransitive(u, s, s1, DoMade(s, ms));
    }
  }

  /**
   A user reads what it wrote, whatever calls other users make in between: whatever guarded call
   comes next is answered as if there had been none.
   */
  lemma ReadsOwnWrites(u: User, s: Store, write: Call, ms: seq<Made>, read: Call)
    requires ByOthers(u, ms) && Guarded(read)
    ensures var s' := Do(u, s, write).0;
            Do(u, DoMade(s', ms), read).1 == Do(u, s', read).1
  {
    var s' := Do(u, s, write).0;
    OthersKeep(u, s', ms);
    CallBlind(u, s', DoMade(s', ms), read);
  }
}
