/**
 The master key across restarts: `SecretsConfig::resolve` and its generated keys
 (`src/config/secrets.rs`), the safety gate of `init_secrets` (`src/app.rs`) and its
 rollback (`src/secrets/mod.rs`). Rows of the secrets table are known by their keys.
 */
module KeyGate {
  import opened Wrappers

  type Key = nat

  /** The key in `.env`, the key in the OS keychain, the keys of the rows, the next key to be generated. */
  datatype World = World(env: Option<Key>, keychain: Option<Key>, rows: set<Key>, next: Key)

  /** How one write goes; a file can be written and then refuse its permissions. */
  datatype Write = Works | Refused | TookEffectThenFailed

  /**
   How one start goes: what each store does, whether it dies before the gate, whether the
   rollback takes effect (what it reports is only logged), whether it writes a secret.
   */
  datatype Luck = Luck(
    probeWorks: bool, keychainStores: Write, envWrites: Write,
    diesBeforeGate: bool, probeRowsWorks: bool, rollbackWorks: bool, writesRow: bool)

  datatype Source = FromEnv | FromKeychain

  datatype Resolved = Unresolved | Key(key: Key, source: Source, generated: bool)

  datatype Outcome = Failed | Died | Ran(key: Key)

  /**
   `.env` first, then the keychain, else a new key persisted to whichever reports that it took it.
   A keychain that takes the key and reports a failure is passed over for `.env`; if that reports
   a failure too, there is no key and the start fails.
   */
  function Resolve(w: World, l: Luck): (World, Resolved) {
    if w.env.Some? then (w, Key(w.env.value, FromEnv, false))
    else if l.probeWorks && w.keychain.Some? then (w, Key(w.keychain.value, FromKeychain, false))
    else
      var w1 := w.(next := w.next + 1);
      var w2 := if l.keychainStores.Refused? then w1 else w1.(keychain := Some(w.next));
      if l.keychainStores.Works? then (w2, Key(w.next, FromKeychain, true)) else
      var w3 := if l.envWrites.Refused? then w2 else w2.(env := Some(w.next));
      if l.envWrites.Works? then (w3, Key(w.next, FromEnv, true)) else (w3, Unresolved)
  }

  function RolledBack(w: World, source: Source): World {
    if source.FromEnv? then w.(env := None) else w.(keychain := None)
  }

  /** One start, from resolving the key to possibly writing a secret under it. */
  function Start(w: World, l: Luck): (World, Outcome) {
    var (w1, r) := Resolve(w, l);
    if r.Unresolved? then (w1, Failed)
    else if l.diesBeforeGate then (w1, Died)
    else if r.generated && (!l.probeRowsWorks || w1.rows != {}) then
      (if l.rollbackWorks then RolledBack(w1, r.source) else w1, Failed)
    else
      (if l.writesRow then w1.(rows := w1.rows + {r.key}) else w1, Ran(r.key))
  }

  /** The host a process starts on, step by step: resolve the key, pass the gate or roll back, serve. */
  class Host {
    var env: Option<Key>
    var keychain: Option<Key>
    var rows: set<Key>
    var next: Key

    ghost function Contents(): World
      reads this
    {
      World(env, keychain, rows, next)
    }

    method ResolveKey(l: Luck) returns (r: Resolved)
      modifies this
      ensures (Contents(), r) == Resolve(old(Contents()), l)
    {
      if env.Some? {
        return Key(env.value, FromEnv, false);
      }
      if l.probeWorks && keychain.Some? {
        return Key(keychain.value, FromKeychain, false);
      }
      var made := next;
      next := next + 1;
      if !l.keychainStores.Refused? {
        keychain := Some(made);
      }
      if l.keychainStores.Works? {
        return Key(made, FromKeychain, true);
      }
      if !l.envWrites.Refused? {
        env := Some(made);
      }
      if l.envWrites.Works? {
        return Key(made, FromEnv, true);
      }
      return Unresolved;
    }

    method StartUp(l: Luck) returns (o: Outcome)
      modifies this
      ensures (Contents(), o) == Start(old(Contents()), l)
    {
      var resolved := ResolveKey(l);
      if resolved.Unresolved? {
        return Failed;
      }
      if l.diesBeforeGate {
        return Died;
      }
      if resolved.generated && (!l.probeRowsWorks || rows != {}) {
        if l.rollbackWorks {
          match resolved.source {
            case FromEnv => env := None;
            case FromKeychain => keychain := None;
          }
        }
        return Failed;
      }
      if l.writesRow {
        rows := rows + {resolved.key};
      }
      return Ran(resolved.key);
    }
  }

  /** Besides starting, the operator may lose the keys, restore the right one, or clear the table. */
  datatype Event = Starts(l: Luck) | LosesKeys | Restores(key: Key) | ClearsRows

  function Next(w: World, e: Event): World {
    match e
    case Starts(l) => Start(w, l).0
    case LosesKeys => w.(env := None, keychain := None)
    case Restores(key) => if w.rows <= {key} && key < w.next then w.(env := Some(key)) else w
    case ClearsRows => w.(rows := {})
  }

  function Run(w: World, es: seq<Event>): World
    decreases es
  {
    if es == [] then w else Run(Next(w, es[0]), es[1..])
  }

  /** The key the next start would use. */
  function Persisted(w: World): Option<Key> {
    if w.env.Some? then w.env else w.keychain
  }

  /** The persisted key, if there is one, opens every row. */
  ghost predicate Matches(w: World) {
    Persisted(w).Some? ==> w.rows <= {Persisted(w).value}
  }

  /** Generated keys are new. */
  ghost predicate Known(w: World) {
    && (w.env.Some? ==> w.env.value < w.next)
    && (w.keychain.Some? ==> w.keychain.value < w.next)
    && (forall k :: k in w.rows ==> k < w.next)
  }

  /**
   A start that leaves no key of its own behind when the gate rejects it: either it persisted
   none, or it persisted one in the one store it reports, reached the gate, and rolled it back.
   */
  predicate Sound(l: Luck) {
    match l.keychainStores
    case TookEffectThenFailed => false
    case Works => l.rollbackWorks && !l.diesBeforeGate
    case Refused =>
      match l.envWrites
      case TookEffectThenFailed => false
      case Works => l.rollbackWorks && !l.diesBeforeGate
      case Refused => true
  }

  /** The start finds a key, or there is nothing to protect, or it is sound. */
  predicate Safe(w: World, l: Luck) {
    w.env.Some? || (l.probeWorks && w.keychain.Some?) || w.rows == {} || Sound(l)
  }

  /** A start keeps the match exactly when it is safe. */
  lemma StartMatchesIff(w: World, l: Luck)
    requires Known(w) && Matches(w)
    ensures Matches(Start(w, l).0) <==> Safe(w, l)
  {
    if !Safe(w, l) {
      assert Persisted(Start(w, l).0) == Some(w.next);
      var k :| k in w.rows;
      assert k != w.next;
    }
  }

  ghost predicate AlwaysMatches(w: World, es: seq<Event>)
    decreases |es|
  {
    Matches(w) && (es != [] ==> AlwaysMatches(Next(w, es[0]), es[1..]))
  }

  ghost predicate SafeRun(w: World, es: seq<Event>)
    decreases |es|
  {
    es != [] ==> (es[0].Starts? ==> Safe(w, es[0].l)) && SafeRun(Next(w, es[0]), es[1..])
  }

  /** Over any run the persisted key matches the rows throughout if and only if every start in it is safe. */
  lemma {:induction false} MatchesIffSafe(w: World, es: seq<Event>)
    requires Known(w) && Matches(w)
    ensures AlwaysMatches(w, es) <==> SafeRun(w, es)
    decreases |es|
  {
    if es != [] {
      if es[0].Starts? {
        StartMatchesIff(w, es[0].l);
      }
      if Matches(Next(w, es[0])) {
        MatchesIffSafe(Next(w, es[0]), es[1..]);
      }
    }
  }

  /** In particular in every run of sound starts, whatever else fails. */
  lemma {:induction false} PersistedKeyMatches(w: World, es: seq<Event>)
    requires Known(w) && Matches(w)
    requires forall i :: 0 <= i < |es| && es[i].Starts? ==> Sound(es[i].l)
    ensures Known(Run(w, es)) && Matches(Run(w, es))
    decreases |es|
  {
    if es != [] {
      if es[0].Starts? {
        StartMatchesIff(w, es[0].l);
      }
      assert forall i :: 0 <= i < |es[1..]| ==> es[1..][i] == es[i + 1];
      PersistedKeyMatches(Next(w, es[0]), es[1..]);
    }
  }

  /** So nothing is ever written under a key that cannot open what is already there. */
  lemma RowsStayOneKey(w: World, es: seq<Event>, l: Luck)
    requires Known(w) && Matches(w) && Sound(l)
    requires forall i :: 0 <= i < |es| && es[i].Starts? ==> Sound(es[i].l)
    ensures var (w', o) := Start(Run(w, es), l);
            o.Ran? ==> w'.rows <= {o.key} && Run(w, es).rows <= {o.key}
  {
    PersistedKeyMatches(w, es);
  }

  /** While rows remain and no key does, every sound start fails, touches no row, and leaves no key behind. */
  lemma {:induction false} ForeignRowsBlock(w: World, ls: seq<Luck>)
    requires w.rows != {} && Persisted(w).None?
    requires forall i :: 0 <= i < |ls| ==> Sound(ls[i])
    ensures var w' := Run(w, seq(|ls|, i requires 0 <= i < |ls| => Starts(ls[i])));
            w'.rows == w.rows && Persisted(w').None?
    ensures forall l :: Sound(l) ==> Start(w, l).1 == Failed
    decreases |ls|
  {
    if ls != [] {
      var es := seq(|ls|, i requires 0 <= i < |ls| => Starts(ls[i]));
      var rest := seq(|ls[1..]|, i requires 0 <= i < |ls[1..]| => Starts(ls[1..][i]));
      assert es[1..] == rest;
      assert Start(w, ls[0]).1 == Failed;
      ForeignRowsBlock(Next(w, es[0]), ls[1..]);
    }
  }

  /** With rows and no key, a start keeps the match exactly when it is sound. */
  lemma SoundnessNeeded(w: World, l: Luck)
    requires Known(w) && w.rows != {} && Persisted(w).None?
    ensures Matches(Start(w, l).0) <==> Sound(l)
  {
    StartMatchesIff(w, l);
  }

  /** And after an unsound one the next start accepts the wrong key and writes over rows it cannot open. */
  lemma WrongKeyAccepted(w: World, l: Luck, l': Luck)
    requires Known(w) && w.rows != {} && Persisted(w).None? && !Sound(l)
    requires l'.probeWorks && !l'.diesBeforeGate && l'.writesRow
    ensures var w' := Start(w, l).0;
            && Start(w', l').1 == Ran(w.next)
            && !(Start(w', l').0.rows <= {w.next})
  {
    var k :| k in w.rows;
    assert k in Start(Start(w, l).0, l').0.rows && k != w.next;
  }

  /**
   The key a keychain took while reporting a failure: the start falls back to `.env`, the gate
   fires, the rollback strips `.env` alone, and the key stays in the keychain.
   */
  lemma LeftInKeychain(w: World, l: Luck)
    requires Known(w) && w.rows != {} && Persisted(w).None?
    requires l.keychainStores.TookEffectThenFailed? && l.envWrites.Works? && l.rollbackWorks && !l.diesBeforeGate
    ensures var (w', o) := Start(w, l);
            o == Failed && w'.env == None && w'.keychain == Some(w.next) && !Matches(w')
  {
    StartMatchesIff(w, l);
  }

  /** The key `.env` took before its permissions were refused: the start fails before there is a gate, and the key stays. */
  lemma LeftInEnv(w: World, l: Luck)
    requires Known(w) && w.rows != {} && Persisted(w).None?
    requires l.keychainStores.Refused? && l.envWrites.TookEffectThenFailed?
    ensures var (w', o) := Start(w, l);
            o == Failed && w'.env == Some(w.next) && !Matches(w')
  {
    StartMatchesIff(w, l);
  }

  /** A key in the keychain is kept by a start that can read it. */
  lemma ReadableKeyKept(w: World, l: Luck)
    requires Persisted(w).Some? && l.probeWorks
    ensures Persisted(Start(w, l).0) == Persisted(w)
  {
  }

  /**
   But a keychain that cannot be read for a moment is taken for empty, and the new key
   overwrites the old one, whatever the keychain reports and whatever happens after that:
   the rows' own key is then in neither store. Every start destroys it that cannot read the
   keychain and is not refused the write, and no other.
   */
  lemma UnreadableKeyDestroyed(w: World, l: Luck, k: Key)
    requires w.env.None? && w.keychain == Some(k) && w.rows == {k} && k < w.next
    ensures var w' := Start(w, l).0;
            !(w'.env == Some(k) || w'.keychain == Some(k)) <==> !l.probeWorks && !l.keychainStores.Refused?
  {
  }

  // ----- When a start succeeds -----

  /** The key a start finds: the one in `.env`, else the one in a keychain it can read. */
  predicate Finds(w: World, l: Luck, k: Key) {
    w.env == Some(k) || (w.env == None && l.probeWorks && w.keychain == Some(k))
  }

  /**
   How a start ends, under every fault: a key that is found is used; without one a new key is
   used if a store reports that it took it, rows could be looked for, and there are none.
   */
  lemma StartEnds(w: World, l: Luck, k: Key)
    ensures var found := exists f :: Finds(w, l, f);
            var taken := l.keychainStores.Works? || l.envWrites.Works?;
            && (Start(w, l).1 == Failed <==>
                  !found && (!taken || (!l.diesBeforeGate && (!l.probeRowsWorks || w.rows != {}))))
            && (Start(w, l).1 == Died <==> l.diesBeforeGate && (found || taken))
            && (Start(w, l).1 == Ran(k) <==>
                  !l.diesBeforeGate && (Finds(w, l, k) || (!found && taken && l.probeRowsWorks && w.rows == {} && k == w.next)))
  {
    if w.env.Some? {
      assert Finds(w, l, w.env.value);
    } else if l.probeWorks && w.keychain.Some? {
      assert Finds(w, l, w.keychain.value);
    }
  }

  /** The rows after a start: one more under its key, if it ran and wrote one. */
  lemma StartWrites(w: World, l: Luck)
    ensures var (w', o) := Start(w, l);
            w'.rows == w.rows + (if o.Ran? && l.writesRow then {o.key} else {})
  {
  }

  /** A start that runs leaves its key where every later start that can read the keychain finds it. */
  lemma RanIsFound(w: World, l: Luck, l': Luck)
    requires Start(w, l).1.Ran? && l'.probeWorks
    ensures Finds(Start(w, l).0, l', Start(w, l).1.key)
  {
  }

  function StartAll(w: World, ls: seq<Luck>): World
    decreases |ls|
  {
    if ls == [] then w else StartAll(Start(w, ls[0]).0, ls[1..])
  }

  /**
   So from a first installation whose keychain or `.env` takes the key, every later start that
   lives to the gate and can read the keychain runs, and under that one key.
   */
  lemma FreshInstallRuns(w: World, first: Luck, ls: seq<Luck>, l: Luck)
    requires w.env == None && w.keychain == None && w.rows == {}
    requires (first.keychainStores.Works? || first.envWrites.Works?) && first.probeRowsWorks && !first.diesBeforeGate
    requires l.probeWorks && !l.diesBeforeGate && forall i :: 0 <= i < |ls| ==> ls[i].probeWorks
    ensures Start(w, first).1 == Ran(w.next)
    ensures Start(StartAll(Start(w, first).0, ls), l).1 == Ran(w.next)
  {
    FoundStaysFound(Start(w, first).0, ls, l, w.next);
  }

  lemma {:induction false} FoundStaysFound(w: World, ls: seq<Luck>, l: Luck, k: Key)
    requires l.probeWorks && Finds(w, l, k) && forall i :: 0 <= i < |ls| ==> ls[i].probeWorks
    ensures Finds(StartAll(w, ls), l, k)
    decreases |ls|
  {
    if ls != [] {
      assert Finds(w, ls[0], k);
      assert forall i :: 0 <= i < |ls[1..]| ==> ls[1..][i] == ls[i + 1];
      FoundStaysFound(Start(w, ls[0]).0, ls[1..], l, k);
    }
  }
}
