/**
 `migrate_session_credential` in `src/app.rs`: the session token moves from the plaintext
 settings table to the encrypted secret store, by separate store calls any of which may
 fail, with or without having taken effect, and between any two of which the process may
 stop. JSON text is a pair of parameters.
 */
module SessionMigration {
  import opened Wrappers
  import opened Json

  datatype Text = Text(show: Json -> string, parse: string -> Option<Json>)

  /** What is stored of a value: a string as it is, anything else as JSON. */
  function Stored(x: Text, v: Json): string {
    if v.Str? then v.s else x.show(v)
  }

  /** A secret decrypts to text, or not at all. */
  datatype Secret = Plain(text: string) | Undecryptable

  datatype World = World(setting: Option<Json>, secret: Option<Secret>)

  /** How one store call goes. `Stops`: the process is gone before it. */
  datatype Fault = Works | Refused | TookEffectThenFailed | Stops

  /** The pattern of a run: how its i-th store call goes. */
  type Faults = nat -> Fault

  function Deleted(w: World, fault: Fault): World {
    if fault.Works? || fault.TookEffectThenFailed? then w.(setting := None) else w
  }

  /** Read the plaintext, store it as the secret, and only then delete the plaintext. */
  function Copied(x: Text, replacing: bool, w: World, f: Faults, i: nat): World {
    if !f(i).Works? || w.setting.None? then w else
    var stored := w.(secret := Some(Plain(Stored(x, w.setting.value))));
    if !replacing && w.secret.Some? then w
    else match f(i + 1)
      case Works => Deleted(stored, f(i + 2))
      case TookEffectThenFailed => stored
      case _ => w
  }

  function Migrated(x: Text, replacing: bool, w: World, f: Faults): World {
    if !f(0).Works? then w else
    match w.secret
    case None => Copied(x, replacing, w, f, 1)
    case Some(Undecryptable) => w
    case Some(Plain(text)) =>
      match x.parse(text)
      case None => Copied(x, replacing, w, f, 1)
      case Some(v) =>
        if !f(1).Works? || w.setting.None? then w
        else if w.setting == Some(v) then Deleted(w, f(2))
        else Copied(x, replacing, w, f, 2)
  }

  datatype CallError = CallFailed | NotThere

  /** The two stores behind their interfaces, counting calls; `stopped` once the process is gone. */
  class Stores {
    var world: World
    var calls: nat
    var stopped: bool
    const faults: Faults
    const replacing: bool

    constructor (world: World, faults: Faults, replacing: bool)
      ensures this.world == world && calls == 0 && !stopped && this.faults == faults && this.replacing == replacing
    {
      this.world, this.calls, this.stopped, this.faults, this.replacing := world, 0, false, faults, replacing;
    }

    method GetDecrypted() returns (r: Result<string, CallError>)
      requires !stopped
      modifies this`calls, this`stopped
      ensures calls == old(calls) + 1 && stopped == faults(old(calls)).Stops?
      ensures if !faults(old(calls)).Works? || world.secret == Some(Undecryptable) then r == Err(CallFailed)
              else r == if world.secret.Some? then Ok(world.secret.value.text) else Err(NotThere)
    {
      var fault := faults(calls);
      calls, stopped := calls + 1, fault.Stops?;
      if !fault.Works? {
        return Err(CallFailed);
      }
      match world.secret {
        case None => return Err(NotThere);
        case Some(Undecryptable) => return Err(CallFailed);
        case Some(Plain(text)) => return Ok(text);
      }
    }

    method GetSetting() returns (r: Result<Option<Json>, CallError>)
      requires !stopped
      modifies this`calls, this`stopped
      ensures calls == old(calls) + 1 && stopped == faults(old(calls)).Stops?
      ensures r == if faults(old(calls)).Works? then Ok(world.setting) else Err(CallFailed)
    {
      var fault := faults(calls);
      calls, stopped := calls + 1, fault.Stops?;
      return if fault.Works? then Ok(world.setting) else Err(CallFailed);
    }

    method DeleteSetting()
      requires !stopped
      modifies this`calls, this`stopped, this`world
      ensures calls == old(calls) + 1 && stopped == faults(old(calls)).Stops?
      ensures world == Deleted(old(world), faults(old(calls)))
    {
      var fault := faults(calls);
      calls, stopped := calls + 1, fault.Stops?;
      world := Deleted(world, fault);
    }

    method Create(text: string) returns (r: Result<(), CallError>)
      requires !stopped
      modifies this`calls, this`stopped, this`world
      ensures calls == old(calls) + 1 && stopped == faults(old(calls)).Stops?
      ensures var fault, blocked := faults(old(calls)), !replacing && old(world.secret).Some?;
              && r == (if fault.Works? && !blocked then Ok(()) else Err(CallFailed))
              && world == if !blocked && (fault.Works? || fault.TookEffectThenFailed?)
                          then old(world).(secret := Some(Plain(text))) else old(world)
    {
      var fault := faults(calls);
      calls, stopped := calls + 1, fault.Stops?;
      if !replacing && world.secret.Some? {
        return Err(CallFailed);
      }
      if fault.Works? || fault.TookEffectThenFailed? {
        world := world.(secret := Some(Plain(text)));
      }
      return if fault.Works? then Ok(()) else Err(CallFailed);
    }
  }

  /** One start's migration, call by call, with its early returns. */
  method MigrateSessionCredential(x: Text, stores: Stores)
    requires stores.calls == 0 && !stores.stopped
    modifies stores
    ensures stores.world == Migrated(x, stores.replacing, old(stores.world), stores.faults)
  {
    var decrypted := stores.GetDecrypted();
    if stores.stopped {
      return;
    }
    match decrypted {
      case Err(CallFailed) => return;
      case Err(NotThere) =>
      case Ok(text) =>
        var parsed := x.parse(text);
        if parsed.Some? {
          var setting := stores.GetSetting();
          if stores.stopped {
            return;
          }
          if setting.Err? || setting.value.None? {
            return;
          }
          if setting.value == parsed {
            stores.DeleteSetting();
            return;
          }
        }
    }
    CopyAcross(x, stores);
  }

  method CopyAcross(x: Text, stores: Stores)
    requires !stores.stopped
    modifies stores
    ensures stores.world == Copied(x, stores.replacing, old(stores.world), stores.faults, old(stores.calls))
  {
    var setting := stores.GetSetting();
    if stores.stopped || setting.Err? || setting.value.None? {
      return;
    }
    var created := stores.Create(Stored(x, setting.value.value));
    if stores.stopped {
      return;
    }
    if created.Ok? {
      stores.DeleteSetting();
    }
  }

  // ----- The token is never lost -----

  /** The secret is the token: its stored text, or text that parses to it. */
  ghost predicate Carries(x: Text, secret: Option<Secret>, token: Json) {
    secret.Some? && secret.value.Plain? && (secret.value.text == Stored(x, token) || x.parse(secret.value.text) == Some(token))
  }

  /** The token is the plaintext setting, or there is no plaintext and the secret is the token. */
  ghost predicate Held(x: Text, w: World, token: Json) {
    w.setting == Some(token) || (w.setting == None && Carries(x, w.secret, token))
  }

  lemma MigrationKeeps(x: Text, replacing: bool, w: World, f: Faults, token: Json)
    requires Held(x, w, token)
    ensures Held(x, Migrated(x, replacing, w, f), token)
  {
  }

  /** Any number of starts, each with its own pattern of failures and its own stop. */
  function Starts(x: Text, replacing: bool, w: World, runs: seq<Faults>): World
    decreases |runs|
  {
    if runs == [] then w else Starts(x, replacing, Migrated(x, replacing, w, runs[0]), runs[1..])
  }

  lemma {:induction false} NeverLost(x: Text, replacing: bool, w: World, runs: seq<Faults>, token: Json)
    requires Held(x, w, token)
    ensures Held(x, Starts(x, replacing, w, runs), token)
    decreases |runs|
  {
    if runs != [] {
      MigrationKeeps(x, replacing, w, runs[0], token);
      NeverLost(x, replacing, Migrated(x, replacing, w, runs[0]), runs[1..], token);
    }
  }

  function NoFaults(): Faults {
    i => Works
  }

  /**
   With a replacing store and no failures one start empties the plaintext copy, unless the
   secret cannot be decrypted at all, and then the start after it changes nothing.
   */
  lemma OneStartSuffices(x: Text, w: World)
    ensures var w' := Migrated(x, true, w, NoFaults());
            && (w'.setting == None <==> w.setting == None || w.secret != Some(Undecryptable))
            && Migrated(x, true, w', NoFaults()) == w'
            && (w.setting.None? || w.secret == Some(Undecryptable) ==> w' == w)
  {
  }

  /** A store that refuses to overwrite never migrates past a secret that differs, and still loses nothing. */
  lemma {:induction false} NotReplacingStalls(x: Text, w: World, runs: seq<Faults>, token: Json)
    requires w.setting == Some(token) && w.secret.Some? && w.secret.value.Plain?
    requires x.parse(w.secret.value.text) != Some(token)
    ensures Starts(x, false, w, runs) == w
    decreases |runs|
  {
    if runs != [] {
      NotReplacingStalls(x, w, runs[1..], token);
    }
  }

  /** What the move costs: a secret that differs from the plaintext is replaced by it, newer or not. */
  lemma PlaintextWins(x: Text, w: World, token: Json)
    requires w.setting == Some(token) && w.secret.Some? && w.secret.value.Plain?
    ensures Migrated(x, true, w, NoFaults()).secret ==
            if x.parse(w.secret.value.text) == Some(token) then w.secret else Some(Plain(Stored(x, token)))
  {
  }

  // ----- Exactly what one start does -----

  /** The secret can be read and is not the plaintext already. */
  predicate ToCopy(x: Text, w: World) {
    w.secret != Some(Undecryptable)
    && (w.secret.Some? ==> x.parse(w.secret.value.text).None? || x.parse(w.secret.value.text) != w.setting)
  }

  /** The number of the store call that reads the plaintext for the copy: reading the secret comes first, and comparing reads too. */
  function CopyFrom(x: Text, w: World): nat {
    if w.secret.Some? && w.secret.value.Plain? && x.parse(w.secret.value.text).Some? then 2 else 1
  }

  /** The reads before the copy went well, and the store would take the secret. */
  ghost predicate CopyTried(x: Text, replacing: bool, w: World, f: Faults) {
    && w.setting.Some? && ToCopy(x, w) && (forall i :: 0 <= i <= CopyFrom(x, w) ==> f(i).Works?)
    && (replacing || w.secret.None?)
  }

  /** The secret becomes the plaintext if and only if a copy is tried and takes effect; else it stays. */
  lemma SecretIs(x: Text, replacing: bool, w: World, f: Faults)
    ensures var k, w' := CopyFrom(x, w) + 1, Migrated(x, replacing, w, f);
            w'.secret == if CopyTried(x, replacing, w, f) && (f(k).Works? || f(k).TookEffectThenFailed?)
                         then Some(Plain(Stored(x, w.setting.value))) else w.secret
  {
  }

  /**
   The plaintext goes if and only if it was copied without a failure reported, or found equal, and
   then the delete takes effect, whatever it reports.
   */
  lemma PlaintextGoneIff(x: Text, replacing: bool, w: World, f: Faults)
    ensures var k, w' := CopyFrom(x, w) + 1, Migrated(x, replacing, w, f);
            var copied := CopyTried(x, replacing, w, f) && f(k).Works?;
            var equal := w.setting.Some? && w.secret.Some? && w.secret.value.Plain?
                         && x.parse(w.secret.value.text) == w.setting && f(0).Works? && f(1).Works?;
            w'.setting != w.setting <==>
              && w'.setting == None
              && ((copied && (f(k + 1).Works? || f(k + 1).TookEffectThenFailed?))
                  || (equal && (f(2).Works? || f(2).TookEffectThenFailed?)))
  {
  }
}
