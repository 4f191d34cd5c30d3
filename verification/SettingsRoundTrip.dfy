/**
 When flattening and rebuilding gives the settings back, exactly; and the
 migration of legacy provider fields that every load ends with.
 */
module SettingsRoundTrip {
  import opened Wrappers
  import opened Json
  import opened SettingsTypes
  import opened Settings
  import opened SettingsRows

  // ----- Legacy provider fields -----

  const OVERRIDES := "llm_builtin_overrides"

  function LegacyValue(j: Json, name: string): Option<string> {
    if j.Obj? && name in j.fields && j.fields[name].Str? then Some(j.fields[name].s) else None
  }

  function LegacyNames(): seq<string> {
    ["bedrock_region", "bedrock_cross_region", "bedrock_profile"]
  }

  predicate LegacyUnset(j: Json) {
    forall n :: n in LegacyNames() ==> LegacyValue(j, n).None?
  }

  function FieldsAt(fields: map<string, Json>, k: string): map<string, Json> {
    if k in fields && fields[k].Obj? then fields[k].fields else map[]
  }

  function BedrockExtras(j: Json): map<string, Json> {
    if j.Obj? then FieldsAt(FieldsAt(FieldsAt(j.fields, OVERRIDES), "bedrock"), "extras") else map[]
  }

  /** An extra that is absent or empty counts as unset. */
  function Extra(extras: map<string, Json>, key: string): Option<string> {
    if key in extras && extras[key].Str? && extras[key].s != [] then Some(extras[key].s) else None
  }

  function Fold(extras: map<string, Json>, key: string, v: Option<string>): map<string, Json> {
    if v.None? || Extra(extras, key).Some? then extras
    else if v.value == [] then extras - {key}
    else extras[key := Str(v.value)]
  }

  /** The extras bag after the three legacy values have been folded in, in order. */
  function FoldedExtras(j: Json): map<string, Json> {
    Fold(Fold(Fold(BedrockExtras(j), "region", LegacyValue(j, "bedrock_region")),
              "cross_region", LegacyValue(j, "bedrock_cross_region")),
         "profile", LegacyValue(j, "bedrock_profile"))
  }

  /** `LlmBuiltinOverride::default()`. */
  const BLANK := map["api_key" := Null, "model" := Null, "base_url" := Null, "extras" := Obj(map[])]

  function EntryFields(overrides: map<string, Json>): map<string, Json> {
    if "bedrock" in overrides && overrides["bedrock"].Obj? then overrides["bedrock"].fields else BLANK
  }

  /** `migrate_legacy_provider_fields`, on the value. */
  function Migrate(j: Json): Json {
    if LegacyUnset(j) || !j.Obj? then j else
    var overrides := FieldsAt(j.fields, OVERRIDES);
    var entry := EntryFields(overrides)["extras" := Obj(FoldedExtras(j))];
    Obj(j.fields["bedrock_region" := Null]["bedrock_cross_region" := Null]["bedrock_profile" := Null]
               [OVERRIDES := Obj(overrides["bedrock" := Obj(entry)])])
  }

  /** The value the migration must leave under `key`: an existing extra, else a non-empty legacy value. */
  function Wanted(j: Json, name: string, key: string): Option<string> {
    if Extra(BedrockExtras(j), key).Some? then Extra(BedrockExtras(j), key)
    else if LegacyValue(j, name).Some? && LegacyValue(j, name).value != [] then LegacyValue(j, name)
    else None
  }

  lemma FoldSets(e: map<string, Json>, key: string, v: Option<string>)
    ensures Extra(Fold(e, key, v), key)
         == if Extra(e, key).Some? then Extra(e, key) else if v.Some? && v.value != [] then v else None
    ensures forall k :: k != key ==> Lookup(Fold(e, key, v), k) == Lookup(e, k)
  {
  }

  lemma MigratedFields(j: Json)
    requires j.Obj? && !LegacyUnset(j)
    ensures Migrate(j).Obj? && BedrockExtras(Migrate(j)) == FoldedExtras(j)
    ensures forall k :: k in LegacyNames() ==> Lookup(Migrate(j).fields, k) == Some(Null)
    ensures forall k :: k !in LegacyNames() && k != OVERRIDES ==> Lookup(Migrate(j).fields, k) == Lookup(j.fields, k)
    ensures forall k :: k != "bedrock" ==>
              Lookup(FieldsAt(Migrate(j).fields, OVERRIDES), k) == Lookup(FieldsAt(j.fields, OVERRIDES), k)
  {
    hide FoldedExtras, LegacyUnset;
    var overrides := FieldsAt(j.fields, OVERRIDES);
    var m := Migrate(j);
    assert m.fields[OVERRIDES].Obj?;
    assert FieldsAt(m.fields, OVERRIDES) == m.fields[OVERRIDES].fields;
    assert forall k :: k in LegacyNames() ==> k != OVERRIDES;
  }

  /** The legacy fields are drained, so a second run changes nothing; everything else of the tree is untouched. */
  lemma MigrationDrains(j: Json)
    requires j.Obj?
    ensures Migrate(j).Obj? && LegacyUnset(Migrate(j)) && Migrate(Migrate(j)) == Migrate(j)
    ensures forall k :: k !in LegacyNames() && k != OVERRIDES ==> Lookup(Migrate(j).fields, k) == Lookup(j.fields, k)
    ensures forall k :: k != "bedrock" ==>
              Lookup(FieldsAt(Migrate(j).fields, OVERRIDES), k) == Lookup(FieldsAt(j.fields, OVERRIDES), k)
  {
    hide Migrate;
    if LegacyUnset(j) {
      NothingToMigrate(j);
    } else {
      MigratedFields(j);
      var m := Migrate(j);
      forall n | n in LegacyNames() ensures LegacyValue(m, n).None? {
        assert Lookup(m.fields, n) == Some(Null);
      }
      NothingToMigrate(m);
    }
  }

  lemma NothingToMigrate(j: Json)
    requires LegacyUnset(j)
    ensures Migrate(j) == j
  {
  }

  /** No provider value is lost and existing extras win over legacy ones; other extras stay as they were. */
  lemma MigrationMoves(j: Json)
    requires j.Obj?
    ensures Migrate(j).Obj?
    ensures Extra(BedrockExtras(Migrate(j)), "region") == Wanted(j, "bedrock_region", "region")
    ensures Extra(BedrockExtras(Migrate(j)), "cross_region") == Wanted(j, "bedrock_cross_region", "cross_region")
    ensures Extra(BedrockExtras(Migrate(j)), "profile") == Wanted(j, "bedrock_profile", "profile")
    ensures forall k :: k !in ["region", "cross_region", "profile"] ==>
              Lookup(BedrockExtras(Migrate(j)), k) == Lookup(BedrockExtras(j), k)
  {
    hide Migrate, Fold, BedrockExtras, LegacyValue;
    if LegacyUnset(j) {
      NothingToMigrate(j);
      assert forall n :: n in LegacyNames() ==> LegacyValue(j, n).None?;
    } else {
      MigratedFields(j);
      var e0 := BedrockExtras(j);
      var v1, v2, v3 := LegacyValue(j, "bedrock_region"), LegacyValue(j, "bedrock_cross_region"), LegacyValue(j, "bedrock_profile");
      FoldSets(e0, "region", v1);
      var e1 := Fold(e0, "region", v1);
      FoldSets(e1, "cross_region", v2);
      var e2 := Fold(e1, "cross_region", v2);
      FoldSets(e2, "profile", v3);
      var e3 := Fold(e2, "profile", v3);
      ExtraByLookup(e0, e1, "cross_region");
      ExtraByLookup(e0, e1, "profile");
      ExtraByLookup(e1, e2, "region");
      ExtraByLookup(e1, e2, "profile");
      ExtraByLookup(e2, e3, "region");
      ExtraByLookup(e2, e3, "cross_region");
      forall k | k !in ["region", "cross_region", "profile"] ensures Lookup(e3, k) == Lookup(e0, k) {}
    }
  }

  lemma ExtraByLookup(a: map<string, Json>, b: map<string, Json>, k: string)
    requires Lookup(a, k) == Lookup(b, k)
    ensures Extra(a, k) == Extra(b, k)
  {
  }

  // ----- The fields it knows -----

  ghost predicate IsString(t: Type) {
    t.Leaf? && forall j :: t.norm(j) == if j.Str? then Some(j) else None
  }

  /** `Option<String>`, written unless it is `None`. */
  ghost predicate IsOptionalText(t: Type, k: string) {
    && t.Struct? && k in t.fields && Lookup(t.skip, k) == Some(IfNull)
    && t.fields[k].Nullable? && IsString(t.fields[k].inner)
  }

  ghost predicate IsOverride(t: Type) {
    && t.Struct? && t.fields.Keys == BLANK.Keys
    && IsOptionalText(t, "api_key") && IsOptionalText(t, "model") && IsOptionalText(t, "base_url")
    && t.fields["extras"].MapOf? && IsString(t.fields["extras"].elem) && Lookup(t.skip, "extras") == Some(IfEmpty)
  }

  /** The schema has the legacy fields and the overrides as the struct declares them. */
  ghost predicate ProviderFields(t: Type) {
    && t.Struct?
    && (forall n :: n in LegacyNames() ==> IsOptionalText(t, n))
    && OVERRIDES in t.fields && t.fields[OVERRIDES].MapOf? && IsOverride(t.fields[OVERRIDES].elem)
  }

  lemma FoldKeepsText(elem: Type, extras: map<string, Json>, key: string, v: Option<string>)
    requires IsString(elem) && forall k :: k in extras ==> Holds(elem, extras[k])
    ensures forall k :: k in Fold(extras, key, v) ==> Holds(elem, Fold(extras, key, v)[k])
  {
  }

  lemma FoldedHolds(t: Type, j: Json)
    requires ProviderFields(t) && Holds(t, j)
    ensures Holds(t.fields[OVERRIDES].elem.fields["extras"], Obj(FoldedExtras(j)))
  {
    hide LegacyValue, Fold;
    var elem, e0 := t.fields[OVERRIDES].elem.fields["extras"].elem, BedrockExtras(j);
    BedrockHolds(t, j);
    FoldKeepsText(elem, e0, "region", LegacyValue(j, "bedrock_region"));
    var e1 := Fold(e0, "region", LegacyValue(j, "bedrock_region"));
    FoldKeepsText(elem, e1, "cross_region", LegacyValue(j, "bedrock_cross_region"));
    var e2 := Fold(e1, "cross_region", LegacyValue(j, "bedrock_cross_region"));
    FoldKeepsText(elem, e2, "profile", LegacyValue(j, "bedrock_profile"));
  }

  lemma BedrockHolds(t: Type, j: Json)
    requires ProviderFields(t) && Holds(t, j)
    ensures j.fields[OVERRIDES].Obj?
    ensures var overrides := FieldsAt(j.fields, OVERRIDES);
            && overrides == j.fields[OVERRIDES].fields
            && (forall k :: k in overrides ==> Holds(t.fields[OVERRIDES].elem, overrides[k]))
            && Holds(t.fields[OVERRIDES].elem, Obj(EntryFields(overrides)))
    ensures forall k :: k in BedrockExtras(j) ==> Holds(t.fields[OVERRIDES].elem.fields["extras"].elem, BedrockExtras(j)[k])
  {
    hide IsOverride, IsString;
    assert Holds(t.fields[OVERRIDES], j.fields[OVERRIDES]);
    var elem, overrides := t.fields[OVERRIDES].elem, j.fields[OVERRIDES].fields;
    BlankHolds(elem);
    if "bedrock" in overrides {
      assert Holds(elem, overrides["bedrock"]);
      ExtrasHold(elem, overrides["bedrock"]);
    }
    hide Holds;
  }

  lemma ExtrasHold(t: Type, entry: Json)
    requires IsOverride(t) && Holds(t, entry)
    ensures entry.Obj? && "extras" in entry.fields && entry.fields["extras"].Obj?
    ensures forall k :: k in FieldsAt(entry.fields, "extras") ==> Holds(t.fields["extras"].elem, FieldsAt(entry.fields, "extras")[k])
  {
    assert Holds(t.fields["extras"], entry.fields["extras"]);
  }

  lemma BlankHolds(t: Type)
    requires IsOverride(t)
    ensures Holds(t, Obj(BLANK))
  {
    forall k | k in BLANK ensures Holds(t.fields[k], BLANK[k]) {
      assert k in ["api_key", "model", "base_url", "extras"];
    }
  }

  /** The migrated value is a settings value. */
  lemma MigrateHolds(t: Type, j: Json)
    requires ProviderFields(t) && Holds(t, j)
    ensures Holds(t, Migrate(j))
  {
    hide LegacyUnset, FoldedExtras, IsOverride, IsString, IsOptionalText;
    if !LegacyUnset(j) {
      FoldedHolds(t, j);
      BedrockHolds(t, j);
      var elem, overrides := t.fields[OVERRIDES].elem, FieldsAt(j.fields, OVERRIDES);
      EntryHolds(elem, EntryFields(overrides), Obj(FoldedExtras(j)));
      OptionsHold(t);
      var entry := Obj(EntryFields(overrides)["extras" := Obj(FoldedExtras(j))]);
    }
  }

  lemma EntryHolds(t: Type, entry: map<string, Json>, extras: Json)
    requires IsOverride(t) && Holds(t, Obj(entry)) && Holds(t.fields["extras"], extras)
    ensures Holds(t, Obj(entry["extras" := extras]))
  {
  }

  lemma OptionsHold(t: Type)
    requires ProviderFields(t)
    ensures forall n :: n in LegacyNames() ==> n in t.fields && Holds(t.fields[n], Null)
  {
    forall n | n in LegacyNames() ensures n in t.fields && Holds(t.fields[n], Null) {
      assert IsOptionalText(t, n);
    }
  }

  /** A legacy value shows exactly when it is set. */
  lemma LegacyShows(t: Type, v: Json, n: string)
    requires ProviderFields(t) && Holds(t, v) && n in LegacyNames()
    ensures Show(t, v).Obj? && LegacyValue(Show(t, v), n) == LegacyValue(v, n)
    ensures v.Obj? && n in v.fields && (v.fields[n].Null? ==> n !in Show(t, v).fields)
  {
    assert IsOptionalText(t, n);
    ShownField(t, v, n);
    assert Holds(t.fields[n], v.fields[n]);
  }

  // ----- Rebuilding the value -----

  /** `from_db_map` up to its migration: the rows set one after the other on the default. */
  function ReplayValue(t: Type, c: Codec, v: Json, rows: map<string, Json>, order: seq<string>): Json
    requires forall n :: n in order ==> n in rows
    decreases order
  {
    if order == [] then v
    else ReplayValue(t, c, ApplyValue(t, c, v, order[0], rows[order[0]]), rows, order[1..])
  }

  function ApplyValue(t: Type, c: Codec, v: Json, name: string, row: Json): Json {
    if name == "owner_id" || row.Null? then v else
    match SetValue(t, c, v, Split(name), RowText(c, row)) case Ok(v') => v' case Err(_) => v
  }

  lemma {:induction false} ReplayShows(t: Type, c: Codec, v: Json, rows: map<string, Json>, order: seq<string>)
    requires WellTyped(t) && Holds(t, v) && forall n :: n in order ==> n in rows
    ensures Holds(t, ReplayValue(t, c, v, rows, order))
    ensures Show(t, ReplayValue(t, c, v, rows, order)) == Replay(t, c, Show(t, v), rows, order)
    decreases |order|
  {
    hide WellTyped, Holds, SetValue, SetTree, Show;
    if order != [] {
      SetShows(t, c, v, Split(order[0]), RowText(c, rows[order[0]]));
      ReplayShows(t, c, ApplyValue(t, c, v, order[0], rows[order[0]]), rows, order[1..]);
    }
  }

  // ----- The round trip -----

  /** Every object sits where the default has one with no more keys, and every leaf comes back as itself. */
  ghost predicate Survives(c: Codec, o: Option<Slot>, s: Json, d: Option<Json>, done: set<Path>)
    decreases s
  {
    if s.Obj? then
      && d.Some? && d.value.Obj? && d.value.fields.Keys <= s.fields.Keys
      && forall k :: k in s.fields ==>
           Survives(c, ChildOf(o, k), s.fields[k], Lookup(d.value.fields, k), Sub(done, k))
    else if [] in done then LeafOutcome(c, o, s, d) == Some(s)
    else d == Some(s)
  }

  lemma {:induction false} MixIsSelf(c: Codec, o: Option<Slot>, s: Json, d: Option<Json>, done: set<Path>)
    ensures Mix(c, o, s, d, done) == Some(s) <==> Survives(c, o, s, d, done)
    decreases s
  {
    if s.Obj? && d.Some? && d.value.Obj? {
      var dm, m := d.value.fields, Mix(c, o, s, d, done).value.fields;
      assert forall k :: Lookup(m, k) == MixAt(c, o, s, dm, k, done);
      forall k | k in s.fields
        ensures MixAt(c, o, s, dm, k, done) == Some(s.fields[k]) <==>
                Survives(c, ChildOf(o, k), s.fields[k], Lookup(dm, k), Sub(done, k))
      {
        MixIsSelf(c, ChildOf(o, k), s.fields[k], Lookup(dm, k), Sub(done, k));
      }
      if m == s.fields {
        forall k | k in dm ensures k in s.fields {
          assert Lookup(m, k) == MixAt(c, o, s, dm, k, done);
        }
        forall k | k in s.fields ensures MixAt(c, o, s, dm, k, done) == Some(s.fields[k]) {
          assert Lookup(m, k) == Some(s.fields[k]);
        }
      }
      if Survives(c, o, s, d, done) {
        forall k ensures Lookup(m, k) == Lookup(s.fields, k) {
          assert Lookup(m, k) == MixAt(c, o, s, dm, k, done);
        }
        SameFields(m, s.fields);
      }
    }
  }

  /** Which leaf values come back from their text, given what the default holds there. */
  ghost predicate TextKeeps(c: Codec, d: Option<Json>, v: Json) {
    if d.None? || d.value.Null? then v.Str? ==> c.parse(v.s) == None || c.parse(v.s) == Some(v)
    else match d.value
      case Bool(_) => v.Bool?
      case Num(U64(_)) => v.Num? && v.num.U64?
      case Num(I64(_)) => v.Num? && (v.num.I64? || (v.num.U64? && v.num.n < 0x8000_0000_0000_0000))
      case Num(F64(_)) => (v.Num? && v.num.F64?) || (v.Str? && c.parseF64(v.s) == NonFinite)
      case Str(_) => v.Str?
      case _ => v.Str? ==> c.parse(v.s) == Some(v)
  }

  lemma InferKeeps(c: Codec, d: Option<Json>, v: Json)
    requires Lawful(c) && !v.Null?
    ensures Infer(c, d, RowText(c, v)) == Ok(v) <==> TextKeeps(c, d, v)
  {
    if v.Num? {
      match v.num {
        case U64(n) => assert c.parseU64(c.show(Num(U64(n)))) == Some(n);
        case I64(i) => assert c.parseI64(c.show(Num(I64(i)))) == Some(i);
        case F64(b) => assert c.parseF64(c.show(Num(F64(b)))) == Finite(b);
      }
    }
    assert c.parse(c.show(v)) == Some(v);
  }

  predicate Floats(v: Json) {
    v.Null? || (v.Num? && v.num.F64?)
  }

  /** Numbers read as numbers or nothing, lists as lists, an object only as a name that is no JSON text, all else as itself. */
  predicate ReadsAlike(c: Codec, j: Json, v: Json) {
    match j
    case Num(_) => v.Num? || v.Null?
    case Arr(_) => v.Arr?
    case Obj(_) => v.Str? && c.parse(v.s).None?
    case _ => v == j
  }

  /** The leaf types there are: strings, flags, exact numbers, floats that may round, lists, enumerations. */
  ghost predicate PlainLeaf(c: Codec, norm: Json -> Option<Json>) {
    && (forall j :: norm(j).Some? ==> ReadsAlike(c, j, norm(j).value))
    && ((forall j: Json :: j.Num? && norm(j).Some? ==> norm(j) == Some(j)) ||
        (forall j: Json :: j.Num? && norm(j).Some? ==> Floats(norm(j).value)))
  }

  ghost predicate PlainLeaves(c: Codec, t: Type) {
    match t
    case Leaf(norm) => PlainLeaf(c, norm)
    case Nullable(inner) => PlainLeaves(c, inner)
    case MapOf(elem) => PlainLeaves(c, elem)
    case Struct(fields, _, _, _, _) => forall k :: k in fields ==> PlainLeaves(c, fields[k])
  }

  /** What a plain leaf reads of an inferred value is the value set only if it was inferred as that. */
  lemma PlainRead(c: Codec, norm: Json -> Option<Json>, s: Json, d: Option<Json>)
    requires Lawful(c) && PlainLeaf(c, norm) && norm(s) == Some(s) && !s.Null? && !s.Obj?
    requires d.Some? ==> d.value.Null? || norm(d.value) == Some(d.value)
    requires Infer(c, d, RowText(c, s)).Ok?
    ensures norm(Infer(c, d, RowText(c, s)).value) == Some(s) <==> Infer(c, d, RowText(c, s)) == Ok(s)
  {
    var w := Infer(c, d, RowText(c, s)).value;
    assert c.parse(c.show(s)) == Some(s);
    if s.Num? {
      match s.num {
        case U64(n) => assert c.parseU64(c.show(Num(U64(n)))) == Some(n);
        case I64(i) => assert c.parseI64(c.show(Num(I64(i)))) == Some(i);
        case F64(b) => assert c.parseF64(c.show(Num(F64(b)))) == Finite(b);
      }
    }
    if norm(w) == Some(s) {
      assert ReadsAlike(c, w, s);
    }
  }

  /** Below optional layers: a value that is neither null nor an object is a leaf. */
  lemma {:induction false} LeafUnder(c: Codec, t: Type, s: Json)
    requires Conforms(t, s) && !s.Null? && !s.Obj? && PlainLeaves(c, t)
    ensures Bare(t).Leaf? && PlainLeaf(c, Bare(t).norm) && Bare(t).norm(s) == Some(s)
    ensures forall w: Json :: !w.Null? ==> Decode(t, w) == Bare(t).norm(w)
    ensures Decode(t, Null).Some? ==> Decode(t, Null).value.Null? || Decode(t, Null) == Bare(t).norm(Null)
    ensures forall j: Json :: Conforms(t, j) ==> j.Null? || Bare(t).norm(j) == Some(j)
    decreases t
  {
    if t.Nullable? {
      LeafUnder(c, t.inner, s);
    }
  }

  /** The leaf condition in the caller's terms: nulls only where the default is null, text that reads back otherwise. */
  lemma LeafSurvives(c: Codec, slot: Slot, s: Json, d: Option<Json>)
    requires Lawful(c) && PlainLeaves(c, slot.ty) && Fits(Some(slot), s) && !s.Obj? && Typed(Some(slot), d)
    ensures LeafOutcome(c, Some(slot), s, d) == Some(s) <==> if s.Null? then d == Some(Null) else TextKeeps(c, d, s)
  {
    hide TextKeeps, Infer, Decode, Read, Show, PlainLeaf, Lawful;
    if !s.Null? {
      InferKeeps(c, d, s);
      LeafUnder(c, slot.ty, s);
      if d == Some(s) {
        SameKindKeeps(c, s);
      }
      if Infer(c, d, RowText(c, s)).Ok? {
        PlainRead(c, Bare(slot.ty).norm, s, d);
      }
    }
  }

  lemma SameKindKeeps(c: Codec, s: Json)
    requires Lawful(c) && !s.Obj? && !s.Null?
    ensures TextKeeps(c, Some(s), s)
  {
    if s.Num? && s.num.I64? {
      assert s.num.I64?;
    }
  }

  /**
   Flattening a settings tree and rebuilding a value from it, in any iteration order, gives a
   value that shows as the tree if and only if it survives leaf by leaf and carries no legacy field.
   */
  lemma RoundTrip(c: Codec, t: Type, s: Json, default: Json, rows: map<string, Json>, order: seq<string>)
    requires WellTyped(t) && ProviderFields(t) && Holds(t, default) && LegacyUnset(default)
    requires NamesSplit(s) && RowsOf(s, rows) && Ordering(order, rows)
    ensures Show(t, Migrate(ReplayValue(t, c, default, rows, order))) == s
       <==> Survives(c, Root(t), s, Some(Show(t, default)), LeafPaths(s) - {["owner_id"]}) && LegacyUnset(s)
  {
    hide Survives, Migrate, Replay, ReplayValue, RowsOf, Mix, Holds, Conforms, WellTyped, LegacyUnset, Show, LeafPaths, ProviderFields;
    var d := Show(t, default);
    ShowConforms(t, default);
    ReplayShows(t, c, default, rows, order);
    DefaultUnset(t, default);
    RebuildIgnoresOrder(t, c, s, d, rows, order);
    var done := LeafPaths(s) - {["owner_id"]};
    MixIsSelf(c, Root(t), s, Some(d), done);
    MigratedIsSelf(c, t, s, d, done, ReplayValue(t, c, default, rows, order));
  }

  lemma DefaultUnset(t: Type, v: Json)
    requires ProviderFields(t) && Holds(t, v)
    ensures Show(t, v).Obj? && (LegacyUnset(Show(t, v)) <==> LegacyUnset(v))
  {
    LegacyShows(t, v, "bedrock_region");
    forall n | n in LegacyNames() ensures LegacyValue(Show(t, v), n) == LegacyValue(v, n) {
      LegacyShows(t, v, n);
    }
  }

  lemma MigratedIsSelf(c: Codec, t: Type, s: Json, d: Json, done: set<Path>, v: Json)
    requires ProviderFields(t) && Holds(t, v) && s.Obj? && d.Obj? && LegacyUnset(d)
    requires Mix(c, Root(t), s, Some(d), done) == Some(Show(t, v))
    ensures Show(t, Migrate(v)) == s <==> Show(t, v) == s && LegacyUnset(s)
  {
    hide Migrate, Mix, Show, Holds, ProviderFields;
    DefaultUnset(t, v);
    if LegacyUnset(v) {
      NothingToMigrate(v);
    } else {
      var n :| n in LegacyNames() && LegacyValue(v, n).Some?;
      assert LegacyValue(d, n).None?;
      LegacyShows(t, v, n);
      MigratedFields(v);
      MigrateHolds(t, v);
      LegacyShows(t, Migrate(v), n);
      assert Lookup(Migrate(v).fields, n) == Some(Null);
      if Show(t, Migrate(v)) == s {
        MissingKeepsDefault(c, Root(t), s, d, done, Show(t, v), n);
      }
    }
  }

  lemma MissingKeepsDefault(c: Codec, o: Option<Slot>, s: Json, d: Json, done: set<Path>, r: Json, k: string)
    requires s.Obj? && d.Obj? && Mix(c, o, s, Some(d), done) == Some(r) && k !in s.fields
    ensures r.Obj? && Lookup(r.fields, k) == Lookup(d.fields, k)
  {
    assert MixAt(c, o, s, d.fields, k, done) == Lookup(d.fields, k);
  }

  // ----- The condition in the caller's terms -----

  /**
   Objects sit where the default has objects with no more keys, nulls where the default is null,
   every other flattened leaf has text that reads back over the default, and a leaf that is
   not flattened (the owner) has the default's value.
   */
  ghost predicate Faithful(c: Codec, s: Json, d: Option<Json>, done: set<Path>)
    decreases s
  {
    if s.Obj? then
      && d.Some? && d.value.Obj? && d.value.fields.Keys <= s.fields.Keys
      && forall k :: k in s.fields ==> Faithful(c, s.fields[k], Lookup(d.value.fields, k), Sub(done, k))
    else if [] !in done then d == Some(s)
    else if s.Null? then d == Some(Null)
    else TextKeeps(c, d, s)
  }

  lemma {:induction false} SurvivesIsFaithful(c: Codec, slot: Slot, s: Json, d: Option<Json>, done: set<Path>)
    requires Lawful(c) && PlainLeaves(c, slot.ty) && Fits(Some(slot), s) && Typed(Some(slot), d)
    ensures Survives(c, Some(slot), s, d, done) <==> Faithful(c, s, d, done)
    decreases s
  {
    hide TextKeeps, LeafOutcome, Lawful, Conforms, WellTyped, PlainLeaves;
    if s.Obj? {
      if d.Some? && d.value.Obj? && d.value.fields.Keys <= s.fields.Keys {
        forall k | k in s.fields
          ensures Survives(c, ChildOf(Some(slot), k), s.fields[k], Lookup(d.value.fields, k), Sub(done, k)) <==>
                  Faithful(c, s.fields[k], Lookup(d.value.fields, k), Sub(done, k))
        {
          ConformsChild(slot.ty, s, k);
          PlainChild(c, slot.ty, k);
          TypedChild(Some(slot), d.value, k);
          SurvivesIsFaithful(c, Child(slot.ty, k).value, s.fields[k], Lookup(d.value.fields, k), Sub(done, k));
        }
      }
    } else if [] in done {
      LeafSurvives(c, slot, s, d);
    }
  }

  lemma {:induction false} PlainChild(c: Codec, t: Type, k: string)
    requires PlainLeaves(c, t) && Child(t, k).Some?
    ensures PlainLeaves(c, Child(t, k).value.ty)
  {
    if t.Nullable? {
      PlainChild(c, t.inner, k);
    }
  }

  /**
   For every settings tree: flattening and rebuilding gives it back, in any iteration order, if
   and only if it is faithful to the default and carries no legacy field.
   */
  lemma FaithfulRoundTrip(c: Codec, t: Type, s: Json, default: Json, rows: map<string, Json>, order: seq<string>)
    requires Lawful(c) && WellTyped(t) && PlainLeaves(c, t) && ProviderFields(t)
    requires Holds(t, default) && LegacyUnset(default) && Conforms(t, s)
    requires NamesSplit(s) && RowsOf(s, rows) && Ordering(order, rows)
    ensures Show(t, Migrate(ReplayValue(t, c, default, rows, order))) == s
       <==> Faithful(c, s, Some(Show(t, default)), LeafPaths(s) - {["owner_id"]}) && LegacyUnset(s)
  {
    hide Faithful, Survives, Conforms, PlainLeaves, Migrate, ReplayValue, NamesSplit, RowsOf, WellTyped, Lawful, Holds, Show,
         LegacyUnset, ProviderFields, LeafPaths, Ordering;
    RoundTrip(c, t, s, default, rows, order);
    ShowConforms(t, default);
    SurvivesIsFaithful(c, Slot(t, None), s, Some(Show(t, default)), LeafPaths(s) - {["owner_id"]});
  }
}
