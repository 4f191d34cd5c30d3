/** The settings object of `src/settings.rs` and its operations, against the functions that specify them. */
module SettingsStore {
  import opened Wrappers
  import opened Json
  import opened SettingsTypes
  import opened Settings
  import opened SettingsRows
  import opened SettingsRoundTrip
  import opened SettingsMerge

  class Store {
    const schema: Type
    const codec: Codec
    const default: Json
    var value: Json

    ghost predicate Valid()
      reads this
    {
      WellTyped(schema) && ProviderFields(schema) && Holds(schema, default) && Holds(schema, value)
    }

    constructor Default(schema: Type, codec: Codec, default: Json)
      requires WellTyped(schema) && ProviderFields(schema) && Holds(schema, default)
      ensures Valid() && value == default
      ensures this.schema == schema && this.codec == codec && this.default == default
    {
      this.schema, this.codec, this.default, this.value := schema, codec, default, default;
    }

    /** A refused value leaves the settings as they were; the lens laws are about `SetValue`. */
    method Set(path: string, text: string) returns (r: Result<(), SetError>)
      requires Valid()
      modifies this`value
      ensures Valid()
      ensures match SetValue(schema, codec, old(value), Split(path), text)
              case Ok(value') => r == Ok(()) && value == value'
              case Err(e) => r == Err(e) && value == old(value)
    {
      match SetParts(codec, Show(schema, value), Split(path), text) {
        case Err(e) => return Err(e);
        case Ok(json) =>
          match Read(schema, json) {
            case None => return Err(ApplyFailed);
            case Some(applied) =>
              ReadHolds(schema, json);
              value := applied;
              return Ok(());
          }
      }
    }

    method Get(path: string) returns (text: Option<string>)
      ensures text == GetText(codec, Show(schema, value), path)
    {
      var tree := Show(schema, value);
      var current, parts := tree, Split(path);
      var i := 0;
      while i < |parts|
        invariant i <= |parts|
        invariant At(tree, parts) == At(current, parts[i..])
      {
        if !current.Obj? || parts[i] !in current.fields {
          return None;
        }
        assert parts[i..][1..] == parts[i + 1..];
        current := current.fields[parts[i]];
        i := i + 1;
      }
      text := Some(Shown(codec, current));
    }

    /** Reads the default as text and sets that text over whatever is there now. */
    method Reset(path: string) returns (r: Result<(), SetError>)
      requires Valid()
      modifies this`value
      ensures Valid()
      ensures match GetText(codec, Show(schema, default), path)
              case None => r == Err(PathNotFound) && value == old(value)
              case Some(text) =>
                (match SetValue(schema, codec, old(value), Split(path), text)
                 case Ok(value') => r == Ok(()) && value == value'
                 case Err(e) => r == Err(e) && value == old(value))
    {
      match GetText(codec, Show(schema, default), path) {
        case None => return Err(PathNotFound);
        case Some(text) => r := Set(path, text);
      }
    }

    /** The merge always reads back, and like every reading back it clears the fields that are never written. */
    method MergeFrom(other: Json)
      requires Valid() && Holds(schema, other)
      modifies this`value
      ensures Valid() && Show(schema, value) == Merge(Show(schema, old(value)), Show(schema, other), Show(schema, default))
      ensures Cleared(schema, value) == value
    {
      ShowConforms(schema, value);
      ShowConforms(schema, other);
      MergeConforms(schema, Show(schema, value), Show(schema, other), Show(schema, default));
      var json := MergeNonDefault(Show(schema, value), Show(schema, other), Show(schema, default));
      DecodeIdentity(schema, json);
      ReadHolds(schema, json);
      match Read(schema, json) {
        case Some(merged) =>
          ReadShow(schema, merged);
          value := merged;
        case None =>
      }
    }

    /** Take the three legacy fields, then fold what they held into the extras, existing ones winning. */
    method MigrateLegacyProviderFields()
      requires Valid()
      modifies this`value
      ensures Valid() && value == Migrate(old(value))
    {
      hide WellTyped, ProviderFields, Holds, Valid, Fold, BedrockExtras, EntryFields, Migrate, LegacyUnset, LegacyNames;
      ghost var before := value;
      ValidParts();
      LegacyPresent(schema, value);
      var region := Take("bedrock_region");
      var crossRegion := Take("bedrock_cross_region");
      var profile := Take("bedrock_profile");
      if region.Some? || crossRegion.Some? || profile.Some? {
        EntryShape(schema, before);
        var overrides := value.fields[OVERRIDES].fields;
        var entry := EntryFields(overrides);
        var extras := FoldExtra(entry["extras"].fields, "region", region);
        extras := FoldExtra(extras, "cross_region", crossRegion);
        extras := FoldExtra(extras, "profile", profile);
        entry := entry["extras" := Obj(extras)];
        value := Obj(value.fields[OVERRIDES := Obj(overrides["bedrock" := Obj(entry)])]);
        StepsMigrate(before, value, region, crossRegion, profile);
      } else {
        UnsetIsNull(schema, before);
        NothingTaken(before, value);
      }
      MigrateHolds(schema, before);
      StillValid();
    }

    lemma ValidParts()
      requires Valid()
      ensures ProviderFields(schema) && Holds(schema, value)
    {
    }

    twostate lemma StillValid()
      requires old(Valid()) && Holds(schema, value)
      ensures Valid()
    {
    }

    method Take(name: string) returns (taken: Option<string>)
      requires value.Obj? && name in value.fields
      modifies this`value
      ensures value == Obj(old(value).fields[name := Null]) && taken == LegacyValue(old(value), name)
    {
      taken := if value.fields[name].Str? then Some(value.fields[name].s) else None;
      value := Obj(value.fields[name := Null]);
    }
  }

  method FoldExtra(extras: map<string, Json>, key: string, v: Option<string>) returns (folded: map<string, Json>)
    ensures folded == Fold(extras, key, v)
  {
    folded := extras;
    if v.Some? {
      var there := key in extras && extras[key].Str? && extras[key].s != [];
      if !there {
        if v.value == [] {
          folded := folded - {key};
        } else {
          folded := folded[key := Str(v.value)];
        }
      }
    }
  }

  lemma LegacyPresent(t: Type, v: Json)
    requires ProviderFields(t) && Holds(t, v)
    ensures v.Obj? && OVERRIDES in v.fields && v.fields[OVERRIDES].Obj?
    ensures "bedrock_region" in v.fields && "bedrock_cross_region" in v.fields && "bedrock_profile" in v.fields
  {
    hide IsOverride, IsString;
    assert Holds(t.fields[OVERRIDES], v.fields[OVERRIDES]);
    assert "bedrock_region" in LegacyNames() && "bedrock_cross_region" in LegacyNames() && "bedrock_profile" in LegacyNames();
    assert forall n :: n in LegacyNames() ==> IsOptionalText(t, n);
  }

  /** An existing entry has an extras bag, and it is what the migration starts from. */
  lemma EntryShape(t: Type, v: Json)
    requires ProviderFields(t) && Holds(t, v) && v.fields[OVERRIDES].Obj?
    ensures var overrides := v.fields[OVERRIDES].fields;
            && ("bedrock" in overrides ==> overrides["bedrock"].Obj?)
            && var entry := EntryFields(overrides);
               "extras" in entry && entry["extras"].Obj? && BedrockExtras(v) == entry["extras"].fields
  {
    hide IsString, IsOptionalText, IsOverride;
    BedrockHolds(t, v);
    var elem, overrides := OverrideType(t), v.fields[OVERRIDES].fields;
    ExtrasHold(elem, Obj(EntryFields(overrides)));
    if "bedrock" in overrides {
      ExtrasHold(elem, overrides["bedrock"]);
    }
  }

  function OverrideType(t: Type): Type
    requires t.Struct? && OVERRIDES in t.fields && t.fields[OVERRIDES].MapOf?
  {
    t.fields[OVERRIDES].elem
  }

  /** Taking the fields and folding what they held is the migration. */
  lemma StepsMigrate(v: Json, v': Json, region: Option<string>, crossRegion: Option<string>, profile: Option<string>)
    requires v.Obj? && OVERRIDES in v.fields && v.fields[OVERRIDES].Obj?
    requires var entry := EntryFields(v.fields[OVERRIDES].fields);
             && "extras" in entry && entry["extras"].Obj? && BedrockExtras(v) == entry["extras"].fields
             && v' == Obj(v.fields["bedrock_region" := Null]["bedrock_cross_region" := Null]["bedrock_profile" := Null]
                          [OVERRIDES := Obj(v.fields[OVERRIDES].fields["bedrock" := Obj(entry["extras" :=
                             Obj(Fold(Fold(Fold(entry["extras"].fields, "region", region), "cross_region", crossRegion), "profile", profile))])])])
    requires region == LegacyValue(v, "bedrock_region") && crossRegion == LegacyValue(v, "bedrock_cross_region")
    requires profile == LegacyValue(v, "bedrock_profile") && (region.Some? || crossRegion.Some? || profile.Some?)
    ensures v' == Migrate(v)
  {
    hide Fold, BedrockExtras, LegacyValue;
    assert "bedrock_region" in LegacyNames() && "bedrock_cross_region" in LegacyNames() && "bedrock_profile" in LegacyNames();
    assert !LegacyUnset(v);
    assert FieldsAt(v.fields, OVERRIDES) == v.fields[OVERRIDES].fields;
  }

  lemma NothingTaken(v: Json, v': Json)
    requires LegacyUnset(v) && v.Obj? && forall n :: n in LegacyNames() ==> Lookup(v.fields, n) == Some(Null)
    requires v' == Obj(v.fields["bedrock_region" := Null]["bedrock_cross_region" := Null]["bedrock_profile" := Null])
    ensures v' == Migrate(v)
  {
    assert "bedrock_region" in LegacyNames() && "bedrock_cross_region" in LegacyNames() && "bedrock_profile" in LegacyNames();
    assert v'.fields == v.fields;
  }

  lemma UnsetIsNull(t: Type, v: Json)
    requires ProviderFields(t) && Holds(t, v)
    requires LegacyValue(v, "bedrock_region").None? && LegacyValue(v, "bedrock_cross_region").None?
    requires LegacyValue(v, "bedrock_profile").None?
    ensures LegacyUnset(v) && v.Obj? && forall n :: n in LegacyNames() ==> Lookup(v.fields, n) == Some(Null)
  {
    forall n | n in LegacyNames() ensures Lookup(v.fields, n) == Some(Null) {
      assert IsOptionalText(t, n);
      assert Holds(t.fields[n], v.fields[n]);
    }
  }

  /** Start from the default, set the rows in the order the map yields them, migrate. */
  method FromDbMap(schema: Type, codec: Codec, default: Json, rows: map<string, Json>)
    returns (settings: Store, ghost order: seq<string>)
    requires WellTyped(schema) && ProviderFields(schema) && Holds(schema, default)
    ensures fresh(settings) && settings.Valid() && Ordering(order, rows)
    ensures settings.schema == schema && settings.codec == codec && settings.default == default
    ensures settings.value == Migrate(ReplayValue(schema, codec, default, rows, order))
  {
    hide WellTyped, ProviderFields, Holds, SetValue, ReplayValue;
    settings := new Store.Default(schema, codec, default);
    order := [];
    assert ReplayValue(schema, codec, default, rows, []) == default by {
      ReplayNone(schema, codec, default, rows);
    }
    var left := rows.Keys;
    while left != {}
      invariant settings.Valid() && fresh(settings)
      invariant settings.schema == schema && settings.codec == codec && settings.default == default
      invariant left <= rows.Keys
      invariant forall n :: n in order <==> n in rows.Keys - left
      invariant forall i, j :: 0 <= i < j < |order| ==> order[i] != order[j]
      invariant settings.value == ReplayValue(schema, codec, default, rows, order)
      decreases left
    {
      var key :| key in left;
      assert key !in order;
      ReplaySnoc(schema, codec, default, rows, order, key);
      if key != "owner_id" && !rows[key].Null? {
        var _ := settings.Set(key, RowText(codec, rows[key]));
      }
      order := order + [key];
      left := left - {key};
    }
    settings.MigrateLegacyProviderFields();
  }

  lemma ReplayNone(t: Type, c: Codec, v: Json, rows: map<string, Json>)
    ensures ReplayValue(t, c, v, rows, []) == v
  {
  }

  lemma {:induction false} ReplaySnoc(t: Type, c: Codec, v: Json, rows: map<string, Json>, order: seq<string>, n: string)
    requires n in rows && forall m :: m in order ==> m in rows
    ensures ReplayValue(t, c, v, rows, order + [n]) == ApplyValue(t, c, ReplayValue(t, c, v, rows, order), n, rows[n])
    decreases order
  {
    if order == [] {
      assert order + [n] == [n];
    } else {
      assert (order + [n])[1..] == order[1..] + [n];
      ReplaySnoc(t, c, ApplyValue(t, c, v, order[0], rows[order[0]]), rows, order[1..], n);
    }
  }

  // ----- Flattening -----

  /** `rows` is `before` with the rows of `j` written over it. */
  ghost predicate Collected(j: Json, prefix: string, before: map<string, Json>, rows: map<string, Json>) {
    && (forall n :: n in before ==> n in rows)
    && (forall p :: p in LeafPaths(j) ==> Named(prefix, p) in rows)
    && (forall n :: n in rows ==> (n in before && rows[n] == before[n]) || exists p :: IsRow(j, prefix, p, n, rows[n]))
  }

  method CollectSettingsJson(value: Json, prefix: string, results: map<string, Json>) returns (rows: map<string, Json>)
    ensures Collected(value, prefix, results, rows)
    decreases value
  {
    rows := results;
    if value.Obj? {
      var left := value.fields.Keys;
      while left != {}
        invariant left <= value.fields.Keys
        invariant CollectedKeys(value, prefix, value.fields.Keys - left, results, rows)
        decreases left
      {
        var key :| key in left;
        var path := if prefix == [] then key else prefix + "." + key;
        ghost var before := rows;
        rows := CollectSettingsJson(value.fields[key], path, rows);
        CollectedOneMore(value, prefix, value.fields.Keys - left, key, results, before, rows);
        left := left - {key};
        assert value.fields.Keys - left == value.fields.Keys - (left + {key}) + {key};
      }
    } else {
      rows := rows[prefix := value];
      assert IsRow(value, prefix, [], prefix, value);
    }
  }

  /** The same, once only the fields in `keys` have been collected. */
  ghost predicate CollectedKeys(j: Json, prefix: string, keys: set<string>, before: map<string, Json>, rows: map<string, Json>) {
    && j.Obj?
    && (forall n :: n in before ==> n in rows)
    && (forall p :: p in LeafPaths(j) && p != [] && p[0] in keys ==> Named(prefix, p) in rows)
    && (forall n :: n in rows ==> (n in before && rows[n] == before[n]) || exists p :: IsRow(j, prefix, p, n, rows[n]))
  }

  lemma CollectedOneMore(j: Json, prefix: string, keys: set<string>, key: string,
                         results: map<string, Json>, before: map<string, Json>, rows: map<string, Json>)
    requires j.Obj? && key in j.fields && CollectedKeys(j, prefix, keys, results, before)
    requires Collected(j.fields[key], if prefix == [] then key else prefix + "." + key, before, rows)
    ensures CollectedKeys(j, prefix, keys + {key}, results, rows)
  {
    var next := if prefix == [] then key else prefix + "." + key;
    forall p | p in LeafPaths(j) && p != [] && p[0] in keys + {key}
      ensures Named(prefix, p) in rows
    {
      LeafAt(j, p);
      assert p[0] == key ==> Named(prefix, p) == Named(next, p[1..]);
    }
    forall n | n in rows
      ensures (n in results && rows[n] == results[n]) || exists p :: IsRow(j, prefix, p, n, rows[n])
    {
      if q :| IsRow(j.fields[key], next, q, n, rows[n]) {
        var p := [key] + q;
        assert p[1..] == q && p in LeafPaths(j);
        assert IsRow(j, prefix, p, n, rows[n]);
      }
    }
  }

  method ToDbMap(tree: Json) returns (rows: map<string, Json>)
    ensures RowsOf(tree, rows)
  {
    rows := CollectSettingsJson(tree, "", map[]);
    ghost var all := rows;
    rows := rows - {"owner_id"};
    forall n | n in rows ensures exists p :: IsRow(tree, "", p, n, rows[n]) {
      assert rows[n] == all[n];
    }
  }

  // ----- Where the documentation promises more than the code does -----

  /** `null` is text for null and for no number. */
  ghost predicate NullText(c: Codec) {
    c.show(Null) == "null" && c.parseU64("null") == None && c.parseI64("null") == None && c.parseF64("null") == NotANumber
  }

  /** Whether the default's text reads back as the default over what is there now; a section's always does. */
  ghost predicate Resets(c: Codec, now: Option<Json>, v: Json) {
    if v.Obj? then true
    else if v.Null? then now.None? || now.value.Null? || now.value.Arr? || now.value.Obj?
    else TextKeeps(c, now, v)
  }

  /**
   `reset` promises the default. It delivers it exactly when the place can still be reached and
   the default's text reads back over what is there: a null default over a set string does not,
   and over a number it is refused.
   */
  lemma ResetRestores(t: Type, c: Codec, j: Json, d: Json, path: string)
    requires Lawful(c) && NullText(c) && WellTyped(t) && PlainLeaves(c, t)
    requires Conforms(t, j) && Conforms(t, d) && GetText(c, d, path).Some?
    ensures var p := Split(path);
            && At(d, p).Some?
            && (At(AfterSet(t, c, j, p, GetText(c, d, path).value), p) == At(d, p)
                <==> ParentIn(j, p) && Resets(c, At(j, p), At(d, p).value))
  {
    hide Lawful, NullText, WellTyped, PlainLeaves, Conforms, AfterSet, SetTree, Landed, TextKeeps, Fits, Typed, At;
    var p := Split(path);
    var v, text := At(d, p).value, GetText(c, d, path).value;
    SetLens(t, c, j, p, text, p);
    PlaceFits(t, c, d, p);
    if !ParentIn(j, p) {
      NothingThere(j, p);
    } else {
      var slot := SlotAt(t, p).value;
      if At(j, p).Some? {
        PlaceFits(t, c, j, p);
      }
      PlaceTyped(slot, At(j, p));
      if v.Null? {
        LandedNull(c, slot, At(j, p));
      } else if v.Obj? {
        LandedSection(c, slot, At(j, p), v);
      } else {
        LeafSurvives(c, slot, v, At(j, p));
      }
    }
  }

  lemma {:induction false} NothingThere(j: Json, p: Path)
    requires p != [] && !ParentIn(j, p)
    ensures At(j, p) == None
  {
    if j.Obj? && |p| > 1 && p[0] in j.fields {
      NothingThere(j.fields[p[0]], p[1..]);
    }
  }

  /** Whatever is found at a path fits the place the schema has there. */
  lemma {:induction false} PlaceFits(t: Type, c: Codec, j: Json, p: Path)
    requires WellTyped(t) && PlainLeaves(c, t) && Conforms(t, j) && p != [] && At(j, p).Some?
    ensures var slot := SlotAt(t, p);
            && slot.Some? && Fits(slot, At(j, p).value) && WellTyped(slot.value.ty) && PlainLeaves(c, slot.value.ty)
            && (slot.value.skip == Some(IfEmpty) ==> slot.value.ty.MapOf?)
    decreases p
  {
    hide WellTyped, PlainLeaves, Conforms;
    ConformsChild(t, j, p[0]);
    EmptySkipsMaps(t, p[0]);
    PlainChild(c, t, p[0]);
    if |p| == 1 {
      AtOne(j, p);
    } else {
      PlaceFits(Child(t, p[0]).value.ty, c, j.fields[p[0]], p[1..]);
    }
  }

  lemma PlaceTyped(slot: Slot, now: Option<Json>)
    requires WellTyped(slot.ty) && (slot.skip == Some(IfEmpty) ==> slot.ty.MapOf?)
    requires now.Some? ==> Fits(Some(slot), now.value)
    ensures Typed(Some(slot), now)
  {
  }

  lemma LandedNull(c: Codec, slot: Slot, now: Option<Json>)
    requires Lawful(c) && NullText(c) && PlainLeaves(c, slot.ty) && Typed(Some(slot), now) && Fits(Some(slot), Null)
    ensures Landed(c, Some(slot), now, "null") == Some(Null) <==> Resets(c, now, Null)
  {
    assert c.parse(c.show(Null)) == Some(Null);
    assert "null"[0] == 'n' && "true"[0] == 't' && "false"[0] == 'f';
    DecodeIdentity(slot.ty, Null);
    if now.Some? && now.value.Str? {
      LeafUnder(c, slot.ty, now.value);
    }
    hide Decode, PlainLeaves, WellTyped, Conforms, Lawful;
  }

  lemma LandedSection(c: Codec, slot: Slot, now: Option<Json>, v: Json)
    requires Lawful(c) && v.Obj? && Typed(Some(slot), now) && Fits(Some(slot), v)
    ensures Landed(c, Some(slot), now, Shown(c, v)) == Some(v)
  {
    assert c.parse(c.show(v)) == Some(v);
    DecodeIdentity(slot.ty, v);
    if now.Some? {
      SectionKind(slot.ty, v, now.value);
    }
    hide Decode, WellTyped, Conforms, Lawful;
  }

  /** Where a section may be, there is a section or nothing. */
  lemma {:induction false} SectionKind(t: Type, v: Json, now: Json)
    requires WellTyped(t) && v.Obj? && Conforms(t, v) && Conforms(t, now)
    ensures now.Obj? || now.Null?
  {
    if t.Nullable? && !now.Null? {
      SectionKind(t.inner, v, now);
    }
  }

  /** A text, optional or not, that was set and whose default is null holds the text "null" when it is reset, wherever it is. */
  lemma ResetLeavesNullText(t: Type, c: Codec, j: Json, d: Json, path: string, s: string)
    requires Lawful(c) && NullText(c) && WellTyped(t) && PlainLeaves(c, t) && Conforms(t, j)
    requires var p := Split(path);
             && At(d, p) == Some(Null) && At(j, p) == Some(Str(s))
             && SlotAt(t, p).Some? && IsString(Bare(SlotAt(t, p).value.ty))
    ensures GetText(c, d, path).Some?
    ensures At(AfterSet(t, c, j, Split(path), GetText(c, d, path).value), Split(path)) == Some(Str("null"))
  {
    hide Split;
    SetReads(t, c, j, Split(path), s, "null");
  }

  /** A text set over a text is what is there. */
  lemma SetReads(t: Type, c: Codec, j: Json, p: Path, s: string, text: string)
    requires Lawful(c) && WellTyped(t) && PlainLeaves(c, t) && Conforms(t, j)
    requires p != [] && At(j, p) == Some(Str(s)) && SlotAt(t, p).Some? && IsString(Bare(SlotAt(t, p).value.ty))
    ensures SetTree(t, c, j, p, text).Ok? && SetTree(t, c, j, p, text).value == AfterSet(t, c, j, p, text)
    ensures At(AfterSet(t, c, j, p, text), p) == Some(Str(text))
  {
    SetLens(t, c, j, p, text, p);
    SetSucceedsIff(t, c, j, p, text);
    PlaceFits(t, c, j, p);
    if !ParentIn(j, p) {
      NothingThere(j, p);
    }
    LeafUnder(c, SlotAt(t, p).value.ty, Str(s));
    assert SetTree(t, c, j, p, text).Ok? ==> SetTree(t, c, j, p, text).value == AfterSet(t, c, j, p, text);
    hide SlotAt, PlainLeaf, ParentIn, Lawful, WellTyped, PlainLeaves, Conforms, AfterSet, Decode, At, SetTree;
  }

  /** An optional number or flag that was set cannot be reset at all, wherever it is: `null` is refused where there is one. */
  lemma ResetRefusesNull(t: Type, c: Codec, j: Json, d: Json, path: string)
    requires NullText(c) && WellTyped(t) && Conforms(t, j)
    requires var p := Split(path);
             At(d, p) == Some(Null) && At(j, p).Some? && (At(j, p).value.Num? || At(j, p).value.Bool?)
    ensures var text := GetText(c, d, path);
            text.Some? && SetTree(t, c, j, Split(path), text.value).Err? && AfterSet(t, c, j, Split(path), text.value) == j
  {
    var p := Split(path);
    assert Infer(c, At(j, p), "null").Err? by {
      assert "null"[0] == 'n' && "true"[0] == 't' && "false"[0] == 'f';
    }
    hide Infer, Decode, SetTree, WellTyped, Conforms, At, AliasAt, SlotAt, ParentIn, Split;
    SetSucceedsIff(t, c, j, p, "null");
  }

  // ----- Getting and setting -----

  /** What `get` shows at a path, by the kind of what is there: text as it is, everything else as its JSON text. */
  lemma GetShows(c: Codec, j: Json, parts: Path)
    requires Lawful(c) && c.show(Null) == "null" && parts != [] && DotFreePath(parts)
    ensures GetText(c, j, Join(parts)) ==
            match At(j, parts) {
              case None => None
              case Some(Str(s)) => Some(s)
              case Some(v) => Some(c.show(v))
            }
  {
    SplitJoin(parts);
  }

  /** A text set over a text is what `get` shows of the settings afterwards. */
  lemma SetThenGet(t: Type, c: Codec, v: Json, path: string, s: string, text: string)
    requires Lawful(c) && WellTyped(t) && PlainLeaves(c, t) && Holds(t, v)
    requires var p := Split(path);
             At(Show(t, v), p) == Some(Str(s)) && SlotAt(t, p).Some? && IsString(Bare(SlotAt(t, p).value.ty))
    ensures var r := SetValue(t, c, v, Split(path), text);
            r.Ok? && GetText(c, Show(t, r.value), path) == Some(text)
  {
    hide *;
    var p := Split(path);
    ShowConforms(t, v);
    SetReads(t, c, Show(t, v), p, s, text);
    SetShows(t, c, v, p, text);
    TextShows(c, SetTree(t, c, Show(t, v), p, text).value, path, text);
  }

  lemma TextShows(c: Codec, j: Json, path: string, text: string)
    requires At(j, Split(path)) == Some(Str(text))
    ensures GetText(c, j, path) == Some(text)
  {
  }

  /** Setting what `get` shows changes nothing of what is written, wherever it is. */
  lemma GetThenSet(t: Type, c: Codec, j: Json, path: string)
    requires Lawful(c) && NullText(c) && WellTyped(t) && PlainLeaves(c, t) && Conforms(t, j) && GetText(c, j, path).Some?
    ensures AfterSet(t, c, j, Split(path), GetText(c, j, path).value) == j
  {
    var p := Split(path);
    ResetRestores(t, c, j, j, path);
    if !ParentIn(j, p) {
      NothingThere(j, p);
    }
    var v := At(j, p).value;
    if !v.Obj? && !v.Null? {
      SameKindKeeps(c, v);
    }
    hide Split, AfterSet, GetText;
    SetBack(t, c, j, p, GetText(c, j, path).value);
  }

  /** A set that leaves its place as it was changes nothing. */
  lemma {:induction false} SetBack(t: Type, c: Codec, j: Json, p: Path, text: string)
    requires p != [] && WellTyped(t) && Conforms(t, j) && At(j, p).Some?
    requires At(AfterSet(t, c, j, p, text), p) == At(j, p)
    ensures AfterSet(t, c, j, p, text) == j
    decreases p
  {
    hide AfterSet, SetTree, Landed, Conforms, WellTyped;
    var k, j' := p[0], AfterSet(t, c, j, p, text);
    FieldAfterSet(t, c, j, p, text);
    if |p| == 1 {
      AtOne(j, p);
      AtOne(j', p);
    } else {
      ConformsChild(t, j, k);
      SetBack(Child(t, k).value.ty, c, j.fields[k], p[1..], text);
    }
    SameFields(j'.fields, j.fields);
  }

  /** Which texts are refused, by what is there: over a flag all but two words, over a number what is none, over a list or section what is no JSON. */
  lemma SetRefuses(t: Type, c: Codec, j: Json, p: Path, text: string)
    requires p != [] && At(j, p).Some?
    ensures var refused := SetTree(t, c, j, p, text) == Err(BadValue);
            match At(j, p).value {
              case Bool(_) => refused <==> text != "true" && text != "false"
              case Num(U64(_)) => refused <==> c.parseU64(text).None?
              case Num(I64(_)) => refused <==> c.parseI64(text).None?
              case Num(F64(_)) => refused <==> c.parseF64(text).NotANumber?
              case Arr(_) => refused <==> c.parse(text).None?
              case Obj(_) => refused <==> c.parse(text).None?
              case Str(_) => !refused
              case Null => !refused
            }
  {
    if !ParentIn(j, p) {
      NothingThere(j, p);
    }
    RefusedIff(t, c, j, p, text);
    hide SetTree, At, ParentIn;
  }

  lemma {:induction false} RefusedIff(t: Type, c: Codec, j: Json, p: Path, text: string)
    requires p != [] && ParentIn(j, p)
    ensures SetParts(c, j, p, text) == Err(BadValue) <==> Infer(c, At(j, p), text) == Err(BadValue)
    ensures SetTree(t, c, j, p, text) == Err(BadValue) <==> Infer(c, At(j, p), text) == Err(BadValue)
    decreases p
  {
    hide Infer, Decode, Read;
    if |p| == 1 {
      AtOne(j, p);
    } else {
      RefusedIff(t, c, j.fields[p[0]], p[1..], text);
    }
  }

  /** A map entry that is itself an object is lost: its rows name a parent the default does not have. */
  lemma NestedEntryLost(c: Codec, t: Type, s: Json, d: Json, k: string, l: string)
    requires s.Obj? && d.Obj? && k in s.fields && s.fields[k].Obj? && l in s.fields[k].fields
    requires s.fields[k].fields[l].Obj? && Lookup(d.fields, k) == Some(Obj(map[]))
    ensures Rebuilt(c, t, s, d).Some? && At(Rebuilt(c, t, s, d).value, [k, l]) == None && At(s, [k, l]).Some?
  {
    var done := LeafPaths(s) - {["owner_id"]};
    var dk := Obj(map[]);
    var r := Rebuilt(c, t, s, d).value;
    assert Lookup(r.fields, k) == MixAt(c, Root(t), s, d.fields, k, done);
    var inner := Mix(c, ChildOf(Root(t), k), s.fields[k], Some(dk), Sub(done, k)).value;
    assert Lookup(inner.fields, l) == MixAt(c, ChildOf(Root(t), k), s.fields[k], map[], l, Sub(done, k)) == None;
    assert [k, l][1..] == [l] && [l][1..] == [];
    assert r.Obj? && k in r.fields && r.fields[k] == inner;
    assert At(r, [k, l]) == At(inner, [l]);
    AtOne(inner, [l]);
    assert At(s, [k, l]) == At(s.fields[k], [l]);
    AtOne(s.fields[k], [l]);
  }

  lemma DottedApart(n: string, k: string, l: string)
    requires '.' in l && Split(n) != [k]
    ensures Apart(Split(n), [k, l])
  {
    var p := Split(n);
    JoinSplit(n);
    assert |p| > 1 ==> p[1] in p;
    assert |p| == 1 ==> p == [p[0]];
  }

  /** No row names a place whose key has a dot in it. */
  lemma {:induction false} DottedKept(t: Type, c: Codec, tree: Json, rows: map<string, Json>, order: seq<string>, k: string, l: string)
    requires WellTyped(t) && Conforms(t, tree) && '.' in l
    requires forall n :: n in order ==> n in rows && Split(n) != [k]
    ensures At(Replay(t, c, tree, rows, order), [k, l]) == At(tree, [k, l])
    decreases |order|
  {
    hide At, Conforms, WellTyped, SetTree, Split;
    if order != [] {
      var n := order[0];
      DottedApart(n, k, l);
      SetLens(t, c, tree, Split(n), RowText(c, rows[n]), [k, l]);
      DottedKept(t, c, ApplyRow(t, c, tree, n, rows[n]), rows, order[1..], k, l);
    }
  }

  lemma NamedShort(s: Json, p: Path, k: string)
    requires s.Obj? && "" !in s.fields && p in LeafPaths(s) && '.' !in k && Named("", p) == k
    ensures p == [k] && k in s.fields && !s.fields[k].Obj?
  {
    if |p| > 1 {
      assert Join(p)[|p[0]|] == '.';
    }
    LeafAt(s, p);
    NamedJoins("", p);
    assert p == [p[0]] + p[1..];
    AtOne(s, [p[0]]);
  }

  /**
   A map entry whose key has a dot in it is lost, plain or not: its row is written under a name
   that splits elsewhere, in whatever order the rows come.
   */
  lemma DottedEntryLost(t: Type, c: Codec, s: Json, d: Json, rows: map<string, Json>, order: seq<string>, k: string, l: string)
    requires WellTyped(t) && Conforms(t, d) && RowsOf(s, rows) && forall n :: n in order ==> n in rows
    requires s.Obj? && "" !in s.fields && '.' !in k && k in s.fields && s.fields[k].Obj?
    requires '.' in l && l in s.fields[k].fields && At(d, [k, l]) == None
    ensures At(Replay(t, c, d, rows, order), [k, l]) == None && At(s, [k, l]).Some?
  {
    assert [k, l][1..] == [l] && [l][1..] == [];
    forall n | n in order ensures Split(n) != [k] {
      JoinSplit(n);
      if Split(n) == [k] {
        var p :| IsRow(s, "", p, n, rows[n]);
        NamedShort(s, p, k);
      }
    }
    AtOne(s.fields[k], [l]);
    DottedKept(t, c, d, rows, order, k, l);
  }

  /** An optional section that is set where the default has none is lost: its rows name a parent that is null. */
  lemma OptionalSectionLost(c: Codec, t: Type, s: Json, d: Json, k: string)
    requires s.Obj? && d.Obj? && k in s.fields && s.fields[k].Obj? && Lookup(d.fields, k) == Some(Null)
    ensures Rebuilt(c, t, s, d).Some? && At(Rebuilt(c, t, s, d).value, [k]) == Some(Null)
  {
    var done := LeafPaths(s) - {["owner_id"]};
    var r := Rebuilt(c, t, s, d).value;
    assert Lookup(r.fields, k) == MixAt(c, Root(t), s, d.fields, k, done) == Some(Null);
    AtOne(r, [k]);
  }
}
