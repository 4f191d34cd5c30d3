/**
 A schema with a field of each kind `src/settings.rs` declares: flags, text, integers of several
 widths, floats, enumerations, lists, maps, plain and optional sections, fields written always,
 unless empty, or never, and an alias. It meets every condition the settings theorems ask of a
 schema and of its default, and what they say of it can be seen on its fields.
 */
module SettingsExample {
  import opened Wrappers
  import opened Json
  import opened SettingsTypes
  import opened Settings
  import opened SettingsRows
  import opened SettingsRoundTrip
  import opened SettingsMerge

  function TextLeaf(j: Json): Option<Json> {
    if j.Str? then Some(j) else None
  }

  function FlagLeaf(j: Json): Option<Json> {
    if j.Bool? then Some(j) else None
  }

  /** Integers are read as floats; rounding is left out here. */
  function FloatLeaf(j: Json): Option<Json> {
    if !j.Num? then None else if j.num.F64? then Some(j) else Some(Num(F64(0)))
  }

  /** `usize` and `u64`, `u32` and `u16`, `i64`: a number in range is read as it is. */
  function LongLeaf(j: Json): Option<Json> {
    if j.Num? && j.num.U64? then Some(j) else None
  }

  function IntLeaf(j: Json): Option<Json> {
    if j.Num? && j.num.U64? && j.num.n < 0x1_0000_0000 then Some(j) else None
  }

  function ShortLeaf(j: Json): Option<Json> {
    if j.Num? && j.num.U64? && j.num.n < 0x1_0000 then Some(j) else None
  }

  function SignedLeaf(j: Json): Option<Json> {
    if j.Num? && (j.num.I64? || (j.num.U64? && j.num.n < 0x8000_0000_0000_0000)) then Some(j) else None
  }

  /** A variant of an enumeration: its name, or an object with the name as its only key. */
  predicate Variant(j: Json, name: string) {
    j == Str(name) || j == Obj(map[name := Null])
  }

  /** `KeySource`. */
  function SourceLeaf(j: Json): Option<Json> {
    if Variant(j, "keychain") then Some(Str("keychain"))
    else if Variant(j, "env") then Some(Str("env"))
    else if Variant(j, "none") then Some(Str("none"))
    else None
  }

  /** `PermissionState`. */
  function PermissionLeaf(j: Json): Option<Json> {
    if Variant(j, "always_allow") then Some(Str("always_allow"))
    else if Variant(j, "ask_each_time") then Some(Str("ask_each_time"))
    else if Variant(j, "disabled") then Some(Str("disabled"))
    else None
  }

  /** The names of variants are no JSON texts. */
  ghost predicate NoJson(c: Codec) {
    && c.parse("keychain") == None && c.parse("env") == None && c.parse("none") == None
    && c.parse("always_allow") == None && c.parse("ask_each_time") == None && c.parse("disabled") == None
  }

  /** `Vec<String>`. */
  function TextListLeaf(j: Json): Option<Json> {
    if j.Arr? && forall i :: 0 <= i < |j.items| ==> j.items[i].Str? then Some(j) else None
  }

  /** A provider in the list, with `builtin` filled in. */
  function Filled(j: Json): Json {
    if j.Obj? && "builtin" !in j.fields then Obj(j.fields["builtin" := Bool(false)]) else j
  }

  function ProvidersLeaf(j: Json): Option<Json> {
    if j.Arr? then Some(Arr(seq(|j.items|, i requires 0 <= i < |j.items| => Filled(j.items[i])))) else None
  }

  function OptionalText(): Type {
    Nullable(Leaf(TextLeaf))
  }

  function NoArray(): seq<Json> -> Option<Json> {
    items => None
  }

  /** The fields of a struct so far, each with its default. */
  datatype Fields = Fields(types: map<string, Type>, defaults: map<string, Json>, skip: map<string, Skip>)

  const NONE := Fields(map[], map[], map[])

  function Plus(fs: Fields, k: string, t: Type, default: Json): Fields {
    Fields(fs.types[k := t], fs.defaults[k := default], fs.skip)
  }

  function PlusSkipped(fs: Fields, k: string, t: Type, default: Json, skip: Skip): Fields {
    Fields(fs.types[k := t], fs.defaults[k := default], fs.skip[k := skip])
  }

  function StructOf(fs: Fields, aliases: set<string>): Type {
    Struct(fs.types, fs.defaults, fs.skip, aliases, NoArray())
  }

  function Texts(fs: Fields, a: string, b: string, d: string): Fields {
    PlusSkipped(PlusSkipped(PlusSkipped(fs, a, OptionalText(), Null, IfNull), b, OptionalText(), Null, IfNull),
                d, OptionalText(), Null, IfNull)
  }

  function OverrideSchema(): Type {
    StructOf(PlusSkipped(Texts(NONE, "api_key", "model", "base_url"), "extras", MapOf(Leaf(TextLeaf)), Obj(map[]), IfEmpty), {})
  }

  function TranscriptionSchema(): Type {
    StructOf(Plus(NONE, "enabled", Leaf(FlagLeaf), Bool(false)), {})
  }

  function AgentFields(): Fields {
    Plus(Plus(Plus(Plus(NONE,
      "name", Leaf(TextLeaf), Str("ironclaw")),
      "max_parallel_jobs", Leaf(IntLeaf), Num(U64(5))),
      "job_timeout_secs", Leaf(LongLeaf), Num(U64(3600))),
      "use_planning", Leaf(FlagLeaf), Bool(true))
  }

  function ChannelFields(): Fields {
    Plus(Plus(Plus(NONE,
      "http_port", Nullable(Leaf(ShortLeaf)), Null),
      "wasm_channel_owner_ids", MapOf(Leaf(SignedLeaf)), Obj(map[])),
      "wasm_channels", Leaf(TextListLeaf), Arr([]))
  }

  function SectionFields(): Fields {
    Plus(Plus(Plus(Plus(NONE,
      "agent", StructOf(AgentFields(), {}), Obj(AgentFields().defaults)),
      "channels", StructOf(ChannelFields(), {}), Obj(ChannelFields().defaults)),
      "tool_permissions", MapOf(Leaf(PermissionLeaf)), Obj(map[])),
      "owner_id", OptionalText(), Null)
  }

  function PlainFields(): Fields {
    Plus(Plus(Plus(Plus(Plus(Plus(SectionFields(),
      "onboard_completed", Leaf(FlagLeaf), Bool(false)),
      "secrets_master_key_source", Leaf(SourceLeaf), Str("none")),
      "llm_custom_providers", Leaf(ProvidersLeaf), Arr([])),
      "llm_builtin_overrides", MapOf(OverrideSchema()), Obj(map[])),
      "temperature", Nullable(Leaf(FloatLeaf)), Null),
      "transcription", Nullable(TranscriptionSchema()), Null)
  }

  function KeyFields(): Fields {
    PlusSkipped(PlainFields(), "secrets_master_key_hex", OptionalText(), Null, Never)
  }

  function AllFields(): Fields {
    Texts(KeyFields(), "bedrock_region", "bedrock_cross_region", "bedrock_profile")
  }

  function Schema(): Type {
    StructOf(AllFields(), {"setup_completed"})
  }

  function Default(): Json {
    Obj(AllFields().defaults)
  }

  lemma LeavesFit(c: Codec)
    ensures Fit(c, Leaf(FlagLeaf), Bool(false))
    ensures Fit(c, Leaf(ProvidersLeaf), Arr([])) && Fit(c, Nullable(Leaf(FloatLeaf)), Null) && Fit(c, OptionalText(), Null)
  {
    forall j | ProvidersLeaf(j).Some? ensures ProvidersLeaf(ProvidersLeaf(j).value) == ProvidersLeaf(j) {
      var once := ProvidersLeaf(j).value;
      assert forall i :: 0 <= i < |once.items| ==> Filled(once.items[i]) == once.items[i];
      assert ProvidersLeaf(once).value.items == once.items;
    }
    assert ProvidersLeaf(Arr([])).value.items == [];
  }

  ghost predicate Fit(c: Codec, t: Type, default: Json) {
    WellTyped(t) && PlainLeaves(c, t) && Holds(t, default) && BuiltIn(t, Show(t, default))
  }

  ghost predicate AllFit(c: Codec, fs: Fields) {
    && fs.types.Keys == fs.defaults.Keys && fs.skip.Keys <= fs.types.Keys
    && (forall k :: k in fs.types ==> Fit(c, fs.types[k], fs.defaults[k]))
    && (forall k :: k in fs.skip ==> SkipsDefault(fs.types[k], Lookup(fs.defaults, k), fs.skip[k]))
  }

  lemma PlusFits(c: Codec, fs: Fields, k: string, t: Type, default: Json)
    requires AllFit(c, fs) && Fit(c, t, default) && fs.skip == map[]
    ensures AllFit(c, Plus(fs, k, t, default)) && Plus(fs, k, t, default).skip == map[]
  {
  }

  lemma PlusSkippedFits(c: Codec, fs: Fields, k: string, t: Type, default: Json, skip: Skip)
    requires AllFit(c, fs) && Fit(c, t, default) && SkipsDefault(t, Some(default), skip)
    ensures AllFit(c, PlusSkipped(fs, k, t, default, skip))
  {
  }

  lemma TextsFit(c: Codec, fs: Fields, a: string, b: string, d: string)
    requires AllFit(c, fs)
    ensures AllFit(c, Texts(fs, a, b, d))
  {
    LeavesFit(c);
    hide AllFit, Fit, PlusSkipped, OptionalText;
    PlusSkippedFits(c, fs, a, OptionalText(), Null, IfNull);
    PlusSkippedFits(c, PlusSkipped(fs, a, OptionalText(), Null, IfNull), b, OptionalText(), Null, IfNull);
    PlusSkippedFits(c, PlusSkipped(PlusSkipped(fs, a, OptionalText(), Null, IfNull), b, OptionalText(), Null, IfNull),
                    d, OptionalText(), Null, IfNull);
  }

  lemma StructFits(c: Codec, fs: Fields, aliases: set<string>)
    requires AllFit(c, fs) && fs.types.Keys !! aliases
    ensures Fit(c, StructOf(fs, aliases), Obj(fs.defaults))
  {
    forall k | k in fs.skip ensures Seen(Some(fs.skip[k]), Show(fs.types[k], fs.defaults[k])).None? {
      ShowConforms(fs.types[k], fs.defaults[k]);
    }
  }

  /** The sections that are not there by default. */
  lemma OptionalSectionsFit(c: Codec)
    ensures Fit(c, MapOf(OverrideSchema()), Obj(map[])) && Fit(c, Nullable(TranscriptionSchema()), Null)
  {
    assert Fit(c, Leaf(FlagLeaf), Bool(false)) && AllFit(c, NONE);
    assert Fit(c, Nullable(TranscriptionSchema()), Null) by {
      PlusFits(c, NONE, "enabled", Leaf(FlagLeaf), Bool(false));
      StructFits(c, Plus(NONE, "enabled", Leaf(FlagLeaf), Bool(false)), {});
      hide StructOf, Plus, AllFit;
    }
    TextsFit(c, NONE, "api_key", "model", "base_url");
    var texts := Texts(NONE, "api_key", "model", "base_url");
    assert Fit(c, Leaf(TextLeaf), Str([]));
    assert Fit(c, MapOf(Leaf(TextLeaf)), Obj(map[]));
    PlusSkippedFits(c, texts, "extras", MapOf(Leaf(TextLeaf)), Obj(map[]), IfEmpty);
    StructFits(c, PlusSkipped(texts, "extras", MapOf(Leaf(TextLeaf)), Obj(map[]), IfEmpty), {});
    hide StructOf, PlusSkipped, Texts, AllFit;
  }

  lemma EmptyFits(c: Codec, t: Type)
    requires WellTyped(t) && PlainLeaves(c, t)
    ensures Fit(c, MapOf(t), Obj(map[])) && Fit(c, Nullable(t), Null)
  {
    assert Show(MapOf(t), Obj(map[])).fields == map[];
  }

  lemma NumbersFit(c: Codec)
    ensures WellTyped(Leaf(IntLeaf)) && PlainLeaf(c, IntLeaf) && WellTyped(Leaf(LongLeaf)) && PlainLeaf(c, LongLeaf)
    ensures WellTyped(Leaf(ShortLeaf)) && PlainLeaf(c, ShortLeaf) && WellTyped(Leaf(SignedLeaf)) && PlainLeaf(c, SignedLeaf)
  {
  }

  lemma ChoicesFit(c: Codec)
    requires NoJson(c)
    ensures Fit(c, Leaf(SourceLeaf), Str("none"))
    ensures WellTyped(Leaf(PermissionLeaf)) && PlainLeaf(c, PermissionLeaf)
  {
  }

  lemma AgentFits(c: Codec)
    ensures Fit(c, StructOf(AgentFields(), {}), Obj(AgentFields().defaults))
  {
    NumbersFit(c);
    assert Fit(c, Leaf(TextLeaf), Str("ironclaw")) && Fit(c, Leaf(IntLeaf), Num(U64(5)));
    assert Fit(c, Leaf(LongLeaf), Num(U64(3600))) && Fit(c, Leaf(FlagLeaf), Bool(true));
    assert AllFit(c, NONE);
    hide AllFit, Fit, Plus;
    var f1 := Plus(NONE, "name", Leaf(TextLeaf), Str("ironclaw"));
    PlusFits(c, NONE, "name", Leaf(TextLeaf), Str("ironclaw"));
    var f2 := Plus(f1, "max_parallel_jobs", Leaf(IntLeaf), Num(U64(5)));
    PlusFits(c, f1, "max_parallel_jobs", Leaf(IntLeaf), Num(U64(5)));
    var f3 := Plus(f2, "job_timeout_secs", Leaf(LongLeaf), Num(U64(3600)));
    PlusFits(c, f2, "job_timeout_secs", Leaf(LongLeaf), Num(U64(3600)));
    PlusFits(c, f3, "use_planning", Leaf(FlagLeaf), Bool(true));
    StructFits(c, AgentFields(), {});
  }

  lemma ChannelFits(c: Codec)
    ensures Fit(c, StructOf(ChannelFields(), {}), Obj(ChannelFields().defaults))
  {
    NumbersFit(c);
    EmptyFits(c, Leaf(ShortLeaf));
    EmptyFits(c, Leaf(SignedLeaf));
    assert Fit(c, Leaf(TextListLeaf), Arr([])) && AllFit(c, NONE);
    hide AllFit, Fit, Plus;
    var f1 := Plus(NONE, "http_port", Nullable(Leaf(ShortLeaf)), Null);
    PlusFits(c, NONE, "http_port", Nullable(Leaf(ShortLeaf)), Null);
    var f2 := Plus(f1, "wasm_channel_owner_ids", MapOf(Leaf(SignedLeaf)), Obj(map[]));
    PlusFits(c, f1, "wasm_channel_owner_ids", MapOf(Leaf(SignedLeaf)), Obj(map[]));
    PlusFits(c, f2, "wasm_channels", Leaf(TextListLeaf), Arr([]));
    StructFits(c, ChannelFields(), {});
  }

  lemma SectionFieldsFit(c: Codec)
    requires NoJson(c)
    ensures AllFit(c, SectionFields()) && SectionFields().skip == map[]
  {
    LeavesFit(c);
    AgentFits(c);
    ChannelFits(c);
    ChoicesFit(c);
    EmptyFits(c, Leaf(PermissionLeaf));
    assert AllFit(c, NONE);
    hide AllFit, Fit, Plus, AgentFields, ChannelFields, StructOf, OptionalText, PlainLeaf, WellTyped, NoJson;
    var agent, channels := StructOf(AgentFields(), {}), StructOf(ChannelFields(), {});
    var f1 := Plus(NONE, "agent", agent, Obj(AgentFields().defaults));
    PlusFits(c, NONE, "agent", agent, Obj(AgentFields().defaults));
    var f2 := Plus(f1, "channels", channels, Obj(ChannelFields().defaults));
    PlusFits(c, f1, "channels", channels, Obj(ChannelFields().defaults));
    var f3 := Plus(f2, "tool_permissions", MapOf(Leaf(PermissionLeaf)), Obj(map[]));
    PlusFits(c, f2, "tool_permissions", MapOf(Leaf(PermissionLeaf)), Obj(map[]));
    PlusFits(c, f3, "owner_id", OptionalText(), Null);
  }

  lemma PlainFieldsFit(c: Codec)
    requires NoJson(c)
    ensures AllFit(c, PlainFields())
  {
    LeavesFit(c);
    ChoicesFit(c);
    OptionalSectionsFit(c);
    SectionFieldsFit(c);
    hide AllFit, Fit, Plus, OverrideSchema, TranscriptionSchema, SectionFields;
    var f1 := Plus(SectionFields(), "onboard_completed", Leaf(FlagLeaf), Bool(false));
    PlusFits(c, SectionFields(), "onboard_completed", Leaf(FlagLeaf), Bool(false));
    var f2 := Plus(f1, "secrets_master_key_source", Leaf(SourceLeaf), Str("none"));
    PlusFits(c, f1, "secrets_master_key_source", Leaf(SourceLeaf), Str("none"));
    var f3 := Plus(f2, "llm_custom_providers", Leaf(ProvidersLeaf), Arr([]));
    PlusFits(c, f2, "llm_custom_providers", Leaf(ProvidersLeaf), Arr([]));
    var f4 := Plus(f3, "llm_builtin_overrides", MapOf(OverrideSchema()), Obj(map[]));
    PlusFits(c, f3, "llm_builtin_overrides", MapOf(OverrideSchema()), Obj(map[]));
    var f5 := Plus(f4, "temperature", Nullable(Leaf(FloatLeaf)), Null);
    PlusFits(c, f4, "temperature", Nullable(Leaf(FloatLeaf)), Null);
    PlusFits(c, f5, "transcription", Nullable(TranscriptionSchema()), Null);
  }

  lemma FieldsThere()
    ensures var all := AllFields();
            && "setup_completed" !in all.types
            && "secrets_master_key_hex" in all.types && all.types["secrets_master_key_hex"] == OptionalText()
            && Lookup(all.skip, "secrets_master_key_hex") == Some(Never)
            && Lookup(all.defaults, "secrets_master_key_hex") == Some(Null)
            && "onboard_completed" in all.types && all.types["onboard_completed"] == Leaf(FlagLeaf)
            && "onboard_completed" !in all.skip
  {
    hide AgentFields, ChannelFields, StructOf, OverrideSchema, TranscriptionSchema, OptionalText;
    var a, b := "setup_completed", "secrets_master_key_hex";
    assert a[0] == 's' && a[2] == 't' && "secrets_master_key_source"[2] == 'c' && b[0] == 's' && b[2] == 'c';
    assert "onboard_completed"[0] == 'o';
  }

  /** The schema and its default meet what the theorems ask of them. */
  lemma SchemaFits(c: Codec)
    requires NoJson(c)
    ensures WellTyped(Schema()) && PlainLeaves(c, Schema())
    ensures Holds(Schema(), Default()) && BuiltIn(Schema(), Show(Schema(), Default()))
  {
    LeavesFit(c);
    PlainFieldsFit(c);
    assert "setup_completed" !in AllFields().types by {
      FieldsThere();
    }
    hide AllFit, PlainFields, PlusSkipped, OptionalText, Texts, StructOf;
    PlusSkippedFits(c, PlainFields(), "secrets_master_key_hex", OptionalText(), Null, Never);
    TextsFit(c, KeyFields(), "bedrock_region", "bedrock_cross_region", "bedrock_profile");
    StructFits(c, AllFields(), {"setup_completed"});
  }

  lemma OverrideHasItsFields()
    ensures IsOverride(OverrideSchema())
  {
    assert "api_key"[0] == 'a' && "model"[0] == 'm' && "base_url"[0] == 'b' && "extras"[0] == 'e';
    assert IsString(Leaf(TextLeaf));
    hide Texts, OptionalText, IsString;
    assert OverrideSchema().fields.Keys == BLANK.Keys;
  }

  lemma ProviderFieldsFromTexts(fs: Fields)
    requires OVERRIDES in fs.types && fs.types[OVERRIDES].MapOf? && IsOverride(fs.types[OVERRIDES].elem)
    ensures ProviderFields(StructOf(Texts(fs, "bedrock_region", "bedrock_cross_region", "bedrock_profile"), {"setup_completed"}))
  {
    assert "bedrock_region"[8] == 'r' && "bedrock_cross_region"[8] == 'c' && "bedrock_profile"[8] == 'p' && OVERRIDES[0] == 'l';
    hide Texts, IsOptionalText, IsOverride;
  }

  /** And it has the provider fields the migration knows. */
  lemma SchemaMigrates()
    ensures ProviderFields(Schema())
  {
    assert OVERRIDES in PlainFields().types && PlainFields().types[OVERRIDES] == MapOf(OverrideSchema()) by {
      hide SectionFields, TranscriptionSchema, OverrideSchema;
      assert OVERRIDES[0] == 'l' && "temperature"[0] == 't' && "transcription"[0] == 't';
    }
    hide PlainFields, Texts, OverrideSchema, ProviderFields, IsOverride, OptionalText;
    OverrideHasItsFields();
    assert "secrets_master_key_hex"[0] == 's' && OVERRIDES[0] == 'l';
    ProviderFieldsFromTexts(KeyFields());
  }

  // ----- The field that is never written -----

  /** In any schema: setting a flag succeeds, and a field that is never written is at its default afterwards. */
  lemma FlagSets(t: Type, c: Codec, v: Json, flag: string, never: string)
    requires WellTyped(t) && Holds(t, v) && t.Struct? && flag != never
    requires flag in t.fields && t.fields[flag] == Leaf(FlagLeaf) && flag !in t.skip
    requires never in t.fields && Lookup(t.skip, never) == Some(Never)
    ensures SetValue(t, c, v, [flag], "true").Ok?
    ensures At(SetValue(t, c, v, [flag], "true").value, [never]) == Lookup(t.defaults, never)
  {
    ShowConforms(t, v);
    assert Holds(Leaf(FlagLeaf), v.fields[flag]);
    ShownField(t, v, flag);
    ClearedField(t, v, never);
    AtOne(Show(t, v), [flag]);
    AtOne(Cleared(t, v), [never]);
    assert Apart([flag], [never]) by {
      assert [flag][0] == flag && [never][0] == never;
    }
    assert ParentIn(Show(t, v), [flag]) && SlotAt(t, [flag]) == Some(Slot(Leaf(FlagLeaf), None));
    assert Infer(c, At(Show(t, v), [flag]), "true") == Ok(Bool(true)) && Decode(Leaf(FlagLeaf), Bool(true)).Some?;
    hide *;
    SetSucceedsIff(t, c, Show(t, v), [flag], "true");
    SetShows(t, c, v, [flag], "true");
    SetKeeps(t, c, v, [flag], "true", [never]);
  }

  /** A master key in the settings, whatever else they hold, is gone once a flag is set. */
  lemma SetForgetsKey(c: Codec)
    requires NoJson(c)
    ensures forall v :: Holds(Schema(), v) ==>
              var r := SetValue(Schema(), c, v, ["onboard_completed"], "true");
              r.Ok? && At(r.value, ["secrets_master_key_hex"]) == Some(Null)
  {
    SchemaFits(c);
    FieldsThere();
    assert "onboard_completed"[0] == 'o' && "secrets_master_key_hex"[0] == 's';
    var t := Schema();
    hide AllFields, WellTyped, Holds, SetValue, At, PlainLeaves, BuiltIn, NoJson, Show;
    forall v | Holds(t, v)
      ensures SetValue(t, c, v, ["onboard_completed"], "true").Ok?
      ensures At(SetValue(t, c, v, ["onboard_completed"], "true").value, ["secrets_master_key_hex"]) == Some(Null)
    {
      FlagSets(t, c, v, "onboard_completed", "secrets_master_key_hex");
    }
  }
}
