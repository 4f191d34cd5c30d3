/**
 What serde derives for the settings structs of `src/settings.rs`: a `Type` says how a tree
 is read (`Read`, with unknown keys dropped and missing ones defaulted) and what of a value
 is written (`Show`, with some fields skipped). A value is a tree with every field in it;
 what is written of it is a visible tree.
 */
module SettingsTypes {
  import opened Wrappers
  import opened Json

  // ----- What serde derives -----

  /** `skip_serializing_if` for an option and for a map, and `skip_serializing`. */
  datatype Skip = IfNull | IfEmpty | Never

  /** `positional` is how a struct is read from an array, field by field in declaration order. */
  datatype Type =
    | Leaf(norm: Json -> Option<Json>)
    | Nullable(inner: Type)
    | MapOf(elem: Type)
    | Struct(fields: map<string, Type>, defaults: map<string, Json>, skip: map<string, Skip>,
             aliases: set<string>, positional: seq<Json> -> Option<Json>)

  /** What is written of a field's value. */
  function Seen(skip: Option<Skip>, v: Json): Option<Json> {
    match skip
    case None => Some(v)
    case Some(IfNull) => if v.Null? then None else Some(v)
    case Some(IfEmpty) => if v == Obj(map[]) then None else Some(v)
    case Some(Never) => None
  }

  function ReadField(t: Type, fallback: Option<Json>, v: Option<Json>): Option<Json>
    decreases t, 1
  {
    if v.Some? then Read(t, v.value) else fallback
  }

  /** `from_value`; an alias beside the field it stands for is a duplicate field. */
  function Read(t: Type, j: Json): Option<Json>
    decreases t, 0
  {
    match t
    case Leaf(norm) => norm(j)
    case Nullable(inner) => if j.Null? then Some(Null) else Read(inner, j)
    case MapOf(elem) =>
      if j.Obj? && forall k :: k in j.fields ==> Read(elem, j.fields[k]).Some?
      then Some(Obj(map k | k in j.fields :: Read(elem, j.fields[k]).value)) else None
    case Struct(fields, defaults, _, aliases, positional) =>
      if j.Arr? then positional(j.items)
      else if j.Obj? && j.fields.Keys !! aliases
              && forall k :: k in fields ==> ReadField(fields[k], Lookup(defaults, k), Lookup(j.fields, k)).Some?
      then Some(Obj(map k | k in fields :: ReadField(fields[k], Lookup(defaults, k), Lookup(j.fields, k)).value))
      else None
  }

  /** `to_value`. */
  function Show(t: Type, v: Json): Json {
    match t
    case Leaf(_) => v
    case Nullable(inner) => if v.Null? then Null else Show(inner, v)
    case MapOf(elem) => if v.Obj? then Obj(map k | k in v.fields :: Show(elem, v.fields[k])) else v
    case Struct(fields, _, skip, _, _) =>
      if v.Obj? then
        Obj(map k | k in fields && k in v.fields && Seen(Lookup(skip, k), Show(fields[k], v.fields[k])).Some? ::
              Show(fields[k], v.fields[k]))
      else v
  }

  /** `from_value` followed by `to_value`. */
  function Decode(t: Type, j: Json): Option<Json> {
    match Read(t, j) case None => None case Some(v) => Some(Show(t, v))
  }

  /** The values of a type. */
  ghost predicate Holds(t: Type, v: Json) {
    match t
    case Leaf(norm) => norm(v) == Some(v)
    case Nullable(inner) => v.Null? || Holds(inner, v)
    case MapOf(elem) => v.Obj? && forall k :: k in v.fields ==> Holds(elem, v.fields[k])
    case Struct(fields, _, _, _, _) =>
      v.Obj? && v.fields.Keys == fields.Keys && forall k :: k in fields ==> Holds(fields[k], v.fields[k])
  }

  /** The visible trees of a type. */
  ghost predicate Conforms(t: Type, j: Json) {
    match t
    case Leaf(norm) => norm(j) == Some(j)
    case Nullable(inner) => j.Null? || Conforms(inner, j)
    case MapOf(elem) => j.Obj? && forall k :: k in j.fields ==> Conforms(elem, j.fields[k])
    case Struct(fields, _, skip, _, _) =>
      j.Obj? && j.fields.Keys <= fields.Keys
      && forall k :: k in fields ==>
           if k in j.fields then Conforms(fields[k], j.fields[k]) && Seen(Lookup(skip, k), j.fields[k]).Some? else k in skip
  }

  /** A field that may be skipped has the default that is skipped; a field never written has some default. */
  predicate SkipsDefault(t: Type, fallback: Option<Json>, skip: Skip) {
    match skip
    case IfNull => fallback == Some(Null)
    case IfEmpty => t.MapOf? && fallback == Some(Obj(map[]))
    case Never => fallback.Some?
  }

  /**
   Reading back what was read changes nothing, leaves are no objects, defaults are values of
   their types, and aliases are not names of fields.
   */
  ghost predicate WellTyped(t: Type) {
    match t
    case Leaf(norm) => forall j :: norm(j).Some? ==> norm(norm(j).value) == norm(j) && !norm(j).value.Obj?
    case Nullable(inner) => WellTyped(inner)
    case MapOf(elem) => WellTyped(elem)
    case Struct(fields, defaults, skip, aliases, positional) =>
      && fields.Keys !! aliases
      && (forall k :: k in fields ==>
            && WellTyped(fields[k])
            && (k in defaults ==> Holds(fields[k], defaults[k]))
            && (k in skip ==> SkipsDefault(fields[k], Lookup(defaults, k), skip[k])))
      && forall items :: positional(items).Some? ==> Holds(t, positional(items).value)
  }

  lemma {:induction false} ReadHolds(t: Type, j: Json)
    requires WellTyped(t) && Read(t, j).Some?
    ensures Holds(t, Read(t, j).value)
  {
    match t {
      case Leaf(_) =>
      case Nullable(inner) =>
        if !j.Null? {
          ReadHolds(inner, j);
        }
      case MapOf(elem) =>
        forall k | k in j.fields ensures Holds(elem, Read(elem, j.fields[k]).value) {
          ReadHolds(elem, j.fields[k]);
        }
      case Struct(fields, defaults, _, _, _) =>
        if j.Obj? {
          forall k | k in fields
            ensures Holds(fields[k], ReadField(fields[k], Lookup(defaults, k), Lookup(j.fields, k)).value)
          {
            if k in j.fields {
              ReadHolds(fields[k], j.fields[k]);
            }
          }
        }
    }
  }

  lemma {:induction false} ShowConforms(t: Type, v: Json)
    requires WellTyped(t) && Holds(t, v)
    ensures Conforms(t, Show(t, v)) && (Show(t, v).Null? <==> v.Null?)
  {
    match t {
      case Leaf(_) =>
      case Nullable(inner) =>
        if !v.Null? {
          ShowConforms(inner, v);
        }
      case MapOf(elem) =>
        forall k | k in v.fields ensures Conforms(elem, Show(elem, v.fields[k])) {
          ShowConforms(elem, v.fields[k]);
        }
      case Struct(fields, _, skip, _, _) =>
        forall k | k in fields ensures Conforms(fields[k], Show(fields[k], v.fields[k])) {
          ShowConforms(fields[k], v.fields[k]);
        }
    }
  }

  /** A visible tree reads, and shows as itself again. */
  lemma {:induction false} DecodeIdentity(t: Type, j: Json)
    requires WellTyped(t) && Conforms(t, j)
    ensures Decode(t, j) == Some(j)
  {
    match t {
      case Leaf(_) =>
      case Nullable(inner) =>
        if !j.Null? {
          DecodeIdentity(inner, j);
          ReadHolds(inner, j);
          ShowConforms(inner, Read(inner, j).value);
        }
      case MapOf(elem) =>
        forall k | k in j.fields ensures Decode(elem, j.fields[k]) == Some(j.fields[k]) {
          DecodeIdentity(elem, j.fields[k]);
        }
        assert Decode(t, j).value.fields == j.fields;
      case Struct(fields, defaults, skip, _, _) =>
        forall k | k in fields
          ensures var r := ReadField(fields[k], Lookup(defaults, k), Lookup(j.fields, k));
                  && r.Some?
                  && Seen(Lookup(skip, k), Show(fields[k], r.value)) == Lookup(j.fields, k)
        {
          if k in j.fields {
            DecodeIdentity(fields[k], j.fields[k]);
          }
        }
        var shown := Decode(t, j).value.fields;
        forall k ensures Lookup(shown, k) == Lookup(j.fields, k) {
        }
        SameFields(shown, j.fields);
    }
  }

  lemma SameFields(a: map<string, Json>, b: map<string, Json>)
    requires forall k :: Lookup(a, k) == Lookup(b, k)
    ensures a == b
  {
    assert forall k :: k in a ==> Lookup(a, k).Some? && Lookup(b, k).Some?;
    assert forall k :: k in b ==> Lookup(b, k).Some? && Lookup(a, k).Some?;
  }

  lemma DecodeConforms(t: Type, j: Json)
    requires WellTyped(t) && Decode(t, j).Some?
    ensures Conforms(t, Decode(t, j).value)
  {
    ReadHolds(t, j);
    ShowConforms(t, Read(t, j).value);
  }

  /** The value once every field that is never written has gone back to its default. */
  function Cleared(t: Type, v: Json): Json {
    match t
    case Leaf(_) => v
    case Nullable(inner) => if v.Null? then v else Cleared(inner, v)
    case MapOf(elem) => if v.Obj? then Obj(map k | k in v.fields :: Cleared(elem, v.fields[k])) else v
    case Struct(fields, defaults, skip, _, _) =>
      if v.Obj? then
        Obj(map k | k in v.fields ::
              if k !in fields then v.fields[k]
              else if Lookup(skip, k) == Some(Never) && k in defaults then defaults[k]
              else Cleared(fields[k], v.fields[k]))
      else v
  }

  /** Writing a value and reading it back loses the fields that are never written, and nothing else. */
  lemma {:induction false} ReadShow(t: Type, v: Json)
    requires WellTyped(t) && Holds(t, v)
    ensures Read(t, Show(t, v)) == Some(Cleared(t, v))
  {
    match t {
      case Leaf(_) =>
      case Nullable(inner) =>
        if !v.Null? {
          ReadShow(inner, v);
          ShowConforms(inner, v);
        }
      case MapOf(elem) =>
        forall k | k in v.fields ensures Read(elem, Show(elem, v.fields[k])) == Some(Cleared(elem, v.fields[k])) {
          ReadShow(elem, v.fields[k]);
        }
        assert Read(t, Show(t, v)).value.fields == Cleared(t, v).fields;
      case Struct(fields, defaults, skip, _, _) =>
        forall k | k in fields
          ensures ReadField(fields[k], Lookup(defaults, k), Lookup(Show(t, v).fields, k)) == Lookup(Cleared(t, v).fields, k)
          ensures Lookup(Cleared(t, v).fields, k).Some?
        {
          ReadShow(fields[k], v.fields[k]);
          ReadShowField(t, v, k);
        }
        var r := Read(t, Show(t, v));
        forall k ensures Lookup(r.value.fields, k) == Lookup(Cleared(t, v).fields, k) {
        }
        SameFields(r.value.fields, Cleared(t, v).fields);
    }
  }

  lemma {:induction false} ReadShowField(t: Type, v: Json, k: string)
    requires WellTyped(t) && Holds(t, v) && t.Struct? && k in t.fields
    requires Read(t.fields[k], Show(t.fields[k], v.fields[k])) == Some(Cleared(t.fields[k], v.fields[k]))
    ensures Lookup(Cleared(t, v).fields, k).Some?
    ensures ReadField(t.fields[k], Lookup(t.defaults, k), Lookup(Show(t, v).fields, k)) == Lookup(Cleared(t, v).fields, k)
  {
    var ct, x := t.fields[k], v.fields[k];
    ShownField(t, v, k);
    ClearedField(t, v, k);
    ShowConforms(ct, x);
    if k in t.skip {
      hide Conforms, Holds, Show, Cleared, Read;
      if t.skip[k].IfNull? && x.Null? {
        ClearedNull(ct);
      } else if t.skip[k].IfEmpty? && Seen(Some(IfEmpty), Show(ct, x)).None? {
        ClearedEmpty(ct, x);
      }
    }
  }

  lemma ShownField(t: Type, v: Json, k: string)
    requires Holds(t, v) && t.Struct? && k in t.fields
    ensures Lookup(Show(t, v).fields, k) == Seen(Lookup(t.skip, k), Show(t.fields[k], v.fields[k]))
  {
  }

  lemma ClearedField(t: Type, v: Json, k: string)
    requires WellTyped(t) && Holds(t, v) && t.Struct? && k in t.fields
    ensures Lookup(Cleared(t, v).fields, k)
         == if Lookup(t.skip, k) == Some(Never) then Lookup(t.defaults, k) else Some(Cleared(t.fields[k], v.fields[k]))
  {
  }

  lemma ClearedEmpty(t: Type, v: Json)
    requires t.MapOf? && Holds(t, v) && Show(t, v) == Obj(map[])
    ensures Cleared(t, v) == Obj(map[])
  {
    assert forall k :: k in v.fields ==> k in Show(t, v).fields;
    assert v.fields == map[] && Cleared(t, v).fields == map[];
  }

  lemma {:induction false} ClearedNull(t: Type)
    ensures Cleared(t, Null) == Null
  {
    if t.Nullable? {
      ClearedNull(t.inner);
    }
  }
}
