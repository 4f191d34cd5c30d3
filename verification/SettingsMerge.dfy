/** `merge_non_default` of `src/settings.rs`: overlay one settings tree on another, non-defaults winning. */
module SettingsMerge {
  import opened Wrappers
  import opened Json
  import opened SettingsTypes
  import opened Settings
  import opened SettingsRows

  function Or(o: Option<Json>, fallback: Json): Json {
    if o.Some? then o.value else fallback
  }

  function Merge(t: Json, o: Json, d: Json): Json
    decreases o, 1
  {
    if t.Obj? && o.Obj? && d.Obj? then
      Obj(map k | k in t.fields.Keys + o.fields.Keys && MergeAt(t, o, d, k).Some? :: MergeAt(t, o, d, k).value)
    else if o != d then o else t
  }

  /** A key the other side lacks stays; one only it has is taken unless it equals the default, absent meaning null. */
  function MergeAt(t: Json, o: Json, d: Json, k: string): Option<Json>
    requires t.Obj? && o.Obj? && d.Obj?
    decreases o, 0
  {
    var dv := Or(Lookup(d.fields, k), Null);
    if k !in o.fields then Lookup(t.fields, k)
    else if k in t.fields then Some(Merge(t.fields[k], o.fields[k], dv))
    else if o.fields[k] != dv then Some(o.fields[k])
    else None
  }

  lemma MergedField(t: Json, o: Json, d: Json, k: string)
    requires t.Obj? && o.Obj? && d.Obj?
    ensures Lookup(Merge(t, o, d).fields, k) == MergeAt(t, o, d, k)
  {
  }

  /** The recursive edit in place: the target's fields are updated key by key, in any order. */
  method MergeNonDefault(target: Json, other: Json, defaults: Json) returns (merged: Json)
    ensures merged == Merge(target, other, defaults)
    decreases other
  {
    merged := target;
    if target.Obj? && other.Obj? && defaults.Obj? {
      var fields, left := target.fields, other.fields.Keys;
      while left != {}
        invariant left <= other.fields.Keys
        invariant forall k :: Lookup(fields, k)
                            == if k in left then Lookup(target.fields, k) else MergeAt(target, other, defaults, k)
        decreases left
      {
        var key :| key in left;
        var dv := if key in defaults.fields then defaults.fields[key] else Null;
        ghost var before := fields;
        if key in fields {
          assert Lookup(fields, key) == Lookup(target.fields, key);
          var inner := MergeNonDefault(fields[key], other.fields[key], dv);
          fields := fields[key := inner];
        } else {
          assert Lookup(fields, key) == Lookup(target.fields, key);
          if other.fields[key] != dv {
            fields := fields[key := other.fields[key]];
          }
        }
        left := left - {key};
        forall k ensures Lookup(fields, k)
                      == if k in left then Lookup(target.fields, k) else MergeAt(target, other, defaults, k) {
          assert k != key ==> Lookup(fields, k) == Lookup(before, k);
        }
      }
      merged := Obj(fields);
      forall k ensures Lookup(fields, k) == Lookup(Merge(target, other, defaults).fields, k) {
        MergedField(target, other, defaults, k);
      }
      SameFields(fields, Merge(target, other, defaults).fields);
    } else if other != defaults {
      merged := other;
    }
  }

  // ----- Laws for all JSON -----

  lemma {:induction false} MergeDefault(t: Json, d: Json)
    ensures Merge(t, d, d) == t
    decreases d
  {
    if t.Obj? && d.Obj? {
      forall k ensures Lookup(Merge(t, d, d).fields, k) == Lookup(t.fields, k) {
        MergedField(t, d, d, k);
        if k in t.fields && k in d.fields {
          MergeDefault(t.fields[k], d.fields[k]);
        }
      }
      SameFields(Merge(t, d, d).fields, t.fields);
    }
  }

  lemma {:induction false} MergeSelf(o: Json, d: Json)
    ensures Merge(o, o, d) == o
    decreases o
  {
    if o.Obj? && d.Obj? {
      forall k ensures Lookup(Merge(o, o, d).fields, k) == Lookup(o.fields, k) {
        MergedField(o, o, d, k);
        if k in o.fields {
          MergeSelf(o.fields[k], Or(Lookup(d.fields, k), Null));
        }
      }
      SameFields(Merge(o, o, d).fields, o.fields);
    }
  }

  /** Merging the default changes nothing, and merging twice is merging once. */
  lemma {:induction false} MergeIdempotent(t: Json, o: Json, d: Json)
    ensures Merge(t, d, d) == t
    ensures Merge(Merge(t, o, d), o, d) == Merge(t, o, d)
    decreases o
  {
    MergeDefault(t, d);
    if t.Obj? && o.Obj? && d.Obj? {
      var m := Merge(t, o, d);
      forall k ensures Lookup(Merge(m, o, d).fields, k) == Lookup(m.fields, k) {
        MergedField(t, o, d, k);
        MergedField(m, o, d, k);
        if k in o.fields {
          var dv := Or(Lookup(d.fields, k), Null);
          if k in t.fields {
            MergeIdempotent(t.fields[k], o.fields[k], dv);
          } else if o.fields[k] != dv {
            MergeSelf(o.fields[k], dv);
          }
        }
      }
      SameFields(Merge(m, o, d).fields, m.fields);
    } else if o != d {
      MergeSelf(o, d);
    }
  }

  // ----- Laws for settings trees -----

  /** Wherever the default has an object, so has `j`, with at least its keys. Every settings tree is like this. */
  ghost predicate Covers(j: Json, d: Json)
    decreases d
  {
    d.Obj? ==> j.Obj? && forall k :: k in d.fields ==> k in j.fields && Covers(j.fields[k], d.fields[k])
  }

  lemma {:induction false} MergeCovers(t: Json, o: Json, d: Json)
    requires Covers(t, d) && Covers(o, d)
    ensures Covers(Merge(t, o, d), d)
    decreases o
  {
    if d.Obj? {
      forall k | k in d.fields
        ensures k in Merge(t, o, d).fields && Covers(Merge(t, o, d).fields[k], d.fields[k])
      {
        MergedField(t, o, d, k);
        MergeCovers(t.fields[k], o.fields[k], d.fields[k]);
      }
    }
  }

  /** On settings trees merging is associative: layers can be folded from either end. */
  lemma {:induction false} MergeAssociative(a: Json, b: Json, e: Json, d: Json)
    requires Covers(a, d) && Covers(b, d) && Covers(e, d)
    ensures Merge(Merge(a, b, d), e, d) == Merge(a, Merge(b, e, d), d)
    decreases d
  {
    if d.Obj? {
      var ab, be := Merge(a, b, d), Merge(b, e, d);
      MergeCovers(a, b, d);
      MergeCovers(b, e, d);
      var left, right := Merge(ab, e, d), Merge(a, be, d);
      forall k ensures Lookup(left.fields, k) == Lookup(right.fields, k) {
        MergedField(a, b, d, k);
        MergedField(b, e, d, k);
        MergedField(ab, e, d, k);
        MergedField(a, be, d, k);
        if k in d.fields {
          MergeAssociative(a.fields[k], b.fields[k], e.fields[k], d.fields[k]);
        }
      }
      SameFields(left.fields, right.fields);
    }
  }

  /** A place just below the default's objects: one of its leaves, or a key it does not have. */
  predicate Frontier(d: Json, p: Path) {
    && p != [] && d.Obj?
    && if |p| == 1 then p[0] in d.fields ==> !d.fields[p[0]].Obj?
       else p[0] in d.fields && Frontier(d.fields[p[0]], p[1..])
  }

  /** The other side's value if it has one that is not the default, else the target's. */
  function Pick(target: Option<Json>, other: Option<Json>, dv: Json): Option<Json> {
    if other.Some? && other.value != dv then other else target
  }

  lemma {:induction false} MergePicks(t: Json, o: Json, d: Json, p: Path)
    requires Covers(t, d) && Covers(o, d) && Frontier(d, p)
    ensures At(Merge(t, o, d), p) == Pick(At(t, p), At(o, p), Or(At(d, p), Null))
    decreases p
  {
    MergedField(t, o, d, p[0]);
    if |p| == 1 {
      AtOne(t, p);
      AtOne(o, p);
      AtOne(d, p);
      AtOne(Merge(t, o, d), p);
    } else {
      MergePicks(t.fields[p[0]], o.fields[p[0]], d.fields[p[0]], p[1..]);
    }
  }

  /** The wizard's order: database values over the first step, then the first step again. */
  lemma WizardPriority(step1: Json, db: Json, d: Json, p: Path)
    requires Covers(step1, d) && Covers(db, d) && Frontier(d, p)
    ensures var final, dv := Merge(Merge(step1, db, d), step1, d), Or(At(d, p), Null);
            At(final, p) == if At(step1, p).Some? && At(step1, p).value != dv then At(step1, p)
                            else if At(db, p).Some? && At(db, p).value != dv then At(db, p)
                            else At(step1, p)
  {
    MergeCovers(step1, db, d);
    MergePicks(step1, db, d, p);
    MergePicks(Merge(step1, db, d), step1, d, p);
  }

  /** The built-in defaults leave every map and every optional section empty, and write no field that may be skipped. */
  ghost predicate BuiltIn(t: Type, d: Json) {
    match t
    case Leaf(_) => true
    case Nullable(_) => !d.Obj?
    case MapOf(_) => d == Obj(map[])
    case Struct(fields, _, skip, _, _) =>
      d.Obj? ==> forall k :: k in d.fields && k in fields ==> k !in skip && BuiltIn(fields[k], d.fields[k])
  }

  /** Every settings tree has the skeleton of such defaults. */
  lemma {:induction false} SettingsCover(t: Type, j: Json, d: Json)
    requires Conforms(t, j) && Conforms(t, d) && BuiltIn(t, d) && WellTyped(t)
    ensures Covers(j, d)
    decreases d
  {
    if d.Obj? {
      forall k | k in d.fields ensures k in j.fields && Covers(j.fields[k], d.fields[k]) {
        SettingsCover(t.fields[k], j.fields[k], d.fields[k]);
      }
    }
  }

  /** A merge of settings trees is a settings tree: `merge_from` never falls back to doing nothing. */
  lemma {:induction false} MergeConforms(t: Type, x: Json, o: Json, d: Json)
    requires WellTyped(t) && Conforms(t, x) && Conforms(t, o)
    ensures Conforms(t, Merge(x, o, d))
    decreases o
  {
    hide Conforms, WellTyped;
    if x.Obj? && o.Obj? && d.Obj? {
      var m, root := Merge(x, o, d), Some(Slot(t, None));
      hide Merge;
      forall k | k in m.fields ensures Fits(Child(t, k), m.fields[k]) {
        MergedField(x, o, d, k);
        if k in x.fields {
          ConformsChild(t, x, k);
        }
        if k in o.fields {
          ConformsChild(t, o, k);
        }
        if k in o.fields && k in x.fields {
          var dv := Or(Lookup(d.fields, k), Null);
          MergeConforms(Child(t, k).value.ty, x.fields[k], o.fields[k], dv);
          EmptySkipsMaps(t, k);
          MergeSeen(x.fields[k], o.fields[k], dv, Child(t, k).value.skip);
        }
      }
      forall k | k in x.fields ensures k in m.fields {
        MergedField(x, o, d, k);
      }
      NodeFits(root, x, m);
    }
  }

  lemma MergeSeen(x: Json, o: Json, d: Json, skip: Option<Skip>)
    requires Seen(skip, x).Some? && Seen(skip, o).Some?
    ensures Seen(skip, Merge(x, o, d)).Some?
  {
    if x.Obj? && o.Obj? && d.Obj? && skip == Some(IfEmpty) {
      var k :| k in x.fields;
      MergedField(x, o, d, k);
    }
  }
}
