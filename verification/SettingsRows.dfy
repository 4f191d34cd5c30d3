/**
 `to_db_map` and `from_db_map` of `src/settings.rs`: a settings tree flattened to
 dotted rows and rebuilt by setting the rows over the default in whatever order
 the hash map yields them.
 */
module SettingsRows {
  import opened Wrappers
  import opened Json
  import opened SettingsTypes
  import opened Settings

  // ----- Flattening -----

  /** The dotted name the flattening gives a path, built from a prefix as the code builds it. */
  function Named(prefix: string, p: Path): string
    decreases p
  {
    if p == [] then prefix
    else Named(if prefix == [] then p[0] else prefix + "." + p[0], p[1..])
  }

  ghost predicate DotFree(j: Json) {
    j.Obj? ==> forall k :: k in j.fields ==> '.' !in k && DotFree(j.fields[k])
  }

  /** Names that split back into their paths: no dot in any key, no empty key at the top. */
  ghost predicate NamesSplit(j: Json) {
    j.Obj? && DotFree(j) && "" !in j.fields
  }

  lemma {:induction false} NamedJoins(prefix: string, p: Path)
    ensures prefix != [] ==> Named(prefix, p) == if p == [] then prefix else prefix + "." + Join(p)
    ensures prefix == [] && p != [] && p[0] != [] ==> Named(prefix, p) == Join(p)
    decreases p
  {
    if p != [] {
      var next := if prefix == [] then p[0] else prefix + "." + p[0];
      NamedJoins(next, p[1..]);
      if |p| > 1 && prefix != [] {
        assert prefix + "." + p[0] + "." + Join(p[1..]) == prefix + "." + (p[0] + "." + Join(p[1..]));
      }
    }
  }

  lemma {:induction false} LeafPathsDotFree(j: Json, p: Path)
    requires DotFree(j) && p in LeafPaths(j)
    ensures DotFreePath(p)
  {
    if j.Obj? {
      LeafAt(j, p);
      LeafPathsDotFree(j.fields[p[0]], p[1..]);
      assert p == [p[0]] + p[1..];
    }
  }

  lemma RowNameSplits(j: Json, p: Path)
    requires NamesSplit(j) && p in LeafPaths(j)
    ensures p != [] && Split(Named("", p)) == p
  {
    LeafAt(j, p);
    LeafPathsDotFree(j, p);
    NamedJoins("", p);
    SplitJoin(p);
  }

  /** A row of `j`: its dotted name and the leaf found there. */
  ghost predicate IsRow(j: Json, prefix: string, p: Path, n: string, v: Json) {
    p in LeafPaths(j) && Named(prefix, p) == n && At(j, p) == Some(v)
  }

  /** The rows of a tree: one for each leaf, `owner_id` left out. */
  ghost predicate RowsOf(j: Json, rows: map<string, Json>) {
    && (forall p :: p in LeafPaths(j) ==> Named("", p) == "owner_id" || Named("", p) in rows)
    && (forall n :: n in rows ==> n != "owner_id" && exists p :: IsRow(j, "", p, n, rows[n]))
  }

  // ----- Rebuilding -----

  /** One row of the loop in `from_db_map`. */
  function ApplyRow(t: Type, c: Codec, tree: Json, name: string, v: Json): Json {
    if name == "owner_id" || v.Null? then tree else
    match SetTree(t, c, tree, Split(name), RowText(c, v)) case Ok(tree') => tree' case Err(_) => tree
  }

  function Replay(t: Type, c: Codec, tree: Json, rows: map<string, Json>, order: seq<string>): Json
    requires forall n :: n in order ==> n in rows
    decreases order
  {
    if order == [] then tree
    else Replay(t, c, ApplyRow(t, c, tree, order[0], rows[order[0]]), rows, order[1..])
  }

  /** An iteration order of the map: every key once. */
  ghost predicate Ordering(order: seq<string>, rows: map<string, Json>) {
    && (forall n :: n in order <==> n in rows)
    && (forall i, j :: 0 <= i < j < |order| ==> order[i] != order[j])
  }

  /** What setting one leaf over the default leads to; a rejected row leaves the default. */
  function LeafOutcome(c: Codec, slot: Option<Slot>, v: Json, d: Option<Json>): Option<Json> {
    if v.Null? then d else Landed(c, slot, d, RowText(c, v))
  }

  function Sub(done: set<Path>, k: string): set<Path> {
    set p | p in done && p != [] && p[0] == k :: p[1..]
  }

  /** The tree once the rows at the paths `done` have been set, whatever their order. */
  function Mix(c: Codec, o: Option<Slot>, s: Json, d: Option<Json>, done: set<Path>): Option<Json>
    decreases s, 1
  {
    if s.Obj? then
      if d.Some? && d.value.Obj? then
        var dm := d.value.fields;
        Some(Obj(map k | k in s.fields.Keys + dm.Keys && MixAt(c, o, s, dm, k, done).Some? ::
                   MixAt(c, o, s, dm, k, done).value))
      else d
    else if [] in done then LeafOutcome(c, o, s, d) else d
  }

  function MixAt(c: Codec, o: Option<Slot>, s: Json, dm: map<string, Json>, k: string, done: set<Path>): Option<Json>
    requires s.Obj?
    decreases s, 0
  {
    if k in s.fields then Mix(c, ChildOf(o, k), s.fields[k], Lookup(dm, k), Sub(done, k)) else Lookup(dm, k)
  }

  /** The whole tree as a place. */
  function Root(t: Type): Option<Slot> {
    Some(Slot(t, None))
  }

  /** A tree that is written at a place. */
  ghost predicate Fits(o: Option<Slot>, j: Json) {
    o.Some? && Conforms(o.value.ty, j) && Seen(o.value.skip, j).Some?
  }

  ghost predicate Typed(o: Option<Slot>, d: Option<Json>) {
    && (o.Some? ==> WellTyped(o.value.ty) && (o.value.skip == Some(IfEmpty) ==> o.value.ty.MapOf?))
    && (d.Some? ==> Fits(o, d.value))
  }

  lemma TypedChild(o: Option<Slot>, d: Json, k: string)
    requires Typed(o, Some(d)) && d.Obj?
    ensures Typed(ChildOf(o, k), Lookup(d.fields, k))
    ensures k in d.fields ==> ChildOf(o, k).Some?
  {
    if k in d.fields {
      ConformsChild(o.value.ty, d, k);
    }
    if Child(o.value.ty, k).Some? {
      EmptySkipsMaps(o.value.ty, k);
    }
  }

  lemma LandedFits(c: Codec, o: Option<Slot>, d: Option<Json>, text: string)
    requires Typed(o, d)
    ensures Landed(c, o, d, text).Some? ==> Fits(o, Landed(c, o, d, text).value)
    ensures d.Some? && Landed(c, o, d, text).None? ==> o.value.skip.Some?
  {
    var w := Infer(c, d, text);
    if w.Ok? && o.Some? && Decode(o.value.ty, w.value).Some? {
      DecodeConforms(o.value.ty, w.value);
    }
  }

  /** The mixture is a visible tree, and only a field that may be skipped can be missing from it. */
  lemma {:induction false} MixConforms(c: Codec, o: Option<Slot>, s: Json, d: Option<Json>, done: set<Path>)
    requires Typed(o, d)
    ensures Mix(c, o, s, d, done).Some? ==> Fits(o, Mix(c, o, s, d, done).value)
    ensures d.Some? && Mix(c, o, s, d, done).None? ==> o.value.skip.Some?
    ensures d.Some? && d.value.Obj? && s.Obj? ==> Mix(c, o, s, d, done).Some?
    decreases s
  {
    hide Landed, Fits, Conforms, WellTyped;
    if !s.Obj? {
      if [] in done && !s.Null? {
        LandedFits(c, o, d, RowText(c, s));
      }
    } else if d.Some? && d.value.Obj? {
      var dm := d.value.fields;
      forall k
        ensures MixAt(c, o, s, dm, k, done).Some? ==> Fits(ChildOf(o, k), MixAt(c, o, s, dm, k, done).value)
        ensures k in dm && MixAt(c, o, s, dm, k, done).None? ==> ChildOf(o, k).Some? && ChildOf(o, k).value.skip.Some?
      {
        TypedChild(o, d.value, k);
        if k in s.fields {
          MixConforms(c, ChildOf(o, k), s.fields[k], Lookup(dm, k), Sub(done, k));
        }
      }
      NodeFits(o, d.value, Mix(c, o, s, d, done).value);
    }
  }

  /** An object of fields that fit, missing none of the default's but skippable ones, fits where the default does. */
  lemma NodeFits(o: Option<Slot>, d: Json, m: Json)
    requires Typed(o, Some(d)) && d.Obj? && m.Obj?
    requires forall k :: k in m.fields ==> Fits(ChildOf(o, k), m.fields[k])
    requires forall k :: k in d.fields && k !in m.fields ==> ChildOf(o, k).Some? && ChildOf(o, k).value.skip.Some?
    ensures Fits(o, m)
  {
    var t := o.value.ty;
    Unwrapped(t, d);
    assert Conforms(Bare(t), m);
    BareConforms(t, m);
    if o.value.skip == Some(IfEmpty) {
      var k :| k in d.fields;
      assert Child(t, k).value.skip.None?;
      assert k in m.fields;
    }
  }

  lemma {:induction false} BareConforms(t: Type, j: Json)
    requires Conforms(Bare(t), j)
    ensures Conforms(t, j)
  {
    if t.Nullable? {
      BareConforms(t.inner, j);
    }
  }

  lemma SubAdd(done: set<Path>, p: Path, k: string)
    requires p != []
    ensures Sub(done + {p}, k) == if p[0] == k then Sub(done, k) + {p[1..]} else Sub(done, k)
  {
    var before, after := Sub(done, k), Sub(done + {p}, k);
    forall q | q in before ensures q in after {
      var r :| r in done && r != [] && r[0] == k && q == r[1..];
      assert r in done + {p};
    }
    if p[0] == k {
      assert p in done + {p};
      assert p[1..] in after;
    }
  }

  /** Setting the row at a leaf path takes the mixture to the next one, or is refused and changes nothing. */
  lemma {:induction false} MixStep(c: Codec, slot: Slot, s: Json, d: Json, done: set<Path>, p: Path)
    requires Typed(Some(slot), Some(d)) && s.Obj? && d.Obj? && p in LeafPaths(s) && p !in done
    requires At(s, p).Some? && !At(s, p).value.Null?
    ensures p != [] && Mix(c, Some(slot), s, Some(d), done).Some?
    ensures Mix(c, Some(slot), s, Some(d), done + {p})
         == Some(AfterSet(slot.ty, c, Mix(c, Some(slot), s, Some(d), done).value, p, RowText(c, At(s, p).value)))
    decreases s
  {
    hide SetTree, Decode, Infer, Conforms, WellTyped, LeafPaths, Landed, Typed, Fits;
    LeafAt(s, p);
    var o, k, dm, text := Some(slot), p[0], d.fields, RowText(c, At(s, p).value);
    var m := Mix(c, o, s, Some(d), done).value;
    var co, dk, sk := ChildOf(o, k), Lookup(dm, k), s.fields[k];
    MixConforms(c, o, s, Some(d), done);
    TypedParts(o, Some(d), m);
    TypedChild(o, d, k);
    FieldAfterSet(slot.ty, c, m, p, text);
    var m' := AfterSet(slot.ty, c, m, p, text);
    hide AfterSet;
    SubLacks(done, p);
    LeafAt(sk, p[1..]);
    assert Lookup(m.fields, k) == Mix(c, co, sk, dk, Sub(done, k));
    if |p| == 1 {
      assert p[1..] == [];
    } else if dk.Some? && dk.value.Obj? {
      MixStep(c, co.value, sk, dk.value, Sub(done, k), p[1..]);
    } else if dk.Some? {
      ThroughLeaf(co.value.ty, c, dk.value, p[1..], text);
    }
    assert Lookup(m'.fields, k) == Mix(c, co, sk, dk, Sub(done, k) + {p[1..]});
    MixFields(c, o, s, d, done, p, m, m');
  }

  lemma TypedParts(o: Option<Slot>, d: Option<Json>, m: Json)
    requires Typed(o, d) && o.Some? && Fits(o, m)
    ensures WellTyped(o.value.ty) && Conforms(o.value.ty, m)
  {
  }

  lemma MixFields(c: Codec, o: Option<Slot>, s: Json, d: Json, done: set<Path>, p: Path, m: Json, m': Json)
    requires p != [] && s.Obj? && d.Obj? && p[0] in s.fields && m'.Obj?
    requires Mix(c, o, s, Some(d), done) == Some(m)
    requires forall l :: l != p[0] ==> Lookup(m'.fields, l) == Lookup(m.fields, l)
    requires Lookup(m'.fields, p[0])
          == Mix(c, ChildOf(o, p[0]), s.fields[p[0]], Lookup(d.fields, p[0]), Sub(done, p[0]) + {p[1..]})
    ensures Mix(c, o, s, Some(d), done + {p}) == Some(m')
  {
    var dm := d.fields;
    var fs := Mix(c, o, s, Some(d), done + {p}).value.fields;
    forall l ensures Lookup(fs, l) == Lookup(m'.fields, l) {
      SubAdd(done, p, l);
      assert Lookup(m.fields, l) == MixAt(c, o, s, dm, l, done);
      assert Lookup(fs, l) == MixAt(c, o, s, dm, l, done + {p});
    }
    SameFields(fs, m'.fields);
  }

  lemma SubLacks(done: set<Path>, p: Path)
    requires p != [] && p !in done
    ensures p[1..] !in Sub(done, p[0])
  {
    forall r | r in done && r != [] && r[0] == p[0]
      ensures r[1..] != p[1..]
    {
      assert r == [r[0]] + r[1..] && p == [p[0]] + p[1..];
    }
  }

  /** A null row is skipped, and the mixture does not count it. */
  lemma {:induction false} MixNull(c: Codec, o: Option<Slot>, s: Json, d: Option<Json>, done: set<Path>, p: Path)
    requires p in LeafPaths(s) && At(s, p) == Some(Null)
    ensures Mix(c, o, s, d, done + {p}) == Mix(c, o, s, d, done)
    decreases s
  {
    LeafAt(s, p);
    if s.Obj? && d.Some? && d.value.Obj? {
      var dm := d.value.fields;
      forall l ensures MixAt(c, o, s, dm, l, done + {p}) == MixAt(c, o, s, dm, l, done) {
        SubAdd(done, p, l);
        if l == p[0] {
          MixNull(c, ChildOf(o, l), s.fields[l], Lookup(dm, l), Sub(done, l), p[1..]);
        }
      }
      assert Mix(c, o, s, d, done + {p}).value.fields == Mix(c, o, s, d, done).value.fields;
    }
  }

  lemma {:induction false} MixStart(c: Codec, o: Option<Slot>, s: Json, d: Option<Json>)
    ensures Mix(c, o, s, d, {}) == d
    decreases s
  {
    if s.Obj? && d.Some? && d.value.Obj? {
      var dm := d.value.fields;
      forall k ensures MixAt(c, o, s, dm, k, {}) == Lookup(dm, k) {
        assert Sub({}, k) == {};
        if k in s.fields {
          MixStart(c, ChildOf(o, k), s.fields[k], Lookup(dm, k));
        }
      }
      assert Mix(c, o, s, d, {}).value.fields == dm;
    }
  }

  // ----- The rebuilt tree does not depend on the order -----

  ghost function PathsOf(order: seq<string>): set<Path> {
    set n | n in order :: Split(n)
  }

  lemma {:induction false} ReplayIsMix(t: Type, c: Codec, s: Json, d: Json, rows: map<string, Json>, order: seq<string>, done: set<Path>)
    requires WellTyped(t) && Conforms(t, d) && d.Obj? && NamesSplit(s) && RowsOf(s, rows)
    requires forall n :: n in order ==> n in rows && Split(n) !in done
    requires forall i, j :: 0 <= i < j < |order| ==> order[i] != order[j]
    ensures Mix(c, Root(t), s, Some(d), done).Some?
    ensures Some(Replay(t, c, Mix(c, Root(t), s, Some(d), done).value, rows, order))
         == Mix(c, Root(t), s, Some(d), done + PathsOf(order))
    decreases |order|
  {
    hide Mix, SetTree, Split, Named, LeafPaths, DotFree, Conforms, WellTyped, RowsOf, At;
    MixConforms(c, Root(t), s, Some(d), done);
    if order == [] {
      assert done + PathsOf(order) == done;
    } else {
      var n, rest := order[0], order[1..];
      var p := Split(n);
      var m := Mix(c, Root(t), s, Some(d), done).value;
      RowIsLeaf(s, rows, n);
      if rows[n].Null? {
        MixNull(c, Root(t), s, Some(d), done, p);
      } else {
        MixStep(c, Slot(t, None), s, d, done, p);
      }
      assert Mix(c, Root(t), s, Some(d), done + {p}) == Some(ApplyRow(t, c, m, n, rows[n]));
      forall l | l in rest ensures l in rows && Split(l) !in done + {p} {
        RowIsLeaf(s, rows, l);
        assert l != n;
      }
      ReplayIsMix(t, c, s, d, rows, rest, done + {p});
      assert done + {p} + PathsOf(rest) == done + PathsOf(order);
    }
  }

  lemma RowIsLeaf(s: Json, rows: map<string, Json>, n: string)
    requires NamesSplit(s) && RowsOf(s, rows) && n in rows
    ensures n != "owner_id"
    ensures Split(n) in LeafPaths(s) && At(s, Split(n)) == Some(rows[n]) && Named("", Split(n)) == n
  {
    var p :| IsRow(s, "", p, n, rows[n]);
    RowNameSplits(s, p);
  }

  /** The one tree every order of the rows leads to. */
  function Rebuilt(c: Codec, t: Type, s: Json, d: Json): Option<Json> {
    Mix(c, Root(t), s, Some(d), LeafPaths(s) - {["owner_id"]})
  }

  lemma OrderCovers(s: Json, rows: map<string, Json>, order: seq<string>)
    requires NamesSplit(s) && RowsOf(s, rows) && Ordering(order, rows)
    ensures PathsOf(order) == LeafPaths(s) - {["owner_id"]}
  {
    hide Named, Split, DotFree, LeafPaths, RowsOf, NamesSplit;
    forall p ensures p in PathsOf(order) <==> p in LeafPaths(s) - {["owner_id"]} {
      OwnerRow();
      if p in PathsOf(order) {
        var n :| n in order && Split(n) == p;
        RowIsLeaf(s, rows, n);
      }
      if p in LeafPaths(s) && p != ["owner_id"] {
        LeafIsRow(s, rows, p);
        assert Named("", p) in order;
      }
    }
  }

  lemma OwnerRow()
    ensures Named("", ["owner_id"]) == "owner_id" && Split("owner_id") == ["owner_id"]
  {
    SplitPlain("owner_id");
    NamedJoins("", ["owner_id"]);
  }

  lemma LeafIsRow(s: Json, rows: map<string, Json>, p: Path)
    requires NamesSplit(s) && RowsOf(s, rows) && p in LeafPaths(s) && p != ["owner_id"]
    ensures Named("", p) in rows && Split(Named("", p)) == p
  {
    OwnerRow();
    RowNameSplits(s, p);
  }

  /** Every iteration order of the rows of `s` rebuilds the same tree over the default. */
  lemma RebuildIgnoresOrder(t: Type, c: Codec, s: Json, d: Json, rows: map<string, Json>, order: seq<string>)
    requires WellTyped(t) && Conforms(t, d) && d.Obj? && NamesSplit(s) && RowsOf(s, rows) && Ordering(order, rows)
    ensures Rebuilt(c, t, s, d) == Some(Replay(t, c, d, rows, order))
  {
    hide LeafPaths, DotFree, Named, Split, At, Mix, Replay, WellTyped, Conforms, RowsOf, NamesSplit;
    MixStart(c, Root(t), s, Some(d));
    ReplayIsMix(t, c, s, d, rows, order, {});
    OrderCovers(s, rows, order);
    assert {} + PathsOf(order) == PathsOf(order);
  }
}
