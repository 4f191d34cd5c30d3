/**
 `set` and `get` of `src/settings.rs`: a typed settings struct handled as its JSON tree. The
 text formats (JSON, integers, floats) are parameters, a `Codec`, of which only `Lawful` is used.
 */
module Settings {
  import opened Wrappers
  import opened Json
  import opened SettingsTypes

  // ----- Text -----

  datatype Float = NotANumber | NonFinite | Finite(bits: finite)

  datatype Codec = Codec(
    show: Json -> string,
    parse: string -> Option<Json>,
    parseU64: string -> Option<u64>,
    parseI64: string -> Option<i64>,
    parseF64: string -> Float)

  /** Printing and parsing are inverse; `i64` text covers the unsigned values below 2^63 too. */
  ghost predicate Lawful(c: Codec) {
    && (forall j :: c.parse(c.show(j)) == Some(j))
    && (forall n: u64 :: c.parseU64(c.show(Num(U64(n)))) == Some(n))
    && (forall i: negative :: c.parseI64(c.show(Num(I64(i)))) == Some(i))
    && (forall n: u64 :: c.parseI64(c.show(Num(U64(n)))) == if n < 0x8000_0000_0000_0000 then Some(n) else None)
    && (forall bits: finite :: c.parseF64(c.show(Num(F64(bits)))) == Finite(bits))
    && c.show(Bool(true)) == "true" && c.show(Bool(false)) == "false"
  }

  /** The text a database row is turned into before it is set. */
  function RowText(c: Codec, v: Json): string {
    match v
    case Str(s) => s
    case Bool(b) => if b then "true" else "false"
    case _ => c.show(v)
  }

  // ----- Dotted paths -----

  function Split(path: string): (parts: Path)
    ensures parts != []
  {
    if path == [] then [[]] else
    var rest := Split(path[1..]);
    if path[0] == '.' then [[]] + rest else [[path[0]] + rest[0]] + rest[1..]
  }

  function Join(parts: Path): string {
    if parts == [] then [] else
    if |parts| == 1 then parts[0] else parts[0] + "." + Join(parts[1..])
  }

  ghost predicate DotFreePath(parts: Path) {
    forall k :: k in parts ==> '.' !in k
  }

  lemma {:induction false} SplitPlain(k: string)
    requires '.' !in k
    ensures Split(k) == [k]
  {
    if k != [] {
      SplitPlain(k[1..]);
      assert k == [k[0]] + k[1..];
    }
  }

  lemma {:induction false} SplitDot(k: string, rest: string)
    requires '.' !in k
    ensures Split(k + "." + rest) == [k] + Split(rest)
  {
    var whole := k + "." + rest;
    if k == [] {
      assert whole[1..] == rest;
    } else {
      assert whole[1..] == k[1..] + "." + rest;
      SplitDot(k[1..], rest);
      assert k == [k[0]] + k[1..] && whole[0] == k[0];
    }
  }

  lemma {:induction false} SplitJoin(parts: Path)
    requires parts != [] && DotFreePath(parts)
    ensures Split(Join(parts)) == parts
  {
    if |parts| == 1 {
      SplitPlain(parts[0]);
    } else {
      SplitJoin(parts[1..]);
      SplitDot(parts[0], Join(parts[1..]));
    }
  }

  /** And joining undoes splitting: the parts of a name hold no dot, whatever the name. */
  lemma {:induction false} JoinSplit(path: string)
    ensures DotFreePath(Split(path)) && Join(Split(path)) == path
  {
    if path != [] {
      var rest := Split(path[1..]);
      JoinSplit(path[1..]);
      if path[0] == '.' {
        assert ([[]] + rest)[1..] == rest;
        assert path == [] + "." + path[1..];
      } else {
        var parts := [[path[0]] + rest[0]] + rest[1..];
        assert parts[1..] == rest[1..];
        if |rest| > 1 {
          assert [path[0]] + (rest[0] + "." + Join(rest[1..])) == ([path[0]] + rest[0]) + "." + Join(rest[1..]);
        }
      }
    }
  }

  // ----- Setting and getting -----

  datatype SetError = PathNotFound | ParentNotAnObject | BadValue | ApplyFailed

  function FromI64(i: i64): Number {
    if i < 0 then I64(i) else U64(i)
  }

  /** The new value inferred from what is there now. */
  function Infer(c: Codec, existing: Option<Json>, text: string): Result<Json, SetError> {
    if existing.None? || existing.value.Null? then
      match c.parse(text) case Some(j) => Ok(j) case None => Ok(Str(text))
    else match existing.value
      case Bool(_) => if text == "true" then Ok(Bool(true)) else if text == "false" then Ok(Bool(false)) else Err(BadValue)
      case Num(U64(_)) => (match c.parseU64(text) case Some(n) => Ok(Num(U64(n))) case None => Err(BadValue))
      case Num(I64(_)) => (match c.parseI64(text) case Some(i) => Ok(Num(FromI64(i))) case None => Err(BadValue))
      case Num(F64(_)) =>
        (match c.parseF64(text)
         case Finite(bits) => Ok(Num(F64(bits)))
         case NonFinite => Ok(Str(text))
         case NotANumber => Err(BadValue))
      case Str(_) => Ok(Str(text))
      case _ => match c.parse(text) case Some(j) => Ok(j) case None => Err(BadValue)
  }

  /** Walk to the parent, infer, insert. */
  function SetParts(c: Codec, j: Json, parts: Path, text: string): Result<Json, SetError>
    requires parts != []
  {
    var k := parts[0];
    if |parts| == 1 then
      if !j.Obj? then Err(ParentNotAnObject) else
      match Infer(c, Lookup(j.fields, k), text)
      case Ok(v) => Ok(Obj(j.fields[k := v]))
      case Err(e) => Err(e)
    else if j.Obj? && k in j.fields then
      match SetParts(c, j.fields[k], parts[1..], text)
      case Ok(child) => Ok(Obj(j.fields[k := child]))
      case Err(e) => Err(e)
    else Err(PathNotFound)
  }

  /** `set` on a value: what is written of it is edited and read back. */
  function SetValue(t: Type, c: Codec, v: Json, parts: Path, text: string): Result<Json, SetError>
    requires parts != []
  {
    match SetParts(c, Show(t, v), parts, text)
    case Err(e) => Err(e)
    case Ok(edited) => match Read(t, edited) case Some(v') => Ok(v') case None => Err(ApplyFailed)
  }

  /** The same as it shows on visible trees. */
  function SetTree(t: Type, c: Codec, j: Json, parts: Path, text: string): Result<Json, SetError>
    requires parts != []
  {
    match SetParts(c, j, parts, text)
    case Err(e) => Err(e)
    case Ok(edited) => match Decode(t, edited) case Some(j') => Ok(j') case None => Err(ApplyFailed)
  }

  /** The tree after a set was tried: the new one, or the old one if it was refused. */
  function AfterSet(t: Type, c: Codec, j: Json, p: Path, text: string): Json
    requires p != []
  {
    match SetTree(t, c, j, p, text) case Ok(j') => j' case Err(_) => j
  }

  /** What `get` shows of a value. */
  function Shown(c: Codec, v: Json): string {
    match v
    case Str(s) => s
    case Null => "null"
    case _ => RowText(c, v)
  }

  function GetText(c: Codec, j: Json, path: string): Option<string> {
    match At(j, Split(path)) case Some(v) => Some(Shown(c, v)) case None => None
  }

  // ----- Places in the schema -----

  /** The type of a place, and whether what is there may be skipped. */
  datatype Slot = Slot(ty: Type, skip: Option<Skip>)

  function Child(t: Type, k: string): Option<Slot> {
    match t
    case Leaf(_) => None
    case Nullable(inner) => Child(inner, k)
    case MapOf(elem) => Some(Slot(elem, None))
    case Struct(fields, _, skip, _, _) => if k in fields then Some(Slot(fields[k], Lookup(skip, k))) else None
  }

  function ChildOf(o: Option<Slot>, k: string): Option<Slot> {
    if o.None? then None else Child(o.value.ty, k)
  }

  function SlotAt(t: Type, p: Path): Option<Slot>
    requires p != []
    decreases p
  {
    var slot := Child(t, p[0]);
    if |p| == 1 || slot.None? then slot else SlotAt(slot.value.ty, p[1..])
  }

  /** A name that would be a second one for a field already there. */
  predicate IsAlias(t: Type, k: string) {
    match t
    case Nullable(inner) => IsAlias(inner, k)
    case Struct(_, _, _, aliases, _) => k in aliases
    case _ => false
  }

  function Bare(t: Type): Type {
    if t.Nullable? then Bare(t.inner) else t
  }

  /** An object is of a struct or map type, optional or not. */
  lemma {:induction false} Unwrapped(t: Type, j: Json)
    requires WellTyped(t) && Conforms(t, j) && j.Obj?
    ensures var b := Bare(t);
            && (b.MapOf? || b.Struct?) && WellTyped(b) && Conforms(b, j)
            && (forall k :: Child(t, k) == Child(b, k) && IsAlias(t, k) == IsAlias(b, k))
            && (forall x: Json :: x.Obj? ==> Read(t, x) == Read(b, x) && Show(t, x) == Show(b, x))
    decreases t
  {
    if t.Nullable? {
      Unwrapped(t.inner, j);
    }
  }

  lemma DecodeUnwrapped(t: Type, j: Json, x: Json)
    requires WellTyped(t) && Conforms(t, j) && j.Obj? && x.Obj?
    ensures Decode(t, x) == Decode(Bare(t), x)
  {
    Unwrapped(t, j);
    if Read(t, x).Some? {
      ReadHolds(Bare(t), x);
    }
  }

  lemma ConformsChild(t: Type, j: Json, k: string)
    requires WellTyped(t) && Conforms(t, j) && j.Obj? && k in j.fields
    ensures Child(t, k).Some? && WellTyped(Child(t, k).value.ty) && Conforms(Child(t, k).value.ty, j.fields[k])
    ensures Seen(Child(t, k).value.skip, j.fields[k]).Some?
  {
    Unwrapped(t, j);
  }

  /** Reading back an edit of one field touches no other field. */
  lemma SiblingsKept(t: Type, j: Json, edited: Json, k: string)
    requires WellTyped(t) && Conforms(t, j) && j.Obj? && edited.Obj? && k in edited.fields
    requires edited == Obj(j.fields[k := edited.fields[k]])
    ensures Decode(t, edited).Some? <==>
            if Child(t, k).None? then !IsAlias(t, k) else Decode(Child(t, k).value.ty, edited.fields[k]).Some?
    ensures Decode(t, edited).Some? ==>
            && Decode(t, edited).value.Obj?
            && (forall l :: l != k ==> Lookup(Decode(t, edited).value.fields, l) == Lookup(j.fields, l))
            && Lookup(Decode(t, edited).value.fields, k)
               == if Child(t, k).None? then None
                  else Seen(Child(t, k).value.skip, Decode(Child(t, k).value.ty, edited.fields[k]).value)
  {
    hide *;
    Unwrapped(t, j);
    DecodeUnwrapped(t, j, edited);
    NodeSiblings(Bare(t), j, edited, k);
  }

  lemma NodeSiblings(t: Type, j: Json, edited: Json, k: string)
    requires (t.MapOf? || t.Struct?) && WellTyped(t) && Conforms(t, j) && j.Obj? && edited.Obj? && k in edited.fields
    requires edited == Obj(j.fields[k := edited.fields[k]])
    ensures Decode(t, edited).Some? <==>
            if Child(t, k).None? then !IsAlias(t, k) else Decode(Child(t, k).value.ty, edited.fields[k]).Some?
    ensures Decode(t, edited).Some? ==>
            && Decode(t, edited).value.Obj?
            && (forall l :: l != k ==> Lookup(Decode(t, edited).value.fields, l) == Lookup(j.fields, l))
            && Lookup(Decode(t, edited).value.fields, k)
               == if Child(t, k).None? then None
                  else Seen(Child(t, k).value.skip, Decode(Child(t, k).value.ty, edited.fields[k]).value)
  {
    hide Conforms, WellTyped, Decode;
    if t.MapOf? {
      MapSiblings(t, j, edited, k);
    } else {
      StructSiblings(t, j, edited, k);
    }
  }

  lemma MapSiblings(t: Type, j: Json, edited: Json, k: string)
    requires t.MapOf? && WellTyped(t) && Conforms(t, j) && edited.Obj? && k in edited.fields
    requires edited == Obj(j.fields[k := edited.fields[k]])
    ensures Decode(t, edited).Some? <==> Decode(t.elem, edited.fields[k]).Some?
    ensures Decode(t, edited).Some? ==>
            && Decode(t, edited).value.Obj?
            && (forall l :: l != k ==> Lookup(Decode(t, edited).value.fields, l) == Lookup(j.fields, l))
            && Lookup(Decode(t, edited).value.fields, k) == Decode(t.elem, edited.fields[k])
  {
    forall l | l in j.fields && l != k ensures Decode(t.elem, edited.fields[l]) == Some(j.fields[l]) {
      DecodeIdentity(t.elem, j.fields[l]);
    }
  }

  lemma StructSiblings(t: Type, j: Json, edited: Json, k: string)
    requires t.Struct? && WellTyped(t) && Conforms(t, j) && edited.Obj? && k in edited.fields
    requires edited == Obj(j.fields[k := edited.fields[k]])
    ensures Decode(t, edited).Some? <==> if k in t.fields then Decode(t.fields[k], edited.fields[k]).Some? else k !in t.aliases
    ensures Decode(t, edited).Some? ==>
            && Decode(t, edited).value.Obj?
            && (forall l :: l != k ==> Lookup(Decode(t, edited).value.fields, l) == Lookup(j.fields, l))
            && Lookup(Decode(t, edited).value.fields, k)
               == if k in t.fields then Seen(Lookup(t.skip, k), Decode(t.fields[k], edited.fields[k]).value) else None
  {
    StructDecode(t, edited);
    forall l | l in t.fields && l != k
      ensures ReadField(t.fields[l], Lookup(t.defaults, l), Lookup(edited.fields, l)).Some?
      ensures FieldShown(t, edited, l) == Lookup(j.fields, l)
    {
      OtherField(t, j, l);
    }
    hide Conforms, WellTyped, Read, Show, Seen;
    assert edited.fields.Keys == j.fields.Keys + {k};
  }

  /** What is written of a field once it has been read from an object. */
  function FieldShown(t: Type, j: Json, k: string): Option<Json>
    requires t.Struct? && j.Obj? && k in t.fields
  {
    match ReadField(t.fields[k], Lookup(t.defaults, k), Lookup(j.fields, k))
    case None => None
    case Some(v) => Seen(Lookup(t.skip, k), Show(t.fields[k], v))
  }

  lemma StructDecode(t: Type, j: Json)
    requires t.Struct? && j.Obj?
    ensures Decode(t, j).Some? <==>
            j.fields.Keys !! t.aliases
            && forall k :: k in t.fields ==> ReadField(t.fields[k], Lookup(t.defaults, k), Lookup(j.fields, k)).Some?
    ensures Decode(t, j).Some? ==>
            Decode(t, j).value.Obj?
            && forall k :: Lookup(Decode(t, j).value.fields, k) == if k in t.fields then FieldShown(t, j, k) else None
  {
  }

  /** A field that is not edited reads and shows as before, its default if it was skipped. */
  lemma OtherField(t: Type, j: Json, k: string)
    requires t.Struct? && WellTyped(t) && Conforms(t, j) && k in t.fields
    ensures ReadField(t.fields[k], Lookup(t.defaults, k), Lookup(j.fields, k)).Some?
    ensures FieldShown(t, j, k) == Lookup(j.fields, k)
  {
    if k in j.fields {
      DecodeIdentity(t.fields[k], j.fields[k]);
    }
  }

  // ----- The lens laws of `set` -----

  /** Neither path runs through the other. */
  ghost predicate Apart(p: Path, q: Path) {
    !(p <= q) && !(q <= p)
  }

  /** Everything on the way to the last part of a path is an object. */
  predicate ParentIn(j: Json, p: Path) {
    p != [] && j.Obj? && (|p| > 1 ==> p[0] in j.fields && ParentIn(j.fields[p[0]], p[1..]))
  }

  /** The last part of the path is a second name for a field beside it. */
  predicate AliasAt(t: Type, p: Path)
    decreases p
  {
    if p == [] then false else if |p| == 1 then IsAlias(t, p[0]) else Child(t, p[0]).Some? && AliasAt(Child(t, p[0]).value.ty, p[1..])
  }

  /** What setting a text leads to at a place: a refused text and an unknown name change nothing. */
  function Landed(c: Codec, slot: Option<Slot>, now: Option<Json>, text: string): Option<Json> {
    match Infer(c, now, text)
    case Err(_) => now
    case Ok(w) =>
      if slot.None? then now
      else match Decode(slot.value.ty, w) case None => now case Some(w') => Seen(slot.value.skip, w')
  }

  lemma ThroughLeaf(t: Type, c: Codec, j: Json, p: Path, text: string)
    requires p != [] && !j.Obj?
    ensures SetTree(t, c, j, p, text).Err? && AfterSet(t, c, j, p, text) == j
  {
  }

  /** An object that is written keeps being written when something in it is set. */
  lemma StaysSeen(t: Type, k: string, c: Codec, now: Json, p: Path, text: string)
    requires p != [] && WellTyped(t) && Child(t, k).Some?
    requires var slot := Child(t, k).value;
             && WellTyped(slot.ty) && Conforms(slot.ty, now) && Seen(slot.skip, now).Some?
             && (slot.skip == Some(IfEmpty) ==> slot.ty.MapOf?)
    ensures var slot, after := Child(t, k).value, AfterSet(Child(t, k).value.ty, c, now, p, text);
            Seen(slot.skip, after) == Some(after)
  {
    var slot := Child(t, k).value;
    if !now.Obj? {
      ThroughLeaf(slot.ty, c, now, p, text);
    } else if SetTree(slot.ty, c, now, p, text).Ok? {
      var edited := SetParts(c, now, p, text).value;
      SiblingsKept(slot.ty, now, edited, p[0]);
      if slot.ty.MapOf? {
        assert p[0] in edited.fields;
        assert p[0] in Decode(slot.ty, edited).value.fields;
      }
    }
  }

  lemma {:induction false} EmptySkipsMaps(t: Type, k: string)
    requires WellTyped(t) && Child(t, k).Some?
    ensures WellTyped(Child(t, k).value.ty)
    ensures Child(t, k).value.skip == Some(IfEmpty) ==> Child(t, k).value.ty.MapOf?
  {
    if t.Nullable? {
      EmptySkipsMaps(t.inner, k);
    }
  }

  /** Trying a set changes at most the field the path starts with, and there it acts as on that field alone. */
  lemma FieldAfterSet(t: Type, c: Codec, m: Json, p: Path, text: string)
    requires p != [] && WellTyped(t) && Conforms(t, m) && m.Obj?
    ensures var m', k, slot, now := AfterSet(t, c, m, p, text), p[0], Child(t, p[0]), Lookup(m.fields, p[0]);
            && m'.Obj?
            && (forall l :: l != k ==> Lookup(m'.fields, l) == Lookup(m.fields, l))
            && (now.Some? ==> slot.Some?)
            && Lookup(m'.fields, k) ==
                 if |p| > 1 then
                   if now.None? then None else Some(AfterSet(slot.value.ty, c, now.value, p[1..], text))
                 else Landed(c, slot, now, text)
  {
    var k, now := p[0], Lookup(m.fields, p[0]);
    if now.Some? {
      ConformsChild(t, m, k);
      EmptySkipsMaps(t, k);
      if |p| > 1 {
        StaysSeen(t, k, c, now.value, p[1..], text);
      }
    }
    hide WellTyped, Conforms, Decode, Child, IsAlias, Seen, Infer;
    var parts := SetParts(c, m, p, text);
    if parts.Ok? {
      SiblingsKept(t, m, parts.value, k);
    }
  }

  lemma AfterConforms(t: Type, c: Codec, j: Json, p: Path, text: string)
    requires p != [] && WellTyped(t) && Conforms(t, j)
    ensures Conforms(t, AfterSet(t, c, j, p, text))
  {
    if SetTree(t, c, j, p, text).Ok? {
      DecodeConforms(t, SetParts(c, j, p, text).value);
    }
  }

  lemma AtOne(j: Json, p: Path)
    requires |p| == 1
    ensures At(j, p) == if j.Obj? then Lookup(j.fields, p[0]) else None
  {
    assert p[1..] == [];
  }

  /**
   What is found at the path afterwards is what was inferred as the type of the place reads and
   writes it, every path apart from it is untouched, and nothing happens if the way is no object.
   */
  lemma {:induction false} SetLens(t: Type, c: Codec, j: Json, p: Path, text: string, q: Path)
    requires p != [] && WellTyped(t) && Conforms(t, j)
    ensures var j' := AfterSet(t, c, j, p, text);
            && Conforms(t, j')
            && (Apart(p, q) ==> At(j', q) == At(j, q))
            && At(j', p) == (if ParentIn(j, p) then Landed(c, SlotAt(t, p), At(j, p), text) else At(j, p))
            && (!ParentIn(j, p) ==> j' == j)
    decreases p
  {
    hide WellTyped, Conforms, SetTree, Landed, Child;
    AfterConforms(t, c, j, p, text);
    if !j.Obj? {
      ThroughLeaf(t, c, j, p, text);
    } else {
      FieldAfterSet(t, c, j, p, text);
      var k, j' := p[0], AfterSet(t, c, j, p, text);
      hide AfterSet;
      if |p| == 1 {
        AtOne(j, p);
        AtOne(j', p);
      } else if k in j.fields {
        ConformsChild(t, j, k);
        var inner := if q != [] && q[0] == k then q[1..] else [];
        SetLens(Child(t, k).value.ty, c, j.fields[k], p[1..], text, inner);
        if j'.fields[k] == j.fields[k] {
          SameFields(j'.fields, j.fields);
        }
      } else {
        SameFields(j'.fields, j.fields);
      }
      if Apart(p, q) {
        if q[0] != k || |p| == 1 {
          assert Lookup(j'.fields, q[0]) == Lookup(j.fields, q[0]) || |p| == 1;
        }
      }
    }
  }

  /** When `set` succeeds: the way is there, the text fits what is there, the place takes it and is no second name. */
  lemma {:induction false} SetSucceedsIff(t: Type, c: Codec, j: Json, p: Path, text: string)
    requires p != [] && WellTyped(t) && Conforms(t, j)
    ensures SetTree(t, c, j, p, text).Ok? <==>
            && ParentIn(j, p)
            && Infer(c, At(j, p), text).Ok?
            && (if SlotAt(t, p).Some? then Decode(SlotAt(t, p).value.ty, Infer(c, At(j, p), text).value).Some?
                else !AliasAt(t, p))
    decreases p
  {
    hide WellTyped, Conforms, Decode, Infer, Child, IsAlias;
    if j.Obj? {
      var k, parts := p[0], SetParts(c, j, p, text);
      if |p| == 1 {
        AtOne(j, p);
      } else if k in j.fields {
        ConformsChild(t, j, k);
        SetSucceedsIff(Child(t, k).value.ty, c, j.fields[k], p[1..], text);
      }
      if parts.Ok? {
        SiblingsKept(t, j, parts.value, k);
      }
    }
  }

  // ----- What `set` does to the fields that are not written -----

  /** Setting a value shows as setting its visible tree. */
  lemma SetShows(t: Type, c: Codec, v: Json, p: Path, text: string)
    requires p != [] && WellTyped(t) && Holds(t, v)
    ensures match SetValue(t, c, v, p, text)
            case Ok(v') => Holds(t, v') && SetTree(t, c, Show(t, v), p, text) == Ok(Show(t, v'))
            case Err(e) => SetTree(t, c, Show(t, v), p, text) == Err(e)
  {
    if SetValue(t, c, v, p, text).Ok? {
      ReadHolds(t, SetParts(c, Show(t, v), p, text).value);
    }
  }

  lemma {:induction false} ValueUnwrapped(t: Type, v: Json)
    requires WellTyped(t) && Holds(t, v) && v.Obj?
    ensures var b := Bare(t);
            && (b.MapOf? || b.Struct?) && WellTyped(b) && Holds(b, v)
            && Show(t, v) == Show(b, v) && Cleared(t, v) == Cleared(b, v) && Show(b, v).Obj?
            && (forall k :: Child(t, k) == Child(b, k))
            && (forall x: Json :: x.Obj? ==> Read(t, x) == Read(b, x))
    decreases t
  {
    if t.Nullable? {
      ValueUnwrapped(t.inner, v);
    }
  }

  /** Reading back an edit of one visible field clears the fields that are not written and keeps the others. */
  lemma ValueSiblings(t: Type, v: Json, edited: Json, k: string)
    requires (t.MapOf? || t.Struct?) && WellTyped(t) && Holds(t, v) && Show(t, v).Obj?
    requires edited.Obj? && k in edited.fields && edited == Obj(Show(t, v).fields[k := edited.fields[k]])
    requires Read(t, edited).Some?
    ensures var v' := Read(t, edited).value;
            && v'.Obj? && v.Obj? && Cleared(t, v).Obj?
            && (forall l :: l != k ==> Lookup(v'.fields, l) == Lookup(Cleared(t, v).fields, l))
            && (Child(t, k).Some? ==> Read(Child(t, k).value.ty, edited.fields[k]).Some?)
            && Lookup(v'.fields, k) == if Child(t, k).None? then None else Read(Child(t, k).value.ty, edited.fields[k])
  {
    var v' := Read(t, edited).value;
    if t.MapOf? {
      forall l | l in v.fields && l != k ensures Read(t.elem, edited.fields[l]) == Some(Cleared(t.elem, v.fields[l])) {
        ReadShow(t.elem, v.fields[l]);
      }
    } else {
      forall l | l in t.fields && l != k
        ensures ReadField(t.fields[l], Lookup(t.defaults, l), Lookup(edited.fields, l)) == Lookup(Cleared(t, v).fields, l)
      {
        ReadShow(t.fields[l], v.fields[l]);
        ReadShowField(t, v, l);
      }
    }
  }

  /**
   On the value itself: the place set holds what was inferred as its type reads it, written or
   not, and every place apart from it keeps what it held, except that the fields that are never
   written go back to their defaults.
   */
  lemma {:induction false} SetKeeps(t: Type, c: Codec, v: Json, p: Path, text: string, q: Path)
    requires p != [] && WellTyped(t) && Holds(t, v) && SetValue(t, c, v, p, text).Ok?
    ensures var v' := SetValue(t, c, v, p, text).value;
            && (Apart(p, q) ==> At(v', q) == At(Cleared(t, v), q))
            && Infer(c, At(Show(t, v), p), text).Ok?
            && At(v', p) == if SlotAt(t, p).None? then None
                            else Read(SlotAt(t, p).value.ty, Infer(c, At(Show(t, v), p), text).value)
    decreases p
  {
    hide WellTyped, Holds, Read, Show, Cleared, Child, Infer;
    var k, b := p[0], Bare(t);
    ShowKind(t, v);
    ValueUnwrapped(t, v);
    var shown, edited := Show(t, v), SetParts(c, Show(t, v), p, text).value;
    ValueSiblings(b, v, edited, k);
    var v' := Read(t, edited).value;
    if |p| == 1 {
      AtOne(shown, p);
      AtOne(v', p);
    } else {
      FieldInside(b, v, k);
      var slot := Child(t, k).value;
      var inner := if q != [] && q[0] == k then q[1..] else [];
      SetKeeps(slot.ty, c, v.fields[k], p[1..], text, inner);
    }
    if Apart(p, q) {
      if q[0] != k || |p| == 1 {
        assert q[0] != k;
        assert Lookup(v'.fields, q[0]) == Lookup(Cleared(b, v).fields, q[0]);
      }
    }
  }

  lemma {:induction false} ShowKind(t: Type, v: Json)
    ensures Show(t, v).Obj? <==> v.Obj?
  {
    if t.Nullable? {
      ShowKind(t.inner, v);
    }
  }

  /** A field that is written: its part of the visible tree shows its part of the value, and is not cleared. */
  lemma FieldInside(t: Type, v: Json, k: string)
    requires (t.MapOf? || t.Struct?) && WellTyped(t) && Holds(t, v) && Show(t, v).Obj? && k in Show(t, v).fields
    ensures v.Obj? && k in v.fields && Child(t, k).Some? && Cleared(t, v).Obj?
    ensures var ct := Child(t, k).value.ty;
            && WellTyped(ct) && Holds(ct, v.fields[k])
            && Show(t, v).fields[k] == Show(ct, v.fields[k])
            && Lookup(Cleared(t, v).fields, k) == Some(Cleared(ct, v.fields[k]))
  {
    if t.Struct? {
      ShownField(t, v, k);
      ClearedField(t, v, k);
    }
  }
}
