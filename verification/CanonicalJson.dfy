/** `canonicalize_json_value` in `src/util.rs`, on JSON whose objects keep their entries in some order. */
module CanonicalJson {
  import J = Json

  datatype Value =
    | Null
    | Bool(b: bool)
    | Num(num: J.Number)
    | Str(s: string)
    | Array(items: seq<Value>)
    | Object(entries: seq<Entry>)

  datatype Entry = Entry(key: string, value: Value)

  /** No object at any depth has a key twice. */
  ghost predicate Proper(v: Value) {
    match v
    case Null | Bool(_) | Num(_) | Str(_) => true
    case Array(items) => forall i :: 0 <= i < |items| ==> Proper(items[i])
    case Object(entries) =>
      && (forall i, j :: 0 <= i < j < |entries| ==> entries[i].key != entries[j].key)
      && (forall i :: 0 <= i < |entries| ==> Proper(entries[i].value))
  }

  // ----- Key order -----

  predicate Leq(a: string, b: string) {
    a == [] || (b != [] && (a[0] < b[0] || (a[0] == b[0] && Leq(a[1..], b[1..]))))
  }

  lemma {:induction false} LeqTotal(a: string, b: string)
    ensures Leq(a, b) || Leq(b, a)
    ensures Leq(a, b) && Leq(b, a) ==> a == b
  {
    if a != [] && b != [] && a[0] == b[0] {
      LeqTotal(a[1..], b[1..]);
      assert a == [a[0]] + a[1..] && b == [b[0]] + b[1..];
    }
  }

  lemma {:induction false} LeqTransitive(a: string, b: string, c: string)
    requires Leq(a, b) && Leq(b, c)
    ensures Leq(a, c)
  {
    if a != [] && b != [] && c != [] && a[0] == b[0] == c[0] {
      LeqTransitive(a[1..], b[1..], c[1..]);
    }
  }

  /** The order of code points: a proper prefix comes first, else the first difference decides. */
  ghost predicate Before(a: string, b: string) {
    exists n: nat :: PartAt(a, b, n)
  }

  predicate PartAt(a: string, b: string, n: nat) {
    n <= |a| && n < |b| && (forall k :: 0 <= k < n ==> a[k] == b[k]) && (n == |a| || a[n] < b[n])
  }

  lemma {:induction false} LeqIsBefore(a: string, b: string)
    ensures Leq(a, b) <==> a == b || Before(a, b)
  {
    if a == [] || b == [] || a[0] != b[0] {
      assert Before(a, b) ==> PartAt(a, b, 0);
      assert PartAt(a, b, 0) ==> Before(a, b);
    } else {
      var c, d := a[1..], b[1..];
      LeqIsBefore(c, d);
      assert a == [a[0]] + c && b == [b[0]] + d;
      if Before(c, d) {
        var n: nat :| PartAt(c, d, n);
        assert PartAt(a, b, n + 1);
      }
      if Before(a, b) {
        var n: nat :| PartAt(a, b, n);
        assert PartAt(c, d, n - 1);
      }
    }
  }

  function Insert(k: string, ks: seq<string>): seq<string> {
    if ks == [] || Leq(k, ks[0]) then [k] + ks else [ks[0]] + Insert(k, ks[1..])
  }

  function Sort(ks: seq<string>): seq<string> {
    if ks == [] then [] else Insert(ks[0], Sort(ks[1..]))
  }

  ghost predicate Sorted(ks: seq<string>) {
    forall i, j :: 0 <= i < j < |ks| ==> Leq(ks[i], ks[j])
  }

  ghost predicate NoTwice(ks: seq<string>) {
    forall i, j :: 0 <= i < j < |ks| ==> ks[i] != ks[j]
  }

  lemma {:induction false} InsertSorts(k: string, ks: seq<string>)
    requires Sorted(ks)
    ensures Sorted(Insert(k, ks))
    ensures forall x :: x in Insert(k, ks) <==> x == k || x in ks
    ensures NoTwice(ks) && k !in ks ==> NoTwice(Insert(k, ks))
  {
    if ks == [] || Leq(k, ks[0]) {
      forall j | 0 <= j < |ks| ensures Leq(k, ks[j]) {
        if j > 0 {
          LeqTransitive(k, ks[0], ks[j]);
        }
      }
    } else {
      var rest := Insert(k, ks[1..]);
      InsertSorts(k, ks[1..]);
      LeqTotal(k, ks[0]);
      forall j | 0 <= j < |rest| ensures Leq(ks[0], rest[j]) {
        assert rest[j] in rest;
      }
      if NoTwice(ks) && k !in ks {
        forall j | 0 <= j < |rest| ensures ks[0] != rest[j] {
          assert rest[j] in rest;
        }
      }
    }
  }

  lemma {:induction false} SortSorts(ks: seq<string>)
    ensures Sorted(Sort(ks)) && (forall x :: x in Sort(ks) <==> x in ks)
    ensures NoTwice(ks) ==> NoTwice(Sort(ks))
  {
    if ks != [] {
      SortSorts(ks[1..]);
      InsertSorts(ks[0], Sort(ks[1..]));
      assert forall x :: x in ks <==> x == ks[0] || x in ks[1..];
    }
  }

  /** Sorted sequences without repeats are determined by their elements. */
  lemma {:induction false} SortedUnique(a: seq<string>, b: seq<string>)
    requires Sorted(a) && Sorted(b) && NoTwice(a) && NoTwice(b)
    requires forall x :: x in a <==> x in b
    ensures a == b
    decreases |a|
  {
    assert a != [] ==> a[0] in a;
    assert b != [] ==> b[0] in b;
    if a != [] && b != [] {
      var i :| 0 <= i < |b| && b[i] == a[0];
      var j :| 0 <= j < |a| && a[j] == b[0];
      assert Leq(a[0], b[0]) && Leq(b[0], a[0]) by {
        LeqTotal(a[0], b[0]);
      }
      LeqTotal(a[0], b[0]);
      forall x ensures x in a[1..] <==> x in b[1..] {
        assert x in a <==> x == a[0] || x in a[1..];
        assert x in b <==> x == b[0] || x in b[1..];
      }
      SortedUnique(a[1..], b[1..]);
    }
  }

  // ----- Canonical form -----

  function Keys(es: seq<Entry>): (ks: seq<string>)
    ensures |ks| == |es| && forall i :: 0 <= i < |es| ==> ks[i] == es[i].key
  {
    if es == [] then [] else [es[0].key] + Keys(es[1..])
  }

  /** The place of a key that is there. */
  function Find(es: seq<Entry>, k: string): (i: nat)
    requires k in Keys(es)
    ensures i < |es| && es[i].key == k
  {
    if es[0].key == k then 0 else 1 + Find(es[1..], k)
  }

  function Canon(v: Value): Value
    decreases v, 1, 0
  {
    match v
    case Null | Bool(_) | Num(_) | Str(_) => v
    case Array(items) => Array(seq(|items|, i requires 0 <= i < |items| => Canon(items[i])))
    case Object(entries) => SortSorts(Keys(entries)); Object(CanonEntries(v, Sort(Keys(entries))))
  }

  function CanonEntries(v: Value, ks: seq<string>): (es: seq<Entry>)
    requires v.Object? && forall k :: k in ks ==> k in Keys(v.entries)
    ensures |es| == |ks| && forall i :: 0 <= i < |ks| ==> es[i].key == ks[i]
    decreases v, 0, |ks|
  {
    if ks == [] then [] else
    [Entry(ks[0], Canon(v.entries[Find(v.entries, ks[0])].value))] + CanonEntries(v, ks[1..])
  }

  lemma {:induction false} CanonEntryAt(v: Value, ks: seq<string>, i: nat)
    requires v.Object? && (forall k :: k in ks ==> k in Keys(v.entries)) && i < |ks|
    ensures CanonEntries(v, ks)[i] == Entry(ks[i], Canon(v.entries[Find(v.entries, ks[i])].value))
    decreases |ks|
  {
    if i > 0 {
      CanonEntryAt(v, ks[1..], i - 1);
    }
  }

  /** The recursion of the code: arrays item by item, objects by filling a new map in key order. */
  method CanonicalizeJsonValue(value: Value) returns (r: Value)
    ensures r == Canon(value)
    decreases value, 1
  {
    match value {
      case Null | Bool(_) | Num(_) | Str(_) => r := value;
      case Array(_) => r := CanonicalizeItems(value);
      case Object(_) => r := CanonicalizeEntries(value);
    }
  }

  method CanonicalizeItems(value: Value) returns (r: Value)
    requires value.Array?
    ensures r == Canon(value)
    decreases value, 0
  {
    var done := [];
    for i := 0 to |value.items|
      invariant |done| == i && forall k :: 0 <= k < i ==> done[k] == Canon(value.items[k])
    {
      hide Canon;
      var item := CanonicalizeJsonValue(value.items[i]);
      done := done + [item];
    }
    r := Array(done);
  }

  method CanonicalizeEntries(value: Value) returns (r: Value)
    requires value.Object?
    ensures r == Canon(value)
    decreases value, 0
  {
    hide *;
    CanonObject(value);
    var keys := Sort(Keys(value.entries));
    var canonical := [];
    for i := 0 to |keys|
      invariant canonical == CanonEntries(value, keys)[..i]
    {
      CanonEntryAt(value, keys, i);
      var inner := CanonicalizeJsonValue(value.entries[Find(value.entries, keys[i])].value);
      canonical := canonical + [Entry(keys[i], inner)];
    }
    r := Object(canonical);
  }

  lemma CanonObject(v: Value)
    requires v.Object?
    ensures forall k :: k in Sort(Keys(v.entries)) ==> k in Keys(v.entries)
    ensures Canon(v) == Object(CanonEntries(v, Sort(Keys(v.entries))))
  {
    hide CanonEntries, Sort, Keys;
    SortSorts(Keys(v.entries));
  }

  // ----- What the canonical form identifies -----

  /** Equal up to the order of object entries, at every depth. */
  ghost predicate Equivalent(a: Value, b: Value)
    decreases a
  {
    match a
    case Null | Bool(_) | Num(_) | Str(_) => a == b
    case Array(items) =>
      b.Array? && |items| == |b.items| && forall i :: 0 <= i < |items| ==> Equivalent(items[i], b.items[i])
    case Object(entries) =>
      && b.Object?
      && (forall k :: k in Keys(entries) <==> k in Keys(b.entries))
      && forall i, j :: 0 <= i < |entries| && 0 <= j < |b.entries| && entries[i].key == b.entries[j].key ==>
           Equivalent(entries[i].value, b.entries[j].value)
  }

  lemma FindOnly(v: Value, i: nat)
    requires Proper(v) && v.Object? && i < |v.entries|
    ensures v.entries[i].key in Keys(v.entries) && Find(v.entries, v.entries[i].key) == i
  {
    assert Keys(v.entries)[i] == v.entries[i].key;
  }

  /** Same canonical form exactly when equal up to key order at every depth. */
  lemma {:induction false} CanonDecides(a: Value, b: Value)
    requires Proper(a) && Proper(b)
    ensures Canon(a) == Canon(b) <==> Equivalent(a, b)
    decreases a
  {
    match a {
      case Null | Bool(_) | Num(_) | Str(_) =>
      case Array(items) =>
        if b.Array? && |items| == |b.items| {
          forall i | 0 <= i < |items|
            ensures Canon(items[i]) == Canon(b.items[i]) <==> Equivalent(items[i], b.items[i])
          {
            CanonDecides(items[i], b.items[i]);
          }
          if Canon(a) == Canon(b) {
            forall i | 0 <= i < |items| ensures Canon(items[i]) == Canon(b.items[i]) {
              assert Canon(a).items[i] == Canon(b).items[i];
            }
          }
        } else if b.Array? {
          assert |Canon(a).items| != |Canon(b).items|;
        }
      case Object(_) =>
        if b.Object? {
          ObjectsDecided(a, b);
        }
    }
  }

  lemma {:induction false} ObjectsDecided(a: Value, b: Value)
    requires Proper(a) && Proper(b) && a.Object? && b.Object?
    ensures Canon(a) == Canon(b) <==> Equivalent(a, b)
    decreases a, 2
  {
    if Equivalent(a, b) {
      EquivalentObjects(a, b);
    }
    if Canon(a) == Canon(b) {
      SameCanonObjects(a, b);
    }
  }

  lemma {:induction false} EquivalentObjects(a: Value, b: Value)
    requires Proper(a) && Proper(b) && a.Object? && b.Object? && Equivalent(a, b)
    ensures Canon(a) == Canon(b)
    decreases a, 1
  {
    var ka, kb := Sort(Keys(a.entries)), Sort(Keys(b.entries));
    SortSorts(Keys(a.entries));
    SortSorts(Keys(b.entries));
    SortedUnique(ka, kb);
    forall i | 0 <= i < |ka| ensures CanonEntries(a, ka)[i] == CanonEntries(b, ka)[i] {
      hide Canon, CanonEntries, Sort, Keys;
      CanonEntryAt(a, ka, i);
      CanonEntryAt(b, ka, i);
      CanonDecides(a.entries[Find(a.entries, ka[i])].value, b.entries[Find(b.entries, ka[i])].value);
    }
    assert CanonEntries(a, ka) == CanonEntries(b, kb);
  }

  lemma {:induction false} SameCanonObjects(a: Value, b: Value)
    requires Proper(a) && Proper(b) && a.Object? && b.Object? && Canon(a) == Canon(b)
    ensures Equivalent(a, b)
    decreases a, 1
  {
    hide Canon, CanonEntries, Sort, Keys, Find;
    var ka, kb := Sort(Keys(a.entries)), Sort(Keys(b.entries));
    SortSorts(Keys(a.entries));
    SortSorts(Keys(b.entries));
    CanonObject(a);
    CanonObject(b);
    assert ka == kb by {
      assert forall i :: 0 <= i < |ka| ==> ka[i] == CanonEntries(a, ka)[i].key;
    }
    forall i, j | 0 <= i < |a.entries| && 0 <= j < |b.entries| && a.entries[i].key == b.entries[j].key
      ensures Equivalent(a.entries[i].value, b.entries[j].value)
    {
      SameCanonEntry(a, b, ka, i, j);
    }
  }

  lemma {:induction false} SameCanonEntry(a: Value, b: Value, ks: seq<string>, i: nat, j: nat)
    requires Proper(a) && Proper(b) && a.Object? && b.Object?
    requires forall k :: k in ks <==> k in Keys(a.entries)
    requires forall k :: k in ks ==> k in Keys(b.entries)
    requires CanonEntries(a, ks) == CanonEntries(b, ks)
    requires i < |a.entries| && j < |b.entries| && a.entries[i].key == b.entries[j].key
    ensures Equivalent(a.entries[i].value, b.entries[j].value)
    decreases a, 0
  {
    hide Canon, CanonEntries, Keys, Equivalent;
    FindOnly(a, i);
    FindOnly(b, j);
    var n :| 0 <= n < |ks| && ks[n] == a.entries[i].key;
    CanonEntryAt(a, ks, n);
    CanonEntryAt(b, ks, n);
    CanonDecides(a.entries[i].value, b.entries[j].value);
  }

  /** A canonical value is proper, equivalent to what it came from, and its own canonical form. */
  lemma {:induction false} CanonEquivalent(v: Value)
    requires Proper(v)
    ensures Proper(Canon(v)) && Equivalent(Canon(v), v)
    decreases v
  {
    match v {
      case Null | Bool(_) | Num(_) | Str(_) =>
      case Array(items) =>
        forall i | 0 <= i < |items| ensures Proper(Canon(items[i])) && Equivalent(Canon(items[i]), items[i]) {
          CanonEquivalent(items[i]);
        }
      case Object(entries) =>
        var ks := Sort(Keys(entries));
        SortSorts(Keys(entries));
        var es := CanonEntries(v, ks);
        forall i | 0 <= i < |es|
          ensures Proper(es[i].value)
          ensures forall j :: 0 <= j < |entries| && es[i].key == entries[j].key ==> Equivalent(es[i].value, entries[j].value)
        {
          CanonEntryAt(v, ks, i);
          var at := Find(entries, ks[i]);
          CanonEquivalent(entries[at].value);
          forall j | 0 <= j < |entries| && es[i].key == entries[j].key ensures j == at {
            FindOnly(v, j);
          }
        }
        assert Keys(es) == ks;
    }
  }

  lemma CanonTwice(v: Value)
    requires Proper(v)
    ensures Canon(Canon(v)) == Canon(v)
  {
    CanonEquivalent(v);
    CanonDecides(Canon(v), v);
  }

  // ----- The order of the keys -----

  /** The keys of every object at any depth ascend by code points. */
  ghost predicate Ascending(v: Value) {
    match v
    case Null | Bool(_) | Num(_) | Str(_) => true
    case Array(items) => forall i :: 0 <= i < |items| ==> Ascending(items[i])
    case Object(entries) =>
      && (forall i, j :: 0 <= i < j < |entries| ==> Before(entries[i].key, entries[j].key))
      && (forall i :: 0 <= i < |entries| ==> Ascending(entries[i].value))
  }

  lemma {:induction false} CanonAscends(v: Value)
    requires Proper(v)
    ensures Ascending(Canon(v))
    decreases v
  {
    match v {
      case Null | Bool(_) | Num(_) | Str(_) =>
      case Array(items) =>
        forall i | 0 <= i < |items| ensures Ascending(Canon(items[i])) {
          CanonAscends(items[i]);
        }
      case Object(entries) =>
        var ks := Sort(Keys(entries));
        CanonObject(v);
        SortSorts(Keys(entries));
        var es := CanonEntries(v, ks);
        hide Canon, Sort, CanonEntries, Leq, Before;
        forall i, j | 0 <= i < j < |es| ensures Before(es[i].key, es[j].key) {
          LeqIsBefore(ks[i], ks[j]);
        }
        forall i | 0 <= i < |es| ensures Ascending(es[i].value) {
          CanonEntryAt(v, ks, i);
          CanonAscends(entries[Find(entries, ks[i])].value);
        }
    }
  }
}
