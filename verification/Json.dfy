/** JSON values as `serde_json` holds them; object keys carry no order. */
module Json {
  import opened Wrappers

  type u64 = n: int | 0 <= n < 0x1_0000_0000_0000_0000
  type i64 = n: int | -0x8000_0000_0000_0000 <= n < 0x8000_0000_0000_0000
  type negative = n: i64 | n < 0 witness -1

  /** The bit pattern of a finite float: its eleven exponent bits are not all ones. */
  type finite = bits: u64 | bits / 0x10_0000_0000_0000 % 0x800 != 0x7FF

  /** `serde_json::Number`: an integer is unsigned unless it is negative; a float is finite. */
  datatype Number = U64(n: u64) | I64(i: negative) | F64(bits: finite)

  datatype Json =
    | Null
    | Bool(b: bool)
    | Num(num: Number)
    | Str(s: string)
    | Arr(items: seq<Json>)
    | Obj(fields: map<string, Json>)

  type Path = seq<string>

  /** The value at a path through objects. */
  function At(j: Json, p: Path): Option<Json> {
    if p == [] then Some(j) else
    if j.Obj? && p[0] in j.fields then At(j.fields[p[0]], p[1..]) else None
  }

  /** The paths of everything that is not an object. */
  function LeafPaths(j: Json): set<Path> {
    if j.Obj? then set k, p | k in j.fields && p in LeafPaths(j.fields[k]) :: [k] + p else {[]}
  }

  lemma {:induction false} LeafAt(j: Json, p: Path)
    requires p in LeafPaths(j)
    ensures At(j, p).Some? && !At(j, p).value.Obj?
    ensures j.Obj? ==> p != [] && p[0] in j.fields && p[1..] in LeafPaths(j.fields[p[0]])
  {
    if j.Obj? {
      var k, q :| k in j.fields && q in LeafPaths(j.fields[k]) && p == [k] + q;
      assert p[1..] == q;
      LeafAt(j.fields[k], q);
    }
  }
}
