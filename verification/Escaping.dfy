/**
 The two escapers that work by successive replacement: values in the `.env` file
 (`src/bootstrap.rs`) and text in the service definition (`xml_escape` in `src/service.rs`).
 */
module Escaping {
  import opened Wrappers

  /** `str::replace` for a one-character pattern. */
  function Replace(s: string, c: char, rep: string): string {
    if s == [] then [] else (if s[0] == c then rep else [s[0]]) + Replace(s[1..], c, rep)
  }

  function EscapeValue(s: string): string {
    Replace(Replace(s, '\\', "\\\\"), '"', "\\\"")
  }

  function XmlEscape(s: string): string {
    Replace(Replace(Replace(Replace(Replace(s, '&', "&amp;"), '<', "&lt;"), '>', "&gt;"), '"', "&quot;"), '\'', "&apos;")
  }

  /** One simultaneous replacement of every character. */
  function EachChar(s: string, f: char -> string): string {
    if s == [] then [] else f(s[0]) + EachChar(s[1..], f)
  }

  function ValueChar(c: char): string {
    if c == '\\' then "\\\\" else if c == '"' then "\\\"" else [c]
  }

  function Entity(c: char): string {
    if c == '&' then "&amp;" else if c == '<' then "&lt;" else if c == '>' then "&gt;"
    else if c == '"' then "&quot;" else if c == '\'' then "&apos;" else [c]
  }

  lemma {:induction false} ReplaceAppend(a: string, b: string, c: char, rep: string)
    ensures Replace(a + b, c, rep) == Replace(a, c, rep) + Replace(b, c, rep)
  {
    if a == [] {
      assert a + b == b;
    } else {
      assert (a + b)[1..] == a[1..] + b;
      ReplaceAppend(a[1..], b, c, rep);
    }
  }

  /** A pass over an already mapped text is a pass over each image. */
  lemma {:induction false} ReplaceMapped(s: string, f: char -> string, c: char, rep: string, g: char -> string)
    requires forall x :: g(x) == Replace(f(x), c, rep)
    ensures Replace(EachChar(s, f), c, rep) == EachChar(s, g)
  {
    if s != [] {
      ReplaceAppend(f(s[0]), EachChar(s[1..], f), c, rep);
      ReplaceMapped(s[1..], f, c, rep, g);
    }
  }

  lemma {:induction false} EachCharIs(s: string, f: char -> string, g: char -> string)
    requires forall x :: f(x) == g(x)
    ensures EachChar(s, f) == EachChar(s, g)
  {
    if s != [] {
      EachCharIs(s[1..], f, g);
    }
  }

  lemma {:induction false} EachCharIdentity(s: string)
    ensures EachChar(s, x => [x]) == s
  {
    if s != [] {
      EachCharIdentity(s[1..]);
      assert s == [s[0]] + s[1..];
    }
  }

  /** The backslash pass and the quote pass, in that order, are one map; the order matters. */
  lemma EscapeValueIsMap(s: string)
    ensures EscapeValue(s) == EachChar(s, ValueChar)
  {
    var f0 := (x: char) => [x];
    var f1 := (x: char) => Replace(f0(x), '\\', "\\\\");
    var f2 := (x: char) => Replace(f1(x), '"', "\\\"");
    EachCharIdentity(s);
    EachCharIs(s, x => [x], f0);
    ReplaceMapped(s, f0, '\\', "\\\\", f1);
    ReplaceMapped(s, f1, '"', "\\\"", f2);
    forall x ensures f2(x) == ValueChar(x) {
      assert f1(x) == if x == '\\' then "\\\\" else [x] by { ReplaceOne(x, '\\', "\\\\"); }
      if x == '\\' {
        assert "\\\\" == ['\\'] + ['\\'];
        ReplaceAppend(['\\'], ['\\'], '"', "\\\"");
        ReplaceOne('\\', '"', "\\\"");
      } else {
        ReplaceOne(x, '"', "\\\"");
      }
    }
    EachCharIs(s, f2, ValueChar);
  }

  lemma ReplaceOne(x: char, c: char, rep: string)
    ensures Replace([x], c, rep) == if x == c then rep else [x]
  {
    assert [x][1..] == [];
  }

  lemma {:induction false} ReplaceAbsent(s: string, c: char, rep: string)
    requires c !in s
    ensures Replace(s, c, rep) == s
  {
    if s != [] {
      ReplaceAbsent(s[1..], c, rep);
      assert s == [s[0]] + s[1..];
    }
  }

  /** What a character has become after the first `n` passes. */
  function Stage(n: nat, c: char): string {
    if c == '&' && n > 0 then "&amp;"
    else if c == '<' && n > 1 then "&lt;"
    else if c == '>' && n > 2 then "&gt;"
    else if c == '"' && n > 3 then "&quot;"
    else if c == '\'' && n > 4 then "&apos;"
    else [c]
  }

  /** The passes in order: which character the next one replaces, and by what. */
  const PASSES := [('&', "&amp;"), ('<', "&lt;"), ('>', "&gt;"), ('"', "&quot;"), ('\'', "&apos;")]

  lemma NextStage(n: nat, c: char)
    requires n < 5
    ensures Stage(n + 1, c) == Replace(Stage(n, c), PASSES[n].0, PASSES[n].1)
  {
    if c == PASSES[n].0 {
      ReplaceOne(c, PASSES[n].0, PASSES[n].1);
    } else {
      ReplaceAbsent(Stage(n, c), PASSES[n].0, PASSES[n].1);
    }
  }

  /** The text after the first `n` passes. */
  function Staged(s: string, n: nat): string {
    EachChar(s, x => Stage(n, x))
  }

  lemma Pass(s: string, n: nat)
    requires n < 5
    ensures Replace(Staged(s, n), PASSES[n].0, PASSES[n].1) == Staged(s, n + 1)
  {
    forall x ensures Stage(n + 1, x) == Replace(Stage(n, x), PASSES[n].0, PASSES[n].1) {
      NextStage(n, x);
    }
    ReplaceMapped(s, x => Stage(n, x), PASSES[n].0, PASSES[n].1, x => Stage(n + 1, x));
  }

  /** Before the first pass and after the last. */
  lemma FirstAndLast(s: string)
    ensures Staged(s, 0) == s && Staged(s, 5) == EachChar(s, Entity)
  {
    EachCharIdentity(s);
    EachCharIs(s, x => [x], x => Stage(0, x));
    EachCharIs(s, x => Stage(5, x), Entity);
  }

  /** Escaping the ampersand first makes the five passes one map. */
  lemma XmlEscapeIsMap(s: string)
    ensures XmlEscape(s) == EachChar(s, Entity)
  {
    hide EachChar, Staged, Replace, Entity;
    FirstAndLast(s);
    Pass(s, 0);
    Pass(s, 1);
    Pass(s, 2);
    Pass(s, 3);
    Pass(s, 4);
  }

  // ----- Reading back -----

  datatype Scan = Scan(value: string, rest: string)

  /** Read a double-quoted value from just after its opening quote to its first unescaped quote. */
  function ScanQuoted(t: string): Option<Scan> {
    if t == [] then None
    else if t[0] == '"' then Some(Scan([], t[1..]))
    else if t[0] == '\\' then
      if |t| == 1 then None else
      match ScanQuoted(t[2..]) case None => None case Some(r) => Some(Scan([t[1]] + r.value, r.rest))
    else
      match ScanQuoted(t[1..]) case None => None case Some(r) => Some(Scan([t[0]] + r.value, r.rest))
  }

  /** The closing quote is the first one a reader stops at, and what it read is the value: no value breaks out. */
  lemma {:induction false} QuotedReadsBack(s: string, rest: string)
    ensures ScanQuoted(EscapeValue(s) + "\"" + rest) == Some(Scan(s, rest))
  {
    EscapeValueIsMap(s);
    if s == [] {
      assert EscapeValue(s) + "\"" + rest == "\"" + rest;
      assert ("\"" + rest)[1..] == rest;
    } else {
      EscapeValueIsMap(s[1..]);
      var u := EscapeValue(s[1..]) + "\"" + rest;
      assert EscapeValue(s) + "\"" + rest == ValueChar(s[0]) + u;
      hide EscapeValue, EachChar, ScanQuoted, ValueChar;
      QuotedReadsBack(s[1..], rest);
      CharScans(s[0], u);
      assert s == [s[0]] + s[1..];
    }
  }

  lemma CharScans(c: char, u: string)
    requires ScanQuoted(u).Some?
    ensures ScanQuoted(ValueChar(c) + u) == Some(Scan([c] + ScanQuoted(u).value.value, ScanQuoted(u).value.rest))
  {
    var t := ValueChar(c) + u;
    assert t[|ValueChar(c)|..] == u;
  }

  /** A reader of the predefined entities; anything else stands for itself. */
  function XmlRead(t: string): string {
    if t == [] then []
    else if "&amp;" <= t then "&" + XmlRead(t[5..])
    else if "&lt;" <= t then "<" + XmlRead(t[4..])
    else if "&gt;" <= t then ">" + XmlRead(t[4..])
    else if "&quot;" <= t then "\"" + XmlRead(t[6..])
    else if "&apos;" <= t then "'" + XmlRead(t[6..])
    else [t[0]] + XmlRead(t[1..])
  }

  /** Nothing that delimits markup is left, and the text reads back, so escaping is injective. */
  lemma {:induction false} XmlReadsBack(s: string)
    ensures XmlRead(XmlEscape(s)) == s
    ensures forall c :: c in XmlEscape(s) ==> c != '<' && c != '>' && c != '"' && c != '\''
    ensures forall i :: 0 <= i < |XmlEscape(s)| && XmlEscape(s)[i] == '&' ==> AtEntity(XmlEscape(s)[i..])
  {
    hide XmlEscape, XmlRead, Entity;
    XmlEscapeCons(s);
    if s != [] {
      XmlReadsBack(s[1..]);
      var e, u := Entity(s[0]), XmlEscape(s[1..]);
      var t := XmlEscape(s);
      EntityReads(s[0], u);
      EntityChars(s[0]);
      forall i | 0 <= i < |t| && t[i] == '&' ensures AtEntity(t[i..]) {
        if i < |e| {
          assert i == 0 && t[0..] == t;
        } else {
          assert t[i..] == u[i - |e|..];
        }
      }
      assert s == [s[0]] + s[1..];
    }
  }

  lemma XmlEscapeCons(s: string)
    ensures s == [] ==> XmlEscape(s) == [] && XmlRead(XmlEscape(s)) == []
    ensures s != [] ==> XmlEscape(s) == Entity(s[0]) + XmlEscape(s[1..])
  {
    hide XmlEscape;
    XmlEscapeIsMap(s);
    if s != [] {
      XmlEscapeIsMap(s[1..]);
    }
  }

  /** An ampersand that begins one of the five predefined entities. */
  predicate AtEntity(t: string) {
    "&amp;" <= t || "&lt;" <= t || "&gt;" <= t || "&quot;" <= t || "&apos;" <= t
  }

  lemma EntityReads(c: char, u: string)
    ensures XmlRead(Entity(c) + u) == [c] + XmlRead(u)
    ensures Entity(c)[0] == '&' ==> AtEntity(Entity(c) + u)
  {
    var e, t := Entity(c), Entity(c) + u;
    assert t[|e|..] == u && t[0] == e[0];
    if |e| > 1 {
      assert e <= t && t[1] == e[1] && t[2] == e[2];
    }
  }

  lemma EntityChars(c: char)
    ensures forall i :: 0 < i < |Entity(c)| ==> Entity(c)[i] != '&'
    ensures forall x :: x in Entity(c) ==> x != '<' && x != '>' && x != '"' && x != '\''
  {
  }
}
