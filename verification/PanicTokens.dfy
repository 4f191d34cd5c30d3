/**
 What the line sanitiser means: over a whole file it is the inverse of printing Rust tokens,
 lifetimes among them. Code and the names of lifetimes stay, everything else becomes spaces,
 if and only if nothing else seems to begin in code and no raw string is followed by a hash.
 */
module PanicTokens {
  import opened GatewayStripper
  import opened GatewayTokens
  import opened PanicLexer
  import opened PanicWholeFile

  datatype Piece = Rust(t: Token) | Lifetimed(name: string)

  function Print(p: Piece): string {
    match p
    case Rust(t) => RenderToken(t)
    case Lifetimed(name) => "'" + name
  }

  function PrintAll(ps: seq<Piece>): string {
    if ps == [] then [] else Print(ps[0]) + PrintAll(ps[1..])
  }

  function Dim(c: char): char {
    if c == '\n' then c else ' '
  }

  function Dims(s: string): (t: string)
    ensures |t| == |s|
  {
    seq(|s|, i requires 0 <= i < |s| => Dim(s[i]))
  }

  function Visible(p: Piece): (t: string)
    ensures |t| == |Print(p)|
  {
    match p
    case Rust(CodeText(text)) => text
    case Lifetimed(name) => " " + name
    case _ => Dims(Print(p))
  }

  function VisibleAll(ps: seq<Piece>): (t: string)
    ensures |t| == |PrintAll(ps)|
  {
    if ps == [] then [] else Visible(ps[0]) + VisibleAll(ps[1..])
  }

  // ----- Pieces as Rust has them -----

  predicate NameStart(l: Letters, c: char) {
    l.alpha(c) || c == '_'
  }

  predicate NameChar(l: Letters, c: char) {
    l.alnum(c) || c == '_'
  }

  /** Punctuation is no letter. */
  ghost predicate Sane(l: Letters) {
    forall c :: c in " '\"\\/#\n" ==> !l.alpha(c) && !l.alnum(c)
  }

  /** A name runs as far as it can; a char literal is one character or an escape. */
  predicate PieceProper(l: Letters, p: Piece, after: string) {
    match p
    case Lifetimed(name) =>
      && name != [] && NameStart(l, name[0]) && (forall i :: 1 <= i < |name| ==> NameChar(l, name[i]))
      && (after == [] || !NameChar(l, after[0]))
    case Rust(t) =>
      && TokenProper(t, after)
      && (t.CharLit? ==> (|t.items| == 1 || (t.items != [] && t.items[0].Escape?)) && '\n' !in RenderToken(t))
  }

  predicate AllProper(l: Letters, ps: seq<Piece>) {
    ps == [] || (PieceProper(l, ps[0], PrintAll(ps[1..])) && AllProper(l, ps[1..]))
  }

  // ----- How far the sanitiser reads them -----

  /** Neither a comment nor a literal nor a lifetime seems to begin at the front. */
  predicate Dull(s: string) {
    && s != [] && s[0] != '"' && s[0] != '\''
    && !Starts2(s, '/', '/') && !Starts2(s, '/', '*') && !RawOpens(s)
  }

  predicate AllDull(text: string, after: string) {
    text == [] || (Dull(text + after) && AllDull(text[1..], after))
  }

  predicate PieceReads(p: Piece, after: string) {
    match p
    case Rust(CodeText(text)) => AllDull(text, after)
    case Rust(RawQuoted(_, _)) => after == [] || after[0] != '#'
    case Lifetimed(name) => AllDull(name, after) && (after == [] || after[0] != '\'')
    case _ => true
  }

  predicate AllRead(ps: seq<Piece>) {
    ps == [] || (PieceReads(ps[0], PrintAll(ps[1..])) && AllRead(ps[1..]))
  }

  // ----- One turn -----

  lemma Taken(l: Letters, head: string, rest: string, m: Mode, r: Move)
    requires head != [] && head[0] != '\n' && m != LineComment && !(m == Code && Starts2(head + rest, '/', '/'))
    requires r == Turn(l, head + rest, m) && r.take == |head|
    ensures Whole(l, head + rest, m) == r.out + Whole(l, rest, r.next)
  {
    hide Turn;
    BothTurn(l, head + rest, m);
    assert (head + rest)[|head|..] == rest;
  }

  /** A character of the mode's own text, that neither ends it nor nests. */
  predicate Inside(c: char, rest: string, m: Mode) {
    match m
    case Code => false
    case LineComment => c != '\n'
    case Block(_) => !Delimiter([c] + rest)
    case Raw(hashes) => c != '"' || HashRun(rest) != hashes
    case Str(escaped) => escaped || (c != '"' && c != '\\')
    case Chr(escaped) => c != '\n' && (escaped || (c != '\'' && c != '\\'))
  }

  function Unescaped(m: Mode): Mode {
    match m
    case Str(_) => Str(false)
    case Chr(_) => Chr(false)
    case _ => m
  }

  lemma InsideDimmed(l: Letters, c: char, rest: string, m: Mode)
    requires Inside(c, rest, m)
    ensures Whole(l, [c] + rest, m) == [Dim(c)] + Whole(l, rest, Unescaped(m))
  {
    var s := [c] + rest;
    assert s[1..] == rest;
    if c != '\n' && m != LineComment {
      assert Turn(l, s, m) == Move(1, " ", Unescaped(m));
      hide Turn;
      Taken(l, [c], rest, m, Move(1, " ", Unescaped(m)));
    }
  }

  /** A stretch of such characters in a comment or a raw string. */
  predicate Stays(text: string, rest: string, m: Mode) {
    text == [] || (Inside(text[0], text[1..] + rest, m) && Stays(text[1..], rest, m))
  }

  lemma {:induction false} StretchDimmed(l: Letters, text: string, rest: string, m: Mode)
    requires Stays(text, rest, m) && Unescaped(m) == m
    ensures Whole(l, text + rest, m) == Dims(text) + Whole(l, rest, m)
  {
    hide Whole, Inside;
    if text == [] {
      assert text + rest == rest;
    } else {
      assert text + rest == [text[0]] + (text[1..] + rest);
      InsideDimmed(l, text[0], text[1..] + rest, m);
      StretchDimmed(l, text[1..], rest, m);
      assert Dims(text) == [Dim(text[0])] + Dims(text[1..]);
    }
  }

  lemma {:induction false} ProseStays(text: string, rest: string, outer: nat)
    requires NoDelimiter(text, rest)
    ensures Stays(text, rest, Block(outer))
  {
    if text != [] {
      assert text + rest == [text[0]] + (text[1..] + rest);
      ProseStays(text[1..], rest, outer);
    }
  }

  lemma {:induction false} RemarkStays(body: string, rest: string)
    requires '\n' !in body
    ensures Stays(body, rest, LineComment)
  {
    if body != [] {
      RemarkStays(body[1..], rest);
    }
  }

  lemma HashesClose(s: string, hashes: nat)
    requires s != [] && s[0] == '"' && HashRun(s[1..]) >= hashes
    ensures RawCloses(s, hashes)
  {
    assert s[..1 + hashes] == "\"" + Hashes(hashes);
  }

  lemma {:induction false} RawStays(body: string, hashes: nat, rest: string)
    requires RawBodyStays(body, hashes, rest)
    ensures Stays(body, rest, Raw(hashes))
  {
    if body != [] {
      var s := body + rest;
      assert s == [body[0]] + (body[1..] + rest) && s[1..] == body[1..] + rest;
      if s[0] == '"' && HashRun(s[1..]) == hashes {
        HashesClose(s, hashes);
      }
      RawStays(body[1..], hashes, rest);
    }
  }

  lemma {:induction false} StaysAppend(a: string, b: string, rest: string, m: Mode)
    requires Stays(a, b + rest, m) && Stays(b, rest, m)
    ensures Stays(a + b, rest, m)
  {
    if a == [] {
      assert a + b == b;
    } else {
      assert (a + b)[1..] == a[1..] + b && a[1..] + b + rest == a[1..] + (b + rest);
      StaysAppend(a[1..], b, rest, m);
    }
  }

  lemma {:induction false} HashesStay(n: nat, rest: string, hashes: nat)
    ensures Stays(Hashes(n), rest, Raw(hashes))
  {
    if n > 0 {
      assert Hashes(n)[1..] == Hashes(n - 1);
      HashesStay(n - 1, rest, hashes);
    }
  }

  // ----- One construct at a time -----

  lemma DimsJoin(a: string, b: string, rest: string)
    ensures Dims(a) + (Dims(b) + rest) == Dims(a + b) + rest
  {
  }

  lemma {:induction false} NestedDimmed(l: Letters, inner: seq<Part>, outer: nat, after: string)
    requires PartsProper(inner, "*/" + after)
    ensures Whole(l, RenderPart(Nested(inner)) + after, Block(outer))
         == Dims(RenderPart(Nested(inner))) + Whole(l, after, Block(outer))
    decreases inner, 1
  {
    hide Whole, Dims, Spaces;
    var body, rest := RenderParts(inner), Whole(l, after, Block(outer));
    assert RenderPart(Nested(inner)) + after == "/*" + (body + ("*/" + after));
    Taken(l, "/*", body + ("*/" + after), Block(outer), Move(2, Spaces(2), Block(outer + 1)));
    PartsDimmed(l, inner, outer + 1, "*/" + after);
    Taken(l, "*/", after, Block(outer + 1), Move(2, Spaces(2), Block(outer)));
    DelimitedDims(body);
    Regroup(Spaces(2), Dims(body), Spaces(2), rest);
  }

  lemma DelimitedDims(body: string)
    ensures Dims("/*" + body + "*/") == Spaces(2) + Dims(body) + Spaces(2)
  {
  }

  lemma {:induction false} PartsDimmed(l: Letters, parts: seq<Part>, outer: nat, after: string)
    requires PartsProper(parts, after)
    ensures Whole(l, RenderParts(parts) + after, Block(outer)) == Dims(RenderParts(parts)) + Whole(l, after, Block(outer))
    decreases parts, 0
  {
    hide Whole, Dims, NoDelimiter, Stays, Inside;
    if parts == [] {
      assert RenderParts(parts) + after == after;
      assert Dims([]) == [];
    } else {
      var head, tail := RenderPart(parts[0]), RenderParts(parts[1..]);
      assert RenderParts(parts) + after == head + (tail + after);
      match parts[0] {
        case Prose(text) =>
          ProseStays(text, tail + after, outer);
          StretchDimmed(l, text, tail + after, Block(outer));
        case Nested(inner) => NestedDimmed(l, inner, outer, tail + after);
      }
      PartsDimmed(l, parts[1..], outer, after);
      DimsJoin(head, tail, Whole(l, after, Block(outer)));
    }
  }

  /** The mode inside a string or a char literal. */
  function Within(quote: char, escaped: bool): Mode {
    if quote == '"' then GatewayStripper.Str(escaped) else Chr(escaped)
  }

  function ItemText(i: Item): string {
    match i case Plain(c) => [c] case Escape(c) => ['\\', c]
  }

  lemma ItemsSplit(items: seq<Item>, quote: char)
    requires items != []
    ensures RenderItems(items) == ItemText(items[0]) + RenderItems(items[1..])
    ensures '\n' !in RenderItems(items) ==> '\n' !in RenderItems(items[1..]) && items[0].c != '\n'
    ensures ItemsProper(items, quote) ==>
              ItemsProper(items[1..], quote) && (items[0].Plain? ==> items[0].c != quote && items[0].c != '\\')
  {
    var head := ItemText(items[0]);
    assert head[|head| - 1] == items[0].c && items[0] in items;
  }

  lemma {:induction false} ItemsDimmed(l: Letters, items: seq<Item>, quote: char, after: string)
    requires (quote == '"' || quote == '\'') && ItemsProper(items, quote)
    requires quote == '\'' ==> '\n' !in RenderItems(items)
    ensures Whole(l, RenderItems(items) + after, Within(quote, false))
         == Dims(RenderItems(items)) + Whole(l, after, Within(quote, false))
  {
    if items == [] {
      assert RenderItems(items) + after == after;
    } else {
      hide *;
      var head, tail := ItemText(items[0]), RenderItems(items[1..]);
      ItemsSplit(items, quote);
      ItemsDimmed(l, items[1..], quote, after);
      assert head + tail + after == head + (tail + after);
      ItemDimmed(l, items[0], quote, tail + after);
      DimsJoin(head, tail, Whole(l, after, Within(quote, false)));
    }
  }

  lemma ItemDimmed(l: Letters, i: Item, quote: char, rest: string)
    requires (quote == '"' || quote == '\'') && (i.Plain? ==> i.c != quote && i.c != '\\')
    requires quote == '\'' ==> i.c != '\n'
    ensures Whole(l, ItemText(i) + rest, Within(quote, false)) == Dims(ItemText(i)) + Whole(l, rest, Within(quote, false))
  {
    hide Whole;
    match i {
      case Plain(c) =>
        InsideDimmed(l, c, rest, Within(quote, false));
        assert Dims([c]) == [Dim(c)];
      case Escape(c) =>
        assert ['\\', c] + rest == ['\\'] + ([c] + rest);
        Taken(l, ['\\'], [c] + rest, Within(quote, false), Move(1, " ", Within(quote, true)));
        InsideDimmed(l, c, rest, Within(quote, true));
        assert Dims(['\\', c]) == " " + [Dim(c)];
    }
  }

  /** A string or a char literal whose opening quote is taken for one. */
  lemma LiteralDimmed(l: Letters, items: seq<Item>, quote: char, after: string)
    requires (quote == '"' || quote == '\'') && ItemsProper(items, quote)
    requires quote == '\'' ==> '\n' !in RenderItems(items)
    requires Turn(l, [quote] + (RenderItems(items) + ([quote] + after)), Code) == Move(1, " ", Within(quote, false))
    ensures var token := [quote] + RenderItems(items) + [quote];
            Whole(l, token + after, Code) == Dims(token) + Whole(l, after, Code)
  {
    var body, rest := RenderItems(items), Whole(l, after, Code);
    hide Whole, RenderItems, Lifetime;
    assert [quote] + body + [quote] + after == [quote] + (body + ([quote] + after));
    assert Turn(l, [quote] + after, Within(quote, false)) == Move(1, " ", Code);
    hide Turn;
    Taken(l, [quote], body + ([quote] + after), Code, Move(1, " ", Within(quote, false)));
    ItemsDimmed(l, items, quote, [quote] + after);
    Taken(l, [quote], after, Within(quote, false), Move(1, " ", Code));
    assert Dims([quote] + body + [quote]) == " " + Dims(body) + " ";
    Regroup(" ", Dims(body), " ", rest);
  }

  /** One character or an escape between apostrophes is no lifetime. */
  lemma CharacterOpens(l: Letters, items: seq<Item>, after: string)
    requires Sane(l) && ItemsProper(items, '\'')
    requires |items| == 1 || (items != [] && items[0].Escape?)
    ensures Turn(l, "'" + (RenderItems(items) + ("'" + after)), Code) == Move(1, " ", Chr(false))
  {
    var body := RenderItems(items);
    var s := "'" + (body + ("'" + after));
    ItemsSplit(items, '\'');
    assert |items| == 1 ==> RenderItems(items[1..]) == [];
    assert s[1] == body[0] == ItemText(items[0])[0];
    hide RenderItems, Turn, Sane;
    assert items[0].Plain? ==> s[2] == '\'';
    ApostropheOpens(l, s);
  }

  lemma ApostropheOpens(l: Letters, s: string)
    requires Sane(l) && |s| > 2 && s[0] == '\'' && (s[1] == '\\' || s[2] == '\'')
    ensures Turn(l, s, Code) == Move(1, " ", Chr(false))
  {
  }

  lemma QuotesDimmed(l: Letters, t: Token, after: string)
    requires Sane(l) && (t.Quoted? || t.CharLit?) && PieceProper(l, Rust(t), after)
    ensures Whole(l, RenderToken(t) + after, Code) == Dims(RenderToken(t)) + Whole(l, after, Code)
  {
    var body := RenderItems(t.items);
    if t.Quoted? {
      LiteralDimmed(l, t.items, '"', after);
    } else {
      assert forall c :: c in body ==> c in RenderToken(t);
      CharacterOpens(l, t.items, after);
      LiteralDimmed(l, t.items, '\'', after);
    }
    hide Whole, RenderItems, Dims;
  }

  lemma RawOpened(l: Letters, hashes: nat, rest: string)
    ensures Whole(l, "r" + Hashes(hashes) + "\"" + rest, Code) == Spaces(hashes + 2) + Whole(l, rest, Raw(hashes))
  {
    var open := "r" + Hashes(hashes) + "\"";
    HashRunIs((open + rest)[1..], hashes);
    hide Whole;
    Taken(l, open, rest, Code, Move(hashes + 2, Spaces(hashes + 2), Raw(hashes)));
  }

  lemma RawClosed(l: Letters, hashes: nat, after: string)
    requires after == [] || after[0] != '#'
    ensures Whole(l, "\"" + Hashes(hashes) + after, Raw(hashes)) == Spaces(1 + hashes) + Whole(l, after, Code)
  {
    var close := "\"" + Hashes(hashes);
    assert (close + after)[1..] == Hashes(hashes) + after;
    HashRunIs((close + after)[1..], hashes);
    hide Whole;
    Taken(l, close, after, Raw(hashes), Move(1 + hashes, Spaces(1 + hashes), Code));
  }

  lemma RawEnded(l: Letters, hashes: nat, body: string, after: string)
    requires RawBodyStays(body, hashes, "\"" + Hashes(hashes) + after) && (after == [] || after[0] != '#')
    ensures Whole(l, body + ("\"" + Hashes(hashes) + after), Raw(hashes))
         == Dims(body) + (Spaces(1 + hashes) + Whole(l, after, Code))
  {
    hide Whole, Dims, Spaces, RawBodyStays, Stays;
    RawStays(body, hashes, "\"" + Hashes(hashes) + after);
    StretchDimmed(l, body, "\"" + Hashes(hashes) + after, Raw(hashes));
    RawClosed(l, hashes, after);
  }

  lemma RawRuns(l: Letters, hashes: nat, body: string, after: string)
    requires RawBodyStays(body, hashes, "\"" + Hashes(hashes) + after) && after != [] && after[0] == '#'
    ensures var close := "\"" + Hashes(hashes);
            Whole(l, body + (close + after), Raw(hashes)) == Dims(body) + Dims(close) + " " + Whole(l, after[1..], Raw(hashes))
  {
    var close := "\"" + Hashes(hashes);
    var more := close + [after[0]];
    assert after == [after[0]] + after[1..] && close + after == more + after[1..];
    assert body + more + after[1..] == body + (close + after);
    assert Dims(body + more) == Dims(body) + Dims(close) + " ";
    hide Whole, Dims, Spaces, RawBodyStays, Stays;
    MoreStays(hashes, after);
    RawStays(body, hashes, close + after);
    StaysAppend(body, more, after[1..], Raw(hashes));
    StretchDimmed(l, body + more, after[1..], Raw(hashes));
  }

  /** A raw string ends at its own delimiter, unless one more hash follows that. */
  lemma RawDimmed(l: Letters, hashes: nat, body: string, after: string)
    requires RawBodyStays(body, hashes, "\"" + Hashes(hashes) + after)
    ensures var token, s := RenderToken(RawQuoted(hashes, body)), RenderToken(RawQuoted(hashes, body)) + after;
            if after == [] || after[0] != '#' then Whole(l, s, Code) == Dims(token) + Whole(l, after, Code)
            else Whole(l, s, Code) == Dims(token) + " " + Whole(l, after[1..], Raw(hashes))
  {
    var close := "\"" + Hashes(hashes);
    RawDims(hashes, body, after);
    hide Whole, Dims, Spaces, RawBodyStays, RenderToken;
    RawOpened(l, hashes, body + (close + after));
    if after == [] || after[0] != '#' {
      RawEnded(l, hashes, body, after);
      var rest := Whole(l, after, Code);
      Regroup(Spaces(hashes + 2), Dims(body), Spaces(1 + hashes), rest);
    } else {
      RawRuns(l, hashes, body, after);
      var rest := Whole(l, after[1..], Raw(hashes));
      assert Spaces(hashes + 2) + (Dims(body) + Dims(close) + " " + rest)
          == Spaces(hashes + 2) + Dims(body) + Dims(close) + " " + rest;
    }
  }

  lemma MoreStays(hashes: nat, after: string)
    requires after != [] && after[0] == '#'
    ensures Stays("\"" + Hashes(hashes) + [after[0]], after[1..], Raw(hashes))
  {
    var more := "\"" + Hashes(hashes) + [after[0]];
    assert more[1..] == Hashes(hashes + 1);
    HashesStay(hashes + 1, after[1..], hashes);
    var rest := more[1..] + after[1..];
    assert forall k :: 0 <= k <= hashes ==> rest[k] == '#';
  }

  lemma RawDims(hashes: nat, body: string, after: string)
    ensures var open, close := "r" + Hashes(hashes) + "\"", "\"" + Hashes(hashes);
            && RenderToken(RawQuoted(hashes, body)) == open + body + close
            && RenderToken(RawQuoted(hashes, body)) + after == open + (body + (close + after))
            && Dims(open + body + close) == Spaces(hashes + 2) + Dims(body) + Spaces(1 + hashes)
            && Dims(close) == Spaces(1 + hashes)
  {
  }

  /** Code comes through if and only if nothing else seems to begin in it. */
  lemma {:induction false} BareSeen(l: Letters, text: string, after: string)
    ensures Whole(l, text + after, Code)[..|text|] == text <==> AllDull(text, after)
    ensures AllDull(text, after) ==> Whole(l, text + after, Code) == text + Whole(l, after, Code)
  {
    hide Whole, Dull;
    if text == [] {
      assert text + after == after;
    } else {
      var s, u := text + after, Whole(l, text[1..] + after, Code);
      assert s[1..] == text[1..] + after;
      BareTurn(l, s);
      if Dull(s) {
        BareSeen(l, text[1..], after);
        assert ([s[0]] + u)[..|text|] == [text[0]] + u[..|text[1..]|];
        assert [text[0]] + (text[1..] + Whole(l, after, Code)) == text + Whole(l, after, Code);
        assert text == [text[0]] + text[1..];
      } else {
        assert Whole(l, s, Code)[..|text|][0] == ' ';
      }
    }
  }

  lemma BareTurn(l: Letters, s: string)
    requires s != []
    ensures Dull(s) ==> Whole(l, s, Code) == [s[0]] + Whole(l, s[1..], Code)
    ensures !Dull(s) ==> Whole(l, s, Code)[0] == ' ' != s[0]
  {
    if s[0] != '\n' && !Starts2(s, '/', '/') {
      BothTurn(l, s, Code);
    }
  }

  /** An apostrophe before a name is a lifetime's if and only if no apostrophe comes after the name. */
  lemma LifetimedIff(l: Letters, name: string, after: string)
    requires Sane(l) && PieceProper(l, Lifetimed(name), after)
    ensures Lifetime(l, "'" + name + after) <==> after == [] || after[0] != '\''
  {
    var s := "'" + name + after;
    assert s[1] == name[0];
    NameEnds(l, s, 2, 1 + |name|);
    assert after != [] ==> s[1 + |name|] == after[0];
  }

  lemma {:induction false} NameEnds(l: Letters, s: string, i: nat, e: nat)
    requires i <= e <= |s| && (forall k :: i <= k < e ==> NameChar(l, s[k])) && (e < |s| ==> !NameChar(l, s[e]))
    ensures IdentEnd(l, s, i) == e
    decreases e - i
  {
    if i < e {
      NameEnds(l, s, i + 1, e);
    }
  }

  lemma TickTaken(l: Letters, name: string, after: string)
    requires Sane(l) && PieceProper(l, Lifetimed(name), after)
    ensures var next := if after == [] || after[0] != '\'' then Code else Chr(false);
            Whole(l, "'" + (name + after), Code) == " " + Whole(l, name + after, next)
  {
    var next := if after == [] || after[0] != '\'' then Code else Chr(false);
    assert "'" + name + after == "'" + (name + after);
    LifetimedIff(l, name, after);
    assert Turn(l, "'" + (name + after), Code) == Move(1, " ", next);
    hide Turn, Whole, Lifetime;
    Taken(l, "'", name + after, Code, Move(1, " ", next));
  }

  lemma NameDimmed(l: Letters, name: string, after: string)
    requires Sane(l) && PieceProper(l, Lifetimed(name), after)
    ensures Whole(l, name + after, Chr(false))[0] == ' ' != name[0]
  {
    assert name + after == [name[0]] + (name[1..] + after);
    hide Whole;
    InsideDimmed(l, name[0], name[1..] + after, Chr(false));
  }

  lemma LifetimeTaken(l: Letters, name: string, after: string)
    requires Sane(l) && PieceProper(l, Lifetimed(name), after) && after != [] && after[0] == '\''
    ensures Whole(l, "'" + (name + after), Code)[..|name| + 1] != " " + name
  {
    TickTaken(l, name, after);
    NameDimmed(l, name, after);
    assert name != [];
    hide *;
    NotPrefixed(name, Whole(l, name + after, Chr(false)));
  }

  lemma LifetimeKept(l: Letters, name: string, after: string)
    requires Sane(l) && PieceProper(l, Lifetimed(name), after) && (after == [] || after[0] != '\'')
    ensures AllDull(name, after) ==> Whole(l, "'" + (name + after), Code) == " " + name + Whole(l, after, Code)
    ensures Whole(l, "'" + (name + after), Code)[..|name| + 1] == " " + name <==> AllDull(name, after)
  {
    hide *;
    TickTaken(l, name, after);
    BareSeen(l, name, after);
    Prefixed(name, Whole(l, "'" + (name + after), Code), Whole(l, name + after, Code), Whole(l, after, Code), AllDull(name, after));
  }

  /** A lifetime loses its apostrophe alone; taken for a char literal it loses its name's first letter as well. */
  lemma LifetimedSeen(l: Letters, name: string, after: string)
    requires Sane(l) && PieceProper(l, Lifetimed(name), after)
    ensures PieceReads(Lifetimed(name), after) ==> Whole(l, "'" + name + after, Code) == " " + name + Whole(l, after, Code)
    ensures Whole(l, "'" + name + after, Code)[..|name| + 1] == " " + name <==> PieceReads(Lifetimed(name), after)
  {
    hide Whole, AllDull, Sane, PieceProper;
    assert "'" + name + after == "'" + (name + after);
    if after != [] && after[0] == '\'' {
      LifetimeTaken(l, name, after);
    } else {
      LifetimeKept(l, name, after);
    }
  }

  lemma NotPrefixed(name: string, u: string)
    requires name != [] && |name| <= |u| && u[0] != name[0]
    ensures (" " + u)[..|name| + 1] != " " + name
  {
    assert (" " + u)[..|name| + 1][1] != (" " + name)[1];
  }

  lemma Prefixed(name: string, w: string, u: string, rest: string, ok: bool)
    requires |name| <= |u| && w == " " + u && (u[..|name|] == name <==> ok) && (ok ==> u == name + rest)
    ensures w[..|name| + 1] == " " + name <==> ok
    ensures ok ==> w == " " + name + rest
  {
    assert w[..|name| + 1] == " " + u[..|name|];
    assert (" " + name)[1..] == name && (" " + u[..|name|])[1..] == u[..|name|];
  }

  lemma RemarkDimmed(l: Letters, body: string, after: string)
    requires '\n' !in body && (after == [] || after[0] == '\n')
    ensures Whole(l, "//" + body + after, Code) == Dims("//" + body) + Whole(l, after, Code)
  {
    RemarkTaken(l, body, after);
    RemarkStays(body, after);
    assert Unescaped(LineComment) == LineComment && Dims("//") == Spaces(2);
    hide *;
    StretchDimmed(l, body, after, LineComment);
    DimsJoin("//", body, Whole(l, after, Code));
  }

  lemma RemarkTaken(l: Letters, body: string, after: string)
    requires after == [] || after[0] == '\n'
    ensures Whole(l, "//" + body + after, Code) == Spaces(2) + Whole(l, body + after, LineComment)
    ensures Whole(l, after, LineComment) == Whole(l, after, Code)
  {
    hide Turn;
    var s := "//" + body + after;
    assert s[2..] == body + after && s[0] == '/' && Starts2(s, '/', '/');
  }

  lemma BlockTaken(l: Letters, rest: string)
    ensures Whole(l, "/*" + rest, Code) == Spaces(2) + Whole(l, rest, Block(0))
    ensures Whole(l, "*/" + rest, Block(0)) == Spaces(2) + Whole(l, rest, Code)
  {
    hide Whole;
    Taken(l, "/*", rest, Code, Move(2, Spaces(2), Block(0)));
    Taken(l, "*/", rest, Block(0), Move(2, Spaces(2), Code));
  }

  lemma BlockDimmed(l: Letters, parts: seq<Part>, after: string)
    requires PartsProper(parts, "*/" + after)
    ensures Whole(l, RenderToken(BlockNote(parts)) + after, Code)
         == Dims(RenderToken(BlockNote(parts))) + Whole(l, after, Code)
  {
    var token, body, rest := RenderToken(BlockNote(parts)), RenderParts(parts), Whole(l, after, Code);
    assert token == "/*" + body + "*/";
    hide *;
    assert token + after == "/*" + (body + ("*/" + after));
    BlockTaken(l, body + ("*/" + after));
    PartsDimmed(l, parts, 0, "*/" + after);
    BlockTaken(l, after);
    DelimitedDims(body);
    Regroup(Spaces(2), Dims(body), Spaces(2), rest);
  }

  lemma Regroup(a: string, b: string, c: string, d: string)
    ensures a + (b + (c + d)) == a + b + c + d
  {
  }

  // ----- A whole file -----

  /** A proper piece shows as it should, and code follows it, if and only if it is read. */
  lemma PieceSeen(l: Letters, p: Piece, after: string)
    requires Sane(l) && PieceProper(l, p, after)
    ensures PieceReads(p, after) ==> Whole(l, Print(p) + after, Code) == Visible(p) + Whole(l, after, Code)
    ensures !PieceReads(p, after) ==>
              if p.Rust? && p.t.RawQuoted? then Whole(l, Print(p) + after, Code)[..|Print(p)| + 1] == Visible(p) + " "
              else Whole(l, Print(p) + after, Code)[..|Print(p)|] != Visible(p)
  {
    hide Whole, Dims, PartsProper, RawBodyStays, AllDull;
    match p {
      case Lifetimed(name) => LifetimedSeen(l, name, after);
      case Rust(t) =>
        match t {
          case CodeText(text) => BareSeen(l, text, after);
          case LineNote(body) => RemarkDimmed(l, body, after);
          case BlockNote(parts) => BlockDimmed(l, parts, after);
          case Quoted(_) => QuotesDimmed(l, t, after);
          case CharLit(_) => QuotesDimmed(l, t, after);
          case RawQuoted(hashes, body) => RawDimmed(l, hashes, body, after);
        }
    }
  }

  lemma {:induction false} HashVisible(l: Letters, ps: seq<Piece>)
    requires AllProper(l, ps) && PrintAll(ps) != [] && PrintAll(ps)[0] == '#'
    ensures VisibleAll(ps)[0] == '#'
  {
    if Print(ps[0]) == [] {
      assert [] + PrintAll(ps[1..]) == PrintAll(ps[1..]);
      HashVisible(l, ps[1..]);
    } else {
      assert Print(ps[0])[0] == '#';
    }
  }

  /** Over a whole file lexing undoes printing if and only if every piece is read. */
  lemma {:induction false} WholeUndoesPrint(l: Letters, ps: seq<Piece>)
    requires Sane(l) && AllProper(l, ps)
    ensures Whole(l, PrintAll(ps), Code) == VisibleAll(ps) <==> AllRead(ps)
  {
    if ps != [] {
      var p, after, n := ps[0], PrintAll(ps[1..]), |Print(ps[0])|;
      PieceSeen(l, p, after);
      WholeUndoesPrint(l, ps[1..]);
      var seen, shown := Whole(l, PrintAll(ps), Code), VisibleAll(ps);
      assert shown[..n] == Visible(p) && shown[n..] == VisibleAll(ps[1..]);
      if !PieceReads(p, after) && p.Rust? && p.t.RawQuoted? {
        HashVisible(l, ps[1..]);
        assert seen[..n + 1][n] == ' ';
      }
      hide Whole, Print, Visible, PieceReads, PieceProper, Sane;
    }
  }

  /**
   So line by line, unless a string continued by a backslash is misread: the lines of a file
   show its code and the names of its lifetimes, and nothing else, if and only if every piece is read.
   */
  lemma LinesUndoPrint(l: Letters, lines: seq<string>, ps: seq<Piece>)
    requires Sane(l) && Lines(l, lines) && AllProper(l, ps) && Text(lines) == PrintAll(ps)
    requires !EscapeMisread(l, lines, Code)
    ensures Text(Linewise(l, lines, Code)) == VisibleAll(ps) <==> AllRead(ps)
  {
    hide Whole, Linewise, AllProper, AllRead, EscapeMisread;
    LinewiseIsWhole(l, lines, Code, Code);
    WholeUndoesPrint(l, ps);
  }

  /** And on one line whatever it holds. */
  lemma LineUndoesPrint(l: Letters, line: string, ps: seq<Piece>)
    requires Sane(l) && '\n' !in line && AllProper(l, ps) && line == PrintAll(ps)
    ensures Sanitize(l, line, Code).0 == VisibleAll(ps) <==> AllRead(ps)
  {
    assert !l.alpha('\n') && !l.alnum('\n');
    hide Whole, Sanitize, AllProper, AllRead, Sane;
    LastLine(l, line, Code, Code);
    WholeUndoesPrint(l, ps);
  }

  /** A raw string followed by one more hash is not seen to end: the brace behind it is hidden. */
  lemma HashAfterRaw(l: Letters)
    requires Sane(l)
    ensures Sanitize(l, "r\"\"#{", Code).0 == "     "
  {
    var line := "r\"\"#{";
    assert !l.alpha('\n') && !l.alnum('\n') && Lines(l, [line]) && InStep(Code, Code, [line]);
    hide *;
    HashRuns(l);
    LastLine(l, line, Code, Code);
  }

  lemma HashRuns(l: Letters)
    ensures Whole(l, "r\"\"#{", Code) == "     "
  {
    var token, after := "r\"\"", "#{";
    assert Hashes(0) == [] && Dims(token) == "   " && Dim('{') == ' ';
    assert RenderToken(RawQuoted(0, [])) == token && RawBodyStays([], 0, "\"" + Hashes(0) + after);
    assert Whole(l, [], Raw(0)) == [] && Inside('{', [], Raw(0)) && Unescaped(Raw(0)) == Raw(0);
    hide *;
    RawDimmed(l, 0, [], after);
    assert after[1..] == ['{'] + [] && token + after == "r\"\"#{";
    InsideDimmed(l, '{', [], Raw(0));
  }

  /** An apostrophe that begins neither a literal nor a lifetime hides the rest of its line and no more. */
  lemma StrayApostrophe(l: Letters, rest: string)
    requires '\'' !in rest && '\\' !in rest && (rest == [] || !NameStart(l, rest[0]))
    ensures Sanitize(l, "'" + rest, Code) == (Spaces(1 + |rest|), Code)
  {
    var s := "'" + rest;
    assert s[1..] == rest && Turn(l, s, Code) == Move(1, " ", Chr(false));
    CharacterRuns(l, rest);
    assert Spaces(1 + |rest|) == " " + Spaces(|rest|);
  }

  lemma {:induction false} CharacterRuns(l: Letters, rest: string)
    requires '\'' !in rest && '\\' !in rest
    ensures Sanitize(l, rest, Chr(false)) == (Spaces(|rest|), Code)
  {
    if rest == [] {
      SanitizeNone(l, Chr(false));
    } else {
      assert rest[0] in rest;
      assert Turn(l, rest, Chr(false)) == Move(1, " ", Chr(false));
      BothTurn(l, rest, Chr(false));
      CharacterRuns(l, rest[1..]);
      hide Turn, Sanitize;
      assert Spaces(|rest|) == " " + Spaces(|rest[1..]|);
    }
  }
}
