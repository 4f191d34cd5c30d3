/**
 What the stripper means: the inverse of printing Rust tokens, exactly as far as its
 heuristics reach. The rendering of a proper token list is stripped to the same text with
 every comment and literal blanked and all code verbatim if and only if nothing opens inside
 code and every char literal ends within the five characters that are looked at.
 */
module GatewayTokens {
  import opened GatewayStripper

  datatype Token =
    | CodeText(text: string)
    | LineNote(body: string)
    | BlockNote(parts: seq<Part>)
    | Quoted(items: seq<Item>)
    | RawQuoted(hashes: nat, body: string)
    | CharLit(items: seq<Item>)

  /** The inside of a block comment: plain text and further block comments. */
  datatype Part = Prose(text: string) | Nested(parts: seq<Part>)

  /** A character of a string or char literal, bare or after a backslash. */
  datatype Item = Plain(c: char) | Escape(c: char)

  // ----- Printing -----

  function RenderItems(items: seq<Item>): string {
    if items == [] then [] else
    (match items[0] case Plain(c) => [c] case Escape(c) => ['\\', c]) + RenderItems(items[1..])
  }

  function RenderPart(p: Part): string {
    match p
    case Prose(text) => text
    case Nested(parts) => "/*" + RenderParts(parts) + "*/"
  }

  function RenderParts(parts: seq<Part>): string {
    if parts == [] then [] else RenderPart(parts[0]) + RenderParts(parts[1..])
  }

  function RenderToken(t: Token): string {
    match t
    case CodeText(text) => text
    case LineNote(body) => "//" + body
    case BlockNote(parts) => "/*" + RenderParts(parts) + "*/"
    case Quoted(items) => "\"" + RenderItems(items) + "\""
    case RawQuoted(hashes, body) => "r" + Hashes(hashes) + "\"" + body + "\"" + Hashes(hashes)
    case CharLit(items) => "'" + RenderItems(items) + "'"
  }

  function Render(ts: seq<Token>): string {
    if ts == [] then [] else RenderToken(ts[0]) + Render(ts[1..])
  }

  // ----- What stripping should leave -----

  /** In a char literal an escaped character becomes a space even when it is a newline or a tab. */
  function BlankCharItems(items: seq<Item>): (t: string)
    ensures |t| == |RenderItems(items)|
  {
    if items == [] then [] else
    (match items[0] case Plain(c) => [Blank(c)] case Escape(c) => "  ") + BlankCharItems(items[1..])
  }

  function BlankToken(t: Token): (s: string)
    ensures |s| == |RenderToken(t)|
  {
    match t
    case CodeText(text) => text
    case CharLit(items) => " " + BlankCharItems(items) + " "
    case _ => Blanks(RenderToken(t))
  }

  function BlankTokens(ts: seq<Token>): string {
    if ts == [] then [] else BlankToken(ts[0]) + BlankTokens(ts[1..])
  }

  // ----- Tokens as Rust has them: each ends where its own delimiter says -----

  predicate Delimiter(s: string) {
    Starts2(s, '/', '*') || Starts2(s, '*', '/')
  }

  predicate NoDelimiter(text: string, after: string) {
    text == [] || (!Delimiter(text + after) && NoDelimiter(text[1..], after))
  }

  predicate PartsProper(parts: seq<Part>, after: string) {
    parts == [] ||
    var tail := RenderParts(parts[1..]) + after;
    && (match parts[0]
        case Prose(text) => NoDelimiter(text, tail)
        case Nested(inner) => PartsProper(inner, "*/" + tail))
    && PartsProper(parts[1..], after)
  }

  predicate RawBodyStays(body: string, hashes: nat, after: string) {
    body == [] || (!RawCloses(body + after, hashes) && RawBodyStays(body[1..], hashes, after))
  }

  predicate ItemsProper(items: seq<Item>, quote: char) {
    forall i :: i in items && i.Plain? ==> i.c != quote && i.c != '\\'
  }

  predicate TokenProper(t: Token, after: string) {
    match t
    case CodeText(_) => true
    case LineNote(body) => '\n' !in body && (after == [] || after[0] == '\n')
    case BlockNote(parts) => PartsProper(parts, "*/" + after)
    case Quoted(items) => ItemsProper(items, '"')
    case RawQuoted(hashes, body) => RawBodyStays(body, hashes, "\"" + Hashes(hashes) + after)
    case CharLit(items) => ItemsProper(items, '\'')
  }

  predicate Proper(ts: seq<Token>) {
    ts == [] || (TokenProper(ts[0], Render(ts[1..])) && Proper(ts[1..]))
  }

  // ----- How far the stripper's heuristics reach -----

  /** No construct seems to begin inside `text` when `after` follows it. */
  predicate NothingOpens(text: string, after: string) {
    text == [] || (Inert(text + after) && NothingOpens(text[1..], after))
  }

  /** Code opens nothing, and a char literal is noticed. */
  predicate TokenReads(t: Token, after: string) {
    match t
    case CodeText(text) => NothingOpens(text, after)
    case CharLit(_) => CharOpens(RenderToken(t) + after)
    case _ => true
  }

  predicate Reads(ts: seq<Token>) {
    ts == [] || (TokenReads(ts[0], Render(ts[1..])) && Reads(ts[1..]))
  }

  // ----- One construct at a time -----

  lemma BlanksAppend(a: string, b: string)
    ensures Blanks(a + b) == Blanks(a) + Blanks(b)
  {
  }

  /** A single turn that consumes all of `head`. */
  lemma Turned(head: string, rest: string, m: Mode, r: Move)
    requires head != [] && r == Step(head + rest, m) && r.take == |head|
    ensures Strip(head + rest, m) == r.out + Strip(rest, r.next)
  {
    assert (head + rest)[|head|..] == rest;
  }

  lemma CodeTurn(s: string)
    requires s != []
    ensures Inert(s) ==> Strip(s, Code) == [s[0]] + Strip(s[1..], Code)
    ensures !Inert(s) ==> Strip(s, Code)[0] == ' ' != s[0]
  {
  }

  /** Code is copied if and only if nothing seems to begin inside it. */
  lemma {:induction false} CodeCopied(text: string, after: string)
    ensures Strip(text + after, Code)[..|text|] == text <==> NothingOpens(text, after)
    ensures NothingOpens(text, after) ==> Strip(text + after, Code) == text + Strip(after, Code)
  {
    hide Strip, Inert;
    if text == [] {
      assert text + after == after;
    } else {
      var s, u := text + after, Strip(text[1..] + after, Code);
      assert s[1..] == text[1..] + after;
      CodeTurn(s);
      if Inert(s) {
        CodeCopied(text[1..], after);
        assert ([s[0]] + u)[..|text|] == [text[0]] + u[..|text[1..]|];
        assert [text[0]] + (text[1..] + Strip(after, Code)) == text + Strip(after, Code);
        assert text == [text[0]] + text[1..];
      } else {
        assert Strip(s, Code)[..|text|][0] == ' ';
      }
    }
  }

  lemma LineNoteEnds(after: string)
    requires after == [] || after[0] == '\n'
    ensures Strip(after, LineComment) == Strip(after, Code)
  {
    if after != [] {
      assert Step(after, LineComment) == Step(after, Code);
    }
  }

  lemma {:induction false} LineNoteBlanked(body: string, after: string)
    requires '\n' !in body && (after == [] || after[0] == '\n')
    ensures Strip(body + after, LineComment) == Blanks(body) + Strip(after, Code)
  {
    hide Strip;
    if body == [] {
      assert body + after == after;
      LineNoteEnds(after);
    } else {
      assert body + after == [body[0]] + (body[1..] + after);
      Turned([body[0]], body[1..] + after, LineComment, Move(1, [Blank(body[0])], LineComment));
      LineNoteBlanked(body[1..], after);
      assert Blanks(body) == [Blank(body[0])] + Blanks(body[1..]);
    }
  }

  lemma {:induction false} ProseBlanked(text: string, outer: nat, after: string)
    requires NoDelimiter(text, after)
    ensures Strip(text + after, Block(outer)) == Blanks(text) + Strip(after, Block(outer))
  {
    hide Strip;
    if text == [] {
      assert text + after == after;
    } else {
      assert text + after == [text[0]] + (text[1..] + after);
      Turned([text[0]], text[1..] + after, Block(outer), Move(1, [Blank(text[0])], Block(outer)));
      ProseBlanked(text[1..], outer, after);
      assert Blanks(text) == [Blank(text[0])] + Blanks(text[1..]);
    }
  }

  lemma DelimitedBlanks(body: string)
    ensures Blanks("/*" + body + "*/") == Spaces(2) + Blanks(body) + Spaces(2)
  {
  }

  /** A whole nested comment, at any depth, is blanked and hands back the depth it found. */
  lemma {:induction false} NestedBlanked(inner: seq<Part>, outer: nat, after: string)
    requires PartsProper(inner, "*/" + after)
    ensures Strip(RenderPart(Nested(inner)) + after, Block(outer))
         == Blanks(RenderPart(Nested(inner))) + Strip(after, Block(outer))
    decreases inner, 1
  {
    hide Strip, Blanks, Spaces;
    var body, rest := RenderParts(inner), Strip(after, Block(outer));
    assert RenderPart(Nested(inner)) + after == "/*" + (body + ("*/" + after));
    Turned("/*", body + ("*/" + after), Block(outer), Move(2, Spaces(2), Block(outer + 1)));
    PartsBlanked(inner, outer + 1, "*/" + after);
    Turned("*/", after, Block(outer + 1), Move(2, Spaces(2), Block(outer)));
    DelimitedBlanks(body);
    assert Spaces(2) + (Blanks(body) + (Spaces(2) + rest)) == Spaces(2) + Blanks(body) + Spaces(2) + rest;
  }

  lemma {:induction false} PartsBlanked(parts: seq<Part>, outer: nat, after: string)
    requires PartsProper(parts, after)
    ensures Strip(RenderParts(parts) + after, Block(outer))
         == Blanks(RenderParts(parts)) + Strip(after, Block(outer))
    decreases parts, 0
  {
    hide Strip, Step, Blanks, NoDelimiter;
    if parts == [] {
      assert RenderParts(parts) + after == after;
    } else {
      var head, tail := RenderPart(parts[0]), RenderParts(parts[1..]);
      assert RenderParts(parts) + after == head + (tail + after);
      match parts[0] {
        case Prose(text) => ProseBlanked(text, outer, tail + after);
        case Nested(inner) => NestedBlanked(inner, outer, tail + after);
      }
      PartsBlanked(parts[1..], outer, after);
      BlanksAppend(head, tail);
      assert Blanks(head) + (Blanks(tail) + Strip(after, Block(outer))) == Blanks(head) + Blanks(tail) + Strip(after, Block(outer));
    }
  }

  lemma ItemBlanked(c: char, rest: string)
    ensures c != '"' && c != '\\' ==> Strip([c] + rest, Str(false)) == Blanks([c]) + Strip(rest, Str(false))
    ensures Strip(['\\'] + ([c] + rest), Str(false)) == Blanks(['\\', c]) + Strip(rest, Str(false))
  {
    hide Strip;
    if c != '"' && c != '\\' {
      Turned([c], rest, Str(false), Move(1, [Blank(c)], Str(false)));
      assert Blanks([c]) == [Blank(c)];
    }
    Turned(['\\'], [c] + rest, Str(false), Move(1, [Blank('\\')], Str(true)));
    Turned([c], rest, Str(true), Move(1, [Blank(c)], Str(false)));
    assert Blanks(['\\', c]) == [Blank('\\')] + [Blank(c)];
  }

  lemma {:induction false} ItemsBlanked(items: seq<Item>, after: string)
    requires ItemsProper(items, '"')
    ensures Strip(RenderItems(items) + after, Str(false)) == Blanks(RenderItems(items)) + Strip(after, Str(false))
  {
    hide Strip, Step, Blanks;
    if items == [] {
      assert RenderItems(items) + after == after;
    } else {
      var tail := RenderItems(items[1..]);
      match items[0] {
        case Plain(c) =>
          assert RenderItems(items) + after == [c] + (tail + after);
          ItemBlanked(c, tail + after);
          BlanksAppend([c], tail);
        case Escape(c) =>
          assert RenderItems(items) + after == ['\\'] + ([c] + (tail + after));
          ItemBlanked(c, tail + after);
          BlanksAppend(['\\', c], tail);
      }
      ItemsBlanked(items[1..], after);
    }
  }

  lemma CharItemBlanked(c: char, rest: string)
    ensures c != '\'' && c != '\\' ==> Strip([c] + rest, Chr(false)) == [Blank(c)] + Strip(rest, Chr(false))
    ensures Strip(['\\'] + ([c] + rest), Chr(false)) == "  " + Strip(rest, Chr(false))
  {
    hide Strip;
    if c != '\'' && c != '\\' {
      Turned([c], rest, Chr(false), Move(1, [Blank(c)], Chr(false)));
    }
    Turned(['\\'], [c] + rest, Chr(false), Move(1, " ", Chr(true)));
    Turned([c], rest, Chr(true), Move(1, " ", Chr(false)));
  }

  lemma {:induction false} CharItemsBlanked(items: seq<Item>, after: string)
    requires ItemsProper(items, '\'')
    ensures Strip(RenderItems(items) + after, Chr(false)) == BlankCharItems(items) + Strip(after, Chr(false))
  {
    hide Strip, Step;
    if items == [] {
      assert RenderItems(items) + after == after;
    } else {
      var tail, blanked := RenderItems(items[1..]), BlankCharItems(items[1..]);
      var head := match items[0] case Plain(c) => [c] case Escape(c) => ['\\'] + [c];
      var blank := match items[0] case Plain(c) => [Blank(c)] case Escape(c) => "  ";
      assert RenderItems(items) == head + tail && BlankCharItems(items) == blank + blanked;
      CharItemsBlanked(items[1..], after);
      hide RenderItems, BlankCharItems;
      assert head + tail + after == head + (tail + after);
      match items[0] {
        case Plain(c) => CharItemBlanked(c, tail + after);
        case Escape(c) =>
          CharItemBlanked(c, tail + after);
          assert ['\\'] + [c] + (tail + after) == ['\\'] + ([c] + (tail + after));
      }
      assert blank + (blanked + Strip(after, Chr(false))) == blank + blanked + Strip(after, Chr(false));
    }
  }

  lemma {:induction false} RawBodyBlanked(body: string, hashes: nat, after: string)
    requires RawBodyStays(body, hashes, after)
    ensures Strip(body + after, Raw(hashes)) == Blanks(body) + Strip(after, Raw(hashes))
  {
    hide Strip;
    if body == [] {
      assert body + after == after;
    } else {
      assert body + after == [body[0]] + (body[1..] + after);
      Turned([body[0]], body[1..] + after, Raw(hashes), Move(1, [Blank(body[0])], Raw(hashes)));
      RawBodyBlanked(body[1..], hashes, after);
      assert Blanks(body) == [Blank(body[0])] + Blanks(body[1..]);
    }
  }

  lemma RawEnds(hashes: nat, rest: string)
    ensures Strip("r" + Hashes(hashes) + "\"" + rest, Code) == Spaces(hashes + 2) + Strip(rest, Raw(hashes))
    ensures Strip("\"" + Hashes(hashes) + rest, Raw(hashes)) == Spaces(1 + hashes) + Strip(rest, Code)
  {
    hide Strip;
    var open, close := "r" + Hashes(hashes) + "\"", "\"" + Hashes(hashes);
    HashRunIs((open + rest)[1..], hashes);
    Turned(open, rest, Code, Move(hashes + 2, Spaces(hashes + 2), Raw(hashes)));
    assert (close + rest)[..1 + hashes] == close;
    Turned(close, rest, Raw(hashes), Move(1 + hashes, Spaces(1 + hashes), Code));
  }

  lemma RawShape(hashes: nat, body: string, after: string)
    ensures var open, close := "r" + Hashes(hashes) + "\"", "\"" + Hashes(hashes);
            && RenderToken(RawQuoted(hashes, body)) == open + body + close
            && RenderToken(RawQuoted(hashes, body)) + after == open + (body + (close + after))
            && Blanks(open + body + close) == Spaces(hashes + 2) + Blanks(body) + Spaces(1 + hashes)
  {
  }

  lemma RawQuotedBlanked(hashes: nat, body: string, after: string)
    requires RawBodyStays(body, hashes, "\"" + Hashes(hashes) + after)
    ensures Strip(RenderToken(RawQuoted(hashes, body)) + after, Code)
         == Blanks(RenderToken(RawQuoted(hashes, body))) + Strip(after, Code)
  {
    hide Strip, Step, RawCloses, Blanks, Spaces, RenderToken;
    var open, close := "r" + Hashes(hashes) + "\"", "\"" + Hashes(hashes);
    var token, rest := RenderToken(RawQuoted(hashes, body)), Strip(after, Code);
    RawShape(hashes, body, after);
    RawEnds(hashes, body + (close + after));
    RawBodyBlanked(body, hashes, close + after);
    RawEnds(hashes, after);
    assert Spaces(hashes + 2) + (Blanks(body) + (Spaces(1 + hashes) + rest))
        == Spaces(hashes + 2) + Blanks(body) + Spaces(1 + hashes) + rest;
  }

  /** A string, or a char literal that is noticed. */
  lemma LiteralBlanked(t: Token, after: string)
    requires (t.Quoted? || t.CharLit?) && TokenProper(t, after) && TokenReads(t, after)
    ensures Strip(RenderToken(t) + after, Code) == BlankToken(t) + Strip(after, Code)
  {
    hide Strip;
    var quote := if t.Quoted? then "\"" else "'";
    var body := RenderItems(t.items);
    var inside := if t.Quoted? then Str(false) else Chr(false);
    assert RenderToken(t) + after == quote + (body + (quote + after));
    Turned(quote, body + (quote + after), Code, Move(1, " ", inside));
    if t.Quoted? {
      ItemsBlanked(t.items, quote + after);
      assert BlankToken(t) == " " + Blanks(body) + " ";
    } else {
      CharItemsBlanked(t.items, quote + after);
    }
    Turned(quote, after, inside, Move(1, " ", Code));
  }

  lemma WholeLineNoteBlanked(body: string, after: string)
    requires TokenProper(LineNote(body), after)
    ensures Strip(RenderToken(LineNote(body)) + after, Code) == Blanks("//" + body) + Strip(after, Code)
  {
    hide Strip;
    assert RenderToken(LineNote(body)) + after == "//" + (body + after);
    Turned("//", body + after, Code, Move(2, Spaces(2), LineComment));
    LineNoteBlanked(body, after);
    BlanksAppend("//", body);
    assert Blanks("//") == Spaces(2);
  }

  lemma BlockEnds(rest: string)
    ensures Strip("/*" + rest, Code) == Spaces(2) + Strip(rest, Block(0))
    ensures Strip("*/" + rest, Block(0)) == Spaces(2) + Strip(rest, Code)
  {
    hide Strip;
    Turned("/*", rest, Code, Move(2, Spaces(2), Block(0)));
    Turned("*/", rest, Block(0), Move(2, Spaces(2), Code));
  }

  lemma WholeBlockNoteBlanked(parts: seq<Part>, after: string)
    requires TokenProper(BlockNote(parts), after)
    ensures Strip(RenderToken(BlockNote(parts)) + after, Code)
         == Blanks(RenderToken(BlockNote(parts))) + Strip(after, Code)
  {
    hide Strip, Step, Blanks, Spaces;
    var body, rest := RenderParts(parts), Strip(after, Code);
    assert RenderToken(BlockNote(parts)) + after == "/*" + (body + ("*/" + after));
    BlockEnds(body + ("*/" + after));
    PartsBlanked(parts, 0, "*/" + after);
    BlockEnds(after);
    DelimitedBlanks(body);
    assert Spaces(2) + (Blanks(body) + (Spaces(2) + rest)) == Spaces(2) + Blanks(body) + Spaces(2) + rest;
  }

  /** A proper token comes back blanked, and code mode with it, if and only if the heuristics read it. */
  lemma TokenBlanked(t: Token, after: string)
    requires TokenProper(t, after)
    ensures Strip(RenderToken(t) + after, Code)[..|RenderToken(t)|] == BlankToken(t) <==> TokenReads(t, after)
    ensures TokenReads(t, after) ==> Strip(RenderToken(t) + after, Code) == BlankToken(t) + Strip(after, Code)
  {
    if t.CharLit? && !TokenReads(t, after) {
      assert Strip(RenderToken(t) + after, Code)[0] == '\'' != BlankToken(t)[0];
      return;
    }
    hide Strip, Step;
    match t {
      case CodeText(text) => CodeCopied(text, after);
      case LineNote(body) => WholeLineNoteBlanked(body, after);
      case BlockNote(parts) => WholeBlockNoteBlanked(parts, after);
      case RawQuoted(hashes, body) => RawQuotedBlanked(hashes, body, after);
      case Quoted(_) => LiteralBlanked(t, after);
      case CharLit(_) => LiteralBlanked(t, after);
    }
  }

  /** Lexing undoes printing if and only if the heuristics read every token. */
  lemma {:induction false} StripUndoesRender(ts: seq<Token>)
    requires Proper(ts)
    ensures Strip(Render(ts), Code) == BlankTokens(ts) <==> Reads(ts)
  {
    hide Strip, RenderToken, BlankToken, TokenProper, TokenReads;
    if ts == [] {
      NothingLeft(Render(ts), Code);
    } else {
      var n := |RenderToken(ts[0])|;
      TokenBlanked(ts[0], Render(ts[1..]));
      StripUndoesRender(ts[1..]);
      assert BlankTokens(ts)[..n] == BlankToken(ts[0]) && BlankTokens(ts)[n..] == BlankTokens(ts[1..]);
    }
  }

  lemma {:induction false} InsideChar(body: string, after: string)
    requires '\'' !in body && '\\' !in body
    ensures Strip(body + after, Chr(false)) == Blanks(body) + Strip(after, Chr(false))
  {
    hide Strip;
    if body == [] {
      assert body + after == after;
    } else {
      assert body + after == [body[0]] + (body[1..] + after);
      CharItemBlanked(body[0], body[1..] + after);
      InsideChar(body[1..], after);
      assert Blanks(body) == [Blank(body[0])] + Blanks(body[1..]);
    }
  }

  /** Any two apostrophes of code with fewer than five characters between them are taken for a char literal. */
  lemma NearApostrophesEaten(body: string, after: string)
    requires |body| < 5 && '\'' !in body && '\\' !in body
    ensures Strip("'" + (body + ("'" + after)), Code) == " " + Blanks(body) + " " + Strip(after, Code)
  {
    hide Strip, Blanks;
    var s := "'" + (body + ("'" + after));
    assert s[1 + |body|] == '\'';
    Turned("'", body + ("'" + after), Code, Move(1, " ", Chr(false)));
    InsideChar(body, "'" + after);
    Turned("'", after, Chr(false), Move(1, " ", Code));
  }

  /** Lifetimes are code, and two of them so near are blanked. */
  lemma LifetimesEaten()
    ensures Strip("'a, 'b>", Code) == "     b>"
    ensures !Reads([CodeText("'a, 'b>")])
  {
    hide Strip;
    NearApostrophesEaten("a, ", "b>");
    assert "'" + ("a, " + ("'" + "b>")) == "'a, 'b>";
    assert Blanks("a, ") == "   ";
    QuietCode("b>", []);
    CodeCopied("b>", []);
    NothingLeft([], Code);
    assert "b>" + [] == "b>" && "'a, 'b>" + [] == "'a, 'b>";
    CodeCopied("'a, 'b>", []);
  }

  lemma {:induction false} QuietCode(text: string, after: string)
    requires forall c :: c in text ==> c !in "/\"'r"
    ensures NothingOpens(text, after)
  {
    if text != [] {
      assert text[0] in text;
      QuietCode(text[1..], after);
    }
  }

  predicate HexDigits(digits: string) {
    forall c :: c in digits ==> '0' <= c <= '9' || 'a' <= c <= 'f' || 'A' <= c <= 'F'
  }

  /** A char literal that is a unicode escape is copied, and its closing quote is looked at as an opening one. */
  lemma UnicodeEscapeMissed(digits: string, after: string)
    requires digits != [] && HexDigits(digits)
    ensures var copied := "'\\u{" + digits + "}";
            Strip(copied + ("'" + after), Code) == copied + Strip("'" + after, Code)
  {
    var copied, rest := "'\\u{" + digits + "}", "'" + after;
    hide Strip;
    var s := copied + rest;
    assert digits[0] in digits && (|digits| > 1 ==> digits[1] in digits);
    assert s[4] == digits[0] && s[5] == if |digits| > 1 then digits[1] else '}';
    assert s[0] == '\'' && s[1] == '\\' && s[2] == 'u' && s[3] == '{';
    assert !CharOpens(s);
    assert Inert(s);
    assert copied[1..] == "\\u{" + digits + "}";
    QuietCode(copied[1..], rest);
    CodeCopied(copied, rest);
  }

  /** So in `'\u{41}', '"'}` the quote of the second literal opens a string, which hides the brace. */
  lemma QuoteLiteralOpensString()
    ensures Strip("'\\u{41}', '\"'}", Code) == "'\\u{41}       "
  {
    hide Strip;
    var after := "\"'}";
    UnicodeEscapeMissed("41", ", '\"'}");
    NearApostrophesEaten(", ", after);
    assert ", " + ("'" + after) == ", '\"'}";
    assert Blanks(", ") == "  ";
    assert after == ['"'] + "'}" && "'}" == ['\''] + "}" && "}" == ['}'] + [];
    Turned(['"'], "'}", Code, Move(1, " ", Str(false)));
    ItemBlanked('\'', "}");
    ItemBlanked('}', []);
    NothingLeft([], Str(false));
    assert "'\\u{" + "41" + "}" == "'\\u{41}";
    assert "'\\u{41}', '\"'}" == "'\\u{41}" + ("'" + ", '\"'}");
  }

  // ----- Block comments close at the matching delimiter and nowhere earlier -----

  /** The mode in force when the character at `p` is reached, starting from `m`. */
  function ModeAt(s: string, m: Mode, p: nat): Mode
    requires p <= |s|
    decreases |s|
  {
    if s == [] then m else
    var r := Step(s, m);
    if p < r.take then m else ModeAt(s[r.take..], r.next, p - r.take)
  }

  lemma TurnedMode(head: string, rest: string, m: Mode, r: Move, p: nat)
    requires head != [] && r == Step(head + rest, m) && r.take == |head|
    requires p <= |head| + |rest|
    ensures ModeAt(head + rest, m, p) == if p < |head| then m else ModeAt(rest, r.next, p - |head|)
  {
    assert (head + rest)[|head|..] == rest;
  }

  lemma {:induction false} ProseMode(text: string, outer: nat, after: string, p: nat)
    requires NoDelimiter(text, after) && p <= |text| + |after|
    ensures ModeAt(text + after, Block(outer), p)
         == if p < |text| then Block(outer) else ModeAt(after, Block(outer), p - |text|)
  {
    hide ModeAt;
    if text == [] {
      assert text + after == after;
    } else {
      assert text + after == [text[0]] + (text[1..] + after);
      TurnedMode([text[0]], text[1..] + after, Block(outer), Move(1, [Blank(text[0])], Block(outer)), p);
      if p > 0 {
        ProseMode(text[1..], outer, after, p - 1);
      }
    }
  }

  /** Inside the parts the depth never drops below where it started; after them it is back there. */
  lemma {:induction false} PartsMode(parts: seq<Part>, outer: nat, after: string, p: nat)
    requires PartsProper(parts, after) && p <= |RenderParts(parts)| + |after|
    ensures var m := ModeAt(RenderParts(parts) + after, Block(outer), p);
            if p < |RenderParts(parts)| then m.Block? && m.outer >= outer
            else m == ModeAt(after, Block(outer), p - |RenderParts(parts)|)
    decreases parts, 0
  {
    hide ModeAt;
    if parts == [] {
      assert RenderParts(parts) + after == after;
    } else {
      var head, tail := RenderPart(parts[0]), RenderParts(parts[1..]);
      assert RenderParts(parts) + after == head + (tail + after);
      match parts[0] {
        case Prose(text) => ProseMode(text, outer, tail + after, p);
        case Nested(inner) =>
          var body, rest := RenderParts(inner), "*/" + (tail + after);
          assert head + (tail + after) == "/*" + (body + rest);
          TurnedMode("/*", body + rest, Block(outer), Move(2, Spaces(2), Block(outer + 1)), p);
          if p >= 2 {
            PartsMode(inner, outer + 1, rest, p - 2);
            if p - 2 >= |body| {
              TurnedMode("*/", tail + after, Block(outer + 1), Move(2, Spaces(2), Block(outer)), p - 2 - |body|);
            }
          }
      }
      if p >= |head| {
        PartsMode(parts[1..], outer, after, p - |head|);
      }
    }
  }

  /** Block-comment mode holds from just after the opening delimiter up to the matching one. */
  lemma BlockEndsAtMatch(parts: seq<Part>, after: string, p: nat)
    requires PartsProper(parts, "*/" + after)
    requires p <= |RenderToken(BlockNote(parts))| + |after|
    ensures var token := RenderToken(BlockNote(parts));
            var m := ModeAt(token + after, Code, p);
            && (2 <= p < |token| ==> m.Block?)
            && (p >= |token| ==> m == ModeAt(after, Code, p - |token|))
  {
    hide ModeAt;
    var body, rest := RenderParts(parts), "*/" + after;
    assert RenderToken(BlockNote(parts)) + after == "/*" + (body + rest);
    TurnedMode("/*", body + rest, Code, Move(2, Spaces(2), Block(0)), p);
    if p >= 2 {
      PartsMode(parts, 0, rest, p - 2);
      if p - 2 >= |body| {
        TurnedMode("*/", after, Block(0), Move(2, Spaces(2), Code), p - 2 - |body|);
      }
    }
  }

  // ----- Newlines -----

  lemma FrontOf(s: string, m: Mode)
    requires s != []
    ensures Strip(s, m)[0] == Step(s, m).out[0] && ModeAt(s, m, 0) == m
  {
  }

  lemma BeyondFront(s: string, m: Mode, p: nat)
    requires s != [] && Step(s, m).take <= p < |s|
    ensures var r := Step(s, m);
            && Strip(s, m)[p] == Strip(s[r.take..], r.next)[p - r.take]
            && ModeAt(s, m, p) == ModeAt(s[r.take..], r.next, p - r.take)
  {
    hide Step;
    var r := Step(s, m);
    assert Strip(s, m) == r.out + Strip(s[r.take..], r.next);
  }

  /** A newline or a tab survives unless it is the escaped character of a char literal. */
  lemma {:induction false} NewlineKept(s: string, m: Mode, p: nat)
    requires p < |s| && (s[p] == '\n' || s[p] == '\t')
    ensures Strip(s, m)[p] == s[p] <==> ModeAt(s, m, p) != Chr(true)
    ensures ModeAt(s, m, p) == Chr(true) ==> (p == 0 && m == Chr(true)) || (p > 0 && s[p - 1] == '\\')
    decreases |s|
  {
    hide Strip, ModeAt;
    var r := Step(s, m);
    if p == 0 {
      FrontOf(s, m);
    } else if p < r.take {
      assert false by { NoNewlineInDelimiters(s, m, p); }
    } else {
      BeyondFront(s, m, p);
      NewlineKept(s[r.take..], r.next, p - r.take);
      if p > r.take {
        assert s[r.take..][p - r.take - 1] == s[p - 1];
      }
    }
  }

  lemma NoNewlineInDelimiters(s: string, m: Mode, p: nat)
    requires s != [] && 0 < p < Step(s, m).take
    ensures s[p] != '\n' && s[p] != '\t'
  {
    if m.Raw? {
      assert s[p] == (s[..1 + m.hashes])[p] == ("\"" + Hashes(m.hashes))[p];
    } else if m == Code && RawOpens(s) {
      var h := HashRun(s[1..]);
      if p <= h {
        assert s[1..][p - 1] == '#';
      }
    }
  }

  /** Line numbers are stable on every text without a backslash at the end of a line. */
  lemma LineNumbersStable(src: string)
    requires forall p :: 0 < p < |src| && src[p] == '\n' ==> src[p - 1] != '\\'
    ensures forall p :: 0 <= p < |src| ==> (Strip(src, Code)[p] == '\n' <==> src[p] == '\n')
  {
    StripFades(src, Code);
    forall p | 0 <= p < |src| && src[p] == '\n'
      ensures Strip(src, Code)[p] == '\n'
    {
      NewlineKept(src, Code, p);
    }
  }

  /** The one way a newline is lost, against the script's own promise: quote, backslash, newline, quote. */
  lemma LostNewline()
    ensures var src := ['\'', '\\', '\n', '\''];
            Strip(src, Code) == "    "
  {
    hide Strip;
    var src := ['\'', '\\', '\n', '\''];
    assert src[3] == '\'';
    assert CharOpens(src);
    assert src == ['\''] + ['\\', '\n', '\''];
    Turned(['\''], ['\\', '\n', '\''], Code, Move(1, " ", Chr(false)));
    CharItemBlanked('\n', ['\'']);
    assert ['\\', '\n', '\''] == ['\\'] + (['\n'] + ['\'']);
    assert ['\''] == ['\''] + [];
    Turned(['\''], [], Chr(false), Move(1, " ", Code));
    NothingLeft([], Code);
  }
}
