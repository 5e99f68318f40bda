/** Converting Markdown to the HTML subset that Telegram accepts. */
module TelegramHtml {
  import opened Strings

  // ---------- Escaping ----------

  function EscapeChar(c: char): Text {
    if c == '&' then "&amp;" else if c == '<' then "&lt;" else if c == '>' then "&gt;" else [c]
  }

  function EscapeHTML(s: Text): Text {
    if s == [] then [] else EscapeChar(s[0]) + EscapeHTML(s[1..])
  }

  // Text without tags, in which every ampersand starts one of the three entities.
  predicate Escaped(t: Text) {
    if t == [] then true
    else if "&amp;" <= t then Escaped(t[5..])
    else if "&lt;" <= t then Escaped(t[4..])
    else if "&gt;" <= t then Escaped(t[4..])
    else t[0] !in {'&', '<', '>'} && Escaped(t[1..])
  }

  // What a reader sees of escaped text.
  function Unescape(t: Text): Text {
    if t == [] then []
    else if "&amp;" <= t then "&" + Unescape(t[5..])
    else if "&lt;" <= t then "<" + Unescape(t[4..])
    else if "&gt;" <= t then ">" + Unescape(t[4..])
    else [t[0]] + Unescape(t[1..])
  }

  /** Escaping removes every special character and loses nothing. */
  lemma {:induction false} EscapeRoundTrip(s: Text)
    ensures Escaped(EscapeHTML(s)) && Unescape(EscapeHTML(s)) == s
  {
    if s != [] {
      EscapeRoundTrip(s[1..]);
      var head, rest, all := EscapeChar(s[0]), EscapeHTML(s[1..]), EscapeHTML(s);
      assert all[|head|..] == rest;
      assert all[0] == head[0];
      assert s == [s[0]] + s[1..];
      if s[0] == '&' {
        assert "&amp;" <= all;
      } else if s[0] == '<' {
        assert all[1] == 'l';
        assert "&lt;" <= all;
      } else if s[0] == '>' {
        assert all[1] == 'g';
        assert "&gt;" <= all;
      }
    }
  }

  // ---------- Output as tags and text ----------

  datatype Name = Bold | Italic | Code | Pre

  function OpenTag(n: Name): Text {
    match n case Bold => "<b>" case Italic => "<i>" case Code => "<code>" case Pre => "<pre>"
  }

  function CloseTag(n: Name): Text {
    match n case Bold => "</b>" case Italic => "</i>" case Code => "</code>" case Pre => "</pre>"
  }

  // Code tags, and only those, may carry the language of a fence.
  datatype Piece = Txt(text: Text) | Open(name: Name, lang: Text) | Close(name: Name)

  function LanguageTag(lang: Text): Text {
    ATTRIBUTE + ("language-" + EscapeHTML(lang) + "\">")
  }

  const ATTRIBUTE: Text := "<code class=\""

  function RenderPiece(p: Piece): Text {
    match p
    case Txt(text) => text
    case Open(name, lang) => if lang == [] then OpenTag(name) else LanguageTag(lang)
    case Close(name) => CloseTag(name)
  }

  function Render(pieces: seq<Piece>): Text {
    if pieces == [] then [] else RenderPiece(pieces[0]) + Render(pieces[1..])
  }

  lemma ConcatAssoc(x: Text, y: Text, z: Text)
    ensures (x + y) + z == x + (y + z)
  {
  }

  lemma RenderCons(p: Piece, rest: seq<Piece>)
    ensures Render([p] + rest) == RenderPiece(p) + Render(rest)
  {
    assert ([p] + rest)[1..] == rest;
  }

  lemma {:induction false} RenderConcat(a: seq<Piece>, b: seq<Piece>)
    ensures Render(a + b) == Render(a) + Render(b)
  {
    if a == [] {
      assert a + b == b;
    } else {
      var p, rest := a[0], a[1..];
      assert a + b == [p] + (rest + b) && a == [p] + rest;
      RenderConcat(rest, b);
      RenderJoins(p, rest, b);
    }
  }

  lemma RenderJoins(p: Piece, rest: seq<Piece>, b: seq<Piece>)
    requires Render(rest + b) == Render(rest) + Render(b)
    ensures Render([p] + (rest + b)) == Render([p] + rest) + Render(b)
  {
    RenderCons(p, rest + b);
    RenderCons(p, rest);
    ConcatAssoc(RenderPiece(p), Render(rest), Render(b));
  }

  // Tags never nest, except that code may stand directly inside pre.
  predicate MayOpen(stack: seq<Name>, n: Name) {
    stack == [] || (stack == [Pre] && n == Code)
  }

  // The open tags after reading the pieces; None if a tag is misplaced or text is not escaped.
  datatype Reading = Wrong | At(stack: seq<Name>)

  function ReadPiece(r: Reading, p: Piece): Reading {
    if r.Wrong? then Wrong
    else match p
         case Txt(text) => if Escaped(text) then r else Wrong
         case Open(name, lang) =>
           if MayOpen(r.stack, name) && (lang != [] ==> name == Code) then At(r.stack + [name]) else Wrong
         case Close(name) =>
           if r.stack != [] && r.stack[|r.stack| - 1] == name then At(r.stack[..|r.stack| - 1]) else Wrong
  }

  function Read(r: Reading, pieces: seq<Piece>): Reading
    decreases |pieces|
  {
    if pieces == [] then r else Read(ReadPiece(r, pieces[0]), pieces[1..])
  }

  lemma {:induction false} ReadConcat(r: Reading, a: seq<Piece>, b: seq<Piece>)
    ensures Read(r, a + b) == Read(Read(r, a), b)
    decreases |a|
  {
    if a == [] {
      assert a + b == b;
    } else {
      ReadConcat(ReadPiece(r, a[0]), a[1..], b);
      assert (a + b)[1..] == a[1..] + b;
    }
  }

  // Balanced, properly nested, and escaped everywhere outside the tags.
  ghost predicate Balanced(pieces: seq<Piece>) {
    Read(At([]), pieces) == At([])
  }

  // ---------- Inline Markdown ----------

  datatype Span = Plain(c: char) | CodeSpan(text: Text) | BoldSpan(text: Text) | ItalicSpan(text: Text)

  // The offset of the closing marker after an opening one, or -1.
  function CodeEnd(line: Text): int
    requires line != []
  {
    if line[0] == '`' then Index(line[1..], "`") else -1
  }

  function BoldEnd(line: Text): int {
    if "**" <= line then Index(line[2..], "**") else -1
  }

  function ItalicEnd(line: Text): int
    requires line != []
  {
    var end := if line[0] == '*' && !("**" <= line) then Index(line[1..], "*") else -1;
    if end > 0 && end + 2 < |line| && line[end + 2] == '*' then -1 else end
  }

  // The span at the start of a nonempty line: code first, then nonempty bold, then nonempty italic.
  function NextSpan(line: Text): (s: Span)
    requires line != []
    ensures 0 < |SourceOf(s)| <= |line|
  {
    var code, bold, italic := CodeEnd(line), BoldEnd(line), ItalicEnd(line);
    if code >= 0 then CodeSpan(line[1..1 + code])
    else if bold > 0 then BoldSpan(line[2..2 + bold])
    else if italic > 0 then ItalicSpan(line[1..1 + italic])
    else Plain(line[0])
  }

  lemma SpanIsPrefix(line: Text)
    requires line != []
    ensures line[..|SourceOf(NextSpan(line))|] == SourceOf(NextSpan(line))
  {
    if CodeEnd(line) >= 0 {
      Enclosed(line, "`", CodeEnd(line));
    } else if BoldEnd(line) > 0 {
      Enclosed(line, "**", BoldEnd(line));
    } else if ItalicEnd(line) > 0 {
      Enclosed(line, "*", ItalicEnd(line));
    }
  }

  lemma Enclosed(line: Text, mark: Text, end: nat)
    requires mark <= line && MatchAt(line[|mark|..], mark, end)
    ensures line[..|mark| + end + |mark|] == mark + line[|mark|..|mark| + end] + mark
  {
    var m := |mark|;
    assert line[m..][end..end + m] == line[m + end..m + end + m];
    assert line[..m + end + m] == line[..m] + line[m..m + end] + line[m + end..m + end + m];
  }

  // The Markdown a span was written as.
  function SourceOf(s: Span): Text {
    match s
    case Plain(c) => [c]
    case CodeSpan(t) => "`" + t + "`"
    case BoldSpan(t) => "**" + t + "**"
    case ItalicSpan(t) => "*" + t + "*"
  }

  function Spans(line: Text): seq<Span> {
    if line == [] then []
    else
      var s := NextSpan(line);
      [s] + Spans(line[|SourceOf(s)|..])
  }

  function Source(spans: seq<Span>): Text {
    if spans == [] then [] else SourceOf(spans[0]) + Source(spans[1..])
  }

  lemma SourceCons(s: Span, rest: seq<Span>)
    ensures Source([s] + rest) == SourceOf(s) + Source(rest)
  {
    assert ([s] + rest)[1..] == rest;
  }

  function SpanPieces(s: Span): seq<Piece> {
    match s
    case Plain(c) => [Txt(EscapeChar(c))]
    case CodeSpan(t) => [Open(Code, []), Txt(EscapeHTML(t)), Close(Code)]
    case BoldSpan(t) => [Open(Bold, []), Txt(EscapeHTML(t)), Close(Bold)]
    case ItalicSpan(t) => [Open(Italic, []), Txt(EscapeHTML(t)), Close(Italic)]
  }

  function InlinePieces(spans: seq<Span>): seq<Piece> {
    if spans == [] then [] else SpanPieces(spans[0]) + InlinePieces(spans[1..])
  }

  lemma SpansUnfold(line: Text)
    requires line != []
    ensures var s := NextSpan(line); 0 < |SourceOf(s)| <= |line| && Spans(line) == [s] + Spans(line[|SourceOf(s)|..])
  {
    hide NextSpan;
  }

  lemma SplitAt(line: Text, n: nat)
    requires n <= |line|
    ensures line == line[..n] + line[n..]
  {
  }

  /** The spans of a line spell the line: formatting drops only the markers. */
  lemma {:induction false} SpansSpellLine(line: Text)
    ensures Source(Spans(line)) == line
    decreases |line|
  {
    if line != [] {
      hide *;
      SpansUnfold(line);
      SpanIsPrefix(line);
      var s := NextSpan(line);
      var rest := line[|SourceOf(s)|..];
      SpansSpellLine(rest);
      SourceCons(s, Spans(rest));
      SplitAt(line, |SourceOf(s)|);
    }
  }

  lemma SpanReads(s: Span)
    ensures Read(At([]), SpanPieces(s)) == At([])
  {
    match s
    case Plain(c) =>
      EscapeRoundTrip([c]);
      assert EscapeHTML([c]) == EscapeChar(c);
    case CodeSpan(t) => EnclosedReads(Code, t);
    case BoldSpan(t) => EnclosedReads(Bold, t);
    case ItalicSpan(t) => EnclosedReads(Italic, t);
  }

  // Escaped text inside a single tag.
  lemma EnclosedReads(n: Name, t: Text)
    ensures Read(At([]), [Open(n, []), Txt(EscapeHTML(t)), Close(n)]) == At([])
  {
    EscapeRoundTrip(t);
    var a, b, c := Open(n, []), Txt(EscapeHTML(t)), Close(n);
    assert ReadPiece(At([]), a) == At([n]);
    assert ReadPiece(At([n]), b) == At([n]);
    assert ReadPiece(At([n]), c) == At([]);
    assert Read(At([]), [a, b, c]) == Read(At([n]), [b, c]) == Read(At([n]), [c]) == Read(At([]), []);
  }

  lemma {:induction false} InlineReads(spans: seq<Span>)
    ensures Read(At([]), InlinePieces(spans)) == At([])
  {
    if spans != [] {
      SpanReads(spans[0]);
      InlineReads(spans[1..]);
      ReadConcat(At([]), SpanPieces(spans[0]), InlinePieces(spans[1..]));
    }
  }

  lemma RenderEnclosed(n: Name, t: Text)
    ensures Render([Open(n, []), Txt(t), Close(n)]) == OpenTag(n) + t + CloseTag(n)
  {
    RenderCons(Open(n, []), [Txt(t), Close(n)]);
    RenderCons(Txt(t), [Close(n)]);
    RenderCons(Close(n), []);
    assert [Open(n, []), Txt(t), Close(n)] == [Open(n, [])] + [Txt(t), Close(n)];
    assert [Txt(t), Close(n)] == [Txt(t)] + [Close(n)];
    assert [Close(n)] == [Close(n)] + [];
    assert Render([]) == [];
  }

  lemma RenderText(t: Text)
    ensures Render([Txt(t)]) == t
  {
    RenderCons(Txt(t), []);
    assert [Txt(t)] == [Txt(t)] + [];
  }

  lemma InlineStep(line: Text)
    requires line != []
    ensures var s := NextSpan(line);
      Render(InlinePieces(Spans(line))) ==
      Render(SpanPieces(s)) + Render(InlinePieces(Spans(line[|SourceOf(s)|..])))
  {
    var s := NextSpan(line);
    var rest := Spans(line[|SourceOf(s)|..]);
    assert Spans(line) == [s] + rest && ([s] + rest)[1..] == rest;
    RenderConcat(SpanPieces(s), InlinePieces(rest));
  }

  /** formatInline: renders the spans of the line, left to right. */
  method FormatInline(line: Text) returns (out: Text)
    ensures out == Render(InlinePieces(Spans(line)))
  {
    out := [];
    var i := 0;
    assert line[0..] == line;
    while i < |line|
      invariant 0 <= i <= |line|
      invariant out + Render(InlinePieces(Spans(line[i..]))) == Render(InlinePieces(Spans(line)))
      decreases |line| - i
    {
      InlineStep(line[i..]);
      var span, n := ScanSpan(line[i..]);
      HtmlIsRendered(span);
      assert line[i..][n..] == line[i + n..];
      ConcatAssoc(out, HtmlOf(span), Render(InlinePieces(Spans(line[i + n..]))));
      out, i := out + HtmlOf(span), i + n;
    }
    assert line[|line|..] == [];
  }

  // One round of the loop on what is left of the line: the next span and its length.
  method ScanSpan(rest: Text) returns (s: Span, n: nat)
    requires rest != []
    ensures s == NextSpan(rest) && n == |SourceOf(s)|
  {
    assert "**" <= rest <==> 1 < |rest| && rest[0] == '*' && rest[1] == '*';
    if rest[0] == '`' {
      var end := Index(rest[1..], "`");
      if end >= 0 {
        return CodeSpan(rest[1..1 + end]), 1 + end + 1;
      }
    }
    if 1 < |rest| && rest[0] == '*' && rest[1] == '*' {
      var end := Index(rest[2..], "**");
      if end > 0 {
        return BoldSpan(rest[2..2 + end]), 2 + end + 2;
      }
    }
    if rest[0] == '*' && (1 >= |rest| || rest[1] != '*') {
      var end := Index(rest[1..], "*");
      if end > 0 && (1 + end + 1 >= |rest| || rest[1 + end + 1] != '*') {
        return ItalicSpan(rest[1..1 + end]), 1 + end + 1;
      }
    }
    return Plain(rest[0]), 1;
  }

  // What the loop writes for a span.
  function HtmlOf(s: Span): Text {
    match s
    case Plain(c) => EscapeChar(c)
    case CodeSpan(t) => "<code>" + EscapeHTML(t) + "</code>"
    case BoldSpan(t) => "<b>" + EscapeHTML(t) + "</b>"
    case ItalicSpan(t) => "<i>" + EscapeHTML(t) + "</i>"
  }

  lemma HtmlIsRendered(s: Span)
    ensures HtmlOf(s) == Render(SpanPieces(s))
  {
    match s
    case Plain(c) => RenderText(EscapeChar(c));
    case CodeSpan(t) => RenderEnclosed(Code, EscapeHTML(t));
    case BoldSpan(t) => RenderEnclosed(Bold, EscapeHTML(t));
    case ItalicSpan(t) => RenderEnclosed(Italic, EscapeHTML(t));
  }

  // ---------- Lines ----------

  // One to six hashes and a space.
  ghost predicate IsHeader(line: Text) {
    exists n :: 1 <= n <= 6 && HashesThenSpace(line, n)
  }

  ghost predicate HashesThenSpace(line: Text, n: nat) {
    n < |line| && line[n] == ' ' && forall j :: 0 <= j < n ==> line[j] == '#'
  }

  ghost function LinePieces(line: Text): seq<Piece> {
    if IsHeader(line) then
      [Open(Bold, []), Txt(EscapeHTML(TrimSpace(line[Index(line, " ") + 1..]))), Close(Bold)]
    else InlinePieces(Spans(line))
  }

  lemma HeaderLine(line: Text)
    requires IsHeader(line) && 0 <= Index(line, " ") < |line|
    ensures LinePieces(line) == [Open(Bold, []), Txt(EscapeHTML(TrimSpace(line[Index(line, " ") + 1..]))), Close(Bold)]
  {
    hide IsHeader;
    hide EscapeHTML;
    hide TrimSpace;
    hide Index;
  }

  lemma HeaderRendered(title: Text)
    ensures "<b>" + title + "</b>" == Render([Open(Bold, []), Txt(title), Close(Bold)])
  {
    hide Render;
    RenderEnclosed(Bold, title);
    BoldTags();
    hide OpenTag;
    hide CloseTag;
  }

  lemma InlineLine(line: Text)
    requires !IsHeader(line)
    ensures LinePieces(line) == InlinePieces(Spans(line))
  {
    hide IsHeader;
  }

  lemma BoldTags()
    ensures OpenTag(Bold) == "<b>" && CloseTag(Bold) == "</b>"
  {
  }

  method FormatLine(line: Text) returns (out: Text)
    ensures out == Render(LinePieces(line))
  {
    hide *;
    var header := ScanHeader(line);
    if header {
      var spaceIdx := Index(line, " ");
      HeaderEnd(line);
      var title := EscapeHTML(TrimSpace(line[spaceIdx + 1..]));
      HeaderLine(line);
      HeaderRendered(title);
      return "<b>" + title + "</b>";
    }
    InlineLine(line);
    out := FormatInline(line);
  }

  method ScanHeader(line: Text) returns (header: bool)
    ensures header <==> IsHeader(line)
  {
    HeaderEnd(line);
    if |line| > 0 && line[0] == '#' {
      var spaceIdx := Index(line, " ");
      if 0 < spaceIdx <= 6 {
        var allHash := true;
        for j := 0 to spaceIdx
          invariant allHash <==> forall k :: 0 <= k < j ==> line[k] == '#'
        {
          if line[j] != '#' {
            allHash := false;
          }
        }
        assert line[spaceIdx..spaceIdx + 1] == " ";
        assert allHash <==> HashesThenSpace(line, spaceIdx);
        return allHash;
      }
    }
    return false;
  }

  lemma HeaderEnd(line: Text)
    ensures IsHeader(line) ==> 1 <= Index(line, " ") <= 6 && Index(line, " ") < |line| && HashesThenSpace(line, Index(line, " "))
  {
    if n :| 1 <= n <= 6 && HashesThenSpace(line, n) {
      assert line[n..n + 1] == " ";
      assert MatchAt(line, " ", n);
      hide Index;
      var k := Index(line, " ");
      assert 0 <= k <= n && MatchAt(line, " ", k);
      assert line[k] == line[k..k + 1][0] == ' ';
      assert k == n;
    }
  }

  lemma LineReads(line: Text)
    ensures Read(At([]), LinePieces(line)) == At([])
  {
    if IsHeader(line) {
      EnclosedReads(Bold, TrimSpace(line[Index(line, " ") + 1..]));
    } else {
      InlineReads(Spans(line));
    }
  }

  // ---------- Documents ----------

  // strings.Split(text, "\n")
  function SplitLines(text: Text): (lines: seq<Text>)
    ensures |lines| > 0
  {
    var nl := Index(text, "\n");
    if nl < 0 then [text] else [text[..nl]] + SplitLines(text[nl + 1..])
  }

  predicate IsFence(line: Text) {
    "```" <= TrimSpace(line)
  }

  function FenceTag(line: Text): Text
    requires IsFence(line)
  {
    TrimSpace(TrimSpace(line)[3..])
  }

  datatype Mode = Mode(inCodeBlock: bool, firstCodeLine: bool)

  const NEWLINE: seq<Piece> := [Txt("\n")]

  ghost function PiecesOfLine(line: Text, first: bool, last: bool, m: Mode): seq<Piece> {
    if IsFence(line) then
      if !m.inCodeBlock then [Open(Pre, []), Open(Code, FenceTag(line))]
      else [Close(Code), Close(Pre)] + if last then [] else NEWLINE
    else if m.inCodeBlock then (if m.firstCodeLine then [] else NEWLINE) + [Txt(EscapeHTML(line))]
    else (if first then [] else NEWLINE) + LinePieces(line)
  }

  ghost function ModeAfter(line: Text, m: Mode): Mode {
    if IsFence(line) then
      if !m.inCodeBlock then Mode(true, true) else Mode(false, m.firstCodeLine)
    else if m.inCodeBlock then Mode(true, false)
    else m
  }

  // The pieces of the lines from i on, including the closing of a block that is left open.
  ghost function PiecesFrom(lines: seq<Text>, i: nat, m: Mode): seq<Piece>
    requires i <= |lines|
    decreases |lines| - i
  {
    if i == |lines| then (if m.inCodeBlock then [Close(Code), Close(Pre)] else [])
    else PiecesOfLine(lines[i], i == 0, i == |lines| - 1, m) + PiecesFrom(lines, i + 1, ModeAfter(lines[i], m))
  }

  ghost function DocumentPieces(text: Text): seq<Piece> {
    PiecesFrom(SplitLines(text), 0, Mode(false, true))
  }

  ghost function OpenTags(m: Mode): seq<Name> {
    if m.inCodeBlock then [Pre, Code] else []
  }

  lemma NewlineReads(stack: seq<Name>)
    ensures Read(At(stack), NEWLINE) == At(stack)
  {
    EscapeRoundTrip("\n");
    assert EscapeHTML("\n") == "\n";
    assert NEWLINE[1..] == [];
  }

  lemma BlockEndReads()
    ensures Read(At([Pre, Code]), [Close(Code), Close(Pre)]) == At([])
  {
    assert [Close(Code), Close(Pre)][1..] == [Close(Pre)];
    assert ReadPiece(At([Pre, Code]), Close(Code)) == At([Pre]);
    assert ReadPiece(At([Pre]), Close(Pre)) == At([]);
    assert [Close(Pre)][1..] == [];
  }

  lemma BlockStartReads(tag: Text)
    ensures Read(At([]), [Open(Pre, []), Open(Code, tag)]) == At([Pre, Code])
  {
    var a, b := Open(Pre, []), Open(Code, tag);
    assert ReadPiece(At([]), a) == At([Pre]);
    assert ReadPiece(At([Pre]), b) == At([Pre, Code]);
    assert Read(At([]), [a, b]) == Read(At([Pre]), [b]) == Read(At([Pre, Code]), []);
  }

  lemma LineKeepsTags(line: Text, first: bool, last: bool, m: Mode)
    ensures Read(At(OpenTags(m)), PiecesOfLine(line, first, last, m)) == At(OpenTags(ModeAfter(line, m)))
  {
    NewlineReads(OpenTags(m));
    NewlineReads([]);
    if IsFence(line) {
      if m.inCodeBlock {
        BlockEndReads();
        ReadConcat(At([Pre, Code]), [Close(Code), Close(Pre)], if last then [] else NEWLINE);
      } else {
        BlockStartReads(FenceTag(line));
      }
    } else if m.inCodeBlock {
      EscapeRoundTrip(line);
      ReadConcat(At([Pre, Code]), if m.firstCodeLine then [] else NEWLINE, [Txt(EscapeHTML(line))]);
      assert [Txt(EscapeHTML(line))][1..] == [];
    } else {
      LineReads(line);
      ReadConcat(At([]), if first then [] else NEWLINE, LinePieces(line));
    }
  }

  lemma {:induction false} LinesBalance(lines: seq<Text>, i: nat, m: Mode)
    requires i <= |lines|
    ensures Read(At(OpenTags(m)), PiecesFrom(lines, i, m)) == At([])
    decreases |lines| - i
  {
    if i == |lines| {
      BlockEndReads();
    } else {
      var m' := ModeAfter(lines[i], m);
      LineKeepsTags(lines[i], i == 0, i == |lines| - 1, m);
      LinesBalance(lines, i + 1, m');
      ReadConcat(At(OpenTags(m)), PiecesOfLine(lines[i], i == 0, i == |lines| - 1, m), PiecesFrom(lines, i + 1, m'));
    }
  }

  /** Whatever the Markdown, the output is balanced, nests nothing but code in pre, and has no
      special character outside its tags that is not escaped. */
  lemma OutputIsBalanced(text: Text)
    ensures Balanced(DocumentPieces(text))
  {
    LinesBalance(SplitLines(text), 0, Mode(false, true));
  }

  lemma {:induction false} EscapeKeepsQuotes(s: Text)
    ensures '"' in EscapeHTML(s) <==> '"' in s
  {
    if s != [] {
      EscapeKeepsQuotes(s[1..]);
      assert s == [s[0]] + s[1..];
    }
  }

  /** The class attribute of a code tag is closed by its own quote exactly when the fence's tag
      has no quote: quotes are the one character the attribute needs escaped and is not. */
  lemma AttributeIsQuoted(lang: Text)
    requires lang != []
    ensures var rest := RenderPiece(Open(Code, lang))[|ATTRIBUTE|..];
      Index(rest, "\"") == |"language-" + EscapeHTML(lang)| <==> '"' !in lang
  {
    EscapeKeepsQuotes(lang);
    var value := "language-" + EscapeHTML(lang);
    assert RenderPiece(Open(Code, lang))[|ATTRIBUTE|..] == value + "\">";
    QuoteIndex(value);
    assert '"' in value <==> '"' in EscapeHTML(lang);
  }

  lemma QuoteIndex(value: Text)
    ensures Index(value + "\">", "\"") == |value| <==> '"' !in value
  {
    var s := value + "\">";
    assert s[|value|..|value| + 1] == "\"";
    assert MatchAt(s, "\"", |value|);
    if k :| 0 <= k < |value| && value[k] == '"' {
      assert s[k..k + 1] == "\"";
      assert MatchAt(s, "\"", k);
    } else {
      var r := Index(s, "\"");
      assert s[r..r + 1][0] == '"';
    }
  }

  /** markdownToTelegramHTML. */
  method MarkdownToTelegramHTML(text: Text) returns (out: Text)
    ensures out == Render(DocumentPieces(text))
  {
    out := [];
    var lines := SplitLines(text);
    var inCodeBlock, firstCodeLine := false, true;
    for i := 0 to |lines|
      invariant out + Render(PiecesFrom(lines, i, Mode(inCodeBlock, firstCodeLine))) == Render(DocumentPieces(text))
    {
      var line := lines[i];
      ghost var m := Mode(inCodeBlock, firstCodeLine);
      ghost var pieces := PiecesOfLine(line, i == 0, i == |lines| - 1, m);
      RenderConcat(pieces, PiecesFrom(lines, i + 1, ModeAfter(line, m)));
      ghost var before := out;
      if IsFence(line) {
        if !inCodeBlock {
          RenderBlockStart(FenceTag(line));
          out := out + RenderBlockOpening(FenceTag(line));
          inCodeBlock, firstCodeLine := true, true;
        } else {
          RenderBlockEnd(i == |lines| - 1);
          out := out + ("</code></pre>" + if i < |lines| - 1 then "\n" else "");
          inCodeBlock := false;
        }
      } else if inCodeBlock {
        RenderOptionalNewline(firstCodeLine, [Txt(EscapeHTML(line))]);
        RenderText(EscapeHTML(line));
        out := out + ((if !firstCodeLine then "\n" else "") + EscapeHTML(line));
        firstCodeLine := false;
      } else {
        var formatted := FormatLine(line);
        RenderOptionalNewline(i == 0, LinePieces(line));
        out := out + ((if i > 0 then "\n" else "") + formatted);
      }
      ConcatAssoc(before, Render(pieces), Render(PiecesFrom(lines, i + 1, ModeAfter(line, m))));
    }
    if inCodeBlock {
      RenderBlockEnd(true);
      out := out + "</code></pre>";
    }
  }

  function RenderBlockOpening(tag: Text): Text {
    if tag != [] then "<pre>" + LanguageTag(tag) else "<pre><code>"
  }

  lemma RenderBlockStart(tag: Text)
    ensures Render([Open(Pre, []), Open(Code, tag)]) == RenderBlockOpening(tag)
  {
    RenderCons(Open(Pre, []), [Open(Code, tag)]);
    RenderCons(Open(Code, tag), []);
    assert [Open(Pre, []), Open(Code, tag)] == [Open(Pre, [])] + [Open(Code, tag)];
    assert [Open(Code, tag)] == [Open(Code, tag)] + [];
    assert Render([]) == [];
    if tag == [] {
      assert RenderPiece(Open(Pre, [])) + RenderPiece(Open(Code, tag)) == "<pre><code>";
    } else {
      assert "<pre>" + LanguageTag(tag) == RenderBlockOpening(tag);
    }
  }

  lemma RenderBlockEnd(last: bool)
    ensures Render([Close(Code), Close(Pre)] + if last then [] else NEWLINE) == "</code></pre>" + if last then "" else "\n"
    ensures Render([Close(Code), Close(Pre)]) == "</code></pre>"
  {
    RenderCons(Close(Code), [Close(Pre)]);
    RenderCons(Close(Pre), []);
    assert [Close(Code), Close(Pre)] == [Close(Code)] + [Close(Pre)];
    assert [Close(Pre)] == [Close(Pre)] + [];
    RenderConcat([Close(Code), Close(Pre)], if last then [] else NEWLINE);
    RenderText("\n");
  }

  lemma RenderOptionalNewline(skip: bool, pieces: seq<Piece>)
    ensures Render((if skip then [] else NEWLINE) + pieces) == (if skip then "" else "\n") + Render(pieces)
  {
    RenderConcat(if skip then [] else NEWLINE, pieces);
    RenderText("\n");
  }
}
