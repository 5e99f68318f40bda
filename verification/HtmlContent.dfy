/** What the converter's output shows: the characters a reader sees, each with the tags open around
    it, read off the output text. */
module HtmlContent {
  import opened Strings
  import opened TelegramHtml
  import opened HtmlScan

  // A character as it is shown, and the tags it stands in, outermost first; or the language of the
  // block of code that begins.
  datatype Glyph = Glyph(c: char, inside: seq<Name>) | Language(name: Text)

  function All(t: Text, inside: seq<Name>): (g: seq<Glyph>)
    ensures |g| == |t| && forall i :: 0 <= i < |t| ==> g[i] == Glyph(t[i], inside)
  {
    if t == [] then [] else [Glyph(t[0], inside)] + All(t[1..], inside)
  }

  // The language that a tag names in its class attribute.
  function LanguageIn(tag: Text): seq<Glyph> {
    var prefix := "<code class=\"language-";
    if prefix <= tag && |tag| >= |prefix| + 2 then [Language(Unescape(tag[|prefix|..|tag| - 2]))] else []
  }

  // Reads tags and entities in the text; everything else is shown as it is.
  function Shown(r: Reading, t: Text): seq<Glyph>
    decreases |t|
  {
    if r.Wrong? || t == [] then []
    else if t[0] == '<' then
      var end := Index(t, ">");
      if end < 0 then [] else LanguageIn(t[..end + 1]) + Shown(ReadTag(false, r, t[..end + 1]), t[end + 1..])
    else if "&amp;" <= t then [Glyph('&', r.stack)] + Shown(r, t[5..])
    else if "&lt;" <= t then [Glyph('<', r.stack)] + Shown(r, t[4..])
    else if "&gt;" <= t then [Glyph('>', r.stack)] + Shown(r, t[4..])
    else [Glyph(t[0], r.stack)] + Shown(r, t[1..])
  }

  // ---------- What the pieces show ----------

  function PieceShows(r: Reading, p: Piece): seq<Glyph> {
    if r.At? && p.Txt? then All(Unescape(p.text), r.stack)
    else if p.Open? && p.lang != [] then [Language(p.lang)]
    else []
  }

  function PiecesShow(r: Reading, pieces: seq<Piece>): seq<Glyph>
    decreases |pieces|
  {
    if pieces == [] then [] else PieceShows(r, pieces[0]) + PiecesShow(ReadPiece(r, pieces[0]), pieces[1..])
  }

  lemma {:induction false} PiecesShowConcat(r: Reading, a: seq<Piece>, b: seq<Piece>)
    ensures PiecesShow(r, a + b) == PiecesShow(r, a) + PiecesShow(Read(r, a), b)
    decreases |a|
  {
    if a == [] {
      assert a + b == b;
    } else {
      assert (a + b)[1..] == a[1..] + b && (a + b)[0] == a[0];
      PiecesShowConcat(ReadPiece(r, a[0]), a[1..], b);
    }
  }

  lemma ShowHead(r: Reading, x: Text, rest: Text)
    requires r.At? && x != [] && Escaped(x)
    ensures HeadLength(x) <= |x| && Escaped(x[HeadLength(x)..]) && |Unescape(x)| >= 1
    ensures Unescape(x) == [Unescape(x)[0]] + Unescape(x[HeadLength(x)..])
    ensures Shown(r, x + rest) == [Glyph(Unescape(x)[0], r.stack)] + Shown(r, x[HeadLength(x)..] + rest)
  {
    HeadStays(x, rest);
    var n, t := HeadLength(x), x + rest;
    assert t[n..] == x[n..] + rest;
  }

  lemma {:induction false} TextShows(r: Reading, x: Text, rest: Text)
    requires r.At? && Escaped(x)
    ensures Shown(r, x + rest) == All(Unescape(x), r.stack) + Shown(r, rest)
    decreases |x|
  {
    if x == [] {
      assert x + rest == rest;
    } else {
      ShowHead(r, x, rest);
      var tail := x[HeadLength(x)..];
      TextShows(r, tail, rest);
      hide Shown;
      hide Unescape;
      hide Escaped;
      assert Unescape(x)[1..] == Unescape(tail);
    }
  }

  lemma TagShows(r: Reading, tag: Text, rest: Text)
    requires r.At? && |tag| >= 2 && tag[0] == '<' && tag[|tag| - 1] == '>' && '>' !in tag[..|tag| - 1]
    ensures Shown(r, tag + rest) == LanguageIn(tag) + Shown(ReadTag(false, r, tag), rest)
  {
    var t := tag + rest;
    TagEnd(tag, rest);
    assert t[0] == '<';
    hide ReadTag;
    hide LanguageIn;
  }

  lemma NamesNoLanguage(n: Name)
    ensures LanguageIn(OpenTag(n)) == [] && LanguageIn(CloseTag(n)) == []
  {
  }

  lemma NamesLanguage(lang: Text)
    ensures LanguageIn(LanguageTag(lang)) == [Language(lang)]
  {
    EscapeRoundTrip(lang);
    var prefix, x, tag := "<code class=\"language-", EscapeHTML(lang), LanguageTag(lang);
    hide EscapeHTML;
    hide Unescape;
    assert ATTRIBUTE + ("language-" + x + "\">") == prefix + x + "\">";
    assert tag[|prefix|..|tag| - 2] == x;
  }

  lemma TagEnd(tag: Text, rest: Text)
    requires |tag| >= 2 && tag[|tag| - 1] == '>' && '>' !in tag[..|tag| - 1]
    ensures var t := tag + rest;
      Index(t, ">") == |tag| - 1 && t[..|tag|] == tag && t[|tag|..] == rest
  {
    var t, n := tag + rest, |tag| - 1;
    assert t[n..n + 1] == ">";
    assert MatchAt(t, ">", n);
    var end := Index(t, ">");
    assert t[end..end + 1][0] == '>';
    assert forall k :: 0 <= k < n ==> t[k] == tag[..n][k];
  }

  lemma PieceIsShown(r: Reading, p: Piece, rest: Text)
    requires ReadPiece(r, p).At?
    ensures Shown(r, RenderPiece(p) + rest) == PieceShows(r, p) + Shown(ReadPiece(r, p), rest)
  {
    hide Shown;
    hide ReadTag;
    hide LanguageIn;
    match p
    case Txt(text) => TextShows(r, text, rest);
    case Open(name, lang) =>
      if lang == [] {
        PlainTags(false, r, name);
        NamesNoLanguage(name);
        TagShows(r, OpenTag(name), rest);
      } else {
        LanguageTagShape(false, r, lang);
        NamesLanguage(lang);
        TagShows(r, LanguageTag(lang), rest);
      }
    case Close(name) =>
      PlainTags(false, r, name);
      NamesNoLanguage(name);
      TagShows(r, CloseTag(name), rest);
  }

  // Whenever pieces read well, their rendering shows what they show.
  lemma {:induction false} RenderingShows(r: Reading, pieces: seq<Piece>)
    requires Read(r, pieces).At?
    ensures Shown(r, Render(pieces)) == PiecesShow(r, pieces)
    decreases |pieces|
  {
    if pieces == [] {
      assert Render(pieces) == [];
    } else {
      var r1 := ReadPiece(r, pieces[0]);
      if r1.Wrong? {
        ReadWrong(pieces[1..]);
      }
      PieceIsShown(r, pieces[0], Render(pieces[1..]));
      RenderingShows(r1, pieces[1..]);
    }
  }

  // ---------- Lines ----------

  // A span shows its text: code inside code, bold inside b, italic inside i, the rest bare.
  function SpanShows(s: Span): seq<Glyph> {
    match s
    case Plain(c) => [Glyph(c, [])]
    case CodeSpan(t) => All(t, [Code])
    case BoldSpan(t) => All(t, [Bold])
    case ItalicSpan(t) => All(t, [Italic])
  }

  function SpansShow(spans: seq<Span>): seq<Glyph> {
    if spans == [] then [] else SpanShows(spans[0]) + SpansShow(spans[1..])
  }

  // A line shows the text of its spans; a header shows its title, in bold.
  ghost function LineShows(line: Text): seq<Glyph> {
    if IsHeader(line) then All(TrimSpace(line[Index(line, " ") + 1..]), [Bold]) else SpansShow(Spans(line))
  }

  lemma EnclosedShows(n: Name, t: Text)
    ensures PiecesShow(At([]), [Open(n, []), Txt(EscapeHTML(t)), Close(n)]) == All(t, [n])
  {
    EscapeRoundTrip(t);
    hide EscapeHTML;
    hide Escaped;
    hide Unescape;
    var a, b, c := Open(n, []), Txt(EscapeHTML(t)), Close(n);
    assert ReadPiece(At([]), a) == At([n]) && ReadPiece(At([n]), b) == At([n]);
    assert [a, b, c][1..] == [b, c] && [b, c][1..] == [c] && [c][1..] == [];
    assert PiecesShow(At([n]), [c]) == [];
    assert PiecesShow(At([n]), [b, c]) == All(t, [n]) + [];
  }

  lemma SpanIsShown(s: Span)
    ensures PiecesShow(At([]), SpanPieces(s)) == SpanShows(s)
  {
    match s
    case Plain(c) =>
      EscapeRoundTrip([c]);
      assert EscapeHTML([c]) == EscapeChar(c);
      assert SpanPieces(s)[1..] == [];
      assert PieceShows(At([]), SpanPieces(s)[0]) == All([c], []);
    case CodeSpan(t) => EnclosedShows(Code, t);
    case BoldSpan(t) => EnclosedShows(Bold, t);
    case ItalicSpan(t) => EnclosedShows(Italic, t);
  }

  lemma {:induction false} SpansAreShown(spans: seq<Span>)
    ensures PiecesShow(At([]), InlinePieces(spans)) == SpansShow(spans)
  {
    if spans != [] {
      SpanIsShown(spans[0]);
      SpanReads(spans[0]);
      SpansAreShown(spans[1..]);
      PiecesShowConcat(At([]), SpanPieces(spans[0]), InlinePieces(spans[1..]));
    }
  }

  lemma LineIsShown(line: Text)
    ensures PiecesShow(At([]), LinePieces(line)) == LineShows(line)
  {
    hide TrimSpace;
    hide EscapeHTML;
    if IsHeader(line) {
      HeaderEnd(line);
      hide IsHeader;
      EnclosedShows(Bold, TrimSpace(line[Index(line, " ") + 1..]));
    } else {
      hide IsHeader;
      hide Spans;
      SpansAreShown(Spans(line));
    }
  }

  /** The output of a line shows exactly the texts of its spans, each in its own tag and in order, or
      the title of a header. */
  lemma LineOutputShows(line: Text)
    ensures Shown(At([]), Render(LinePieces(line))) == LineShows(line)
  {
    hide *;
    LineReads(line);
    RenderingShows(At([]), LinePieces(line));
    LineIsShown(line);
  }

  lemma InlineOutputShows(line: Text)
    ensures Shown(At([]), Render(InlinePieces(Spans(line)))) == SpansShow(Spans(line))
  {
    hide *;
    InlineReads(Spans(line));
    RenderingShows(At([]), InlinePieces(Spans(line)));
    SpansAreShown(Spans(line));
  }

  // ---------- Documents ----------

  /** What the i-th line of a document shows. An opening fence shows the language after it, if any; a
      closing one shows nothing, but for a newline if it is not the last line; a line inside a block is shown verbatim inside pre and code,
      after a newline unless it is the first; any other line is formatted, after a newline unless it
      is the first of all. */
  ghost function LineOfDocument(lines: seq<Text>, i: nat): seq<Glyph>
    requires i < |lines|
  {
    var inside := FencesBefore(lines, i) % 2 == 1;
    if IsFence(lines[i]) then
      if !inside then (if FenceTag(lines[i]) == [] then [] else [Language(FenceTag(lines[i]))])
      else if i < |lines| - 1 then All("\n", [])
      else []
    else if inside then
      (if i > 0 && IsFence(lines[i - 1]) then [] else All("\n", [Pre, Code])) + All(lines[i], [Pre, Code])
    else
      (if i == 0 then [] else All("\n", [])) + LineShows(lines[i])
  }

  ghost function DocumentFrom(lines: seq<Text>, i: nat): seq<Glyph>
    requires i <= |lines|
    decreases |lines| - i
  {
    if i == |lines| then [] else LineOfDocument(lines, i) + DocumentFrom(lines, i + 1)
  }

  lemma NewlineShows(stack: seq<Name>)
    ensures PiecesShow(At(stack), NEWLINE) == All("\n", stack)
  {
    EscapeRoundTrip("\n");
    assert EscapeHTML("\n") == "\n";
    assert NEWLINE[1..] == [];
    assert PiecesShow(At(stack), NEWLINE) == All("\n", stack) + [];
  }

  lemma OpeningShows(tag: Text)
    ensures PiecesShow(At([]), [Open(Pre, []), Open(Code, tag)]) == if tag == [] then [] else [Language(tag)]
  {
    var a, b := Open(Pre, []), Open(Code, tag);
    assert [a, b][1..] == [b] && [b][1..] == [];
    assert PiecesShow(At([Pre]), [b]) == PieceShows(At([Pre]), b) + [];
    assert PiecesShow(At([]), [a, b]) == [] + PiecesShow(ReadPiece(At([]), a), [b]);
  }

  lemma TagsShowNothing(r: Reading, a: Piece, b: Piece)
    requires a.Close? && b.Close?
    ensures PiecesShow(r, [a, b]) == []
  {
    assert [a, b][1..] == [b] && [b][1..] == [];
    assert PiecesShow(ReadPiece(r, a), [b]) == [] + [];
    assert PiecesShow(r, [a, b]) == [] + PiecesShow(ReadPiece(r, a), [b]);
  }

  // Where the converter is before line i, in terms of the lines.
  ghost predicate ModeAt(lines: seq<Text>, i: nat, m: Mode)
    requires i <= |lines|
  {
    && (m.inCodeBlock <==> FencesBefore(lines, i) % 2 == 1)
    && (m.inCodeBlock ==> (m.firstCodeLine <==> i > 0 && IsFence(lines[i - 1])))
  }

  lemma ModeAtNext(lines: seq<Text>, i: nat, m: Mode)
    requires i < |lines| && ModeAt(lines, i, m)
    ensures ModeAt(lines, i + 1, ModeAfter(lines[i], m))
  {
    hide IsFence;
  }

  lemma CodeLineShows(line: Text, first: bool)
    ensures var pieces := (if first then [] else NEWLINE) + [Txt(EscapeHTML(line))];
      PiecesShow(At([Pre, Code]), pieces) == (if first then [] else All("\n", [Pre, Code])) + All(line, [Pre, Code])
  {
    EscapeRoundTrip(line);
    NewlineShows([Pre, Code]);
    NewlineReads([Pre, Code]);
    hide EscapeHTML;
    hide Escaped;
    hide Unescape;
    var text := [Txt(EscapeHTML(line))];
    assert text[1..] == [];
    assert PiecesShow(At([Pre, Code]), text) == All(line, [Pre, Code]) + [];
    PiecesShowConcat(At([Pre, Code]), if first then [] else NEWLINE, text);
  }

  lemma TextLineShows(line: Text, first: bool)
    ensures PiecesShow(At([]), (if first then [] else NEWLINE) + LinePieces(line))
              == (if first then [] else All("\n", [])) + LineShows(line)
  {
    NewlineShows([]);
    NewlineReads([]);
    LineIsShown(line);
    hide LinePieces;
    hide LineShows;
    PiecesShowConcat(At([]), if first then [] else NEWLINE, LinePieces(line));
  }

  lemma ClosingShows(last: bool)
    ensures PiecesShow(At([Pre, Code]), [Close(Code), Close(Pre)] + if last then [] else NEWLINE) == if last then [] else All("\n", [])
  {
    TagsShowNothing(At([Pre, Code]), Close(Code), Close(Pre));
    BlockEndReads();
    NewlineShows([]);
    PiecesShowConcat(At([Pre, Code]), [Close(Code), Close(Pre)], if last then [] else NEWLINE);
  }

  lemma OneLineShows(lines: seq<Text>, i: nat, m: Mode)
    requires i < |lines| && ModeAt(lines, i, m)
    ensures PiecesShow(At(OpenTags(m)), PiecesOfLine(lines[i], i == 0, i == |lines| - 1, m)) == LineOfDocument(lines, i)
  {
    var line := lines[i];
    hide PiecesShow;
    hide FencesBefore;
    hide LinePieces;
    hide LineShows;
    hide EscapeHTML;
    hide TrimSpace;
    if IsFence(line) {
      if m.inCodeBlock {
        ClosingShows(i == |lines| - 1);
      } else {
        OpeningShows(FenceTag(line));
      }
    } else if m.inCodeBlock {
      CodeLineShows(line, m.firstCodeLine);
    } else {
      TextLineShows(line, i == 0);
    }
  }

  lemma LastBlockShows(lines: seq<Text>, m: Mode)
    ensures PiecesShow(At(OpenTags(m)), PiecesFrom(lines, |lines|, m)) == DocumentFrom(lines, |lines|)
  {
    TagsShowNothing(At([Pre, Code]), Close(Code), Close(Pre));
  }

  lemma DocumentUnfold(lines: seq<Text>, i: nat)
    requires i < |lines|
    ensures DocumentFrom(lines, i) == LineOfDocument(lines, i) + DocumentFrom(lines, i + 1)
  {
  }

  lemma {:induction false} LinesShow(lines: seq<Text>, i: nat, m: Mode)
    requires i <= |lines| && ModeAt(lines, i, m)
    ensures PiecesShow(At(OpenTags(m)), PiecesFrom(lines, i, m)) == DocumentFrom(lines, i)
    decreases |lines| - i
  {
    hide *;
    if i == |lines| {
      LastBlockShows(lines, m);
    } else {
      var m' := ModeAfter(lines[i], m);
      ModeAtNext(lines, i, m);
      LinesShow(lines, i + 1, m');
      OneLineShows(lines, i, m);
      LineKeepsTags(lines[i], i == 0, i == |lines| - 1, m);
      PiecesUnfold(lines, i, m);
      PiecesShowConcat(At(OpenTags(m)), PiecesOfLine(lines[i], i == 0, i == |lines| - 1, m), PiecesFrom(lines, i + 1, m'));
      DocumentUnfold(lines, i);
    }
  }

  /** The output of a document shows its lines one after the other, and nothing else. */
  lemma DocumentOutputShows(text: Text)
    ensures Shown(At([]), Render(DocumentPieces(text))) == DocumentFrom(SplitLines(text), 0)
  {
    hide *;
    OutputIsBalanced(text);
    BalancedReads(text);
    RenderingShows(At([]), DocumentPieces(text));
    DocumentIsShown(text);
  }

  lemma DocumentIsShown(text: Text)
    ensures PiecesShow(At([]), DocumentPieces(text)) == DocumentFrom(SplitLines(text), 0)
  {
    hide PiecesShow;
    hide PiecesFrom;
    hide DocumentFrom;
    hide SplitLines;
    LinesShow(SplitLines(text), 0, Mode(false, true));
  }

  // ---------- Which lines are fences ----------

  /** A line is a fence exactly if three backticks come first in it after white space, and its tag is
      what comes after them, without the white space around it. */
  lemma FenceExactly(line: Text)
    ensures IsFence(line) <==> exists i :: FenceStart(line, i)
    ensures forall i :: FenceStart(line, i) ==> IsFence(line) && TrimmedTo(line, i + 3, FenceTag(line))
  {
    var i, j := TrimSpaceExactly(line);
    var trimmed := TrimSpace(line);
    hide TrimSpace;
    assert forall k :: 0 <= k < |trimmed| ==> trimmed[k] == line[i + k];
    if IsFence(line) {
      assert FenceStart(line, i);
      TagOfFence(line, trimmed, i, j);
    }
    forall m | FenceStart(line, m) ensures m == i && IsFence(line) {
      FirstOfTrimmed(line, i, j, m);
    }
  }

  lemma FirstOfTrimmed(line: Text, i: nat, j: nat, m: int)
    requires i <= j <= |line| && FenceStart(line, m)
    requires forall k :: 0 <= k < i || j <= k < |line| ==> IsSpace(line[k])
    requires i < j ==> !IsSpace(line[i])
    ensures m == i && m + 3 <= j
  {
    assert !IsSpace('`') && !IsSpace(line[m]) && !IsSpace(line[m + 1]) && !IsSpace(line[m + 2]);
  }

  ghost predicate FenceStart(line: Text, i: int) {
    && 0 <= i <= |line| - 3 && line[i] == '`' && line[i + 1] == '`' && line[i + 2] == '`'
    && forall k :: 0 <= k < i ==> IsSpace(line[k])
  }

  // The text from a position on, without the white space around it.
  ghost predicate TrimmedTo(line: Text, from: nat, t: Text) {
    exists a: nat, b: nat :: Trims(line, from, a, b) && t == line[a..b]
  }

  ghost predicate Trims(line: Text, from: nat, a: nat, b: nat) {
    && from <= a <= b <= |line| && (forall k :: from <= k < a || b <= k < |line| ==> IsSpace(line[k]))
    && (a < b ==> !IsSpace(line[a]) && !IsSpace(line[b - 1]))
  }

  lemma TagOfFence(line: Text, trimmed: Text, i: nat, j: nat)
    requires i <= j <= |line| && trimmed == line[i..j] && trimmed == TrimSpace(line) && |trimmed| >= 3 && IsFence(line)
    requires forall k :: j <= k < |line| ==> IsSpace(line[k])
    ensures TrimmedTo(line, i + 3, FenceTag(line))
  {
    hide *;
    var rest := trimmed[3..];
    FenceTagIs(line, rest);
    var a, b := TrimSpaceExactly(rest);
    SliceOfSlice(line, i, j, 3, j - i - 3);
    TrimsFurther(line, rest, i + 3, j, a, b);
    Witnessed(line, i + 3, i + 3 + a, i + 3 + b, rest[a..b]);
  }

  lemma FenceTagIs(line: Text, rest: Text)
    requires IsFence(line) && rest == TrimSpace(line)[3..]
    ensures FenceTag(line) == TrimSpace(rest)
  {
    hide TrimSpace;
  }

  lemma Witnessed(line: Text, from: nat, a: nat, b: nat, t: Text)
    requires Trims(line, from, a, b) && t == line[a..b]
    ensures TrimmedTo(line, from, t)
  {
  }

  lemma TrimsFurther(line: Text, rest: Text, from: nat, j: nat, a: nat, b: nat)
    requires from <= j <= |line| && rest == line[from..j] && a <= b <= |rest|
    requires forall k :: j <= k < |line| ==> IsSpace(line[k])
    requires forall k :: 0 <= k < a || b <= k < |rest| ==> IsSpace(rest[k])
    requires a < b ==> !IsSpace(rest[a]) && !IsSpace(rest[b - 1])
    ensures Trims(line, from, from + a, from + b) && rest[a..b] == line[from + a..from + b]
  {
    hide IsSpace;
    SliceOfSlice(line, from, j, a, b - a);
    forall k | from <= k < from + a || from + b <= k < |line| ensures IsSpace(line[k]) {
      assert k < j ==> rest[k - from] == line[k];
    }
  }

  // ---------- Which spans a line has ----------

  // The first position of a pattern at or after some position.
  ghost predicate FirstFrom(t: Text, pat: Text, from: nat, at: int) {
    from <= at && MatchAt(t, pat, at) && forall k :: from <= k < at ==> !MatchAt(t, pat, k)
  }

  /** The marks decide what the next span is. A backtick with another one after it opens code up to
      the nearest one; two stars open bold up to the nearest two, if there is text in between; a star
      that is not one of two opens italic up to the nearest star, if there is text in between and that
      star is not followed by another; anything else is a plain character. */
  lemma NextSpanExactly(line: Text)
    requires line != []
    ensures var s := NextSpan(line);
      && (s.CodeSpan? <==> OpensCode(line))
      && (s.BoldSpan? <==> !OpensCode(line) && OpensBold(line))
      && (s.ItalicSpan? <==> !OpensCode(line) && !OpensBold(line) && OpensItalic(line))
      && (s.CodeSpan? ==> forall e :: FirstFrom(line, "`", 1, e) ==> s.text == line[1..e])
      && (s.BoldSpan? ==> forall e :: FirstFrom(line, "**", 2, e) ==> s.text == line[2..e])
      && (s.ItalicSpan? ==> forall e :: FirstFrom(line, "*", 1, e) ==> s.text == line[1..e])
      && (s.Plain? ==> s.c == line[0])
  {
    CodeExactly(line);
    BoldExactly(line);
    ItalicExactly(line);
    hide CodeEnd;
    hide BoldEnd;
    hide ItalicEnd;
    hide FirstFrom;
    hide OpensCode;
    hide OpensBold;
    hide OpensItalic;
  }

  ghost predicate OpensCode(line: Text)
    requires line != []
  {
    line[0] == '`' && exists e :: FirstFrom(line, "`", 1, e)
  }

  ghost predicate OpensBold(line: Text) {
    "**" <= line && exists e :: e > 2 && FirstFrom(line, "**", 2, e)
  }

  ghost predicate OpensItalic(line: Text)
    requires line != []
  {
    line[0] == '*' && !("**" <= line) && exists e :: Closes(line, e)
  }

  lemma CodeExactly(line: Text)
    requires line != []
    ensures CodeEnd(line) >= 0 <==> OpensCode(line)
    ensures CodeEnd(line) >= 0 ==> forall e :: FirstFrom(line, "`", 1, e) ==> e == 1 + CodeEnd(line)
  {
    FirstAfter(line, "`", 1);
    hide Index;
    hide FirstFrom;
    var r := Index(line[1..], "`");
    assert r >= 0 ==> FirstFrom(line, "`", 1, 1 + r);
  }

  lemma BoldExactly(line: Text)
    requires line != []
    ensures BoldEnd(line) > 0 <==> OpensBold(line)
    ensures BoldEnd(line) > 0 ==> forall e :: FirstFrom(line, "**", 2, e) ==> e == 2 + BoldEnd(line)
  {
    if "**" <= line {
      FirstAfter(line, "**", 2);
      hide Index;
      hide FirstFrom;
      var r := Index(line[2..], "**");
      assert r >= 0 ==> FirstFrom(line, "**", 2, 2 + r);
    }
  }

  lemma ItalicExactly(line: Text)
    requires line != []
    ensures ItalicEnd(line) > 0 <==> OpensItalic(line)
    ensures ItalicEnd(line) > 0 ==> forall e :: FirstFrom(line, "*", 1, e) ==> e == 1 + ItalicEnd(line)
  {
    FirstAfter(line, "*", 1);
    hide Index;
    hide FirstFrom;
    var r := Index(line[1..], "*");
    assert r >= 0 ==> FirstFrom(line, "*", 1, 1 + r);
    assert OpensItalic(line) <==> line[0] == '*' && !("**" <= line) && r >= 0 && Closes(line, 1 + r);
  }

  // The star that closes an italic span.
  ghost predicate Closes(line: Text, e: int) {
    e > 1 && FirstFrom(line, "*", 1, e) && !(e + 1 < |line| && line[e + 1] == '*')
  }

  lemma FirstAfter(line: Text, pat: Text, n: nat)
    requires n <= |line| && pat != []
    ensures var r := Index(line[n..], pat);
      && (r >= 0 ==> FirstFrom(line, pat, n, n + r))
      && (forall e :: FirstFrom(line, pat, n, e) ==> r >= 0 && e == n + r)
  {
    var rest := line[n..];
    var r := Index(rest, pat);
    forall k | 0 <= k ensures MatchAt(rest, pat, k) <==> MatchAt(line, pat, n + k) {
      if k <= |rest| - |pat| {
        assert rest[k..k + |pat|] == line[n + k..n + k + |pat|];
      }
    }
    forall e | FirstFrom(line, pat, n, e) ensures r >= 0 && e == n + r {
      assert MatchAt(rest, pat, e - n) <==> MatchAt(line, pat, n + (e - n));
      assert r >= 0 ==> MatchAt(line, pat, n + r);
    }
    forall k | n <= k < n + r ensures !MatchAt(line, pat, k) {
      assert MatchAt(rest, pat, k - n) <==> MatchAt(line, pat, n + (k - n));
    }
  }

  // ---------- Which lines a text has ----------

  function Joined(lines: seq<Text>): Text {
    if lines == [] then [] else if |lines| == 1 then lines[0] else lines[0] + "\n" + Joined(lines[1..])
  }

  /** The lines of a text, joined by newlines, are the text, and none has a newline in it. */
  lemma {:induction false} LinesJoin(text: Text)
    ensures Joined(SplitLines(text)) == text
    ensures forall i :: 0 <= i < |SplitLines(text)| ==> '\n' !in SplitLines(text)[i]
    decreases |text|
  {
    hide *;
    var nl := Index(text, "\n");
    NewlineAt(text);
    LinesUnfold(text);
    if nl >= 0 {
      var rest := text[nl + 1..];
      LinesJoin(rest);
      JoinedMore(text[..nl], SplitLines(rest));
      assert text == text[..nl] + "\n" + rest;
    } else {
      JoinedOne(text);
    }
  }

  lemma LinesUnfold(text: Text)
    ensures var nl := Index(text, "\n");
      SplitLines(text) == if nl < 0 then [text] else [text[..nl]] + SplitLines(text[nl + 1..])
  {
    hide Index;
  }

  lemma JoinedMore(first: Text, later: seq<Text>)
    requires later != []
    ensures Joined([first] + later) == first + "\n" + Joined(later)
  {
    assert ([first] + later)[1..] == later;
  }

  lemma JoinedOne(line: Text)
    ensures Joined([line]) == line
  {
  }

  lemma NewlineAt(text: Text)
    ensures var nl := Index(text, "\n");
      if nl < 0 then '\n' !in text else nl < |text| && text[nl] == '\n' && '\n' !in text[..nl]
  {
    hide Index;
    var nl := Index(text, "\n");
    if nl >= 0 {
      assert text[nl..nl + 1][0] == '\n';
    }
    forall k | 0 <= k < |text| && text[k] == '\n' ensures 0 <= nl <= k {
      assert text[k..k + 1] == "\n";
      assert MatchAt(text, "\n", k);
    }
  }
}
