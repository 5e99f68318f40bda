/** Reading the converter's output back, character by character, as an HTML reader would: tags are
    found in the text, not taken from the pieces it was rendered from. */
module HtmlScan {
  import opened Strings
  import opened TelegramHtml

  const LANGUAGE: Text := "<code class=\"language-"

  function OpenOne(r: Reading, n: Name): Reading {
    ReadPiece(r, Open(n, []))
  }

  /** What a tag, from its '<' to its '>', does to the open tags. A strict reader ends the class
      attribute at its first quote, so a quote in the value makes the tag unreadable. */
  function ReadTag(strict: bool, r: Reading, tag: Text): Reading {
    if tag == "<b>" then OpenOne(r, Bold)
    else if tag == "<i>" then OpenOne(r, Italic)
    else if tag == "<code>" then OpenOne(r, Code)
    else if tag == "<pre>" then OpenOne(r, Pre)
    else if tag == "</b>" then ReadPiece(r, Close(Bold))
    else if tag == "</i>" then ReadPiece(r, Close(Italic))
    else if tag == "</code>" then ReadPiece(r, Close(Code))
    else if tag == "</pre>" then ReadPiece(r, Close(Pre))
    else if LANGUAGE <= tag && |tag| >= |LANGUAGE| + 2 && tag[|tag| - 2..] == "\">" then
      if strict && '"' in tag[|LANGUAGE|..|tag| - 2] then Wrong else OpenOne(r, Code)
    else Wrong
  }

  /** The open tags after reading a text. Wrong for an unknown or misplaced tag, a '<' without its
      '>', a stray '>', and an ampersand that starts none of the three entities. */
  function ScanHtml(strict: bool, r: Reading, t: Text): Reading
    decreases |t|
  {
    if r.Wrong? then Wrong
    else if t == [] then r
    else if t[0] == '<' then
      var end := Index(t, ">");
      if end < 0 then Wrong else ScanHtml(strict, ReadTag(strict, r, t[..end + 1]), t[end + 1..])
    else if "&amp;" <= t then ScanHtml(strict, r, t[5..])
    else if "&lt;" <= t then ScanHtml(strict, r, t[4..])
    else if "&gt;" <= t then ScanHtml(strict, r, t[4..])
    else if t[0] == '&' || t[0] == '>' then Wrong
    else ScanHtml(strict, r, t[1..])
  }

  // One entity or plain character of escaped text.
  function HeadLength(x: Text): (n: nat)
    requires x != []
    ensures 1 <= n
  {
    if "&amp;" <= x then 5 else if "&lt;" <= x then 4 else if "&gt;" <= x then 4 else 1
  }

  lemma ScanHead(strict: bool, r: Reading, x: Text, rest: Text)
    requires r.At? && x != [] && Escaped(x)
    ensures HeadLength(x) <= |x| && Escaped(x[HeadLength(x)..])
    ensures ScanHtml(strict, r, x + rest) == ScanHtml(strict, r, x[HeadLength(x)..] + rest)
  {
    var n := HeadLength(x);
    HeadStays(x, rest);
    var t := x + rest;
    assert t[n..] == x[n..] + rest;
  }

  // What comes after escaped text does not change how it begins.
  lemma HeadStays(x: Text, rest: Text)
    requires x != [] && Escaped(x)
    ensures var t := x + rest;
      && t[0] == x[0] != '<' && ("&amp;" <= t <==> "&amp;" <= x) && ("&lt;" <= t <==> "&lt;" <= x) && ("&gt;" <= t <==> "&gt;" <= x)
      && (t[0] == '&' ==> "&amp;" <= t || "&lt;" <= t || "&gt;" <= t) && t[0] != '>'
  {
    var t := x + rest;
    assert "&amp;" <= t ==> t[1] == 'a';
    assert "&lt;" <= t ==> t[1] == 'l';
    assert "&gt;" <= t ==> t[1] == 'g';
    if "&amp;" <= x {
      assert t[0] == '&' && t[1] == 'a';
    } else if "&lt;" <= x {
      assert t[0] == '&' && t[1] == 'l';
    } else if "&gt;" <= x {
      assert t[0] == '&' && t[1] == 'g';
    }
  }

  // Escaped text passes by.
  lemma {:induction false} ScanText(strict: bool, r: Reading, x: Text, rest: Text)
    requires r.At? && Escaped(x)
    ensures ScanHtml(strict, r, x + rest) == ScanHtml(strict, r, rest)
    decreases |x|
  {
    if x == [] {
      assert x + rest == rest;
    } else {
      ScanHead(strict, r, x, rest);
      ScanText(strict, r, x[HeadLength(x)..], rest);
    }
  }

  // A tag is read up to its first '>'.
  lemma ScanTag(strict: bool, r: Reading, tag: Text, rest: Text)
    requires r.At? && |tag| >= 2 && tag[0] == '<' && tag[|tag| - 1] == '>' && '>' !in tag[..|tag| - 1]
    ensures ScanHtml(strict, r, tag + rest) == ScanHtml(strict, ReadTag(strict, r, tag), rest)
  {
    var t, n := tag + rest, |tag| - 1;
    assert t[n..n + 1] == ">";
    assert MatchAt(t, ">", n);
    var end := Index(t, ">");
    assert t[end..end + 1][0] == '>';
    assert forall k :: 0 <= k < n ==> t[k] == tag[..n][k];
    assert t[..end + 1] == tag && t[end + 1..] == rest;
  }

  lemma {:induction false} EscapedHasNoAngle(x: Text)
    requires Escaped(x)
    ensures '>' !in x
    decreases |x|
  {
    if x != [] {
      var n := HeadLength(x);
      EscapedHasNoAngle(x[n..]);
      assert x == x[..n] + x[n..];
      if "&amp;" <= x {
        assert x[..n] == "&amp;";
      } else if "&lt;" <= x {
        assert x[..n] == "&lt;";
      } else if "&gt;" <= x {
        assert x[..n] == "&gt;";
      } else {
        assert x[..n] == [x[0]];
      }
    }
  }

  lemma PlainTags(strict: bool, r: Reading, n: Name)
    ensures ReadTag(strict, r, OpenTag(n)) == OpenOne(r, n) && ReadTag(strict, r, CloseTag(n)) == ReadPiece(r, Close(n))
    ensures '>' !in OpenTag(n)[..|OpenTag(n)| - 1] && '>' !in CloseTag(n)[..|CloseTag(n)| - 1]
    ensures OpenTag(n)[0] == '<' && CloseTag(n)[0] == '<'
    ensures OpenTag(n)[|OpenTag(n)| - 1] == '>' && CloseTag(n)[|CloseTag(n)| - 1] == '>'
  {
    match n
    case Bold =>
    case Italic =>
    case Code =>
    case Pre =>
  }

  // A tag with a language is longer than all the others.
  lemma ReadLanguageTag(strict: bool, r: Reading, tag: Text)
    requires LANGUAGE <= tag && |tag| >= |LANGUAGE| + 2 && tag[|tag| - 2..] == "\">"
    ensures ReadTag(strict, r, tag) == if strict && '"' in tag[|LANGUAGE|..|tag| - 2] then Wrong else OpenOne(r, Code)
  {
    assert |tag| > 7;
  }

  lemma LanguageTagText(x: Text, tag: Text)
    requires '>' !in x && tag == LANGUAGE + x + "\">"
    ensures LANGUAGE <= tag && |tag| >= |LANGUAGE| + 2 && tag[|tag| - 2..] == "\">"
    ensures tag[0] == '<' && tag[|tag| - 1] == '>' && '>' !in tag[..|tag| - 1] && tag[|LANGUAGE|..|tag| - 2] == x
  {
    var front := LANGUAGE + x;
    assert tag == front + "\">" && tag[|front|..] == "\">";
    assert tag[..|tag| - 1] == front + "\"";
    assert '>' !in LANGUAGE;
    assert forall k :: 0 <= k < |front| ==> front[k] == (if k < |LANGUAGE| then LANGUAGE[k] else x[k - |LANGUAGE|]);
  }

  lemma LanguageTagIs(lang: Text, x: Text)
    requires x == EscapeHTML(lang)
    ensures LanguageTag(lang) == LANGUAGE + x + "\">"
  {
    hide EscapeHTML;
    assert LANGUAGE == ATTRIBUTE + "language-";
    assert ATTRIBUTE + ("language-" + x + "\">") == ATTRIBUTE + "language-" + x + "\">";
  }

  lemma LanguageTagShape(strict: bool, r: Reading, lang: Text)
    ensures var tag := LanguageTag(lang);
      && |tag| >= 2 && tag[0] == '<' && tag[|tag| - 1] == '>' && '>' !in tag[..|tag| - 1]
      && ReadTag(strict, r, tag) == if strict && '"' in lang then Wrong else OpenOne(r, Code)
  {
    hide *;
    var x, tag := EscapeHTML(lang), LanguageTag(lang);
    EscapeRoundTrip(lang);
    EscapedHasNoAngle(x);
    EscapeKeepsQuotes(lang);
    LanguageTagIs(lang, x);
    LanguageTagText(x, tag);
    ReadLanguageTag(strict, r, tag);
  }

  // A strict reader can read all pieces but tags with a quote in their language.
  predicate Readable(strict: bool, p: Piece) {
    strict && p.Open? ==> '"' !in p.lang
  }

  lemma ScanPiece(strict: bool, r: Reading, p: Piece, rest: Text)
    requires ReadPiece(r, p).At?
    ensures ScanHtml(strict, r, RenderPiece(p) + rest)
              == if Readable(strict, p) then ScanHtml(strict, ReadPiece(r, p), rest) else Wrong
  {
    NothingAfterWrong(strict, rest);
    hide ScanHtml;
    hide ReadTag;
    match p
    case Txt(text) => ScanText(strict, r, text, rest);
    case Open(name, lang) =>
      if lang == [] {
        PlainTags(strict, r, name);
        ScanTag(strict, r, OpenTag(name), rest);
      } else {
        LanguageTagShape(strict, r, lang);
        ScanTag(strict, r, LanguageTag(lang), rest);
      }
    case Close(name) =>
      PlainTags(strict, r, name);
      ScanTag(strict, r, CloseTag(name), rest);
  }

  lemma NothingAfterWrong(strict: bool, t: Text)
    ensures ScanHtml(strict, Wrong, t) == Wrong
  {
  }

  lemma {:induction false} ReadWrong(pieces: seq<Piece>)
    ensures Read(Wrong, pieces) == Wrong
  {
    if pieces != [] {
      ReadWrong(pieces[1..]);
    }
  }

  ghost predicate AllReadable(strict: bool, pieces: seq<Piece>) {
    forall i :: 0 <= i < |pieces| ==> Readable(strict, pieces[i])
  }

  lemma ReadableCons(strict: bool, pieces: seq<Piece>)
    requires pieces != []
    ensures AllReadable(strict, pieces) <==> Readable(strict, pieces[0]) && AllReadable(strict, pieces[1..])
  {
    if Readable(strict, pieces[0]) && AllReadable(strict, pieces[1..]) {
      forall i | 0 <= i < |pieces| ensures Readable(strict, pieces[i]) {
        assert i > 0 ==> pieces[i] == pieces[1..][i - 1];
      }
    }
  }

  /** Whenever the pieces read well, the rendered text reads the same; to a strict reader, exactly
      when no tag has a quote in its language. */
  lemma {:induction false} ScanIsReading(strict: bool, r: Reading, pieces: seq<Piece>)
    requires Read(r, pieces).At?
    ensures ScanHtml(strict, r, Render(pieces)) == if AllReadable(strict, pieces) then Read(r, pieces) else Wrong
    decreases |pieces|
  {
    if pieces == [] {
      assert Render(pieces) == [];
      ReadWrong(pieces);
    } else {
      var r1 := ReadPiece(r, pieces[0]);
      if r1.Wrong? {
        ReadWrong(pieces[1..]);
      }
      ReadableCons(strict, pieces);
      ScanPiece(strict, r, pieces[0], Render(pieces[1..]));
      ScanIsReading(strict, r1, pieces[1..]);
    }
  }

  /** Whatever the Markdown, a reader of the output text finds every tag closed, nothing nested but
      code in pre, and no special character that is not part of a tag or an entity. */
  lemma OutputTextIsBalanced(text: Text)
    ensures ScanHtml(false, At([]), Render(DocumentPieces(text))) == At([])
  {
    OutputIsBalanced(text);
    ScanIsReading(false, At([]), DocumentPieces(text));
  }

  // ---------- Quotes in the tags of fences ----------

  function FencesBefore(lines: seq<Text>, i: nat): nat
    requires i <= |lines|
  {
    if i == 0 then 0 else FencesBefore(lines, i - 1) + if IsFence(lines[i - 1]) then 1 else 0
  }

  // Every other fence opens a block.
  predicate OpensBlock(lines: seq<Text>, i: nat)
    requires i < |lines|
  {
    IsFence(lines[i]) && FencesBefore(lines, i) % 2 == 0
  }

  predicate TagIsClean(lines: seq<Text>, i: nat)
    requires i < |lines|
  {
    OpensBlock(lines, i) ==> '"' !in FenceTag(lines[i])
  }

  ghost predicate TagsAreClean(lines: seq<Text>, i: nat) {
    forall j :: i <= j < |lines| ==> TagIsClean(lines, j)
  }

  lemma ReadableConcat(a: seq<Piece>, b: seq<Piece>)
    ensures AllReadable(true, a + b) <==> AllReadable(true, a) && AllReadable(true, b)
  {
    var c := a + b;
    assert forall i :: 0 <= i < |a| ==> Readable(true, c[i]) == Readable(true, a[i]);
    assert forall i :: 0 <= i < |b| ==> Readable(true, c[|a| + i]) == Readable(true, b[i]);
    assert forall i :: |a| <= i < |c| ==> c[i] == b[i - |a|];
  }

  lemma {:induction false} InlineReadable(spans: seq<Span>)
    ensures AllReadable(true, InlinePieces(spans))
  {
    if spans != [] {
      InlineReadable(spans[1..]);
      assert AllReadable(true, SpanPieces(spans[0]));
      ReadableConcat(SpanPieces(spans[0]), InlinePieces(spans[1..]));
    }
  }

  lemma LineReadable(line: Text)
    ensures AllReadable(true, LinePieces(line))
  {
    hide TrimSpace;
    hide EscapeHTML;
    hide Spans;
    if !IsHeader(line) {
      InlineReadable(Spans(line));
    }
    hide InlinePieces;
  }

  lemma OneLineReadable(line: Text, first: bool, last: bool, m: Mode)
    ensures AllReadable(true, PiecesOfLine(line, first, last, m)) <==> (IsFence(line) && !m.inCodeBlock ==> '"' !in FenceTag(line))
  {
    hide LinePieces;
    hide TrimSpace;
    hide EscapeHTML;
    LineReadable(line);
    if IsFence(line) {
      if !m.inCodeBlock {
        var pieces := PiecesOfLine(line, first, last, m);
        assert pieces == [Open(Pre, []), Open(Code, FenceTag(line))];
        assert AllReadable(true, pieces) <==> Readable(true, pieces[0]) && Readable(true, pieces[1]);
      }
    } else {
      ReadableConcat(if first then [] else NEWLINE, LinePieces(line));
    }
  }

  lemma PiecesUnfold(lines: seq<Text>, i: nat, m: Mode)
    requires i < |lines|
    ensures PiecesFrom(lines, i, m)
              == PiecesOfLine(lines[i], i == 0, i == |lines| - 1, m) + PiecesFrom(lines, i + 1, ModeAfter(lines[i], m))
  {
  }

  lemma NoPiecesLeft(lines: seq<Text>, m: Mode)
    ensures AllReadable(true, PiecesFrom(lines, |lines|, m)) && TagsAreClean(lines, |lines|)
  {
  }

  lemma ModeCounts(lines: seq<Text>, i: nat, m: Mode)
    requires i < |lines| && (m.inCodeBlock <==> FencesBefore(lines, i) % 2 == 1)
    ensures ModeAfter(lines[i], m).inCodeBlock <==> FencesBefore(lines, i + 1) % 2 == 1
    ensures TagIsClean(lines, i) <==> (IsFence(lines[i]) && !m.inCodeBlock ==> '"' !in FenceTag(lines[i]))
  {
    hide IsFence;
    hide FenceTag;
  }

  lemma {:induction false} LinesReadable(lines: seq<Text>, i: nat, m: Mode)
    requires i <= |lines| && (m.inCodeBlock <==> FencesBefore(lines, i) % 2 == 1)
    ensures AllReadable(true, PiecesFrom(lines, i, m)) <==> TagsAreClean(lines, i)
    decreases |lines| - i
  {
    hide *;
    if i == |lines| {
      NoPiecesLeft(lines, m);
    } else {
      ModeCounts(lines, i, m);
      var m' := ModeAfter(lines[i], m);
      LinesReadable(lines, i + 1, m');
      OneLineReadable(lines[i], i == 0, i == |lines| - 1, m);
      PiecesUnfold(lines, i, m);
      ReadableConcat(PiecesOfLine(lines[i], i == 0, i == |lines| - 1, m), PiecesFrom(lines, i + 1, m'));
      CleanFrom(lines, i);
    }
  }

  lemma CleanFrom(lines: seq<Text>, i: nat)
    requires i < |lines|
    ensures TagsAreClean(lines, i) <==> TagIsClean(lines, i) && TagsAreClean(lines, i + 1)
  {
    hide TagIsClean;
  }

  /** To a reader that ends an attribute at its first quote, the output of a text is readable, and
      then balanced, exactly when no fence that opens a block has a quote in its tag. */
  lemma StrictlyReadableExactly(text: Text)
    ensures ScanHtml(true, At([]), Render(DocumentPieces(text)))
              == if TagsAreClean(SplitLines(text), 0) then At([]) else Wrong
  {
    hide *;
    OutputIsBalanced(text);
    BalancedReads(text);
    ScanIsReading(true, At([]), DocumentPieces(text));
    DocumentReadable(text);
  }

  lemma BalancedReads(text: Text)
    requires Balanced(DocumentPieces(text))
    ensures Read(At([]), DocumentPieces(text)) == At([])
  {
  }

  lemma DocumentReadable(text: Text)
    ensures AllReadable(true, DocumentPieces(text)) <==> TagsAreClean(SplitLines(text), 0)
  {
    LinesReadable(SplitLines(text), 0, Mode(false, true));
  }
}
