/** Splitting a message into chunks that fit Telegram's limit, with code fences closed at the
    end of a chunk and reopened at the start of the next one. */
module TelegramSplit {
  import opened Strings

  const FENCE: Text := "```"
  const CLOSING: Text := "\n```"

  // ---------- Counting fences ----------

  // Non-overlapping fences from the left, as the splitter counts them.
  function FenceCount(s: Text): nat {
    var i := Index(s, FENCE);
    if i < 0 then 0 else 1 + FenceCount(s[i + 3..])
  }

  lemma NoFenceCount(s: Text)
    requires Without(s, FENCE)
    ensures FenceCount(s) == 0
  {
    assert !MatchAt(s, FENCE, Index(s, FENCE));
  }

  lemma MatchesWithClosing(s: Text, i: int)
    ensures MatchAt(s + CLOSING, FENCE, i) <==> MatchAt(s, FENCE, i) || i == |s| + 1
  {
    var t := s + CLOSING;
    if 0 <= i <= |s| - 3 {
      assert t[i..i + 3] == s[i..i + 3];
    } else if 0 <= i <= |s| {
      assert t[i..i + 3][|s| - i] == '\n';
    } else if i == |s| + 1 {
      assert t[i..i + 3] == FENCE;
    }
  }

  lemma IndexWithClosing(s: Text)
    ensures Index(s + CLOSING, FENCE) == if Index(s, FENCE) >= 0 then Index(s, FENCE) else |s| + 1
  {
    MatchesWithClosing(s, |s| + 1);
    MatchesWithClosing(s, Index(s, FENCE));
    MatchesWithClosing(s, Index(s + CLOSING, FENCE));
  }

  /** The closing appended to a chunk adds exactly one fence, whatever the chunk ends with. */
  lemma {:induction false} ClosingAddsOne(s: Text)
    ensures FenceCount(s + CLOSING) == FenceCount(s) + 1
    decreases |s|
  {
    IndexWithClosing(s);
    var i := Index(s, FENCE);
    if i >= 0 {
      assert (s + CLOSING)[i + 3..] == s[i + 3..] + CLOSING;
      ClosingAddsOne(s[i + 3..]);
    } else {
      assert (s + CLOSING)[|s| + 1 + 3..] == [];
    }
  }

  // ---------- Language tags ----------

  // What follows a fence on its line.
  function LangOf(after: Text): Text {
    var nl := Index(after, "\n");
    TrimSpace(if nl >= 0 then after[..nl] else after)
  }

  // A tag that can be reopened: one line, no fence.
  ghost predicate CleanTag(lang: Text) {
    Without(lang, FENCE) && '\n' !in lang
  }

  lemma LangIsClean(after: Text)
    requires Without(after, FENCE)
    ensures CleanTag(LangOf(after))
  {
    var nl := Index(after, "\n");
    var line := if nl >= 0 then after[..nl] else after;
    forall k | 0 <= k < |line| ensures line[k] != '\n' {
      if line[k] == '\n' {
        assert after[k..k + 1] == "\n";
        assert MatchAt(after, "\n", k);
      }
    }
    assert line == after[0..|line|];
    PartWithout(after, FENCE, 0, |line|);
    var i, j := TrimSpacePart(line);
    PartWithout(line, FENCE, i, j);
  }

  function Reopening(lang: Text): Text {
    FENCE + lang + "\n"
  }

  lemma RestOfReopening(lang: Text, k: nat)
    requires CleanTag(lang) && 3 <= k <= |Reopening(lang)|
    ensures Without(Reopening(lang)[k..], FENCE)
    ensures FenceCount(Reopening(lang)[..k]) == 1
  {
    var tail := lang + "\n";
    assert Reopening(lang) == FENCE + tail;
    TailWithout(lang);
    assert Reopening(lang)[k..] == tail[k - 3..|tail|];
    PartWithout(tail, FENCE, k - 3, |tail|);
    var front := Reopening(lang)[..k];
    assert front == FENCE + tail[0..k - 3];
    assert front[0..3] == FENCE;
    assert MatchAt(front, FENCE, 0);
    assert front[3..] == tail[0..k - 3];
    PartWithout(tail, FENCE, 0, k - 3);
    NoFenceCount(tail[0..k - 3]);
  }

  lemma TailWithout(lang: Text)
    requires CleanTag(lang)
    ensures Without(lang + "\n", FENCE)
  {
    var tail := lang + "\n";
    forall i ensures !MatchAt(tail, FENCE, i) {
      if 0 <= i <= |tail| - 3 {
        if i <= |lang| - 3 {
          assert tail[i..i + 3] == lang[i..i + 3];
          assert !MatchAt(lang, FENCE, i);
        } else {
          assert tail[i..i + 3][2] == '\n';
        }
      }
    }
  }

  // ---------- Where to cut ----------

  ghost predicate HasBreak(c: Text, pat: Text) {
    exists i :: i > 0 && MatchAt(c, pat, i)
  }

  // The cut comes right after the first byte of the last break.
  ghost predicate AfterLastBreak(c: Text, pat: Text, at: int) {
    MatchAt(c, pat, at - 1) && forall i :: MatchAt(c, pat, i) ==> i < at
  }

  /** Paragraph boundary, else line boundary, else word boundary, else a hard cut. */
  ghost predicate BestCut(c: Text, at: int) {
    if HasBreak(c, "\n\n") then AfterLastBreak(c, "\n\n", at)
    else if HasBreak(c, "\n") then AfterLastBreak(c, "\n", at)
    else if HasBreak(c, " ") then AfterLastBreak(c, " ", at)
    else at == |c|
  }

  // The two characters after each other.
  ghost predicate Pair(c: Text, x: char, y: char, i: int) {
    0 <= i < |c| - 1 && c[i] == x && c[i + 1] == y
  }

  /** In characters: after the first of the last two newlines in a row, else after the last newline,
      else after the last space, each unless it is at the very start, else after the whole text. */
  lemma BestCutExactly(c: Text, at: int)
    ensures BestCut(c, at) <==>
      if exists i :: i > 0 && Pair(c, '\n', '\n', i) then
        Pair(c, '\n', '\n', at - 1) && forall k :: k >= at ==> !Pair(c, '\n', '\n', k)
      else if '\n' in c[if |c| > 0 then 1 else 0..] then 0 < at <= |c| && c[at - 1] == '\n' && '\n' !in c[at..]
      else if ' ' in c[if |c| > 0 then 1 else 0..] then 0 < at <= |c| && c[at - 1] == ' ' && ' ' !in c[at..]
      else at == |c|
  {
    assert forall i :: MatchAt(c, "\n\n", i) <==> Pair(c, '\n', '\n', i) by {
      PairIsMatch(c, '\n', '\n');
    }
    LastOneExactly(c, '\n', at);
    LastOneExactly(c, ' ', at);
    hide MatchAt;
    hide Pair;
  }

  lemma PairIsMatch(c: Text, x: char, y: char)
    ensures forall i :: MatchAt(c, [x, y], i) <==> Pair(c, x, y, i)
  {
    forall i ensures MatchAt(c, [x, y], i) <==> Pair(c, x, y, i) {
      if 0 <= i < |c| - 1 {
        assert c[i..i + 2] == [c[i], c[i + 1]];
      }
    }
  }

  lemma LastOneExactly(c: Text, x: char, at: int)
    ensures HasBreak(c, [x]) <==> x in c[if |c| > 0 then 1 else 0..]
    ensures AfterLastBreak(c, [x], at) <==> 0 < at <= |c| && c[at - 1] == x && x !in c[at..]
  {
    forall i ensures MatchAt(c, [x], i) <==> 0 <= i < |c| && c[i] == x {
      if 0 <= i < |c| {
        assert c[i..i + 1] == [c[i]];
      }
    }
    if HasBreak(c, [x]) {
      var i :| i > 0 && MatchAt(c, [x], i);
      assert c[1..][i - 1] == x;
    }
    if |c| > 0 && x in c[1..] {
      var i :| 0 <= i < |c| - 1 && c[1..][i] == x;
      assert MatchAt(c, [x], i + 1);
    }
    if 0 < at <= |c| {
      assert forall i :: at <= i < |c| ==> c[i] == c[at..][i - at];
    }
  }

  method FindCut(c: Text) returns (at: int)
    requires c != []
    ensures 1 <= at <= |c| && BestCut(c, at)
  {
    at := -1;
    var idx := LastIndex(c, "\n\n");
    if idx > 0 {
      at := idx + 1;
    }
    if at < 0 {
      idx := LastIndex(c, "\n");
      if idx > 0 {
        at := idx + 1;
      }
    }
    if at < 0 {
      idx := LastIndex(c, " ");
      if idx > 0 {
        at := idx + 1;
      }
    }
    if at < 0 {
      at := |c|;
    }
  }

  // ---------- Tracking fences ----------

  // What follows the last fence.
  function AfterLastFence(s: Text): Text {
    var i := Index(s, FENCE);
    if i < 0 then s else AfterLastFence(s[i + 3..])
  }

  lemma {:induction false} NoFenceAfterLast(s: Text)
    ensures Without(AfterLastFence(s), FENCE)
    decreases |s|
  {
    var i := Index(s, FENCE);
    if i >= 0 {
      NoFenceAfterLast(s[i + 3..]);
    } else {
      forall k ensures !MatchAt(s, FENCE, k) {
      }
    }
  }

  lemma NextFence(s: Text)
    ensures var idx := Index(s, FENCE);
      if idx < 0 then FenceCount(s) == 0 && AfterLastFence(s) == s
      else idx + 3 <= |s| && FenceCount(s) == 1 + FenceCount(s[idx + 3..]) && AfterLastFence(s) == AfterLastFence(s[idx + 3..])
  {
  }

  ghost predicate OneOf(s: Text, at: seq<int>) {
    forall i :: 0 <= i < |at| ==> MatchAt(s, FENCE, at[i])
  }

  ghost predicate Apart(at: seq<int>) {
    forall i, j :: 0 <= i < j < |at| ==> at[i] + 3 <= at[j]
  }

  ghost predicate Meets(at: seq<int>, k: int) {
    exists i :: 0 <= i < |at| && at[i] <= k < at[i] + 3
  }

  // Matches that do not overlap, and such that every match starts within one of them.
  ghost predicate FromTheLeft(s: Text, at: seq<int>) {
    OneOf(s, at) && Apart(at) && forall k :: MatchAt(s, FENCE, k) ==> Meets(at, k)
  }

  /** The fences that are counted are matches from the left, without overlap and without leaving one
      out; what follows the last fence is what follows the last of them. */
  lemma {:induction false} FencesExactly(s: Text) returns (at: seq<int>)
    ensures |at| == FenceCount(s) && FromTheLeft(s, at)
    ensures if at == [] then AfterLastFence(s) == s
            else 0 <= at[|at| - 1] + 3 <= |s| && AfterLastFence(s) == s[at[|at| - 1] + 3..]
    decreases |s|
  {
    hide FenceCount;
    hide AfterLastFence;
    hide FromTheLeft;
    hide MatchAt;
    hide Index;
    NextFence(s);
    var idx := Index(s, FENCE);
    if idx < 0 {
      at := [];
      NoFences(s);
    } else {
      FirstFence(s);
      var rest := s[idx + 3..];
      var later := FencesExactly(rest);
      at := Shifted(idx, later);
      ShiftedLast(s, rest, idx, later);
      ShiftedFromTheLeft(s, rest, idx, later);
    }
  }

  lemma NoFences(s: Text)
    requires Index(s, FENCE) < 0
    ensures FromTheLeft(s, [])
  {
  }

  lemma FirstFence(s: Text)
    requires Index(s, FENCE) >= 0
    ensures MatchAt(s, FENCE, Index(s, FENCE)) && 0 <= Index(s, FENCE) <= |s| - 3
    ensures forall k :: MatchAt(s, FENCE, k) ==> Index(s, FENCE) <= k
  {
  }

  // Positions in the rest, as positions in the whole, behind the first.
  function Shifted(idx: int, later: seq<int>): (at: seq<int>)
    ensures |at| == |later| + 1 && at[0] == idx
    ensures forall i :: 0 < i < |at| ==> at[i] == idx + 3 + later[i - 1]
  {
    [idx] + seq(|later|, i requires 0 <= i < |later| => idx + 3 + later[i])
  }

  lemma ShiftedLast(s: Text, rest: Text, idx: int, later: seq<int>)
    requires 0 <= idx <= |s| - 3 && rest == s[idx + 3..]
    requires later != [] ==> 0 <= later[|later| - 1] + 3 <= |rest|
    ensures var at := Shifted(idx, later);
      var last := at[|at| - 1];
      0 <= last + 3 <= |s| && s[last + 3..] == if later == [] then rest else rest[later[|later| - 1] + 3..]
  {
  }

  lemma ShiftedFromTheLeft(s: Text, rest: Text, idx: int, later: seq<int>)
    requires 0 <= idx <= |s| - 3 && rest == s[idx + 3..] && FromTheLeft(rest, later)
    requires MatchAt(s, FENCE, idx) && forall k :: MatchAt(s, FENCE, k) ==> idx <= k
    ensures FromTheLeft(s, Shifted(idx, later))
  {
    var at := Shifted(idx, later);
    hide MatchAt;
    forall i | 0 <= i < |at| ensures MatchAt(s, FENCE, at[i]) {
      if i > 0 {
        assert MatchAt(rest, FENCE, later[i - 1]);
        MatchInside(rest, later[i - 1]);
        SameMatch(s, rest, idx + 3, later[i - 1]);
      }
    }
    forall i, j | 0 <= i < j < |at| ensures at[i] + 3 <= at[j] {
      ApartShifted(s, rest, idx, later, i, j);
    }
    forall k | MatchAt(s, FENCE, k) ensures Meets(at, k) {
      if k < idx + 3 {
        assert at[0] <= k < at[0] + 3;
      } else {
        SameMatch(s, rest, idx + 3, k - (idx + 3));
        assert Meets(later, k - (idx + 3));
        var i :| 0 <= i < |later| && later[i] <= k - (idx + 3) < later[i] + 3;
        assert at[i + 1] <= k < at[i + 1] + 3;
      }
    }
  }

  lemma MatchInside(s: Text, k: int)
    requires MatchAt(s, FENCE, k)
    ensures 0 <= k <= |s| - 3
  {
  }

  lemma ApartShifted(s: Text, rest: Text, idx: int, later: seq<int>, i: int, j: int)
    requires OneOf(rest, later) && Apart(later) && 0 <= i < j < |later| + 1
    ensures Shifted(idx, later)[i] + 3 <= Shifted(idx, later)[j]
  {
    assert MatchAt(rest, FENCE, later[j - 1]);
  }

  lemma SameMatch(s: Text, rest: Text, from: nat, k: int)
    requires from <= |s| && rest == s[from..] && 0 <= k
    ensures MatchAt(rest, FENCE, k) <==> MatchAt(s, FENCE, from + k)
  {
    if k <= |rest| - 3 {
      assert rest[k..k + 3] == s[from + k..from + k + 3];
    }
  }

  /** The tag is the rest of the line without the white space around it. */
  lemma LangExactly(after: Text) returns (n: nat, i: nat, j: nat)
    ensures i <= j <= n <= |after| && '\n' !in after[..n] && (n < |after| ==> after[n] == '\n')
    ensures LangOf(after) == after[i..j] && forall k :: 0 <= k < i || j <= k < n ==> IsSpace(after[k])
    ensures i < j ==> !IsSpace(after[i]) && !IsSpace(after[j - 1])
  {
    hide *;
    var nl := Index(after, "\n");
    n := if nl >= 0 then nl else |after|;
    FirstLine(after, n);
    var line := after[..n];
    assert n == |after| ==> line == after;
    LangIs(after, n);
    i, j := TrimSpaceExactly(line);
    assert line[i..j] == after[i..j];
    assert forall k :: 0 <= k < n ==> line[k] == after[k];
  }

  lemma LangIs(after: Text, n: nat)
    requires n == if Index(after, "\n") >= 0 then Index(after, "\n") else |after|
    requires n <= |after| && (n == |after| ==> after[..n] == after)
    ensures LangOf(after) == TrimSpace(after[..n])
  {
    hide Index;
    hide TrimSpace;
  }

  lemma FirstLine(after: Text, n: nat)
    requires n == if Index(after, "\n") >= 0 then Index(after, "\n") else |after|
    ensures n <= |after| && '\n' !in after[..n] && (n < |after| ==> after[n] == '\n')
  {
    if n < |after| {
      assert after[n..n + 1][0] == '\n';
    }
    forall k | 0 <= k < |after| && after[k] == '\n' ensures n <= k {
      assert after[k..k + 1] == "\n";
      assert MatchAt(after, "\n", k);
    }
  }

  /** Counts the fences of a chunk; outside a code block the language tag of the last odd fence
      is remembered, inside a block the old tag is kept. */
  method TrackFences(chunk: Text, inCodeBlock: bool, lang0: Text) returns (count: nat, lang: Text)
    ensures count == FenceCount(chunk)
    ensures inCodeBlock ==> lang == lang0
    ensures !inCodeBlock && count % 2 == 1 ==> lang == LangOf(AfterLastFence(chunk))
  {
    hide FenceCount;
    hide AfterLastFence;
    hide LangOf;
    hide Index;
    count, lang := 0, lang0;
    var searchPos := 0;
    assert chunk[0..] == chunk;
    while true
      invariant 0 <= searchPos <= |chunk|
      invariant count + FenceCount(chunk[searchPos..]) == FenceCount(chunk)
      invariant AfterLastFence(chunk[searchPos..]) == AfterLastFence(chunk)
      invariant inCodeBlock ==> lang == lang0
      invariant !inCodeBlock && count % 2 == 1 ==> lang == LangOf(chunk[searchPos..])
      decreases |chunk| - searchPos
    {
      var idx := Index(chunk[searchPos..], FENCE);
      NextFence(chunk[searchPos..]);
      if idx < 0 {
        break;
      }
      var absIdx := searchPos + idx;
      count := count + 1;
      assert chunk[searchPos..][idx + 3..] == chunk[absIdx + 3..];
      if count % 2 == 1 && !inCodeBlock {
        lang := LangOf(chunk[absIdx + 3..]);
      }
      searchPos := absIdx + 3;
    }
  }

  // ---------- The pieces of the chunks ----------

  /** A chunk is text reopened from a fence, text of the message, and possibly a closing; after a
      closing the fence is reopened with a tag. */
  datatype Part = Part(reopened: Text, body: Text, closing: Text, tag: Text)

  ghost predicate MadeOf(chunk: Text, part: Part) {
    chunk == part.reopened + part.body + part.closing && part.closing in {[], CLOSING}
  }

  ghost function Bodies(parts: seq<Part>): Text {
    if parts == [] then [] else Bodies(parts[..|parts| - 1]) + parts[|parts| - 1].body
  }

  ghost function ReopenedText(parts: seq<Part>): Text {
    if parts == [] then [] else ReopenedText(parts[..|parts| - 1]) + parts[|parts| - 1].reopened
  }

  // The fences reopened after the chunks that were closed, each with its tag.
  ghost function Reopenings(parts: seq<Part>): Text {
    if parts == [] then []
    else
      var last := parts[|parts| - 1];
      Reopenings(parts[..|parts| - 1]) + if last.closing == [] then [] else Reopening(last.tag)
  }

  ghost predicate Closed(parts: seq<Part>, i: int) {
    0 <= i < |parts| && parts[i].closing == CLOSING
  }

  /** The tag a fence is reopened with: the one before it when the chunk began inside a code block,
      and otherwise the one after the last fence of the chunk. */
  ghost predicate TagOk(parts: seq<Part>, i: int)
    requires 0 <= i < |parts|
  {
    Closed(parts, i) ==>
      CleanTag(parts[i].tag) && parts[i].tag == if Closed(parts, i - 1) then parts[i - 1].tag
                                                 else LangOf(AfterLastFence(parts[i].reopened + parts[i].body))
  }

  ghost predicate TagsOk(parts: seq<Part>) {
    forall i :: 0 <= i < |parts| ==> TagOk(parts, i)
  }

  lemma TagsSnoc(parts: seq<Part>, part: Part)
    requires TagsOk(parts)
    requires part.closing == CLOSING ==>
      CleanTag(part.tag) && part.tag == if Closed(parts, |parts| - 1) then parts[|parts| - 1].tag
                                         else LangOf(AfterLastFence(part.reopened + part.body))
    ensures TagsOk(parts + [part])
  {
    hide LangOf;
    hide AfterLastFence;
    hide CleanTag;
    var all := parts + [part];
    forall i | 0 <= i < |all| ensures TagOk(all, i) {
      assert i < |parts| ==> TagOk(parts, i);
    }
  }

  lemma PartsSnoc(parts: seq<Part>, part: Part)
    ensures Bodies(parts + [part]) == Bodies(parts) + part.body
    ensures ReopenedText(parts + [part]) == ReopenedText(parts) + part.reopened
    ensures Reopenings(parts + [part]) == Reopenings(parts) + if part.closing == [] then [] else Reopening(part.tag)
  {
    assert (parts + [part])[..|parts|] == parts;
  }

  // ---------- Progress ----------

  lemma MatchStart(c: Text, pat: Text, i: int)
    requires MatchAt(c, pat, i) && pat != []
    ensures c[i] == pat[0]
  {
    assert c[i..i + |pat|][0] == c[i];
  }

  lemma CutIsAtBreak(c: Text, at: int)
    requires BestCut(c, at) && 1 <= at <= |c|
    ensures at == |c| || c[at - 1] == '\n' || c[at - 1] == ' '
  {
    if HasBreak(c, "\n\n") {
      MatchStart(c, "\n\n", at - 1);
    } else if HasBreak(c, "\n") {
      MatchStart(c, "\n", at - 1);
    } else if HasBreak(c, " ") {
      MatchStart(c, " ", at - 1);
    }
  }

  /** Cutting inside or at the end of a reopened fence always keeps the fence whole, so the
      chunk ends outside a code block and nothing is reopened again. */
  lemma CutOfReopening(lang: Text, rest: Text, c: Text, at: int)
    requires CleanTag(lang) && |c| >= 3 && c <= Reopening(lang) + rest && BestCut(c, at) && 1 <= at <= |c|
    ensures at >= 3
    ensures at <= |Reopening(lang)| ==> FenceCount(c[..at]) == 1 && Without(Reopening(lang)[at..], FENCE)
  {
    CutIsAtBreak(c, at);
    hide BestCut;
    var all := Reopening(lang) + rest;
    assert forall k :: 0 <= k < 3 ==> c[k] == all[k] == '`';
    if at <= |Reopening(lang)| {
      assert c[..at] == Reopening(lang)[..at];
      RestOfReopening(lang, at);
    }
  }

  // ---------- The loop ----------

  /** Parity: a chunk that was cut has an even number of fences exactly when the chunk before
      it was not closed. */
  ghost predicate ParityOk(chunks: seq<Text>, parts: seq<Part>, n: int)
    requires n <= |chunks| && |parts| == |chunks|
  {
    forall i :: 0 <= i < n ==> (FenceCount(chunks[i]) % 2 == 0 <==> !Closed(parts, i - 1))
  }

  ghost predicate SizesOk(chunks: seq<Text>, maxLen: int) {
    forall i :: 0 <= i < |chunks| ==> 1 <= |chunks[i]| <= maxLen + 4
  }

  ghost predicate PartsOk(chunks: seq<Text>, parts: seq<Part>) {
    |parts| == |chunks| && forall i :: 0 <= i < |chunks| ==> MadeOf(chunks[i], parts[i])
  }

  // The variables of the loop.
  datatype Loop = Loop(remaining: Text, inCodeBlock: bool, lang: Text)

  /** The books kept beside it: how much of the message is in chunks, the parts of the chunks, and
      the inserted text that no chunk has paid for yet. */
  datatype Books = Books(taken: nat, parts: seq<Part>, owed: Text)

  ghost predicate Accounts(text: Text, g: Books) {
    && g.taken <= |text| && Bodies(g.parts) == text[..g.taken]
    && ReopenedText(g.parts) + g.owed == Reopenings(g.parts)
    && TagsOk(g.parts)
  }

  // The code-block flag tells whether the last chunk was closed, and then what is owed is its fence.
  ghost predicate FlagOk(maxLen: int, l: Loop, g: Books) {
    var n := |g.parts| - 1;
    && (l.inCodeBlock <==> Closed(g.parts, n))
    && (if l.inCodeBlock then l.lang == g.parts[n].tag && CleanTag(l.lang) && g.owed == Reopening(l.lang) && maxLen >= 3
        else Without(g.owed, FENCE))
  }

  /** After the chunks before it, what remains is what is still owed and the rest of the message: it
      is too long, and this part is the front of it up to the best place to cut within the limit. */
  ghost predicate CutAt(text: Text, maxLen: int, before: seq<Part>, part: Part) {
    && |ReopenedText(before)| <= |Reopenings(before)| && |Bodies(before)| <= |text|
    && var remaining := Reopenings(before)[|ReopenedText(before)|..] + text[|Bodies(before)|..];
      var front := part.reopened + part.body;
      && 0 <= maxLen < |remaining| && front <= remaining && BestCut(remaining[..maxLen], |front|)
  }

  ghost predicate CutsOk(text: Text, maxLen: int, parts: seq<Part>, n: int)
    requires n <= |parts|
  {
    forall i :: 0 <= i < n ==> CutAt(text, maxLen, parts[..i], parts[i])
  }

  lemma CutNoted(text: Text, maxLen: int, l: Loop, g: Books, at: int, part: Part)
    requires Standing(text, maxLen, l, g) && 1 <= at <= maxLen < |l.remaining| && BestCut(l.remaining[..maxLen], at)
    requires part.reopened + part.body == l.remaining[..at] && CutsOk(text, maxLen, g.parts, |g.parts|)
    ensures CutsOk(text, maxLen, g.parts + [part], |g.parts| + 1)
  {
    hide BestCut;
    hide TagsOk;
    hide FlagOk;
    hide Bodies;
    hide ReopenedText;
    hide Reopenings;
    assert Reopenings(g.parts)[|ReopenedText(g.parts)|..] == g.owed;
    assert CutAt(text, maxLen, g.parts, part);
    CutsKept(text, maxLen, g.parts, part);
    assert (g.parts + [part])[..|g.parts|] == g.parts;
  }

  lemma CutsKept(text: Text, maxLen: int, parts: seq<Part>, part: Part)
    requires CutsOk(text, maxLen, parts, |parts|)
    ensures CutsOk(text, maxLen, parts + [part], |parts|)
  {
    hide CutAt;
    var more := parts + [part];
    forall i | 0 <= i < |parts| ensures CutAt(text, maxLen, more[..i], more[i]) {
      assert more[..i] == parts[..i];
    }
  }

  // Where the splitter stands.
  ghost predicate Standing(text: Text, maxLen: int, l: Loop, g: Books) {
    && Accounts(text, g) && l.remaining == g.owed + text[g.taken..] && FlagOk(maxLen, l, g)
  }

  // The part that a cut at `at` takes from owed text and message text.
  ghost function CutPart(text: Text, g: Books, at: nat): Part
    requires g.taken <= |text| && at <= |g.owed| + |text| - g.taken
  {
    if at <= |g.owed| then Part(g.owed[..at], [], [], [])
    else Part(g.owed, text[g.taken..g.taken + at - |g.owed|], [], [])
  }

  // The books after a cut that is not closed.
  ghost function AfterCut(text: Text, g: Books, at: nat): Books
    requires g.taken <= |text| && at <= |g.owed| + |text| - g.taken
  {
    var parts := g.parts + [CutPart(text, g, at)];
    if at <= |g.owed| then Books(g.taken, parts, g.owed[at..])
    else Books(g.taken + at - |g.owed|, parts, [])
  }

  // The last part once it is closed and its fence is to be reopened.
  ghost function ClosedPart(part: Part, lang: Text): Part {
    part.(closing := CLOSING, tag := lang)
  }

  // What a cut takes and leaves.
  lemma CutTexts(text: Text, g: Books, at: nat)
    requires g.taken <= |text| && at <= |g.owed| + |text| - g.taken
    ensures var part, g' := CutPart(text, g, at), AfterCut(text, g, at);
      && (g.owed + text[g.taken..])[..at] == part.reopened + part.body
      && (g.owed + text[g.taken..])[at..] == g'.owed + text[g'.taken..]
      && part.reopened + g'.owed == g.owed && text[..g.taken] + part.body == text[..g'.taken]
  {
  }

  // Cutting without closing pays part of the owed text and moves on in the message.
  lemma CutAccounts(text: Text, g: Books, at: nat)
    requires Accounts(text, g) && at <= |g.owed| + |text| - g.taken
    ensures Accounts(text, AfterCut(text, g, at))
  {
    hide Bodies;
    hide ReopenedText;
    hide Reopenings;
    hide TagsOk;
    var part, g' := CutPart(text, g, at), AfterCut(text, g, at);
    CutTexts(text, g, at);
    PartsSnoc(g.parts, part);
    TagsSnoc(g.parts, part);
    hide CutPart;
    var before := ReopenedText(g.parts);
    Regroup(before, part.reopened, g'.owed);
    assert Reopenings(g'.parts) == Reopenings(g.parts) + [];
  }

  lemma Regroup(a: Text, b: Text, c: Text)
    ensures (a + b) + c == a + (b + c)
  {
  }

  // Closing a chunk whose owed text is used up owes one more reopening.
  lemma CloseAccounts(text: Text, g: Books, cut: Books, part: Part, lang: Text)
    requires Accounts(text, g) && Accounts(text, cut) && cut.parts == g.parts + [part] && cut.owed == []
    requires part.closing == [] && CleanTag(lang)
    requires lang == if Closed(g.parts, |g.parts| - 1) then g.parts[|g.parts| - 1].tag
                     else LangOf(AfterLastFence(part.reopened + part.body))
    ensures Accounts(text, Books(cut.taken, g.parts + [ClosedPart(part, lang)], Reopening(lang)))
  {
    hide Bodies;
    hide ReopenedText;
    hide Reopenings;
    hide TagsOk;
    hide LangOf;
    hide AfterLastFence;
    hide CleanTag;
    PartsSnoc(g.parts, part);
    PartsSnoc(g.parts, ClosedPart(part, lang));
    TagsSnoc(g.parts, ClosedPart(part, lang));
    var paid := ReopenedText(g.parts) + part.reopened;
    assert paid + [] == paid && Reopenings(g.parts) + [] == Reopenings(g.parts);
  }

  // What one round does to the variables of the loop, cutting at `at`.
  ghost predicate Round(maxLen: int, l: Loop, at: int, chunk: Text, l': Loop)
    requires |l.remaining| > maxLen && 1 <= at <= maxLen
  {
    var front := l.remaining[..at];
    && BestCut(l.remaining[..maxLen], at)
    && l'.inCodeBlock == Toggle(FenceCount(front), l.inCodeBlock)
    && (l'.inCodeBlock ==> if l.inCodeBlock then l'.lang == l.lang else l'.lang == LangOf(AfterLastFence(front)))
    && chunk == front + (if l'.inCodeBlock then CLOSING else [])
    && l'.remaining == (if l'.inCodeBlock then Reopening(l'.lang) else []) + l.remaining[at..]
  }

  /** One round of the loop: cuts a chunk off the remaining text and, inside a code block,
      closes it and puts the reopened fence in front of what remains. */
  method CutChunk(remaining: Text, maxLen: int, inCodeBlock: bool, lang: Text)
      returns (chunk: Text, remaining': Text, inCodeBlock': bool, lang': Text, at: int)
    requires maxLen >= 1 && |remaining| > maxLen
    ensures 1 <= at <= maxLen
    ensures Round(maxLen, Loop(remaining, inCodeBlock, lang), at, chunk, Loop(remaining', inCodeBlock', lang'))
    ensures inCodeBlock' <==> inCodeBlock != (FenceCount(remaining[..at]) % 2 == 1)
    ensures chunk == remaining[..at] + if inCodeBlock' then "\n```" else ""
    ensures remaining' == (if inCodeBlock' then "```" + lang' + "\n" else "") + remaining[at..]
  {
    var cut := FindCut(remaining[..maxLen]);
    at := cut;
    chunk := remaining[..cut];
    remaining' := remaining[cut..];
    var count;
    count, lang' := TrackFences(chunk, inCodeBlock, lang);
    inCodeBlock' := Toggle(count, inCodeBlock);
    if inCodeBlock' {
      chunk := chunk + CLOSING;
      remaining' := Reopening(lang') + remaining';
    }
  }

  lemma RoundParity(front: Text, inCodeBlock: bool, chunk: Text)
    requires chunk == front + (if Toggle(FenceCount(front), inCodeBlock) then CLOSING else [])
    ensures FenceCount(chunk) % 2 == 0 <==> !inCodeBlock
  {
    CutParity(FenceCount(front), inCodeBlock);
    ClosingAddsOne(front);
    assert front + [] == front;
  }

  // Whether the text after a chunk with so many fences is inside a code block.
  function Toggle(count: nat, inCodeBlock: bool): bool {
    if count % 2 == 1 then !inCodeBlock else inCodeBlock
  }

  lemma CutParity(count: nat, inCodeBlock: bool)
    ensures (count + if Toggle(count, inCodeBlock) then 1 else 0) % 2 == 0 <==> !inCodeBlock
    ensures count == (if inCodeBlock then 1 else 0) ==> !Toggle(count, inCodeBlock)
    ensures count == 0 ==> Toggle(count, inCodeBlock) == inCodeBlock
  {
  }

  /** A round keeps the accounts straight and makes progress: in the message, or out of a code
      block, or in text it still owes. */
  lemma RoundOk(text: Text, maxLen: int, l: Loop, g: Books, at: int, chunk: Text, l': Loop) returns (g': Books, part: Part)
    requires maxLen >= 1 && |l.remaining| > maxLen && 1 <= at <= maxLen
    requires Standing(text, maxLen, l, g) && Round(maxLen, l, at, chunk, l')
    ensures Standing(text, maxLen, l', g') && g'.parts == g.parts + [part]
    ensures MadeOf(chunk, part) && 1 <= |chunk| <= maxLen + 4 && l'.remaining != []
    ensures part.reopened + part.body == l.remaining[..at]
    ensures g'.taken > g.taken || (g'.taken == g.taken && l.inCodeBlock && !l'.inCodeBlock) ||
            (g'.taken == g.taken && l.inCodeBlock == l'.inCodeBlock && |l'.remaining| < |l.remaining|)
  {
    hide *;
    if l'.inCodeBlock {
      g', part := RoundCloses(text, maxLen, l, g, at, chunk, l');
    } else {
      g', part := RoundStays(text, maxLen, l, g, at, chunk, l');
    }
  }

  lemma RoundStays(text: Text, maxLen: int, l: Loop, g: Books, at: int, chunk: Text, l': Loop) returns (g': Books, part: Part)
    requires maxLen >= 1 && |l.remaining| > maxLen && 1 <= at <= maxLen && !l'.inCodeBlock
    requires Standing(text, maxLen, l, g) && Round(maxLen, l, at, chunk, l')
    ensures Standing(text, maxLen, l', g') && g'.parts == g.parts + [part]
    ensures MadeOf(chunk, part) && 1 <= |chunk| <= maxLen + 4 && l'.remaining != []
    ensures part.reopened + part.body == l.remaining[..at]
    ensures g'.taken > g.taken || (g'.taken == g.taken && |l'.remaining| < |l.remaining|)
  {
    hide Accounts;
    hide BestCut;
    hide FenceCount;
    hide Without;
    hide LangOf;
    hide CleanTag;
    CutStands(text, maxLen, l, g, at);
    part, g' := CutPart(text, g, at), AfterCut(text, g, at);
    assert l'.remaining == l.remaining[at..] && chunk == l.remaining[..at];
  }

  // A round that ends inside a code block has used up the owed text and moved on.
  lemma RoundCloses(text: Text, maxLen: int, l: Loop, g: Books, at: int, chunk: Text, l': Loop) returns (g': Books, part: Part)
    requires maxLen >= 1 && |l.remaining| > maxLen && 1 <= at <= maxLen && l'.inCodeBlock
    requires Standing(text, maxLen, l, g) && Round(maxLen, l, at, chunk, l')
    ensures Standing(text, maxLen, l', g') && g'.parts == g.parts + [part]
    ensures MadeOf(chunk, part) && 1 <= |chunk| <= maxLen + 4 && l'.remaining != [] && g'.taken > g.taken
    ensures part.reopened + part.body == l.remaining[..at]
  {
    hide Accounts;
    hide BestCut;
    hide FenceCount;
    hide Without;
    hide LangOf;
    hide CleanTag;
    hide Reopening;
    hide AfterLastFence;
    CutStands(text, maxLen, l, g, at);
    var front, cut := l.remaining[..at], AfterCut(text, g, at);
    CutParity(FenceCount(front), l.inCodeBlock);
    NewTagIsClean(front, l.inCodeBlock, l'.lang);
    var open := CutPart(text, g, at);
    CloseAccounts(text, g, cut, open, l'.lang);
    part := ClosedPart(open, l'.lang);
    g' := Books(cut.taken, g.parts + [part], Reopening(l'.lang));
  }

  // A cut that does not close: accounts hold, and a cut inside owed text toggles the flag off.
  lemma CutStands(text: Text, maxLen: int, l: Loop, g: Books, at: int)
    requires maxLen >= 1 && |l.remaining| > maxLen && 1 <= at <= maxLen
    requires BestCut(l.remaining[..maxLen], at) && Standing(text, maxLen, l, g)
    ensures var part, g' := CutPart(text, g, at), AfterCut(text, g, at);
      && Accounts(text, g') && Without(g'.owed, FENCE)
      && l.remaining[at..] == g'.owed + text[g'.taken..]
      && l.remaining[..at] == part.reopened + part.body
      && (g'.taken == g.taken ==> FenceCount(l.remaining[..at]) == if l.inCodeBlock then 1 else 0)
      && (FenceCount(l.remaining[..at]) > 0 ==> maxLen >= 3)
  {
    CutTexts(text, g, at);
    CutAccounts(text, g, at);
    CutState(text, maxLen, l, g, at);
  }

  // What a cut inside the owed text, or beyond it, does to the fences.
  lemma CutState(text: Text, maxLen: int, l: Loop, g: Books, at: int)
    requires maxLen >= 1 && |l.remaining| > maxLen && 1 <= at <= maxLen && g.taken <= |text|
    requires BestCut(l.remaining[..maxLen], at) && l.remaining == g.owed + text[g.taken..] && FlagOk(maxLen, l, g)
    ensures at <= |g.owed| ==> Without(g.owed[at..], FENCE) && FenceCount(l.remaining[..at]) == if l.inCodeBlock then 1 else 0
    ensures FenceCount(l.remaining[..at]) > 0 ==> maxLen >= 3
  {
    hide FenceCount;
    hide Without;
    hide BestCut;
    hide CleanTag;
    hide Reopening;
    var rest, candidate := text[g.taken..], l.remaining[..maxLen];
    assert candidate <= g.owed + rest && candidate[..at] == l.remaining[..at];
    ShortHasNoFence(l.remaining[..at]);
    if l.inCodeBlock {
      CutOfReopening(l.lang, rest, candidate, at);
    } else if at <= |g.owed| {
      assert candidate[..at] == g.owed[..at];
      OwedHasNoFence(g.owed, at);
    }
  }

  lemma ShortHasNoFence(s: Text)
    ensures FenceCount(s) > 0 ==> |s| >= 3
  {
  }

  lemma OwedHasNoFence(owed: Text, at: nat)
    requires Without(owed, FENCE) && at <= |owed|
    ensures Without(owed[at..], FENCE) && FenceCount(owed[..at]) == 0
  {
    assert owed[at..] == owed[at..|owed|] && owed[..at] == owed[0..at];
    PartWithout(owed, FENCE, at, |owed|);
    PartWithout(owed, FENCE, 0, at);
    NoFenceCount(owed[..at]);
  }

  lemma NewTagIsClean(chunk: Text, inCodeBlock: bool, lang: Text)
    requires if inCodeBlock then CleanTag(lang) else lang == LangOf(AfterLastFence(chunk))
    ensures CleanTag(lang)
  {
    NoFenceAfterLast(chunk);
    LangIsClean(AfterLastFence(chunk));
  }

  /** Splits a message. The bodies of the chunks are the message; the only other bytes are the
      closings and, for each closing, one reopened fence with the tag of its block; and each cut is
      at the best place that the limit leaves. It terminates for every positive limit although it puts
      text back in front of its own input. */
  method SplitMessage(text: Text, maxLen: int) returns (chunks: seq<Text>, ghost g: Books)
    requires |text| <= maxLen || maxLen >= 1
    ensures PartsOk(chunks, g.parts) && Accounts(text, g) && g.taken == |text| && g.owed == []
    ensures |text| <= maxLen ==> chunks == [text]
    ensures |text| > maxLen ==> SizesOk(chunks, maxLen)
    ensures ParityOk(chunks, g.parts, |chunks| - 1)
    ensures CutsOk(text, maxLen, g.parts, |g.parts| - 1) && |g.parts[|g.parts| - 1].reopened + g.parts[|g.parts| - 1].body| <= maxLen
  {
    hide FenceCount;
    hide BestCut;
    hide Bodies;
    hide ReopenedText;
    hide Reopenings;
    hide TagsOk;
    hide CleanTag;
    hide LangOf;
    hide MadeOf;
    hide SizesOk;
    hide CutAt;
    if |text| <= maxLen {
      g := Books(|text|, [Part([], text, [], [])], []);
      WholeMessage(text);
      return [text], g;
    }
    chunks := [];
    var remaining, inCodeBlock, lang: Text := text, false, [];
    g := Books(0, [], []);
    Beginning(text, maxLen);
    while |remaining| > 0
      invariant PartsOk(chunks, g.parts) && SizesOk(chunks, maxLen) && ParityOk(chunks, g.parts, |chunks|)
      invariant Standing(text, maxLen, Loop(remaining, inCodeBlock, lang), g) && remaining != []
      invariant CutsOk(text, maxLen, g.parts, |g.parts|)
      decreases |text| - g.taken, inCodeBlock, |remaining|
    {
      ghost var part;
      if |remaining| <= maxLen {
        LastPart(text, g, remaining);
        part := CutPart(text, g, |remaining|);
        ChunkAdded(chunks, g.parts, remaining, part, maxLen);
        ParityAdded(chunks, g.parts, remaining, part);
        CutsKept(text, maxLen, g.parts, part);
        return chunks + [remaining], AfterCut(text, g, |remaining|);
      }
      ghost var before, books := Loop(remaining, inCodeBlock, lang), g;
      ghost var parts := g.parts;
      var chunk;
      ghost var at;
      chunk, remaining, inCodeBlock, lang, at := CutChunk(remaining, maxLen, inCodeBlock, lang);
      g, part := RoundOk(text, maxLen, before, g, at, chunk, Loop(remaining, inCodeBlock, lang));
      CutNoted(text, maxLen, before, books, at, part);
      RoundParity(before.remaining[..at], before.inCodeBlock, chunk);
      ChunkAdded(chunks, parts, chunk, part, maxLen);
      ParityAdded(chunks, parts, chunk, part);
      chunks := chunks + [chunk];
    }
  }

  lemma WholeMessage(text: Text)
    ensures var g := Books(|text|, [Part([], text, [], [])], []); Accounts(text, g) && PartsOk([text], g.parts)
  {
    PartsSnoc([], Part([], text, [], []));
    TagsSnoc([], Part([], text, [], []));
  }

  lemma Beginning(text: Text, maxLen: int)
    ensures Standing(text, maxLen, Loop(text, false, []), Books(0, [], []))
    ensures PartsOk([], []) && SizesOk([], maxLen)
  {
    assert [] + text[0..] == text;
  }

  lemma LastPart(text: Text, g: Books, remaining: Text)
    requires Accounts(text, g) && remaining == g.owed + text[g.taken..]
    ensures MadeOf(remaining, CutPart(text, g, |remaining|)) && Accounts(text, AfterCut(text, g, |remaining|))
    ensures var g' := AfterCut(text, g, |remaining|); g'.taken == |text| && g'.owed == []
  {
    CutTexts(text, g, |remaining|);
    CutAccounts(text, g, |remaining|);
    assert remaining[..|remaining|] == remaining;
  }

  lemma ChunkAdded(chunks: seq<Text>, parts: seq<Part>, chunk: Text, part: Part, maxLen: int)
    requires PartsOk(chunks, parts) && SizesOk(chunks, maxLen)
    requires MadeOf(chunk, part) && 1 <= |chunk| <= maxLen + 4
    ensures PartsOk(chunks + [chunk], parts + [part]) && SizesOk(chunks + [chunk], maxLen)
  {
  }

  lemma ParityAdded(chunks: seq<Text>, parts: seq<Part>, chunk: Text, part: Part)
    requires |parts| == |chunks| && ParityOk(chunks, parts, |chunks|)
    ensures ParityOk(chunks + [chunk], parts + [part], |chunks|)
    ensures (FenceCount(chunk) % 2 == 0 <==> !Closed(parts, |parts| - 1)) ==>
      ParityOk(chunks + [chunk], parts + [part], |chunks| + 1)
  {
    var n, chunks', parts' := |chunks|, chunks + [chunk], parts + [part];
    forall i | 0 <= i < n ensures FenceCount(chunks'[i]) % 2 == 0 <==> !Closed(parts', i - 1) {
      assert chunks'[i] == chunks[i] && (Closed(parts', i - 1) <==> Closed(parts, i - 1));
    }
    if FenceCount(chunk) % 2 == 0 <==> !Closed(parts, n - 1) {
      forall i | 0 <= i < n + 1 ensures FenceCount(chunks'[i]) % 2 == 0 <==> !Closed(parts', i - 1) {
        if i == n {
          assert chunks'[n] == chunk && (Closed(parts', n - 1) <==> Closed(parts, n - 1));
        }
      }
    }
  }
}
