/** Finding a JSON array inside a planner's answer that may have text around it. */
module JsonSpan {
  import opened Strings
  import opened Types

  // ---------- JSON texts, with their white space (RFC 8259, sections 2 to 7) ----------

  // A character of a string: as it is, or behind a backslash. The four digits of a \u escape
  // are characters of their own.
  datatype StrChar = Unescaped(c: char) | Escape(c: char)

  datatype Json =
    | Atom(text: Text)
    | Str(chars: seq<StrChar>)
    | Arr(items: Items)
    | Obj(members: Members)

  datatype Items =
    | NoItems(ws: Text)
    | LastItem(lead: Text, value: Json, trail: Text)
    | Item(lead: Text, value: Json, trail: Text, rest: Items)

  datatype Members =
    | NoMembers(ws: Text)
    | LastMember(lead: Text, key: seq<StrChar>, mid: Text, value: Json, trail: Text)
    | Member(lead: Text, key: seq<StrChar>, mid: Text, value: Json, trail: Text, rest: Members)

  ghost predicate White(t: Text) {
    forall i :: 0 <= i < |t| ==> t[i] in {' ', '\t', '\n', '\r'}
  }

  // The space around the colon of a member.
  ghost predicate Colon(t: Text) {
    exists i :: 0 <= i < |t| && t[i] == ':' && White(t[..i]) && White(t[i + 1..])
  }

  // A literal name or a number.
  ghost predicate AtomText(t: Text) {
    t in {"null", "true", "false"} ||
    (t != [] && forall i :: 0 <= i < |t| ==> t[i] in {'0', '1', '2', '3', '4', '5', '6', '7', '8', '9', '+', '-', '.', 'e', 'E'})
  }

  ghost predicate ValidChars(chars: seq<StrChar>) {
    forall i :: 0 <= i < |chars| ==>
      match chars[i]
      case Unescaped(c) => c >= ' ' && c != '"' && c != '\\'
      case Escape(c) => c in {'"', '\\', '/', 'b', 'f', 'n', 'r', 't', 'u'}
  }

  ghost predicate Valid(v: Json) {
    match v
    case Atom(text) => AtomText(text)
    case Str(chars) => ValidChars(chars)
    case Arr(items) => ValidItems(items)
    case Obj(members) => ValidMembers(members)
  }

  ghost predicate ValidItems(items: Items) {
    match items
    case NoItems(ws) => White(ws)
    case LastItem(lead, value, trail) => White(lead) && Valid(value) && White(trail)
    case Item(lead, value, trail, rest) => White(lead) && Valid(value) && White(trail) && ValidItems(rest)
  }

  ghost predicate ValidMembers(members: Members) {
    match members
    case NoMembers(ws) => White(ws)
    case LastMember(lead, key, mid, value, trail) =>
      White(lead) && ValidChars(key) && Colon(mid) && Valid(value) && White(trail)
    case Member(lead, key, mid, value, trail, rest) =>
      White(lead) && ValidChars(key) && Colon(mid) && Valid(value) && White(trail) && ValidMembers(rest)
  }

  function RenderChars(chars: seq<StrChar>): Text {
    if chars == [] then []
    else (match chars[0] case Unescaped(c) => [c] case Escape(c) => ['\\', c]) + RenderChars(chars[1..])
  }

  function RenderString(chars: seq<StrChar>): Text {
    "\"" + RenderChars(chars) + "\""
  }

  function Render(v: Json): Text {
    match v
    case Atom(text) => text
    case Str(chars) => RenderString(chars)
    case Arr(items) => "[" + RenderItems(items) + "]"
    case Obj(members) => "{" + RenderMembers(members) + "}"
  }

  function RenderItems(items: Items): Text {
    match items
    case NoItems(ws) => ws
    case LastItem(lead, value, trail) => lead + Render(value) + trail
    case Item(lead, value, trail, rest) => lead + Render(value) + trail + "," + RenderItems(rest)
  }

  function RenderMembers(members: Members): Text {
    match members
    case NoMembers(ws) => ws
    case LastMember(lead, key, mid, value, trail) => lead + RenderString(key) + mid + Render(value) + trail
    case Member(lead, key, mid, value, trail, rest) =>
      lead + RenderString(key) + mid + Render(value) + trail + "," + RenderMembers(rest)
  }

  // ---------- The scanner ----------

  datatype Scan = Scan(depth: int, inString: bool, escaped: bool) | Found

  function Step(s: Scan, c: char): Scan {
    if s.Found? then Found
    else if s.escaped then s.(escaped := false)
    else if c == '\\' && s.inString then s.(escaped := true)
    else if c == '"' then s.(inString := !s.inString)
    else if s.inString then s
    else if c == '[' then s.(depth := s.depth + 1)
    else if c == ']' then (if s.depth == 1 then Found else s.(depth := s.depth - 1))
    else s
  }

  function Run(s: Scan, t: Text): Scan
    decreases |t|
  {
    if t == [] then s else Run(Step(s, t[0]), t[1..])
  }

  lemma {:induction false} RunConcat(s: Scan, a: Text, b: Text)
    ensures Run(s, a + b) == Run(Run(s, a), b)
    decreases |a|
  {
    if a == [] {
      assert a + b == b;
    } else {
      assert (a + b)[1..] == a[1..] + b;
      RunConcat(Step(s, a[0]), a[1..], b);
    }
  }

  // ---------- Values do not move the scanner ----------

  // Outside strings, inside at least one bracket.
  ghost predicate Resting(s: Scan) {
    s.Scan? && s.depth >= 1 && !s.inString && !s.escaped
  }

  ghost predicate Harmless(t: Text) {
    forall i :: 0 <= i < |t| ==> t[i] !in {'"', '[', ']'}
  }

  lemma {:induction false} HarmlessRests(s: Scan, t: Text)
    requires Resting(s) && Harmless(t)
    ensures Run(s, t) == s
  {
    if t != [] {
      HarmlessRests(s, t[1..]);
    }
  }

  lemma ColonIsHarmless(t: Text)
    requires Colon(t)
    ensures Harmless(t)
  {
    var i :| 0 <= i < |t| && t[i] == ':' && White(t[..i]) && White(t[i + 1..]);
    forall k | 0 <= k < |t| ensures t[k] !in {'"', '[', ']'} {
      if k < i { assert t[k] == t[..i][k]; }
      if k > i { assert t[k] == t[i + 1..][k - i - 1]; }
    }
  }

  // Inside a string, brackets and escaped quotes pass by.
  lemma {:induction false} CharsStayInside(s: Scan, chars: seq<StrChar>)
    requires s.Scan? && s.inString && !s.escaped && ValidChars(chars)
    ensures Run(s, RenderChars(chars)) == s
  {
    if chars != [] {
      var head := match chars[0] case Unescaped(c) => [c] case Escape(c) => ['\\', c];
      CharsStayInside(s, chars[1..]);
      RunConcat(s, head, RenderChars(chars[1..]));
      if chars[0].Escape? {
        assert head[1..] == [chars[0].c];
        assert Run(s, head) == Run(Step(s, '\\'), [chars[0].c]) == Run(s, [chars[0].c][1..]);
      } else {
        assert Run(s, head) == Run(Step(s, head[0]), head[1..]);
      }
    }
  }

  lemma RunQuote(s: Scan)
    requires s.Scan? && !s.escaped
    ensures Run(s, "\"") == s.(inString := !s.inString)
  {
    assert "\""[1..] == [];
  }

  lemma StringRests(s: Scan, chars: seq<StrChar>)
    requires Resting(s) && ValidChars(chars)
    ensures Run(s, RenderString(chars)) == s
  {
    var inside := s.(inString := true);
    RunConcat(s, "\"" + RenderChars(chars), "\"");
    RunConcat(s, "\"", RenderChars(chars));
    RunQuote(s);
    CharsStayInside(inside, chars);
    RunQuote(inside);
  }

  lemma AtomIsHarmless(t: Text)
    requires AtomText(t)
    ensures Harmless(t)
  {
  }

  // Three texts in a row that each leave the scanner where it is.
  lemma RestsThrough(s: Scan, a: Text, b: Text, c: Text)
    requires Run(s, a) == s && Run(s, b) == s && Run(s, c) == s
    ensures Run(s, a + b + c) == s
  {
    RunConcat(s, a + b, c);
    RunConcat(s, a, b);
  }

  /** Scanning any value inside an array leaves the scanner as it was. */
  lemma {:induction false} ValueRests(s: Scan, v: Json)
    requires Resting(s) && Valid(v)
    ensures Run(s, Render(v)) == s
    decreases v, 0
  {
    match v
    case Atom(text) =>
      AtomIsHarmless(text);
      HarmlessRests(s, text);
    case Str(chars) => StringRests(s, chars);
    case Arr(items) =>
      var deeper := s.(depth := s.depth + 1);
      ItemsRest(deeper, items);
      assert Run(s, "[") == deeper by { assert "["[1..] == []; }
      assert Run(deeper, "]") == s by { assert "]"[1..] == []; }
      RunConcat(s, "[" + RenderItems(items), "]");
      RunConcat(s, "[", RenderItems(items));
    case Obj(members) =>
      MembersRest(s, members);
      HarmlessRests(s, "{");
      HarmlessRests(s, "}");
      RestsThrough(s, "{", RenderMembers(members), "}");
  }

  lemma {:induction false} ItemsRest(s: Scan, items: Items)
    requires Resting(s) && ValidItems(items)
    ensures Run(s, RenderItems(items)) == s
    decreases items
  {
    match items
    case NoItems(ws) => HarmlessRests(s, ws);
    case LastItem(lead, value, trail) => ItemRests(s, lead, value, trail);
    case Item(lead, value, trail, rest) =>
      ItemRests(s, lead, value, trail);
      ItemsRest(s, rest);
      HarmlessRests(s, ",");
      RestsThrough(s, lead + Render(value) + trail, ",", RenderItems(rest));
  }

  lemma {:induction false} ItemRests(s: Scan, lead: Text, value: Json, trail: Text)
    requires Resting(s) && White(lead) && Valid(value) && White(trail)
    ensures Run(s, lead + Render(value) + trail) == s
    decreases value, 1
  {
    HarmlessRests(s, lead);
    ValueRests(s, value);
    HarmlessRests(s, trail);
    RestsThrough(s, lead, Render(value), trail);
  }

  lemma {:induction false} MembersRest(s: Scan, members: Members)
    requires Resting(s) && ValidMembers(members)
    ensures Run(s, RenderMembers(members)) == s
    decreases members
  {
    match members
    case NoMembers(ws) => HarmlessRests(s, ws);
    case LastMember(lead, key, mid, value, trail) => MemberRests(s, lead, key, mid, value, trail);
    case Member(lead, key, mid, value, trail, rest) =>
      MemberRests(s, lead, key, mid, value, trail);
      MembersRest(s, rest);
      HarmlessRests(s, ",");
      RestsThrough(s, lead + RenderString(key) + mid + Render(value) + trail, ",", RenderMembers(rest));
  }

  lemma {:induction false} MemberRests(s: Scan, lead: Text, key: seq<StrChar>, mid: Text, value: Json, trail: Text)
    requires Resting(s) && White(lead) && ValidChars(key) && Colon(mid) && Valid(value) && White(trail)
    ensures Run(s, lead + RenderString(key) + mid + Render(value) + trail) == s
    decreases value, 1
  {
    HarmlessRests(s, lead);
    StringRests(s, key);
    ColonIsHarmless(mid);
    HarmlessRests(s, mid);
    ValueRests(s, value);
    HarmlessRests(s, trail);
    RestsThrough(s, lead, RenderString(key), mid);
    RestsThrough(s, lead + RenderString(key) + mid, Render(value), trail);
  }

  // ---------- The finders ----------

  /** The first '[', or -1. */
  method FindJSONArrayStart(s: Text) returns (start: int)
    ensures start == -1 ==> '[' !in s
    ensures start != -1 ==> 0 <= start < |s| && s[start] == '[' && '[' !in s[..start]
  {
    for i := 0 to |s|
      invariant '[' !in s[..i]
    {
      if s[i] == '[' {
        return i;
      }
    }
    return -1;
  }

  // The scanner has not stopped before position i, counted from start.
  ghost predicate NotFoundBefore(s: Text, start: nat, i: nat)
    requires start <= i <= |s|
  {
    Run(Scan(0, false, false), s[start..i]) != Found
  }

  ghost predicate EndsAt(s: Text, start: nat, end: int) {
    && start <= end < |s|
    && NotFoundBefore(s, start, end)
    && Run(Scan(0, false, false), s[start..end + 1]) == Found
  }

  /** The bracket that closes the one at start, or -1. */
  method FindJSONArrayEnd(s: Text, start: nat) returns (end: int)
    requires start <= |s|
    ensures end == -1 ==> NotFoundBefore(s, start, |s|)
    ensures end != -1 ==> EndsAt(s, start, end)
  {
    var depth, inString, escaped := 0, false, false;
    assert s[start..start] == [];
    for i := start to |s|
      invariant Run(Scan(0, false, false), s[start..i]) == Scan(depth, inString, escaped)
    {
      RunNext(s, start, i);
      var c := s[i];
      if escaped {
        escaped := false;
      } else if c == '\\' && inString {
        escaped := true;
      } else if c == '"' {
        inString := !inString;
      } else if inString {
      } else if c == '[' {
        depth := depth + 1;
      } else if c == ']' {
        depth := depth - 1;
        if depth == 0 {
          return i;
        }
      }
    }
    return -1;
  }

  lemma RunNext(s: Text, start: nat, i: nat)
    requires start <= i < |s|
    ensures Run(Scan(0, false, false), s[start..i + 1]) == Step(Run(Scan(0, false, false), s[start..i]), s[i])
  {
    assert s[start..i + 1] == s[start..i] + [s[i]];
    RunConcat(Scan(0, false, false), s[start..i], [s[i]]);
    assert [s[i]][1..] == [];
  }

  lemma {:induction false} FoundStays(t: Text)
    ensures Run(Found, t) == Found
  {
    if t != [] {
      FoundStays(t[1..]);
    }
  }

  lemma EndIsUnique(s: Text, start: nat, a: int, b: int)
    requires EndsAt(s, start, a) && EndsAt(s, start, b)
    ensures a == b
  {
    if a < b {
      NoEndLater(s, start, a, b);
    } else if b < a {
      NoEndLater(s, start, b, a);
    }
  }

  lemma NoEndLater(s: Text, start: nat, a: int, b: int)
    requires EndsAt(s, start, a) && a < b <= |s|
    ensures !NotFoundBefore(s, start, b)
  {
    assert s[start..b] == s[start..a + 1] + s[a + 1..b];
    RunConcat(Scan(0, false, false), s[start..a + 1], s[a + 1..b]);
    FoundStays(s[a + 1..b]);
  }

  // An array standing in a text ends where its rendering ends.
  lemma ArrayEnds(prefix: Text, items: Items, suffix: Text)
    requires ValidItems(items)
    ensures EndsAt(prefix + Render(Arr(items)) + suffix, |prefix|, |prefix| + |Render(Arr(items))| - 1)
  {
    var text := Render(Arr(items));
    var s := prefix + text + suffix;
    var start, inside := Scan(0, false, false), "[" + RenderItems(items);
    var one := Scan(1, false, false);
    var end := |prefix| + |text| - 1;
    assert s[|prefix|..end] == inside;
    assert s[|prefix|..end + 1] == inside + "]";
    RunConcat(start, "[", RenderItems(items));
    assert Run(start, "[") == one by { assert "["[1..] == []; }
    ItemsRest(one, items);
    RunConcat(start, inside, "]");
    assert Run(one, "]") == Found by { assert "]"[1..] == []; }
  }

  // The response is some text without an opening bracket, a rendered array, and some text.
  ghost predicate Holds(response: Text, prefix: Text, items: Items, suffix: Text) {
    ValidItems(items) && '[' !in prefix && response == prefix + Render(Arr(items)) + suffix
  }

  lemma SpanIsArray(response: Text, prefix: Text, items: Items, suffix: Text, start: int, end: int)
    requires Holds(response, prefix, items, suffix)
    requires start == -1 ==> '[' !in response
    requires start != -1 ==> 0 <= start < |response| && response[start] == '[' && '[' !in response[..start]
    requires start != -1 && end == -1 ==> NotFoundBefore(response, start, |response|)
    requires start != -1 && end != -1 ==> EndsAt(response, start, end)
    ensures 0 <= start <= end < |response| && response[start..end + 1] == Render(Arr(items))
  {
    var text := Render(Arr(items));
    assert response[|prefix|] == '[' && response[..|prefix|] == prefix;
    FirstBracket(response, |prefix|, start);
    ArrayEnds(prefix, items, suffix);
    if end == -1 {
      NoEndLater(response, start, |prefix| + |text| - 1, |response|);
    } else {
      EndIsUnique(response, start, end, |prefix| + |text| - 1);
    }
    assert response[|prefix|..|prefix| + |text|] == text;
  }

  /** The text that is decoded when the whole response is not JSON. Whenever the response holds
      a JSON array behind text without an opening bracket, it is exactly that array: white
      space, nested arrays, and quotes and brackets inside strings included. */
  method ExtractArray(response: Text) returns (found: Option<Text>)
    ensures forall prefix, items, suffix :: Holds(response, prefix, items, suffix) ==> found == Some(Render(Arr(items)))
    ensures found.Some? ==> found.value != [] && found.value[0] == '[' && found.value[|found.value| - 1] == ']'
  {
    var start := FindJSONArrayStart(response);
    var end := -1;
    if start >= 0 {
      end := FindJSONArrayEnd(response, start);
    }
    forall prefix, items, suffix | Holds(response, prefix, items, suffix)
      ensures 0 <= start <= end < |response| && response[start..end + 1] == Render(Arr(items))
    {
      SpanIsArray(response, prefix, items, suffix, start, end);
    }
    if start < 0 || end < 0 {
      return None;
    }
    RunNext(response, start, end);
    return Some(response[start..end + 1]);
  }

  lemma FirstBracket(s: Text, p: nat, start: int)
    requires p < |s| && s[p] == '[' && '[' !in s[..p]
    requires start == -1 ==> '[' !in s
    requires start != -1 ==> 0 <= start < |s| && s[start] == '[' && '[' !in s[..start]
    ensures start == p
  {
    assert start != -1;
  }
}
