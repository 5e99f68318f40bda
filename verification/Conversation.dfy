/** The history of a conversation: what one call of Process sends to the model, and what it
    leaves in the store. */
module Conversation {
  import opened Types

  // ---------- Messages ----------

  datatype Speaker = User | Assistant

  datatype Block = TextBlock(text: string) | ToolUse(id: string, name: string) | ToolResult(useId: string, text: string, isError: bool)

  datatype Message = Message(role: Speaker, content: string, blocks: seq<Block>)

  // The ids of the tool calls of a message, in order.
  function UseIds(blocks: seq<Block>): seq<string> {
    if blocks == [] then []
    else (if blocks[0].ToolUse? then [blocks[0].id] else []) + UseIds(blocks[1..])
  }

  function ResultIds(blocks: seq<Block>): seq<string> {
    if blocks == [] then []
    else (if blocks[0].ToolResult? then [blocks[0].useId] else []) + ResultIds(blocks[1..])
  }

  // ---------- Shortening the history before a call ----------

  function KeepRecent(maxMessages: int): (n: int)
    ensures n >= 2
  {
    if maxMessages * 4 / 10 < 2 then 2 else maxMessages * 4 / 10
  }

  // summarizeHistory; `summary` is what the model made of the older part, empty if it failed.
  function Summarized(history: seq<Message>, maxMessages: int, summary: string): seq<Message> {
    var toSummarize := |history| - KeepRecent(maxMessages);
    if |history| < maxMessages * 8 / 10 || toSummarize < 4 || summary == "" then history
    else [SummaryMessage(summary)] + history[toSummarize..]
  }

  // truncateHistory: the newest messages, not starting with the assistant.
  function Truncated(history: seq<Message>, max: int): seq<Message>
    requires max >= 1
  {
    if |history| <= max then history
    else
      var tail := history[|history| - max..];
      if tail[0].role == Assistant then tail[1..] else tail
  }

  /** However the history was shortened, the user's message just appended is still its last
      message, and the adjusted start index points exactly at it. */
  lemma ShorteningKeepsNewMessage(loaded: seq<Message>, msg: Message, max: int, summarize: bool, summary: string)
    requires max >= 1 && msg.role == User
    ensures var before := loaded + [msg];
      var after := Truncated(if summarize then Summarized(before, max, summary) else before, max);
      && 1 <= |after| <= |before| && after[|after| - 1] == msg
      && |loaded| - (|before| - |after|) == |after| - 1
  {
    var before := loaded + [msg];
    var mid := if summarize then Summarized(before, max, summary) else before;
    assert |mid| >= 1 && mid[|mid| - 1] == msg;
  }

  // The assistant never speaks twice in a row.
  ghost predicate NoEcho(log: seq<Message>) {
    forall i :: 0 <= i < |log| - 1 ==> !(log[i].role == Assistant && log[i + 1].role == Assistant)
  }

  // A conversation also opens with the user.
  ghost predicate TurnsOk(log: seq<Message>) {
    (|log| > 0 ==> log[0].role == User) && NoEcho(log)
  }

  lemma LoadedNoEcho(log: seq<Message>, cut: nat, msg: Message)
    requires NoEcho(log) && cut <= |log| && msg.role == User
    ensures NoEcho(log[cut..] + [msg])
  {
    var before := log[cut..] + [msg];
    forall i | 0 <= i < |before| - 1 ensures !(before[i].role == Assistant && before[i + 1].role == Assistant) {
      if i + 1 < |log| - cut {
        assert before[i] == log[cut + i] && before[i + 1] == log[cut + i + 1];
      }
    }
  }

  lemma SummaryNoEcho(first: Message, history: seq<Message>, cut: nat)
    requires NoEcho(history) && cut <= |history| && first.role == User
    ensures NoEcho([first] + history[cut..])
  {
    var mid := [first] + history[cut..];
    forall i | 0 <= i < |mid| - 1 ensures !(mid[i].role == Assistant && mid[i + 1].role == Assistant) {
      if i > 0 {
        assert mid[i] == history[cut + i - 1] && mid[i + 1] == history[cut + i - 1 + 1];
      }
    }
  }

  lemma TruncatedStart(mid: seq<Message>, max: int)
    requires max >= 1 && |mid| >= 1 && NoEcho(mid) && mid[|mid| - 1].role == User
    requires |mid| <= max ==> mid[0].role == User
    ensures |Truncated(mid, max)| >= 1 && Truncated(mid, max)[0].role == User
  {
    var k := |mid| - max;
    if k > 0 && mid[k].role == Assistant {
      assert !(mid[k].role == Assistant && mid[k + 1].role == Assistant);
    }
  }

  /** The first message sent to the model is the user's, although history is cut in three
      places: when it is loaded, when it is summarised and when it is truncated. */
  lemma FirstSentIsUser(log: seq<Message>, loaded: seq<Message>, msg: Message, max: int, summarize: bool, summary: string)
    requires max >= 1 && msg.role == User && TurnsOk(log)
    requires |loaded| <= |log| && loaded == log[|log| - |loaded|..] && |loaded| <= max
    requires |loaded| < |log| ==> |loaded| == max
    ensures var before := loaded + [msg];
      var after := Truncated(if summarize then Summarized(before, max, summary) else before, max);
      |after| >= 1 && after[0].role == User
  {
    var before := loaded + [msg];
    LoadedNoEcho(log, |log| - |loaded|, msg);
    var mid := if summarize then Summarized(before, max, summary) else before;
    hide NoEcho;
    if mid != before {
      SummaryNoEcho(SummaryMessage(summary), before, |before| - KeepRecent(max));
    }
    TruncatedStart(mid, max);
  }

  // ---------- Pairing of tool calls and results ----------

  // Whether each message is an assistant turn that stopped to use tools.
  ghost predicate Answered(log: seq<Message>, asks: seq<bool>, i: int)
    requires 0 <= i < |log| == |asks|
  {
    asks[i] ==>
      && i + 1 < |log| && log[i].role == Assistant && log[i + 1].role == User
      && ResultIds(log[i + 1].blocks) == UseIds(log[i].blocks)
  }

  /** Every assistant turn that asked for tools is directly followed by the results of exactly
      its calls, in the order of the calls. */
  ghost predicate Paired(log: seq<Message>, asks: seq<bool>) {
    |asks| == |log| && forall i :: 0 <= i < |log| ==> Answered(log, asks, i)
  }

  lemma PairedConcat(a: seq<Message>, asksA: seq<bool>, b: seq<Message>, asksB: seq<bool>)
    requires Paired(a, asksA) && Paired(b, asksB)
    ensures Paired(a + b, asksA + asksB)
  {
    var log, asks := a + b, asksA + asksB;
    forall i | 0 <= i < |log| ensures Answered(log, asks, i) {
      if i < |a| {
        assert Answered(a, asksA, i);
      } else {
        assert Answered(b, asksB, i - |a|);
      }
    }
  }

  lemma PairedTurn(log: seq<Message>, asks: seq<bool>, turn: Message, results: Message)
    requires Paired(log, asks) && turn.role == Assistant && results.role == User
    requires ResultIds(results.blocks) == UseIds(turn.blocks)
    ensures Paired(log + [turn, results], asks + [true, false])
  {
    assert Paired([turn, results], [true, false]) by {
      assert Answered([turn, results], [true, false], 0);
    }
    PairedConcat(log, asks, [turn, results], [true, false]);
  }

  lemma PairedPlain(log: seq<Message>, asks: seq<bool>, m: Message)
    requires Paired(log, asks)
    ensures Paired(log + [m], asks + [false])
  {
    PairedConcat(log, asks, [m], [false]);
  }

  // A user message that carries the results of tool calls.
  predicate HasResults(m: Message) {
    m.role == User && ResultIds(m.blocks) != []
  }

  ghost predicate BackedAt(log: seq<Message>, i: int)
    requires 0 <= i < |log|
  {
    HasResults(log[i]) ==> i > 0 && log[i - 1].role == Assistant && UseIds(log[i - 1].blocks) == ResultIds(log[i].blocks)
  }

  /** The other direction: every message of results comes right after the turn that asked for them. */
  ghost predicate Backed(log: seq<Message>) {
    forall i :: 0 <= i < |log| ==> BackedAt(log, i)
  }

  lemma BackedConcat(a: seq<Message>, b: seq<Message>)
    requires Backed(a) && Backed(b)
    ensures Backed(a + b)
  {
    var log := a + b;
    forall i | 0 <= i < |log| ensures BackedAt(log, i) {
      if i < |a| {
        assert BackedAt(a, i);
      } else {
        assert BackedAt(b, i - |a|);
      }
    }
  }

  lemma BackedTurn(log: seq<Message>, turn: Message, results: Message)
    requires Backed(log) && turn.role == Assistant && ResultIds(results.blocks) == UseIds(turn.blocks)
    ensures Backed(log + [turn, results])
  {
    assert BackedAt([turn, results], 0) && BackedAt([turn, results], 1);
    assert Backed([turn, results]);
    BackedConcat(log, [turn, results]);
  }

  // Cutting off the front, with at most one new user message in its place.
  lemma CutBacked(prefix: seq<Message>, full: seq<Message>, k: nat)
    requires Backed(full) && k < |full| && |prefix| <= 1 && forall m :: m in prefix ==> m.role == User && !HasResults(m)
    ensures Backed(prefix + full[k..]) <==> !HasResults(full[k])
  {
    var cut, p := prefix + full[k..], |prefix|;
    assert cut[p] == full[k];
    assert p == 1 ==> cut[0] == prefix[0] && prefix[0] in prefix;
    if HasResults(full[k]) {
      assert !BackedAt(cut, p);
    } else {
      forall i | 0 <= i < |cut| ensures BackedAt(cut, i) {
        if i > p {
          assert cut[i] == full[k + i - p] && cut[i - 1] == full[k + i - p - 1];
          assert BackedAt(full, k + i - p);
        }
      }
    }
  }

  // ---------- Tool calls ----------

  datatype ToolOutcome = Output(text: string) | NeedsApproval(approval: string) | Error(text: string)

  function ResultOf(id: string, outcome: ToolOutcome): Block {
    match outcome
    case Output(text) => ToolResult(id, text, false)
    case NeedsApproval(approval) =>
      ToolResult(id, "Tool execution requires approval (id: " + approval + "). Waiting for human approval.", true)
    case Error(text) => ToolResult(id, "Error: " + text, true)
  }

  // What the tools make of the calls of a message; `tool` answers the block with a given index.
  function Results(blocks: seq<Block>, tool: nat -> ToolOutcome): seq<Block>
    decreases |blocks|
  {
    if blocks == [] then []
    else
      var n := |blocks| - 1;
      Results(blocks[..n], tool) + if blocks[n].ToolUse? then [ResultOf(blocks[n].id, tool(n))] else []
  }

  // The approvals that the calls of a message are waiting for.
  function Awaited(blocks: seq<Block>, tool: nat -> ToolOutcome): seq<string>
    decreases |blocks|
  {
    if blocks == [] then []
    else
      var n := |blocks| - 1;
      Awaited(blocks[..n], tool) + if blocks[n].ToolUse? && tool(n).NeedsApproval? then [tool(n).approval] else []
  }

  /** One result per tool call, with its id, in its place, whatever the tools do. */
  lemma {:induction false} ResultsAnswerCalls(blocks: seq<Block>, tool: nat -> ToolOutcome)
    ensures ResultIds(Results(blocks, tool)) == UseIds(blocks)
    decreases |blocks|
  {
    if blocks != [] {
      var n := |blocks| - 1;
      ResultsAnswerCalls(blocks[..n], tool);
      assert blocks == blocks[..n] + [blocks[n]];
      UseIdsSnoc(blocks[..n], blocks[n]);
      if blocks[n].ToolUse? {
        ResultIdsSnoc(Results(blocks[..n], tool), ResultOf(blocks[n].id, tool(n)));
      } else {
        assert Results(blocks, tool) == Results(blocks[..n], tool);
      }
    }
  }

  lemma NextResult(blocks: seq<Block>, i: nat, tool: nat -> ToolOutcome)
    requires i < |blocks|
    ensures Results(blocks[..i + 1], tool) ==
      Results(blocks[..i], tool) + if blocks[i].ToolUse? then [ResultOf(blocks[i].id, tool(i))] else []
    ensures Awaited(blocks[..i + 1], tool) ==
      Awaited(blocks[..i], tool) + if blocks[i].ToolUse? && tool(i).NeedsApproval? then [tool(i).approval] else []
  {
    assert blocks[..i + 1][..i] == blocks[..i];
  }

  /** executeToolCalls. */
  method ExecuteToolCalls(blocks: seq<Block>, tool: nat -> ToolOutcome) returns (results: seq<Block>, approvals: seq<string>)
    ensures results == Results(blocks, tool) && approvals == Awaited(blocks, tool)
  {
    results, approvals := [], [];
    for i := 0 to |blocks|
      invariant results == Results(blocks[..i], tool) && approvals == Awaited(blocks[..i], tool)
    {
      NextResult(blocks, i, tool);
      if blocks[i].ToolUse? {
        var id := blocks[i].id;
        match tool(i) {
          case Output(text) =>
            results := results + [ToolResult(id, text, false)];
          case NeedsApproval(approval) =>
            approvals := approvals + [approval];
            results := results + [ToolResult(id, "Tool execution requires approval (id: " + approval + "). Waiting for human approval.", true)];
          case Error(text) =>
            results := results + [ToolResult(id, "Error: " + text, true)];
        }
      }
    }
    assert blocks[..|blocks|] == blocks;
  }

  lemma {:induction false} UseIdsSnoc(blocks: seq<Block>, b: Block)
    ensures UseIds(blocks + [b]) == UseIds(blocks) + if b.ToolUse? then [b.id] else []
  {
    if blocks != [] {
      assert (blocks + [b])[1..] == blocks[1..] + [b];
      UseIdsSnoc(blocks[1..], b);
    }
  }

  lemma {:induction false} ResultIdsSnoc(blocks: seq<Block>, b: Block)
    ensures ResultIds(blocks + [b]) == ResultIds(blocks) + if b.ToolResult? then [b.useId] else []
  {
    if blocks != [] {
      assert (blocks + [b])[1..] == blocks[1..] + [b];
      ResultIdsSnoc(blocks[1..], b);
    }
  }

  // ---------- The store and the orchestrator ----------

  datatype Settings = Settings(maxHistory: int, maxIterations: int, maxBytes: int, summarize: bool)

  function HistoryLimit(s: Settings): (n: int)
    ensures n >= 1
  {
    if s.maxHistory > 0 then s.maxHistory else 100
  }

  function IterationLimit(s: Settings): (n: int)
    ensures n >= 1
  {
    if s.maxIterations > 0 then s.maxIterations else 25
  }

  function TruncateContent(s: Settings, text: string): string {
    var max := if s.maxBytes > 0 then s.maxBytes else 32768;
    if |text| <= max then text else text[..max] + "\n[message truncated]"
  }

  datatype Reply = NoReply | Reply(blocks: seq<Block>, stopsForTools: bool)

  type Model = nat -> Reply

  type Tools = nat -> nat -> ToolOutcome

  /** The turns a call adds after the user's message: the model's replies in order, each that
      stops for tools followed by their results, until a reply stops by itself, an approval is
      awaited, the model fails or the iterations are used up. */
  function Turns(limit: nat, iter: nat, model: Model, tools: Tools): seq<Message>
    decreases limit - iter
  {
    if iter >= limit || model(iter).NoReply? then []
    else
      var turn := Message(Assistant, "", model(iter).blocks);
      if !model(iter).stopsForTools then [turn]
      else
        [turn, Message(User, "", Results(turn.blocks, tools(iter)))] +
        if Awaited(turn.blocks, tools(iter)) != [] then [] else Turns(limit, iter + 1, model, tools)
  }

  // Which of these turns stopped for tools.
  function Asks(limit: nat, iter: nat, model: Model, tools: Tools): seq<bool>
    decreases limit - iter
  {
    if iter >= limit || model(iter).NoReply? then []
    else if !model(iter).stopsForTools then [false]
    else [true, false] + if Awaited(model(iter).blocks, tools(iter)) != [] then [] else Asks(limit, iter + 1, model, tools)
  }

  /** Among the turns of a call, every turn that stopped for tools is directly followed by the
      results of exactly its calls, in the order of the calls. */
  lemma {:induction false} TurnsArePaired(limit: nat, iter: nat, model: Model, tools: Tools)
    ensures Paired(Turns(limit, iter, model, tools), Asks(limit, iter, model, tools))
    decreases limit - iter
  {
    if iter < limit && model(iter).Reply? {
      var turn := Message(Assistant, "", model(iter).blocks);
      if !model(iter).stopsForTools {
        assert Answered([turn], [false], 0);
      } else {
        var results := Message(User, "", Results(turn.blocks, tools(iter)));
        ResultsAnswerCalls(turn.blocks, tools(iter));
        assert Answered([turn, results], [true, false], 0) && Answered([turn, results], [true, false], 1);
        TurnsArePaired(limit, iter + 1, model, tools);
        if Awaited(turn.blocks, tools(iter)) == [] {
          PairedConcat([turn, results], [true, false], Turns(limit, iter + 1, model, tools), Asks(limit, iter + 1, model, tools));
        } else {
          assert [turn, results] + [] == [turn, results] && [true, false] + [] == [true, false];
        }
      }
    }
  }

  // ---------- Calls that nothing answers ----------

  ghost predicate AnsweredAt(log: seq<Message>, i: int)
    requires 0 <= i < |log|
  {
    log[i].role == Assistant && UseIds(log[i].blocks) != [] ==>
      i + 1 < |log| && log[i + 1].role == User && ResultIds(log[i + 1].blocks) == UseIds(log[i].blocks)
  }

  // Every call of the assistant, whatever it stopped for, is answered by the next message.
  ghost predicate AllAnswered(log: seq<Message>) {
    forall i :: 0 <= i < |log| ==> AnsweredAt(log, i)
  }

  // The loop is ended by a reply that does not stop for tools and carries a call all the same.
  predicate LooseCall(limit: nat, iter: nat, model: Model, tools: Tools)
    decreases limit - iter
  {
    if iter >= limit || model(iter).NoReply? then false
    else if !model(iter).stopsForTools then UseIds(model(iter).blocks) != []
    else Awaited(model(iter).blocks, tools(iter)) == [] && LooseCall(limit, iter + 1, model, tools)
  }

  // Two logs, the later of which does not begin with results.
  lemma AnsweredConcat(a: seq<Message>, b: seq<Message>)
    requires b != [] ==> !HasResults(b[0])
    ensures AllAnswered(a + b) <==> AllAnswered(a) && AllAnswered(b)
  {
    hide UseIds;
    hide ResultIds;
    forall i | 0 <= i < |a| ensures AnsweredAt(a + b, i) <==> AnsweredAt(a, i) {
      AnsweredFront(a, b, i);
    }
    forall i | |a| <= i < |a + b| ensures AnsweredAt(a + b, i) <==> AnsweredAt(b, i - |a|) {
    }
    if AllAnswered(a + b) {
      forall i | 0 <= i < |b| ensures AnsweredAt(b, i) {
        assert AnsweredAt(a + b, |a| + i) <==> AnsweredAt(b, |a| + i - |a|);
      }
    }
  }

  lemma AnsweredFront(a: seq<Message>, b: seq<Message>, i: nat)
    requires i < |a| && (b != [] ==> !HasResults(b[0]))
    ensures AnsweredAt(a + b, i) <==> AnsweredAt(a, i)
  {
    assert (a + b)[i] == a[i];
    if i + 1 < |a| {
      assert (a + b)[i + 1] == a[i + 1];
    } else if b != [] {
      assert (a + b)[i + 1] == b[0];
    }
  }

  lemma TurnsBeginPlainly(limit: nat, iter: nat, model: Model, tools: Tools)
    ensures var turns := Turns(limit, iter, model, tools); turns != [] ==> turns[0].role == Assistant
  {
  }

  // A pair that is answered leaves the question to what follows it.
  lemma AnsweredAfterPair(turn: Message, results: Message, rest: seq<Message>)
    requires turn.role == Assistant && results.role == User && ResultIds(results.blocks) == UseIds(turn.blocks)
    requires rest != [] ==> rest[0].role == Assistant
    ensures AllAnswered([turn, results] + rest) <==> AllAnswered(rest)
  {
    var pair := [turn, results];
    assert AnsweredAt(pair, 0) && AnsweredAt(pair, 1);
    assert AllAnswered(pair);
    AnsweredConcat(pair, rest);
  }

  lemma AnsweredOne(turn: Message)
    requires turn.role == Assistant
    ensures AllAnswered([turn]) <==> UseIds(turn.blocks) == []
  {
    assert AnsweredAt([turn], 0) <==> UseIds(turn.blocks) == [];
  }

  /** Every call among the turns is answered by the next message exactly when the reply that ends
      the loop by itself, if one does, carries no call: what decides is the stop reason alone. */
  lemma {:induction false} CallsAnsweredExactly(limit: nat, iter: nat, model: Model, tools: Tools)
    ensures AllAnswered(Turns(limit, iter, model, tools)) <==> !LooseCall(limit, iter, model, tools)
    decreases limit - iter
  {
    if iter < limit && model(iter).Reply? {
      var turn := Message(Assistant, "", model(iter).blocks);
      if !model(iter).stopsForTools {
        AnsweredOne(turn);
      } else {
        var results := Message(User, "", Results(turn.blocks, tools(iter)));
        ResultsAnswerCalls(turn.blocks, tools(iter));
        CallsAnsweredExactly(limit, iter + 1, model, tools);
        TurnsBeginPlainly(limit, iter + 1, model, tools);
        AnsweredAfterPair(turn, results, if Awaited(turn.blocks, tools(iter)) != [] then [] else Turns(limit, iter + 1, model, tools));
      }
    }
  }

  /** A reply cut off in the middle of a call, with a stop reason other than tool use. */
  lemma UnansweredCall(model: Model, tools: Tools)
    requires model(0) == Reply([ToolUse("t", "x")], false)
    ensures Turns(25, 0, model, tools) == [Message(Assistant, "", [ToolUse("t", "x")])] && !AllAnswered(Turns(25, 0, model, tools))
  {
    assert UseIds([ToolUse("t", "x")]) == ["t"];
    CallsAnsweredExactly(25, 0, model, tools);
  }

  // The newest messages, in order.
  function Newest(log: seq<Message>, max: int): seq<Message> {
    if 0 < max < |log| then log[|log| - max..] else log
  }

  // What the first request to the model holds.
  function FirstRequest(log: seq<Message>, settings: Settings, text: string, summary: string): seq<Message> {
    Shortened(settings, Newest(log, HistoryLimit(settings)) + [Message(User, TruncateContent(settings, text), [])], summary)
  }

  function Shortened(settings: Settings, history: seq<Message>, summary: string): seq<Message> {
    var max := HistoryLimit(settings);
    Truncated(if settings.summarize then Summarized(history, max, summary) else history, max)
  }

  // What holds of every stored conversation.
  ghost predicate LogOk(log: seq<Message>, asks: seq<bool>) {
    Paired(log, asks) && TurnsOk(log) && Backed(log)
  }

  lemma LogOkConcat(a: seq<Message>, asksA: seq<bool>, b: seq<Message>, asksB: seq<bool>)
    requires LogOk(a, asksA) && LogOk(b, asksB)
    ensures LogOk(a + b, asksA + asksB)
  {
    PairedConcat(a, asksA, b, asksB);
    BackedConcat(a, b);
    var log := a + b;
    hide Paired;
    hide Backed;
    forall i | 0 <= i < |log| - 1 ensures !(log[i].role == Assistant && log[i + 1].role == Assistant) {
      if i + 1 < |a| {
        assert log[i] == a[i] && log[i + 1] == a[i + 1];
      } else if i + 1 == |a| {
        assert log[i + 1] == b[0];
      } else {
        assert log[i] == b[i - |a|] && log[i + 1] == b[i - |a| + 1];
      }
    }
  }

  class ConversationStore {
    var history: map<Id, seq<Message>>
    // History: which stored messages are assistant turns that asked for tools.
    ghost var asks: map<Id, seq<bool>>

    ghost predicate Valid()
      reads this
    {
      asks.Keys == history.Keys && forall c :: c in history ==> LogOk(history[c], asks[c])
    }

    constructor ()
      ensures Valid() && history == map[]
    {
      history, asks := map[], map[];
    }

    function Log(conv: Id): seq<Message>
      reads this
    {
      if conv in history then history[conv] else []
    }

    // Which messages of the conversation stopped for tools.
    ghost function Flags(conv: Id): seq<bool>
      reads this
    {
      if conv in asks then asks[conv] else []
    }

    method AppendMessages(conv: Id, msgs: seq<Message>, ghost flags: seq<bool>)
      modifies this
      ensures asks == old(asks)[conv := old(Flags(conv)) + flags]
      ensures history == old(history)[conv := old(Log(conv)) + msgs]
      ensures old(Valid()) && LogOk(msgs, flags) ==> Valid()
    {
      if Valid() && LogOk(msgs, flags) {
        LogOkConcat(Log(conv), Flags(conv), msgs, flags);
      }
      asks := asks[conv := Flags(conv) + flags];
      history := history[conv := Log(conv) + msgs];
    }

    method LoadHistory(conv: Id, maxMessages: int) returns (msgs: seq<Message>)
      ensures msgs == Newest(Log(conv), maxMessages)
      ensures msgs == if maxMessages > 0 && |Log(conv)| > maxMessages then Log(conv)[|Log(conv)| - maxMessages..] else Log(conv)
    {
      msgs := Log(conv);
      if maxMessages > 0 && |msgs| > maxMessages {
        msgs := msgs[|msgs| - maxMessages..];
      }
    }

    /** Replaces the text of the newest result for a tool call and nothing else; calls and
        results stay paired. */
    method ReplaceToolResult(conv: Id, useId: string, newContent: string, isError: bool) returns (found: bool)
      requires Valid()
      modifies this
      ensures Valid() && asks == old(asks)
      ensures found <==> exists i :: 0 <= i < |old(Log(conv))| && useId in ResultIds(old(Log(conv))[i].blocks)
      ensures !found ==> history == old(history)
      ensures found ==> exists i, j ::
        && 0 <= i < |old(Log(conv))| && 0 <= j < |old(Log(conv))[i].blocks|
        && IsResultFor(old(Log(conv))[i].blocks[j], useId)
        && (forall k :: i < k < |old(Log(conv))| ==> useId !in ResultIds(old(Log(conv))[k].blocks))
        && (forall k :: 0 <= k < j ==> !IsResultFor(old(Log(conv))[i].blocks[k], useId))
        && history == old(history)[conv := Log(conv)]
        && OnlyResultChanged(old(Log(conv)), Log(conv), i, j, ToolResult(useId, newContent, isError))
    {
      var msgs := Log(conv);
      var i, j := FindNewestResult(msgs, useId);
      found := i >= 0;
      if found {
        ReplacedStaysOk(msgs, asks[conv], i, j, newContent, isError);
        history := history[conv := Replaced(msgs, i, j, newContent, isError)];
        ReplacedIs(msgs, i, j, useId, newContent, isError);
      }
    }

    /** One call of Process on a stored conversation. Whatever the model and the tools do, the
        messages persisted are exactly the ones added by this call: the user's message, then
        the turns in order, each request for tools followed by its results. */
    method Process(settings: Settings, conv: Id, text: string, summary: string, model: Model, tools: Tools)
        returns (firstSent: seq<Message>)
      requires Valid()
      modifies this
      ensures Valid()
      ensures history == old(history)[conv :=
        old(Log(conv)) + [Message(User, TruncateContent(settings, text), [])] + Turns(IterationLimit(settings), 0, model, tools)]
      ensures asks == old(asks)[conv := old(Flags(conv)) + [false] + Asks(IterationLimit(settings), 0, model, tools)]
      ensures AllAnswered(Log(conv)) <==> AllAnswered(old(Log(conv))) && !LooseCall(IterationLimit(settings), 0, model, tools)
      ensures firstSent == FirstRequest(old(Log(conv)), settings, text, summary)
      ensures |firstSent| >= 1 && |Log(conv)| > |old(Log(conv))| && Log(conv)[|old(Log(conv))|] == firstSent[|firstSent| - 1]
      ensures var max := if settings.maxBytes > 0 then settings.maxBytes else 32768;
        Log(conv)[|old(Log(conv))|] == Message(User, if |text| <= max then text else text[..max] + "\n[message truncated]", [])
      ensures firstSent[0].role == User
    {
      hide *;
      LogTurns(conv);
      var hist := LoadHistory(conv, HistoryLimit(settings));
      var userMsg := Message(User, TruncateContent(settings, text), []);
      FirstRequestOk(Log(conv), settings, text, summary);
      var historyStart;
      hist, historyStart := Shorten(settings, hist, userMsg, summary);
      firstSent := hist;
      var persisted, flags := TakeTurns(settings, hist, historyStart, userMsg, model, tools);
      AlternatingTurns(persisted);
      assert LogOk(persisted, flags) by {
        AllOk(persisted, flags);
      }
      ghost var turns := Turns(IterationLimit(settings), 0, model, tools);
      ghost var stops := Asks(IterationLimit(settings), 0, model, tools);
      AppendThree(Log(conv), userMsg, turns);
      assert Flags(conv) + ([false] + stops) == Flags(conv) + [false] + stops;
      ghost var log := Log(conv);
      AnsweredCall(log, userMsg, IterationLimit(settings), model, tools);
      AppendMessages(conv, persisted, flags);
      LogIs(conv, log + ([userMsg] + turns));
      NewEntry(log, userMsg, turns);
      ContentIs(settings, text);
    }

    lemma LogIs(conv: Id, log: seq<Message>)
      requires conv in history && history[conv] == log
      ensures Log(conv) == log
    {
    }

    lemma LogTurns(conv: Id)
      requires Valid()
      ensures TurnsOk(Log(conv)) && Backed(Log(conv))
    {
    }
  }

  lemma NewEntry(log: seq<Message>, m: Message, turns: seq<Message>)
    ensures var longer := log + ([m] + turns); |longer| > |log| && longer[|log|] == m
  {
  }

  lemma ContentIs(settings: Settings, text: string)
    ensures var max := if settings.maxBytes > 0 then settings.maxBytes else 32768;
      TruncateContent(settings, text) == if |text| <= max then text else text[..max] + "\n[message truncated]"
  {
  }

  lemma AppendThree(log: seq<Message>, m: Message, turns: seq<Message>)
    ensures log + ([m] + turns) == log + [m] + turns
  {
  }

  // One more call on a conversation keeps all calls answered exactly when it leaves none loose.
  lemma AnsweredCall(log: seq<Message>, m: Message, limit: nat, model: Model, tools: Tools)
    requires m.role == User && m.blocks == []
    ensures AllAnswered(log + ([m] + Turns(limit, 0, model, tools))) <==> AllAnswered(log) && !LooseCall(limit, 0, model, tools)
  {
    var turns := Turns(limit, 0, model, tools);
    AnsweredConcat(log, [m] + turns);
    TurnsBeginPlainly(limit, 0, model, tools);
    AnsweredAfterUser(m, turns);
    CallsAnsweredExactly(limit, 0, model, tools);
  }

  lemma AnsweredAfterUser(m: Message, rest: seq<Message>)
    requires m.role == User && (rest != [] ==> rest[0].role == Assistant)
    ensures AllAnswered([m] + rest) <==> AllAnswered(rest)
  {
    assert AnsweredAt([m], 0);
    assert AllAnswered([m]);
    AnsweredConcat([m], rest);
  }

  /** Appends the user's message, shortens the history and moves the start index along with
      what was dropped from the front. */
  method Shorten(settings: Settings, loaded: seq<Message>, userMsg: Message, summary: string)
      returns (hist: seq<Message>, historyStart: int)
    requires userMsg.role == User
    ensures hist == Shortened(settings, loaded + [userMsg], summary)
    ensures 0 <= historyStart <= |hist| && hist[historyStart..] == [userMsg]
  {
    var max := HistoryLimit(settings);
    ShorteningKeepsNewMessage(loaded, userMsg, max, settings.summarize, summary);
    historyStart := |loaded|;
    hist := loaded + [userMsg];
    var preTruncLen := |hist|;
    if settings.summarize {
      hist := Summarized(hist, max, summary);
    }
    hist := Truncated(hist, max);
    var dropped := preTruncLen - |hist|;
    if dropped > 0 {
      historyStart := historyStart - dropped;
      if historyStart < 0 {
        historyStart := 0;
      }
    }
  }

  lemma NewestPart(log: seq<Message>, max: int)
    requires max >= 1
    ensures var loaded := Newest(log, max);
      |loaded| <= |log| && loaded == log[|log| - |loaded|..] && |loaded| <= max && (|loaded| < |log| ==> |loaded| == max)
  {
  }

  // ---------- Results without their calls ----------

  predicate Summarizes(settings: Settings, history: seq<Message>, summary: string) {
    var max := HistoryLimit(settings);
    settings.summarize && |history| >= max * 8 / 10 && |history| - KeepRecent(max) >= 4 && summary != ""
  }

  // Where truncation starts.
  function TruncatedAt(mid: seq<Message>, max: int): nat
    requires max >= 1
  {
    if |mid| <= max then 0
    else if mid[|mid| - max].role == Assistant then |mid| - max + 1
    else |mid| - max
  }

  /** The position, in a history, of the oldest message that survives the shortening. */
  function OldestKept(settings: Settings, history: seq<Message>, summary: string): int {
    var max := HistoryLimit(settings);
    if Summarizes(settings, history, summary) then
      var recent := history[|history| - KeepRecent(max)..];
      var at := TruncatedAt([SummaryMessage(summary)] + recent, max);
      |history| - KeepRecent(max) + (if at == 0 then 0 else at - 1)
    else
      TruncatedAt(history, max)
  }

  function SummaryMessage(summary: string): Message {
    Message(User, "[Conversation Summary]\n" + summary, [])
  }

  lemma TruncatedIs(mid: seq<Message>, max: int)
    requires max >= 1 && |mid| >= 1 && mid[|mid| - 1].role == User
    ensures TruncatedAt(mid, max) < |mid| && Truncated(mid, max) == mid[TruncatedAt(mid, max)..]
  {
    if |mid| > max {
      var tail := mid[|mid| - max..];
      assert tail[0] == mid[|mid| - max];
      assert tail[1..] == mid[|mid| - max + 1..];
    }
  }

  // What is left of a history: its end, or its end after a summary.
  lemma ShortenedIs(settings: Settings, history: seq<Message>, summary: string) returns (prefix: seq<Message>)
    requires |history| >= 1 && history[|history| - 1].role == User
    ensures 0 <= OldestKept(settings, history, summary) < |history|
    ensures prefix == [] || prefix == [SummaryMessage(summary)]
    ensures Shortened(settings, history, summary) == prefix + history[OldestKept(settings, history, summary)..]
  {
    var max := HistoryLimit(settings);
    if Summarizes(settings, history, summary) {
      prefix := SummarizedIs(settings, history, summary);
    } else {
      TruncatedIs(history, max);
      prefix := [];
    }
  }

  lemma SummarizedIs(settings: Settings, history: seq<Message>, summary: string) returns (prefix: seq<Message>)
    requires |history| >= 1 && history[|history| - 1].role == User && Summarizes(settings, history, summary)
    ensures 0 <= OldestKept(settings, history, summary) < |history|
    ensures prefix == [] || prefix == [SummaryMessage(summary)]
    ensures Shortened(settings, history, summary) == prefix + history[OldestKept(settings, history, summary)..]
  {
    hide *;
    var cut, mid, at := SummaryCase(settings, history, summary);
    prefix := CutSummary(SummaryMessage(summary), history, cut, mid, at, OldestKept(settings, history, summary));
  }

  lemma SummaryCase(settings: Settings, history: seq<Message>, summary: string) returns (cut: nat, mid: seq<Message>, at: nat)
    requires |history| >= 1 && history[|history| - 1].role == User && Summarizes(settings, history, summary)
    ensures cut < |history| && mid == [SummaryMessage(summary)] + history[cut..] && at < |mid|
    ensures Shortened(settings, history, summary) == mid[at..]
    ensures OldestKept(settings, history, summary) == cut + (if at == 0 then 0 else at - 1)
  {
    var max := HistoryLimit(settings);
    cut := |history| - KeepRecent(max);
    mid := [SummaryMessage(summary)] + history[cut..];
    SummaryFacts(settings, history, summary, cut, mid);
    hide *;
    at := TruncatedTail(SummaryMessage(summary), history, cut, mid, max);
  }

  lemma SummaryFacts(settings: Settings, history: seq<Message>, summary: string, cut: nat, mid: seq<Message>)
    requires Summarizes(settings, history, summary) && cut == |history| - KeepRecent(HistoryLimit(settings))
    requires mid == [SummaryMessage(summary)] + history[cut..]
    ensures var max := HistoryLimit(settings);
      var at := TruncatedAt(mid, max);
      && Shortened(settings, history, summary) == Truncated(mid, max)
      && OldestKept(settings, history, summary) == cut + (if at == 0 then 0 else at - 1)
  {
    hide Truncated;
    hide TruncatedAt;
  }

  lemma TruncatedTail(first: Message, history: seq<Message>, cut: nat, mid: seq<Message>, max: int) returns (at: nat)
    requires max >= 1 && cut < |history| && history[|history| - 1].role == User && mid == [first] + history[cut..]
    ensures at == TruncatedAt(mid, max) && at < |mid| && Truncated(mid, max) == mid[at..]
  {
    assert mid[|mid| - 1] == history[|history| - 1];
    TruncatedIs(mid, max);
    at := TruncatedAt(mid, max);
  }

  lemma CutSummary(first: Message, history: seq<Message>, cut: nat, mid: seq<Message>, at: nat, k: int) returns (prefix: seq<Message>)
    requires cut < |history| && mid == [first] + history[cut..] && at < |mid| && k == cut + (if at == 0 then 0 else at - 1)
    ensures 0 <= k < |history| && (prefix == [] || prefix == [first]) && mid[at..] == prefix + history[k..]
  {
    prefix := if at == 0 then [first] else [];
  }

  /** In the first request every message of results has its calls right before it exactly when the
      oldest message kept is not itself a message of results. */
  lemma ResultsBackedExactly(log: seq<Message>, settings: Settings, text: string, summary: string)
    requires Backed(log)
    ensures var history := Newest(log, HistoryLimit(settings)) + [Message(User, TruncateContent(settings, text), [])];
      var k := OldestKept(settings, history, summary);
      && 0 <= k < |history|
      && (Backed(FirstRequest(log, settings, text, summary)) <==> !HasResults(history[k]))
  {
    hide *;
    var msg := Message(User, TruncateContent(settings, text), []);
    var history := Newest(log, HistoryLimit(settings)) + [msg];
    var c := HistoryIsSuffix(log, HistoryLimit(settings), msg);
    var prefix := ShortenedIs(settings, history, summary);
    FirstRequestIs(log, settings, text, summary);
    SuffixBacked(prefix, summary, log + [msg], c, history, OldestKept(settings, history, summary));
  }

  lemma FirstRequestIs(log: seq<Message>, settings: Settings, text: string, summary: string)
    ensures FirstRequest(log, settings, text, summary) ==
      Shortened(settings, Newest(log, HistoryLimit(settings)) + [Message(User, TruncateContent(settings, text), [])], summary)
  {
  }

  lemma HistoryIsSuffix(log: seq<Message>, max: int, msg: Message) returns (c: nat)
    requires max >= 1 && Backed(log) && msg.role == User && msg.blocks == []
    ensures Backed(log + [msg]) && c <= |log| && Newest(log, max) + [msg] == (log + [msg])[c..]
  {
    NewestPart(log, max);
    c := |log| - |Newest(log, max)|;
    assert Backed([msg]);
    BackedConcat(log, [msg]);
  }

  lemma SuffixBacked(prefix: seq<Message>, summary: string, full: seq<Message>, c: nat, history: seq<Message>, k: int)
    requires Backed(full) && c <= |full| && history == full[c..] && 0 <= k < |history|
    requires prefix == [] || prefix == [SummaryMessage(summary)]
    ensures Backed(prefix + history[k..]) <==> !HasResults(history[k])
  {
    assert full[c..][k..] == full[c + k..];
    CutBacked(prefix, full, c + k);
  }

  /** Dropping a leading assistant message is enough to leave its results alone. */
  lemma OrphanedResult(settings: Settings, log: seq<Message>)
    requires settings == Settings(3, 0, 0, false)
    requires log == [Message(User, "q", []), Message(Assistant, "", [ToolUse("t", "x")]), Message(User, "", [ToolResult("t", "r", false)])]
    ensures Backed(log) && TurnsOk(log) && !Backed(FirstRequest(log, settings, "n", ""))
  {
    assert UseIds([ToolUse("t", "x")]) == ["t"] && ResultIds([ToolResult("t", "r", false)]) == ["t"];
    assert BackedAt(log, 0) && BackedAt(log, 1) && BackedAt(log, 2);
    ResultsBackedExactly(log, settings, "n", "");
    assert Newest(log, 3) == log;
    var history := log + [Message(User, "n", [])];
    assert history[1] == log[1] && history[2] == log[2];
    assert OldestKept(settings, history, "") == 2;
  }

  /** The first request opens with a user message and ends with the one just received. */
  lemma FirstRequestOk(log: seq<Message>, settings: Settings, text: string, summary: string)
    requires TurnsOk(log)
    ensures var sent, msg := FirstRequest(log, settings, text, summary), Message(User, TruncateContent(settings, text), []);
      && sent == Shortened(settings, Newest(log, HistoryLimit(settings)) + [msg], summary)
      && |sent| >= 1 && sent[0].role == User && sent[|sent| - 1] == msg
  {
    var max, msg := HistoryLimit(settings), Message(User, TruncateContent(settings, text), []);
    var loaded := Newest(log, max);
    NewestPart(log, max);
    hide Newest;
    hide TurnsOk;
    hide Truncated;
    hide Summarized;
    hide TruncateContent;
    FirstSentIsUser(log, loaded, msg, max, settings.summarize, summary);
    ShorteningKeepsNewMessage(loaded, msg, max, settings.summarize, summary);
  }

  lemma AllOk(log: seq<Message>, asks: seq<bool>)
    requires Paired(log, asks) && TurnsOk(log) && Backed(log)
    ensures LogOk(log, asks)
  {
  }

  lemma AlternatingTurns(msgs: seq<Message>)
    requires Alternates(msgs)
    ensures TurnsOk(msgs)
  {
    forall i | 0 <= i < |msgs| - 1 ensures !(msgs[i].role == Assistant && msgs[i + 1].role == Assistant) {
      assert i % 2 == 0 || (i + 1) % 2 == 0;
    }
  }

  /** The loop over model replies. It returns the suffix of the history that is persisted at the
      point where the loop is left. */
  method TakeTurns(settings: Settings, hist0: seq<Message>, historyStart: int, userMsg: Message, model: Model, tools: Tools)
      returns (persisted: seq<Message>, ghost flags: seq<bool>)
    requires 0 <= historyStart <= |hist0| && hist0[historyStart..] == [userMsg] && userMsg.role == User && userMsg.blocks == []
    ensures persisted == [userMsg] + Turns(IterationLimit(settings), 0, model, tools)
    ensures flags == [false] + Asks(IterationLimit(settings), 0, model, tools)
    ensures Paired(persisted, flags) && Alternates(persisted) && Backed(persisted)
  {
    hide *;
    var limit := IterationLimit(settings);
    var hist := hist0;
    ghost var added;
    added, flags := [userMsg], [false];
    var iter := 0;
    OnlyUser(userMsg);
    while iter < limit
      invariant 0 <= historyStart <= |hist| && hist[historyStart..] == added
      invariant Paired(added, flags) && Alternates(added) && Backed(added) && |added| == 1 + 2 * iter
      invariant iter <= limit
      invariant added + Turns(limit, iter, model, tools) == [userMsg] + Turns(limit, 0, model, tools)
      invariant flags + Asks(limit, iter, model, tools) == [false] + Asks(limit, 0, model, tools)
    {
      var reply := model(iter);
      TurnsUnfold(limit, iter, model, tools);
      if reply.NoReply? {
        return hist[historyStart..], flags;
      }
      var turn := Message(Assistant, "", reply.blocks);
      if !reply.stopsForTools {
        SuffixGrows(hist, historyStart, added, turn);
        hist := hist + [turn];
        PairedPlain(added, flags, turn);
        AlternatesOne(added, turn);
        BackedPlain(added, turn);
        return hist[historyStart..], flags + [false];
      }
      var results, approvals := ExecuteToolCalls(reply.blocks, tools(iter));
      ResultsAnswerCalls(reply.blocks, tools(iter));
      var resultMsg := Message(User, "", results);
      SuffixGrows(hist, historyStart, added, turn);
      SuffixGrows(hist + [turn], historyStart, added + [turn], resultMsg);
      hist := hist + [turn];
      hist := hist + [resultMsg];
      PairedTurn(added, flags, turn, resultMsg);
      AlternatesTwo(added, turn, resultMsg);
      BackedTurn(added, turn, resultMsg);
      ghost var rest := if approvals != [] then [] else Turns(limit, iter + 1, model, tools);
      TwoMore(added, turn, resultMsg, rest);
      TwoFlags(flags, if approvals != [] then [] else Asks(limit, iter + 1, model, tools));
      added, flags := added + [turn, resultMsg], flags + [true, false];
      if |approvals| > 0 {
        return hist[historyStart..], flags;
      }
      iter := iter + 1;
    }
    NoMoreTurns(limit, iter, model, tools);
    return hist[historyStart..], flags;
  }

  lemma SuffixGrows(hist: seq<Message>, start: int, added: seq<Message>, m: Message)
    requires 0 <= start <= |hist| && hist[start..] == added
    ensures start <= |hist + [m]| && (hist + [m])[start..] == added + [m]
  {
  }

  lemma TwoMore(added: seq<Message>, a: Message, b: Message, rest: seq<Message>)
    ensures added + ([a, b] + rest) == (added + [a, b]) + rest && (added + [a]) + [b] == added + [a, b]
    ensures (added + [a, b]) + [] == added + [a, b]
  {
  }

  lemma TwoFlags(flags: seq<bool>, rest: seq<bool>)
    ensures flags + ([true, false] + rest) == (flags + [true, false]) + rest && (flags + [true, false]) + [] == flags + [true, false]
  {
  }

  // User and assistant take turns, the user first.
  ghost predicate Alternates(msgs: seq<Message>) {
    forall i :: 0 <= i < |msgs| ==> msgs[i].role == if i % 2 == 0 then User else Assistant
  }

  lemma OnlyUser(m: Message)
    requires m.role == User && m.blocks == []
    ensures Paired([m], [false]) && Alternates([m]) && Backed([m])
  {
  }

  lemma BackedPlain(log: seq<Message>, turn: Message)
    requires Backed(log) && turn.role == Assistant
    ensures Backed(log + [turn])
  {
    assert Backed([turn]);
    BackedConcat(log, [turn]);
  }

  lemma AlternatesOne(msgs: seq<Message>, turn: Message)
    requires Alternates(msgs) && |msgs| % 2 == 1 && turn.role == Assistant
    ensures Alternates(msgs + [turn])
  {
  }

  lemma AlternatesTwo(msgs: seq<Message>, turn: Message, results: Message)
    requires Alternates(msgs) && |msgs| % 2 == 1 && turn.role == Assistant && results.role == User
    ensures Alternates(msgs + [turn, results])
  {
  }

  lemma NoMoreTurns(limit: nat, iter: nat, model: Model, tools: Tools)
    requires iter >= limit
    ensures Turns(limit, iter, model, tools) == [] && Asks(limit, iter, model, tools) == []
  {
  }

  lemma TurnsUnfold(limit: nat, iter: nat, model: Model, tools: Tools)
    requires iter < limit
    ensures model(iter).NoReply? ==> Turns(limit, iter, model, tools) == [] && Asks(limit, iter, model, tools) == []
    ensures model(iter).Reply? ==>
      Asks(limit, iter, model, tools) ==
        if !model(iter).stopsForTools then [false]
        else [true, false] + if Awaited(model(iter).blocks, tools(iter)) != [] then [] else Asks(limit, iter + 1, model, tools)
    ensures model(iter).Reply? ==>
      var turn := Message(Assistant, "", model(iter).blocks);
      Turns(limit, iter, model, tools) ==
        if !model(iter).stopsForTools then [turn]
        else [turn, Message(User, "", Results(turn.blocks, tools(iter)))] +
             if Awaited(turn.blocks, tools(iter)) != [] then [] else Turns(limit, iter + 1, model, tools)
  {
  }

  predicate IsResultFor(b: Block, useId: string) {
    b.ToolResult? && b.useId == useId
  }

  function Replaced(msgs: seq<Message>, i: nat, j: nat, text: string, isError: bool): seq<Message>
    requires i < |msgs| && j < |msgs[i].blocks| && msgs[i].blocks[j].ToolResult?
  {
    var blocks := msgs[i].blocks[j := msgs[i].blocks[j].(text := text, isError := isError)];
    msgs[i := msgs[i].(blocks := blocks)]
  }

  // The logs differ in one block at most, and there the later one has this block.
  ghost predicate OnlyResultChanged(a: seq<Message>, b: seq<Message>, i: int, j: int, block: Block)
    requires 0 <= i < |a| && 0 <= j < |a[i].blocks|
  {
    && |b| == |a| && (forall k :: 0 <= k < |a| && k != i ==> b[k] == a[k])
    && b[i].role == a[i].role && b[i].content == a[i].content && |b[i].blocks| == |a[i].blocks|
    && (forall k :: 0 <= k < |a[i].blocks| && k != j ==> b[i].blocks[k] == a[i].blocks[k])
    && b[i].blocks[j] == block
  }

  lemma ReplacedIs(msgs: seq<Message>, i: nat, j: nat, useId: string, text: string, isError: bool)
    requires i < |msgs| && j < |msgs[i].blocks| && IsResultFor(msgs[i].blocks[j], useId)
    ensures OnlyResultChanged(msgs, Replaced(msgs, i, j, text, isError), i, j, ToolResult(useId, text, isError))
  {
  }

  method FindResult(blocks: seq<Block>, useId: string) returns (j: int)
    ensures j == -1 ==> useId !in ResultIds(blocks)
    ensures j != -1 ==> 0 <= j < |blocks| && IsResultFor(blocks[j], useId) && useId in ResultIds(blocks)
    ensures j != -1 ==> forall k :: 0 <= k < j ==> !IsResultFor(blocks[k], useId)
  {
    for k := 0 to |blocks|
      invariant forall m :: 0 <= m < k ==> !IsResultFor(blocks[m], useId)
    {
      if IsResultFor(blocks[k], useId) {
        ResultIdsHas(blocks, useId);
        return k;
      }
    }
    ResultIdsHas(blocks, useId);
    return -1;
  }

  // The newest message with a result for the call, and the first such result in it.
  method FindNewestResult(msgs: seq<Message>, useId: string) returns (i: int, j: int)
    ensures i == -1 ==> forall k :: 0 <= k < |msgs| ==> useId !in ResultIds(msgs[k].blocks)
    ensures i != -1 ==>
      && 0 <= i < |msgs| && 0 <= j < |msgs[i].blocks| && IsResultFor(msgs[i].blocks[j], useId)
      && useId in ResultIds(msgs[i].blocks)
      && (forall k :: i < k < |msgs| ==> useId !in ResultIds(msgs[k].blocks))
      && (forall k :: 0 <= k < j ==> !IsResultFor(msgs[i].blocks[k], useId))
  {
    i := |msgs| - 1;
    while i >= 0
      invariant -1 <= i < |msgs|
      invariant forall k :: i < k < |msgs| ==> useId !in ResultIds(msgs[k].blocks)
    {
      j := FindResult(msgs[i].blocks, useId);
      if j >= 0 {
        return;
      }
      i := i - 1;
    }
    return -1, -1;
  }

  lemma {:induction false} ResultIdsHas(blocks: seq<Block>, useId: string)
    ensures useId in ResultIds(blocks) <==> exists k :: 0 <= k < |blocks| && IsResultFor(blocks[k], useId)
  {
    if blocks != [] {
      ResultIdsHas(blocks[1..], useId);
      if k :| 0 <= k < |blocks| && IsResultFor(blocks[k], useId) {
        if k > 0 { assert blocks[1..][k - 1] == blocks[k]; }
      }
      if k :| 0 <= k < |blocks[1..]| && IsResultFor(blocks[1..][k], useId) {
        assert IsResultFor(blocks[k + 1], useId);
      }
    }
  }

  lemma {:induction false} IdsUnchanged(blocks: seq<Block>, j: nat, text: string, isError: bool)
    requires j < |blocks| && blocks[j].ToolResult?
    ensures var blocks' := blocks[j := blocks[j].(text := text, isError := isError)];
      ResultIds(blocks') == ResultIds(blocks) && UseIds(blocks') == UseIds(blocks)
  {
    var b := blocks[j].(text := text, isError := isError);
    if j > 0 {
      IdsUnchanged(blocks[1..], j - 1, text, isError);
      assert blocks[j := b][1..] == blocks[1..][j - 1 := b];
    } else {
      assert blocks[0 := b][1..] == blocks[1..];
    }
  }

  lemma ReplacedStaysOk(msgs: seq<Message>, asks: seq<bool>, i: nat, j: nat, text: string, isError: bool)
    requires LogOk(msgs, asks) && i < |msgs| && j < |msgs[i].blocks| && msgs[i].blocks[j].ToolResult?
    ensures LogOk(Replaced(msgs, i, j, text, isError), asks)
  {
    var msgs' := Replaced(msgs, i, j, text, isError);
    IdsUnchanged(msgs[i].blocks, j, text, isError);
    assert forall k :: 0 <= k < |msgs| ==> SameIds(msgs[k], msgs'[k]);
    hide Replaced;
    SameIdsOk(msgs, msgs', asks);
  }

  // Same speaker, same calls and same results: only texts differ.
  ghost predicate SameIds(a: Message, b: Message) {
    b.role == a.role && UseIds(b.blocks) == UseIds(a.blocks) && ResultIds(b.blocks) == ResultIds(a.blocks)
  }

  lemma SameIdsOk(a: seq<Message>, b: seq<Message>, asks: seq<bool>)
    requires LogOk(a, asks) && |a| == |b| && forall k :: 0 <= k < |a| ==> SameIds(a[k], b[k])
    ensures LogOk(b, asks)
  {
    hide UseIds;
    hide ResultIds;
    forall k | 0 <= k < |b| ensures Answered(b, asks, k) && BackedAt(b, k) {
      assert Answered(a, asks, k) && BackedAt(a, k);
      assert k > 0 ==> SameIds(a[k - 1], b[k - 1]);
    }
    forall k | 0 <= k < |b| - 1 ensures !(b[k].role == Assistant && b[k + 1].role == Assistant) {
      assert !(a[k].role == Assistant && a[k + 1].role == Assistant);
    }
    assert |b| > 0 ==> SameIds(a[0], b[0]);
  }
}
