/** What the messages of a conversation hold, in terms of the settings, the model's replies and the
    tools' outcomes alone. */
module ConversationContent {
  import opened Types
  import opened Conversation

  // ---------- What the first request holds ----------

  // The newest k messages, without the first of them if something was cut off and it is the assistant's.
  function Kept(log: seq<Message>, k: nat, cutOff: bool): seq<Message>
    requires k <= |log|
  {
    var tail := log[|log| - k..];
    if cutOff && tail != [] && tail[0].role == Assistant then tail[1..] else tail
  }

  /** The first request, in numbers. Without a summary, the newest of the loaded messages and the new
      one, up to the limit. There is a summary if it is configured and was made, the messages are eight
      tenths of the limit or more, and at least four are beyond the four tenths of the limit, or two,
      that are kept; then these follow it, or the newest up to a limit that has no room for it. */
  lemma FirstRequestExactly(log: seq<Message>, settings: Settings, text: string, summary: string,
                            max: int, bytes: int, content: string, full: seq<Message>, n: nat, keep: nat)
    requires max == if settings.maxHistory > 0 then settings.maxHistory else 100
    requires bytes == if settings.maxBytes > 0 then settings.maxBytes else 32768
    requires content == if |text| <= bytes then text else text[..bytes] + "\n[message truncated]"
    requires full == log + [Message(User, content, [])]
    requires n == (if |log| > max then max else |log|) + 1
    requires keep == if max * 4 / 10 < 2 then 2 else max * 4 / 10
    ensures FirstRequest(log, settings, text, summary) ==
      if settings.summarize && n >= max * 8 / 10 && n - keep >= 4 && summary != "" then
        if keep + 1 <= max then [Message(User, "[Conversation Summary]\n" + summary, [])] + Kept(full, keep, false)
        else Kept(full, max, true)
      else Kept(full, if n > max then max else n, n > max)
  {
    hide *;
    ContentIs(settings, text);
    var msg := Message(User, content, []);
    var history := Newest(log, max) + [msg];
    HistoryIs(log, max, msg, full, n, history);
    RequestOf(log, settings, text, summary, max, history);
    if settings.summarize && n >= max * 8 / 10 && n - keep >= 4 && summary != "" {
      WithSummary(settings, history, summary, max, full, n, keep);
    } else {
      WithoutSummary(settings, history, summary, max, full, n, keep);
    }
  }

  lemma WithSummary(settings: Settings, history: seq<Message>, summary: string, max: int, full: seq<Message>, n: nat, keep: nat)
    requires max == if settings.maxHistory > 0 then settings.maxHistory else 100
    requires keep == if max * 4 / 10 < 2 then 2 else max * 4 / 10
    requires n == |history| <= |full| && history == full[|full| - n..]
    requires settings.summarize && n >= max * 8 / 10 && n - keep >= 4 && summary != ""
    ensures Shortened(settings, history, summary) ==
      if keep + 1 <= max then [Message(User, "[Conversation Summary]\n" + summary, [])] + Kept(full, keep, false)
      else Kept(full, max, true)
  {
    hide *;
    var first := Message(User, "[Conversation Summary]\n" + summary, []);
    var mid := [first] + history[n - keep..];
    SummarizedRequest(settings, history, summary, max, keep, first, mid);
    SummaryKept(history, n - keep, first, mid, full, max);
  }

  lemma WithoutSummary(settings: Settings, history: seq<Message>, summary: string, max: int, full: seq<Message>, n: nat, keep: nat)
    requires max == if settings.maxHistory > 0 then settings.maxHistory else 100
    requires keep == if max * 4 / 10 < 2 then 2 else max * 4 / 10
    requires n == |history| <= |full| && history == full[|full| - n..]
    requires !(settings.summarize && n >= max * 8 / 10 && n - keep >= 4 && summary != "")
    ensures Shortened(settings, history, summary) == Kept(full, if n > max then max else n, n > max)
  {
    hide *;
    PlainRequest(settings, history, summary, max, keep);
    TruncatedIsKept(history, max);
    KeptOfSuffix(full, history, if n > max then max else n, n > max);
  }

  lemma RequestOf(log: seq<Message>, settings: Settings, text: string, summary: string, max: int, history: seq<Message>)
    requires max == if settings.maxHistory > 0 then settings.maxHistory else 100
    requires history == Newest(log, max) + [Message(User, TruncateContent(settings, text), [])]
    ensures FirstRequest(log, settings, text, summary) == Shortened(settings, history, summary)
  {
    hide Shortened;
    hide Newest;
    hide TruncateContent;
  }

  lemma SummarizedRequest(settings: Settings, history: seq<Message>, summary: string, max: int, keep: nat, first: Message, mid: seq<Message>)
    requires max == if settings.maxHistory > 0 then settings.maxHistory else 100
    requires keep == if max * 4 / 10 < 2 then 2 else max * 4 / 10
    requires settings.summarize && |history| >= max * 8 / 10 && |history| - keep >= 4 && summary != ""
    requires first == Message(User, "[Conversation Summary]\n" + summary, []) && mid == [first] + history[|history| - keep..]
    ensures Shortened(settings, history, summary) == Truncated(mid, max)
  {
    hide Truncated;
  }

  lemma PlainRequest(settings: Settings, history: seq<Message>, summary: string, max: int, keep: nat)
    requires max == if settings.maxHistory > 0 then settings.maxHistory else 100
    requires keep == if max * 4 / 10 < 2 then 2 else max * 4 / 10
    requires !(settings.summarize && |history| >= max * 8 / 10 && |history| - keep >= 4 && summary != "")
    ensures Shortened(settings, history, summary) == Truncated(history, max)
  {
    hide Truncated;
  }

  lemma HistoryIs(log: seq<Message>, max: int, msg: Message, full: seq<Message>, n: nat, history: seq<Message>)
    requires max >= 1 && full == log + [msg] && n == (if |log| > max then max else |log|) + 1 && history == Newest(log, max) + [msg]
    ensures |history| == n && n <= |full| && history == full[|full| - n..]
  {
  }

  lemma TruncatedIsKept(history: seq<Message>, max: int)
    requires max >= 1
    ensures Truncated(history, max) == Kept(history, if |history| > max then max else |history|, |history| > max)
  {
  }

  // The newest messages of an end are the newest messages.
  lemma KeptOfSuffix(full: seq<Message>, history: seq<Message>, k: nat, cutOff: bool)
    requires k <= |history| <= |full| && history == full[|full| - |history|..]
    ensures Kept(history, k, cutOff) == Kept(full, k, cutOff)
  {
    assert history[|history| - k..] == full[|full| - k..];
  }

  lemma SummaryKept(history: seq<Message>, cut: nat, first: Message, mid: seq<Message>, full: seq<Message>, max: int)
    requires max >= 1 && cut <= |history| <= |full| && history == full[|full| - |history|..] && mid == [first] + history[cut..]
    ensures var keep := |history| - cut;
      Truncated(mid, max) == if keep + 1 <= max then [first] + Kept(full, keep, false) else Kept(full, max, true)
  {
    hide *;
    var keep := |history| - cut;
    assert history[cut..] == full[|full| - keep..];
    TruncatedIsKept(mid, max);
    if keep + 1 > max {
      EndKept(first, full, keep, mid, max);
    } else {
      AllKept(mid);
      AllKept(full[|full| - keep..]);
      KeptOfSuffix(full, full[|full| - keep..], keep, false);
    }
  }

  lemma AllKept(msgs: seq<Message>)
    ensures Kept(msgs, |msgs|, false) == msgs
  {
  }

  lemma EndKept(first: Message, full: seq<Message>, keep: nat, mid: seq<Message>, max: nat)
    requires max <= keep <= |full| && mid == [first] + full[|full| - keep..]
    ensures Kept(mid, max, true) == Kept(full, max, true)
  {
    var tail := full[|full| - keep..];
    assert mid[|mid| - max..] == tail[keep - max..] == full[|full| - max..];
  }

  // ---------- What the results hold ----------

  // The positions of the calls of a message, in order.
  ghost predicate CallsAt(blocks: seq<Block>, at: seq<nat>) {
    && (forall k :: 0 <= k < |at| ==> at[k] < |blocks| && blocks[at[k]].ToolUse?)
    && (forall j, k :: 0 <= j < k < |at| ==> at[j] < at[k])
    && forall i: nat :: i < |blocks| && blocks[i].ToolUse? ==> i in at
  }

  // The result of a call that had this outcome.
  ghost predicate Tells(result: Block, id: string, outcome: ToolOutcome) {
    match outcome
    case Output(text) => result == ToolResult(id, text, false)
    case NeedsApproval(approval) =>
      result == ToolResult(id, "Tool execution requires approval (id: " + approval + "). Waiting for human approval.", true)
    case Error(text) => result == ToolResult(id, "Error: " + text, true)
  }

  ghost predicate ResultsAt(blocks: seq<Block>, tool: nat -> ToolOutcome, at: seq<nat>)
    requires CallsAt(blocks, at)
  {
    && |Results(blocks, tool)| == |at|
    && forall k :: 0 <= k < |at| ==> Tells(Results(blocks, tool)[k], blocks[at[k]].id, tool(at[k]))
  }

  ghost predicate AwaitedAt(blocks: seq<Block>, tool: nat -> ToolOutcome, at: seq<nat>) {
    forall a :: a in Awaited(blocks, tool) <==> exists k :: 0 <= k < |at| && tool(at[k]) == NeedsApproval(a)
  }

  /** The k-th result is for the k-th call, with its id, its outcome's text and its error flag; and the
      approvals awaited are those that the outcomes of the calls wait for. */
  lemma {:induction false} ResultsExactly(blocks: seq<Block>, tool: nat -> ToolOutcome) returns (at: seq<nat>)
    ensures CallsAt(blocks, at) && ResultsAt(blocks, tool, at) && AwaitedAt(blocks, tool, at)
    decreases |blocks|
  {
    hide *;
    if blocks == [] {
      at := [];
      NoCalls(tool);
    } else {
      var n := |blocks| - 1;
      var front := blocks[..n];
      at := ResultsExactly(front, tool);
      OneMoreBlock(blocks, front, tool, at);
      at := if blocks[n].ToolUse? then at + [n] else at;
    }
  }

  lemma NoCalls(tool: nat -> ToolOutcome)
    ensures CallsAt([], []) && ResultsAt([], tool, []) && AwaitedAt([], tool, [])
  {
  }

  lemma OneMoreBlock(blocks: seq<Block>, front: seq<Block>, tool: nat -> ToolOutcome, at: seq<nat>)
    requires blocks != [] && front == blocks[..|blocks| - 1]
    requires CallsAt(front, at) && ResultsAt(front, tool, at) && AwaitedAt(front, tool, at)
    ensures var n := |blocks| - 1;
      var at' := if blocks[n].ToolUse? then at + [n] else at;
      CallsAt(blocks, at') && ResultsAt(blocks, tool, at') && AwaitedAt(blocks, tool, at')
  {
    hide *;
    var n := |blocks| - 1;
    var at' := if blocks[n].ToolUse? then at + [n] else at;
    CallsMore(blocks, front, at);
    ResultsMore(blocks, front, tool, at);
    AwaitedMore(blocks, front, tool, at);
  }

  lemma CallsMore(blocks: seq<Block>, front: seq<Block>, at: seq<nat>)
    requires blocks != [] && front == blocks[..|blocks| - 1] && CallsAt(front, at)
    ensures var n := |blocks| - 1; CallsAt(blocks, if blocks[n].ToolUse? then at + [n] else at)
  {
    var n := |blocks| - 1;
    if blocks[n].ToolUse? {
      var longer := at + [n];
      forall k | 0 <= k < |longer| ensures longer[k] < |blocks| && blocks[longer[k]].ToolUse? {
        assert k < |at| ==> front[at[k]] == blocks[at[k]];
      }
      forall i: nat | i < |blocks| && blocks[i].ToolUse? ensures i in longer {
        assert i < n ==> front[i] == blocks[i] && i in at;
        assert longer[|at|] == n;
      }
    } else {
      forall k | 0 <= k < |at| ensures at[k] < |blocks| && blocks[at[k]].ToolUse? {
        assert front[at[k]] == blocks[at[k]];
      }
      forall i: nat | i < |blocks| && blocks[i].ToolUse? ensures i in at {
        assert front[i] == blocks[i];
      }
    }
  }

  lemma ResultTells(call: Block, outcome: ToolOutcome)
    ensures call.ToolUse? ==> Tells(ResultOf(call.id, outcome), call.id, outcome)
  {
  }

  lemma ResultsMore(blocks: seq<Block>, front: seq<Block>, tool: nat -> ToolOutcome, at: seq<nat>)
    requires blocks != [] && front == blocks[..|blocks| - 1] && CallsAt(front, at) && ResultsAt(front, tool, at)
    requires var n := |blocks| - 1; CallsAt(blocks, if blocks[n].ToolUse? then at + [n] else at)
    ensures var n := |blocks| - 1; ResultsAt(blocks, tool, if blocks[n].ToolUse? then at + [n] else at)
  {
    hide Tells;
    hide ResultOf;
    var n := |blocks| - 1;
    var rs, rs' := Results(front, tool), Results(blocks, tool);
    assert rs' == rs + if blocks[n].ToolUse? then [ResultOf(blocks[n].id, tool(n))] else [];
    ResultTells(blocks[n], tool(n));
    LongerTells(blocks, front, tool, at, if blocks[n].ToolUse? then at + [n] else at, rs, rs');
  }

  lemma LongerTells(blocks: seq<Block>, front: seq<Block>, tool: nat -> ToolOutcome, at: seq<nat>, at': seq<nat>,
                    rs: seq<Block>, rs': seq<Block>)
    requires blocks != [] && front == blocks[..|blocks| - 1] && CallsAt(front, at) && CallsAt(blocks, at')
    requires |rs| == |at| && forall k :: 0 <= k < |at| ==> Tells(rs[k], front[at[k]].id, tool(at[k]))
    requires var n := |blocks| - 1;
      if blocks[n].ToolUse? then
        at' == at + [n] && |rs'| == |rs| + 1 && rs'[..|rs|] == rs && Tells(rs'[|rs|], blocks[n].id, tool(n))
      else at' == at && rs' == rs
    ensures |rs'| == |at'| && forall k :: 0 <= k < |at'| ==> Tells(rs'[k], blocks[at'[k]].id, tool(at'[k]))
  {
    hide Tells;
    forall k | 0 <= k < |at'| ensures Tells(rs'[k], blocks[at'[k]].id, tool(at'[k])) {
      assert k < |at| ==> rs'[k] == rs[k] && at'[k] == at[k] && front[at[k]] == blocks[at[k]];
    }
  }

  lemma AwaitedMore(blocks: seq<Block>, front: seq<Block>, tool: nat -> ToolOutcome, at: seq<nat>)
    requires blocks != [] && front == blocks[..|blocks| - 1] && AwaitedAt(front, tool, at)
    ensures var n := |blocks| - 1; AwaitedAt(blocks, tool, if blocks[n].ToolUse? then at + [n] else at)
  {
    var n := |blocks| - 1;
    var at' := if blocks[n].ToolUse? then at + [n] else at;
    assert Awaited(blocks, tool) ==
      Awaited(front, tool) + if blocks[n].ToolUse? && tool(n).NeedsApproval? then [tool(n).approval] else [];
    hide Awaited;
    forall a ensures a in Awaited(blocks, tool) <==> exists k :: 0 <= k < |at'| && tool(at'[k]) == NeedsApproval(a) {
      if k :| 0 <= k < |at| && tool(at[k]) == NeedsApproval(a) {
        assert at'[k] == at[k];
      }
      if blocks[n].ToolUse? {
        assert at'[|at|] == n;
      }
      if k :| 0 <= k < |at'| && tool(at'[k]) == NeedsApproval(a) {
        assert k < |at| ==> at[k] == at'[k];
      }
    }
  }

  // ---------- What the turns hold ----------

  predicate Waits(model: Model, tools: Tools, i: nat) {
    model(i).Reply? && Awaited(model(i).blocks, tools(i)) != []
  }

  // Round i of the turns, which begin with iteration `from`: a reply that stops for tools and its results.
  ghost predicate RoundIs(turns: seq<Message>, from: nat, i: nat, model: Model, tools: Tools)
    requires 2 * i + 1 < |turns|
  {
    && model(from + i).Reply? && model(from + i).stopsForTools
    && turns[2 * i] == Message(Assistant, "", model(from + i).blocks)
    && turns[2 * i + 1] == Message(User, "", Results(model(from + i).blocks, tools(from + i)))
  }

  /** The turns are whole rounds, one for each iteration, of which only the last may wait for an
      approval, and at the end perhaps a reply that does not stop for tools; without one, the
      iterations are used up, the last round waits, or the model fails. */
  lemma {:induction false} TurnsExactly(limit: nat, from: nat, model: Model, tools: Tools)
    requires from <= limit
    ensures TurnsAre(Turns(limit, from, model, tools), limit, from, model, tools)
    decreases limit - from
  {
    hide *;
    if from < limit && model(from).Reply? && model(from).stopsForTools && Awaited(model(from).blocks, tools(from)) == [] {
      TurnsExactly(limit, from + 1, model, tools);
      RoundBefore(limit, from, model, tools);
    } else {
      LastTurns(limit, from, model, tools);
    }
  }

  ghost predicate TurnsAre(turns: seq<Message>, limit: nat, from: nat, model: Model, tools: Tools) {
    var m := |turns| / 2;
    && from + m <= limit
    && (forall i :: 0 <= i < m ==> RoundIs(turns, from, i, model, tools))
    && (forall q: nat :: from <= q < from + m - 1 ==> !Waits(model, tools, q))
    && (|turns| % 2 == 1 ==>
          && from + m < limit && model(from + m).Reply? && !model(from + m).stopsForTools
          && turns[2 * m] == Message(Assistant, "", model(from + m).blocks)
          && (m > 0 ==> !Waits(model, tools, from + m - 1)))
    && (|turns| % 2 == 0 ==>
          from + m == limit || model(from + m).NoReply? || (m > 0 && Waits(model, tools, from + m - 1)))
  }

  // Nothing follows: the iterations are used up, the model fails, a reply stops by itself, or one waits.
  lemma LastTurns(limit: nat, from: nat, model: Model, tools: Tools)
    requires from <= limit
    requires !(from < limit && model(from).Reply? && model(from).stopsForTools && Awaited(model(from).blocks, tools(from)) == [])
    ensures TurnsAre(Turns(limit, from, model, tools), limit, from, model, tools)
  {
    hide Results;
    hide Awaited;
    var turns := Turns(limit, from, model, tools);
    assert |turns| <= 2;
    assert |turns| == 2 ==> RoundIs(turns, from, 0, model, tools);
  }

  lemma RoundBefore(limit: nat, from: nat, model: Model, tools: Tools)
    requires from < limit && model(from).Reply? && model(from).stopsForTools && Awaited(model(from).blocks, tools(from)) == []
    requires TurnsAre(Turns(limit, from + 1, model, tools), limit, from + 1, model, tools)
    ensures TurnsAre(Turns(limit, from, model, tools), limit, from, model, tools)
  {
    hide *;
    var rest, turns := Turns(limit, from + 1, model, tools), Turns(limit, from, model, tools);
    TurnsUnfold(limit, from, model, tools);
    LongerTurns(rest, turns, limit, from, model, tools);
  }

  lemma LongerTurns(rest: seq<Message>, turns: seq<Message>, limit: nat, from: nat, model: Model, tools: Tools)
    requires from < limit && model(from).Reply? && model(from).stopsForTools && Awaited(model(from).blocks, tools(from)) == []
    requires turns == [Message(Assistant, "", model(from).blocks), Message(User, "", Results(model(from).blocks, tools(from)))] + rest
    requires TurnsAre(rest, limit, from + 1, model, tools)
    ensures TurnsAre(turns, limit, from, model, tools)
  {
    hide Results;
    hide Awaited;
    var m := |turns| / 2;
    assert |rest| / 2 == m - 1 && |rest| % 2 == |turns| % 2;
    forall i | 0 <= i < m ensures RoundIs(turns, from, i, model, tools) {
      if i > 0 {
        assert RoundIs(rest, from + 1, i - 1, model, tools);
      }
    }
    assert !Waits(model, tools, from);
  }
}
