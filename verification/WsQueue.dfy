/** Tasks that wait for a remote agent. Callers, the drain of the pending queue and the registry
    interleave at the granularity of their locks; the queue's own lock is held for a whole drain. */
module WsQueue {

  import opened Types
  import opened AgentRegistry

  // Queued tasks are numbered in the order in which they were queued.
  type Ticket = nat

  // Whoever sends a task to an agent: the one drain, or a caller that was routed at once.
  datatype Sender = Drainer | Caller(id: nat)

  datatype Drain = Drain(items: seq<Ticket>, next: nat, kept: seq<Ticket>)

  /** `routed` holds the senders that have chosen an agent and not yet counted the task there;
      `answered` the tickets whose result channel got a value, in order. */
  datatype Hub = Hub(
    agents: Agents,
    queue: seq<Ticket>,
    drain: Option<Drain>,
    answered: seq<Ticket>,
    issued: nat,
    routed: map<Sender, AgentId>)

  datatype Event =
    | Queue
    | BeginDrain
    | Keep
    | EndDrain
    | Pick(sender: Sender, agent: AgentId)
    | Send(sender: Sender, written: bool)
    | Join(id: AgentId, conn: Conn, maxParallel: int, skills: set<string>, now: int)
    | Leave(id: AgentId, conn: Conn)
    | Beat(id: AgentId, active: int, now: int)
    | Result(id: AgentId)
    | Evict(cutoff: int)

  /** Routing reads each agent's counter under that agent's own lock, so it sees no single state
      of the registry. A pick is the moment at which the chosen agent's counter was read: it fitted
      then, and need not be the best. A scan that finds nobody proves nothing about any one moment. */
  ghost predicate Enabled(h: Hub, e: Event) {
    match e
    case Queue => h.drain.None?
    case BeginDrain => h.drain.None?
    case Keep => h.drain.Some? && h.drain.value.next < |h.drain.value.items| && Drainer !in h.routed
    case EndDrain => h.drain.Some? && h.drain.value.next == |h.drain.value.items| && Drainer !in h.routed
    case Pick(sender, agent) =>
      && sender !in h.routed && agent in h.agents && Fits(h.agents[agent], [])
      && (sender.Drainer? ==> h.drain.Some? && h.drain.value.next < |h.drain.value.items|)
    case Send(sender, _) => sender in h.routed && (sender.Drainer? ==> h.drain.Some? && h.drain.value.next < |h.drain.value.items|)
    case _ => true
  }

  ghost function Apply(h: Hub, e: Event): Hub
    requires Enabled(h, e)
  {
    match e
    case Queue => h.(queue := h.queue + [h.issued], issued := h.issued + 1)
    case BeginDrain => h.(drain := Some(Drain(h.queue, 0, [])))
    case Keep =>
      var d := h.drain.value;
      h.(drain := Some(d.(next := d.next + 1, kept := d.kept + [d.items[d.next]])))
    case EndDrain => h.(queue := h.drain.value.kept, drain := None)
    case Pick(sender, agent) => h.(routed := h.routed[sender := agent])
    case Send(sender, written) =>
      var h1 := h.(agents := if written then Incremented(h.agents, h.routed[sender]) else h.agents,
                   routed := h.routed - {sender});
      if sender.Drainer? then
        var d := h.drain.value;
        h1.(drain := Some(d.(next := d.next + 1)), answered := h.answered + [d.items[d.next]])
      else h1
    case Join(id, conn, maxParallel, skills, now) => h.(agents := Joined(h.agents, id, conn, maxParallel, skills, now))
    case Leave(id, conn) => h.(agents := Left(h.agents, id, conn))
    case Beat(id, active, now) => h.(agents := Beaten(h.agents, id, active, now))
    case Result(id) => h.(agents := Decremented(h.agents, id))
    case Evict(cutoff) => h.(agents := WithoutStale(h.agents, cutoff))
  }

  const Start: Hub := Hub(map[], [], None, [], 0, map[])

  ghost predicate IsRun(states: seq<Hub>, events: seq<Event>) {
    && |states| == |events| + 1 && states[0] == Start
    && forall i :: 0 <= i < |events| ==> Enabled(states[i], events[i]) && states[i + 1] == Apply(states[i], events[i])
  }

  // ---------- No ticket is lost, doubled or overtaken ----------

  // What still waits: during a drain, what it kept and what it has not come to yet.
  function Waiting(h: Hub): seq<Ticket> {
    if h.drain.None? then h.queue
    else if h.drain.value.next <= |h.drain.value.items| then h.drain.value.kept + h.drain.value.items[h.drain.value.next..]
    else []
  }

  predicate InOrder(s: seq<Ticket>) {
    forall i, j :: 0 <= i < j < |s| ==> s[i] < s[j]
  }

  /** Every ticket ever issued is waiting once or answered once, never both, and those that wait
      do so in the order in which they were issued. */
  ghost predicate Conserved(h: Hub) {
    && (forall t: Ticket :: multiset(Waiting(h))[t] + multiset(h.answered)[t] == if t < h.issued then 1 else 0)
    && InOrder(Waiting(h))
    && (h.drain.Some? ==> h.drain.value.next <= |h.drain.value.items|)
  }

  lemma QueueKeeps(h: Hub)
    requires Conserved(h) && h.drain.None?
    ensures Conserved(Apply(h, Queue))
  {
    var h' := Apply(h, Queue);
    assert Waiting(h') == Waiting(h) + [h.issued];
    var w := Waiting(h);
    forall k | 0 <= k < |w|
      ensures w[k] < h.issued
    {
      assert w[k] in w;
      assert multiset(w)[w[k]] > 0;
    }
  }

  lemma SameWaiting(h: Hub, h': Hub)
    requires Conserved(h) && Waiting(h') == Waiting(h) && h'.answered == h.answered && h'.issued == h.issued
    requires h'.drain.Some? ==> h'.drain.value.next <= |h'.drain.value.items|
    ensures Conserved(h')
  {
  }

  lemma DrainKeeps(h: Hub, e: Event)
    requires Conserved(h) && Enabled(h, e) && (e.BeginDrain? || e.Keep? || e.EndDrain?)
    ensures Waiting(Apply(h, e)) == Waiting(h)
    ensures Conserved(Apply(h, e))
  {
    hide InOrder;
    if e.Keep? {
      var d := h.drain.value;
      assert d.items[d.next..] == [d.items[d.next]] + d.items[d.next + 1..];
    } else if e.BeginDrain? {
      assert h.queue[0..] == h.queue;
    }
    SameWaiting(h, Apply(h, e));
  }

  lemma AnswerKeeps(h: Hub, written: bool)
    requires Conserved(h) && Enabled(h, Send(Drainer, written))
    ensures Conserved(Apply(h, Send(Drainer, written)))
  {
    var h' := Apply(h, Send(Drainer, written));
    var d := h.drain.value;
    var t0, rest := d.items[d.next], d.items[d.next + 1..];
    assert Waiting(h) == d.kept + [t0] + rest;
    assert Waiting(h') == d.kept + rest;
    assert multiset(Waiting(h)) == multiset(Waiting(h')) + multiset{t0};
    assert multiset(h'.answered) == multiset(h.answered) + multiset{t0};
    DropKeepsOrder(d.kept, t0, rest);
  }

  lemma DropKeepsOrder(a: seq<Ticket>, t: Ticket, b: seq<Ticket>)
    requires InOrder(a + [t] + b)
    ensures InOrder(a + b)
  {
    var s := a + [t] + b;
    forall i, j | 0 <= i < j < |a + b|
      ensures (a + b)[i] < (a + b)[j]
    {
      var i', j' := if i < |a| then i else i + 1, if j < |a| then j else j + 1;
      assert s[i'] < s[j'];
    }
  }

  // A caller that sends directly and the registry leave the queue alone.
  lemma OthersKeep(h: Hub, e: Event)
    requires Conserved(h) && Enabled(h, e)
    requires !e.Queue? && !e.BeginDrain? && !e.Keep? && !e.EndDrain? && !(e.Send? && e.sender.Drainer?)
    ensures Conserved(Apply(h, e))
  {
    var h' := Apply(h, e);
    assert h'.drain == h.drain && h'.queue == h.queue && h'.answered == h.answered && h'.issued == h.issued;
    hide Apply;
    hide InOrder;
    SameWaiting(h, h');
  }

  lemma EventKeeps(h: Hub, e: Event)
    requires Conserved(h) && Enabled(h, e)
    ensures Conserved(Apply(h, e))
  {
    hide Conserved;
    if e.Queue? {
      QueueKeeps(h);
    } else if e.BeginDrain? || e.Keep? || e.EndDrain? {
      DrainKeeps(h, e);
    } else if e.Send? && e.sender.Drainer? {
      AnswerKeeps(h, e.written);
    } else {
      OthersKeep(h, e);
    }
  }

  lemma {:induction false} TicketsConserved(states: seq<Hub>, events: seq<Event>, i: nat)
    requires IsRun(states, events) && i < |states|
    ensures Conserved(states[i])
  {
    if i > 0 {
      TicketsConserved(states, events, i - 1);
      assert Enabled(states[i - 1], events[i - 1]) && states[i - 1 + 1] == Apply(states[i - 1], events[i - 1]);
      EventKeeps(states[i - 1], events[i - 1]);
    }
  }

  lemma {:induction false} AnswersGrow(states: seq<Hub>, events: seq<Event>, i: nat, j: nat)
    requires IsRun(states, events) && i <= j < |states|
    ensures states[i].answered <= states[j].answered
    decreases j
  {
    if i < j {
      AnswersGrow(states, events, i, j - 1);
      assert Enabled(states[j - 1], events[j - 1]) && states[j - 1 + 1] == Apply(states[j - 1], events[j - 1]);
      assert states[j - 1].answered <= states[j].answered;
    }
  }

  // An answer is final: the ticket keeps its one answer and never waits again.
  lemma AnsweredForever(states: seq<Hub>, events: seq<Event>, i: nat, j: nat, t: Ticket)
    requires IsRun(states, events) && i <= j < |states| && t in states[i].answered
    ensures t !in Waiting(states[j]) && multiset(states[j].answered)[t] == 1
  {
    TicketsConserved(states, events, j);
    AnswersGrow(states, events, i, j);
    hide IsRun;
    assert t in states[j].answered;
    assert multiset(states[j].answered)[t] > 0;
    assert multiset(Waiting(states[j]))[t] == 0;
  }

  // ---------- How far an agent can be overloaded ----------

  // The senders that are about to count a task on this agent.
  ghost function Inbound(h: Hub, id: AgentId): set<Sender> {
    set s | s in h.routed && h.routed[s] == id
  }

  ghost predicate Senders(states: seq<Hub>, n: nat) {
    forall i :: 0 <= i < |states| ==> |states[i].routed| <= n
  }

  // Agents report at most `k` more than they can take.
  ghost predicate Reports(h: Hub, e: Event, k: int) {
    e.Beat? && e.id in h.agents && h.agents[e.id].maxParallel > 0 && e.active >= 0 ==>
      e.active <= h.agents[e.id].maxParallel + k
  }

  ghost predicate Within(h: Hub, over: int) {
    forall id :: id in h.agents && h.agents[id].maxParallel > 0 ==>
      0 <= h.agents[id].active && h.agents[id].active + |Inbound(h, id)| <= h.agents[id].maxParallel + over
  }

  lemma InboundIsFew(h: Hub, id: AgentId)
    ensures |Inbound(h, id)| <= |h.routed|
  {
    assert Inbound(h, id) <= h.routed.Keys;
    SubsetIsSmaller(Inbound(h, id), h.routed.Keys);
  }

  lemma {:induction false} SubsetIsSmaller(a: set<Sender>, b: set<Sender>)
    requires a <= b
    ensures |a| <= |b|
  {
    assert b == a + (b - a);
  }

  lemma PickKeeps(h: Hub, e: Event, over: int)
    requires e.Pick? && Within(h, over) && Enabled(h, e) && |Apply(h, e).routed| - 1 <= over
    ensures Within(Apply(h, e), over)
  {
    var h' := Apply(h, e);
    forall id | id in h'.agents && h'.agents[id].maxParallel > 0
      ensures 0 <= h'.agents[id].active && h'.agents[id].active + |Inbound(h', id)| <= h'.agents[id].maxParallel + over
    {
      if id == e.agent {
        InboundIsFew(h', id);
        assert Fits(h.agents[id], []);
      } else {
        assert Inbound(h', id) == Inbound(h, id);
      }
    }
  }

  lemma SendKeeps(h: Hub, e: Event, over: int)
    requires e.Send? && Within(h, over) && Enabled(h, e)
    ensures Within(Apply(h, e), over)
  {
    var h' := Apply(h, e);
    var to := h.routed[e.sender];
    forall id | id in h'.agents && h'.agents[id].maxParallel > 0
      ensures 0 <= h'.agents[id].active && h'.agents[id].active + |Inbound(h', id)| <= h'.agents[id].maxParallel + over
    {
      assert id in h.agents && h.agents[id].maxParallel == h'.agents[id].maxParallel;
      if id == to {
        assert Inbound(h', id) == Inbound(h, id) - {e.sender};
      } else {
        assert Inbound(h', id) == Inbound(h, id);
      }
    }
  }

  lemma RegistryKeeps(h: Hub, e: Event, n: nat, k: int)
    requires !e.Pick? && !e.Send? && Within(h, n + k) && Enabled(h, e) && |h.routed| <= n && -1 <= k && Reports(h, e, k)
    ensures Within(Apply(h, e), n + k)
  {
    var h' := Apply(h, e);
    assert h'.routed == h.routed;
    forall id | id in h'.agents && h'.agents[id].maxParallel > 0
      ensures 0 <= h'.agents[id].active && h'.agents[id].active + |Inbound(h', id)| <= h'.agents[id].maxParallel + n + k
    {
      assert Inbound(h', id) == Inbound(h, id);
      InboundIsFew(h, id);
    }
  }

  /** With at most n senders at a time and agents that report at most MaxParallel + k running
      tasks, no agent is ever counted beyond MaxParallel + n + k, whatever interleaves. With one
      sender and no counting heartbeats k is -1 and the bound is MaxParallel itself. */
  lemma {:induction false} CapacityHolds(states: seq<Hub>, events: seq<Event>, n: nat, k: int, i: nat)
    requires IsRun(states, events) && Senders(states, n) && -1 <= k && i < |states|
    requires forall j :: 0 <= j < |events| ==> Reports(states[j], events[j], k)
    ensures Within(states[i], n + k)
  {
    if i > 0 {
      CapacityHolds(states, events, n, k, i - 1);
      var h, e := states[i - 1], events[i - 1];
      assert Enabled(h, e) && states[i - 1 + 1] == Apply(h, e);
      assert |h.routed| <= n && |states[i].routed| <= n;
      assert Reports(h, e, k);
      if e.Pick? {
        PickKeeps(h, e, n + k);
      } else if e.Send? {
        SendKeeps(h, e, n + k);
      } else {
        RegistryKeeps(h, e, n, k);
      }
    }
  }

  // ---------- The bound is reached ----------

  // At most n senders at a time, and reports of at most MaxParallel + k.
  ghost predicate Orderly(states: seq<Hub>, events: seq<Event>, n: nat, k: int) {
    && IsRun(states, events) && Senders(states, n)
    && forall j :: 0 <= j < |events| ==> Reports(states[j], events[j], k)
  }

  lemma Extend(states: seq<Hub>, events: seq<Event>, n: nat, k: int, e: Event)
    requires Orderly(states, events, n, k) && Enabled(states[|events|], e)
    requires Reports(states[|events|], e, k) && |Apply(states[|events|], e).routed| <= n
    ensures Orderly(states + [Apply(states[|events|], e)], events + [e], n, k)
  {
    hide Enabled;
    hide Apply;
    hide Reports;
    var ss, es := states + [Apply(states[|events|], e)], events + [e];
    forall i | 0 <= i < |es| ensures Enabled(ss[i], es[i]) && ss[i + 1] == Apply(ss[i], es[i]) && Reports(ss[i], es[i], k) {
      if i < |events| {
        assert Enabled(states[i], events[i]) && states[i + 1] == Apply(states[i], events[i]);
      }
    }
    forall i | 0 <= i < |ss| ensures |ss[i].routed| <= n {
      if i < |states| {
        assert |states[i].routed| <= n;
      }
    }
  }

  // The first j callers, all routed to agent "a".
  ghost function Routed(j: nat): (r: map<Sender, AgentId>)
    ensures |r| == j
    ensures forall s :: s in r <==> s.Caller? && s.id < j
    ensures forall s :: s in r ==> r[s] == "a"
  {
    if j == 0 then map[] else Routed(j - 1)[Caller(j - 1) := "a"]
  }

  // Only agent "a" is connected.
  ghost predicate Alone(h: Hub, m: int, active: int, routed: map<Sender, AgentId>) {
    && "a" in h.agents && h.agents["a"].maxParallel == m && h.agents["a"].active == active
    && h.agents["a"].status != Draining && h.routed == routed
  }

  lemma PickOne(h: Hub, m: int, active: int, j: nat)
    requires Alone(h, m, active, Routed(j)) && 0 <= active < m && active < MaxInt
    ensures Enabled(h, Pick(Caller(j), "a")) && Alone(Apply(h, Pick(Caller(j), "a")), m, active, Routed(j + 1))
  {
  }

  lemma RoutedDrop(j: nat)
    ensures Routed(j + 1) - {Caller(j)} == Routed(j) && Caller(j) in Routed(j + 1) && Routed(j + 1)[Caller(j)] == "a"
  {
  }

  lemma SendOne(h: Hub, m: int, active: int, j: nat)
    requires Alone(h, m, active, Routed(j + 1))
    ensures Enabled(h, Send(Caller(j), true)) && Alone(Apply(h, Send(Caller(j), true)), m, active + 1, Routed(j))
  {
    hide Routed;
    RoutedDrop(j);
  }

  lemma OnePick(states: seq<Hub>, events: seq<Event>, n: nat, k: int, m: int, active: int, j: nat) returns (ss: seq<Hub>, es: seq<Event>)
    requires |states| == |events| + 1 && Orderly(states, events, n, k) && j < n && 0 <= active < m && active < MaxInt
    requires Alone(states[|events|], m, active, Routed(j))
    ensures es == events + [Pick(Caller(j), "a")] && |ss| == |es| + 1
    ensures Orderly(ss, es, n, k) && Alone(ss[|es|], m, active, Routed(j + 1))
  {
    hide Orderly;
    hide Apply;
    hide Enabled;
    hide Routed;
    var h, e := states[|events|], Pick(Caller(j), "a");
    PickOne(h, m, active, j);
    Extend(states, events, n, k, e);
    ss, es := states + [Apply(h, e)], events + [e];
  }

  lemma OneSend(states: seq<Hub>, events: seq<Event>, n: nat, k: int, m: int, active: int, j: nat) returns (ss: seq<Hub>, es: seq<Event>)
    requires |states| == |events| + 1 && Orderly(states, events, n, k) && j < n && Alone(states[|events|], m, active, Routed(j + 1))
    ensures es == events + [Send(Caller(j), true)] && |ss| == |es| + 1
    ensures Orderly(ss, es, n, k) && Alone(ss[|es|], m, active + 1, Routed(j))
  {
    hide Orderly;
    hide Apply;
    hide Enabled;
    hide Routed;
    var h, e := states[|events|], Send(Caller(j), true);
    SendOne(h, m, active, j);
    Extend(states, events, n, k, e);
    ss, es := states + [Apply(h, e)], events + [e];
  }

  lemma {:induction false} PickMany(states: seq<Hub>, events: seq<Event>, n: nat, k: int, m: int, active: int, j: nat)
      returns (ss: seq<Hub>, es: seq<Event>)
    requires |states| == |events| + 1 && Orderly(states, events, n, k) && j <= n && 0 <= active < m && active < MaxInt
    requires Alone(states[|events|], m, active, Routed(0))
    ensures |ss| == |es| + 1 && Orderly(ss, es, n, k) && Alone(ss[|es|], m, active, Routed(j))
    ensures events <= es && forall i :: |events| <= i < |es| ==> es[i].Pick?
  {
    hide *;
    if j == 0 {
      ss, es := states, events;
    } else {
      var ss0, es0 := PickMany(states, events, n, k, m, active, j - 1);
      ss, es := OnePick(ss0, es0, n, k, m, active, j - 1);
    }
  }

  lemma {:induction false} SendMany(states: seq<Hub>, events: seq<Event>, n: nat, k: int, m: int, active: int, j: nat)
      returns (ss: seq<Hub>, es: seq<Event>)
    requires |states| == |events| + 1 && Orderly(states, events, n, k) && j <= n && Alone(states[|events|], m, active, Routed(j))
    ensures |ss| == |es| + 1 && Orderly(ss, es, n, k) && Alone(ss[|es|], m, active + j, Routed(0))
    ensures events <= es && forall i :: |events| <= i < |es| ==> es[i].Send?
    decreases j
  {
    hide *;
    if j == 0 {
      ss, es := states, events;
    } else {
      var ss0, es0 := OneSend(states, events, n, k, m, active, j - 1);
      ss, es := SendMany(ss0, es0, n, k, m, active + 1, j - 1);
    }
  }

  lemma JoinAlone(n: nat, k: int, m: int) returns (ss: seq<Hub>, es: seq<Event>)
    ensures |ss| == |es| + 1 && Orderly(ss, es, n, k) && es == [Join("a", 0, m, {}, 0)] && Alone(ss[|es|], m, 0, Routed(0))
  {
    var e := Join("a", 0, m, {}, 0);
    Extend([Start], [], n, k, e);
    ss, es := [Start] + [Apply(Start, e)], [] + [e];
  }

  /** The bound of `CapacityHolds` is exact: for every MaxParallel m, every n and every k some run
      from the start reaches m + n + k. All senders pick while there is room, the agent reports,
      and the senders count. */
  lemma CapacityIsReached(n: nat, k: int, m: int) returns (ss: seq<Hub>, es: seq<Event>)
    requires m > 0 && k >= -1
    ensures Orderly(ss, es, n, k)
    ensures "a" in ss[|es|].agents && ss[|es|].agents["a"].maxParallel == m && ss[|es|].agents["a"].active == m + n + k
  {
    ss, es := JoinAlone(n, k, m);
    ss, es := PickMany(ss, es, n, k, m, 0, n);
    var beat := Beat("a", m + k, 0);
    var h := ss[|es|];
    var h' := Apply(h, beat);
    assert Alone(h', m, m + k, Routed(n));
    Extend(ss, es, n, k, beat);
    hide Apply;
    hide Enabled;
    ss, es := SendMany(ss + [h'], es + [beat], n, k, m, m + k, n);
  }

  // One sender after another fills the agent up to a load.
  lemma {:induction false} FillUp(states: seq<Hub>, events: seq<Event>, n: nat, k: int, m: int, active: nat)
      returns (ss: seq<Hub>, es: seq<Event>)
    requires |states| == |events| + 1 && Orderly(states, events, n, k) && n >= 1 && active <= m <= MaxInt
    requires Alone(states[|events|], m, 0, Routed(0))
    ensures |ss| == |es| + 1 && Orderly(ss, es, n, k) && Alone(ss[|es|], m, active, Routed(0))
    ensures events <= es && forall i :: |events| <= i < |es| ==> !es[i].Beat?
    decreases active
  {
    hide Orderly;
    hide Alone;
    hide Routed;
    if active == 0 {
      ss, es := states, events;
    } else {
      var ss0, es0 := FillUp(states, events, n, k, m, active - 1);
      var ss1, es1 := PickMany(ss0, es0, n, k, m, active - 1, 1);
      ss, es := SendMany(ss1, es1, n, k, m, active - 1, 1);
    }
  }

  /** Without any heartbeat the excess is n - 1, and that is reached too. */
  lemma SilentCapacityIsReached(n: nat, m: int) returns (ss: seq<Hub>, es: seq<Event>)
    requires 0 < m <= MaxInt && n >= 1
    ensures Orderly(ss, es, n, -1) && forall i :: 0 <= i < |es| ==> !es[i].Beat?
    ensures "a" in ss[|es|].agents && ss[|es|].agents["a"].maxParallel == m && ss[|es|].agents["a"].active == m + n - 1
  {
    ss, es := JoinAlone(n, -1, m);
    ss, es := FillUp(ss, es, n, -1, m, m - 1);
    ss, es := PickMany(ss, es, n, -1, m, m - 1, n);
    ss, es := SendMany(ss, es, n, -1, m, m - 1, n);
  }

  // No agent is counted beyond its own limit.
  ghost predicate NoneOver(h: Hub) {
    forall id :: id in h.agents && h.agents[id].maxParallel > 0 ==> h.agents[id].active <= h.agents[id].maxParallel
  }

  /** MaxParallel holds at the end of every run with at most n senders and reports of at most
      MaxParallel + k exactly when n + k is at most zero. */
  lemma LimitHoldsExactly(n: nat, k: int)
    requires k >= -1
    ensures (forall states: seq<Hub>, events: seq<Event> :: Orderly(states, events, n, k) ==> NoneOver(states[|events|])) <==> n + k <= 0
  {
    if n + k <= 0 {
      forall states: seq<Hub>, events: seq<Event> | Orderly(states, events, n, k) ensures NoneOver(states[|events|]) {
        CapacityHolds(states, events, n, k, |events|);
      }
    } else {
      var ss, es := CapacityIsReached(n, k, 1);
      assert !NoneOver(ss[|es|]);
    }
  }

  // ---------- Connections ----------

  // The registration made on this connection is in the registry.
  ghost predicate Connected(h: Hub, id: AgentId, conn: Conn) {
    id in h.agents && h.agents[id].conn == conn
  }

  // The only events that can end it: its own connection leaves, a newer one joins, or it is stale.
  ghost predicate Ends(h: Hub, e: Event, id: AgentId, conn: Conn) {
    || (e.Leave? && e.id == id && e.conn == conn)
    || (e.Join? && e.id == id)
    || (e.Evict? && id in h.agents && h.agents[id].lastSeen < e.cutoff)
  }

  lemma EventStaysConnected(h: Hub, e: Event, id: AgentId, conn: Conn)
    requires Enabled(h, e) && Connected(h, id, conn) && !Ends(h, e, id, conn)
    ensures Connected(Apply(h, e), id, conn)
  {
  }

  ghost predicate Undisturbed(states: seq<Hub>, events: seq<Event>, i: nat, j: nat, id: AgentId, conn: Conn)
    requires i <= j <= |events| <= |states|
  {
    forall m :: i <= m < j ==> !Ends(states[m], events[m], id, conn)
  }

  lemma StillUndisturbed(states: seq<Hub>, events: seq<Event>, i: nat, j: nat, id: AgentId, conn: Conn)
    requires i < j <= |events| <= |states| && Undisturbed(states, events, i, j, id, conn)
    ensures Undisturbed(states, events, i, j - 1, id, conn) && !Ends(states[j - 1], events[j - 1], id, conn)
  {
    hide Ends;
  }

  lemma StepOf(states: seq<Hub>, events: seq<Event>, i: nat)
    requires IsRun(states, events) && i < |events|
    ensures Enabled(states[i], events[i]) && states[i + 1] == Apply(states[i], events[i])
  {
  }

  /** In particular an old connection's departure never removes a later registration. */
  lemma {:induction false} StaysConnected(states: seq<Hub>, events: seq<Event>, i: nat, j: nat, id: AgentId, conn: Conn)
    requires IsRun(states, events) && |states| == |events| + 1 && i <= j <= |events|
    requires Connected(states[i], id, conn) && Undisturbed(states, events, i, j, id, conn)
    ensures Connected(states[j], id, conn)
    decreases j
  {
    hide *;
    if i < j {
      StillUndisturbed(states, events, i, j, id, conn);
      StaysConnected(states, events, i, j - 1, id, conn);
      StepOf(states, events, j - 1);
      EventStaysConnected(states[j - 1], events[j - 1], id, conn);
    }
  }

  // ---------- The code ----------

  // What a result channel was sent: the agent the task was routed to, and whether the write worked.
  datatype Answer = Answer(ticket: Ticket, agent: AgentId, written: bool)

  // How many tasks these answers put on this agent.
  function Load(answers: seq<Answer>, id: AgentId): nat
    decreases |answers|
  {
    if answers == [] then 0
    else
      var last := answers[|answers| - 1];
      Load(answers[..|answers| - 1], id) + (if last.agent == id && last.written then 1 else 0)
  }

  // The agents before and after the answers: only counters and status moved, by exactly the load.
  ghost predicate Loaded(before: Agents, after: Agents, answers: seq<Answer>) {
    && after.Keys == before.Keys
    && forall id :: id in before ==>
        && after[id].active == before[id].active + Load(answers, id)
        && after[id].(active := 0, status := Idle) == before[id].(active := 0, status := Idle)
  }

  // Nobody was taken past its limit by these answers.
  ghost predicate Unspilled(after: Agents, answers: seq<Answer>) {
    forall id :: id in after && after[id].maxParallel > 0 && Load(answers, id) > 0 ==> after[id].active <= after[id].maxParallel
  }

  // The answers are for the first tickets of the queue.
  ghost predicate AnswersTo(answers: seq<Answer>, queue: seq<Ticket>, reach: (Ticket, AgentId) -> bool) {
    && |answers| <= |queue|
    && forall k :: 0 <= k < |answers| ==>
        answers[k].ticket == queue[k] && answers[k].written == reach(answers[k].ticket, answers[k].agent)
  }

  // The agents after these answers: whoever was written to is busy with one task more.
  function AgentsAfter(before: Agents, answers: seq<Answer>): Agents
    decreases |answers|
  {
    if answers == [] then before
    else
      var last, agents := answers[|answers| - 1], AgentsAfter(before, answers[..|answers| - 1]);
      if last.written && last.agent in agents then
        agents[last.agent := agents[last.agent].(active := agents[last.agent].active + 1, status := Busy)]
      else agents
  }

  // Each answer went to a least loaded agent among those that fitted, as the agents were by then.
  ghost predicate BestAtTheTime(before: Agents, answers: seq<Answer>) {
    forall k :: 0 <= k < |answers| ==> IsBest(AgentsAfter(before, answers[..k]), [], answers[k].agent)
  }

  lemma NothingSent(before: Agents)
    ensures BestAtTheTime(before, []) && AgentsAfter(before, []) == before
  {
  }

  lemma AfterOneMore(before: Agents, agents: Agents, answers: seq<Answer>, a: Answer)
    requires agents == AgentsAfter(before, answers) && IsBest(agents, [], a.agent)
    ensures AgentsAfter(before, answers + [a]) == if a.written then Incremented(agents, a.agent) else agents
  {
    hide Fits;
    assert (answers + [a])[..|answers|] == answers;
    assert AgentsAfter(before, (answers + [a])[..|answers|]) == agents;
  }

  lemma SentToBest(before: Agents, agents: Agents, answers: seq<Answer>, a: Answer)
    requires BestAtTheTime(before, answers) && agents == AgentsAfter(before, answers) && IsBest(agents, [], a.agent)
    ensures BestAtTheTime(before, answers + [a])
    ensures AgentsAfter(before, answers + [a]) == if a.written then Incremented(agents, a.agent) else agents
  {
    AfterOneMore(before, agents, answers, a);
    hide IsBest;
    hide AgentsAfter;
    hide Incremented;
    var more := answers + [a];
    forall k | 0 <= k < |more| ensures IsBest(AgentsAfter(before, more[..k]), [], more[k].agent) {
      assert more[..k] == if k < |answers| then answers[..k] else answers;
    }
  }

  lemma NothingAnswered(queue: seq<Ticket>, reach: (Ticket, AgentId) -> bool)
    ensures AnswersTo([], queue, reach)
  {
  }

  lemma AnswersToMore(answers: seq<Answer>, queue: seq<Ticket>, reach: (Ticket, AgentId) -> bool, a: Answer)
    requires AnswersTo(answers, queue, reach) && |answers| < |queue|
    requires a.ticket == queue[|answers|] && a.written == reach(a.ticket, a.agent)
    ensures AnswersTo(answers + [a], queue, reach)
  {
  }

  lemma NothingLoaded(agents: Agents)
    ensures Loaded(agents, agents, []) && Unspilled(agents, [])
  {
  }

  lemma AnswerMore(before: Agents, agents: Agents, answers: seq<Answer>, a: Answer)
    requires Loaded(before, agents, answers) && Unspilled(agents, answers) && IsBest(agents, [], a.agent)
    ensures var after := if a.written then Incremented(agents, a.agent) else agents;
      Loaded(before, after, answers + [a]) && Unspilled(after, answers + [a])
  {
    assert (answers + [a])[..|answers|] == answers;
    assert forall id :: Load(answers + [a], id) == Load(answers, id) + if a.agent == id && a.written then 1 else 0;
    assert Fits(agents[a.agent], []);
  }

  class Server {
    const registry: Registry
    // The slice: the first `count` cells of its backing array.
    var pending: array<Ticket>
    var count: nat
    var issued: nat

    ghost predicate Valid()
      reads this
    {
      count <= pending.Length
    }

    ghost function Queued(): seq<Ticket>
      requires Valid()
      reads this, pending
    {
      pending[..count]
    }

    constructor (registry: Registry)
      ensures Valid() && Queued() == [] && this.registry == registry && issued == 0 && fresh(pending)
    {
      this.registry := registry;
      pending := new Ticket[0];
      count, issued := 0, 0;
    }

    // The task is counted on the agent only after a write that worked.
    method SendTaskToAgent(id: AgentId, written: bool) returns (ok: bool)
      modifies registry
      ensures ok == written
      ensures registry.agents == if written then Incremented(old(registry.agents), id) else old(registry.agents)
    {
      if !written {
        return false;
      }
      registry.IncrementTasks(id);
      return true;
    }

    // Appending may write into spare room or move the queue to a larger array.
    method Append(t: Ticket)
      requires Valid()
      modifies this, pending
      ensures Valid() && Queued() == old(Queued()) + [t] && issued == old(issued)
      ensures pending == old(pending) || fresh(pending)
    {
      if count == pending.Length {
        var larger := new Ticket[2 * count + 1];
        forall i | 0 <= i < count {
          larger[i] := pending[i];
        }
        pending := larger;
      }
      pending[count] := t;
      count := count + 1;
    }

    /** A task is sent at once when some agent fits, and queued under a new ticket otherwise. */
    method AssignTask(reach: AgentId -> bool) returns (sent: Option<AgentId>)
      requires Valid()
      modifies this, pending, registry
      ensures Valid()
      ensures sent.None? <==> NoneFits(old(registry.agents), [])
      ensures sent.None? ==> Queued() == old(Queued()) + [old(issued)] && issued == old(issued) + 1 && registry.agents == old(registry.agents)
      ensures sent.Some? ==> IsBest(old(registry.agents), [], sent.value) && Queued() == old(Queued()) && issued == old(issued)
      ensures sent.Some? ==> registry.agents == if reach(sent.value) then Incremented(old(registry.agents), sent.value) else old(registry.agents)
    {
      sent := registry.Route([]);
      if sent.Some? {
        var _ := SendTaskToAgent(sent.value, reach(sent.value));
        return;
      }
      Append(issued);
      issued := issued + 1;
    }

    /** The drain compacts the queue within its own array. Undisturbed, it answers the longest
        prefix it can, each task by an agent that was a least loaded one by then: what is left is the rest of the queue in its order, something is left only
        when no agent fits any more, each agent's counter grew by exactly the tasks written to it,
        and no agent was taken past its limit. */
    method DrainPendingTasks(reach: (Ticket, AgentId) -> bool) returns (answers: seq<Answer>)
      requires Valid()
      modifies this, pending, registry
      ensures Valid() && pending == old(pending) && issued == old(issued)
      ensures AnswersTo(answers, old(Queued()), reach)
      ensures Queued() == old(Queued())[|answers|..]
      ensures count > 0 ==> NoneFits(registry.agents, [])
      ensures Loaded(old(registry.agents), registry.agents, answers) && Unspilled(registry.agents, answers)
      ensures BestAtTheTime(old(registry.agents), answers) && registry.agents == AgentsAfter(old(registry.agents), answers)
    {
      hide Loaded;
      hide Unspilled;
      hide Load;
      hide NoneFits;
      hide IsBest;
      hide Incremented;
      hide AnswersTo;
      hide BestAtTheTime;
      hide AgentsAfter;
      answers := [];
      var kept := 0;
      var i := 0;
      ghost var queue := Queued();
      NothingLoaded(registry.agents);
      NothingSent(registry.agents);
      NothingAnswered(queue, reach);
      while i < count
        invariant i <= count == |queue| <= pending.Length && pending == old(pending) && issued == old(issued)
        invariant kept + |answers| == i && |answers| <= |queue|
        invariant forall k :: 0 <= k < kept ==> pending[k] == queue[|answers| + k]
        invariant forall k :: i <= k < count ==> pending[k] == queue[k]
        invariant kept > 0 ==> NoneFits(registry.agents, [])
        invariant AnswersTo(answers, queue, reach)
        invariant Loaded(old(registry.agents), registry.agents, answers) && Unspilled(registry.agents, answers)
        invariant BestAtTheTime(old(registry.agents), answers) && registry.agents == AgentsAfter(old(registry.agents), answers)
      {
        var pt := pending[i];
        var a := registry.Route([]);
        if a.None? {
          pending[kept] := pt;
          kept := kept + 1;
        } else {
          AnswerMore(old(registry.agents), registry.agents, answers, Answer(pt, a.value, reach(pt, a.value)));
          SentToBest(old(registry.agents), registry.agents, answers, Answer(pt, a.value, reach(pt, a.value)));
          AnswersToMore(answers, queue, reach, Answer(pt, a.value, reach(pt, a.value)));
          var sendErr := SendTaskToAgent(a.value, reach(pt, a.value));
          answers := answers + [Answer(pt, a.value, sendErr)];
        }
        i := i + 1;
      }
      count := kept;
    }

    /** The task goes to the end of the queue and the queue is drained at once. */
    method RequeueTask(reach: (Ticket, AgentId) -> bool) returns (answers: seq<Answer>)
      requires Valid()
      modifies this, pending, registry
      ensures Valid() && issued == old(issued) + 1
      ensures AnswersTo(answers, old(Queued()) + [old(issued)], reach)
      ensures Queued() == (old(Queued()) + [old(issued)])[|answers|..]
      ensures count > 0 ==> NoneFits(registry.agents, [])
      ensures Loaded(old(registry.agents), registry.agents, answers) && Unspilled(registry.agents, answers)
      ensures BestAtTheTime(old(registry.agents), answers) && registry.agents == AgentsAfter(old(registry.agents), answers)
    {
      Append(issued);
      issued := issued + 1;
      answers := DrainPendingTasks(reach);
    }
  }
}
