/** Approval requests with an expiry: the in-memory manager and the PostgreSQL repository as two
    implementations of one protocol. The manager works under one lock. The repository reads a row
    in one statement and writes it, by id alone, in another, and takes no row lock in between. */
module Approvals {
  import Types

  type ApprovalId = string

  datatype Status = Pending | Approved | Denied | Expired

  datatype Entry = Entry(status: Status, resolver: string, created: int, expires: int)

  type Table = map<ApprovalId, Entry>

  datatype Outcome = Accepted | NotFound | ErrExpired | AlreadyResolved

  function NewEntry(now: int, ttl: int): Entry {
    Entry(Pending, "", now, now + ttl)
  }

  predicate Overdue(e: Entry, now: int) {
    now > e.expires
  }

  function Expire(t: Table, id: ApprovalId): Table
    requires id in t
  {
    t[id := t[id].(status := Expired)]
  }

  // ---------- In memory ----------

  // A late call marks the entry expired, whatever its status was.
  function MemResolve(t: Table, id: ApprovalId, who: string, status: Status, now: int): (Table, Outcome) {
    if id !in t then (t, NotFound)
    else if Overdue(t[id], now) then (Expire(t, id), ErrExpired)
    else if t[id].status != Pending then (t, AlreadyResolved)
    else (t[id := t[id].(status := status, resolver := who)], Accepted)
  }

  // Marking on access, the same in both implementations.
  function MarkOnGet(t: Table, id: ApprovalId, now: int): Table {
    if id in t && t[id].status == Pending && Overdue(t[id], now) then Expire(t, id) else t
  }

  function Marked(e: Entry, now: int): Entry {
    if e.status == Pending && Overdue(e, now) then e.(status := Expired) else e
  }

  predicate Old(e: Entry, ttl: int, now: int) {
    e.status != Pending && now > e.expires + ttl
  }

  function MemCleanup(t: Table, ttl: int, now: int): Table {
    map id | id in t && !Old(Marked(t[id], now), ttl, now) :: Marked(t[id], now)
  }

  // ---------- In the database ----------

  // What a resolve makes of the row it has read. A late call on a pending row is an error, and
  // the transaction, with its marking, is rolled back.
  function Verdict(row: Types.Option<Entry>, now: int): Outcome {
    if row.None? then NotFound
    else if Overdue(row.value, now) && row.value.status == Pending then ErrExpired
    else if row.value.status != Pending then AlreadyResolved
    else Accepted
  }

  function Row(t: Table, id: ApprovalId): Types.Option<Entry> {
    if id in t then Types.Some(t[id]) else Types.None
  }

  // An update by id: it takes the row as it is by then, and no row is no error.
  function Decide(t: Table, id: ApprovalId, who: string, status: Status): Table {
    if id in t then t[id := t[id].(status := status, resolver := who)] else t
  }

  function Mark(t: Table, id: ApprovalId): Table {
    if id in t then Expire(t, id) else t
  }

  // A resolve that nothing disturbs.
  function PgResolve(t: Table, id: ApprovalId, who: string, status: Status, now: int): (Table, Outcome) {
    var outcome := Verdict(Row(t, id), now);
    (if outcome == Accepted then Decide(t, id, who, status) else t, outcome)
  }

  function PgExpireOld(t: Table, now: int): Table {
    map id | id in t :: Marked(t[id], now)
  }

  function PgDeleteResolved(t: Table, olderThan: int, now: int): Table {
    map id | id in t && !(t[id].status != Pending && t[id].created < now - olderThan) :: t[id]
  }

  // ---------- Runs of both ----------

  /** A repository call between two of its statements: a resolve that has read its row, one that
      has passed its checks and is about to commit, a get that has read, and one about to mark.
      `first` and `readAt` are history: whether no decision on the id had been committed when the
      row was read, and the number of the step that read it. */
  datatype Call =
    | Reading(id: ApprovalId, who: string, approve: bool, row: Types.Option<Entry>, first: bool, readAt: nat)
    | Deciding(id: ApprovalId, who: string, approve: bool)
    | Getting(id: ApprovalId, row: Types.Option<Entry>)
    | Marking(id: ApprovalId)

  /** Every approval is created in both tables, and every resolve is made on both: on the table in
      memory as a whole, when the repository's call reads the clock. The last fields are history:
      the expiry of every approval ever made, the ids decided in memory, the ids on which the
      repository has committed a decision, the latest clock reading and the number of steps. */
  datatype System = System(
    mem: Table,
    pg: Table,
    calls: map<nat, Call>,
    made: map<ApprovalId, int>,
    decided: set<ApprovalId>,
    committed: set<ApprovalId>,
    clock: int,
    steps: nat)

  datatype Event =
    | Create(id: ApprovalId, at: int)
    | Select(call: nat, id: ApprovalId, who: string, approve: bool)
    | Check(call: nat, at: int)
    | Commit(call: nat)
    | MemGet(id: ApprovalId, at: int)
    | GetSelect(call: nat, id: ApprovalId)
    | GetCheck(call: nat, at: int)
    | GetMark(call: nat)
    | CleanupMem(at: int)
    | ExpirePg(at: int)
    | DeletePg(at: int)

  function Decision(approve: bool): Status {
    if approve then Approved else Denied
  }

  // Clock readings do not run backwards, except that a bulk statement may carry an older one.
  // Identifiers are not reused, and nobody names one before it has been made.
  predicate Possible(h: System, e: Event) {
    match e
    case Create(id, at) => h.clock <= at && id !in h.made && forall k :: k in h.calls ==> h.calls[k].id != id
    case Select(k, _, _, _) => k !in h.calls
    case Check(k, at) => k in h.calls && h.calls[k].Reading? && h.clock <= at
    case Commit(k) => k in h.calls && h.calls[k].Deciding?
    case MemGet(_, at) => h.clock <= at
    case GetSelect(k, _) => k !in h.calls
    case GetCheck(k, at) => k in h.calls && h.calls[k].Getting? && h.clock <= at
    case GetMark(k) => k in h.calls && h.calls[k].Marking?
    case CleanupMem(at) => h.clock <= at
    case ExpirePg(at) => true
    case DeletePg(at) => true
  }

  function MemOutcome(h: System, e: Event): Outcome
    requires e.Check? && Possible(h, e)
  {
    var c := h.calls[e.call];
    MemResolve(h.mem, c.id, c.who, Decision(c.approve), e.at).1
  }

  function PgOutcome(h: System, e: Event): Outcome
    requires e.Check? && Possible(h, e)
  {
    Verdict(h.calls[e.call].row, e.at)
  }

  function Latest(a: int, b: int): int {
    if a >= b then a else b
  }

  function Apply(h: System, e: Event, ttl: int): System
    requires Possible(h, e)
  {
    var h1 := h.(steps := h.steps + 1);
    match e
    case Create(id, at) =>
      h1.(mem := h.mem[id := NewEntry(at, ttl)], pg := h.pg[id := NewEntry(at, ttl)], made := h.made[id := at + ttl], clock := at)
    case Select(k, id, who, approve) =>
      h1.(calls := h.calls[k := Reading(id, who, approve, Row(h.pg, id), id in h.made && id !in h.committed, h.steps)])
    case Check(k, at) =>
      var c := h.calls[k];
      h1.(mem := MemResolve(h.mem, c.id, c.who, Decision(c.approve), at).0,
          decided := if MemOutcome(h, e) == Accepted then h.decided + {c.id} else h.decided,
          calls := if PgOutcome(h, e) == Accepted then h.calls[k := Deciding(c.id, c.who, c.approve)] else h.calls - {k},
          clock := at)
    case Commit(k) =>
      var c := h.calls[k];
      h1.(pg := Decide(h.pg, c.id, c.who, Decision(c.approve)), committed := h.committed + {c.id}, calls := h.calls - {k})
    case MemGet(id, at) => h1.(mem := MarkOnGet(h.mem, id, at), clock := at)
    case GetSelect(k, id) => h1.(calls := h.calls[k := Getting(id, Row(h.pg, id))])
    case GetCheck(k, at) =>
      var c := h.calls[k];
      var mark := c.row.Some? && c.row.value.status == Pending && Overdue(c.row.value, at);
      h1.(calls := if mark then h.calls[k := Marking(c.id)] else h.calls - {k}, clock := at)
    case GetMark(k) => h1.(pg := Mark(h.pg, h.calls[k].id), calls := h.calls - {k})
    case CleanupMem(at) => h1.(mem := MemCleanup(h.mem, ttl, at), clock := at)
    case ExpirePg(at) => h1.(pg := PgExpireOld(h.pg, at), clock := Latest(h.clock, at))
    case DeletePg(at) => h1.(pg := PgDeleteResolved(h.pg, 2 * ttl, at), clock := Latest(h.clock, at))
  }

  const Empty: System := System(map[], map[], map[], map[], {}, {}, 0, 0)

  ghost predicate StepTaken(h: System, e: Event, ttl: int, h': System) {
    Possible(h, e) && h' == Apply(h, e, ttl)
  }

  ghost predicate IsRun(states: seq<System>, events: seq<Event>, ttl: int) {
    && |states| == |events| + 1 && states[0] == Empty.(clock := states[0].clock)
    && forall i :: 0 <= i < |events| ==> StepTaken(states[i], events[i], ttl, states[i + 1])
  }

  // ---------- The invariant ----------

  // The entry belongs to the approval that was created under this id.
  ghost predicate GenuineEntry(h: System, ttl: int, id: ApprovalId, e: Entry) {
    id in h.made && e.expires == h.made[id] && e.created + ttl == h.made[id]
  }

  ghost predicate Genuine(t: Table, h: System, ttl: int) {
    forall id :: id in t ==> GenuineEntry(h, ttl, id, t[id])
  }

  // Before its expiry an approval is in the table, and decided exactly when a decision got there.
  ghost predicate Open(t: Table, done: set<ApprovalId>, id: ApprovalId) {
    id in t && t[id].status != Expired && (t[id].status == Pending <==> id !in done)
  }

  ghost predicate Standing(t: Table, done: set<ApprovalId>, h: System) {
    forall id :: id in h.made && h.clock <= h.made[id] ==> Open(t, done, id)
  }

  // Every approval was created no later than now.
  ghost predicate Timely(h: System, ttl: int) {
    forall id :: id in h.made ==> h.made[id] - ttl <= h.clock
  }

  // What a call in flight has read is genuine, and until the expiry tells whether it was first.
  ghost predicate CallOk(h: System, ttl: int, c: Call) {
    match c
    case Reading(id, _, _, row, first, _) =>
      && (row.Some? ==> GenuineEntry(h, ttl, id, row.value))
      && (first ==> id in h.made)
      && (id in h.made && h.clock <= h.made[id] ==> (first <==> row.Some? && row.value.status == Pending))
    case Deciding(id, _, _) => id in h.made
    case Getting(id, row) => row.Some? ==> GenuineEntry(h, ttl, id, row.value)
    case Marking(id) => id in h.made && h.made[id] < h.clock
  }

  ghost predicate CallsOk(h: System, ttl: int) {
    forall k :: k in h.calls ==> CallOk(h, ttl, h.calls[k])
  }

  ghost predicate Inv(h: System, ttl: int) {
    && h.decided <= h.made.Keys && h.committed <= h.made.Keys
    && Genuine(h.mem, h, ttl) && Genuine(h.pg, h, ttl) && Timely(h, ttl)
    && Standing(h.mem, h.decided, h) && Standing(h.pg, h.committed, h) && CallsOk(h, ttl)
  }

  lemma EventKeepsGenuine(h: System, e: Event, ttl: int)
    requires Genuine(h.mem, h, ttl) && Genuine(h.pg, h, ttl) && Possible(h, e)
    ensures Genuine(Apply(h, e, ttl).mem, Apply(h, e, ttl), ttl) && Genuine(Apply(h, e, ttl).pg, Apply(h, e, ttl), ttl)
  {
  }

  // What does not change as time goes on.
  lemma EventGrows(h: System, e: Event, ttl: int)
    requires Possible(h, e)
    ensures var h' := Apply(h, e, ttl);
      && h.clock <= h'.clock && h'.steps == h.steps + 1
      && (forall id :: id in h.made ==> id in h'.made && h'.made[id] == h.made[id])
      && (forall id :: id in h'.made && id !in h.made ==> e.Create? && e.id == id && h'.made[id] == e.at + ttl && h'.clock == e.at)
  {
  }

  // For one approval that is not yet overdue after the event.
  lemma EventKeepsMem(h: System, e: Event, ttl: int, id: ApprovalId)
    requires Genuine(h.mem, h, ttl) && Timely(h, ttl) && Standing(h.mem, h.decided, h) && Possible(h, e)
    requires id in h.made && Apply(h, e, ttl).clock <= h.made[id]
    ensures Open(Apply(h, e, ttl).mem, Apply(h, e, ttl).decided, id)
  {
    assert Open(h.mem, h.decided, id) && GenuineEntry(h, ttl, id, h.mem[id]);
    assert h.made[id] - ttl <= h.clock;
  }

  lemma EventKeepsPg(h: System, e: Event, ttl: int, id: ApprovalId)
    requires Genuine(h.pg, h, ttl) && Timely(h, ttl) && Standing(h.pg, h.committed, h) && CallsOk(h, ttl) && Possible(h, e)
    requires id in h.made && Apply(h, e, ttl).clock <= h.made[id]
    ensures Open(Apply(h, e, ttl).pg, Apply(h, e, ttl).committed, id)
  {
    assert Open(h.pg, h.committed, id) && GenuineEntry(h, ttl, id, h.pg[id]);
    assert h.made[id] - ttl <= h.clock;
    assert e.GetMark? ==> CallOk(h, ttl, h.calls[e.call]);
  }

  // A call that the event leaves alone.
  lemma OldCallOk(h: System, e: Event, ttl: int, c: Call)
    requires Possible(h, e) && CallOk(h, ttl, c) && (e.Create? ==> c.id != e.id)
    ensures CallOk(Apply(h, e, ttl), ttl, c)
  {
    EventGrows(h, e, ttl);
    hide Apply;
  }

  lemma NewCallOk(h: System, e: Event, ttl: int, k: nat)
    requires Genuine(h.pg, h, ttl) && Standing(h.pg, h.committed, h) && CallsOk(h, ttl) && Possible(h, e)
    requires var h' := Apply(h, e, ttl); k in h'.calls && (k in h.calls ==> h'.calls[k] != h.calls[k])
    ensures CallOk(Apply(h, e, ttl), ttl, Apply(h, e, ttl).calls[k])
  {
    match e
    case Select(_, id, _, _) =>
      if id in h.made && h.clock <= h.made[id] {
        assert Open(h.pg, h.committed, id);
      }
    case Check(_, _) => assert CallOk(h, ttl, h.calls[k]);
    case GetSelect(_, id) =>
    case GetCheck(_, _) => assert CallOk(h, ttl, h.calls[k]);
    case _ =>
  }

  lemma EventKeepsCalls(h: System, e: Event, ttl: int)
    requires Inv(h, ttl) && Possible(h, e)
    ensures CallsOk(Apply(h, e, ttl), ttl)
  {
    var h' := Apply(h, e, ttl);
    forall k | k in h'.calls ensures CallOk(h', ttl, h'.calls[k]) {
      if k in h.calls && h'.calls[k] == h.calls[k] {
        assert CallOk(h, ttl, h.calls[k]);
        OldCallOk(h, e, ttl, h.calls[k]);
      } else {
        NewCallOk(h, e, ttl, k);
      }
    }
  }

  lemma EventKeepsStanding(h: System, e: Event, ttl: int)
    requires Inv(h, ttl) && Possible(h, e)
    ensures var h' := Apply(h, e, ttl);
      Timely(h', ttl) && Standing(h'.mem, h'.decided, h') && Standing(h'.pg, h'.committed, h')
  {
    var h' := Apply(h, e, ttl);
    EventGrows(h, e, ttl);
    forall id | id in h'.made && h'.clock <= h'.made[id]
      ensures Open(h'.mem, h'.decided, id) && Open(h'.pg, h'.committed, id)
    {
      if id in h.made {
        EventKeepsMem(h, e, ttl, id);
        EventKeepsPg(h, e, ttl, id);
      }
    }
  }

  lemma EventKeepsInv(h: System, e: Event, ttl: int)
    requires Inv(h, ttl) && Possible(h, e)
    ensures Inv(Apply(h, e, ttl), ttl)
  {
    EventKeepsGenuine(h, e, ttl);
    EventKeepsStanding(h, e, ttl);
    EventKeepsCalls(h, e, ttl);
    EventKeepsMade(h, e, ttl);
    hide Apply;
  }

  lemma EventKeepsMade(h: System, e: Event, ttl: int)
    requires Inv(h, ttl) && Possible(h, e)
    ensures var h' := Apply(h, e, ttl); h'.decided <= h'.made.Keys && h'.committed <= h'.made.Keys
  {
    assert e.Commit? ==> CallOk(h, ttl, h.calls[e.call]);
  }

  lemma StepOf(states: seq<System>, events: seq<Event>, ttl: int, i: nat)
    requires IsRun(states, events, ttl) && i < |events|
    ensures Possible(states[i], events[i]) && states[i + 1] == Apply(states[i], events[i], ttl)
  {
    assert StepTaken(states[i], events[i], ttl, states[i + 1]);
  }

  lemma {:induction false} RunKeepsInv(states: seq<System>, events: seq<Event>, ttl: int, i: nat)
    requires IsRun(states, events, ttl) && i < |states|
    ensures Inv(states[i], ttl) && states[i].steps == i
  {
    if i > 0 {
      RunKeepsInv(states, events, ttl, i - 1);
      StepOf(states, events, ttl, i - 1);
      EventKeepsInv(states[i - 1], events[i - 1], ttl);
      EventGrows(states[i - 1], events[i - 1], ttl);
    }
  }

  // ---------- Which decisions are accepted ----------

  /** In memory a decision is accepted exactly when the approval exists, has not been decided
      before, and has not run out by the call's own clock reading. */
  lemma MemAcceptsExactly(states: seq<System>, events: seq<Event>, ttl: int, i: nat)
    requires IsRun(states, events, ttl) && i < |events| && events[i].Check? && Possible(states[i], events[i])
    ensures var id := states[i].calls[events[i].call].id;
      MemOutcome(states[i], events[i]) == Accepted <==>
        id in states[i].made && id !in states[i].decided && events[i].at <= states[i].made[id]
  {
    RunKeepsInv(states, events, ttl, i);
    var h, id := states[i], states[i].calls[events[i].call].id;
    if id in h.made && h.clock <= h.made[id] {
      assert Open(h.mem, h.decided, id);
    }
    assert id in h.mem ==> GenuineEntry(h, ttl, id, h.mem[id]);
  }

  /** In the database, exactly when no decision had been committed by the time its row was read. */
  lemma PgAcceptsExactly(states: seq<System>, events: seq<Event>, ttl: int, i: nat)
    requires IsRun(states, events, ttl) && i < |events| && events[i].Check? && Possible(states[i], events[i])
    ensures var c := states[i].calls[events[i].call];
      PgOutcome(states[i], events[i]) == Accepted <==> c.first && c.id in states[i].made && events[i].at <= states[i].made[c.id]
  {
    RunKeepsInv(states, events, ttl, i);
    assert CallOk(states[i], ttl, states[i].calls[events[i].call]);
  }

  // The step commits a decision on this id.
  ghost predicate CommitsOn(h: System, e: Event, id: ApprovalId) {
    e.Commit? && e.call in h.calls && h.calls[e.call].id == id
  }

  lemma DoneStep(h: System, e: Event, ttl: int, id: ApprovalId)
    requires Possible(h, e)
    ensures id in Apply(h, e, ttl).committed <==> id in h.committed || CommitsOn(h, e, id)
    ensures id in h.decided ==> id in Apply(h, e, ttl).decided
  {
  }

  lemma {:induction false} CommittedExactly(states: seq<System>, events: seq<Event>, ttl: int, i: nat, id: ApprovalId)
    requires IsRun(states, events, ttl) && i < |states|
    ensures id in states[i].committed <==> exists p :: 0 <= p < i && CommitsOn(states[p], events[p], id)
  {
    if i > 0 {
      CommittedExactly(states, events, ttl, i - 1, id);
      StepOf(states, events, ttl, i - 1);
      DoneStep(states[i - 1], events[i - 1], ttl, id);
      hide Apply;
      hide CommitsOn;
    }
  }

  // Which step read the row of this call, and what its history fields mean.
  ghost predicate ReadBy(states: seq<System>, events: seq<Event>, i: nat, k: nat, c: Call)
    requires i < |states| && |events| + 1 == |states|
  {
    && c.Reading? && c.readAt < i && events[c.readAt] == Select(k, c.id, c.who, c.approve)
    && c.row == Row(states[c.readAt].pg, c.id)
    && c.first == (c.id in states[c.readAt].made && c.id !in states[c.readAt].committed)
  }

  lemma ReadStep(h: System, e: Event, ttl: int, k: nat)
    requires Possible(h, e)
    requires var h' := Apply(h, e, ttl); k in h'.calls && h'.calls[k].Reading?
    ensures var c := Apply(h, e, ttl).calls[k];
      || (k in h.calls && h.calls[k] == c)
      || (e == Select(k, c.id, c.who, c.approve) && c.readAt == h.steps && c.row == Row(h.pg, c.id)
          && c.first == (c.id in h.made && c.id !in h.committed))
  {
  }

  lemma {:induction false} ReadFacts(states: seq<System>, events: seq<Event>, ttl: int, i: nat, k: nat)
    requires IsRun(states, events, ttl) && i < |states| && k in states[i].calls && states[i].calls[k].Reading?
    ensures ReadBy(states, events, i, k, states[i].calls[k])
  {
    hide Apply;
    hide Possible;
    hide Inv;
    assert |states| == |events| + 1;
    if i > 0 {
      StepOf(states, events, ttl, i - 1);
      var h, e := states[i - 1], events[i - 1];
      ReadStep(h, e, ttl, k);
      if k in h.calls && h.calls[k] == states[i].calls[k] {
        ReadFacts(states, events, ttl, i - 1, k);
      } else {
        RunKeepsInv(states, events, ttl, i - 1);
      }
    }
  }

  /** In every run, with any number of overlapping calls: the repository accepts a decision exactly
      when the approval existed when its row was read, no decision on it had been committed before
      that read, and the call's clock reading is not after the expiry. */
  lemma AcceptedExactly(states: seq<System>, events: seq<Event>, ttl: int, i: nat)
    requires IsRun(states, events, ttl) && i < |events| && events[i].Check? && Possible(states[i], events[i])
    ensures var c := states[i].calls[events[i].call];
      && c.readAt < i && events[c.readAt] == Select(events[i].call, c.id, c.who, c.approve)
      && (PgOutcome(states[i], events[i]) == Accepted <==>
            && c.id in states[c.readAt].made && c.id in states[i].made && events[i].at <= states[i].made[c.id]
            && forall p :: 0 <= p < c.readAt ==> !CommitsOn(states[p], events[p], c.id))
  {
    var c := states[i].calls[events[i].call];
    ReadFacts(states, events, ttl, i, events[i].call);
    PgAcceptsExactly(states, events, ttl, i);
    CommittedExactly(states, events, ttl, c.readAt, c.id);
  }

  // A call on an approval that exists has read it: nobody names an id before it has been made.
  lemma {:induction false} ReadMade(states: seq<System>, events: seq<Event>, ttl: int, i: nat, k: nat)
    requires IsRun(states, events, ttl) && i < |states| && k in states[i].calls && states[i].calls[k].Reading?
    requires states[i].calls[k].id in states[i].made
    ensures ReadBy(states, events, i, k, states[i].calls[k])
    ensures states[i].calls[k].id in states[states[i].calls[k].readAt].made
  {
    hide Apply;
    hide Possible;
    hide Inv;
    ReadFacts(states, events, ttl, i, k);
    if i > 0 {
      StepOf(states, events, ttl, i - 1);
      RunKeepsInv(states, events, ttl, i - 1);
      ReadMadeStep(states[i - 1], events[i - 1], ttl, k);
      var h := states[i - 1];
      if k in h.calls && h.calls[k] == states[i].calls[k] {
        ReadMade(states, events, ttl, i - 1, k);
      }
    }
  }

  lemma ReadMadeStep(h: System, e: Event, ttl: int, k: nat)
    requires Possible(h, e)
    requires var h' := Apply(h, e, ttl); k in h'.calls && h'.calls[k].Reading? && h'.calls[k].id in h'.made
    ensures var h' := Apply(h, e, ttl);
      h'.calls[k].id in h.made && ((k in h.calls && h.calls[k] == h'.calls[k]) || h'.calls[k].readAt == h.steps)
  {
  }

  /** After one accepted decision a second one that is in time is accepted exactly when its row was
      read before any decision was committed: the overlap is all it takes, and nothing else does it. */
  lemma SecondDecisionExactly(states: seq<System>, events: seq<Event>, ttl: int, i: nat, j: nat)
    requires IsRun(states, events, ttl) && i < j < |events| && events[i].Check? && events[j].Check?
    requires Possible(states[i], events[i]) && Possible(states[j], events[j])
    requires states[i].calls[events[i].call].id == states[j].calls[events[j].call].id
    requires PgOutcome(states[i], events[i]) == Accepted
    requires var id := states[j].calls[events[j].call].id; id in states[j].made && events[j].at <= states[j].made[id]
    ensures var c := states[j].calls[events[j].call];
      c.readAt < j && (PgOutcome(states[j], events[j]) == Accepted <==>
        forall p :: 0 <= p < c.readAt ==> !CommitsOn(states[p], events[p], c.id))
  {
    ReadMade(states, events, ttl, j, events[j].call);
    AcceptedExactly(states, events, ttl, j);
  }

  // The approval exists and the call's clock reading is not after its expiry.
  ghost predicate InTime(h: System, id: ApprovalId, at: int) {
    id in h.made && at <= h.made[id]
  }

  // Some decision on the id was committed before step r.
  ghost predicate CommittedBefore(states: seq<System>, events: seq<Event>, id: ApprovalId, r: nat)
    requires r <= |events| <= |states|
  {
    exists p :: 0 <= p < r && CommitsOn(states[p], events[p], id)
  }

  /** With any overlap, the two implementations give a call the same verdict on acceptance exactly
      when it is too late or about nothing, or when memory has decided the approval if and only if
      some decision was committed before the call's row was read. */
  lemma SameDecisionsExactly(states: seq<System>, events: seq<Event>, ttl: int, i: nat)
    requires IsRun(states, events, ttl) && i < |events| && events[i].Check? && Possible(states[i], events[i])
    ensures var h, c := states[i], states[i].calls[events[i].call];
      && c.readAt < i
      && ((MemOutcome(h, events[i]) == Accepted <==> PgOutcome(h, events[i]) == Accepted) <==>
            (InTime(h, c.id, events[i].at) ==> (c.id in h.decided <==> CommittedBefore(states, events, c.id, c.readAt))))
  {
    var h, e := states[i], events[i];
    var c := h.calls[e.call];
    MemAcceptsExactly(states, events, ttl, i);
    AcceptedExactly(states, events, ttl, i);
    hide Apply;
    if InTime(h, c.id, e.at) {
      ReadMade(states, events, ttl, i, e.call);
    }
  }

  // ---------- Calls that do not overlap ----------

  predicate ResolveOf(h: System, k: nat, id: ApprovalId) {
    k in h.calls && (h.calls[k].Reading? || h.calls[k].Deciding?) && h.calls[k].id == id
  }

  // At most one resolve of this id is under way at a time.
  ghost predicate OneAtATime(h: System, id: ApprovalId) {
    forall j, k :: ResolveOf(h, j, id) && ResolveOf(h, k, id) ==> j == k
  }

  ghost predicate Serial(states: seq<System>, id: ApprovalId) {
    forall i :: 0 <= i < |states| ==> OneAtATime(states[i], id)
  }

  ghost predicate InHand(h: System, id: ApprovalId) {
    exists k :: k in h.calls && h.calls[k].Deciding? && h.calls[k].id == id
  }

  // Both have decided the same ids, but for a decision on its way to the database.
  ghost predicate InStep(h: System, id: ApprovalId) {
    && (id in h.decided <==> id in h.committed || InHand(h, id))
    && forall k :: k in h.calls && h.calls[k].Reading? && h.calls[k].id == id ==>
         (h.calls[k].first <==> id in h.made && id !in h.committed)
  }

  lemma CheckKeepsInStep(h: System, e: Event, ttl: int, id: ApprovalId)
    requires Inv(h, ttl) && InStep(h, id) && OneAtATime(h, id) && e.Check? && Possible(h, e) && h.calls[e.call].id == id
    ensures MemOutcome(h, e) == Accepted <==> PgOutcome(h, e) == Accepted
    ensures InStep(Apply(h, e, ttl), id)
  {
    var k, c := e.call, h.calls[e.call];
    assert CallOk(h, ttl, c);
    assert !InHand(h, id) by {
      if InHand(h, id) {
        var j :| j in h.calls && h.calls[j].Deciding? && h.calls[j].id == id;
        assert ResolveOf(h, j, id) && ResolveOf(h, k, id);
      }
    }
    if id in h.made && h.clock <= h.made[id] {
      assert Open(h.mem, h.decided, id);
    }
    assert id in h.mem ==> GenuineEntry(h, ttl, id, h.mem[id]);
    var h' := Apply(h, e, ttl);
    if PgOutcome(h, e) == Accepted {
      assert k in h'.calls && h'.calls[k].Deciding? && h'.calls[k].id == id;
    }
  }

  lemma CommitKeepsInStep(h: System, e: Event, ttl: int, id: ApprovalId)
    requires InStep(h, id) && OneAtATime(h, id) && e.Commit? && Possible(h, e) && h.calls[e.call].id == id
    ensures InStep(Apply(h, e, ttl), id)
  {
    assert InHand(h, id);
    var h' := Apply(h, e, ttl);
    var k := e.call;
    assert ResolveOf(h, k, id);
    forall j | j in h'.calls ensures !ResolveOf(h', j, id) {
      assert j != k && h.calls[j] == h'.calls[j];
      assert ResolveOf(h', j, id) ==> ResolveOf(h, j, id);
    }
  }

  // Everything that is neither the check nor the commit of a resolve of this id.
  lemma OthersKeepInStep(h: System, e: Event, ttl: int, id: ApprovalId)
    requires Inv(h, ttl) && InStep(h, id) && Possible(h, e)
    requires (e.Check? || e.Commit?) ==> h.calls[e.call].id != id
    ensures InStep(Apply(h, e, ttl), id)
  {
    var h' := Apply(h, e, ttl);
    assert id in h'.decided <==> id in h.decided;
    assert id in h'.committed <==> id in h.committed;
    assert InHand(h', id) <==> InHand(h, id) by {
      if InHand(h, id) {
        var k :| k in h.calls && h.calls[k].Deciding? && h.calls[k].id == id;
        assert k in h'.calls && h'.calls[k] == h.calls[k];
      }
    }
    forall k | k in h'.calls && h'.calls[k].Reading? && h'.calls[k].id == id
      ensures h'.calls[k].first <==> id in h'.made && id !in h'.committed
    {
      if k in h.calls && h.calls[k] == h'.calls[k] {
        assert h.calls[k].id == id;
      }
    }
  }

  lemma {:induction false} SerialRunInStep(states: seq<System>, events: seq<Event>, ttl: int, i: nat, id: ApprovalId)
    requires IsRun(states, events, ttl) && Serial(states, id) && i < |states|
    ensures InStep(states[i], id)
  {
    if i > 0 {
      SerialRunInStep(states, events, ttl, i - 1, id);
      RunKeepsInv(states, events, ttl, i - 1);
      StepOf(states, events, ttl, i - 1);
      var h, e := states[i - 1], events[i - 1];
      assert OneAtATime(h, id);
      hide InStep;
      if e.Check? && h.calls[e.call].id == id {
        CheckKeepsInStep(h, e, ttl, id);
      } else if e.Commit? && h.calls[e.call].id == id {
        CommitKeepsInStep(h, e, ttl, id);
      } else {
        OthersKeepInStep(h, e, ttl, id);
      }
    }
  }

  /** If the resolves of an id do not overlap, both implementations accept exactly the same
      decisions on it, and only at or before its expiry, whatever happens to other ids, whenever
      each side cleans up, and with gets that overlap anything. */
  lemma SameDecisions(states: seq<System>, events: seq<Event>, ttl: int, i: nat)
    requires IsRun(states, events, ttl) && i < |events| && events[i].Check? && Possible(states[i], events[i])
    requires Serial(states, states[i].calls[events[i].call].id)
    ensures MemOutcome(states[i], events[i]) == Accepted <==> PgOutcome(states[i], events[i]) == Accepted
    ensures var id := states[i].calls[events[i].call].id;
      PgOutcome(states[i], events[i]) == Accepted ==> id in states[i].made && events[i].at <= states[i].made[id]
  {
    var id := states[i].calls[events[i].call].id;
    SerialRunInStep(states, events, ttl, i, id);
    RunKeepsInv(states, events, ttl, i);
    assert OneAtATime(states[i], id);
    CheckKeepsInStep(states[i], events[i], ttl, id);
    PgAcceptsExactly(states, events, ttl, i);
  }

  lemma {:induction false} DecidedForever(states: seq<System>, events: seq<Event>, ttl: int, i: nat, j: nat, id: ApprovalId)
    requires IsRun(states, events, ttl) && i <= j < |states| && id in states[i].decided
    ensures id in states[j].decided
    decreases j
  {
    if i < j {
      DecidedForever(states, events, ttl, i, j - 1, id);
      StepOf(states, events, ttl, j - 1);
      DoneStep(states[j - 1], events[j - 1], ttl, id);
      hide Apply;
    }
  }

  // In memory at most one decision on an approval is ever accepted.
  lemma MemAcceptsOnce(states: seq<System>, events: seq<Event>, ttl: int, i: nat, j: nat)
    requires IsRun(states, events, ttl) && i < j < |events| && events[i].Check? && events[j].Check?
    requires Possible(states[i], events[i]) && Possible(states[j], events[j])
    requires states[i].calls[events[i].call].id == states[j].calls[events[j].call].id
    requires MemOutcome(states[i], events[i]) == Accepted
    ensures MemOutcome(states[j], events[j]) != Accepted
  {
    StepOf(states, events, ttl, i);
    DecidedForever(states, events, ttl, i + 1, j, states[i].calls[events[i].call].id);
    MemAcceptsExactly(states, events, ttl, j);
  }

  // And in the database, if the resolves of the id do not overlap.
  lemma AtMostOneDecision(states: seq<System>, events: seq<Event>, ttl: int, i: nat, j: nat)
    requires IsRun(states, events, ttl) && i < j < |events| && events[i].Check? && events[j].Check?
    requires Possible(states[i], events[i]) && Possible(states[j], events[j])
    requires states[i].calls[events[i].call].id == states[j].calls[events[j].call].id
    requires Serial(states, states[i].calls[events[i].call].id)
    requires PgOutcome(states[i], events[i]) == Accepted
    ensures PgOutcome(states[j], events[j]) != Accepted
  {
    SameDecisions(states, events, ttl, i);
    MemAcceptsOnce(states, events, ttl, i, j);
    SameDecisions(states, events, ttl, j);
  }

  // ---------- Calls that overlap ----------

  // One approval, made at time 0 and good until 10.
  function OneMade(calls: map<nat, Call>, steps: nat): System {
    var e := Entry(Pending, "", 0, 10);
    System(map["a" := e], map["a" := e], calls, map["a" := 10], {}, {}, 0, steps)
  }

  const Untouched: Types.Option<Entry> := Types.Some(Entry(Pending, "", 0, 10))

  lemma MakeOne()
    ensures StepTaken(Empty, Create("a", 0), 10, OneMade(map[], 1))
  {
  }

  lemma SelectOne(calls: map<nat, Call>, steps: nat, k: nat, who: string, approve: bool)
    requires k !in calls
    ensures StepTaken(OneMade(calls, steps), Select(k, "a", who, approve), 10,
                      OneMade(calls[k := Reading("a", who, approve, Untouched, true, steps)], steps + 1))
  {
  }

  // A check in time of a call that read the row untouched.
  lemma CheckOne(h: System, k: nat, at: int) returns (h': System)
    requires k in h.calls && h.calls[k].Reading? && h.calls[k].row == Untouched && h.clock <= at <= 10
    ensures StepTaken(h, Check(k, at), 10, h') && PgOutcome(h, Check(k, at)) == Accepted
    ensures h'.calls == h.calls[k := Deciding(h.calls[k].id, h.calls[k].who, h.calls[k].approve)] && h'.pg == h.pg && h'.clock == at
    ensures h'.mem == MemResolve(h.mem, h.calls[k].id, h.calls[k].who, Decision(h.calls[k].approve), at).0
  {
    h' := Apply(h, Check(k, at), 10);
  }

  lemma CommitOne(h: System, k: nat) returns (h': System)
    requires k in h.calls && h.calls[k].Deciding?
    ensures StepTaken(h, Commit(k), 10, h') && h'.calls == h.calls - {k} && h'.clock == h.clock
    ensures h'.pg == Decide(h.pg, h.calls[k].id, h.calls[k].who, Decision(h.calls[k].approve)) && h'.mem == h.mem
  {
    h' := Apply(h, Commit(k), 10);
  }

  /** Two resolves that both read the row before either commits: both are accepted, the row goes
      from denied to approved, and the manager refuses the second. */
  lemma OverlappingDecisions() returns (states: seq<System>, events: seq<Event>)
    ensures IsRun(states, events, 10) && |events| == 7
    ensures events[3] == Check(1, 5) && Possible(states[3], events[3]) && PgOutcome(states[3], events[3]) == Accepted
    ensures events[4] == Check(2, 5) && Possible(states[4], events[4]) && PgOutcome(states[4], events[4]) == Accepted
    ensures MemOutcome(states[4], events[4]) == AlreadyResolved
    ensures Row(states[6].pg, "a") == Types.Some(Entry(Denied, "x", 0, 10))
    ensures Row(states[7].pg, "a") == Types.Some(Entry(Approved, "y", 0, 10))
  {
    hide Apply;
    events := [Create("a", 0), Select(1, "a", "x", false), Select(2, "a", "y", true), Check(1, 5), Check(2, 5), Commit(1), Commit(2)];
    MakeOne();
    SelectOne(map[], 1, 1, "x", false);
    var h2 := OneMade(map[1 := Reading("a", "x", false, Untouched, true, 1)], 2);
    SelectOne(h2.calls, 2, 2, "y", true);
    var h3 := OneMade(h2.calls[2 := Reading("a", "y", true, Untouched, true, 2)], 3);
    var h4 := CheckOne(h3, 1, 5);
    var h5 := CheckOne(h4, 2, 5);
    var h6 := CommitOne(h5, 1);
    var h7 := CommitOne(h6, 2);
    states := [Empty, OneMade(map[], 1), h2, h3, h4, h5, h6, h7];
  }

  /** A get that read the row before a decision and marks it after: the decision is erased. */
  lemma GetErasesDecision() returns (states: seq<System>, events: seq<Event>)
    ensures IsRun(states, events, 10) && |events| == 7
    ensures Row(states[5].pg, "a") == Types.Some(Entry(Approved, "x", 0, 10))
    ensures Row(states[7].pg, "a") == Types.Some(Entry(Expired, "x", 0, 10))
  {
    hide Apply;
    events := [Create("a", 0), GetSelect(2, "a"), Select(1, "a", "x", true), Check(1, 10), Commit(1), GetCheck(2, 11), GetMark(2)];
    var h2 := OneMade(map[2 := Getting("a", Untouched)], 2);
    MakeOne();
    GetOne(2);
    SelectOne(h2.calls, 2, 1, "x", true);
    var h3 := OneMade(h2.calls[1 := Reading("a", "x", true, Untouched, true, 2)], 3);
    var h4 := CheckOne(h3, 1, 10);
    var h5 := CommitOne(h4, 1);
    var h6, h7 := LateGet(h5, 2);
    states := [Empty, OneMade(map[], 1), h2, h3, h4, h5, h6, h7];
  }

  lemma GetOne(k: nat)
    ensures StepTaken(OneMade(map[], 1), GetSelect(k, "a"), 10, OneMade(map[k := Getting("a", Untouched)], 2))
  {
  }

  lemma LateGet(h: System, k: nat) returns (h1: System, h2: System)
    requires k in h.calls && h.calls[k] == Getting("a", Untouched) && h.clock == 10
    ensures StepTaken(h, GetCheck(k, 11), 10, h1) && StepTaken(h1, GetMark(k), 10, h2) && h2.pg == Mark(h.pg, "a")
  {
    h1 := Apply(h, GetCheck(k, 11), 10);
    h2 := Apply(h1, GetMark(k), 10);
  }

  // ---------- What becomes of a decision ----------

  // Writing this decision would change the entry.
  predicate Differs(e: Entry, who: string, approve: bool) {
    e.status != Decision(approve) || e.resolver != who
  }

  /** A call under way that can still change this entry: a resolve that is about to commit another
      decision, or that read the row pending and is still in time to; a get that is about to mark,
      or that read the row pending. */
  predicate Threatens(c: Call, id: ApprovalId, e: Entry, now: int) {
    c.id == id &&
    match c
    case Reading(_, who, approve, row, _, _) =>
      row.Some? && row.value.status == Pending && now <= row.value.expires && Differs(e, who, approve)
    case Deciding(_, who, approve) => Differs(e, who, approve)
    case Getting(_, row) => row.Some? && row.value.status == Pending && e.status != Expired
    case Marking(_) => e.status != Expired
  }

  ghost predicate Unthreatened(h: System, id: ApprovalId, e: Entry) {
    forall k :: k in h.calls ==> !Threatens(h.calls[k], id, e, h.clock)
  }

  // The row is this entry or has been deleted, and nothing under way can change it.
  ghost predicate Settled(h: System, id: ApprovalId, e: Entry) {
    id in h.made && (id in h.pg ==> h.pg[id] == e) && Unthreatened(h, id, e)
  }

  lemma EventKeepsRow(h: System, e: Event, ttl: int, id: ApprovalId, entry: Entry)
    requires Possible(h, e) && Settled(h, id, entry) && entry.status != Pending
    ensures id in Apply(h, e, ttl).pg ==> id in h.pg && Apply(h, e, ttl).pg[id] == entry
  {
    assert (e.Commit? || e.GetMark?) ==> !Threatens(h.calls[e.call], id, entry, h.clock);
  }

  lemma EventKeepsUnthreatened(h: System, e: Event, ttl: int, id: ApprovalId, entry: Entry)
    requires Possible(h, e) && Settled(h, id, entry) && entry.status != Pending
    ensures Unthreatened(Apply(h, e, ttl), id, entry)
  {
    var h' := Apply(h, e, ttl);
    EventGrows(h, e, ttl);
    forall k | k in h'.calls ensures !Threatens(h'.calls[k], id, entry, h'.clock) {
      assert k in h.calls ==> !Threatens(h.calls[k], id, entry, h.clock);
    }
  }

  // ---------- Continuations ----------

  // What can happen from here on.
  ghost predicate Continues(h: System, states: seq<System>, events: seq<Event>, ttl: int) {
    && |states| == |events| + 1 && states[0] == h
    && forall i :: 0 <= i < |events| ==> StepTaken(states[i], events[i], ttl, states[i + 1])
  }

  // Whatever happens, the row stays this entry until it is deleted.
  ghost predicate KeptForever(h: System, ttl: int, id: ApprovalId, e: Entry) {
    forall states: seq<System>, events: seq<Event> :: Continues(h, states, events, ttl) ==>
      id in states[|events|].pg ==> states[|events|].pg[id] == e
  }

  lemma {:induction false} SettledContinues(h: System, states: seq<System>, events: seq<Event>, ttl: int, id: ApprovalId, e: Entry, i: nat)
    requires Continues(h, states, events, ttl) && i <= |events| && Settled(h, id, e) && e.status != Pending
    ensures Settled(states[i], id, e)
  {
    if i > 0 {
      SettledContinues(h, states, events, ttl, id, e, i - 1);
      assert StepTaken(states[i - 1], events[i - 1], ttl, states[i - 1 + 1]);
      hide Unthreatened;
      EventKeepsRow(states[i - 1], events[i - 1], ttl, id, e);
      EventKeepsUnthreatened(states[i - 1], events[i - 1], ttl, id, e);
      EventGrows(states[i - 1], events[i - 1], ttl);
    }
  }

  // A resolve in time that read the row pending checks and commits.
  lemma CarryOut(h: System, ttl: int, k: nat) returns (states: seq<System>, events: seq<Event>)
    requires k in h.calls && h.calls[k].id in h.pg
    requires var c := h.calls[k];
      c.Deciding? || (c.Reading? && c.row.Some? && c.row.value.status == Pending && h.clock <= c.row.value.expires)
    ensures Continues(h, states, events, ttl)
    ensures var c := h.calls[k];
      states[|events|].pg == Decide(h.pg, c.id, c.who, Decision(c.approve))
  {
    if h.calls[k].Deciding? {
      events, states := [Commit(k)], [h, Apply(h, Commit(k), ttl)];
    } else {
      var h1 := Apply(h, Check(k, h.clock), ttl);
      assert h1.calls[k] == Deciding(h.calls[k].id, h.calls[k].who, h.calls[k].approve) && h1.pg == h.pg;
      events, states := [Check(k, h.clock), Commit(k)], [h, h1, Apply(h1, Commit(k), ttl)];
    }
  }

  // A get that read the row pending waits for the expiry and marks.
  lemma CarryOutGet(h: System, ttl: int, k: nat) returns (states: seq<System>, events: seq<Event>)
    requires k in h.calls && h.calls[k].id in h.pg
    requires var c := h.calls[k]; c.Marking? || (c.Getting? && c.row.Some? && c.row.value.status == Pending)
    ensures Continues(h, states, events, ttl) && states[|events|].pg == Mark(h.pg, h.calls[k].id)
  {
    if h.calls[k].Marking? {
      events, states := [GetMark(k)], [h, Apply(h, GetMark(k), ttl)];
    } else {
      var at := Latest(h.clock, h.calls[k].row.value.expires + 1);
      var h1 := Apply(h, GetCheck(k, at), ttl);
      assert h1.calls[k] == Marking(h.calls[k].id) && h1.pg == h.pg;
      events, states := [GetCheck(k, at), GetMark(k)], [h, h1, Apply(h1, GetMark(k), ttl)];
    }
  }

  lemma ThreatIsReal(h: System, ttl: int, id: ApprovalId, k: nat) returns (states: seq<System>, events: seq<Event>)
    requires id in h.pg && k in h.calls && Threatens(h.calls[k], id, h.pg[id], h.clock)
    ensures Continues(h, states, events, ttl)
    ensures id in states[|events|].pg && states[|events|].pg[id] != h.pg[id]
  {
    hide Continues;
    if h.calls[k].Reading? || h.calls[k].Deciding? {
      states, events := CarryOut(h, ttl, k);
    } else {
      states, events := CarryOutGet(h, ttl, k);
    }
  }

  /** A row that is no longer pending stays as it is, until it is deleted, in everything that can
      happen exactly when no call under way threatens it. */
  lemma RowStaysExactly(h: System, ttl: int, id: ApprovalId)
    requires id in h.made && id in h.pg && h.pg[id].status != Pending
    ensures KeptForever(h, ttl, id, h.pg[id]) <==> Unthreatened(h, id, h.pg[id])
  {
    var e := h.pg[id];
    if Unthreatened(h, id, e) {
      forall states: seq<System>, events: seq<Event> | Continues(h, states, events, ttl)
        ensures id in states[|events|].pg ==> states[|events|].pg[id] == e
      {
        SettledContinues(h, states, events, ttl, id, e, |events|);
      }
    } else {
      var k :| k in h.calls && Threatens(h.calls[k], id, e, h.clock);
      var states, events := ThreatIsReal(h, ttl, id, k);
    }
  }

  predicate IsDecided(e: Entry) {
    e.status == Approved || e.status == Denied
  }

  /** The events that change a decided row are exactly these: the commit of another decision, and
      the marking by a get. */
  lemma RowChangesExactly(h: System, e: Event, ttl: int, id: ApprovalId)
    requires Possible(h, e) && id in h.made && id in h.pg && IsDecided(h.pg[id])
    ensures var h' := Apply(h, e, ttl);
      id in h'.pg ==>
        (h'.pg[id] != h.pg[id] <==>
          || (CommitsOn(h, e, id) && !(h.pg[id].status == Decision(h.calls[e.call].approve) && h.pg[id].resolver == h.calls[e.call].who))
          || (e.GetMark? && h.calls[e.call].id == id))
  {
  }

  /** In memory a decided entry loses its status in exactly one case: a resolve after the expiry. */
  lemma DecidedStatus(h: System, e: Event, ttl: int, id: ApprovalId)
    requires Possible(h, e) && id in h.made && id in h.mem && IsDecided(h.mem[id])
    ensures var h' := Apply(h, e, ttl);
      id in h'.mem ==>
        (h'.mem[id].status != h.mem[id].status <==> e.Check? && h.calls[e.call].id == id && Overdue(h.mem[id], e.at))
  {
  }

  // Decided against or run out: whatever the entry turns into, it is not approved.
  ghost predicate Refused(t: Table, h: System, id: ApprovalId) {
    id in h.made && (id in t ==> t[id].status == Denied || t[id].status == Expired)
  }

  lemma EventKeepsRefused(h: System, e: Event, ttl: int, id: ApprovalId)
    requires Possible(h, e) && Refused(h.mem, h, id)
    ensures Refused(Apply(h, e, ttl).mem, Apply(h, e, ttl), id)
  {
  }

  /** In memory, at every later moment, what was denied or has expired is not approved. */
  lemma {:induction false} DeniedNeverApproved(states: seq<System>, events: seq<Event>, ttl: int, id: ApprovalId, i: nat, j: nat)
    requires IsRun(states, events, ttl) && i <= j < |states| && Refused(states[i].mem, states[i], id)
    ensures Refused(states[j].mem, states[j], id)
    decreases j
  {
    if i < j {
      DeniedNeverApproved(states, events, ttl, id, i, j - 1);
      StepOf(states, events, ttl, j - 1);
      EventKeepsRefused(states[j - 1], events[j - 1], ttl, id);
    }
  }

  /** An approved entry that a late denial turns into an expired one, in memory only: the run from
      the creation on. */
  lemma LateCallForgetsApproval() returns (states: seq<System>, events: seq<Event>)
    ensures IsRun(states, events, 10) && |events| == 6
    ensures Row(states[5].mem, "a") == Row(states[5].pg, "a") == Types.Some(Entry(Approved, "x", 0, 10))
    ensures Row(states[6].mem, "a") == Types.Some(Entry(Expired, "x", 0, 10)) && states[6].pg == states[5].pg
  {
    hide Apply;
    events := [Create("a", 0), Select(1, "a", "x", true), Check(1, 5), Commit(1), Select(2, "a", "y", false), Check(2, 11)];
    MakeOne();
    SelectOne(map[], 1, 1, "x", true);
    var h2 := OneMade(map[1 := Reading("a", "x", true, Untouched, true, 1)], 2);
    var h3 := CheckOne(h2, 1, 5);
    var h4 := CommitOne(h3, 1);
    var h5, h6 := LateResolve(h4, 2);
    states := [Empty, OneMade(map[], 1), h2, h3, h4, h5, h6];
  }

  lemma LateResolve(h: System, k: nat) returns (h1: System, h2: System)
    requires k !in h.calls && h.clock <= 11 && Row(h.mem, "a") == Row(h.pg, "a") == Types.Some(Entry(Approved, "x", 0, 10))
    ensures StepTaken(h, Select(k, "a", "y", false), 10, h1) && StepTaken(h1, Check(k, 11), 10, h2)
    ensures h1.mem == h.mem && h1.pg == h2.pg == h.pg && Row(h2.mem, "a") == Types.Some(Entry(Expired, "x", 0, 10))
  {
    h1 := Apply(h, Select(k, "a", "y", false), 10);
    h2 := Apply(h1, Check(k, 11), 10);
  }

  // ---------- Calls that nothing disturbs ----------

  /** The statements of a resolve one right after the other are one step of the table. */
  lemma UndisturbedResolve(h: System, k: nat, id: ApprovalId, who: string, approve: bool, at: int, ttl: int)
    requires k !in h.calls && h.clock <= at
    ensures var h1 := Apply(h, Select(k, id, who, approve), ttl);
      && Possible(h1, Check(k, at))
      && var h2 := Apply(h1, Check(k, at), ttl);
      && PgOutcome(h1, Check(k, at)) == PgResolve(h.pg, id, who, Decision(approve), at).1
      && (PgOutcome(h1, Check(k, at)) == Accepted <==> Possible(h2, Commit(k)))
      && (if PgOutcome(h1, Check(k, at)) == Accepted then Apply(h2, Commit(k), ttl) else h2).pg
           == PgResolve(h.pg, id, who, Decision(approve), at).0
  {
  }

  lemma UndisturbedGet(h: System, k: nat, id: ApprovalId, at: int, ttl: int)
    requires k !in h.calls && h.clock <= at
    ensures var h1 := Apply(h, GetSelect(k, id), ttl);
      && Possible(h1, GetCheck(k, at))
      && var h2 := Apply(h1, GetCheck(k, at), ttl);
      (if Possible(h2, GetMark(k)) then Apply(h2, GetMark(k), ttl) else h2).pg == MarkOnGet(h.pg, id, at)
  {
  }

  // ---------- The code ----------

  class Manager {
    const ttl: int
    var pending: Table

    constructor (ttl: int)
      ensures this.ttl == ttl && pending == map[]
    {
      this.ttl := ttl;
      pending := map[];
    }

    method CreateApproval(id: ApprovalId, now: int)
      modifies this
      ensures pending == old(pending)[id := NewEntry(now, ttl)]
      ensures pending[id] == Entry(Pending, "", now, now + ttl)
    {
      pending := pending[id := Entry(Pending, "", now, now + ttl)];
    }

    method ResolveApproval(id: ApprovalId, who: string, status: Status, now: int) returns (outcome: Outcome)
      modifies this
      ensures (pending, outcome) == MemResolve(old(pending), id, who, status, now)
      ensures outcome == NotFound <==> id !in old(pending)
      ensures outcome == ErrExpired <==> id in old(pending) && now > old(pending)[id].expires
      ensures outcome == Accepted <==> id in old(pending) && now <= old(pending)[id].expires && old(pending)[id].status == Pending
      ensures outcome in {NotFound, AlreadyResolved} ==> pending == old(pending)
      ensures outcome == ErrExpired ==> pending == old(pending)[id := old(pending)[id].(status := Expired)]
      ensures outcome == Accepted ==> pending == old(pending)[id := old(pending)[id].(status := status, resolver := who)]
    {
      if id !in pending {
        return NotFound;
      }
      var pa := pending[id];
      if now > pa.expires {
        pending := pending[id := pa.(status := Expired)];
        return ErrExpired;
      }
      if pa.status != Pending {
        return AlreadyResolved;
      }
      pending := pending[id := pa.(status := status, resolver := who)];
      return Accepted;
    }

    method GetApproval(id: ApprovalId, now: int) returns (found: bool, entry: Entry)
      modifies this
      ensures pending == MarkOnGet(old(pending), id, now) && pending.Keys == old(pending).Keys
      ensures forall x :: x in pending ==> pending[x].(status := old(pending)[x].status) == old(pending)[x]
      ensures forall x :: x in pending ==>
        (pending[x].status != old(pending)[x].status <==> x == id && old(pending)[x].status == Pending && now > old(pending)[x].expires)
      ensures forall x :: x in pending && pending[x].status != old(pending)[x].status ==> pending[x].status == Expired
      ensures found <==> id in pending
      ensures found ==> entry == pending[id] && (entry.status == Pending ==> now <= entry.expires)
    {
      found := id in pending;
      entry := NewEntry(now, ttl);
      if found {
        if pending[id].status == Pending && now > pending[id].expires {
          pending := pending[id := pending[id].(status := Expired)];
        }
        entry := pending[id];
      }
    }

    /** Visits every entry once, in any order; marks and deletes as it goes. */
    method Cleanup(now: int)
      modifies this
      ensures pending == MemCleanup(old(pending), ttl, now)
      ensures forall id :: id in pending ==> id in old(pending) && pending[id].(status := old(pending)[id].status) == old(pending)[id]
      ensures forall id :: id in pending ==>
        (pending[id].status != old(pending)[id].status <==> old(pending)[id].status == Pending && now > old(pending)[id].expires)
      ensures forall id :: id in pending && pending[id].status != old(pending)[id].status ==> pending[id].status == Expired
      ensures forall id :: id in old(pending) ==>
        (id !in pending <==> now > old(pending)[id].expires + ttl && (old(pending)[id].status != Pending || now > old(pending)[id].expires))
    {
      var todo := pending.Keys;
      while todo != {}
        invariant todo <= old(pending).Keys
        invariant forall id :: id in pending <==> id in todo || id in MemCleanup(old(pending), ttl, now)
        invariant forall id :: id in todo ==> id in pending && pending[id] == old(pending)[id]
        invariant forall id :: id in pending && id !in todo ==> pending[id] == MemCleanup(old(pending), ttl, now)[id]
        decreases todo
      {
        var id :| id in todo;
        todo := todo - {id};
        var pa := pending[id];
        if pa.status == Pending && now > pa.expires {
          pa := pa.(status := Expired);
          pending := pending[id := pa];
        }
        if pa.status != Pending && now > pa.expires + ttl {
          pending := map k | k in pending && k != id :: pending[k];
        }
      }
    }
  }

  class ApprovalRepository {
    var rows: Table

    constructor ()
      ensures rows == map[]
    {
      rows := map[];
    }

    /** Reads, checks, and updates by id. `meanwhile` is what other calls have made of the table
        between the two statements; nothing is checked again. An error rolls back the marking. */
    method ResolveApproval(id: ApprovalId, who: string, status: Status, now: int, meanwhile: Table) returns (outcome: Outcome)
      modifies this
      ensures outcome == Verdict(Row(old(rows), id), now)
      ensures rows == if outcome == Accepted then Decide(meanwhile, id, who, status) else meanwhile
      ensures meanwhile == old(rows) ==> (rows, outcome) == PgResolve(old(rows), id, who, status, now)
      ensures outcome == NotFound <==> id !in old(rows)
      ensures outcome == AlreadyResolved <==> id in old(rows) && old(rows)[id].status != Pending
      ensures outcome == Accepted <==> id in old(rows) && old(rows)[id].status == Pending && now <= old(rows)[id].expires
      ensures rows == if outcome == Accepted && id in meanwhile then meanwhile[id := meanwhile[id].(status := status, resolver := who)] else meanwhile
    {
      var found := id in rows;
      var model := if found then rows[id] else Entry(Pending, "", 0, 0);
      rows := meanwhile;
      if !found {
        return NotFound;
      }
      if now > model.expires && model.status == Pending {
        var begun := rows;
        if id in rows {
          rows := rows[id := rows[id].(status := Expired)];
        }
        rows := begun;
        return ErrExpired;
      }
      if model.status != Pending {
        return AlreadyResolved;
      }
      if id in rows {
        rows := rows[id := rows[id].(status := status, resolver := who)];
      }
      return Accepted;
    }

    /** Outside any transaction. */
    method GetApproval(id: ApprovalId, now: int, meanwhile: Table) returns (found: bool)
      modifies this
      ensures found <==> id in old(rows)
      ensures rows == if found && old(rows)[id].status == Pending && Overdue(old(rows)[id], now) then Mark(meanwhile, id) else meanwhile
      ensures meanwhile == old(rows) ==> rows == MarkOnGet(old(rows), id, now)
      ensures rows == if found && old(rows)[id].status == Pending && now > old(rows)[id].expires && id in meanwhile
        then meanwhile[id := meanwhile[id].(status := Expired)] else meanwhile
    {
      found := id in rows;
      var model := if found then rows[id] else Entry(Pending, "", 0, 0);
      rows := meanwhile;
      if found && model.status == Pending && now > model.expires {
        if id in rows {
          rows := rows[id := rows[id].(status := Expired)];
        }
      }
    }

    method ExpireOld(now: int)
      modifies this
      ensures rows == PgExpireOld(old(rows), now) && rows.Keys == old(rows).Keys
      ensures forall id :: id in rows ==> rows[id].(status := old(rows)[id].status) == old(rows)[id]
      ensures forall id :: id in rows ==>
        (rows[id].status != old(rows)[id].status <==> old(rows)[id].status == Pending && now > old(rows)[id].expires)
      ensures forall id :: id in rows && rows[id].status != old(rows)[id].status ==> rows[id].status == Expired
    {
      rows := map id | id in rows ::
        if rows[id].status == Pending && rows[id].expires < now then rows[id].(status := Expired) else rows[id];
    }

    method DeleteResolved(olderThan: int, now: int)
      modifies this
      ensures rows == PgDeleteResolved(old(rows), olderThan, now)
      ensures forall id :: id in rows <==> id in old(rows) && (old(rows)[id].status == Pending || old(rows)[id].created + olderThan >= now)
      ensures forall id :: id in rows ==> rows[id] == old(rows)[id]
    {
      var cutoff := now - olderThan;
      rows := map id | id in rows && (rows[id].status == Pending || rows[id].created >= cutoff) :: rows[id];
    }
  }
}
