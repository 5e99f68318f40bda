/** Concurrent evolutions of the soul: a call reads the latest version, appends to the store, and
    applies its event to the cache, and only the last of these is under the manager's lock. */
module SoulRuns {
  import opened SoulLog

  // A call that knows its version, or whose event is in the log and not yet in the cache.
  datatype Call = Versioned(version: int) | Stored(event: SoulEvent)

  /** `applied` is history: the log at the time of loading and then the events in the order in which
      they were applied to the cache. */
  datatype World = World(log: seq<SoulEvent>, soul: Soul, calls: map<nat, Call>, applied: seq<SoulEvent>)

  datatype Event =
    | ReadVersion(call: nat)
    | Append(call: nat, event: SoulEvent)
    | Refuse(call: nat)
    | ApplyTo(call: nat)

  function Highest(log: seq<SoulEvent>): int
    decreases |log|
  {
    if log == [] then 0
    else
      var rest, v := Highest(log[..|log| - 1]), log[|log| - 1].version;
      if v > rest then v else rest
  }

  // An event gets the version after the one read, and an id of its own. The store refuses a version
  // that it already holds.
  ghost predicate Possible(w: World, e: Event) {
    match e
    case ReadVersion(k) => k !in w.calls
    case Append(k, event) =>
      && k in w.calls && w.calls[k].Versioned? && event.version == w.calls[k].version + 1
      && !Holds(w.log, event.version) && forall i :: 0 <= i < |w.log| ==> w.log[i].id != event.id
    case Refuse(k) => k in w.calls && w.calls[k].Versioned?
    case ApplyTo(k) => k in w.calls && w.calls[k].Stored?
  }

  ghost function Apply(w: World, e: Event): World
    requires Possible(w, e)
  {
    match e
    case ReadVersion(k) => w.(calls := w.calls[k := Versioned(Highest(w.log))])
    case Append(k, event) => w.(log := w.log + [event], calls := w.calls[k := Stored(event)])
    case Refuse(k) => w.(calls := w.calls - {k})
    case ApplyTo(k) =>
      var event := w.calls[k].event;
      w.(soul := ApplyEvent(w.soul, event), calls := w.calls - {k}, applied := w.applied + [event])
  }

  ghost predicate DistinctIds(log: seq<SoulEvent>) {
    forall i, j :: 0 <= i < j < |log| ==> log[i].id != log[j].id
  }

  // What a successful load leaves.
  ghost predicate Loaded(w: World) {
    Numbered(w.log) && DistinctIds(w.log) && w.soul == View(w.log) && w.applied == w.log && w.calls == map[]
  }

  ghost predicate StepTaken(w: World, e: Event, w': World) {
    Possible(w, e) && w' == Apply(w, e)
  }

  ghost predicate IsRun(worlds: seq<World>, events: seq<Event>) {
    && |worlds| == |events| + 1 && Loaded(worlds[0])
    && forall i :: 0 <= i < |events| ==> StepTaken(worlds[i], events[i], worlds[i + 1])
  }

  // The calls between their append and their application.
  function Waiting(w: World): set<nat> {
    set k | k in w.calls && w.calls[k].Stored?
  }

  // The log's versions count its events, and no call under way knows a later one.
  ghost predicate LogOk(w: World) {
    && Numbered(w.log) && DistinctIds(w.log)
    && forall k :: k in w.calls && w.calls[k].Versioned? ==> 0 <= w.calls[k].version <= |w.log|
  }

  // The cache is the view of what was applied; the rest of the log is with the calls that wait.
  ghost predicate CacheOk(w: World) {
    && w.soul == View(w.applied) && |w.log| == |w.applied| + |Waiting(w)|
    && (forall e :: e in w.applied ==> e in w.log)
    && (forall k :: k in w.calls && w.calls[k].Stored? ==> w.calls[k].event in w.log)
  }

  ghost predicate Inv(w: World) {
    LogOk(w) && CacheOk(w)
  }

  lemma {:induction false} HighestIsLength(log: seq<SoulEvent>)
    requires Numbered(log)
    ensures Highest(log) == |log|
    decreases |log|
  {
    if log != [] {
      HighestIsLength(log[..|log| - 1]);
    }
  }

  ghost predicate Holds(log: seq<SoulEvent>, version: int) {
    exists i :: 0 <= i < |log| && log[i].version == version
  }

  // So a version that is new to the log can only be the next one.
  lemma VersionsHeld(log: seq<SoulEvent>, version: int)
    requires Numbered(log)
    ensures Holds(log, version) <==> 1 <= version <= |log|
  {
    if 1 <= version <= |log| {
      assert log[version - 1].version == version;
    }
  }

  lemma WaitingAfter(w: World, e: Event)
    requires Possible(w, e)
    ensures Waiting(Apply(w, e)) ==
      if e.Append? then Waiting(w) + {e.call} else if e.ApplyTo? then Waiting(w) - {e.call} else Waiting(w)
  {
  }

  lemma EventKeepsLog(w: World, e: Event)
    requires LogOk(w) && Possible(w, e)
    ensures LogOk(Apply(w, e))
  {
    hide View;
    hide ApplyEvent;
    HighestIsLength(w.log);
    hide Highest;
    if e.Append? {
      VersionsHeld(w.log, e.event.version);
    }
  }

  lemma EventKeepsCache(w: World, e: Event)
    requires CacheOk(w) && Possible(w, e)
    ensures CacheOk(Apply(w, e))
  {
    hide View;
    hide ApplyEvent;
    hide Highest;
    hide Waiting;
    WaitingAfter(w, e);
    if e.Append? {
      OnlyStoredWait(w, e.call);
    } else if e.ApplyTo? {
      OnlyStoredWait(w, e.call);
      ViewStep(w.applied, w.calls[e.call].event);
    }
  }

  lemma OnlyStoredWait(w: World, k: nat)
    ensures k in Waiting(w) <==> k in w.calls && w.calls[k].Stored?
  {
  }

  lemma EventKeepsInv(w: World, e: Event)
    requires Inv(w) && Possible(w, e)
    ensures Inv(Apply(w, e))
  {
    hide LogOk;
    hide CacheOk;
    EventKeepsLog(w, e);
    EventKeepsCache(w, e);
  }

  lemma {:induction false} RunKeepsInv(worlds: seq<World>, events: seq<Event>, i: nat)
    requires IsRun(worlds, events) && i < |worlds|
    ensures Inv(worlds[i])
  {
    if i == 0 {
      assert Waiting(worlds[0]) == {};
    } else {
      RunKeepsInv(worlds, events, i - 1);
      assert StepTaken(worlds[i - 1], events[i - 1], worlds[i - 1 + 1]);
      EventKeepsInv(worlds[i - 1], events[i - 1]);
    }
  }

  // ---------- When two logs show the same soul ----------

  // The events of one category, in their order.
  function Of(log: seq<SoulEvent>, category: string): seq<SoulEvent>
    decreases |log|
  {
    if log == [] then []
    else
      var last := log[|log| - 1];
      Of(log[..|log| - 1], category) + if last.category == category then [last] else []
  }

  lemma {:induction false} CollectIsMap<T>(log: seq<SoulEvent>, category: string, f: SoulEvent -> T)
    ensures |Collect(log, category, f)| == |Of(log, category)|
    ensures forall i :: 0 <= i < |Of(log, category)| ==> Collect(log, category, f)[i] == f(Of(log, category)[i])
    ensures forall e :: e in Of(log, category) ==> e in log
    decreases |log|
  {
    if log != [] {
      CollectIsMap(log[..|log| - 1], category, f);
    }
  }

  // When the entries of a section name their events.
  lemma SameSection<T>(a: seq<SoulEvent>, b: seq<SoulEvent>, category: string, f: SoulEvent -> T)
    requires DistinctIds(b) && (forall e :: e in a ==> e in b) && forall x, y :: f(x) == f(y) ==> x.id == y.id
    ensures Collect(a, category, f) == Collect(b, category, f) <==> Of(a, category) == Of(b, category)
  {
    CollectIsMap(a, category, f);
    CollectIsMap(b, category, f);
    var x, y := Of(a, category), Of(b, category);
    var p, q := Collect(a, category, f), Collect(b, category, f);
    hide Collect;
    hide Of;
    if p == q {
      forall i | 0 <= i < |x| ensures x[i] == y[i] {
        assert p[i] == f(x[i]) && q[i] == f(y[i]);
        assert x[i] in a && y[i] in b;
        SameId(b, x[i], y[i]);
      }
    }
    assert x == y ==> forall i :: 0 <= i < |p| ==> p[i] == q[i];
  }

  lemma SameId(log: seq<SoulEvent>, x: SoulEvent, y: SoulEvent)
    requires DistinctIds(log) && x in log && y in log && x.id == y.id
    ensures x == y
  {
    var i :| 0 <= i < |log| && log[i] == x;
    var j :| 0 <= j < |log| && log[j] == y;
    assert i == j;
  }

  // Every section but the principles, whose entries do not name their events, has the same order.
  ghost predicate SameOrder(a: seq<SoulEvent>, b: seq<SoulEvent>) {
    && Of(a, "pattern") == Of(b, "pattern") && Of(a, "philosophy") == Of(b, "philosophy")
    && Of(a, "reflection") == Of(b, "reflection") && Of(a, "reasoning") == Of(b, "reasoning")
    && Of(a, "guardrail") == Of(b, "guardrail")
    && Collect(a, "principle", ToPrinciple) == Collect(b, "principle", ToPrinciple)
  }

  ghost predicate SameEnd(a: seq<SoulEvent>, b: seq<SoulEvent>) {
    a != [] && b != [] ==> a[|a| - 1] == b[|b| - 1]
  }

  lemma SameVersion(log: seq<SoulEvent>, x: SoulEvent, y: SoulEvent)
    requires Numbered(log) && x in log && y in log && x.version == y.version
    ensures x == y
  {
    var i :| 0 <= i < |log| && log[i] == x;
    var j :| 0 <= j < |log| && log[j] == y;
    assert i + 1 == j + 1;
  }

  lemma SameViewExactly(a: seq<SoulEvent>, b: seq<SoulEvent>)
    requires DistinctIds(b) && Numbered(b) && forall e :: e in a ==> e in b
    ensures View(a) == View(b) <==> |a| == |b| && SameOrder(a, b) && SameEnd(a, b)
  {
    SameSection(a, b, "pattern", ToPattern);
    SameSection(a, b, "philosophy", ToNote);
    SameSection(a, b, "reflection", ToReflection);
    SameSection(a, b, "reasoning", ToNote);
    SameSection(a, b, "guardrail", ToNote);
    if a != [] && b != [] && a[|a| - 1].version == b[|b| - 1].version {
      SameVersion(b, a[|a| - 1], b[|b| - 1]);
    }
    hide Collect;
    hide Of;
  }

  /** In every run after a load, with any number of overlapping calls, the cache is the view of the
      log exactly when no call is between its append and its application, each section's events
      were applied in the order in which they were appended, and the last one applied is the last
      one appended. */
  lemma CacheIsRightExactly(worlds: seq<World>, events: seq<Event>, i: nat)
    requires IsRun(worlds, events) && i < |worlds|
    ensures var w := worlds[i];
      w.soul == View(w.log) <==> Waiting(w) == {} && SameOrder(w.applied, w.log) && SameEnd(w.applied, w.log)
  {
    RunKeepsInv(worlds, events, i);
    SameViewExactly(worlds[i].applied, worlds[i].log);
    hide View;
    hide SameOrder;
    hide SameEnd;
    hide Waiting;
  }

  /** Versions count the events in every run: of calls that read the same version the store takes
      only one. */
  lemma VersionsCountEvents(worlds: seq<World>, events: seq<Event>, i: nat)
    requires IsRun(worlds, events) && i < |worlds|
    ensures Numbered(worlds[i].log)
  {
    RunKeepsInv(worlds, events, i);
  }

  // ---------- Applied in the other order ----------

  function Learned(id: nat, version: int): SoulEvent {
    SoulEvent(id, version, "guardrail", "t", "d", "", 0.5, "", 0)
  }

  lemma TwoNotes(a: SoulEvent, b: SoulEvent)
    requires a.category == b.category == "guardrail"
    ensures View([a, b]).guardrails == [ToNote(a), ToNote(b)] && View([a, b]).version == b.version
  {
    assert [] + [a] == [a] && [a] + [b] == [a, b];
    CollectMore([], a, "guardrail", ToNote);
    CollectMore([a], b, "guardrail", ToNote);
  }

  /** The second event is applied before the first: the cache ends with the older version and with
      the notes in the wrong order, and no call is left to put it right. */
  lemma AppliedInTheOtherOrder() returns (worlds: seq<World>, events: seq<Event>)
    ensures IsRun(worlds, events) && |events| == 6
    ensures var w := worlds[6];
      && w.calls == map[] && w.log == [Learned(1, 1), Learned(2, 2)]
      && w.soul.version == 1 && w.soul.guardrails == [ToNote(Learned(2, 2)), ToNote(Learned(1, 1))]
      && w.soul != View(w.log)
  {
    var a, b := Learned(1, 1), Learned(2, 2);
    hide Possible;
    hide Apply;
    BothAppended(a, b);
    BothApplied(a, b);
    TwoNotes(a, b);
    TwoNotes(b, a);
    hide View;
    events := [ReadVersion(1), Append(1, a), ReadVersion(2), Append(2, b), ApplyTo(2), ApplyTo(1)];
    worlds := [
      World([], View([]), map[], []), World([], View([]), map[1 := Versioned(0)], []),
      World([a], View([]), map[1 := Stored(a)], []), World([a], View([]), map[1 := Stored(a), 2 := Versioned(1)], []),
      World([a, b], View([]), map[1 := Stored(a), 2 := Stored(b)], []),
      World([a, b], View([b]), map[1 := Stored(a)], [b]), World([a, b], View([b, a]), map[], [b, a])];
  }

  lemma BothAppended(a: SoulEvent, b: SoulEvent)
    requires a.id != b.id && a.version == 1 && b.version == 2
    ensures var s := View([]);
      && StepTaken(World([], s, map[], []), ReadVersion(1), World([], s, map[1 := Versioned(0)], []))
      && StepTaken(World([], s, map[1 := Versioned(0)], []), Append(1, a), World([a], s, map[1 := Stored(a)], []))
      && StepTaken(World([a], s, map[1 := Stored(a)], []), ReadVersion(2), World([a], s, map[1 := Stored(a), 2 := Versioned(1)], []))
      && StepTaken(World([a], s, map[1 := Stored(a), 2 := Versioned(1)], []), Append(2, b),
                   World([a, b], s, map[1 := Stored(a), 2 := Stored(b)], []))
  {
    hide View;
    hide Possible;
    hide Apply;
    var s := View([]);
    FirstRead(s);
    FirstAppend(s, a);
    SecondRead(s, a);
    SecondAppend(s, a, b);
  }

  lemma FirstRead(s: Soul)
    ensures StepTaken(World([], s, map[], []), ReadVersion(1), World([], s, map[1 := Versioned(0)], []))
  {
    HighestIsLength([]);
    hide Highest;
  }

  lemma FirstAppend(s: Soul, a: SoulEvent)
    requires a.version == 1
    ensures StepTaken(World([], s, map[1 := Versioned(0)], []), Append(1, a), World([a], s, map[1 := Stored(a)], []))
  {
    assert [] + [a] == [a];
  }

  lemma SecondRead(s: Soul, a: SoulEvent)
    requires a.version == 1
    ensures StepTaken(World([a], s, map[1 := Stored(a)], []), ReadVersion(2), World([a], s, map[1 := Stored(a), 2 := Versioned(1)], []))
  {
    HighestIsLength([a]);
    hide Highest;
    hide Holds;
  }

  lemma SecondAppend(s: Soul, a: SoulEvent, b: SoulEvent)
    requires a.id != b.id && a.version == 1 && b.version == 2
    ensures StepTaken(World([a], s, map[1 := Stored(a), 2 := Versioned(1)], []), Append(2, b),
                      World([a, b], s, map[1 := Stored(a), 2 := Stored(b)], []))
  {
    assert [a] + [b] == [a, b];
    VersionsHeld([a], 2);
    hide Holds;
  }

  lemma BothApplied(a: SoulEvent, b: SoulEvent)
    ensures var w := World([a, b], View([]), map[1 := Stored(a), 2 := Stored(b)], []);
      var w1 := World([a, b], View([b]), map[1 := Stored(a)], [b]);
      && StepTaken(w, ApplyTo(2), w1) && StepTaken(w1, ApplyTo(1), World([a, b], View([b, a]), map[], [b, a]))
  {
    assert [] + [b] == [b] && [b] + [a] == [b, a];
    ViewStep([], b);
    ViewStep([b], a);
    hide View;
    hide ApplyEvent;
    var w := World([a, b], View([]), map[1 := Stored(a), 2 := Stored(b)], []);
    assert w.calls - {2} == map[1 := Stored(a)];
    assert (map[1 := Stored(a)]) - {1} == map[];
  }

  // ---------- Calls that do not overlap ----------

  // At most one call at a time is between its append and its application.
  ghost predicate OneAtATime(w: World) {
    forall j, k :: j in Waiting(w) && k in Waiting(w) ==> j == k
  }

  // The cache lacks at most the last event.
  ghost predicate InOrder(w: World) {
    && (Waiting(w) == {} ==> w.applied == w.log)
    && forall k :: k in Waiting(w) ==> w.log == w.applied + [w.calls[k].event]
  }

  lemma EventKeepsOrder(w: World, e: Event)
    requires InOrder(w) && Possible(w, e) && OneAtATime(w) && OneAtATime(Apply(w, e))
    ensures InOrder(Apply(w, e))
  {
    var w' := Apply(w, e);
    WaitingAfter(w, e);
    if e.Append? {
      assert e.call in Waiting(w') && e.call !in Waiting(w);
      assert forall k :: k in Waiting(w) ==> k in Waiting(w');
      assert Waiting(w) == {};
    } else if e.ApplyTo? {
      assert e.call in Waiting(w);
      assert Waiting(w') == {};
    } else {
      assert forall k :: k in Waiting(w) ==> w'.calls[k] == w.calls[k];
    }
  }

  /** Then the cache is the view of the log whenever no call is in between. */
  lemma {:induction false} SerialCacheIsRight(worlds: seq<World>, events: seq<Event>, i: nat)
    requires IsRun(worlds, events) && i < |worlds|
    requires forall j :: 0 <= j < |worlds| ==> OneAtATime(worlds[j])
    ensures InOrder(worlds[i])
    ensures Waiting(worlds[i]) == {} ==> worlds[i].soul == View(worlds[i].log)
  {
    RunKeepsInv(worlds, events, i);
    hide Inv;
    if i > 0 {
      SerialCacheIsRight(worlds, events, i - 1);
      assert StepTaken(worlds[i - 1], events[i - 1], worlds[i - 1 + 1]);
      assert OneAtATime(worlds[i - 1]) && OneAtATime(worlds[i]);
      EventKeepsOrder(worlds[i - 1], events[i - 1]);
    }
    SoulIsApplied(worlds, events, i);
  }

  lemma SoulIsApplied(worlds: seq<World>, events: seq<Event>, i: nat)
    requires IsRun(worlds, events) && i < |worlds|
    ensures worlds[i].soul == View(worlds[i].applied)
  {
    RunKeepsInv(worlds, events, i);
  }
}
