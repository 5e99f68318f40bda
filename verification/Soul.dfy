/** The evolving identity: an append-only event log and a cached view of it. */
module SoulLog {

  import opened Types

  /** Evidence is given by the two fields that are read out of it. */
  datatype SoulEvent = SoulEvent(
    id: nat,
    version: int,
    category: string,
    title: string,
    description: string,
    subCategory: string,
    confidence: real,
    priorState: string,
    createdAt: int)

  datatype Principle = Principle(name: string, description: string)
  datatype Pattern = Pattern(category: string, description: string, learnedAt: int, eventID: nat, confidence: real)
  // Insights, strategies and guardrails have the same fields.
  datatype Note = Note(title: string, description: string, learnedAt: int, eventID: nat)
  datatype Reflection = Reflection(context: string, lesson: string, impact: string, learnedAt: int, eventID: nat)

  datatype Soul = Soul(
    version: int,
    lastUpdatedAt: int,
    totalEvents: nat,
    corePrinciples: seq<Principle>,
    learnedPatterns: seq<Pattern>,
    philosophy: seq<Note>,
    reflections: seq<Reflection>,
    reasoningStrategies: seq<Note>,
    guardrails: seq<Note>)

  const Blank: Soul := Soul(0, 0, 0, [], [], [], [], [], [])

  function ToPrinciple(e: SoulEvent): Principle { Principle(e.title, e.description) }

  function ToPattern(e: SoulEvent): Pattern { Pattern(e.subCategory, e.description, e.createdAt, e.id, e.confidence) }

  function ToNote(e: SoulEvent): Note { Note(e.title, e.description, e.createdAt, e.id) }

  function ToReflection(e: SoulEvent): Reflection { Reflection(e.title, e.description, e.priorState, e.createdAt, e.id) }

  // ---------- What the soul should be ----------

  // The events of one category, in the order of the log.
  function Collect<T>(log: seq<SoulEvent>, category: string, f: SoulEvent -> T): seq<T>
    decreases |log|
  {
    if log == [] then []
    else
      var last := log[|log| - 1];
      Collect(log[..|log| - 1], category, f) + (if last.category == category then [f(last)] else [])
  }

  // The soul as a function of its log, section by section.
  function View(log: seq<SoulEvent>): Soul {
    Soul(
      if log == [] then 0 else log[|log| - 1].version,
      if log == [] then 0 else log[|log| - 1].createdAt,
      |log|,
      Collect(log, "principle", ToPrinciple),
      Collect(log, "pattern", ToPattern),
      Collect(log, "philosophy", ToNote),
      Collect(log, "reflection", ToReflection),
      Collect(log, "reasoning", ToNote),
      Collect(log, "guardrail", ToNote))
  }

  function ApplyEvent(s: Soul, e: SoulEvent): Soul {
    var s := s.(version := e.version, lastUpdatedAt := e.createdAt, totalEvents := s.totalEvents + 1);
    if e.category == "principle" then s.(corePrinciples := s.corePrinciples + [ToPrinciple(e)])
    else if e.category == "pattern" then s.(learnedPatterns := s.learnedPatterns + [ToPattern(e)])
    else if e.category == "philosophy" then s.(philosophy := s.philosophy + [ToNote(e)])
    else if e.category == "reflection" then s.(reflections := s.reflections + [ToReflection(e)])
    else if e.category == "reasoning" then s.(reasoningStrategies := s.reasoningStrategies + [ToNote(e)])
    else if e.category == "guardrail" then s.(guardrails := s.guardrails + [ToNote(e)])
    else s
  }

  lemma CollectMore<T>(log: seq<SoulEvent>, e: SoulEvent, category: string, f: SoulEvent -> T)
    ensures Collect(log + [e], category, f) == Collect(log, category, f) + if e.category == category then [f(e)] else []
  {
    assert (log + [e])[..|log|] == log;
  }

  /** Applying one event to the view of a log gives the view of the longer log. */
  lemma ViewStep(log: seq<SoulEvent>, e: SoulEvent)
    ensures View(log + [e]) == ApplyEvent(View(log), e)
  {
    CollectMore(log, e, "principle", ToPrinciple);
    CollectMore(log, e, "pattern", ToPattern);
    CollectMore(log, e, "philosophy", ToNote);
    CollectMore(log, e, "reflection", ToReflection);
    CollectMore(log, e, "reasoning", ToNote);
    CollectMore(log, e, "guardrail", ToNote);
  }

  // How many events of a category the log has.
  ghost function CountOf(log: seq<SoulEvent>, category: string): nat {
    |set i | 0 <= i < |log| && log[i].category == category|
  }

  lemma CountOneMore(log: seq<SoulEvent>, e: SoulEvent, category: string)
    ensures CountOf(log + [e], category) == CountOf(log, category) + if e.category == category then 1 else 0
  {
    var longer := log + [e];
    var before := set i | 0 <= i < |log| && log[i].category == category;
    var after := set i | 0 <= i < |longer| && longer[i].category == category;
    assert after == before + if e.category == category then {|log|} else {};
  }

  // A section holds one entry for each event of its category, in the order of the log.
  lemma {:induction false} CollectExactly<T>(log: seq<SoulEvent>, category: string, f: SoulEvent -> T)
    ensures |Collect(log, category, f)| == CountOf(log, category)
    ensures forall i :: 0 <= i < |log| && log[i].category == category ==>
      && CountOf(log[..i], category) < |Collect(log, category, f)|
      && Collect(log, category, f)[CountOf(log[..i], category)] == f(log[i])
    decreases |log|
  {
    if log != [] {
      var n := |log| - 1;
      var front := log[..n];
      assert log == front + [log[n]];
      CollectExactly(front, category, f);
      CollectMore(front, log[n], category, f);
      CountOneMore(front, log[n], category);
      hide CountOf;
      hide Collect;
      forall i | 0 <= i < |log| && log[i].category == category
        ensures CountOf(log[..i], category) < |Collect(log, category, f)|
        ensures Collect(log, category, f)[CountOf(log[..i], category)] == f(log[i])
      {
        assert i < n ==> front[i] == log[i] && front[..i] == log[..i];
      }
    }
  }

  // A section holds exactly the entries of the events of its category.
  ghost predicate Shows<T>(log: seq<SoulEvent>, category: string, section: seq<T>, entry: SoulEvent -> T) {
    && |section| == CountOf(log, category)
    && forall i :: 0 <= i < |log| && log[i].category == category ==>
         CountOf(log[..i], category) < |section| && section[CountOf(log[..i], category)] == entry(log[i])
  }

  /** Every event stands in the section of its category, behind those of the earlier events of that
      category, with its own title, text, time and id; and no section holds anything else. */
  lemma ViewShows(log: seq<SoulEvent>)
    ensures var s := View(log);
      && s.totalEvents == |log|
      && s.version == (if log == [] then 0 else log[|log| - 1].version)
      && s.lastUpdatedAt == (if log == [] then 0 else log[|log| - 1].createdAt)
      && Shows(log, "principle", s.corePrinciples, (e: SoulEvent) => Principle(e.title, e.description))
      && Shows(log, "pattern", s.learnedPatterns, (e: SoulEvent) => Pattern(e.subCategory, e.description, e.createdAt, e.id, e.confidence))
      && Shows(log, "philosophy", s.philosophy, (e: SoulEvent) => Note(e.title, e.description, e.createdAt, e.id))
      && Shows(log, "reflection", s.reflections, (e: SoulEvent) => Reflection(e.title, e.description, e.priorState, e.createdAt, e.id))
      && Shows(log, "reasoning", s.reasoningStrategies, (e: SoulEvent) => Note(e.title, e.description, e.createdAt, e.id))
      && Shows(log, "guardrail", s.guardrails, (e: SoulEvent) => Note(e.title, e.description, e.createdAt, e.id))
  {
    hide CountOf;
    hide Collect;
    CollectExactly(log, "principle", ToPrinciple);
    CollectExactly(log, "pattern", ToPattern);
    CollectExactly(log, "philosophy", ToNote);
    CollectExactly(log, "reflection", ToReflection);
    CollectExactly(log, "reasoning", ToNote);
    CollectExactly(log, "guardrail", ToNote);
  }

  // Versions count the events.
  predicate Numbered(log: seq<SoulEvent>) {
    forall i :: 0 <= i < |log| ==> log[i].version == i + 1
  }

  /** Whatever is appended, no principle is ever changed, moved or dropped. */
  lemma {:induction false} PrinciplesStay(log: seq<SoulEvent>, more: seq<SoulEvent>)
    ensures View(log).corePrinciples <= View(log + more).corePrinciples
    decreases |more|
  {
    if more == [] {
      assert log + more == log;
    } else {
      var n := |more| - 1;
      PrinciplesStay(log, more[..n]);
      assert log + more == (log + more[..n]) + [more[n]];
      CollectMore(log + more[..n], more[n], "principle", ToPrinciple);
    }
  }

  /** An event applied to a cache that was never loaded gives the right view exactly when the
      log was empty. */
  lemma UnloadedCache(log: seq<SoulEvent>, e: SoulEvent)
    ensures ApplyEvent(Blank, e) == View(log + [e]) <==> log == []
  {
    ViewStep(log, e);
    assert View([]) == Blank;
    assert ApplyEvent(Blank, e).totalEvents == 1;
    assert View(log + [e]).totalEvents == |log| + 1;
  }

  // ---------- The code ----------

  method Materialize(events: seq<SoulEvent>) returns (s: Soul)
    ensures s == View(events)
  {
    s := Blank;
    for i := 0 to |events|
      invariant s == View(events[..i])
    {
      assert events[..i + 1] == events[..i] + [events[i]];
      ViewStep(events[..i], events[i]);
      s := ApplyEvent(s, events[i]);
    }
    assert events[..|events|] == events;
    if |events| > 0 {
      var last := events[|events| - 1];
      s := s.(version := last.version, lastUpdatedAt := last.createdAt);
    }
    s := s.(totalEvents := |events|);
  }

  // The i-th core principle as an event.
  function SeedEvent(principle: (string, string), i: nat, id: nat, now: int): SoulEvent {
    SoulEvent(id, i + 1, "principle", principle.0, principle.1, "", 0.5, "", now)
  }

  function PrincipleList(principles: seq<(string, string)>): (r: seq<Principle>)
    ensures |r| == |principles|
    ensures forall i :: 0 <= i < |r| ==> r[i] == Principle(principles[i].0, principles[i].1)
    decreases |principles|
  {
    if principles == [] then []
    else
      var n := |principles| - 1;
      PrincipleList(principles[..n]) + [Principle(principles[n].0, principles[n].1)]
  }

  // A log of seed events shows the principles, in order.
  lemma {:induction false} SeededPrinciples(log: seq<SoulEvent>, principles: seq<(string, string)>)
    requires |log| == |principles|
    requires forall i :: 0 <= i < |log| ==> log[i] == SeedEvent(principles[i], i, log[i].id, log[i].createdAt)
    ensures View(log).corePrinciples == PrincipleList(principles)
    decreases |log|
  {
    if log != [] {
      var n := |log| - 1;
      SeededPrinciples(log[..n], principles[..n]);
    }
  }

  class SoulManager {
    // Name and text of the core principles.
    const principles: seq<(string, string)>
    // The store's log for this organisation.
    var log: seq<SoulEvent>
    var soul: Option<Soul>
    var nextId: nat

    ghost predicate Valid()
      reads this
    {
      Numbered(log) && (soul.Some? ==> soul.value == View(log))
    }

    constructor (principles: seq<(string, string)>)
      ensures Valid() && log == [] && soul == None && this.principles == principles
    {
      this.principles := principles;
      log, soul, nextId := [], None, 0;
    }

    // `stored` tells which appends the store accepts; the first refusal ends the seeding.
    method SeedCorePrinciples(stored: nat -> bool, now: int) returns (ok: bool)
      requires log == []
      modifies this
      ensures Numbered(log) && soul == old(soul)
      ensures ok <==> forall i: nat :: i < |principles| ==> stored(i)
      ensures |log| <= |principles| && (ok <==> |log| == |principles|)
      ensures forall i :: 0 <= i < |log| ==> log[i] == SeedEvent(principles[i], i, log[i].id, now)
    {
      for i := 0 to |principles|
        invariant |log| == i && Numbered(log) && soul == old(soul)
        invariant forall k: nat :: k < i ==> stored(k)
        invariant forall k :: 0 <= k < i ==> log[k] == SeedEvent(principles[k], k, log[k].id, now)
      {
        var id := nextId;
        nextId := nextId + 1;
        if !stored(i) {
          return false;
        }
        log := log + [SeedEvent(principles[i], i, id, now)];
      }
      return true;
    }

    /** A log that already has events is not seeded, even when an earlier seeding stopped half-way.
        Both listings can fail. */
    method Load(listed: bool, stored: nat -> bool, relisted: bool, now: int) returns (ok: bool)
      requires Numbered(log)
      modifies this
      ensures Numbered(log) && old(log) <= log
      ensures soul == if ok then Some(View(log)) else old(soul)
      ensures old(log) != [] ==> log == old(log) && ok == listed
      ensures old(log) == [] ==> (ok <==> listed && relisted && forall i: nat :: i < |principles| ==> stored(i))
      ensures old(log) == [] && ok ==> View(log).corePrinciples == PrincipleList(principles)
      ensures old(log) == [] ==> |log| <= |principles| && forall i :: 0 <= i < |log| ==>
        && log[i].title == principles[i].0 && log[i].description == principles[i].1
        && log[i].category == "principle" && log[i].version == i + 1 && log[i].createdAt == now
      ensures old(log) == [] && ok ==>
        |log| == |principles| == |soul.value.corePrinciples|
        && forall i :: 0 <= i < |principles| ==> soul.value.corePrinciples[i] == Principle(principles[i].0, principles[i].1)
    {
      if !listed {
        return false;
      }
      if |log| == 0 {
        var seeded := SeedCorePrinciples(stored, now);
        if !seeded {
          return false;
        }
        if !relisted {
          return false;
        }
        SeededPrinciples(log, principles);
      }
      var s := Materialize(log);
      soul := Some(s);
      return true;
    }

    /** Once loaded, the cache stays the view of the whole log, whichever events come and whichever
        of them the store refuses. */
    method Evolve(event: SoulEvent, versioned: bool, stored: bool, now: int) returns (ok: bool)
      requires Valid()
      modifies this
      ensures ok <==> versioned && stored
      ensures !ok ==> log == old(log) && soul == old(soul)
      ensures ok ==> |log| == |old(log)| + 1 && old(log) <= log && Numbered(log)
      ensures ok ==> log[|log| - 1] == event.(id := old(nextId), version := |log|, createdAt := now)
      ensures old(soul).Some? ==> Valid() && soul.Some?
      ensures ok && old(soul).None? ==> soul.Some? && (Valid() <==> old(log) == [])
    {
      hide View;
      hide ApplyEvent;
      if !versioned {
        return false;
      }
      var latest := LatestVersion();
      var e := event.(id := nextId, version := latest + 1, createdAt := now);
      nextId := nextId + 1;
      if !stored {
        return false;
      }
      ghost var before := log;
      log := log + [e];
      if soul.None? {
        soul := Some(Blank);
        UnloadedCache(before, e);
      }
      ViewStep(before, e);
      soul := Some(ApplyEvent(soul.value, e));
      return true;
    }

    // The highest version in the log.
    method LatestVersion() returns (v: int)
      requires Numbered(log)
      ensures v == |log|
    {
      v := 0;
      for i := 0 to |log|
        invariant v == i
      {
        if log[i].version > v {
          v := log[i].version;
        }
      }
    }
  }
}
