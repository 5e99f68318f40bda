/** The inline scheduler: a store of records and the loop that works on it. Every execution
    of the loop is a run of the step machine, and the loop terminates. */
module Scheduler {
  import opened Types
  import opened Engine
  import opened EngineInvariant
  import opened EngineTermination
  import Dag
  import Descent
  import EngineSafety
  import EngineContent

  // ---------- The store ----------

  class InMemoryStore {
    var workflow: Workflow
    var tasks: map<Id, Task>
    // The source of fresh identifiers.
    var nextId: Id

    constructor (wf: Workflow)
      ensures workflow == wf && tasks == map[] && nextId == 0
    {
      workflow, tasks, nextId := wf, map[], 0;
    }

    method CreateTask(id: Id, task: Task) returns (created: bool)
      modifies this`tasks
      ensures created <==> id !in old(tasks)
      ensures tasks == if created then old(tasks)[id := task] else old(tasks)
    {
      created := id !in tasks;
      if created {
        tasks := tasks[id := task];
      }
    }

    method UpdateTask(id: Id, task: Task) returns (updated: bool)
      modifies this`tasks
      ensures updated <==> id in old(tasks)
      ensures tasks == if updated then old(tasks)[id := task] else old(tasks)
    {
      updated := id in tasks;
      if updated {
        tasks := tasks[id := task];
      }
    }

    // All task ids, in the arbitrary order of a map.
    method ListTasks() returns (ids: seq<Id>)
      ensures Enumerates(ids, tasks.Keys)
    {
      ids := [];
      var rest := tasks.Keys;
      while rest != {}
        invariant rest <= tasks.Keys && Enumerates(ids, tasks.Keys - rest)
        decreases rest
      {
        var id :| id in rest;
        rest := rest - {id};
        ids := ids + [id];
      }
    }

    method CountByStatus(status: TaskStatus) returns (n: nat)
      ensures n == |WithStatus(tasks, status)|
    {
      var ids := ListTasks();
      n := 0;
      for i := 0 to |ids|
        invariant n == |StatusAmong(tasks, ids[..i], status)|
      {
        StatusAmongStep(tasks, ids, i, status);
        if tasks[ids[i]].status == status {
          n := n + 1;
        }
      }
      assert ids[..|ids|] == ids;
      assert StatusAmong(tasks, ids, status) == WithStatus(tasks, status);
    }

    /** The queued tasks whose dependencies are all completed, by priority. */
    method GetReadyTasks() returns (ready: seq<Id>)
      ensures Enumerates(ready, ReadySet(tasks)) && PrioritySorted(tasks, ready)
      ensures ReadyExactly(tasks, ready)
    {
      var ids := ListTasks();
      ready := [];
      for i := 0 to |ids|
        invariant Enumerates(ready, ReadyAmong(tasks, ids[..i])) && PrioritySorted(tasks, ready)
      {
        assert ids[..i + 1] == ids[..i] + [ids[i]];
        if Queued(tasks[ids[i]]) && DepsMet(tasks, tasks[ids[i]]) {
          assert ids[i] !in ids[..i];
          ready := InsertByPriority(ready, ids[i]);
        }
      }
      assert ids[..|ids|] == ids;
    }

    method SkipQueuedTasks()
      modifies this`tasks
      ensures tasks == SkipQueued(old(tasks)) && tasks.Keys == old(tasks).Keys
      ensures forall id :: id in tasks ==> tasks[id].(status := old(tasks)[id].status) == old(tasks)[id]
      ensures forall id :: id in tasks ==>
        tasks[id].status == if old(tasks)[id].status in {Pending, Blocked} then Skipped else old(tasks)[id].status
    {
      var ids := ListTasks();
      for i := 0 to |ids|
        invariant tasks.Keys == old(tasks).Keys
        invariant forall id :: id in tasks ==> tasks[id] == SkippedIf(old(tasks)[id], id in ids[..i])
      {
        assert ids[..i + 1] == ids[..i] + [ids[i]];
        assert ids[i] !in ids[..i];
        var task := tasks[ids[i]];
        if task.status == Pending || task.status == Blocked {
          var updated := UpdateTask(ids[i], task.(status := Skipped));
        }
      }
      assert ids[..|ids|] == ids;
    }

    method InsertByPriority(ready: seq<Id>, id: Id) returns (r: seq<Id>)
      requires id in tasks && id !in ready && NoDuplicates(ready) && PrioritySorted(tasks, ready)
      ensures NoDuplicates(r) && PrioritySorted(tasks, r)
      ensures forall x :: x in r <==> x in ready || x == id
    {
      var k := |ready|;
      while k > 0 && tasks[ready[k - 1]].priority > tasks[id].priority
        invariant 0 <= k <= |ready|
        invariant forall j :: k <= j < |ready| ==> tasks[ready[j]].priority > tasks[id].priority
      {
        k := k - 1;
      }
      r := Inserted(ready, k, id);
      InsertedSorted(tasks, ready, id, k);
      InsertedMembers(ready, id, k);
    }
  }

  // Exactly the tasks that wait for nothing, once each.
  ghost predicate ReadyExactly(tasks: map<Id, Task>, ready: seq<Id>) {
    && (forall i, j :: 0 <= i < j < |ready| ==> ready[i] != ready[j])
    && forall id :: id in ready <==>
        && id in tasks && tasks[id].status in {Pending, Blocked}
        && forall d :: d in tasks[id].dependsOn ==> d in tasks && tasks[d].status == Completed
  }

  ghost function SkippedIf(t: Task, seen: bool): Task {
    if seen && Queued(t) then t.(status := Skipped) else t
  }

  ghost function StatusAmong(tasks: map<Id, Task>, ids: seq<Id>, status: TaskStatus): set<Id> {
    set id | id in ids && id in WithStatus(tasks, status)
  }

  lemma StatusAmongStep(tasks: map<Id, Task>, ids: seq<Id>, i: nat, status: TaskStatus)
    requires i < |ids| && NoDuplicates(ids) && ids[i] in tasks
    ensures |StatusAmong(tasks, ids[..i + 1], status)| ==
            |StatusAmong(tasks, ids[..i], status)| + if tasks[ids[i]].status == status then 1 else 0
  {
    assert ids[..i + 1] == ids[..i] + [ids[i]];
    assert ids[i] !in ids[..i];
    StatusAmongMore(tasks, ids[..i], ids[i], status);
  }

  lemma StatusAmongMore(tasks: map<Id, Task>, ids: seq<Id>, id: Id, status: TaskStatus)
    requires id in tasks && id !in ids
    ensures |StatusAmong(tasks, ids + [id], status)| == |StatusAmong(tasks, ids, status)| + if tasks[id].status == status then 1 else 0
  {
    var before, after := StatusAmong(tasks, ids, status), StatusAmong(tasks, ids + [id], status);
    assert after == if tasks[id].status == status then before + {id} else before;
  }

  function Inserted(ids: seq<Id>, k: nat, id: Id): (r: seq<Id>)
    requires k <= |ids|
    ensures |r| == |ids| + 1
    ensures forall i :: 0 <= i < |r| ==> r[i] == if i < k then ids[i] else if i == k then id else ids[i - 1]
  {
    ids[..k] + [id] + ids[k..]
  }

  lemma InsertedSorted(tasks: map<Id, Task>, ready: seq<Id>, id: Id, k: nat)
    requires id in tasks && PrioritySorted(tasks, ready) && k <= |ready|
    requires forall j :: k <= j < |ready| ==> tasks[ready[j]].priority > tasks[id].priority
    requires k > 0 ==> tasks[ready[k - 1]].priority <= tasks[id].priority
    ensures PrioritySorted(tasks, Inserted(ready, k, id))
  {
    forall j | 0 <= j < k ensures tasks[ready[j]].priority <= tasks[id].priority {
      assert tasks[ready[j]].priority <= tasks[ready[k - 1]].priority;
    }
  }

  lemma InsertedMembers(ready: seq<Id>, id: Id, k: nat)
    requires id !in ready && NoDuplicates(ready) && k <= |ready|
    ensures NoDuplicates(Inserted(ready, k, id))
    ensures forall x :: x in Inserted(ready, k, id) <==> x in ready || x == id
  {
    var r := Inserted(ready, k, id);
    forall x ensures x in r <==> x in ready || x == id {
      if x in ready {
        var j :| 0 <= j < |ready| && ready[j] == x;
        assert r[if j < k then j else j + 1] == x;
      }
      assert r[k] == id;
    }
  }

  // ---------- Skill scores ----------

  // A task nobody scored counts as zero.
  function Score(scores: map<Id, real>, id: Id): real {
    if id in scores then scores[id] else 0.0
  }

  // Lower priority number first, then the higher score.
  predicate Sooner(tasks: map<Id, Task>, scores: map<Id, real>, x: Id, y: Id)
    requires x in tasks && y in tasks
  {
    || tasks[x].priority < tasks[y].priority
    || (tasks[x].priority == tasks[y].priority && Score(scores, x) > Score(scores, y))
  }

  // x comes before y in a stable sort of `ids`: sooner, or no later and in front of it already.
  ghost predicate Precedes(tasks: map<Id, Task>, scores: map<Id, real>, ids: seq<Id>, x: Id, y: Id)
    requires x in tasks && y in tasks
  {
    || Sooner(tasks, scores, x, y)
    || (!Sooner(tasks, scores, y, x) && exists a, b :: 0 <= a < b < |ids| && ids[a] == x && ids[b] == y)
  }

  ghost predicate StablySorted(tasks: map<Id, Task>, scores: map<Id, real>, ids: seq<Id>, r: seq<Id>) {
    && (forall i :: 0 <= i < |r| ==> r[i] in tasks)
    && forall i, j :: 0 <= i < j < |r| ==> Precedes(tasks, scores, ids, r[i], r[j])
  }

  // One round of the insertion sort: the next task of the list goes in at k.
  lemma InsertedStably(tasks: map<Id, Task>, scores: map<Id, real>, ids: seq<Id>, n: nat, r: seq<Id>, k: nat)
    requires n < |ids| && k <= |r| && ids[n] in tasks && StablySorted(tasks, scores, ids, r)
    requires forall x :: x in r ==> x in ids[..n]
    requires forall j :: k <= j < |r| ==> Sooner(tasks, scores, ids[n], r[j])
    requires k > 0 ==> !Sooner(tasks, scores, ids[n], r[k - 1])
    ensures StablySorted(tasks, scores, ids, Inserted(r, k, ids[n]))
  {
    forall i | 0 <= i < k ensures Precedes(tasks, scores, ids, r[i], ids[n]) {
      assert i < k - 1 ==> Precedes(tasks, scores, ids, r[i], r[k - 1]);
      assert r[i] in ids[..n];
      var a :| 0 <= a < n && ids[..n][a] == r[i];
      assert ids[a] == r[i];
    }
  }

  lemma StablySortedByPriority(tasks: map<Id, Task>, scores: map<Id, real>, ids: seq<Id>, r: seq<Id>)
    requires StablySorted(tasks, scores, ids, r)
    ensures PrioritySorted(tasks, r)
  {
    forall i, j | 0 <= i < j < |r| ensures tasks[r[i]].priority <= tasks[r[j]].priority {
      assert Precedes(tasks, scores, ids, r[i], r[j]);
    }
  }

  // Of two tasks of one priority the higher score is in front, a missing one being zero; of two
  // with one score, the one that was in front before.
  ghost predicate ByScore(tasks: map<Id, Task>, scores: map<Id, real>, ids: seq<Id>, r: seq<Id>) {
    forall i, j :: 0 <= i < j < |r| && r[i] in tasks && r[j] in tasks && tasks[r[i]].priority == tasks[r[j]].priority ==>
      var si := if r[i] in scores then scores[r[i]] else 0.0;
      var sj := if r[j] in scores then scores[r[j]] else 0.0;
      si > sj || (si == sj && exists a, b :: 0 <= a < b < |ids| && ids[a] == r[i] && ids[b] == r[j])
  }

  lemma StablySortedByScore(tasks: map<Id, Task>, scores: map<Id, real>, ids: seq<Id>, r: seq<Id>)
    requires StablySorted(tasks, scores, ids, r)
    ensures ByScore(tasks, scores, ids, r)
  {
    forall i, j | 0 <= i < j < |r| ensures Precedes(tasks, scores, ids, r[i], r[j]) {
    }
  }

  ghost function ReadyAmong(tasks: map<Id, Task>, ids: seq<Id>): set<Id> {
    set id | id in ReadySet(tasks) && id in ids
  }

  // ---------- Connecting the loops to the step machine ----------

  lemma {:induction false} ValidPrefixIs(specs: seq<TaskSpec>, n: nat)
    requires n <= |specs| && forall k :: 0 <= k < n ==> ValidRole(specs[k].role)
    requires n < |specs| ==> !ValidRole(specs[n].role)
    ensures ValidPrefix(specs) == n
  {
    if n > 0 {
      ValidPrefixIs(specs[1..], n - 1);
    }
  }

  lemma ResolvedAgree(specs: seq<TaskSpec>, i: nat, base: Id, resolved: seq<Id>)
    requires Dag.WellFormed(specs) && i < |specs| && |resolved| == |specs[i].dependsOn|
    requires forall j :: 0 <= j < |resolved| ==>
      var d := specs[i].dependsOn[j];
      Dag.Edge(specs, i, d) && (0 <= d < |specs| ==> resolved[j] == base + d)
    ensures resolved == ResolvedDeps(specs[i].dependsOn, base)
  {
    forall j | 0 <= j < |resolved| ensures resolved[j] == ResolvedDeps(specs[i].dependsOn, base)[j] {
      assert Dag.GoodEdge(specs, i, specs[i].dependsOn[j]);
    }
  }

  lemma {:induction false} RecoverAllSnoc(cfg: Config, s: State, order: seq<Id>, id: Id)
    requires (forall x :: x in order ==> x in s.tasks) && id in s.tasks
    ensures id in RecoverAll(cfg, s, order).tasks
    ensures RecoverAll(cfg, s, order + [id]) == RecoverOne(cfg, RecoverAll(cfg, s, order), id)
    decreases |order|
  {
    if order != [] {
      assert (order + [id])[1..] == order[1..] + [id];
      RecoverAllSnoc(cfg, RecoverOne(cfg, s, order[0]), order[1..], id);
    }
  }

  lemma RecoverNone(cfg: Config, s: State)
    ensures RecoverAll(cfg, s, []) == s
  {
  }

  lemma NotEligibleStays(cfg: Config, s: State, id: Id)
    requires id in s.tasks && !Eligible(cfg, s, id)
    ensures RecoverOne(cfg, s, id) == s
  {
  }

  lemma NothingToRecover(cfg: Config, s: State)
    requires WithStatus(s.tasks, Failed) == {} || !RecoveryEnabled(cfg)
    ensures !CanRecover(cfg, s)
  {
    forall id | id in s.tasks ensures !Eligible(cfg, s, id) {
      assert id !in WithStatus(s.tasks, Failed) || !RecoveryEnabled(cfg);
    }
  }

  lemma RunExtends(cfg: Config, states: seq<State>, steps: seq<Step>, s: State, step: Step, s': State)
    requires IsRun(cfg, states, steps) && states[|steps|] == s && StepTaken(cfg, s, step, s')
    ensures IsRun(cfg, states + [s'], steps + [step])
    ensures step != Wait && !s'.phase.Done? ==>
      Descent.Tower(Measure(s'), Descent.Leaf) < Descent.Tower(Measure(s), Descent.Leaf)
  {
    var states', steps' := states + [s'], steps + [step];
    forall i | 0 <= i < |steps'| ensures StepTaken(cfg, states'[i], steps'[i], states'[i + 1]) {
      if i < |steps| { assert StepTaken(cfg, states[i], steps[i], states[i + 1]); }
    }
    if step != Wait && !s'.phase.Done? {
      RunKeeps(cfg, states, steps, |steps|);
      StepFalls(cfg, s, step);
      Descent.TowerFalls(Measure(s'), Measure(s), Descent.Leaf);
    }
  }

  // Mid-way through the recovery loop: what has not been tried is as it was.
  ghost predicate Underway(s0: State, order: seq<Id>, s: State) {
    && s.phase == s0.phase
    && (forall x :: x in order ==> x in s0.tasks)
    && (forall x :: x in s.tasks ==> x < s.nextId)
    && (forall x :: x in s0.tasks ==> x in s.tasks)
    && (forall x :: x in s0.tasks && x !in order ==> s.tasks[x] == s0.tasks[x])
  }

  lemma RecoveryStep(cfg: Config, s0: State, order: seq<Id>, s: State, id: Id)
    requires Underway(s0, order, s) && s == RecoverAll(cfg, s0, order) && id in s0.tasks && id !in order
    ensures Underway(s0, order + [id], RecoverOne(cfg, s, id))
    ensures RecoverAll(cfg, s0, order + [id]) == RecoverOne(cfg, s, id)
    ensures id in s.tasks && s.tasks[id] == s0.tasks[id] && s.nextId !in s.tasks
    ensures RecoverOne(cfg, s, id).phase == s0.phase
  {
    RecoverAllSnoc(cfg, s0, order, id);
  }

  lemma StatusAmongNext(tasks: map<Id, Task>, ids: seq<Id>, i: nat, order: seq<Id>)
    requires Enumerates(ids, tasks.Keys) && i < |ids| && Enumerates(order, StatusAmong(tasks, ids[..i], Failed))
    ensures ids[i] !in order
    ensures if tasks[ids[i]].status == Failed
            then Enumerates(order + [ids[i]], StatusAmong(tasks, ids[..i + 1], Failed))
            else Enumerates(order, StatusAmong(tasks, ids[..i + 1], Failed))
  {
    assert ids[..i + 1] == ids[..i] + [ids[i]];
    assert ids[i] !in ids[..i];
  }

  lemma NoneEligible(cfg: Config, s: State, order: seq<Id>)
    requires Enumerates(order, WithStatus(s.tasks, Failed))
    requires forall x :: x in order && x in s.tasks ==> !Eligible(cfg, s, x)
    ensures !CanRecover(cfg, s)
  {
    forall x | x in s.tasks ensures !Eligible(cfg, s, x) {
      if s.tasks[x].status == Failed { assert x in WithStatus(s.tasks, Failed); }
    }
  }

  lemma LastInv(cfg: Config, states: seq<State>, steps: seq<Step>)
    requires IsRun(cfg, states, steps)
    ensures Inv(cfg, states[|steps|])
  {
    RunKeeps(cfg, states, steps, |steps|);
  }

  // What the code relies on in the last state of its run.
  lemma LastState(cfg: Config, states: seq<State>, steps: seq<Step>)
    requires IsRun(cfg, states, steps)
    ensures var s := states[|steps|];
      && (forall id :: id in s.tasks ==> id < s.nextId)
      && (s.phase.AtHead? ==> WithStatus(s.tasks, Running) == {})
      && (s.phase.InBatch? ==>
            (forall id :: id in s.phase.waiting ==> id in s.tasks) &&
            (|s.phase.channel| > 0 ==> s.phase.channel[0].0 in s.tasks))
  {
    RunKeeps(cfg, states, steps, |steps|);
    var s := states[|steps|];
    if s.phase.InBatch? && |s.phase.channel| > 0 {
      assert ChannelOk(s, 0);
    }
  }

  // ---------- The scheduler ----------

  datatype Request = Request(budgetLimit: real, maxDepth: int, maxTasks: int)

  // The engine's limits where the request names none.
  function LimitOr(asked: int, configured: int, fallback: int): (n: int)
    requires fallback > 0
    ensures n > 0
  {
    if asked > 0 then asked else if configured > 0 then configured else fallback
  }

  function BudgetOr(asked: real, configured: real): (b: real)
    ensures b > 0.0
  {
    if asked > 0.0 then asked else if configured > 0.0 then configured else 1.0
  }

  class WorkflowScheduler {
    const cfg: Config
    const store: InMemoryStore
    var wf: Workflow

    // History: where the loop stands, and the run of the step machine it has performed.
    ghost var phase: Phase
    ghost var log: seq<Event>
    ghost var strays: nat
    ghost var states: seq<State>
    ghost var steps: seq<Step>

    ghost function Now(): State
      reads this, store
    {
      State(wf, store.workflow, store.tasks, store.nextId, phase, log, strays)
    }

    ghost predicate Valid()
      reads this, store
    {
      IsRun(cfg, states, steps) && states[|steps|] == Now()
    }

    ghost function Rank(): Descent.Tree
      reads this, store
    {
      Descent.Tower(Measure(Now()), Descent.Leaf)
    }

    /** Submit: applies the defaults, stores the workflow and its planner task. */
    constructor Submit(cfg: Config, request: Request, defaults: Request)
      ensures Valid() && Initial(Now()) && this.cfg == cfg && fresh(store)
      ensures wf.maxDepth == if request.maxDepth > 0 then request.maxDepth else if defaults.maxDepth > 0 then defaults.maxDepth else 5
      ensures wf.maxTasks == if request.maxTasks > 0 then request.maxTasks else if defaults.maxTasks > 0 then defaults.maxTasks else 50
      ensures wf.budgetLimit ==
        if request.budgetLimit > 0.0 then request.budgetLimit else if defaults.budgetLimit > 0.0 then defaults.budgetLimit else 1.0
      ensures wf.status == WfRunning && wf.taskCount == 1 && wf.budgetSpent == 0.0 && store.workflow == wf
      ensures store.tasks == map[0 := Task(Planner, Pending, 0, 0, [], 0, 0, None, None, 0.0)] && phase.AtHead?
    {
      var pending := Workflow(WfPending, BudgetOr(request.budgetLimit, defaults.budgetLimit), 0.0,
                              LimitOr(request.maxDepth, defaults.maxDepth, 5),
                              LimitOr(request.maxTasks, defaults.maxTasks, 50), 0);
      this.cfg := cfg;
      store := new InMemoryStore(pending);
      wf := pending.(taskCount := 1, status := WfRunning);
      phase, log, strays, steps := AtHead, [], 0, [];
      new;
      store.nextId := 1;
      var created := store.CreateTask(0, Task(Planner, Pending, 0, 0, [], 0, 0, None, None, 0.0));
      store.workflow := wf;
      states := [Now()];
    }

    // Extends the recorded run by a step that the records have just performed.
    ghost method Record(s: State, step: Step)
      requires IsRun(cfg, states, steps) && states[|steps|] == s && StepTaken(cfg, s, step, Now())
      modifies this`states, this`steps
      ensures Valid() && Now() == old(Now())
      ensures step != Wait && !phase.Done? ==> Rank() < Descent.Tower(Measure(s), Descent.Leaf)
    {
      RunExtends(cfg, states, steps, s, step, Now());
      states, steps := states + [Now()], steps + [step];
    }

    /** reorderBySkillScore: a stable sort by priority and then by score. */
    method ReorderBySkillScore(ids: seq<Id>, scores: map<Id, real>) returns (r: seq<Id>)
      requires NoDuplicates(ids) && forall i :: 0 <= i < |ids| ==> ids[i] in store.tasks
      ensures Enumerates(r, Elements(ids)) && |r| == |ids|
      ensures StablySorted(store.tasks, scores, ids, r)
      ensures PrioritySorted(store.tasks, r)
      ensures ByScore(store.tasks, scores, ids, r)
    {
      r := [];
      for n := 0 to |ids|
        invariant |r| == n && Enumerates(r, Elements(ids[..n]))
        invariant StablySorted(store.tasks, scores, ids, r)
      {
        var k := |r|;
        while k > 0 && Sooner(store.tasks, scores, ids[n], r[k - 1])
          invariant 0 <= k <= |r|
          invariant forall j :: k <= j < |r| ==> Sooner(store.tasks, scores, ids[n], r[j])
        {
          k := k - 1;
        }
        assert ids[..n + 1] == ids[..n] + [ids[n]];
        assert ids[n] !in r by { assert ids[n] !in ids[..n]; }
        InsertedStably(store.tasks, scores, ids, n, r, k);
        InsertedMembers(r, ids[n], k);
        r := Inserted(r, k, ids[n]);
      }
      assert ids[..|ids|] == ids;
      StablySortedByPriority(store.tasks, scores, ids, r);
      StablySortedByScore(store.tasks, scores, ids, r);
    }

    // The ready tasks, reordered if there are several and the scorer has scores for them.
    method ReadyInOrder() returns (ready: seq<Id>)
      ensures Enumerates(ready, ReadySet(store.tasks)) && PrioritySorted(store.tasks, ready)
    {
      ready := store.GetReadyTasks();
      var scores: map<Id, real> := *;
      if |ready| > 1 && |scores| > 0 {
        assert Elements(ready) == ReadySet(store.tasks);
        ready := ReorderBySkillScore(ready, scores);
      }
    }

    // ---------- Executing a task ----------

    /** executeTask with failTask: marks the task running, then completed or failed. */
    method ExecuteTask(id: Id, result: AgentResult)
      requires Valid() && phase.InBatch? && id in phase.waiting && id in store.tasks
      modifies this, store
      ensures Valid() && Now() == FinishTask(StartTask(old(Now()), id), id, result)
      ensures Rank() < old(Rank())
    {
      var task := store.tasks[id].(status := Running);
      var updated := store.UpdateTask(id, task);
      log := log + [Started(id)];
      phase := phase.(waiting := phase.waiting - {id}, running := phase.running + {id});
      Record(old(Now()), Start(id));

      ghost var started := Now();
      if result.Fails? {
        updated := store.UpdateTask(id, task.(status := Failed));
        log := log + [Errored(id)];
      } else {
        updated := store.UpdateTask(id, task.(status := Completed, cost := result.cost));
        log := log + [Finished(id)];
      }
      phase := phase.(running := phase.running - {id}, channel := phase.channel + [(id, result)]);
      Record(started, Finish(id, result));
    }

    // ---------- Handling a result ----------

    /** handlePlannerOutput: validates the plan, then creates its tasks one by one; an unknown
        role abandons the rest and leaves the workflow's count as it was. */
    method HandlePlannerOutput(planner: Id, plan: Option<seq<TaskSpec>>)
      requires planner in store.tasks && forall id :: id in store.tasks ==> id < store.nextId
      modifies this, store
      ensures Now() == HandlePlan(old(Now()), planner, plan)
      ensures EngineContent.Handled(old(Now()), planner, plan, Now())
      ensures states == old(states) && steps == old(steps)
    {
      hide EngineContent.Handled;
      hide AddPlanned;
      hide Dag.Acyclic;
      hide Dag.WellFormed;
      EngineContent.PlanHandled(Now(), planner, plan);
      if plan.None? || |plan.value| == 0 {
        return;
      }
      var specs := plan.value;
      var err, _ := Dag.ValidateDAG(specs);
      if !err.Ok? || wf.taskCount + |specs| > wf.maxTasks {
        return;
      }
      var depth := store.tasks[planner].depth + 1;
      if depth >= wf.maxDepth {
        return;
      }
      var base := store.nextId;
      store.nextId := base + |specs|;
      var count := CreatePlanned(specs, base, planner, depth);
      if count < |specs| {
        strays := strays + count;
      } else {
        wf := wf.(taskCount := wf.taskCount + |specs|);
        store.workflow := wf;
      }
    }

    // The creation loop: it stops at the first unknown role.
    method CreatePlanned(specs: seq<TaskSpec>, base: Id, planner: Id, depth: nat) returns (count: nat)
      requires Dag.WellFormed(specs) && forall id :: id in store.tasks ==> id < base
      modifies store`tasks
      ensures count == ValidPrefix(specs)
      ensures store.tasks == AddPlanned(old(store.tasks), specs, count, base, planner, depth)
      ensures EngineContent.Created(old(store.tasks), specs, count, base, planner, depth, store.tasks)
      ensures (forall k :: 0 <= k < count ==> ValidRole(specs[k].role)) && (count < |specs| ==> !ValidRole(specs[count].role))
    {
      hide *;
      EngineContent.NonePlanned(store.tasks, specs, base, planner, depth);
      var taskIDs := seq(|specs|, i requires 0 <= i => base + i);
      var deps := Dag.ResolveDependencies(specs, taskIDs);
      for i := 0 to |specs|
        invariant store.tasks == AddPlanned(old(store.tasks), specs, i, base, planner, depth)
        invariant forall id :: id in store.tasks ==> id < base + i
        invariant forall k :: 0 <= k < i ==> ValidRole(specs[k].role)
      {
        if !ValidRole(specs[i].role) {
          ValidPrefixIs(specs, i);
          EngineContent.PlannedAreCreated(old(store.tasks), specs, i, base, planner, depth);
          return i;
        }
        var resolved := if i in deps then deps[i] else [];
        ResolvedAgree(specs, i, base, resolved);
        EngineContent.PlannedNext(old(store.tasks), specs, i, base, planner, depth, resolved);
        var created := store.CreateTask(base + i,
          Task(specs[i].role, Pending, depth, specs[i].priority, resolved, 0, 0, Some(planner), None, 0.0));
      }
      ValidPrefixIs(specs, |specs|);
      EngineContent.PlannedAreCreated(old(store.tasks), specs, |specs|, base, planner, depth);
      count := |specs|;
    }

    /** handleDiagnosticianOutput with retryTask and recoveryFailed. */
    method HandleDiagnosticianOutput(diag: Id, decision: Option<Decision>)
      requires diag in store.tasks
      modifies store`tasks
      ensures Now() == HandleDiagnosis(cfg, old(Now()), diag, decision)
    {
      var original := store.tasks[diag].original;
      if original.None? || original.value !in store.tasks {
        return;
      }
      var task := store.tasks[original.value];
      var action := RecoveryDecision(decision);
      if action == Some(Retry) && !(cfg.recovery.Some? && !cfg.recovery.value.allowRetry) {
        task := task.(status := Pending, retryCount := task.retryCount + 1);
      } else if action == Some(Skip) {
        task := task.(status := Skipped);
      } else {
        task := task.(status := Failed);
      }
      var updated := store.UpdateTask(original.value, task);
    }

    method HandleResult(id: Id, result: AgentResult)
      requires Valid() && phase.InBatch? && |phase.channel| > 0 && phase.channel[0] == (id, result) && id in store.tasks
      modifies this, store
      ensures Valid() && Now() == ReceiveResult(cfg, old(Now()))
      ensures Rank() < old(Rank())
    {
      LastState(cfg, states, steps);
      phase := phase.(channel := phase.channel[1..]);
      if result.Answers? {
        var role := store.tasks[id].role;
        if role == Planner {
          HandlePlannerOutput(id, result.plan);
        } else if role == Diagnostician {
          HandleDiagnosticianOutput(id, result.decision);
        }
        wf := wf.(budgetSpent := wf.budgetSpent + result.cost);
      }
      Record(old(Now()), Receive);
    }

    // ---------- Recovery ----------

    method RecoverySpentNow() returns (total: real)
      ensures total == RecoverySpent(store.tasks, store.nextId)
    {
      total := 0.0;
      for n := 0 to store.nextId
        invariant total == RecoverySpent(store.tasks, n)
      {
        if n in store.tasks && store.tasks[n].role == Diagnostician {
          total := total + store.tasks[n].cost;
        }
      }
    }

    method ShouldAttemptRecovery(id: Id) returns (yes: bool)
      requires id in store.tasks && store.tasks[id].status == Failed
      ensures yes <==> Eligible(cfg, Now(), id)
    {
      var task := store.tasks[id];
      if !RecoveryEnabled(cfg) || task.retryCount >= RetryLimit(cfg, task) {
        return false;
      }
      var budget := wf.budgetLimit * RecoveryBudgetPct(cfg);
      if budget > 0.0 {
        var spent := RecoverySpentNow();
        if spent >= budget {
          return false;
        }
      }
      yes := task.depth + 1 < wf.maxDepth && wf.taskCount + 1 <= wf.maxTasks;
    }

    method InitiateRecovery(id: Id)
      requires id in store.tasks && Eligible(cfg, Now(), id) && store.nextId !in store.tasks
      modifies this`wf, store
      ensures Now() == RecoverOne(cfg, old(Now()), id)
    {
      var task := store.tasks[id];
      var updated := store.UpdateTask(id, task.(status := Recovering));
      var diag := store.nextId;
      store.nextId := diag + 1;
      var created := store.CreateTask(diag, DiagnosticianFor(task, id));
      wf := wf.(taskCount := wf.taskCount + 1);
      store.workflow := wf;
    }

    /** Tries to recover every failed task of a snapshot, in the order of the list. */
    method AttemptRecoveries() returns (attempted: bool)
      requires Valid() && phase.AtHead? && Quiet(Now())
      modifies this, store
      ensures Valid() && attempted == CanRecover(cfg, old(Now())) && phase.AtHead?
      ensures attempted ==> Rank() < old(Rank())
      ensures !attempted ==> Now() == old(Now())
    {
      hide IsRun;
      hide Measure;
      hide RecoverAll;
      hide RecoverOne;
      hide Eligible;
      hide Quiet;
      ghost var s0 := Now();
      var snapshot := store.tasks;
      var ids := store.ListTasks();
      attempted := false;
      ghost var order: seq<Id> := [];
      RecoverNone(cfg, s0);
      LastState(cfg, states, steps);
      assert Underway(s0, order, s0);
      hide Underway;
      for i := 0 to |ids|
        invariant Enumerates(order, StatusAmong(snapshot, ids[..i], Failed))
        invariant phase.AtHead? && Underway(s0, order, Now()) && Now() == RecoverAll(cfg, s0, order)
        invariant attempted ==> CanRecover(cfg, s0)
        invariant !attempted ==> Now() == s0 && forall x :: x in order ==> !Eligible(cfg, s0, x)
        invariant states == old(states) && steps == old(steps)
      {
        var id := ids[i];
        StatusAmongNext(snapshot, ids, i, order);
        if snapshot[id].status == Failed {
          RecoveryStep(cfg, s0, order, Now(), id);
          var eligible := ShouldAttemptRecovery(id);
          if eligible {
            InitiateRecovery(id);
            attempted := true;
          } else {
            NotEligibleStays(cfg, Now(), id);
          }
          order := order + [id];
        }
      }
      assert ids[..|ids|] == ids;
      assert StatusAmong(snapshot, ids, Failed) == WithStatus(s0.tasks, Failed);
      if attempted {
        Record(s0, Recover(order));
      } else {
        NoneEligible(cfg, s0, order);
      }
    }

    // ---------- Ending ----------

    method FinishRun(status: WorkflowStatus)
      modifies this, store
      ensures Now() == FinishWorkflow(old(Now()), status)
      ensures states == old(states) && steps == old(steps)
    {
      wf := wf.(status := status);
      store.workflow := wf;
      phase := Done;
    }

    method CancelRun()
      requires Valid() && phase.AtHead?
      modifies this, store
      ensures Valid() && Now() == CancelWorkflow(old(Now()))
    {
      store.SkipQueuedTasks();
      FinishRun(WfCancelled);
      Record(old(Now()), Cancel);
    }

    // ---------- The loop ----------

    /** Runs the tasks of one batch, handles their results and checks the budget. Agents answer
        anything, in any order. */
    method RunBatch(batch: seq<Id>) returns (over: bool)
      requires Valid() && phase.AtHead? && Enabled(cfg, Now(), Dispatch(batch))
      modifies this, store
      ensures Valid() && !phase.InBatch? && (over <==> phase.Done?)
      ensures !phase.Done? ==> Rank() < old(Rank())
    {
      hide IsRun;
      hide HandlePlan;
      hide IsBatch;
      hide Measure;
      phase := InBatch(Elements(batch), {}, []);
      Record(old(Now()), Dispatch(batch));
      var todo := Elements(batch);
      var results: seq<(Id, AgentResult)> := [];
      while todo != {}
        invariant Valid() && phase == InBatch(todo, {}, results)
        invariant Rank() < old(Rank())
        decreases todo
      {
        var id :| id in todo;
        LastState(cfg, states, steps);
        var result: AgentResult := *;
        ExecuteTask(id, result);
        todo := todo - {id};
        results := results + [(id, result)];
      }
      while results != []
        invariant Valid() && phase == InBatch({}, {}, results)
        invariant Rank() < old(Rank())
        decreases |results|
      {
        LastState(cfg, states, steps);
        ghost var s := Now();
        HandleResult(results[0].0, results[0].1);
        EngineSafety.ReceivePhase(cfg, s);
        results := results[1..];
      }
      ghost var s := Now();
      wf := store.workflow;
      over := wf.budgetLimit > 0.0 && wf.budgetSpent > wf.budgetLimit;
      if over {
        FinishRun(WfFailed);
      } else {
        phase := AtHead;
      }
      Record(s, EndBatch);
    }

    /** The workflow has ended, and the stored status is the one its last step calls for: failed
        exactly if a task has failed when there is no more work, failed when the stored spend is
        above a positive limit, cancelled when it was cancelled. */
    ghost predicate Ended()
      reads this, store
    {
      && phase.Done? && |states| == |steps| + 1 && |steps| > 0
      && EngineContent.EndedAs(states[|steps| - 1], steps[|steps| - 1], store.workflow.status)
      && (store.workflow.status == WfCompleted ==> forall id :: id in store.tasks ==> store.tasks[id].status != Failed)
    }

    lemma HasEnded()
      requires Valid() && phase.Done?
      ensures Ended()
    {
      EngineContent.LastStepEnds(cfg, states, steps);
    }

    /** The scheduling loop. It ends the workflow, or finds itself waiting for a decision that
        will never come; the source then sleeps and looks again until it is cancelled. */
    method Run() returns (waiting: bool)
      requires Valid() && phase.AtHead?
      modifies this, store
      ensures Valid()
      ensures !waiting ==> Ended()
      ensures waiting ==> phase.AtHead? && Enabled(cfg, Now(), Wait) && DiagnosisFailed(Now())
    {
      hide IsRun;
      hide Measure;
      hide RecoverySpent;
      hide ReadySet;
      hide WithStatus;
      hide Ended;
      while true
        invariant Valid() && phase.AtHead?
        decreases Rank()
      {
        var cancelled: bool := *;
        if cancelled {
          CancelRun();
          HasEnded();
          return false;
        }
        var ready := ReadyInOrder();
        var running := store.CountByStatus(Running);
        var recovering := store.CountByStatus(Recovering);
        assert |ready| == 0 <==> ReadySet(store.tasks) == {} by {
          if |ready| > 0 { assert ready[0] in ReadySet(store.tasks); }
        }
        if |ready| == 0 && running == 0 && recovering == 0 {
          var failed := store.CountByStatus(Failed);
          var attempted := false;
          if failed > 0 && RecoveryEnabled(cfg) {
            attempted := AttemptRecoveries();
          }
          if !attempted {
            ghost var s := Now();
            if failed == 0 || !RecoveryEnabled(cfg) {
              NothingToRecover(cfg, s);
            }
            FinishRun(if failed > 0 then WfFailed else WfCompleted);
            Record(s, Conclude);
            HasEnded();
            return false;
          }
        } else if |ready| == 0 {
          assert Enabled(cfg, Now(), Wait);
          LastInv(cfg, states, steps);
          WaitsExactly(cfg, Now());
          return true;
        } else {
          LastState(cfg, states, steps);
          var slots := Concurrency(cfg) - running;
          var batch := if |ready| > slots then ready[..slots] else ready;
          assert BatchOf(cfg, Now(), ready, batch);
          var over := RunBatch(batch);
          if over {
            HasEnded();
            return false;
          }
        }
      }
    }
  }
}
