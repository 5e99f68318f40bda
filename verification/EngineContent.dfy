/** What the steps of a workflow run do to the records, in terms of the plan, the configuration and
    the results alone. */
module EngineContent {
  import opened Types
  import opened Engine
  import opened EngineInvariant
  import Dag
  import EngineSafety

  // ---------- Plans ----------

  // The tasks that a plan creates: those before its first unknown role.
  predicate Creates(specs: seq<TaskSpec>, i: int) {
    0 <= i < |specs| && forall j :: 0 <= j <= i ==> ValidRole(specs[j].role)
  }

  ghost predicate Acceptable(s: State, planner: Id, specs: seq<TaskSpec>)
    requires planner in s.tasks
  {
    && specs != [] && Dag.ValidPlan(specs)
    && s.wf.taskCount + |specs| <= s.wf.maxTasks && s.tasks[planner].depth + 1 < s.wf.maxDepth
  }

  lemma {:induction false} PlannedAt(tasks: map<Id, Task>, specs: seq<TaskSpec>, count: nat, base: Id, planner: Id, depth: nat, i: nat)
    requires i < count <= |specs|
    ensures var r := AddPlanned(tasks, specs, count, base, planner, depth);
      base + i in r && r[base + i] == PlannedTask(specs[i], base, planner, depth)
  {
    if i < count - 1 {
      PlannedAt(tasks, specs, count - 1, base, planner, depth, i);
    }
  }

  lemma {:induction false} PlannedKeys(tasks: map<Id, Task>, specs: seq<TaskSpec>, count: nat, base: Id, planner: Id, depth: nat)
    requires count <= |specs| && forall id :: id in tasks ==> id < base
    ensures var r := AddPlanned(tasks, specs, count, base, planner, depth);
      && (forall id :: id in r <==> id in tasks || base <= id < base + count)
      && (forall id :: id in tasks ==> r[id] == tasks[id])
  {
    if count > 0 {
      PlannedKeys(tasks, specs, count - 1, base, planner, depth);
    }
  }

  // What the i-th spec of a plan asks for, under the ids drawn from `base`.
  ghost predicate AsPlanned(t: Task, specs: seq<TaskSpec>, i: nat, base: Id, planner: Id, depth: int)
    requires i < |specs|
  {
    && t.role == specs[i].role && t.priority == specs[i].priority && t.status == Pending
    && t.depth == depth && t.parent == Some(planner) && t.original == None
    && t.retryCount == 0 && t.maxRetries == 0 && t.cost == 0.0
    && |t.dependsOn| == |specs[i].dependsOn|
    && forall k :: 0 <= k < |t.dependsOn| ==> t.dependsOn[k] == base + specs[i].dependsOn[k]
  }

  lemma PlannedTaskIs(specs: seq<TaskSpec>, i: nat, base: Id, planner: Id, depth: nat)
    requires Dag.WellFormed(specs) && i < |specs|
    ensures AsPlanned(PlannedTask(specs[i], base, planner, depth), specs, i, base, planner, depth)
  {
    var t := PlannedTask(specs[i], base, planner, depth);
    forall k | 0 <= k < |t.dependsOn| ensures t.dependsOn[k] == base + specs[i].dependsOn[k] {
      assert Dag.Edge(specs, i, specs[i].dependsOn[k]) && Dag.GoodEdge(specs, i, specs[i].dependsOn[k]);
    }
  }

  lemma NonePlanned(tasks: map<Id, Task>, specs: seq<TaskSpec>, base: Id, planner: Id, depth: nat)
    ensures AddPlanned(tasks, specs, 0, base, planner, depth) == tasks
  {
  }

  lemma PlannedNext(tasks: map<Id, Task>, specs: seq<TaskSpec>, i: nat, base: Id, planner: Id, depth: nat, deps: seq<Id>)
    requires i < |specs| && deps == ResolvedDeps(specs[i].dependsOn, base)
    ensures AddPlanned(tasks, specs, i + 1, base, planner, depth) ==
      AddPlanned(tasks, specs, i, base, planner, depth)[
        base + i := Task(specs[i].role, Pending, depth, specs[i].priority, deps, 0, 0, Some(planner), None, 0.0)]
  {
  }

  // The tasks after the first `count` specs of a plan have been created.
  ghost predicate Created(tasks: map<Id, Task>, specs: seq<TaskSpec>, count: nat, base: Id, planner: Id, depth: nat, tasks': map<Id, Task>)
    requires count <= |specs|
  {
    && (forall id :: id in tasks' <==> id in tasks || base <= id < base + count)
    && (forall id :: id in tasks ==> tasks'[id] == tasks[id])
    && forall id :: base <= id < base + count ==> AsPlanned(tasks'[id], specs, id - base, base, planner, depth)
  }

  lemma PlannedAreCreated(tasks: map<Id, Task>, specs: seq<TaskSpec>, count: nat, base: Id, planner: Id, depth: nat)
    requires count <= |specs| && Dag.WellFormed(specs) && forall id :: id in tasks ==> id < base
    ensures Created(tasks, specs, count, base, planner, depth, AddPlanned(tasks, specs, count, base, planner, depth))
  {
    hide AddPlanned;
    hide AsPlanned;
    hide Dag.WellFormed;
    PlannedKeys(tasks, specs, count, base, planner, depth);
    var tasks' := AddPlanned(tasks, specs, count, base, planner, depth);
    forall id | base <= id < base + count ensures AsPlanned(tasks'[id], specs, id - base, base, planner, depth) {
      PlannedAt(tasks, specs, count, base, planner, depth, id - base);
      PlannedTaskIs(specs, id - base, base, planner, depth);
    }
  }

  /** After an acceptable plan the store holds what it held, and for each spec before the first
      unknown role the task it asks for, with all of its dependencies, each on the task of the spec
      that the plan names; and nothing else. */
  lemma PlanContent(s: State, planner: Id, specs: seq<TaskSpec>)
    requires planner in s.tasks && Acceptable(s, planner, specs) && forall id :: id in s.tasks ==> id < s.nextId
    ensures var s' := HandlePlan(s, planner, Some(specs));
      && (forall id :: id in s.tasks ==> id in s'.tasks && s'.tasks[id] == s.tasks[id])
      && (forall i :: Creates(specs, i) ==>
            s.nextId + i in s'.tasks
            && AsPlanned(s'.tasks[s.nextId + i], specs, i, s.nextId, planner, s.tasks[planner].depth + 1))
      && (forall id :: id in s'.tasks && id !in s.tasks ==> Creates(specs, id - s.nextId))
      && s'.nextId == s.nextId + |specs|
  {
    var n, base, depth := ValidPrefix(specs), s.nextId, s.tasks[planner].depth + 1;
    PlannedKeys(s.tasks, specs, n, base, planner, depth);
    forall i | Creates(specs, i)
      ensures var s' := HandlePlan(s, planner, Some(specs));
        base + i in s'.tasks && AsPlanned(s'.tasks[base + i], specs, i, base, planner, depth)
    {
      assert i < n;
      PlannedAt(s.tasks, specs, n, base, planner, depth, i);
      PlannedTaskIs(specs, i, base, planner, depth);
      hide AsPlanned;
      hide AddPlanned;
    }
    hide AddPlanned;
  }

  // Any other plan changes nothing.
  lemma PlanRejected(s: State, planner: Id, plan: Option<seq<TaskSpec>>)
    requires planner in s.tasks && (plan.Some? ==> !Acceptable(s, planner, plan.value))
    ensures HandlePlan(s, planner, plan) == s
  {
  }

  /** What a planner's output does: an acceptable plan gives the store the tasks it asks for, counted
      if no role is unknown; anything else changes nothing. */
  ghost predicate Handled(s: State, planner: Id, plan: Option<seq<TaskSpec>>, s': State)
    requires planner in s.tasks
  {
    if plan.None? || !Acceptable(s, planner, plan.value) then s' == s
    else
      var specs := plan.value;
      && (forall id :: id in s.tasks ==> id in s'.tasks && s'.tasks[id] == s.tasks[id])
      && (forall i :: Creates(specs, i) ==>
            s.nextId + i in s'.tasks
            && AsPlanned(s'.tasks[s.nextId + i], specs, i, s.nextId, planner, s.tasks[planner].depth + 1))
      && (forall id :: id in s'.tasks && id !in s.tasks ==> Creates(specs, id - s.nextId))
      && (var all := forall i :: 0 <= i < |specs| ==> ValidRole(specs[i].role);
          s'.wf == s.wf.(taskCount := s.wf.taskCount + if all then |specs| else 0) && s'.stored == if all then s'.wf else s.stored)
  }

  lemma PlanHandled(s: State, planner: Id, plan: Option<seq<TaskSpec>>)
    requires planner in s.tasks && forall id :: id in s.tasks ==> id < s.nextId
    ensures Handled(s, planner, plan, HandlePlan(s, planner, plan))
  {
    hide AsPlanned;
    hide AddPlanned;
    hide Dag.ValidPlan;
    if plan.None? || !Acceptable(s, planner, plan.value) {
      PlanRejected(s, planner, plan);
    } else {
      PlanContent(s, planner, plan.value);
    }
  }

  // Step m receives an acceptable plan from a planner.
  ghost predicate ReceivesPlan(s: State, step: Step, planner: Id, specs: seq<TaskSpec>) {
    && step == Receive && s.phase.InBatch? && |s.phase.channel| > 0 && s.phase.channel[0].0 == planner
    && s.phase.channel[0].1.Answers? && s.phase.channel[0].1.plan == Some(specs)
    && planner in s.tasks && s.tasks[planner].role == Planner && Acceptable(s, planner, specs)
  }

  lemma ReceivedPlan(cfg: Config, s: State, planner: Id, specs: seq<TaskSpec>, i: nat)
    requires Enabled(cfg, s, Receive) && ReceivesPlan(s, Receive, planner, specs) && Creates(specs, i)
    requires forall id :: id in s.tasks ==> id < s.nextId
    ensures var s' := ReceiveResult(cfg, s);
      s.nextId + i in s'.tasks && AsPlanned(s'.tasks[s.nextId + i], specs, i, s.nextId, planner, s.tasks[planner].depth + 1)
  {
    var s0 := s.(phase := s.phase.(channel := s.phase.channel[1..]));
    assert Acceptable(s0, planner, specs);
    PlanContent(s0, planner, specs);
    hide AsPlanned;
    hide HandlePlan;
  }

  lemma PlanStored(cfg: Config, states: seq<State>, steps: seq<Step>, m: nat, planner: Id, specs: seq<TaskSpec>, i: nat)
    requires IsRun(cfg, states, steps) && m < |steps| && ReceivesPlan(states[m], steps[m], planner, specs) && Creates(specs, i)
    ensures var s, s' := states[m], states[m + 1];
      s.nextId + i in s'.tasks && AsPlanned(s'.tasks[s.nextId + i], specs, i, s.nextId, planner, s.tasks[planner].depth + 1)
  {
    EngineSafety.StepOf(cfg, states, steps, m);
    RunKeeps(cfg, states, steps, m);
    EngineSafety.BelowNext(cfg, states[m]);
    ReceivedPlan(cfg, states[m], planner, specs, i);
    hide Inv;
    hide AsPlanned;
    hide ReceiveResult;
  }

  /** In every run: a task that a plan asked for starts only after the completion of every task that
      the plan says it depends on, whenever it starts and however often. */
  lemma StartsFollowPlan(cfg: Config, states: seq<State>, steps: seq<Step>, m: nat, planner: Id, specs: seq<TaskSpec>,
                         i: nat, n: nat, k: nat, c: nat) returns (j: nat)
    requires IsRun(cfg, states, steps) && m < |steps| && m < n < |states|
    requires ReceivesPlan(states[m], steps[m], planner, specs) && Creates(specs, i)
    requires k < |states[n].log| && states[n].log[k] == Started(states[m].nextId + i)
    requires c < |specs[i].dependsOn|
    ensures j < k && states[n].log[j].Finished? && states[n].log[j].id == states[m].nextId + specs[i].dependsOn[c]
  {
    var base, id := states[m].nextId, states[m].nextId + i;
    PlanStored(cfg, states, steps, m, planner, specs, i);
    EngineSafety.RunGrows(cfg, states, steps, m + 1, n);
    hide IsRun;
    hide ReceivesPlan;
    hide Creates;
    assert states[m + 1].tasks[id].dependsOn[c] == base + specs[i].dependsOn[c];
    assert SameTask(states[m + 1].tasks[id], states[n].tasks[id]);
    j := EngineSafety.StartsFollowDependencies(cfg, states, steps, n, k, states[n].tasks[id].dependsOn[c]);
  }

  // ---------- How a workflow ends ----------

  ghost predicate Overspent(s: State) {
    s.stored.budgetLimit > 0.0 && s.stored.budgetSpent > s.stored.budgetLimit
  }

  // Why, from state s, the step ends the workflow with this status.
  ghost predicate EndedAs(s: State, step: Step, status: WorkflowStatus) {
    || (step == Conclude && status == if exists id :: id in s.tasks && s.tasks[id].status == Failed then WfFailed else WfCompleted)
    || (step == EndBatch && Overspent(s) && status == WfFailed)
    || (step == Cancel && status == WfCancelled)
  }

  // A run that has ended tells in its last step why.
  lemma LastStepEnds(cfg: Config, states: seq<State>, steps: seq<Step>)
    requires IsRun(cfg, states, steps) && states[|steps|].phase.Done?
    ensures |steps| > 0 && EndedAs(states[|steps| - 1], steps[|steps| - 1], states[|steps|].stored.status)
    ensures states[|steps|].stored.status == WfCompleted ==>
      forall id :: id in states[|steps|].tasks ==> states[|steps|].tasks[id].status != Failed
  {
    if |steps| > 0 {
      var n := |steps| - 1;
      EndsExactly(cfg, states, steps, n);
      assert StepTaken(cfg, states[n], steps[n], states[n + 1]);
      ConcludeKeepsTasks(cfg, states[n]);
    }
  }

  lemma ConcludeKeepsTasks(cfg: Config, s: State)
    ensures Enabled(cfg, s, Conclude) ==> Apply(cfg, s, Conclude).tasks == s.tasks
  {
  }

  /** In every run the workflow ends in three ways only, and the stored status tells which: failed
      exactly if a task has failed when there is no more work, failed when a batch leaves the stored
      spend above a positive limit, and cancelled. Until then it is running. */
  lemma EndsExactly(cfg: Config, states: seq<State>, steps: seq<Step>, i: nat)
    requires IsRun(cfg, states, steps) && i < |steps|
    ensures var s, s', step := states[i], states[i + 1], steps[i];
      && (s'.phase.Done? <==> step == Conclude || step == Cancel || (step == EndBatch && Overspent(s)))
      && (step == Conclude ==>
            s'.stored.status == if exists id :: id in s.tasks && s.tasks[id].status == Failed then WfFailed else WfCompleted)
      && (step == EndBatch && s'.phase.Done? ==> s'.stored.status == WfFailed)
      && (step == Cancel ==> s'.stored.status == WfCancelled)
      && (s'.phase.Done? ==> s'.wf == s'.stored)
    ensures !states[i].phase.Done? && states[i].stored.status == WfRunning
  {
    RunningUntilDone(cfg, states, steps, i);
    assert StepTaken(cfg, states[i], steps[i], states[i + 1]);
    EndOfStep(cfg, states[i], steps[i]);
  }

  lemma EndOfStep(cfg: Config, s: State, step: Step)
    requires Enabled(cfg, s, step) && !s.phase.Done?
    ensures var s' := Apply(cfg, s, step);
      && (s'.phase.Done? <==> step == Conclude || step == Cancel || (step == EndBatch && Overspent(s)))
      && (step == Conclude ==>
            s'.stored.status == if exists id :: id in s.tasks && s.tasks[id].status == Failed then WfFailed else WfCompleted)
      && (step == EndBatch && s'.phase.Done? ==> s'.stored.status == WfFailed)
      && (step == Cancel ==> s'.stored.status == WfCancelled)
      && (s'.phase.Done? ==> s'.wf == s'.stored)
      && (!s'.phase.Done? ==> s'.stored.status == s.stored.status || s'.stored.status == s.wf.status)
  {
    hide ReceiveResult;
    hide RecoverAll;
    match step
    case Receive =>
      EngineSafety.ReceivePhase(cfg, s);
      ReceiveStatus(cfg, s);
    case Recover(order) => RecoverStatus(cfg, s, order);
    case Conclude =>
      assert WithStatus(s.tasks, Failed) != {} <==> exists id :: id in s.tasks && s.tasks[id].status == Failed by {
        if id :| id in s.tasks && s.tasks[id].status == Failed {
          assert id in WithStatus(s.tasks, Failed);
        }
      }
    case _ =>
  }

  lemma ReceiveStatus(cfg: Config, s: State)
    requires Enabled(cfg, s, Receive)
    ensures var s' := ReceiveResult(cfg, s);
      s'.wf.status == s.wf.status && (s'.stored.status == s.stored.status || s'.stored.status == s.wf.status)
  {
    hide AddPlanned;
  }

  lemma {:induction false} RecoverStatus(cfg: Config, s: State, order: seq<Id>)
    requires forall id :: id in order ==> id in s.tasks
    ensures var s' := RecoverAll(cfg, s, order);
      && s'.phase == s.phase && s'.wf.status == s.wf.status
      && (s'.stored.status == s.stored.status || s'.stored.status == s.wf.status)
    decreases |order|
  {
    if order != [] {
      RecoverStatus(cfg, RecoverOne(cfg, s, order[0]), order[1..]);
    }
  }

  lemma {:induction false} RunningUntilDone(cfg: Config, states: seq<State>, steps: seq<Step>, i: nat)
    requires IsRun(cfg, states, steps) && i < |states|
    ensures !states[i].phase.Done? ==> states[i].stored.status == WfRunning && states[i].wf.status == WfRunning
    ensures i < |steps| ==> !states[i].phase.Done?
  {
    hide Apply;
    hide Overspent;
    if i > 0 {
      RunningUntilDone(cfg, states, steps, i - 1);
      EngineSafety.StepOf(cfg, states, steps, i - 1);
      EndOfStep(cfg, states[i - 1], steps[i - 1]);
      EngineSafety.RunBooks(cfg, states, steps, i);
    }
    if i < |steps| {
      EngineSafety.StepOf(cfg, states, steps, i);
    }
  }

  // ---------- Recovery ----------

  /** Recovery is attempted exactly when it is configured and enabled, the task has failed and has
      a retry left under its own limit, the configured one or 2, the diagnosticians so far have cost
      less than their share of the budget (a quarter unless configured) if that share is positive,
      and the diagnostician would be within the depth and the task limit. */
  lemma EligibleExactly(cfg: Config, s: State, id: Id)
    requires id in s.tasks
    ensures Eligible(cfg, s, id) <==>
      && cfg.recovery.Some? && cfg.recovery.value.enabled
      && s.tasks[id].status == Failed
      && s.tasks[id].retryCount < (if s.tasks[id].maxRetries > 0 then s.tasks[id].maxRetries
                                   else if cfg.recovery.value.maxRetries > 0 then cfg.recovery.value.maxRetries else 2)
      && (var share := s.wf.budgetLimit * if cfg.recovery.value.budgetPct > 0.0 then cfg.recovery.value.budgetPct else 0.25;
          share > 0.0 ==> RecoverySpent(s.tasks, s.nextId) < share)
      && s.tasks[id].depth + 1 < s.wf.maxDepth && s.wf.taskCount + 1 <= s.wf.maxTasks
  {
    hide RecoverySpent;
  }

  // What a task adds to the cost of recovery.
  function DiagnosisCost(t: Task): real {
    if t.role == Diagnostician then t.cost else 0.0
  }

  /** The cost of recovery is nothing for no tasks, and changes with each task by what that task
      adds: it is the sum over all tasks. */
  lemma {:induction false} RecoverySpentIsSum(tasks: map<Id, Task>, n: nat, id: Id, t: Task)
    requires id < n
    ensures RecoverySpent(map[], n) == 0.0
    ensures RecoverySpent(tasks[id := t], n) ==
      RecoverySpent(tasks, n) + DiagnosisCost(t) - (if id in tasks then DiagnosisCost(tasks[id]) else 0.0)
  {
    NothingSpent(n);
    if id < n - 1 {
      RecoverySpentIsSum(tasks, n - 1, id, t);
    } else {
      SpentBelow(tasks, n - 1, id, t);
    }
  }

  lemma {:induction false} NothingSpent(n: nat)
    ensures RecoverySpent(map[], n) == 0.0
  {
    if n > 0 {
      NothingSpent(n - 1);
    }
  }

  lemma {:induction false} SpentBelow(tasks: map<Id, Task>, n: nat, id: Id, t: Task)
    requires n <= id
    ensures RecoverySpent(tasks[id := t], n) == RecoverySpent(tasks, n)
  {
    if n > 0 {
      SpentBelow(tasks, n - 1, id, t);
    }
  }

  /** Recovering a task marks it, counts one task more in both records, and adds one diagnostician
      for it, one level deeper and without dependencies. */
  lemma RecoveryContent(cfg: Config, s: State, id: Id)
    requires id in s.tasks && Eligible(cfg, s, id) && s.nextId !in s.tasks
    ensures var s', t := RecoverOne(cfg, s, id), s.tasks[id];
      && s'.tasks.Keys == s.tasks.Keys + {s.nextId} && s'.nextId == s.nextId + 1
      && s'.tasks[id] == t.(status := Recovering)
      && (forall x :: x in s.tasks && x != id ==> s'.tasks[x] == s.tasks[x])
      && s'.tasks[s.nextId] == Task(Diagnostician, Pending, t.depth + 1, 0, [], 0, 0, t.parent, Some(id), 0.0)
      && s'.wf == s.wf.(taskCount := s.wf.taskCount + 1) && s'.stored == s'.wf
  {
    hide Eligible;
  }

  // ---------- Executions and results ----------

  /** A task that starts is running; one that finishes is completed with its cost, or failed with
      the cost it had; no other task and neither workflow record changes. */
  lemma ExecutionContent(cfg: Config, s: State, step: Step)
    requires Enabled(cfg, s, step) && (step.Start? || step.Finish?)
    ensures var s', id := Apply(cfg, s, step), step.id;
      && s'.tasks.Keys == s.tasks.Keys && s'.wf == s.wf && s'.stored == s.stored
      && (forall x :: x in s.tasks && x != id ==> s'.tasks[x] == s.tasks[x])
      && s'.tasks[id] ==
           if step.Start? then s.tasks[id].(status := Running)
           else if step.result.Answers? then s.tasks[id].(status := Completed, cost := step.result.cost)
           else s.tasks[id].(status := Failed)
  {
  }

  /** A failed execution, and an answer of anyone but a planner or a diagnostician, changes no task;
      an answer's cost goes to the record in memory. */
  lemma ReceiveContent(cfg: Config, s: State)
    requires Enabled(cfg, s, Receive)
    ensures var (id, result), s' := s.phase.channel[0], ReceiveResult(cfg, s);
      && (result.Fails? || s.tasks[id].role !in {Planner, Diagnostician} ==>
            s'.tasks == s.tasks && s'.stored == s.stored && s'.wf.taskCount == s.wf.taskCount)
      && s'.wf.budgetSpent == s.wf.budgetSpent + (if result.Answers? then result.cost else 0.0)
  {
    hide AddPlanned;
  }
}
