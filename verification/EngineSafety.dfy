/** What holds in every state of every workflow run. */
module EngineSafety {
  import opened Types
  import opened Engine
  import opened EngineInvariant
  import Dag

  // ---------- Execution order ----------

  lemma {:induction false} RunGrows(cfg: Config, states: seq<State>, steps: seq<Step>, i: nat, j: nat)
    requires IsRun(cfg, states, steps) && i <= j < |states|
    ensures Grows(states[i].tasks, states[j].tasks)
    decreases j
  {
    if i < j {
      RunGrows(cfg, states, steps, i, j - 1);
      RunKeeps(cfg, states, steps, j - 1);
      assert StepTaken(cfg, states[j - 1], steps[j - 1], states[j - 1 + 1]);
      StepKeeps(cfg, states[j - 1], steps[j - 1]);
      GrowsTransitive(states[i].tasks, states[j - 1].tasks, states[j].tasks);
    }
  }

  /** A completed task is never lost, changed in its dependencies, or started again. */
  lemma CompletedForever(cfg: Config, states: seq<State>, steps: seq<Step>, i: nat, j: nat, id: Id)
    requires IsRun(cfg, states, steps) && i <= j < |states| && IsCompleted(states[i].tasks, id)
    ensures IsCompleted(states[j].tasks, id)
    ensures states[j].tasks[id].dependsOn == states[i].tasks[id].dependsOn
    ensures j < |steps| ==> steps[j] != Start(id)
  {
    RunGrows(cfg, states, steps, i, j);
    RunKeeps(cfg, states, steps, j);
    if j < |steps| {
      assert StepTaken(cfg, states[j], steps[j], states[j + 1]);
    }
  }

  /** Every start of a task, first or repeated, lies after the completion of each dependency,
      and every start of the dependency lies before that completion. */
  lemma StartsFollowDependencies(cfg: Config, states: seq<State>, steps: seq<Step>, n: nat, k: nat, d: Id)
      returns (j: nat)
    requires IsRun(cfg, states, steps) && n < |states|
    requires k < |states[n].log| && states[n].log[k].Started? && states[n].log[k].id in states[n].tasks
    requires d in states[n].tasks[states[n].log[k].id].dependsOn
    ensures j < k && states[n].log[j] == Finished(d)
    ensures forall i :: 0 <= i < |states[n].log| && states[n].log[i] == Started(d) ==> i < j
  {
    RunKeeps(cfg, states, steps, n);
    var s := states[n];
    assert StartJustified(s.tasks, s.log, k);
    assert Finished(d) in s.log[..k];
    j :| 0 <= j < k && s.log[..k][j] == Finished(d);
    forall i | 0 <= i < |s.log| && s.log[i] == Started(d) ensures i < j {
      assert s.log[j].Finished?;
    }
  }

  // ---------- Limits ----------

  ghost function InFlight(s: State): nat {
    if s.phase.InBatch? then |s.phase.waiting| + |s.phase.running| else 0
  }

  lemma {:induction false} ElementsCount(ids: seq<Id>)
    ensures |Elements(ids)| <= |ids|
  {
    if ids != [] {
      ElementsCount(ids[1..]);
      assert Elements(ids) == {ids[0]} + Elements(ids[1..]);
    }
  }

  lemma DispatchInFlight(cfg: Config, s: State, batch: seq<Id>)
    requires Enabled(cfg, s, Dispatch(batch))
    ensures |Elements(batch)| <= Concurrency(cfg)
  {
    var order :| BatchOf(cfg, s, order, batch);
    ElementsCount(batch);
  }

  lemma ReceivePhase(cfg: Config, s: State)
    requires Enabled(cfg, s, Receive)
    ensures ReceiveResult(cfg, s).phase == Pop(s).phase
  {
  }

  lemma StepKeepsInFlight(cfg: Config, s: State, step: Step)
    requires Enabled(cfg, s, step) && InFlight(s) <= Concurrency(cfg)
    ensures InFlight(Apply(cfg, s, step)) <= Concurrency(cfg)
  {
    match step
    case Dispatch(batch) => DispatchInFlight(cfg, s, batch);
    case Receive => ReceivePhase(cfg, s);
    case Recover(order) => RecoverKeepsHead(cfg, s, order);
    case _ =>
  }

  lemma {:induction false} RecoverKeepsHead(cfg: Config, s: State, order: seq<Id>)
    requires forall id :: id in order ==> id in s.tasks
    ensures RecoverAll(cfg, s, order).phase == s.phase
    decreases |order|
  {
    if order != [] {
      RecoverKeepsHead(cfg, RecoverOne(cfg, s, order[0]), order[1..]);
    }
  }

  lemma {:induction false} RunInFlight(cfg: Config, states: seq<State>, steps: seq<Step>, i: nat)
    requires IsRun(cfg, states, steps) && i < |states|
    ensures InFlight(states[i]) <= Concurrency(cfg)
  {
    if i > 0 {
      RunInFlight(cfg, states, steps, i - 1);
      RunKeeps(cfg, states, steps, i - 1);
      assert StepTaken(cfg, states[i - 1], steps[i - 1], states[i - 1 + 1]);
      StepKeepsInFlight(cfg, states[i - 1], steps[i - 1]);
    }
  }

  /** The resource limits, in every state of every run. Tasks left by plans that stopped at an
      unknown role are exactly the ones missing from the workflow's count. */
  lemma LimitsHold(cfg: Config, states: seq<State>, steps: seq<Step>, i: nat)
    requires IsRun(cfg, states, steps) && i < |states|
    ensures var s := states[i];
      && s.wf.taskCount <= s.wf.maxTasks && |s.tasks| == s.wf.taskCount + s.strays
      && s.stored.taskCount == s.wf.taskCount
      && (forall id :: id in s.tasks ==>
            var t := s.tasks[id];
            && t.depth < s.wf.maxDepth
            && t.retryCount <=
                 if t.maxRetries > 0 then t.maxRetries
                 else if cfg.recovery.Some? && cfg.recovery.value.maxRetries > 0 then cfg.recovery.value.maxRetries
                 else 2)
      && InFlight(s) <= if cfg.maxConcurrentTasks > 0 then cfg.maxConcurrentTasks else 5
  {
    RunKeeps(cfg, states, steps, i);
    RunInFlight(cfg, states, steps, i);
    forall id | id in states[i].tasks
      ensures states[i].tasks[id].depth < states[i].wf.maxDepth
      ensures states[i].tasks[id].retryCount <= RetryLimit(cfg, states[i].tasks[id])
    {
      assert TaskLimits(cfg, states[i].wf.maxDepth, states[i].tasks[id]);
    }
  }

  /** An accepted plan is fully counted exactly when every role is valid, and it leaves
      uncounted tasks exactly when a valid prefix precedes an invalid role. */
  lemma PlanAccounting(cfg: Config, s: State, planner: Id, plan: Option<seq<TaskSpec>>)
    requires Inv(cfg, s) && planner in s.tasks && PlanAccepted(s, planner, plan)
    ensures var s' := HandlePlan(s, planner, plan);
      && (s'.wf.taskCount == s.wf.taskCount + |plan.value| <==>
            forall i :: 0 <= i < |plan.value| ==> ValidRole(plan.value[i].role))
      && (s'.strays > s.strays <==>
            ValidRole(plan.value[0].role) && exists i :: 0 <= i < |plan.value| && !ValidRole(plan.value[i].role))
      && |s'.tasks| - |s.tasks| == (s'.wf.taskCount - s.wf.taskCount) + (s'.strays - s.strays)
  {
    hide Inv;
    hide AddPlanned;
    hide Dag.ValidPlan;
    BelowNext(cfg, s);
    AddPlannedAdds(s.tasks, plan.value, ValidPrefix(plan.value), s.nextId, planner, s.tasks[planner].depth + 1);
  }

  lemma BelowNext(cfg: Config, s: State)
    requires Inv(cfg, s)
    ensures forall id :: id in s.tasks ==> id < s.nextId
  {
  }

  // ---------- Batches ----------

  /** A dispatched batch is as large as the free slots allow, holds ready tasks only, and
      leaves no ready task behind that comes before one of its members. */
  lemma BatchIsBest(cfg: Config, s: State, batch: seq<Id>, a: Id, b: Id)
    requires Inv(cfg, s) && Enabled(cfg, s, Dispatch(batch))
    requires a in batch && b in ReadySet(s.tasks) && b !in batch
    ensures NoDuplicates(batch) && a in ReadySet(s.tasks)
    ensures |batch| == if cfg.maxConcurrentTasks > 0 then cfg.maxConcurrentTasks else 5
    ensures s.tasks[a].priority <= s.tasks[b].priority
  {
    var order :| BatchOf(cfg, s, order, batch);
    assert WithStatus(s.tasks, Running) == {};
    var i :| 0 <= i < |batch| && batch[i] == a;
    assert order[i] == a;
    var j :| 0 <= j < |order| && order[j] == b;
    assert j >= |batch|;
  }

  // ---------- The end of a run ----------

  // A task that will never complete and never run again: missing, failed or skipped.
  ghost predicate Blocker(tasks: map<Id, Task>, id: Id) {
    id !in tasks || tasks[id].status in {Failed, Skipped}
  }

  ghost predicate DependsOnChain(tasks: map<Id, Task>, chain: seq<Id>) {
    forall k :: 0 <= k < |chain| - 1 ==> chain[k] in tasks && chain[k + 1] in tasks[chain[k]].dependsOn
  }

  ghost predicate LeadsToBlocker(tasks: map<Id, Task>, id: Id, chain: seq<Id>) {
    |chain| > 0 && chain[0] == id && DependsOnChain(tasks, chain) && Blocker(tasks, chain[|chain| - 1])
  }

  lemma {:induction false} CompletedAvoidsBlockers(s: State, id: Id, chain: seq<Id>)
    requires DepsDone(s) && IsCompleted(s.tasks, id)
    ensures !LeadsToBlocker(s.tasks, id, chain)
    decreases |chain|
  {
    if LeadsToBlocker(s.tasks, id, chain) && |chain| > 1 {
      var rest := chain[1..];
      assert DepsMet(s.tasks, s.tasks[id]) && chain[1] in s.tasks[chain[0]].dependsOn;
      CompletedAvoidsBlockers(s, chain[1], rest);
      forall k | 0 <= k < |rest| - 1 ensures rest[k] in s.tasks && rest[k + 1] in s.tasks[rest[k]].dependsOn {
        assert rest[k] == chain[k + 1] && rest[k + 1] == chain[k + 1 + 1];
      }
    }
  }

  lemma {:induction false} UnfinishedLeadsToBlocker(s: State, rank: map<Id, nat>, id: Id) returns (chain: seq<Id>)
    requires RankOk(s.tasks, rank) && Quiet(s) && id in s.tasks && s.tasks[id].status != Completed
    ensures LeadsToBlocker(s.tasks, id, chain)
    decreases if id in rank then rank[id] + 1 else 0
  {
    assert id !in WithStatus(s.tasks, Running) && id !in WithStatus(s.tasks, Recovering) && id !in ReadySet(s.tasks);
    if Blocker(s.tasks, id) {
      chain := [id];
    } else {
      var d :| d in s.tasks[id].dependsOn && !IsCompleted(s.tasks, d);
      if d !in s.tasks {
        chain := [id, d];
      } else {
        var rest := UnfinishedLeadsToBlocker(s, rank, d);
        chain := [id] + rest;
        forall k | 0 <= k < |chain| - 1 ensures chain[k] in s.tasks && chain[k + 1] in s.tasks[chain[k]].dependsOn {
          if k > 0 { assert rest[k - 1] in s.tasks && rest[k - 1 + 1] in s.tasks[rest[k - 1]].dependsOn; }
        }
      }
    }
  }

  /** When the loop finds no more work, the unfinished tasks are exactly those with a chain of
      dependencies to a task that failed, was skipped, or was never created. */
  lemma LeftoversExactly(cfg: Config, s: State, id: Id)
    requires Inv(cfg, s) && Quiet(s) && id in s.tasks
    ensures s.tasks[id].status != Completed <==> exists chain :: LeadsToBlocker(s.tasks, id, chain)
  {
    if s.tasks[id].status == Completed {
      forall chain ensures !LeadsToBlocker(s.tasks, id, chain) {
        CompletedAvoidsBlockers(s, id, chain);
      }
    } else {
      var rank :| RankOk(s.tasks, rank);
      var chain := UnfinishedLeadsToBlocker(s, rank, id);
    }
  }

  // ---------- Recovery decisions ----------

  /** What a diagnostician's answer does to its original task: it is queued again, with one more
      retry, exactly for a retry that is allowed and held with a confidence of at least one half;
      it is skipped exactly for a skip; and it is failed for everything else, an answer that
      could not be decoded included. No other task changes. */
  lemma DecisionExactly(cfg: Config, s: State, diag: Id, decision: Option<Decision>)
    requires diag in s.tasks && s.tasks[diag].original.Some? && s.tasks[diag].original.value in s.tasks
    ensures var s', x := HandleDiagnosis(cfg, s, diag, decision), s.tasks[diag].original.value;
      var retried := decision.Some? && decision.value.action == Retry && decision.value.confidence >= 0.5
        && !(cfg.recovery.Some? && !cfg.recovery.value.allowRetry);
      var skipped := decision.Some? && decision.value.action == Skip;
      && s'.tasks.Keys == s.tasks.Keys
      && (forall id :: id in s.tasks && id != x ==> s'.tasks[id] == s.tasks[id])
      && s'.tasks[x].status == (if retried then Pending else if skipped then Skipped else Failed)
      && s'.tasks[x].retryCount == s.tasks[x].retryCount + (if retried then 1 else 0)
  {
  }

  // ---------- What becomes of the spend ----------

  // The result about to be received is a plan that will be accepted and stored whole.
  ghost predicate StoresPlan(s: State, step: Step) {
    && step.Receive? && s.phase.InBatch? && |s.phase.channel| > 0 && s.phase.channel[0].0 in s.tasks
    && var (id, result) := s.phase.channel[0];
      && result.Answers? && s.tasks[id].role == Planner && PlanAccepted(s, id, result.plan)
      && forall i :: 0 <= i < |result.plan.value| ==> ValidRole(result.plan.value[i].role)
  }

  lemma {:induction false} RecoverAllSpend(cfg: Config, s: State, order: seq<Id>)
    requires forall id :: id in order ==> id in s.tasks
    requires s.wf == s.stored
    ensures RecoverAll(cfg, s, order).stored.budgetSpent == s.stored.budgetSpent
    decreases |order|
  {
    if order != [] {
      RecoverAllSpend(cfg, RecoverOne(cfg, s, order[0]), order[1..]);
    }
  }

  lemma ReceiveSpend(cfg: Config, s: State)
    requires Enabled(cfg, s, Receive)
    ensures ReceiveResult(cfg, s).stored.budgetSpent == if StoresPlan(s, Receive) then s.wf.budgetSpent else s.stored.budgetSpent
  {
    hide AddPlanned;
  }

  /** The store learns of spend in one way only: with a plan that is stored whole, and then of
      what had been added before that plan's own cost. */
  lemma StoredSpend(cfg: Config, s: State, step: Step)
    requires Books(s) && Enabled(cfg, s, step)
    ensures Apply(cfg, s, step).stored.budgetSpent == if StoresPlan(s, step) then s.wf.budgetSpent else s.stored.budgetSpent
  {
    hide ReceiveResult;
    hide RecoverAll;
    match step
    case Receive => ReceiveSpend(cfg, s);
    case Recover(order) => RecoverAllSpend(cfg, s, order);
    case _ =>
  }

  lemma {:induction false} StoredSpendKept(cfg: Config, states: seq<State>, steps: seq<Step>, i: nat, j: nat)
    requires IsRun(cfg, states, steps) && i <= j < |states|
    requires forall k :: i <= k < j ==> !StoresPlan(states[k], steps[k])
    ensures states[j].stored.budgetSpent == states[i].stored.budgetSpent
    decreases j
  {
    hide Apply;
    hide Enabled;
    hide StoresPlan;
    hide Books;
    assert |states| == |steps| + 1;
    hide IsRun;
    if i < j {
      StoredSpendKept(cfg, states, steps, i, j - 1);
      RunBooks(cfg, states, steps, j - 1);
      StepOf(cfg, states, steps, j - 1);
      StoredSpend(cfg, states[j - 1], steps[j - 1]);
    }
  }

  /** All other spend is forgotten when the record is refreshed: as long as no plan is stored, a
      workflow within its budget stays within it, and no batch, whatever it cost, ends it. */
  lemma SpendIsForgotten(cfg: Config, states: seq<State>, steps: seq<Step>, i: nat, j: nat)
    requires IsRun(cfg, states, steps) && i <= j < |states|
    requires forall k :: i <= k < j ==> !StoresPlan(states[k], steps[k])
    ensures states[j].stored.budgetSpent == states[i].stored.budgetSpent
    ensures !states[j].phase.InBatch? ==> states[j].wf.budgetSpent == states[i].stored.budgetSpent
    ensures j < |steps| && steps[j] == EndBatch && states[i].stored.budgetSpent <= states[j].stored.budgetLimit ==>
      states[j + 1].phase.AtHead?
  {
    StoredSpendKept(cfg, states, steps, i, j);
    RunBooks(cfg, states, steps, j);
    if j < |steps| {
      StepOf(cfg, states, steps, j);
      CloseWithin(cfg, states[j], steps[j]);
    }
    hide Apply;
    hide Enabled;
    hide StoresPlan;
  }

  lemma StepOf(cfg: Config, states: seq<State>, steps: seq<Step>, i: nat)
    requires IsRun(cfg, states, steps) && i < |steps|
    ensures Enabled(cfg, states[i], steps[i]) && states[i + 1] == Apply(cfg, states[i], steps[i])
  {
    assert StepTaken(cfg, states[i], steps[i], states[i + 1]);
  }

  lemma RunBooks(cfg: Config, states: seq<State>, steps: seq<Step>, i: nat)
    requires IsRun(cfg, states, steps) && i < |states|
    ensures Books(states[i])
  {
    RunKeeps(cfg, states, steps, i);
  }

  lemma CloseWithin(cfg: Config, s: State, step: Step)
    requires Enabled(cfg, s, step)
    ensures step == EndBatch && s.stored.budgetSpent <= s.stored.budgetLimit ==> Apply(cfg, s, step).phase.AtHead?
  {
  }

  // ---------- Runs without failures ----------

  ghost predicate ValidPlanRoles(result: AgentResult) {
    result.Answers? && result.plan.Some? ==>
      forall i :: 0 <= i < |result.plan.value| ==> ValidRole(result.plan.value[i].role)
  }

  ghost predicate ValidRoles(steps: seq<Step>) {
    forall i :: 0 <= i < |steps| && steps[i].Finish? ==> ValidPlanRoles(steps[i].result)
  }

  // Nothing uncounted, and nothing on its way that could leave something uncounted.
  ghost predicate AllCounted(s: State) {
    && s.strays == 0
    && (s.phase.InBatch? ==> forall k :: 0 <= k < |s.phase.channel| ==> ValidPlanRoles(s.phase.channel[k].1))
  }

  lemma PlanKeepsCounted(s: State, planner: Id, plan: Option<seq<TaskSpec>>)
    requires planner in s.tasks
    requires plan.Some? ==> forall i :: 0 <= i < |plan.value| ==> ValidRole(plan.value[i].role)
    ensures HandlePlan(s, planner, plan).strays == s.strays && HandlePlan(s, planner, plan).phase == s.phase
  {
    hide AddPlanned;
  }

  lemma ReceiveKeepsCounted(cfg: Config, s: State)
    requires AllCounted(s) && Enabled(cfg, s, Receive)
    ensures AllCounted(ReceiveResult(cfg, s))
  {
    var (id, result) := s.phase.channel[0];
    ReceiveCases(cfg, s);
    if s.tasks[id].role == Planner && result.Answers? {
      PlanKeepsCounted(Pop(s), id, result.plan);
    }
    hide HandlePlan;
  }

  lemma {:induction false} RecoverAllCounted(cfg: Config, s: State, order: seq<Id>)
    requires forall id :: id in order ==> id in s.tasks
    ensures RecoverAll(cfg, s, order).strays == s.strays && RecoverAll(cfg, s, order).phase == s.phase
    decreases |order|
  {
    if order != [] {
      RecoverAllCounted(cfg, RecoverOne(cfg, s, order[0]), order[1..]);
    }
  }

  lemma StepKeepsCounted(cfg: Config, s: State, step: Step)
    requires AllCounted(s) && Enabled(cfg, s, step) && (step.Finish? ==> ValidPlanRoles(step.result))
    ensures AllCounted(Apply(cfg, s, step))
  {
    hide ReceiveResult;
    hide RecoverAll;
    match step
    case Receive => ReceiveKeepsCounted(cfg, s);
    case Recover(order) => RecoverAllCounted(cfg, s, order);
    case _ =>
  }

  lemma {:induction false} RunCounted(cfg: Config, states: seq<State>, steps: seq<Step>, i: nat)
    requires IsRun(cfg, states, steps) && ValidRoles(steps) && i < |states|
    ensures AllCounted(states[i])
  {
    if i > 0 {
      RunCounted(cfg, states, steps, i - 1);
      assert StepTaken(cfg, states[i - 1], steps[i - 1], states[i - 1 + 1]);
      StepKeepsCounted(cfg, states[i - 1], steps[i - 1]);
    }
  }

  /** As long as no plan names an unknown role, the number of tasks is the workflow's count in
      every reachable state, through failures, recovery and cancellation. */
  lemma CountIsExact(cfg: Config, states: seq<State>, steps: seq<Step>, i: nat)
    requires IsRun(cfg, states, steps) && ValidRoles(steps) && i < |states|
    ensures states[i].strays == 0 && |states[i].tasks| == states[i].wf.taskCount <= states[i].wf.maxTasks
  {
    RunCounted(cfg, states, steps, i);
    LimitsHold(cfg, states, steps, i);
  }

  // No agent errs, no plan names an unknown role, nobody cancels.
  ghost predicate Smooth(steps: seq<Step>) {
    forall i :: 0 <= i < |steps| ==>
      steps[i] != Cancel && (steps[i].Finish? ==> steps[i].result.Answers? && ValidPlanRoles(steps[i].result))
  }

  ghost predicate Untroubled(s: State) {
    && s.strays == 0 && |s.tasks| == s.nextId
    && (forall id :: id in s.tasks ==> s.tasks[id].status !in {Failed, Recovering, Skipped} && s.tasks[id].original.None?)
    && (s.phase.InBatch? ==> forall k :: 0 <= k < |s.phase.channel| ==>
          s.phase.channel[k].1.Answers? && ValidPlanRoles(s.phase.channel[k].1))
  }

  lemma PlanKeepsUntroubled(s: State, planner: Id, plan: Option<seq<TaskSpec>>)
    requires (forall id :: id in s.tasks ==> id < s.nextId) && Untroubled(s) && planner in s.tasks
    requires plan.Some? ==> forall i :: 0 <= i < |plan.value| ==> ValidRole(plan.value[i].role)
    ensures Untroubled(HandlePlan(s, planner, plan))
  {
    if PlanAccepted(s, planner, plan) {
      var count, depth := |plan.value|, s.tasks[planner].depth + 1;
      AddPlannedAdds(s.tasks, plan.value, count, s.nextId, planner, depth);
      hide AddPlanned;
      var tasks' := AddPlanned(s.tasks, plan.value, count, s.nextId, planner, depth);
      forall id | id in tasks' && id !in s.tasks ensures tasks'[id].original.None? {
        AddPlannedContent(s.tasks, plan.value, count, s.nextId, planner, depth, id);
      }
    }
  }

  lemma ReceiveKeepsUntroubled(cfg: Config, s: State)
    requires Inv(cfg, s) && Untroubled(s) && Enabled(cfg, s, Receive)
    ensures Untroubled(ReceiveResult(cfg, s))
  {
    var (id, result) := s.phase.channel[0];
    ReceiveCases(cfg, s);
    assert Tables(cfg, s) && Limits(cfg, s);
    hide Links;
    hide BatchOk;
    hide LogOk;
    hide HandlePlan;
    if s.tasks[id].role == Planner {
      PlanKeepsUntroubled(Pop(s), id, result.plan);
    }
  }

  lemma StepKeepsUntroubled(cfg: Config, s: State, step: Step)
    requires Inv(cfg, s) && Untroubled(s) && Enabled(cfg, s, step)
    requires step != Cancel && (step.Finish? ==> step.result.Answers? && ValidPlanRoles(step.result))
    ensures Untroubled(Apply(cfg, s, step))
  {
    hide Links;
    hide LogOk;
    hide Tables;
    hide BatchOk;
    hide HandlePlan;
    hide RecoverAll;
    match step
    case Receive => ReceiveKeepsUntroubled(cfg, s);
    case Start(id) => assert StartTask(s, id).tasks.Keys == s.tasks.Keys;
    case Finish(id, result) => assert FinishTask(s, id, result).tasks.Keys == s.tasks.Keys;
    case _ =>
  }

  lemma {:induction false} SmoothRunUntroubled(cfg: Config, states: seq<State>, steps: seq<Step>, i: nat)
    requires IsRun(cfg, states, steps) && Smooth(steps) && i < |states|
    ensures Untroubled(states[i])
  {
    if i > 0 {
      SmoothRunUntroubled(cfg, states, steps, i - 1);
      RunKeeps(cfg, states, steps, i - 1);
      assert StepTaken(cfg, states[i - 1], steps[i - 1], states[i - 1 + 1]);
      StepKeepsUntroubled(cfg, states[i - 1], steps[i - 1]);
    }
  }

  lemma AllDrawnIdsExist(tasks: map<Id, Task>, n: nat, d: Id)
    requires |tasks| == n && (forall id :: id in tasks ==> id < n) && d < n
    ensures d in tasks
  {
    if d !in tasks {
      assert tasks.Keys <= Below(n) - {d};
      SubsetSize(tasks.Keys, Below(n) - {d});
    }
  }

  ghost function Below(n: nat): (ids: set<Id>)
    ensures |ids| == n && forall id: Id :: id in ids <==> id < n
  {
    if n == 0 then {} else Below(n - 1) + {n - 1}
  }

  lemma SubsetSize(a: set<Id>, b: set<Id>)
    requires a <= b
    ensures |a| <= |b|
  {
    assert b == a + (b - a);
  }

  /** No deadlock: without errors, unknown roles and cancellation, as long as a task is
      unfinished some task is ready, so the loop can only conclude with every task completed. */
  lemma NoDeadlock(cfg: Config, states: seq<State>, steps: seq<Step>, i: nat, id: Id)
    requires IsRun(cfg, states, steps) && Smooth(steps) && i < |states|
    requires states[i].phase.AtHead? && id in states[i].tasks && states[i].tasks[id].status != Completed
    ensures ReadySet(states[i].tasks) != {}
    ensures !Enabled(cfg, states[i], Conclude)
  {
    var s := states[i];
    RunKeeps(cfg, states, steps, i);
    SmoothRunUntroubled(cfg, states, steps, i);
    if ReadySet(s.tasks) == {} {
      assert Quiet(s);
      LeftoversExactly(cfg, s, id);
      var chain :| LeadsToBlocker(s.tasks, id, chain);
      ChainStaysInside(s, chain);
    }
  }

  lemma ChainStaysInside(s: State, chain: seq<Id>)
    requires Untroubled(s) && Ranked(s) && |chain| > 0 && chain[0] in s.tasks && DependsOnChain(s.tasks, chain)
    requires forall id :: id in s.tasks ==> id < s.nextId
    ensures !Blocker(s.tasks, chain[|chain| - 1])
  {
    if |chain| > 1 {
      var n := |chain| - 2;
      assert chain[n] in s.tasks && chain[n + 1] in s.tasks[chain[n]].dependsOn;
      AllDrawnIdsExist(s.tasks, s.nextId, chain[n + 1]);
    }
  }
}
