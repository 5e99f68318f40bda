/** When a workflow run ends, and when it waits forever. */
module EngineTermination {
  import opened Types
  import opened Engine
  import opened EngineInvariant
  import opened Descent
  import EngineSafety

  // ---------- The measure ----------

  // How many more times a task can move before it rests.
  ghost function Weight(s: State, id: Id): nat
    requires id in s.tasks
  {
    if InChannel(s, id) then 2
    else match s.tasks[id].status
         case Running => 3
         case Pending => if s.phase.InBatch? && id in s.phase.waiting then 4 else 5
         case Blocked => if s.phase.InBatch? && id in s.phase.waiting then 4 else 5
         case Recovering => 6
         case _ => 0
  }

  ghost function WeightIfAt(s: State, d: nat, id: Id): nat {
    if id in s.tasks && s.tasks[id].depth == d then Weight(s, id) else 0
  }

  // The weight of depth d, over ids below n.
  ghost function DepthWeight(s: State, d: nat, n: nat): nat {
    if n == 0 then 0 else DepthWeight(s, d, n - 1) + WeightIfAt(s, d, n - 1)
  }

  ghost function Natural(x: int): nat {
    if x < 0 then 0 else x
  }

  ghost function DepthWeights(s: State): (v: seq<nat>)
    ensures |v| == Natural(s.wf.maxDepth)
    ensures forall d :: 0 <= d < |v| ==> v[d] == DepthWeight(s, d, s.nextId)
  {
    seq(Natural(s.wf.maxDepth), d requires d >= 0 => DepthWeight(s, d, s.nextId))
  }

  /** Room for more tasks, then the weight of each depth from the root down, then the batch. */
  ghost function Measure(s: State): seq<nat> {
    [Natural(s.wf.maxTasks - s.wf.taskCount)] + DepthWeights(s) + [if s.phase.InBatch? then 1 else 0]
  }

  // ---------- Comparing measures ----------

  lemma {:induction false} PointwiseIsLex(a: seq<nat>, b: seq<nat>, m: nat)
    requires |a| == |b| && m < |a| && a[m] < b[m] && forall k :: 0 <= k <= m ==> a[k] <= b[k]
    ensures LexLess(a, b)
  {
    if k :| 0 <= k < m && a[k] < b[k] {
      PointwiseIsLex(a, b, k);
    } else {
      assert FirstDrop(a, b, m);
    }
  }

  // Down to depth d, no task got heavier and no task is new.
  ghost predicate NoHeavier(s: State, s': State, d: nat) {
    forall id :: id in s'.tasks && s'.tasks[id].depth <= d ==>
      id in s.tasks && id < s.nextId && s.tasks[id].depth == s'.tasks[id].depth && Weight(s', id) <= Weight(s, id)
  }

  lemma {:induction false} DepthWeightAtMost(s: State, s': State, d: nat, n: nat, n': nat)
    requires NoHeavier(s, s', d) && n <= n' && n <= s.nextId
    requires n < n' ==> n == s.nextId
    ensures DepthWeight(s', d, n') <= DepthWeight(s, d, n)
    decreases n'
  {
    if n < n' {
      DepthWeightAtMost(s, s', d, n, n' - 1);
    } else if n > 0 {
      DepthWeightAtMost(s, s', d, n - 1, n' - 1);
    }
  }

  lemma {:induction false} DepthWeightDrops(s: State, s': State, d: nat, n: nat, n': nat, id: Id)
    requires NoHeavier(s, s', d) && n <= n' && n <= s.nextId
    requires n < n' ==> n == s.nextId
    requires id < n && id in s.tasks && id in s'.tasks && s'.tasks[id].depth == d && Weight(s', id) < Weight(s, id)
    ensures DepthWeight(s', d, n') < DepthWeight(s, d, n)
    decreases n'
  {
    if n < n' {
      DepthWeightDrops(s, s', d, n, n' - 1, id);
    } else if id == n - 1 {
      DepthWeightAtMost(s, s', d, n - 1, n - 1);
    } else {
      DepthWeightDrops(s, s', d, n - 1, n' - 1, id);
    }
  }

  ghost predicate SameRoom(s: State, s': State) {
    && s'.wf.taskCount == s.wf.taskCount && s'.wf.maxTasks == s.wf.maxTasks && s'.wf.maxDepth == s.wf.maxDepth
    && s.nextId <= s'.nextId
  }

  lemma DropAtDepth(s: State, s': State, d: nat, id: Id)
    requires SameRoom(s, s') && d < s.wf.maxDepth && NoHeavier(s, s', d)
    requires id in s.tasks && id < s.nextId && id in s'.tasks && s'.tasks[id].depth == d
    requires Weight(s', id) < Weight(s, id)
    ensures LexLess(Measure(s'), Measure(s))
  {
    var a, b := Measure(s'), Measure(s);
    forall k | 0 <= k <= d + 1 ensures a[k] <= b[k] {
      if k > 0 {
        DepthWeightAtMost(s, s', k - 1, s.nextId, s'.nextId);
      }
    }
    DepthWeightDrops(s, s', d, s.nextId, s'.nextId, id);
    PointwiseIsLex(a, b, d + 1);
  }

  lemma DropOfRoom(s: State, s': State)
    requires s'.wf.maxTasks == s.wf.maxTasks && s'.wf.maxDepth == s.wf.maxDepth
    requires s.wf.taskCount < s'.wf.taskCount <= s.wf.maxTasks
    ensures LexLess(Measure(s'), Measure(s))
  {
    PointwiseIsLex(Measure(s'), Measure(s), 0);
  }

  // ---------- Each step lowers the measure ----------

  lemma StartFalls(cfg: Config, s: State, id: Id)
    requires Inv(cfg, s) && Enabled(cfg, s, Start(id))
    ensures LexLess(Measure(StartTask(s, id)), Measure(s))
  {
    var s' := StartTask(s, id);
    QueuedNotInChannel(s, id);
    forall x ensures InChannel(s', x) == InChannel(s, x) { }
    DropAtDepth(s, s', s.tasks[id].depth, id);
  }

  lemma QueuedNotInChannel(s: State, id: Id)
    requires BatchOk(s) && id in s.tasks && s.tasks[id].status in {Pending, Blocked, Running, Recovering}
    ensures !InChannel(s, id)
  {
    if s.phase.InBatch? {
      forall k | 0 <= k < |s.phase.channel| ensures s.phase.channel[k].0 != id {
        assert ChannelOk(s, k);
      }
    }
  }

  lemma FinishFalls(cfg: Config, s: State, id: Id, result: AgentResult)
    requires Inv(cfg, s) && Enabled(cfg, s, Finish(id, result))
    ensures LexLess(Measure(FinishTask(s, id, result)), Measure(s))
  {
    var s' := FinishTask(s, id, result);
    QueuedNotInChannel(s, id);
    var n := |s.phase.channel|;
    assert s'.phase.channel[n].0 == id;
    RunningTask(cfg, s, id);
    hide Inv;
    forall x | x != id ensures InChannel(s', x) == InChannel(s, x) {
      if InChannel(s, x) {
        var k :| 0 <= k < n && s.phase.channel[k].0 == x;
        assert s'.phase.channel[k].0 == x;
      }
    }
    DropAtDepth(s, s', s.tasks[id].depth, id);
  }

  lemma DispatchFalls(cfg: Config, s: State, batch: seq<Id>)
    requires Inv(cfg, s) && Enabled(cfg, s, Dispatch(batch))
    ensures LexLess(Measure(Apply(cfg, s, Dispatch(batch))), Measure(s))
  {
    var order :| BatchOf(cfg, s, order, batch);
    assert |order| > 0 by {
      var r :| r in ReadySet(s.tasks);
      assert r in order;
    }
    var id := batch[0];
    assert id == order[0] && id in ReadySet(s.tasks);
    var s' := Apply(cfg, s, Dispatch(batch));
    assert id in Elements(batch);
    DropAtDepth(s, s', s.tasks[id].depth, id);
  }

  // Taking the result of a task off the channel drops its own weight.
  lemma PopDrops(s: State)
    requires BatchOk(s) && s.phase.InBatch? && |s.phase.channel| > 0
    ensures forall id :: id in s.tasks ==> Weight(Pop(s), id) <= Weight(s, id)
    ensures s.phase.channel[0].0 in s.tasks && Weight(Pop(s), s.phase.channel[0].0) == 0
    ensures Weight(s, s.phase.channel[0].0) == 2
  {
    PopKeepsBatch(s);
    assert ChannelOk(s, 0);
    assert InChannel(s, s.phase.channel[0].0);
    forall id | id in s.tasks ensures Weight(Pop(s), id) <= Weight(s, id) {
      assert InChannel(s, id) <==> id == s.phase.channel[0].0 || InChannel(Pop(s), id);
    }
  }

  lemma ReceiveFalls(cfg: Config, s: State)
    requires Inv(cfg, s) && Enabled(cfg, s, Receive)
    ensures LexLess(Measure(ReceiveResult(cfg, s)), Measure(s))
  {
    var (id, result) := s.phase.channel[0];
    var s' := ReceiveResult(cfg, s);
    ReceiveCases(cfg, s);
    ReceiveKeeps(cfg, s);
    EngineSafety.ReceivePhase(cfg, s);
    PopDrops(s);
    assert DiagnosticianShape(s.tasks, id);
    if !result.Fails? && s.tasks[id].role == Planner && PlanAccepted(Pop(s), id, result.plan) {
      PlanFalls(cfg, s, s', id, result.plan);
    } else if !result.Fails? && s.tasks[id].original.Some? {
      DiagnosisFalls(cfg, s, s');
    } else {
      PlainFalls(cfg, s, s', id);
    }
  }

  lemma PlainFalls(cfg: Config, s: State, s': State, id: Id)
    requires Inv(cfg, s) && SameRoom(s, s') && s'.tasks == s.tasks && id in s.tasks
    requires s.phase.InBatch? && |s.phase.channel| > 0 && s.phase.channel[0].0 == id && s'.phase == Pop(s).phase
    ensures LexLess(Measure(s'), Measure(s))
  {
    PopDrops(s);
    SameWeights(Pop(s), s');
    DropAtDepth(s, s', s.tasks[id].depth, id);
  }

  // Weights look at tasks and the batch only.
  lemma SameWeights(s: State, s': State)
    requires s'.phase == s.phase
    ensures forall id :: id in s.tasks && id in s'.tasks && s'.tasks[id] == s.tasks[id] ==> Weight(s', id) == Weight(s, id)
  {
    forall id ensures InChannel(s', id) == InChannel(s, id) { }
  }

  lemma PlanFalls(cfg: Config, s: State, s': State, id: Id, plan: Option<seq<TaskSpec>>)
    requires Inv(cfg, s) && s.phase.InBatch? && |s.phase.channel| > 0 && s.phase.channel[0].0 == id
    requires id in s.tasks && PlanAccepted(Pop(s), id, plan)
    requires s'.tasks == HandlePlan(Pop(s), id, plan).tasks && s'.nextId == HandlePlan(Pop(s), id, plan).nextId
    requires s'.wf.(budgetSpent := 0.0) == HandlePlan(Pop(s), id, plan).wf.(budgetSpent := 0.0)
    requires s'.phase == Pop(s).phase
    ensures LexLess(Measure(s'), Measure(s))
  {
    var s1 := HandlePlan(Pop(s), id, plan);
    assert s'.wf.taskCount == s1.wf.taskCount && s'.wf.maxTasks == s1.wf.maxTasks && s'.wf.maxDepth == s1.wf.maxDepth;
    if ValidPrefix(plan.value) == |plan.value| {
      DropOfRoom(s, s');
    } else {
      var depth := s.tasks[id].depth + 1;
      AddPlannedAdds(s.tasks, plan.value, ValidPrefix(plan.value), s.nextId, id, depth);
      forall x | x in s'.tasks && x !in s.tasks ensures s'.tasks[x].depth == depth {
        AddPlannedContent(s.tasks, plan.value, ValidPrefix(plan.value), s.nextId, id, depth, x);
      }
      DeeperTasksFall(s, s', id);
    }
  }

  lemma DeeperTasksFall(s: State, s': State, id: Id)
    requires BatchOk(s) && s.phase.InBatch? && |s.phase.channel| > 0 && s.phase.channel[0].0 == id
    requires id in s.tasks && s.tasks[id].depth < s.wf.maxDepth && s'.phase == Pop(s).phase
    requires SameRoom(s, s') && OnlyAdds(s.tasks, s'.tasks, s.nextId)
    requires forall x :: x in s'.tasks && x !in s.tasks ==> s'.tasks[x].depth == s.tasks[id].depth + 1
    ensures LexLess(Measure(s'), Measure(s))
  {
    PopDrops(s);
    SameWeights(Pop(s), s');
    DropAtDepth(s, s', s.tasks[id].depth, id);
  }

  lemma DiagnosisFalls(cfg: Config, s: State, s': State)
    requires Inv(cfg, s) && Enabled(cfg, s, Receive) && s' == Received(cfg, s)
    requires !s.phase.channel[0].1.Fails? && s.tasks[s.phase.channel[0].0].original.Some?
    ensures LexLess(Measure(s'), Measure(s))
  {
    var (d, result) := s.phase.channel[0];
    assert ChannelOk(s, 0) && DiagnosticianShape(s.tasks, d);
    var x := s.tasks[d].original.value;
    assert OpenFor(s, d, x) by { assert InChannel(s, d); }
    DiagnosisChangesOriginal(cfg, Pop(s), d, result.decision);
    PopDrops(s);
    SameWeights(Pop(s), s');
    OriginalFalls(s, s', x);
  }

  lemma OriginalFalls(s: State, s': State, x: Id)
    requires BatchOk(s) && s.phase.InBatch? && |s.phase.channel| > 0 && s'.phase == Pop(s).phase
    requires OneChange(s, s', x) && s.tasks[x].status == Recovering && s'.tasks[x].status in {Pending, Failed, Skipped}
    requires x < s.nextId && s.tasks[x].depth < s.wf.maxDepth && forall id :: id in s.tasks ==> id < s.nextId
    ensures LexLess(Measure(s'), Measure(s))
  {
    PopDrops(s);
    SameWeights(Pop(s), s');
    QueuedNotInChannel(s, x);
    assert !InChannel(s', x) by { PopKeepsBatch(s); assert InChannel(s', x) == InChannel(Pop(s), x); }
    DropAtDepth(s, s', s.tasks[x].depth, x);
  }

  lemma CloseFalls(cfg: Config, s: State)
    requires Inv(cfg, s) && Enabled(cfg, s, EndBatch) && CloseBatch(s).phase.AtHead?
    ensures LexLess(Measure(CloseBatch(s)), Measure(s))
  {
    var s' := CloseBatch(s);
    forall id | id in s.tasks ensures Weight(s', id) <= Weight(s, id) {
      assert !InChannel(s, id) && !InChannel(s', id);
    }
    var a, b := Measure(s'), Measure(s);
    var m := |a| - 1;
    forall k | 0 <= k <= m ensures a[k] <= b[k] {
      if 0 < k < m {
        DepthWeightAtMost(s, s', k - 1, s.nextId, s'.nextId);
      }
    }
    PointwiseIsLex(a, b, m);
  }

  lemma {:induction false} RecoverAllTakesRoom(cfg: Config, s: State, order: seq<Id>)
    requires forall id :: id in order ==> id in s.tasks
    ensures var s' := RecoverAll(cfg, s, order);
      && s'.wf.maxTasks == s.wf.maxTasks && s'.wf.maxDepth == s.wf.maxDepth
      && s.wf.taskCount <= s'.wf.taskCount
      && ((exists id :: id in order && Eligible(cfg, s, id)) ==> s.wf.taskCount < s'.wf.taskCount)
    decreases |order|
  {
    if order != [] {
      RecoverAllTakesRoom(cfg, RecoverOne(cfg, s, order[0]), order[1..]);
      if id :| id in order && Eligible(cfg, s, id) {
        if !Eligible(cfg, s, order[0]) {
          assert id in order[1..];
        }
      }
    }
  }

  lemma RecoverFalls(cfg: Config, s: State, order: seq<Id>)
    requires Inv(cfg, s) && Enabled(cfg, s, Recover(order))
    ensures LexLess(Measure(RecoverAll(cfg, s, order)), Measure(s))
  {
    RecoverAllTakesRoom(cfg, s, order);
    RecoverKeeps(cfg, s, order);
    var id :| id in s.tasks && Eligible(cfg, s, id);
    assert id in WithStatus(s.tasks, Failed);
    DropOfRoom(s, RecoverAll(cfg, s, order));
  }

  /** Every step other than waiting lowers the measure, unless it ends the run. */
  lemma StepFalls(cfg: Config, s: State, step: Step)
    requires Inv(cfg, s) && Enabled(cfg, s, step) && step != Wait && !Apply(cfg, s, step).phase.Done?
    ensures LexLess(Measure(Apply(cfg, s, step)), Measure(s))
  {
    match step
    case Dispatch(batch) => DispatchFalls(cfg, s, batch);
    case Start(id) => StartFalls(cfg, s, id);
    case Finish(id, result) => FinishFalls(cfg, s, id, result);
    case Receive => ReceiveFalls(cfg, s);
    case EndBatch => CloseFalls(cfg, s);
    case Recover(order) => RecoverFalls(cfg, s, order);
  }

  // ---------- Waiting ----------

  // The invocation of a diagnostician has failed.
  ghost predicate DiagnosisFailed(s: State) {
    exists d :: d in s.tasks && s.tasks[d].original.Some? && s.tasks[d].status == Failed
  }

  /** The loop waits exactly when nothing is ready and the invocation of some diagnostician
      has failed: its original task stays recovering and nobody will ever decide about it. */
  lemma WaitsExactly(cfg: Config, s: State)
    requires Inv(cfg, s) && s.phase.AtHead?
    ensures Enabled(cfg, s, Wait) <==> ReadySet(s.tasks) == {} && DiagnosisFailed(s)
  {
    assert WithStatus(s.tasks, Running) == {};
    if Enabled(cfg, s, Wait) {
      var x :| x in WithStatus(s.tasks, Recovering);
      assert HasDiagnostician(s, x);
      var d :| OpenFor(s, d, x);
      assert DiagnosticianShape(s.tasks, d);
      assert d !in ReadySet(s.tasks);
    }
    if d :| d in s.tasks && s.tasks[d].original.Some? && s.tasks[d].status == Failed {
      var x := s.tasks[d].original.value;
      assert OpenFor(s, d, x);
      assert x in WithStatus(s.tasks, Recovering);
    }
  }

  /** Once the loop waits, only cancellation can follow. */
  lemma WaitingIsForever(cfg: Config, s: State, step: Step)
    requires Inv(cfg, s) && Enabled(cfg, s, Wait) && Enabled(cfg, s, step)
    ensures step == Wait || step == Cancel
  {
    assert WithStatus(s.tasks, Running) == {};
  }

  // ---------- Progress ----------

  lemma {:induction false} SortedEnumeration(tasks: map<Id, Task>, ids: set<Id>) returns (order: seq<Id>)
    requires forall id :: id in ids ==> id in tasks
    ensures Enumerates(order, ids) && PrioritySorted(tasks, order)
    decreases |ids|
  {
    if ids == {} {
      order := [];
    } else {
      var m := Best(tasks, ids);
      var rest := SortedEnumeration(tasks, ids - {m});
      order := [m] + rest;
    }
  }

  lemma {:induction false} Best(tasks: map<Id, Task>, ids: set<Id>) returns (m: Id)
    requires ids != {} && forall id :: id in ids ==> id in tasks
    ensures m in ids && forall id :: id in ids ==> tasks[m].priority <= tasks[id].priority
    decreases |ids|
  {
    m :| m in ids;
    if ids != {m} {
      var n := Best(tasks, ids - {m});
      if tasks[n].priority < tasks[m].priority {
        m := n;
      }
    }
  }

  lemma HeadCanMove(cfg: Config, s: State) returns (step: Step)
    requires Inv(cfg, s) && s.phase.AtHead?
    ensures Enabled(cfg, s, step) && step != Cancel
  {
    assert WithStatus(s.tasks, Running) == {};
    if ReadySet(s.tasks) != {} {
      var order := SortedEnumeration(s.tasks, ReadySet(s.tasks));
      var slots := Slots(cfg, s);
      var batch := if |order| > slots then order[..slots] else order;
      assert BatchOf(cfg, s, order, batch);
      step := Dispatch(batch);
    } else if !Quiet(s) {
      step := Wait;
    } else if CanRecover(cfg, s) {
      var order := SortedEnumeration(s.tasks, WithStatus(s.tasks, Failed));
      step := Recover(order);
    } else {
      step := Conclude;
    }
  }

  /** A run that has not ended can always take a step, even if nobody cancels it. */
  lemma Progress(cfg: Config, s: State) returns (step: Step)
    requires Inv(cfg, s) && !s.phase.Done?
    ensures Enabled(cfg, s, step) && step != Cancel
  {
    if s.phase.AtHead? {
      step := HeadCanMove(cfg, s);
    } else if s.phase.waiting != {} {
      var id :| id in s.phase.waiting;
      step := Start(id);
    } else if s.phase.running != {} {
      var id :| id in s.phase.running;
      step := Finish(id, Fails);
    } else if s.phase.channel != [] {
      assert ChannelOk(s, 0);
      step := Receive;
    } else {
      step := EndBatch;
    }
  }

  // ---------- Endless runs ----------

  ghost predicate EndlessRun(cfg: Config, states: nat -> State, steps: nat -> Step) {
    Initial(states(0)) && forall i: nat :: StepTaken(cfg, states(i), steps(i), states(i + 1))
  }

  lemma {:induction false} EndlessInv(cfg: Config, states: nat -> State, steps: nat -> Step, i: nat)
    requires EndlessRun(cfg, states, steps)
    ensures Inv(cfg, states(i))
  {
    if i == 0 {
      InitialInv(cfg, states(0));
    } else {
      EndlessInv(cfg, states, steps, i - 1);
      assert StepTaken(cfg, states(i - 1), steps(i - 1), states(i - 1 + 1));
      StepKeeps(cfg, states(i - 1), steps(i - 1));
    }
  }

  lemma EndlessRunWaits(cfg: Config, states: nat -> State, steps: nat -> Step) returns (n: nat)
    requires EndlessRun(cfg, states, steps)
    ensures steps(n) == Wait
  {
    n := 0;
    if k: nat :| steps(k) == Wait {
      n := k;
    } else {
      var v: nat -> seq<nat> := i => Measure(states(i));
      forall j: nat ensures LexLess(v(j + 1), v(j)) {
        EndlessInv(cfg, states, steps, j);
        assert StepTaken(cfg, states(j), steps(j), states(j + 1));
        assert StepTaken(cfg, states(j + 1), steps(j + 1), states(j + 1 + 1));
        StepFalls(cfg, states(j), steps(j));
      }
      NoEndlessDescent(v, 0);
    }
  }

  lemma {:induction false} OnceWaiting(cfg: Config, states: nat -> State, steps: nat -> Step, n: nat, m: nat)
    requires EndlessRun(cfg, states, steps) && steps(n) == Wait && n <= m
    ensures steps(m) == Wait && states(m) == states(n)
    decreases m
  {
    if n < m {
      OnceWaiting(cfg, states, steps, n, m - 1);
      EndlessInv(cfg, states, steps, m);
      assert StepTaken(cfg, states(m - 1), steps(m - 1), states(m - 1 + 1));
      assert StepTaken(cfg, states(m), steps(m), states(m + 1));
      assert StepTaken(cfg, states(m + 1), steps(m + 1), states(m + 1 + 1));
      WaitingIsForever(cfg, states(m), steps(m));
    }
  }

  /** An endless run is one that waits from some point on, without any change, after the
      invocation of a diagnostician failed. No assumption on agents, plans or roles. */
  lemma EndlessRunsOnlyWait(cfg: Config, states: nat -> State, steps: nat -> Step) returns (n: nat)
    requires EndlessRun(cfg, states, steps)
    ensures DiagnosisFailed(states(n))
    ensures forall m: nat :: n <= m ==> steps(m) == Wait && states(m) == states(n)
  {
    n := EndlessRunWaits(cfg, states, steps);
    EndlessInv(cfg, states, steps, n);
    assert StepTaken(cfg, states(n), steps(n), states(n + 1));
    WaitsExactly(cfg, states(n));
    forall m: nat | n <= m ensures steps(m) == Wait && states(m) == states(n) {
      OnceWaiting(cfg, states, steps, n, m);
    }
  }

  // ---------- Diagnosticians that answer ----------

  ghost predicate DiagnosisErrs(s: State, step: Step) {
    step.Finish? && step.result.Fails? && step.id in s.tasks && s.tasks[step.id].original.Some?
  }

  lemma {:induction false} RecoverAllMarks(cfg: Config, s: State, order: seq<Id>, x: Id)
    requires forall id :: id in order ==> id in s.tasks
    requires x in RecoverAll(cfg, s, order).tasks && (forall id :: id in s.tasks ==> id < s.nextId)
    requires RecoverAll(cfg, s, order).tasks[x].status == Failed
    ensures x in s.tasks && s.tasks[x].status == Failed && s.tasks[x].original == RecoverAll(cfg, s, order).tasks[x].original
    decreases |order|
  {
    if order != [] {
      RecoverAllMarks(cfg, RecoverOne(cfg, s, order[0]), order[1..], x);
    }
  }

  lemma StepKeepsDiagnoses(cfg: Config, s: State, step: Step)
    requires Inv(cfg, s) && Enabled(cfg, s, step) && !DiagnosisFailed(s) && !DiagnosisErrs(s, step)
    ensures !DiagnosisFailed(Apply(cfg, s, step))
  {
    var s' := Apply(cfg, s, step);
    forall d | d in s'.tasks && s'.tasks[d].original.Some? ensures s'.tasks[d].status != Failed {
      match step
      case Receive => ReceiveKeepsDiagnoses(cfg, s, d);
      case Recover(order) =>
        if s'.tasks[d].status == Failed {
          RecoverAllMarks(cfg, s, order, d);
        }
      case _ =>
    }
  }

  lemma ReceiveKeepsDiagnoses(cfg: Config, s: State, e: Id)
    requires Inv(cfg, s) && Enabled(cfg, s, Receive) && !DiagnosisFailed(s)
    requires e in ReceiveResult(cfg, s).tasks && ReceiveResult(cfg, s).tasks[e].original.Some?
    ensures ReceiveResult(cfg, s).tasks[e].status != Failed
  {
    var (d, result) := s.phase.channel[0];
    ReceiveCases(cfg, s);
    assert ChannelOk(s, 0) && DiagnosticianShape(s.tasks, d);
    if !result.Fails? && s.tasks[d].role == Planner && PlanAccepted(Pop(s), d, result.plan) {
      PlanKeepsTables(cfg, Pop(s), d, result.plan);
    } else if !result.Fails? && s.tasks[d].original.Some? {
      var x := s.tasks[d].original.value;
      assert OpenFor(s, d, x) by { assert InChannel(s, d); }
      DiagnosisChangesOriginal(cfg, Pop(s), d, result.decision);
    }
  }

  lemma {:induction false} EndlessDiagnoses(cfg: Config, states: nat -> State, steps: nat -> Step, i: nat)
    requires EndlessRun(cfg, states, steps) && forall j: nat :: !DiagnosisErrs(states(j), steps(j))
    ensures !DiagnosisFailed(states(i))
  {
    if i > 0 {
      EndlessDiagnoses(cfg, states, steps, i - 1);
      EndlessInv(cfg, states, steps, i - 1);
      assert StepTaken(cfg, states(i - 1), steps(i - 1), states(i - 1 + 1));
      StepKeepsDiagnoses(cfg, states(i - 1), steps(i - 1));
    }
  }

  /** If every diagnostician created by the recovery returns some output, whatever it says and
      whatever all other agents do, the run ends. */
  lemma RunsEnd(cfg: Config, states: nat -> State, steps: nat -> Step)
    requires forall j: nat :: !DiagnosisErrs(states(j), steps(j))
    ensures !EndlessRun(cfg, states, steps)
  {
    if EndlessRun(cfg, states, steps) {
      var n := EndlessRunsOnlyWait(cfg, states, steps);
      EndlessDiagnoses(cfg, states, steps, n);
    }
  }
}
