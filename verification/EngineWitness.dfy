/** Runs that show what the theorems about waiting and leftovers are about: both can happen to a
    workflow fresh from Submit. */
module EngineWitness {
  import opened Types
  import opened Engine
  import EngineSafety
  import EngineTermination
  import Dag

  // ---------- Extending a run ----------

  lemma Extend(cfg: Config, states: seq<State>, steps: seq<Step>, step: Step)
    requires IsRun(cfg, states, steps) && Enabled(cfg, states[|steps|], step)
    ensures IsRun(cfg, states + [Apply(cfg, states[|steps|], step)], steps + [step])
  {
    hide Enabled;
    hide Apply;
    var ss, es := states + [Apply(cfg, states[|steps|], step)], steps + [step];
    forall i | 0 <= i < |es| ensures StepTaken(cfg, ss[i], es[i], ss[i + 1]) {
      if i < |steps| {
        assert StepTaken(cfg, states[i], steps[i], states[i + 1]);
      }
    }
  }

  // A batch of one task, from the dispatch to the closing.
  ghost function Started1(s: State, id: Id): State
    requires id in s.tasks
  {
    StartTask(s.(phase := InBatch({id}, {}, [])), id)
  }

  ghost function Finished1(s: State, id: Id, result: AgentResult): State
    requires id in s.tasks
  {
    FinishTask(Started1(s, id), id, result)
  }

  ghost function AfterRound(cfg: Config, s: State, id: Id, result: AgentResult): State
    requires id in s.tasks
  {
    CloseBatch(ReceiveResult(cfg, Finished1(s, id, result)))
  }

  // The only ready task.
  ghost predicate OnlyReady(s: State, id: Id) {
    s.phase.AtHead? && id in s.tasks && ReadySet(s.tasks) == {id} && WithStatus(s.tasks, Running) == {}
  }

  lemma CanDispatch(cfg: Config, s: State, id: Id)
    requires OnlyReady(s, id)
    ensures Enabled(cfg, s, Dispatch([id])) && Apply(cfg, s, Dispatch([id])) == s.(phase := InBatch({id}, {}, []))
  {
    assert BatchOf(cfg, s, [id], [id]);
    assert Elements([id]) == {id};
  }

  lemma CanStart(cfg: Config, s: State, id: Id)
    requires id in s.tasks
    ensures var s1 := s.(phase := InBatch({id}, {}, [])); Enabled(cfg, s1, Start(id)) && Apply(cfg, s1, Start(id)) == Started1(s, id)
    ensures Started1(s, id).phase == InBatch({}, {id}, [])
  {
  }

  lemma CanFinish(cfg: Config, s: State, id: Id, result: AgentResult)
    requires id in s.tasks && Started1(s, id).phase == InBatch({}, {id}, [])
    ensures Enabled(cfg, Started1(s, id), Finish(id, result))
    ensures Apply(cfg, Started1(s, id), Finish(id, result)) == Finished1(s, id, result)
    ensures Finished1(s, id, result).phase == InBatch({}, {}, [(id, result)]) && id in Finished1(s, id, result).tasks
  {
  }

  lemma CanReceive(cfg: Config, s: State, id: Id, result: AgentResult)
    requires s.phase == InBatch({}, {}, [(id, result)]) && id in s.tasks
    ensures Enabled(cfg, s, Receive) && Apply(cfg, s, Receive) == ReceiveResult(cfg, s)
    ensures Enabled(cfg, ReceiveResult(cfg, s), EndBatch)
    ensures Apply(cfg, ReceiveResult(cfg, s), EndBatch) == CloseBatch(ReceiveResult(cfg, s))
  {
    EngineSafety.ReceivePhase(cfg, s);
    hide ReceiveResult;
    assert [(id, result)][1..] == [];
  }

  lemma Round(cfg: Config, states: seq<State>, steps: seq<Step>, id: Id, result: AgentResult)
      returns (ss: seq<State>, es: seq<Step>)
    requires IsRun(cfg, states, steps) && OnlyReady(states[|steps|], id)
    ensures IsRun(cfg, ss, es) && ss[0] == states[0] && ss[|es|] == AfterRound(cfg, states[|steps|], id, result)
  {
    var s := states[|steps|];
    CanDispatch(cfg, s, id);
    CanStart(cfg, s, id);
    CanFinish(cfg, s, id, result);
    var s1, s2, s3 := s.(phase := InBatch({id}, {}, [])), Started1(s, id), Finished1(s, id, result);
    CanReceive(cfg, s3, id, result);
    hide Enabled;
    hide Apply;
    hide Started1;
    hide Finished1;
    hide ReceiveResult;
    Extend(cfg, states, steps, Dispatch([id]));
    ss, es := states + [s1], steps + [Dispatch([id])];
    Extend(cfg, ss, es, Start(id));
    ss, es := ss + [s2], es + [Start(id)];
    Extend(cfg, ss, es, Finish(id, result));
    ss, es := ss + [s3], es + [Finish(id, result)];
    Extend(cfg, ss, es, Receive);
    ss, es := ss + [ReceiveResult(cfg, s3)], es + [Receive];
    Extend(cfg, ss, es, EndBatch);
    ss, es := ss + [CloseBatch(ReceiveResult(cfg, s3))], es + [EndBatch];
  }

  // ---------- The configuration and the start ----------

  function Demo(): Config {
    Config(5, Some(RecoveryConfig(true, true, 2, 0.25)))
  }

  const Root: Task := Task(Planner, Pending, 0, 0, [], 0, 0, None, None, 0.0)

  function At(count: int, tasks: map<Id, Task>, nextId: Id, log: seq<Event>): State {
    var wf := Workflow(WfRunning, 1.0, 0.0, 5, 50, count);
    State(wf, wf, tasks, nextId, AtHead, log, 0)
  }

  lemma Fresh()
    ensures IsRun(Demo(), [At(1, map[0 := Root], 1, [])], [])
  {
  }

  // A task that fails, with nothing else ready.
  lemma FailingRound(count: int, tasks: map<Id, Task>, nextId: Id, log: seq<Event>, id: Id)
    requires id in tasks
    ensures AfterRound(Demo(), At(count, tasks, nextId, log), id, Fails)
            == At(count, tasks[id := tasks[id].(status := Failed)], nextId, log + [Started(id)] + [Errored(id)])
  {
  }

  // One failed task that may be recovered, and nothing else to do.
  lemma RecoveringStep(count: int, tasks: map<Id, Task>, nextId: Id, log: seq<Event>, id: Id)
    requires id in tasks && WithStatus(tasks, Failed) == {id} && Quiet(At(count, tasks, nextId, log))
    requires tasks[id].retryCount == 0 && tasks[id].maxRetries == 0 && tasks[id].depth < 4 && count < 50
    requires RecoverySpent(tasks, nextId) < 0.25
    ensures var s := At(count, tasks, nextId, log);
      && Enabled(Demo(), s, Recover([id]))
      && Apply(Demo(), s, Recover([id])) ==
           At(count + 1, SetStatus(tasks, id, Recovering)[nextId := DiagnosticianFor(tasks[id], id)], nextId + 1, log)
  {
    var s := At(count, tasks, nextId, log);
    hide RecoverySpent;
    assert s.wf.budgetLimit * RecoveryBudgetPct(Demo()) == 0.25;
    assert Eligible(Demo(), s, id);
    assert [id][1..] == [];
    assert RecoverAll(Demo(), s, [id]) == RecoverOne(Demo(), s, id);
  }

  // ---------- A run that never ends ----------

  const RootDiagnosis: Task := Task(Diagnostician, Pending, 1, 0, [], 0, 0, None, Some(0), 0.0)

  const RootFailed: map<Id, Task> := map[0 := Root.(status := Failed)]

  const RootRecovering: map<Id, Task> := map[0 := Root.(status := Recovering), 1 := RootDiagnosis]

  const Stuck: map<Id, Task> := map[0 := Root.(status := Recovering), 1 := RootDiagnosis.(status := Failed)]

  lemma RootTables(log: seq<Event>)
    ensures OnlyReady(At(1, map[0 := Root], 1, []), 0)
    ensures (map[0 := Root])[0 := Root.(status := Failed)] == RootFailed
    ensures WithStatus(RootFailed, Failed) == {0} && Quiet(At(1, RootFailed, 1, log)) && RecoverySpent(RootFailed, 1) == 0.0
    ensures SetStatus(RootFailed, 0, Recovering)[1 := DiagnosticianFor(RootFailed[0], 0)] == RootRecovering
  {
    assert RecoverySpent(RootFailed, 0) == 0.0;
  }

  lemma StuckTables(log: seq<Event>)
    ensures OnlyReady(At(2, RootRecovering, 2, log), 1)
    ensures RootRecovering[1 := RootDiagnosis.(status := Failed)] == Stuck
    ensures Enabled(Demo(), At(2, Stuck, 2, log), Wait)
  {
    assert 0 in WithStatus(Stuck, Recovering);
  }

  lemma RecoverRoot() returns (ss: seq<State>, es: seq<Step>, log: seq<Event>)
    ensures IsRun(Demo(), ss, es) && ss[|es|] == At(2, RootRecovering, 2, log)
  {
    Fresh();
    log := [] + [Started(0)] + [Errored(0)];
    RootTables(log);
    hide OnlyReady;
    hide AfterRound;
    hide RecoverySpent;
    ss, es := Round(Demo(), [At(1, map[0 := Root], 1, [])], [], 0, Fails);
    FailingRound(1, map[0 := Root], 1, [], 0);
    RecoveringStep(1, RootFailed, 1, log, 0);
    hide Enabled;
    hide Apply;
    hide Quiet;
    Extend(Demo(), ss, es, Recover([0]));
    ss, es := ss + [At(2, RootRecovering, 2, log)], es + [Recover([0])];
  }

  /** The planner fails, its recovery starts, the diagnostician fails too: from then on the loop
      waits. So `EndlessRunsOnlyWait` is about runs that exist. */
  lemma EndlessRunExists() returns (states: nat -> State, steps: nat -> Step)
    ensures EngineTermination.EndlessRun(Demo(), states, steps)
  {
    var ss, es, log := RecoverRoot();
    StuckTables(log);
    StuckTables(log + [Started(1)] + [Errored(1)]);
    hide OnlyReady;
    hide AfterRound;
    hide Enabled;
    ss, es := Round(Demo(), ss, es, 1, Fails);
    FailingRound(2, RootRecovering, 2, log, 1);
    states, steps := WaitOn(Demo(), ss, es);
  }

  // A run whose last state waits goes on waiting.
  lemma WaitOn(cfg: Config, ss: seq<State>, es: seq<Step>) returns (states: nat -> State, steps: nat -> Step)
    requires IsRun(cfg, ss, es) && Enabled(cfg, ss[|es|], Wait)
    ensures EngineTermination.EndlessRun(cfg, states, steps)
  {
    states := (n: nat) => if n < |ss| then ss[n] else ss[|ss| - 1];
    steps := (n: nat) => if n < |es| then es[n] else Wait;
    forall n: nat ensures StepTaken(cfg, states(n), steps(n), states(n + 1)) {
      if n < |es| {
        assert StepTaken(cfg, ss[n], es[n], ss[n + 1]);
      }
    }
  }

  // ---------- A run that completes with a task left pending ----------

  const Plan: seq<TaskSpec> := [TaskSpec(Executor, [], 0), TaskSpec(Executor, [0], 0)]

  const First: Task := Task(Executor, Pending, 1, 0, [], 0, 0, Some(0), None, 0.0)

  const Second: Task := Task(Executor, Pending, 1, 0, [1], 0, 0, Some(0), None, 0.0)

  const FirstDiagnosis: Task := Task(Diagnostician, Pending, 2, 0, [], 0, 0, Some(0), Some(1), 0.0)

  lemma PlanIsValid()
    ensures Dag.ValidPlan(Plan)
  {
    assert Plan[0].dependsOn == [] && Plan[1].dependsOn == [0];
    forall i, j | Dag.Edge(Plan, i, j) ensures i == 1 && j == 0 {
    }
    assert Dag.WellFormed(Plan);
    Dag.RankExcludesCycles(Plan, [0, 1]);
  }

  lemma PlanTasks(tasks: map<Id, Task>)
    ensures AddPlanned(tasks, Plan, 2, 1, 0, 1) == tasks[1 := First][2 := Second]
  {
    assert PlannedTask(Plan[0], 1, 0, 1) == First;
    assert ResolvedDeps([0], 1) == [1];
    assert PlannedTask(Plan[1], 1, 0, 1) == Second;
    var one := AddPlanned(tasks, Plan, 1, 1, 0, 1);
    assert one == AddPlanned(tasks, Plan, 0, 1, 0, 1)[1 := First];
    assert AddPlanned(tasks, Plan, 2, 1, 0, 1) == one[2 := Second];
  }

  const Planned: map<Id, Task> := map[0 := Root.(status := Completed), 1 := First, 2 := Second]

  lemma PlanningRound()
    ensures AfterRound(Demo(), At(1, map[0 := Root], 1, []), 0, Answers(Some(Plan), None, 0.0))
            == At(3, Planned, 3, [] + [Started(0)] + [Finished(0)])
  {
    var s, result := At(1, map[0 := Root], 1, []), Answers(Some(Plan), None, 0.0);
    var s3 := Finished1(s, 0, result);
    var done := map[0 := Root.(status := Completed)];
    assert s3.tasks == done;
    var s4 := s3.(phase := s3.phase.(channel := []));
    assert [(0, result)][1..] == [];
    PlanIsValid();
    assert PlanAccepted(s4, 0, Some(Plan));
    assert ValidPrefix(Plan) == 2;
    PlanTasks(done);
    assert done[1 := First][2 := Second] == Planned;
    hide AddPlanned;
    hide ValidPrefix;
    var s5 := HandlePlan(s4, 0, Some(Plan));
    assert s5 == s4.(tasks := Planned, nextId := 3, wf := s.wf.(taskCount := 3), stored := s.wf.(taskCount := 3));
  }

  // The diagnostician decides to skip the task it was created for.
  lemma SkippingRound(count: int, tasks: map<Id, Task>, nextId: Id, log: seq<Event>, d: Id, x: Id)
    requires d in tasks && x in tasks && d != x && tasks[d].role == Diagnostician && tasks[d].original == Some(x) && tasks[d].cost == 0.0
    ensures AfterRound(Demo(), At(count, tasks, nextId, log), d, Answers(None, Some(Decision(Skip, 1.0)), 0.0))
            == At(count, tasks[d := tasks[d].(status := Completed)][x := tasks[x].(status := Skipped)], nextId,
                  log + [Started(d)] + [Finished(d)])
  {
    var result := Answers(None, Some(Decision(Skip, 1.0)), 0.0);
    assert [(d, result)][1..] == [];
  }

  const Leftover: map<Id, Task> := map[
    0 := Root.(status := Completed), 1 := First.(status := Skipped), 2 := Second, 3 := FirstDiagnosis.(status := Completed)]

  /** A task fails, its recovery decides to skip it, and the task that depends on it stays pending
      in a workflow that is reported completed. */
  lemma CompletedWithLeftover() returns (states: seq<State>, steps: seq<Step>)
    ensures IsRun(Demo(), states, steps)
    ensures states[|steps|].phase.Done? && states[|steps|].stored.status == WfCompleted
    ensures 2 in states[|steps|].tasks && states[|steps|].tasks[2].status == Pending
  {
    Fresh();
    RootTables([]);
    hide OnlyReady;
    hide AfterRound;
    var ss, es := Round(Demo(), [At(1, map[0 := Root], 1, [])], [], 0, Answers(Some(Plan), None, 0.0));
    PlanningRound();
    var log := [] + [Started(0)] + [Finished(0)];
    ss, es := FailFirst(ss, es, log);
    var log1 := log + [Started(1)] + [Errored(1)];
    ss, es := SkipFirst(ss, es, log1);
    var s := At(4, Leftover, 4, log1 + [Started(3)] + [Finished(3)]);
    NothingLeft(s);
    Extend(Demo(), ss, es, Conclude);
    states, steps := ss + [Apply(Demo(), s, Conclude)], es + [Conclude];
  }

  const Failing: map<Id, Task> := Planned[1 := First.(status := Failed)]

  lemma FailFirst(states: seq<State>, steps: seq<Step>, log: seq<Event>) returns (ss: seq<State>, es: seq<Step>)
    requires IsRun(Demo(), states, steps) && states[|steps|] == At(3, Planned, 3, log)
    ensures IsRun(Demo(), ss, es) && ss[|es|] == At(3, Failing, 3, log + [Started(1)] + [Errored(1)])
  {
    assert !IsCompleted(Planned, 1) && Second.dependsOn[0] == 1;
    assert OnlyReady(At(3, Planned, 3, log), 1);
    ss, es := Round(Demo(), states, steps, 1, Fails);
    FailingRound(3, Planned, 3, log, 1);
  }

  const Recovered: map<Id, Task> := Planned[1 := First.(status := Recovering)][3 := FirstDiagnosis]

  lemma FailingIsQuiet(log: seq<Event>)
    ensures WithStatus(Failing, Failed) == {1} && Quiet(At(3, Failing, 3, log))
  {
    assert !IsCompleted(Failing, 1) && Second.dependsOn[0] == 1;
  }

  lemma DiagnosisIsReady(log: seq<Event>)
    ensures OnlyReady(At(4, Recovered, 4, log), 3)
  {
    assert !IsCompleted(Recovered, 1) && Second.dependsOn[0] == 1;
  }

  lemma RecoveredTasks()
    ensures SetStatus(Failing, 1, Recovering)[3 := DiagnosticianFor(Failing[1], 1)] == Recovered
    ensures Recovered[3 := FirstDiagnosis.(status := Completed)][1 := First.(status := Skipped)] == Leftover
  {
  }

  lemma StartRecovery(states: seq<State>, steps: seq<Step>, log: seq<Event>) returns (ss: seq<State>, es: seq<Step>)
    requires IsRun(Demo(), states, steps) && states[|steps|] == At(3, Failing, 3, log)
    ensures IsRun(Demo(), ss, es) && ss[|es|] == At(4, Recovered, 4, log)
  {
    FailingIsQuiet(log);
    NothingSpent();
    RecoveredTasks();
    RecoveringStep(3, Failing, 3, log, 1);
    hide Enabled;
    hide Apply;
    Extend(Demo(), states, steps, Recover([1]));
    ss, es := states + [At(4, Recovered, 4, log)], steps + [Recover([1])];
  }

  lemma SkipFirst(states: seq<State>, steps: seq<Step>, log: seq<Event>) returns (ss: seq<State>, es: seq<Step>)
    requires IsRun(Demo(), states, steps) && states[|steps|] == At(3, Failing, 3, log)
    ensures IsRun(Demo(), ss, es) && ss[|es|] == At(4, Leftover, 4, log + [Started(3)] + [Finished(3)])
  {
    ss, es := StartRecovery(states, steps, log);
    DiagnosisIsReady(log);
    hide OnlyReady;
    hide AfterRound;
    ss, es := Round(Demo(), ss, es, 3, Answers(None, Some(Decision(Skip, 1.0)), 0.0));
    SkippingRound(4, Recovered, 4, log, 3, 1);
    RecoveredTasks();
  }

  lemma NothingSpent()
    ensures RecoverySpent(Failing, 3) == 0.0
  {
    assert RecoverySpent(Failing, 1) == 0.0;
    assert RecoverySpent(Failing, 2) == 0.0;
  }

  lemma NothingLeft(s: State)
    requires s.tasks == Leftover && s.phase.AtHead?
    ensures Enabled(Demo(), s, Conclude) && Verdict(s.tasks) == WfCompleted
  {
    assert !IsCompleted(Leftover, 1) && Second.dependsOn[0] == 1;
    assert WithStatus(Leftover, Failed) == {};
  }
}
