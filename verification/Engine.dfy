/** One workflow run of the inline scheduler, as a machine whose steps are the points at
    which goroutines can interleave. Everything the code does not decide - agent results,
    cancellation, the order of equal priorities, the order in which goroutines move - is
    in the step that is taken. */
module Engine {
  import opened Types
  import Dag

  // ---------- Configuration and agent results ----------

  datatype RecoveryConfig = RecoveryConfig(enabled: bool, allowRetry: bool, maxRetries: int, budgetPct: real)

  datatype Config = Config(maxConcurrentTasks: int, recovery: Option<RecoveryConfig>)

  function Concurrency(cfg: Config): (c: int)
    ensures c > 0
  {
    if cfg.maxConcurrentTasks > 0 then cfg.maxConcurrentTasks else 5
  }

  predicate RecoveryEnabled(cfg: Config) {
    cfg.recovery.Some? && cfg.recovery.value.enabled
  }

  // The retry limit of a task: its own, else the configured one, else 2.
  function RetryLimit(cfg: Config, t: Task): (n: int)
    ensures n > 0
  {
    if t.maxRetries > 0 then t.maxRetries
    else if cfg.recovery.Some? && cfg.recovery.value.maxRetries > 0 then cfg.recovery.value.maxRetries
    else 2
  }

  function RecoveryBudgetPct(cfg: Config): real {
    if cfg.recovery.Some? && cfg.recovery.value.budgetPct > 0.0 then cfg.recovery.value.budgetPct else 0.25
  }

  datatype Action = Retry | Escalate | Skip | Other(name: string)

  datatype Decision = Decision(action: Action, confidence: real)

  // What JSON decoding found in an answer: a task list, a recovery decision, or neither.
  datatype AgentResult = Fails | Answers(plan: Option<seq<TaskSpec>>, decision: Option<Decision>, cost: real)

  // parseRecoveryDecision after decoding: unknown actions are errors, unsure retries escalate.
  function RecoveryDecision(decision: Option<Decision>): Option<Action> {
    if decision.None? || decision.value.action.Other? then None
    else if decision.value.confidence < 0.5 && decision.value.action == Retry then Some(Escalate)
    else Some(decision.value.action)
  }

  // ---------- State ----------

  datatype Event = Started(id: Id) | Finished(id: Id) | Errored(id: Id)

  datatype Phase =
    | AtHead
    | InBatch(waiting: set<Id>, running: set<Id>, channel: seq<(Id, AgentResult)>)
    | Done

  /** `wf` is the scheduler's record, `stored` the store's. The last two fields are history:
      the starts and ends of executions, and the tasks left by plans abandoned half-way. */
  datatype State = State(
    wf: Workflow,
    stored: Workflow,
    tasks: map<Id, Task>,
    nextId: Id,
    phase: Phase,
    log: seq<Event>,
    strays: nat)

  predicate IsCompleted(tasks: map<Id, Task>, id: Id) {
    id in tasks && tasks[id].status == Completed
  }

  predicate DepsMet(tasks: map<Id, Task>, t: Task) {
    forall d :: d in t.dependsOn ==> IsCompleted(tasks, d)
  }

  predicate Queued(t: Task) {
    t.status == Pending || t.status == Blocked
  }

  function ReadySet(tasks: map<Id, Task>): set<Id> {
    set id | id in tasks && Queued(tasks[id]) && DepsMet(tasks, tasks[id])
  }

  function WithStatus(tasks: map<Id, Task>, status: TaskStatus): set<Id> {
    set id | id in tasks && tasks[id].status == status
  }

  function SetStatus(tasks: map<Id, Task>, id: Id, status: TaskStatus): map<Id, Task>
    requires id in tasks
  {
    tasks[id := tasks[id].(status := status)]
  }

  // ---------- Executing one task ----------

  function StartTask(s: State, id: Id): State
    requires s.phase.InBatch? && id in s.tasks
  {
    s.(tasks := SetStatus(s.tasks, id, Running),
       phase := s.phase.(waiting := s.phase.waiting - {id}, running := s.phase.running + {id}),
       log := s.log + [Started(id)])
  }

  function FinishTask(s: State, id: Id, result: AgentResult): State
    requires s.phase.InBatch? && id in s.tasks
  {
    var t := s.tasks[id];
    var t' := if result.Fails? then t.(status := Failed) else t.(status := Completed, cost := result.cost);
    s.(tasks := s.tasks[id := t'],
       phase := s.phase.(running := s.phase.running - {id}, channel := s.phase.channel + [(id, result)]),
       log := s.log + [if result.Fails? then Errored(id) else Finished(id)])
  }

  // ---------- Planner output ----------

  // The number of leading specs whose role is valid.
  function ValidPrefix(specs: seq<TaskSpec>): (n: nat)
    ensures n <= |specs|
    ensures forall i :: 0 <= i < n ==> ValidRole(specs[i].role)
    ensures n < |specs| ==> !ValidRole(specs[n].role)
  {
    if specs == [] || !ValidRole(specs[0].role) then 0 else ValidPrefix(specs[1..]) + 1
  }

  // The id drawn for index d of a plan (accepted plans have no negative index).
  function PlanId(base: Id, d: int): Id {
    if d < 0 then base else base + d
  }

  function ResolvedDeps(deps: seq<int>, base: Id): (ids: seq<Id>)
    ensures |ids| == |deps|
    ensures forall k :: 0 <= k < |deps| ==> ids[k] == PlanId(base, deps[k])
  {
    if deps == [] then [] else [PlanId(base, deps[0])] + ResolvedDeps(deps[1..], base)
  }

  function PlannedTask(spec: TaskSpec, base: Id, planner: Id, depth: nat): Task {
    Task(spec.role, Pending, depth, spec.priority, ResolvedDeps(spec.dependsOn, base), 0, 0, Some(planner), None, 0.0)
  }

  // The store after the first `count` tasks of a plan have been created.
  function AddPlanned(tasks: map<Id, Task>, specs: seq<TaskSpec>, count: nat, base: Id, planner: Id, depth: nat): map<Id, Task>
    requires count <= |specs|
  {
    if count == 0 then tasks
    else AddPlanned(tasks, specs, count - 1, base, planner, depth)[
           base + count - 1 := PlannedTask(specs[count - 1], base, planner, depth)]
  }

  ghost predicate PlanAccepted(s: State, planner: Id, plan: Option<seq<TaskSpec>>)
    requires planner in s.tasks
  {
    && plan.Some? && |plan.value| > 0
    && Dag.ValidPlan(plan.value)
    && s.wf.taskCount + |plan.value| <= s.wf.maxTasks
    && s.tasks[planner].depth + 1 < s.wf.maxDepth
  }

  /** Creates the tasks of an accepted plan. A spec with an unknown role stops the loop: the
      tasks before it stay, and the workflow's task count is not raised. */
  ghost function HandlePlan(s: State, planner: Id, plan: Option<seq<TaskSpec>>): State
    requires planner in s.tasks
  {
    if !PlanAccepted(s, planner, plan) then s
    else
      var specs := plan.value;
      var count := ValidPrefix(specs);
      var s1 := s.(
        tasks := AddPlanned(s.tasks, specs, count, s.nextId, planner, s.tasks[planner].depth + 1),
        nextId := s.nextId + |specs|);
      if count == |specs| then
        var wf := s.wf.(taskCount := s.wf.taskCount + |specs|);
        s1.(wf := wf, stored := wf)
      else
        s1.(strays := s.strays + count)
  }

  // ---------- Recovery ----------

  // The cost of every diagnostician task with a number below n.
  function RecoverySpent(tasks: map<Id, Task>, n: nat): real {
    if n == 0 then 0.0
    else RecoverySpent(tasks, n - 1) +
         if n - 1 in tasks && tasks[n - 1].role == Diagnostician then tasks[n - 1].cost else 0.0
  }

  predicate Eligible(cfg: Config, s: State, id: Id)
    requires id in s.tasks
  {
    && RecoveryEnabled(cfg)
    && s.tasks[id].status == Failed
    && s.tasks[id].retryCount < RetryLimit(cfg, s.tasks[id])
    && (var budget := s.wf.budgetLimit * RecoveryBudgetPct(cfg);
        budget > 0.0 ==> RecoverySpent(s.tasks, s.nextId) < budget)
    && s.tasks[id].depth + 1 < s.wf.maxDepth
    && s.wf.taskCount + 1 <= s.wf.maxTasks
  }

  function DiagnosticianFor(t: Task, id: Id): Task {
    Task(Diagnostician, Pending, t.depth + 1, 0, [], 0, 0, t.parent, Some(id), 0.0)
  }

  function RecoverOne(cfg: Config, s: State, id: Id): State
    requires id in s.tasks
  {
    if !Eligible(cfg, s, id) then s
    else
      var wf := s.wf.(taskCount := s.wf.taskCount + 1);
      s.(tasks := SetStatus(s.tasks, id, Recovering)[s.nextId := DiagnosticianFor(s.tasks[id], id)],
         nextId := s.nextId + 1, wf := wf, stored := wf)
  }

  function RecoverAll(cfg: Config, s: State, order: seq<Id>): State
    requires forall id :: id in order ==> id in s.tasks
    decreases |order|
  {
    if order == [] then s else RecoverAll(cfg, RecoverOne(cfg, s, order[0]), order[1..])
  }

  function HandleDiagnosis(cfg: Config, s: State, diag: Id, decision: Option<Decision>): State
    requires diag in s.tasks
  {
    var original := s.tasks[diag].original;
    if original.None? || original.value !in s.tasks then s
    else
      var x := original.value;
      match RecoveryDecision(decision)
      case Some(Retry) =>
        if cfg.recovery.Some? && !cfg.recovery.value.allowRetry then s.(tasks := SetStatus(s.tasks, x, Failed))
        else s.(tasks := s.tasks[x := s.tasks[x].(status := Pending, retryCount := s.tasks[x].retryCount + 1)])
      case Some(Skip) => s.(tasks := SetStatus(s.tasks, x, Skipped))
      case _ => s.(tasks := SetStatus(s.tasks, x, Failed))
  }

  // ---------- The main goroutine ----------

  ghost function ReceiveResult(cfg: Config, s: State): State
    requires s.phase.InBatch? && |s.phase.channel| > 0 && s.phase.channel[0].0 in s.tasks
  {
    var (id, result) := s.phase.channel[0];
    var s0 := s.(phase := s.phase.(channel := s.phase.channel[1..]));
    if result.Fails? then s0
    else
      var role := s.tasks[id].role;
      var s1 := if role == Planner then HandlePlan(s0, id, result.plan)
                else if role == Diagnostician then HandleDiagnosis(cfg, s0, id, result.decision)
                else s0;
      s1.(wf := s1.wf.(budgetSpent := s1.wf.budgetSpent + result.cost))
  }

  function FinishWorkflow(s: State, status: WorkflowStatus): State {
    var wf := s.wf.(status := status);
    s.(wf := wf, stored := wf, phase := Done)
  }

  predicate OverBudget(wf: Workflow) {
    wf.budgetLimit > 0.0 && wf.budgetSpent > wf.budgetLimit
  }

  // Refreshing the record drops whatever spend was only added in memory.
  function CloseBatch(s: State): State {
    var s1 := s.(wf := s.stored);
    if OverBudget(s1.wf) then FinishWorkflow(s1, WfFailed) else s1.(phase := AtHead)
  }

  function SkipQueued(tasks: map<Id, Task>): map<Id, Task> {
    map id | id in tasks :: if Queued(tasks[id]) then tasks[id].(status := Skipped) else tasks[id]
  }

  function CancelWorkflow(s: State): State {
    FinishWorkflow(s.(tasks := SkipQueued(s.tasks)), WfCancelled)
  }

  function Verdict(tasks: map<Id, Task>): WorkflowStatus {
    if WithStatus(tasks, Failed) != {} then WfFailed else WfCompleted
  }

  // ---------- Steps ----------

  datatype Step =
    | Cancel
    | Wait
    | Dispatch(batch: seq<Id>)
    | Start(id: Id)
    | Finish(id: Id, result: AgentResult)
    | Receive
    | EndBatch
    | Recover(order: seq<Id>)
    | Conclude

  function Elements(ids: seq<Id>): set<Id> {
    set id | id in ids
  }

  ghost predicate NoDuplicates(ids: seq<Id>) {
    forall i, j :: 0 <= i < j < |ids| ==> ids[i] != ids[j]
  }

  ghost predicate Enumerates(ids: seq<Id>, all: set<Id>) {
    NoDuplicates(ids) && forall id :: id in ids <==> id in all
  }

  ghost predicate PrioritySorted(tasks: map<Id, Task>, ids: seq<Id>) {
    && (forall i :: 0 <= i < |ids| ==> ids[i] in tasks)
    && forall i, j :: 0 <= i < j < |ids| ==> tasks[ids[i]].priority <= tasks[ids[j]].priority
  }

  // The batch is the front of a priority-sorted list of all ready tasks.
  ghost predicate IsBatch(cfg: Config, s: State, batch: seq<Id>) {
    exists order :: BatchOf(cfg, s, order, batch)
  }

  ghost predicate BatchOf(cfg: Config, s: State, order: seq<Id>, batch: seq<Id>) {
    var slots := Slots(cfg, s);
    && Enumerates(order, ReadySet(s.tasks)) && PrioritySorted(s.tasks, order)
    && slots > 0
    && batch == if |order| > slots then order[..slots] else order
  }

  function Slots(cfg: Config, s: State): int {
    Concurrency(cfg) - |WithStatus(s.tasks, Running)|
  }

  predicate Quiet(s: State) {
    ReadySet(s.tasks) == {} && WithStatus(s.tasks, Running) == {} && WithStatus(s.tasks, Recovering) == {}
  }

  predicate CanRecover(cfg: Config, s: State) {
    exists id :: id in s.tasks && Eligible(cfg, s, id)
  }

  ghost predicate Enabled(cfg: Config, s: State, step: Step) {
    match step
    case Cancel => s.phase.AtHead?
    case Wait =>
      s.phase.AtHead? &&
      if ReadySet(s.tasks) == {} then !Quiet(s) else Slots(cfg, s) <= 0
    case Dispatch(batch) => s.phase.AtHead? && ReadySet(s.tasks) != {} && IsBatch(cfg, s, batch)
    case Start(id) => s.phase.InBatch? && id in s.phase.waiting && id in s.tasks
    case Finish(id, _) => s.phase.InBatch? && id in s.phase.running && id in s.tasks
    case Receive => s.phase.InBatch? && |s.phase.channel| > 0 && s.phase.channel[0].0 in s.tasks
    case EndBatch => s.phase == InBatch({}, {}, [])
    case Recover(order) =>
      s.phase.AtHead? && Quiet(s) && CanRecover(cfg, s) && Enumerates(order, WithStatus(s.tasks, Failed))
    case Conclude => s.phase.AtHead? && Quiet(s) && !CanRecover(cfg, s)
  }

  ghost function Apply(cfg: Config, s: State, step: Step): State
    requires Enabled(cfg, s, step)
  {
    match step
    case Cancel => CancelWorkflow(s)
    case Wait => s
    case Dispatch(batch) => s.(phase := InBatch(Elements(batch), {}, []))
    case Start(id) => StartTask(s, id)
    case Finish(id, result) => FinishTask(s, id, result)
    case Receive => ReceiveResult(cfg, s)
    case EndBatch => CloseBatch(s)
    case Recover(order) => RecoverAll(cfg, s, order)
    case Conclude => FinishWorkflow(s, Verdict(s.tasks))
  }

  // ---------- Runs ----------

  // What Submit hands to the scheduler: limits with defaults applied and one planner task.
  ghost predicate Initial(s: State) {
    && s.wf.maxDepth >= 1 && s.wf.maxTasks >= 1
    && s.wf.taskCount == 1 && s.wf.status == WfRunning && s.wf.budgetSpent == 0.0 && s.wf.budgetLimit > 0.0
    && s.stored == s.wf
    && s.tasks == map[0 := Task(Planner, Pending, 0, 0, [], 0, 0, None, None, 0.0)]
    && s.nextId == 1 && s.phase == AtHead && s.log == [] && s.strays == 0
  }

  ghost predicate IsRun(cfg: Config, states: seq<State>, steps: seq<Step>) {
    && |states| == |steps| + 1
    && Initial(states[0])
    && forall i :: 0 <= i < |steps| ==> StepTaken(cfg, states[i], steps[i], states[i + 1])
  }

  ghost predicate StepTaken(cfg: Config, s: State, step: Step, s': State) {
    Enabled(cfg, s, step) && s' == Apply(cfg, s, step)
  }
}
