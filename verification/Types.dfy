/** The records of the workflow engine, as values: the store of the source copies
    every record on the way in and on the way out. */
module Types {

  datatype Option<+T> = None | Some(value: T)

  // Fresh UUIDs are numbered in the order in which they are drawn.
  type Id = nat

  // `Unknown` stands for every role string that ValidateRole rejects.
  datatype Role = Orchestrator | Planner | Researcher | Executor | Compliance | Diagnostician | Unknown(name: string)

  datatype TaskStatus = Pending | Blocked | Running | Completed | Failed | Recovering | Skipped

  datatype WorkflowStatus = WfPending | WfRunning | WfCompleted | WfFailed | WfCancelled

  datatype Task = Task(
    role: Role,
    status: TaskStatus,
    depth: nat,
    priority: int,
    dependsOn: seq<Id>,
    retryCount: nat,
    maxRetries: int,
    parent: Option<Id>,
    original: Option<Id>,
    cost: real)

  datatype Workflow = Workflow(
    status: WorkflowStatus,
    budgetLimit: real,
    budgetSpent: real,
    maxDepth: int,
    maxTasks: int,
    taskCount: int)

  // A planner's description of a sub-task; dependencies are indices into the same plan.
  datatype TaskSpec = TaskSpec(role: Role, dependsOn: seq<int>, priority: int)

  predicate ValidRole(role: Role) {
    !role.Unknown?
  }
}
