/** The per-user project-control document: tasks, projects, phase attempts and tool runs,
    with the lookups that every operation of the server starts from. */
module ProjectState {

  import opened Basics

  /** Only an explicit agent origin waits for a human dispatch decision. */
  datatype Origin = Human | Agent

  datatype TaskState =
    | Planned | Queued | Running | WaitingReview | WaitingHuman | Blocked | Failed
    | ExecutionComplete | Archived | Cancelled

  datatype Dispatch = Undispatched | AwaitingApproval | Ready | Claimed | Released | Done

  /** Takeover mode of a managed project. */
  datatype Mode = Manual | Active | Paused

  datatype Stage =
    | Delegated | Reconnaissance | Planning | AwaitingConfirmation | Executing
    | AwaitingAcceptance | Completed | Stalled

  datatype MilestoneStatus = Todo | Current | Finished

  datatype Milestone = Milestone(id: string, name: string, evidence: string, status: MilestoneStatus)

  /** stage Stalled is the source's "blocked"; previous is the stage to return to. */
  datatype Lifecycle = Lifecycle(stage: Stage, previous: Option<Stage>, milestone: string)

  datatype Project = Project(
    id: string, mode: Mode, lifecycle: Lifecycle, milestones: seq<Milestone>, rowVersion: nat)

  datatype Task = Task(
    id: string, project: string, milestone: string, dependsOn: seq<string>, command: seq<string>,
    baseline: string, passed: bool, failures: nat, pauseReason: string, origin: Origin,
    state: TaskState, dispatch: Dispatch, runtime: string, highRisk: bool, phase: string,
    rowVersion: nat)

  datatype AttemptStatus = AttemptRunning | AttemptCompleted | AttemptFailed

  datatype Attempt = Attempt(
    id: string, task: string, phase: string, status: AttemptStatus, artifacts: seq<string>,
    stamp: int)

  datatype RunStatus = RunRunning | RunWaiting | RunCompleted | RunFailed | RunCancelled

  datatype ToolRun = ToolRun(
    id: string, task: string, attempt: string, phase: string, status: RunStatus,
    artifact: string, retries: nat, maxRetries: nat, stamp: int)

  datatype Document = Document(
    projects: seq<Project>, tasks: seq<Task>, attempts: seq<Attempt>, runs: seq<ToolRun>)

  /** First task with the given id, in stored order. */
  function FindTask(tasks: seq<Task>, id: string): (r: Option<Task>)
    ensures r.Some? ==> r.value in tasks && r.value.id == id
    ensures r.None? ==> forall x | x in tasks :: x.id != id
  {
    if tasks == [] then None
    else if tasks[0].id == id then Some(tasks[0])
    else
      FindTask(tasks[1..], id)
  }

  /** First project with the given id, in stored order. */
  function FindProject(projects: seq<Project>, id: string): (r: Option<Project>)
    ensures r.Some? ==> r.value in projects && r.value.id == id
    ensures r.None? ==> forall x | x in projects :: x.id != id
  {
    if projects == [] then None
    else if projects[0].id == id then Some(projects[0])
    else
      FindProject(projects[1..], id)
  }

  ghost predicate UniqueTaskIds(tasks: seq<Task>) {
    forall i, j | 0 <= i < j < |tasks| :: tasks[i].id != tasks[j].id
  }

  ghost predicate UniqueProjectIds(projects: seq<Project>) {
    forall i, j | 0 <= i < j < |projects| :: projects[i].id != projects[j].id
  }

  /** With distinct ids the stored-order lookup finds the one task carrying the id. */
  lemma {:induction false} FindTaskAt(tasks: seq<Task>, i: nat)
    requires UniqueTaskIds(tasks) && i < |tasks|
    ensures FindTask(tasks, tasks[i].id) == Some(tasks[i])
  {
    if i > 0 {
      assert tasks[0].id != tasks[i].id;
      FindTaskAt(tasks[1..], i - 1);
    }
  }

  lemma {:induction false} FindProjectAt(projects: seq<Project>, i: nat)
    requires UniqueProjectIds(projects) && i < |projects|
    ensures FindProject(projects, projects[i].id) == Some(projects[i])
  {
    if i > 0 {
      assert projects[0].id != projects[i].id;
      FindProjectAt(projects[1..], i - 1);
    }
  }

  /** Appending a task with a new id finds that task and leaves every other lookup alone. */
  lemma {:induction false} FindTaskAppend(tasks: seq<Task>, t: Task, id: string)
    ensures FindTask(tasks + [t], id) ==
            if FindTask(tasks, id).Some? then FindTask(tasks, id)
            else if t.id == id then Some(t) else None
  {
    if tasks != [] {
      assert (tasks + [t])[1..] == tasks[1..] + [t];
      FindTaskAppend(tasks[1..], t, id);
    }
  }
}
