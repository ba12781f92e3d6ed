/** The project lifecycle, milestones and takeover control: the operations a human or an
    agent has on a project, and what any run of them preserves. */
module Takeover {
  import opened Basics
  import opened ProjectState
  import opened TaskContract
  import opened Pause

  // ---------------------------------------------------------------- milestones

  function Rank(m: Milestone): nat {
    match m.status case Finished => 0 case Current => 1 case Todo => 2
  }

  /** Finished milestones with evidence, then at most one current one, then the rest. */
  ghost predicate ValidUpTo(ms: seq<Milestone>, n: nat)
    requires n <= |ms|
  {
    && (forall i | 0 <= i < n ::
         !Blank(ms[i].id) && !Blank(ms[i].name) && (ms[i].status == Finished ==> !Blank(ms[i].evidence)))
    && (forall i, j | 0 <= i < j < n :: ms[i].id != ms[j].id)
    && (forall i, j | 0 <= i < j < n ::
         Rank(ms[i]) <= Rank(ms[j]) && (ms[i].status == Current ==> ms[j].status == Todo))
  }

  ghost predicate MilestonesValid(ms: seq<Milestone>) {
    ValidUpTo(ms, |ms|)
  }

  predicate Fits(ms: seq<Milestone>, n: nat)
    requires n < |ms|
  {
    && !Blank(ms[n].id) && !Blank(ms[n].name) && (ms[n].status == Finished ==> !Blank(ms[n].evidence))
    && (forall k | 0 <= k < n :: ms[k].id != ms[n].id)
    && (forall k | 0 <= k < n :: Rank(ms[k]) <= Rank(ms[n]) && (ms[k].status == Current ==> ms[n].status == Todo))
  }

  lemma {:induction false} ValidIsEachFits(ms: seq<Milestone>, n: nat)
    requires n <= |ms|
    ensures ValidUpTo(ms, n) <==> forall k | 0 <= k < n :: Fits(ms, k)
  {
    if n > 0 {
      ValidIsEachFits(ms, n - 1);
      assert ValidUpTo(ms, n) <==> ValidUpTo(ms, n - 1) && Fits(ms, n - 1);
    }
  }

  method ValidateMilestones(ms: seq<Milestone>) returns (ok: bool)
    ensures ok <==> MilestonesValid(ms)
  {
    ValidIsEachFits(ms, |ms|);
    var seen: set<string> := {};
    var current, todo := 0, false;
    for i := 0 to |ms|
      invariant forall k | 0 <= k < i :: Fits(ms, k)
      invariant seen == set k | 0 <= k < i :: ms[k].id
      invariant todo <==> exists k | 0 <= k < i :: ms[k].status == Todo
      invariant current == 1 <==> exists k | 0 <= k < i :: ms[k].status == Current
      invariant 0 <= current <= 1
    {
      var m := ms[i];
      if Blank(m.id) || Blank(m.name) || m.id in seen {
        return false;
      }
      seen := seen + {m.id};
      match m.status {
        case Finished =>
          if current > 0 || todo || Blank(m.evidence) { return false; }
        case Current =>
          current := current + 1;
          if current > 1 || todo { return false; }
        case Todo =>
          todo := true;
      }
    }
    return true;
  }

  predicate HasCurrent(ms: seq<Milestone>, id: string) {
    exists m | m in ms :: m.id == id && m.status == Current
  }

  /** The id of the last current milestone, or the empty string. */
  function LastCurrent(ms: seq<Milestone>): (id: string)
    ensures id != "" ==> HasCurrent(ms, id)
  {
    if ms == [] then "" else
    var m := ms[|ms|-1];
    if m.status == Current then m.id else LastCurrent(ms[..|ms|-1])
  }

  // ---------------------------------------------------------------- lifecycle

  /** The forward edges of the lifecycle. */
  predicate Forward(from: Stage, to: Stage) {
    match from
    case Delegated => to == Reconnaissance
    case Reconnaissance => to == Planning
    case Planning => to == AwaitingConfirmation
    case AwaitingConfirmation => to == Executing
    case Executing => to == AwaitingAcceptance
    case AwaitingAcceptance => to == Executing || to == Stage.Completed
    case Completed => false
    case Stalled => false
  }

  predicate TransitionAllowed(p: Project, to: Stage) {
    && (if p.lifecycle.stage == Stalled then p.lifecycle.previous == Some(to) else Forward(p.lifecycle.stage, to))
    && (to == Executing ==>
          LastCurrent(p.milestones) != "" &&
          (p.lifecycle.stage == AwaitingAcceptance ==> LastCurrent(p.milestones) != p.lifecycle.milestone))
    && (to == Stage.Completed ==> p.milestones != [] && forall m | m in p.milestones :: m.status == Finished)
  }

  /** The project after an accepted request to move to a stage; None when refused. */
  function Transitioned(p: Project, to: Option<Stage>, reason: string): Option<Project> {
    if to.None? || to.value == p.lifecycle.stage then Some(p)
    else if to.value == Stalled then
      if Blank(reason) then None
      else Some(p.(lifecycle := p.lifecycle.(stage := Stalled, previous := Some(p.lifecycle.stage))))
    else if !TransitionAllowed(p, to.value) then None
    else Some(p.(lifecycle := Lifecycle(to.value, None,
      if to.value == Executing then LastCurrent(p.milestones) else p.lifecycle.milestone)))
  }

  method LifecycleTransition(p: Project, to: Option<Stage>, reason: string) returns (r: Option<Project>)
    ensures r == Transitioned(p, to, reason)
  {
    var from := p.lifecycle.stage;
    if to.None? || to.value == from {
      return Some(p);
    }
    if to.value == Stalled {
      if Blank(reason) { return None; }
      return Some(p.(lifecycle := p.lifecycle.(previous := Some(from), stage := Stalled)));
    }
    if from == Stalled {
      if Some(to.value) != p.lifecycle.previous { return None; }
    } else if !Forward(from, to.value) {
      return None;
    }
    var q := p;
    if to.value == Executing {
      var current := "";
      for i := 0 to |p.milestones|
        invariant current == LastCurrent(p.milestones[..i])
      {
        assert p.milestones[..i+1][..i] == p.milestones[..i];
        if p.milestones[i].status == Current { current := p.milestones[i].id; }
      }
      assert p.milestones[..|p.milestones|] == p.milestones;
      if current == "" { return None; }
      if from == AwaitingAcceptance && current == p.lifecycle.milestone { return None; }
      q := p.(lifecycle := p.lifecycle.(milestone := current));
    }
    if to.value == Stage.Completed {
      if |p.milestones| == 0 { return None; }
      for i := 0 to |p.milestones|
        invariant forall k | 0 <= k < i :: p.milestones[k].status == Finished
      {
        if p.milestones[i].status != Finished { return None; }
      }
    }
    return Some(q.(lifecycle := q.lifecycle.(stage := to.value, previous := None)));
  }

  // ---------------------------------------------------------------- what happens to one project

  datatype ProjectOp =
    | PauseAll(reason: string)
    | ResumeAll
    | Stop
    | Start
    | Contract(milestones: Option<seq<Milestone>>, to: Option<Stage>, reason: string)
    | MilestoneReady

  function Returned(p: Project): Stage {
    if p.lifecycle.previous.Some? then p.lifecycle.previous.value else Delegated
  }

  /** The project after an operation; a refused operation leaves it alone. The contract
      update is given with its milestones already validated. */
  ghost function ProjectAfter(p: Project, op: ProjectOp): Project {
    match op
    case PauseAll(reason) => PausedProject(p, reason)
    case ResumeAll =>
      if p.mode != Paused then p.(rowVersion := p.rowVersion + 1)
      else p.(mode := Active, lifecycle := p.lifecycle.(stage := Returned(p), previous := None),
          rowVersion := p.rowVersion + 1)
    case Stop =>
      if p.lifecycle.stage != Stalled then p.(mode := Manual, rowVersion := p.rowVersion + 1)
      else p.(mode := Manual, lifecycle := p.lifecycle.(stage := Returned(p), previous := None),
          rowVersion := p.rowVersion + 1)
    case Start =>
      if p.mode == Paused || p.lifecycle.stage != Executing then p
      else p.(mode := Active, rowVersion := p.rowVersion + 1)
    case Contract(milestones, to, reason) =>
      var r := ContractResult(p, milestones, to, reason);
      if r.Some? then r.value else p
    case MilestoneReady =>
      if p.lifecycle.stage != Executing then p
      else p.(lifecycle := p.lifecycle.(stage := AwaitingAcceptance), rowVersion := p.rowVersion + 1)
  }

  ghost function ContractResult(p: Project, milestones: Option<seq<Milestone>>, to: Option<Stage>,
                                reason: string): Option<Project> {
    if p.mode == Paused && to.Some? && to.value != Stalled then None
    else if milestones.Some? && !MilestonesValid(milestones.value) then None
    else if to == Some(Stalled) && Blank(reason) then None
    else ContractMoved(if milestones.Some? then p.(milestones := milestones.value) else p, to, reason)
  }

  ghost function ContractMoved(q: Project, to: Option<Stage>, reason: string): Option<Project> {
    var held := if to == Some(Stalled) then PausedProject(q, reason) else q;
    var moved := Transitioned(held, to, reason);
    if moved.None? then None
    else if moved.value.lifecycle.stage == Executing
        && !HasCurrent(moved.value.milestones, moved.value.lifecycle.milestone) then None
    else Some(moved.value.(rowVersion := moved.value.rowVersion + 1))
  }

  /** Takeover is paused exactly while the lifecycle is stalled, and then a stage that is not
      itself stalled is remembered. */
  ghost predicate LifecycleOk(p: Project) {
    && (p.mode == Paused <==> p.lifecycle.stage == Stalled)
    && (p.lifecycle.stage == Stalled ==> p.lifecycle.previous.Some? && p.lifecycle.previous.value != Stalled)
  }

  /** The stage a project is in once its pauses are lifted. */
  function ResumeStage(p: Project): Stage {
    if p.lifecycle.stage == Stalled then Returned(p) else p.lifecycle.stage
  }

  ghost predicate ExecutingIsCurrent(p: Project) {
    ResumeStage(p) == Executing ==> HasCurrent(p.milestones, p.lifecycle.milestone)
  }

  lemma OpKeepsLifecycle(p: Project, op: ProjectOp)
    requires LifecycleOk(p)
    ensures LifecycleOk(ProjectAfter(p, op))
  {
  }

  /** Milestones are replaced while the project is, or in the same request becomes, stalled
      out of execution. */
  predicate ReplacesWhileStalled(p: Project, op: ProjectOp) {
    && op.Contract? && op.milestones.Some?
    && (p.lifecycle.stage == Stalled || op.to == Some(Stalled)) && ResumeStage(p) == Executing
  }

  /** Such an update is accepted although its list no longer has the milestone in execution. */
  ghost predicate Loses(p: Project, op: ProjectOp) {
    && ReplacesWhileStalled(p, op) && ContractResult(p, op.milestones, op.to, op.reason).Some?
    && !HasCurrent(op.milestones.value, p.lifecycle.milestone)
  }

  /** The milestone in execution stays a current milestone, except, exactly, through that one
      kind of update. */
  lemma OpKeepsExecutingMilestone(p: Project, op: ProjectOp)
    requires LifecycleOk(p) && ExecutingIsCurrent(p)
    ensures ExecutingIsCurrent(ProjectAfter(p, op)) <==> !Loses(p, op)
  {
  }

  /** The exception is real: a paused executing project takes any valid list, and resumes into
      execution of a milestone it no longer has. */
  lemma StaleMilestoneWitness() returns (p: Project, ms: seq<Milestone>)
    ensures LifecycleOk(p) && ExecutingIsCurrent(p) && p.lifecycle.stage == Executing && MilestonesValid(ms)
    ensures var back := ProjectRun(p, [PauseAll("why"), Contract(Some(ms), None, ""), ResumeAll]);
      back.lifecycle.stage == Executing && !HasCurrent(back.milestones, back.lifecycle.milestone)
  {
    var m := Milestone("m1", "first", "", Current);
    p := Project("p", Active, Lifecycle(Executing, None, "m1"), [m], 1);
    assert m in p.milestones;
    ms := [Milestone("m2", "second", "", Current)];
    assert !Blank("m2") by { assert "m2"[0] == 'm'; }
    assert !Blank("second") by { assert "second"[0] == 's'; }
    var ops := [PauseAll("why"), Contract(Some(ms), None, ""), ResumeAll];
    assert ops[..2] == [PauseAll("why"), Contract(Some(ms), None, "")];
    assert ops[..2][..1] == [PauseAll("why")] && ops[..2][..1][..0] == [];
    assert ProjectRun(p, []) == p;
    var paused := ProjectRun(p, ops[..2][..1]);
    assert paused == PausedProject(p, "why");
    var replaced := ProjectRun(p, ops[..2]);
    assert replaced == paused.(milestones := ms, rowVersion := paused.rowVersion + 1);
  }

  /** A project as it is created. */
  function FreshProject(id: string, milestones: seq<Milestone>): (p: Project)
    ensures LifecycleOk(p) && ExecutingIsCurrent(p)
  {
    Project(id, Manual, Lifecycle(Delegated, None, ""), milestones, 1)
  }

  ghost function ProjectRun(p: Project, ops: seq<ProjectOp>): Project {
    if ops == [] then p else ProjectAfter(ProjectRun(p, ops[..|ops|-1]), ops[|ops|-1])
  }

  lemma {:induction false} RunKeepsLifecycle(p: Project, ops: seq<ProjectOp>)
    requires LifecycleOk(p)
    ensures LifecycleOk(ProjectRun(p, ops))
  {
    if ops != [] {
      RunKeepsLifecycle(p, ops[..|ops|-1]);
      OpKeepsLifecycle(ProjectRun(p, ops[..|ops|-1]), ops[|ops|-1]);
    }
  }

  /** While a project is stalled, nothing but resume and stop moves it. */
  lemma {:induction false} StalledStays(p: Project, ops: seq<ProjectOp>)
    requires LifecycleOk(p) && p.lifecycle.stage == Stalled
    requires forall op | op in ops :: op != ResumeAll && op != Stop
    ensures var q := ProjectRun(p, ops);
      q.mode == Paused && q.lifecycle == p.lifecycle
  {
    if ops != [] {
      var n := |ops| - 1;
      assert ops[n] in ops;
      assert forall op | op in ops[..n] :: op in ops;
      StalledStays(p, ops[..n]);
    }
  }

  /** However many pauses pile up, and whatever else is tried meanwhile, one successful project
      resume restores the stage and the milestone held before the first of them. */
  lemma ResumeUndoesPauses(p: Project, reason: string, between: seq<ProjectOp>)
    requires LifecycleOk(p) && p.lifecycle.stage != Stalled
    requires forall op | op in between :: op != ResumeAll && op != Stop
    ensures var q := ProjectRun(p, [PauseAll(reason)] + between + [ResumeAll]);
      && q.mode == Active && q.lifecycle.stage == p.lifecycle.stage
      && q.lifecycle.milestone == p.lifecycle.milestone && q.lifecycle.previous == None
  {
    var ops := [PauseAll(reason)] + between + [ResumeAll];
    assert ops[..|ops|-1] == [PauseAll(reason)] + between;
    RunSplits(p, PauseAll(reason), between);
    StalledStays(PausedProject(p, reason), between);
  }

  lemma {:induction false} RunSplits(p: Project, op: ProjectOp, ops: seq<ProjectOp>)
    ensures ProjectRun(p, [op] + ops) == ProjectRun(ProjectAfter(p, op), ops)
  {
    if ops == [] {
      assert [op] + ops == [op] && [op][..0] == [];
      assert ProjectRun(p, []) == p;
    } else {
      assert ([op] + ops)[..|ops|] == [op] + ops[..|ops|-1];
      RunSplits(p, op, ops[..|ops|-1]);
    }
  }

  // ---------------------------------------------------------------- what happens to the document

  datatype Action = StartTakeover | PauseTakeover | ResumeTakeover | StopTakeover

  /** A request, with what the server looks up outside the document: the newest passing
      checkpoint artifact of a task ("" for none), and the fingerprint of a task's
      acceptance inputs (None when it cannot be taken). */
  datatype Control = Control(
    action: Action, root: string, reason: string, restart: bool, byAgent: bool,
    checkpoint: string -> string, fingerprint: string -> Option<string>)

  predicate ToResume(t: Task, project: string, root: string) {
    t.project == project && (root == "" || t.id == root) && t.pauseReason != ""
  }

  predicate ResumeRefused(t: Task, c: Control) {
    || (t.pauseReason in {"acceptance_inputs_changed", "acceptance_inputs_unavailable"} && !c.restart)
    || (c.checkpoint(t.id) == "" && !c.restart)
    || (c.restart && c.fingerprint(t.id).None?)
  }

  function ResumedTask(t: Task, c: Control): Task
    requires !ResumeRefused(t, c)
  {
    t.(pauseReason := "",
       baseline := if c.restart then c.fingerprint(t.id).value else t.baseline,
       dispatch := if t.dispatch == Released then Ready else t.dispatch,
       runtime := "", rowVersion := t.rowVersion + 1)
  }

  function StoppedTask(t: Task): Task {
    t.(dispatch := if t.dispatch in {Claimed, Ready} then Released else t.dispatch,
       runtime := "", pauseReason := "", rowVersion := t.rowVersion + 1)
  }

  ghost function ProjectsAfter(projects: seq<Project>, id: string, op: ProjectOp): seq<Project> {
    seq(|projects|, i requires 0 <= i < |projects| => if projects[i].id == id then ProjectAfter(projects[i], op)
      else projects[i])
  }

  ghost function StoppedDocument(doc: Document, project: string): Document {
    Document(
      ProjectsAfter(doc.projects, project, Stop),
      seq(|doc.tasks|, i requires 0 <= i < |doc.tasks| => if doc.tasks[i].project == project
        then StoppedTask(doc.tasks[i]) else doc.tasks[i]),
      seq(|doc.attempts|, i requires 0 <= i < |doc.attempts| =>
        if OwnerAffected(doc.tasks, doc.attempts[i].task, project, true, {}) then StoppedAttempt(doc.attempts[i])
            else doc.attempts[i]),
      seq(|doc.runs|, i requires 0 <= i < |doc.runs| =>
        if OwnerAffected(doc.tasks, doc.runs[i].task, project, true, {}) then StoppedRun(doc.runs[i]) else doc.runs[i]))
  }

  ghost predicate CanResume(doc: Document, p: Project, c: Control) {
    && p.mode != Manual && !(p.mode == Paused && c.root != "")
    && (forall t | t in doc.tasks && ToResume(t, p.id, c.root) :: !ResumeRefused(t, c))
    && (p.mode == Paused || exists t :: t in doc.tasks && ToResume(t, p.id, c.root))
  }

  ghost function ResumedDocument(doc: Document, p: Project, c: Control): Document
    requires CanResume(doc, p, c)
  {
    doc.(projects := ProjectsAfter(doc.projects, p.id, ResumeAll),
         tasks := seq(|doc.tasks|, i requires 0 <= i < |doc.tasks| =>
           if ToResume(doc.tasks[i], p.id, c.root) then ResumedTask(doc.tasks[i], c) else doc.tasks[i]))
  }

  /** Whether a takeover request is accepted, and the document it leaves. */
  ghost function Controlled(doc: Document, project: string, c: Control): Option<Document> {
    var p := FindProject(doc.projects, project);
    if c.byAgent && c.action != PauseTakeover then None
    else if p.None? then None
    else if c.root != ""
        && !(FindTask(doc.tasks, c.root).Some? && FindTask(doc.tasks, c.root).value.project == project) then None
    else match c.action
    case StartTakeover =>
      if p.value.mode == Paused || p.value.lifecycle.stage != Executing then None
      else Some(doc.(projects := ProjectsAfter(doc.projects, project, Start)))
    case PauseTakeover =>
      if (c.byAgent && p.value.mode == Manual) || Blank(c.reason) then None
      else
        var paused := PausedDocument(doc, project, c.root, c.reason);
        Some(paused.(projects := Bumped(paused.projects, project)))
    case ResumeTakeover =>
      if CanResume(doc, p.value, c) then Some(ResumedDocument(doc, p.value, c)) else None
    case StopTakeover => Some(StoppedDocument(doc, project))
  }

  lemma OneProject(projects: seq<Project>, i: nat, op: ProjectOp)
    requires UniqueProjectIds(projects) && i < |projects|
    ensures ProjectsAfter(projects, projects[i].id, op) == projects[i := ProjectAfter(projects[i], op)]
  {
  }

  lemma ResumeByIndex(doc: Document, p: Project, c: Control)
    ensures (forall t | t in doc.tasks && ToResume(t, p.id, c.root) :: !ResumeRefused(t, c)) <==>
            (forall k | 0 <= k < |doc.tasks| && ToResume(doc.tasks[k], p.id, c.root) :: !ResumeRefused(doc.tasks[k], c))
    ensures (exists t :: t in doc.tasks && ToResume(t, p.id, c.root)) <==>
            (exists k :: 0 <= k < |doc.tasks| && ToResume(doc.tasks[k], p.id, c.root))
  {
  }

  lemma BumpedOne(projects: seq<Project>, paused: seq<Project>, i: nat, after: seq<Project>)
    requires UniqueProjectIds(projects) && i < |projects| == |paused|
    requires forall k | 0 <= k < |projects| :: paused[k].id == projects[k].id
    requires after == paused[i := paused[i].(rowVersion := paused[i].rowVersion + 1)]
    ensures after == Bumped(paused, projects[i].id)
  {
  }

  lemma StopSweeps(doc: Document, project: string, after: Document)
    requires |after.tasks| == |doc.tasks| && |after.attempts| == |doc.attempts| && |after.runs| == |doc.runs|
    requires after.projects == ProjectsAfter(doc.projects, project, Stop)
    requires forall i | 0 <= i < |doc.tasks| ::
      after.tasks[i] == if doc.tasks[i].project == project then StoppedTask(doc.tasks[i]) else doc.tasks[i]
    requires forall i | 0 <= i < |doc.attempts| ::
      after.attempts[i] == if OwnerAffected(after.tasks, doc.attempts[i].task, project, true, {})
        then StoppedAttempt(doc.attempts[i]) else doc.attempts[i]
    requires forall i | 0 <= i < |doc.runs| ::
      after.runs[i] == if OwnerAffected(after.tasks, doc.runs[i].task, project, true, {}) then StoppedRun(doc.runs[i])
        else doc.runs[i]
    ensures after == StoppedDocument(doc, project)
  {
    assert forall i | 0 <= i < |doc.tasks| ::
        doc.tasks[i].id == after.tasks[i].id && doc.tasks[i].project == after.tasks[i].project;
    var stopped := StoppedDocument(doc, project);
    assert after.tasks == stopped.tasks;
    assert after.attempts == stopped.attempts by {
      forall i | 0 <= i < |doc.attempts| ensures after.attempts[i] == stopped.attempts[i] {
        FindThrough(doc.tasks, after.tasks, doc.attempts[i].task);
      }
    }
    assert after.runs == stopped.runs by {
      forall i | 0 <= i < |doc.runs| ensures after.runs[i] == stopped.runs[i] {
        FindThrough(doc.tasks, after.tasks, doc.runs[i].task);
      }
    }
  }

  /** What a pause does to tasks, attempts and tool runs does not depend on the projects. */
  lemma SamePauseOfTheRest(doc: Document, other: Document, project: string, reason: string)
    requires other == doc.(projects := other.projects)
    ensures var a, b := PausedDocument(doc, project, "", reason), PausedDocument(other, project, "", reason);
      a.tasks == b.tasks && a.attempts == b.attempts && a.runs == b.runs
  {
    var a, b := PausedDocument(doc, project, "", reason), PausedDocument(other, project, "", reason);
    assert a.tasks == b.tasks && a.attempts == b.attempts && a.runs == b.runs;
  }

  ghost function Bumped(projects: seq<Project>, id: string): seq<Project> {
    seq(|projects|, i requires 0 <= i < |projects| =>
      if projects[i].id == id then projects[i].(rowVersion := projects[i].rowVersion + 1) else projects[i])
  }

  /** The document after an accepted contract update. */
  ghost predicate ContractAccepted(doc: Document, i: nat, expectedVersion: int, op: ProjectOp)
    requires i < |doc.projects| && op.Contract?
  {
    var p := doc.projects[i];
    && expectedVersion == p.rowVersion >= 1
    && ContractResult(p, op.milestones, op.to, op.reason).Some?
    && (op.milestones.Some? ==>
          forall t | t in doc.tasks && t.project == p.id ::
            ContractHolds(doc.projects[i := p.(milestones := op.milestones.value)], doc.tasks, t))
  }

  /** The tasks of the milestone in execution: at least one, all done and verified. */
  ghost predicate MilestoneDone(tasks: seq<Task>, p: Project) {
    && (exists t :: t in tasks && t.project == p.id && t.milestone == p.lifecycle.milestone)
    && (forall t | t in tasks && t.project == p.id && t.milestone == p.lifecycle.milestone ::
         t.dispatch == Done && t.passed)
  }

  class ControlDocument {
    var projects: seq<Project>
    var tasks: seq<Task>
    var attempts: seq<Attempt>
    var runs: seq<ToolRun>

    ghost function Doc(): Document
      reads this
    {
      Document(projects, tasks, attempts, runs)
    }

    constructor (doc: Document)
      ensures Doc() == doc
    {
      projects, tasks, attempts, runs := doc.projects, doc.tasks, doc.attempts, doc.runs;
    }

    method PauseProjects(project: string, reason: string)
      modifies this`projects
      ensures |projects| == |old(projects)|
      ensures forall k | 0 <= k < |projects| ::
        projects[k] == if old(projects)[k].id == project then PausedProject(old(projects)[k], reason)
          else old(projects)[k]
    {
      for i := 0 to |projects|
        invariant |projects| == |old(projects)|
        invariant forall k | 0 <= k < |projects| ::
          projects[k] == if k < i && old(projects)[k].id == project then PausedProject(old(projects)[k], reason)
            else old(projects)[k]
      {
        if projects[i].id == project {
          projects := projects[i := PausedProject(projects[i], reason)];
        }
      }
    }

    method PauseTasks(project: string, wide: bool, affected: set<string>, reason: string)
      modifies this`tasks
      ensures |tasks| == |old(tasks)|
      ensures forall k | 0 <= k < |tasks| ::
        tasks[k] == if old(tasks)[k].project == project && (wide || old(tasks)[k].id in affected)
                    then PausedTask(old(tasks)[k], reason) else old(tasks)[k]
    {
      for i := 0 to |tasks|
        invariant |tasks| == |old(tasks)|
        invariant forall k | 0 <= k < |tasks| ::
          tasks[k] == if k < i && old(tasks)[k].project == project && (wide || old(tasks)[k].id in affected)
                      then PausedTask(old(tasks)[k], reason) else old(tasks)[k]
      {
        var t := tasks[i];
        if t.project == project && (wide || t.id in affected) && t.dispatch != Done {
          t := t.(pauseReason := reason);
          if t.dispatch == Claimed || t.dispatch == Ready {
            t := t.(dispatch := Released);
          }
          tasks := tasks[i := t.(runtime := "", rowVersion := t.rowVersion + 1)];
        }
      }
    }

    method FailAttempts(project: string, wide: bool, affected: set<string>)
      modifies this`attempts
      ensures |attempts| == |old(attempts)|
      ensures forall k | 0 <= k < |attempts| ::
        attempts[k] == if OwnerAffected(tasks, old(attempts)[k].task, project, wide, affected)
                       then StoppedAttempt(old(attempts)[k]) else old(attempts)[k]
    {
      for i := 0 to |attempts|
        invariant |attempts| == |old(attempts)|
        invariant forall k | 0 <= k < |attempts| ::
          attempts[k] == if k < i && OwnerAffected(tasks, old(attempts)[k].task, project, wide, affected)
                         then StoppedAttempt(old(attempts)[k]) else old(attempts)[k]
      {
        if OwnerAffected(tasks, attempts[i].task, project, wide, affected) && attempts[i].status == AttemptRunning {
          attempts := attempts[i := attempts[i].(status := AttemptFailed)];
        }
      }
    }

    method FailRuns(project: string, wide: bool, affected: set<string>)
      modifies this`runs
      ensures |runs| == |old(runs)|
      ensures forall k | 0 <= k < |runs| ::
        runs[k] == if OwnerAffected(tasks, old(runs)[k].task, project, wide, affected)
                   then StoppedRun(old(runs)[k]) else old(runs)[k]
    {
      for i := 0 to |runs|
        invariant |runs| == |old(runs)|
        invariant forall k | 0 <= k < |runs| ::
          runs[k] == if k < i && OwnerAffected(tasks, old(runs)[k].task, project, wide, affected)
                     then StoppedRun(old(runs)[k]) else old(runs)[k]
      {
        if OwnerAffected(tasks, runs[i].task, project, wide, affected)
            && (runs[i].status == RunRunning || runs[i].status == RunWaiting) {
          runs := runs[i := runs[i].(status := RunFailed)];
        }
      }
    }

    /** The server alone decides how far a pause reaches: the task with its dependents, or
        the whole project. */
    method PauseControlState(project: string, root: string, reason: string)
      modifies this
      ensures Doc() == PausedDocument(old(Doc()), project, root, reason)
    {
      ghost var was := Doc();
      var wide := ProjectWide(root, reason);
      var affected := FindAffected(tasks, project, root);
      if wide {
        PauseProjects(project, reason);
      }
      PauseTasks(project, wide, affected, reason);
      FailAttempts(project, wide, affected);
      FailRuns(project, wide, affected);
      SweepsPause(was, project, root, reason, Doc());
    }

    // -------------------------------------------------------------- takeover control

    method StopProject(project: string, pi: nat)
      requires UniqueProjectIds(projects) && pi < |projects| && projects[pi].id == project
      modifies this
      ensures Doc() == StoppedDocument(old(Doc()), project)
    {
      ghost var was := Doc();
      var p := projects[pi].(mode := Manual);
      if p.lifecycle.stage == Stalled {
        p := p.(lifecycle := p.lifecycle.(stage := if p.lifecycle.previous.Some? then p.lifecycle.previous.value
          else Delegated, previous := None));
      }
      OneProject(projects, pi, Stop);
      projects := projects[pi := p.(rowVersion := p.rowVersion + 1)];
      StopTasks(project);
      FailAttempts(project, true, {});
      FailRuns(project, true, {});
      StopSweeps(was, project, Doc());
    }

    method StopTasks(project: string)
      modifies this`tasks
      ensures |tasks| == |old(tasks)|
      ensures forall k | 0 <= k < |tasks| ::
          tasks[k] == if old(tasks)[k].project == project then StoppedTask(old(tasks)[k]) else old(tasks)[k]
    {
      for i := 0 to |tasks|
        invariant |tasks| == |old(tasks)|
        invariant forall k | 0 <= k < |tasks| ::
            tasks[k] == if k < i && old(tasks)[k].project == project then StoppedTask(old(tasks)[k]) else old(tasks)[k]
      {
        var t := tasks[i];
        if t.project == project {
          if t.dispatch == Claimed || t.dispatch == Ready {
            t := t.(dispatch := Released);
          }
          tasks := tasks[i := t.(runtime := "", pauseReason := "", rowVersion := t.rowVersion + 1)];
        }
      }
    }

    method ResumeTask(t: Task, c: Control) returns (r: Option<Task>)
      requires t.pauseReason != ""
      ensures r == if ResumeRefused(t, c) then None else Some(ResumedTask(t, c))
    {
      if (t.pauseReason == "acceptance_inputs_changed" || t.pauseReason == "acceptance_inputs_unavailable")
          && !c.restart {
        return None;
      }
      if c.checkpoint(t.id) == "" && !c.restart {
        return None;
      }
      var u := t.(pauseReason := "");
      if c.restart {
        var baseline := c.fingerprint(t.id);
        if baseline.None? {
          return None;
        }
        u := u.(baseline := baseline.value);
      }
      if u.dispatch == Released {
        u := u.(dispatch := Ready);
      }
      return Some(u.(runtime := "", rowVersion := u.rowVersion + 1));
    }

    /** Resumes the paused tasks in stored order; the first one that may not resume refuses
        the whole request. */
    method ResumeTasks(project: string, c: Control) returns (ok: bool, resumed: bool)
      modifies this`tasks
      ensures ok <==>
          forall k | 0 <= k < |old(tasks)| && ToResume(old(tasks)[k], project, c.root) ::
              !ResumeRefused(old(tasks)[k], c)
      ensures ok ==> (resumed <==> exists k :: 0 <= k < |old(tasks)| && ToResume(old(tasks)[k], project, c.root))
      ensures |tasks| == |old(tasks)|
      ensures ok ==> forall k | 0 <= k < |tasks| ::
        tasks[k] == if ToResume(old(tasks)[k], project, c.root) then ResumedTask(old(tasks)[k], c) else old(tasks)[k]
    {
      ghost var was := tasks;
      resumed := false;
      for i := 0 to |tasks|
        invariant |tasks| == |was|
        invariant forall k | 0 <= k < i && ToResume(was[k], project, c.root) :: !ResumeRefused(was[k], c)
        invariant resumed <==> exists k :: 0 <= k < i && ToResume(was[k], project, c.root)
        invariant forall k | i <= k < |tasks| :: tasks[k] == was[k]
        invariant forall k | 0 <= k < i ::
          tasks[k] == if ToResume(was[k], project, c.root) then ResumedTask(was[k], c) else was[k]
      {
        if ToResume(tasks[i], project, c.root) {
          var t := ResumeTask(tasks[i], c);
          if t.None? {
            return false, false;
          }
          tasks := tasks[i := t.value];
          resumed := true;
        }
      }
      return true, resumed;
    }

    method ResumeProject(project: string, pi: nat, c: Control) returns (r: Outcome)
      requires UniqueProjectIds(projects) && pi < |projects| && projects[pi].id == project
      modifies this
      ensures r.Accepted? <==> CanResume(old(Doc()), old(projects)[pi], c)
      ensures Doc() == if r.Accepted? then ResumedDocument(old(Doc()), old(projects)[pi], c) else old(Doc())
    {
      ghost var was := Doc();
      var p := projects[pi];
      if p.mode == Manual || (p.mode == Paused && c.root != "") {
        return Rejected(Invalid);
      }
      var before := tasks;
      var ok, resumed := ResumeTasks(project, c);
      ResumeByIndex(was, p, c);
      if !ok || (!resumed && p.mode != Paused) {
        tasks := before;
        return Rejected(Invalid);
      }
      if p.mode == Paused {
        p := p.(mode := Active,
          lifecycle := p.lifecycle.(stage := if p.lifecycle.previous.Some? then p.lifecycle.previous.value
            else Delegated, previous := None));
      }
      projects := projects[pi := p.(rowVersion := p.rowVersion + 1)];
      OneProject(was.projects, pi, ResumeAll);
      assert tasks == ResumedDocument(was, was.projects[pi], c).tasks;
      return Accepted;
    }

    method PauseProject(project: string, pi: nat, c: Control) returns (r: Outcome)
      requires UniqueProjectIds(projects) && pi < |projects| && projects[pi].id == project
      modifies this
      ensures r.Rejected? <==> (c.byAgent && old(projects)[pi].mode == Manual) || Blank(c.reason)
      ensures Doc() == if r.Rejected? then old(Doc())
                       else var paused := PausedDocument(old(Doc()), project, c.root, c.reason);
                            paused.(projects := Bumped(paused.projects, project))
    {
      ghost var was := projects;
      if c.byAgent && projects[pi].mode != Active && projects[pi].mode != Paused {
        return Rejected(Invalid);
      }
      if Blank(c.reason) {
        return Rejected(Invalid);
      }
      PauseControlState(project, c.root, c.reason);
      ghost var paused := projects;
      projects := projects[pi := projects[pi].(rowVersion := projects[pi].rowVersion + 1)];
      BumpedOne(was, paused, pi, projects);
      return Accepted;
    }

    method ControlTakeover(project: string, c: Control) returns (r: Outcome)
      requires UniqueProjectIds(projects)
      modifies this
      ensures r.Accepted? <==> Controlled(old(Doc()), project, c).Some?
      ensures Doc() == if r.Accepted? then Controlled(old(Doc()), project, c).value else old(Doc())
    {
      if c.byAgent && c.action != PauseTakeover {
        return Rejected(Invalid);
      }
      var pi := -1;
      for i := 0 to |projects|
        invariant -1 <= pi < i
        invariant pi >= 0 ==> projects[pi].id == project
        invariant pi < 0 ==> forall k | 0 <= k < i :: projects[k].id != project
        invariant Doc() == old(Doc())
      {
        if projects[i].id == project { pi := i; }
      }
      if pi < 0 {
        return Rejected(NotFound);
      }
      FindProjectAt(projects, pi);
      var p := projects[pi];
      var target := FindTask(tasks, c.root);
      if c.root != "" && (target.None? || target.value.project != project) {
        return Rejected(Invalid);
      }
      match c.action {
        case StartTakeover =>
          if p.mode == Paused || p.lifecycle.stage != Executing {
            return Rejected(Invalid);
          }
          OneProject(projects, pi, Start);
          projects := projects[pi := p.(mode := Active, rowVersion := p.rowVersion + 1)];
          return Accepted;
        case PauseTakeover =>
          r := PauseProject(project, pi, c);
        case ResumeTakeover =>
          r := ResumeProject(project, pi, c);
        case StopTakeover =>
          StopProject(project, pi);
          return Accepted;
      }
    }

    // -------------------------------------------------------------- contract and milestones

    method UpdateProjectContract(id: string, expectedVersion: int, op: ProjectOp) returns (r: Outcome, ghost at: nat)
      requires UniqueProjectIds(projects) && op.Contract?
      modifies this
      ensures r.Rejected? ==> Doc() == old(Doc())
      ensures r == Rejected(NotFound) <==> FindProject(old(projects), id).None?
      ensures r != Rejected(NotFound) ==>
        at < |old(projects)| && old(projects)[at].id == id &&
        (r.Accepted? <==> ContractAccepted(old(Doc()), at, expectedVersion, op))
      ensures r.Accepted? ==>
        projects == old(projects)[at := ProjectAfter(old(projects)[at], op)]
      ensures r.Accepted? ==>
        var rest := if op.to == Some(Stalled) then PausedDocument(old(Doc()), id, "", op.reason) else old(Doc());
        tasks == rest.tasks && attempts == rest.attempts && runs == rest.runs
    {
      ghost var was := Doc();
      at := 0;
      for i := 0 to |projects|
        invariant Doc() == was
        invariant forall k | 0 <= k < i :: projects[k].id != id
      {
        if projects[i].id == id {
          at := i;
          FindProjectAt(projects, i);
          r := UpdateContractAt(i, expectedVersion, op);
          return;
        }
      }
      return Rejected(NotFound), at;
    }

    method UpdateContractAt(i: nat, expectedVersion: int, op: ProjectOp) returns (r: Outcome)
      requires UniqueProjectIds(projects) && op.Contract? && i < |projects|
      modifies this
      ensures r.Rejected? ==> Doc() == old(Doc()) && r.error != NotFound
      ensures r.Accepted? <==> ContractAccepted(old(Doc()), i, expectedVersion, op)
      ensures r.Accepted? ==> projects == old(projects)[i := ProjectAfter(old(projects)[i], op)]
      ensures r.Accepted? ==>
        var rest := if op.to == Some(Stalled) then PausedDocument(old(Doc()), old(projects)[i].id, "", op.reason)
          else old(Doc());
        tasks == rest.tasks && attempts == rest.attempts && runs == rest.runs
    {
      ghost var was := Doc();
      var p := projects[i];
      if expectedVersion < 1 || expectedVersion != p.rowVersion {
        return Rejected(Conflict);
      }
      if p.mode == Paused && op.to.Some? && op.to.value != Stalled {
        return Rejected(Invalid);
      }
      var original := projects;
      var updated := projects;
      if op.milestones.Some? {
        var valid := ValidateMilestones(op.milestones.value);
        if !valid {
          return Rejected(Invalid);
        }
        updated := projects[i := p.(milestones := op.milestones.value)];
        var held := RevalidateTasks(updated, p.id);
        if !held {
          return Rejected(Invalid);
        }
      }
      if op.to == Some(Stalled) && Blank(op.reason) {
        return Rejected(Invalid);
      }
      projects := updated;
      SamePauseOfTheRest(was, Doc(), p.id, op.reason);
      var moved := MoveContract(i, op);
      if !moved {
        projects := original;
        return Rejected(Invalid);
      }
      return Accepted;
    }

    method MoveContract(i: nat, op: ProjectOp) returns (ok: bool)
      requires UniqueProjectIds(projects) && op.Contract? && i < |projects|
      requires op.to == Some(Stalled) ==> !Blank(op.reason)
      modifies this
      ensures ok <==> ContractMoved(old(projects)[i], op.to, op.reason).Some?
      ensures !ok ==> Doc() == old(Doc())
      ensures ok ==> projects == old(projects)[i := ContractMoved(old(projects)[i], op.to, op.reason).value]
      ensures ok ==>
        var rest := if op.to == Some(Stalled) then PausedDocument(old(Doc()), old(projects)[i].id, "", op.reason)
          else old(Doc());
        tasks == rest.tasks && attempts == rest.attempts && runs == rest.runs
    {
      if op.to == Some(Stalled) {
        PauseControlState(projects[i].id, "", op.reason);
        assert projects == old(projects)[i := PausedProject(old(projects)[i], op.reason)];
      }
      var moved := LifecycleTransition(projects[i], op.to, op.reason);
      if moved.None?
          || (moved.value.lifecycle.stage == Executing
               && !HasCurrent(moved.value.milestones, moved.value.lifecycle.milestone)) {
        return false;
      }
      projects := projects[i := moved.value.(rowVersion := moved.value.rowVersion + 1)];
      return true;
    }

    method RevalidateTasks(updated: seq<Project>, id: string) returns (held: bool)
      ensures held <==> forall t | t in tasks && t.project == id :: ContractHolds(updated, tasks, t)
    {
      held := true;
      for i := 0 to |tasks|
        invariant held ==> forall t | t in tasks[..i] && t.project == id :: ContractHolds(updated, tasks, t)
        invariant held
      {
        assert tasks[..i+1] == tasks[..i] + [tasks[i]];
        if tasks[i].project == id {
          var ok := ValidateTaskContract(updated, tasks, tasks[i]);
          if ok.Rejected? {
            assert tasks[i] in tasks;
            return false;
          }
        }
      }
      assert tasks[..|tasks|] == tasks;
    }

    /** Hands a finished milestone over to a human. */
    method AdvanceMilestoneReview(project: string)
      requires UniqueProjectIds(projects)
      modifies this`projects
      ensures |projects| == |old(projects)|
      ensures forall k | 0 <= k < |projects| ::
        projects[k] == if old(projects)[k].id == project && MilestoneDone(tasks, old(projects)[k])
                       then ProjectAfter(old(projects)[k], MilestoneReady) else old(projects)[k]
    {
      for i := 0 to |projects|
        invariant |projects| == |old(projects)|
        invariant forall k | 0 <= k < |projects| ::
          projects[k] == if k < i && old(projects)[k].id == project && MilestoneDone(tasks, old(projects)[k])
                         then ProjectAfter(old(projects)[k], MilestoneReady) else old(projects)[k]
      {
        var p := projects[i];
        if p.id == project && p.lifecycle.stage == Executing {
          var count := 0;
          for j := 0 to |tasks|
            invariant projects == old(projects)
            invariant count == 0 <==>
                forall k | 0 <= k < j :: !(tasks[k].project == project && tasks[k].milestone == p.lifecycle.milestone)
            invariant forall k | 0 <= k < j && tasks[k].project == project
                && tasks[k].milestone == p.lifecycle.milestone :: tasks[k].dispatch == Done && tasks[k].passed
          {
            if tasks[j].project == project && tasks[j].milestone == p.lifecycle.milestone {
              count := count + 1;
              if tasks[j].dispatch != Done || !tasks[j].passed {
                assert tasks[j] in tasks;
                return;
              }
            }
          }
          if count > 0 {
            projects := projects[i := p.(lifecycle := p.lifecycle.(stage := AwaitingAcceptance),
                rowVersion := p.rowVersion + 1)];
          }
        }
      }
    }
  }
}
