/** What takeover control, contract updates and task updates accept, and what they leave, spelled
    out; and which claims are revoked after a write. */
module ControlOutcomes {
  import opened Basics
  import opened ProjectState
  import opened TaskContract
  import opened Pause
  import opened Takeover
  import opened LeaseTable
  import opened Protocol
  import opened Outcomes
  import opened LifecycleOutcomes

  // ---------------------------------------------------------------- takeover control

  /** A pause is lifted from a checkpoint, unless the acceptance inputs are in doubt; a restart
      needs none, but takes the inputs anew. */
  predicate Resumable(t: Task, c: Control) {
    if c.restart then c.fingerprint(t.id).Some?
    else
      && c.checkpoint(t.id) != ""
      && t.pauseReason != "acceptance_inputs_changed" && t.pauseReason != "acceptance_inputs_unavailable"
  }

  predicate PausedIn(t: Task, project: string, root: string) {
    t.project == project && t.pauseReason != "" && (root == "" || t.id == root)
  }

  ghost predicate MayResume(doc: Document, p: Project, c: Control) {
    && p.mode != Manual && (p.mode == Paused ==> c.root == "")
    && (forall k | 0 <= k < |doc.tasks| && PausedIn(doc.tasks[k], p.id, c.root) :: Resumable(doc.tasks[k], c))
    && (p.mode == Active ==> exists k :: 0 <= k < |doc.tasks| && PausedIn(doc.tasks[k], p.id, c.root))
  }

  /** An agent can only ask for a pause of a project that is under takeover. */
  ghost predicate MayControl(doc: Document, p: Project, c: Control) {
    && (c.byAgent ==> c.action == PauseTakeover && p.mode != Manual)
    && (c.root != "" ==> FindTask(doc.tasks, c.root).Some? && FindTask(doc.tasks, c.root).value.project == p.id)
    && match c.action
       case StartTakeover => p.mode != Paused && p.lifecycle.stage == Executing
       case PauseTakeover => !Blank(c.reason)
       case ResumeTakeover => MayResume(doc, p, c)
       case StopTakeover => true
  }

  predicate ResumedTo(t: Task, u: Task, c: Control) {
    && u.pauseReason == "" && u.runtime == "" && u.rowVersion == t.rowVersion + 1
    && (if c.restart then c.fingerprint(t.id) == Some(u.baseline) else u.baseline == t.baseline)
    && (t.dispatch == Released ==> u.dispatch == Ready) && (t.dispatch != Released ==> u.dispatch == t.dispatch)
    && t == u.(pauseReason := t.pauseReason, runtime := t.runtime, rowVersion := t.rowVersion,
               baseline := t.baseline, dispatch := t.dispatch)
  }

  predicate StoppedTo(t: Task, u: Task) {
    && u.pauseReason == "" && u.runtime == "" && u.rowVersion == t.rowVersion + 1
    && (t.dispatch == Claimed || t.dispatch == Ready ==> u.dispatch == Released)
    && (t.dispatch != Claimed && t.dispatch != Ready ==> u.dispatch == t.dispatch)
    && t == u.(pauseReason := t.pauseReason, runtime := t.runtime, rowVersion := t.rowVersion,
               dispatch := t.dispatch)
  }

  /** Out of blocked the project returns to the stage it was in. */
  predicate BackFromBlocked(p: Project, q: Project) {
    && q.lifecycle.previous == None && q.lifecycle.milestone == p.lifecycle.milestone
    && (p.lifecycle.previous.Some? ==> q.lifecycle.stage == p.lifecycle.previous.value)
    && (p.lifecycle.previous.None? ==> q.lifecycle.stage == Delegated)
  }

  predicate ProjectControlled(p: Project, c: Control, q: Project) {
    && q.id == p.id && q.milestones == p.milestones
    && match c.action
       case StartTakeover => q == p.(mode := Active, rowVersion := p.rowVersion + 1)
       case PauseTakeover =>
         if WideReason(c.root, c.reason)
         then BlockedFrom(p, q.(rowVersion := p.rowVersion + 1)) && q.rowVersion == p.rowVersion + 2
         else q == p.(rowVersion := p.rowVersion + 1)
       case ResumeTakeover =>
         && q.rowVersion == p.rowVersion + 1 && q.mode == Active
         && if p.mode == Paused then BackFromBlocked(p, q) else q.lifecycle == p.lifecycle
       case StopTakeover =>
         && q.rowVersion == p.rowVersion + 1 && q.mode == Manual
         && if p.lifecycle.stage == Stalled then BackFromBlocked(p, q) else q.lifecycle == p.lifecycle
  }

  ghost predicate WorkControlled(doc: Document, project: string, c: Control, after: Document) {
    && |after.tasks| == |doc.tasks|
    && match c.action
       case StartTakeover => after == doc.(projects := after.projects)
       case PauseTakeover =>
         var wide := WideReason(c.root, c.reason);
         && TasksPaused(doc.tasks, project, c.root, wide, c.reason, after.tasks)
         && WorkStopped(doc, project, c.root, wide, after)
       case ResumeTakeover =>
         && after.attempts == doc.attempts && after.runs == doc.runs
         && forall k | 0 <= k < |doc.tasks| ::
              if PausedIn(doc.tasks[k], project, c.root) then ResumedTo(doc.tasks[k], after.tasks[k], c)
              else after.tasks[k] == doc.tasks[k]
       case StopTakeover =>
         && WorkStopped(doc, project, "", true, after)
         && forall k | 0 <= k < |doc.tasks| ::
              if doc.tasks[k].project == project then StoppedTo(doc.tasks[k], after.tasks[k])
              else after.tasks[k] == doc.tasks[k]
  }

  ghost predicate ControlledTo(doc: Document, at: nat, c: Control, after: Document)
    requires at < |doc.projects|
  {
    && |after.projects| == |doc.projects|
    && after.projects == doc.projects[at := after.projects[at]]
    && ProjectControlled(doc.projects[at], c, after.projects[at])
    && WorkControlled(doc, doc.projects[at].id, c, after)
  }

  lemma ResumeIs(doc: Document, p: Project, c: Control)
    ensures CanResume(doc, p, c) <==> MayResume(doc, p, c)
  {
    ResumeByIndex(doc, p, c);
  }

  lemma StopStopsWork(doc: Document, project: string)
    ensures WorkStopped(doc, project, "", true, StoppedDocument(doc, project))
  {
  }

  lemma ControlAccepted(doc: Document, at: nat, c: Control)
    requires UniqueProjectIds(doc.projects) && at < |doc.projects|
    ensures Controlled(doc, doc.projects[at].id, c).Some? <==> MayControl(doc, doc.projects[at], c)
  {
    FindProjectAt(doc.projects, at);
    ResumeIs(doc, doc.projects[at], c);
  }

  lemma PausedProjects(projects: seq<Project>, paused: seq<Project>, at: nat, wide: bool)
    requires UniqueProjectIds(projects) && at < |projects|
    requires ProjectsBlocked(projects, projects[at].id, wide, paused)
    ensures var after := Bumped(paused, projects[at].id);
      && after == projects[at := after[at]]
      && if wide then BlockedFrom(projects[at], after[at].(rowVersion := projects[at].rowVersion + 1))
                        && after[at].rowVersion == projects[at].rowVersion + 2
         else after[at] == projects[at].(rowVersion := projects[at].rowVersion + 1)
  {
  }

  lemma PauseControls(doc: Document, at: nat, c: Control)
    requires UniqueProjectIds(doc.projects) && at < |doc.projects| && c.action == PauseTakeover
    requires Controlled(doc, doc.projects[at].id, c).Some?
    ensures ControlledTo(doc, at, c, Controlled(doc, doc.projects[at].id, c).value)
  {
    var id := doc.projects[at].id;
    FindProjectAt(doc.projects, at);
    PauseMeans(doc, id, c.root, c.reason);
    PausedProjects(doc.projects, PausedDocument(doc, id, c.root, c.reason).projects, at, WideReason(c.root, c.reason));
  }

  /** A takeover request is accepted exactly when it may be, and does to the project, its tasks
      and their work what the action says. */
  lemma ControlMeans(doc: Document, at: nat, c: Control)
    requires UniqueProjectIds(doc.projects) && at < |doc.projects|
    ensures var r := Controlled(doc, doc.projects[at].id, c);
      && (r.Some? <==> MayControl(doc, doc.projects[at], c))
      && (r.Some? ==> ControlledTo(doc, at, c, r.value))
  {
    var id := doc.projects[at].id;
    ControlAccepted(doc, at, c);
    if Controlled(doc, id, c).Some? {
      FindProjectAt(doc.projects, at);
      match c.action
      case StartTakeover => OneProject(doc.projects, at, Start);
      case PauseTakeover => PauseControls(doc, at, c);
      case ResumeTakeover => OneProject(doc.projects, at, ResumeAll);
      case StopTakeover =>
        OneProject(doc.projects, at, Stop);
        StopStopsWork(doc, id);
    }
  }

  /** And one for a project that is not there is refused. */
  lemma ControlOfNothing(doc: Document, project: string, c: Control)
    requires forall p | p in doc.projects :: p.id != project
    ensures Controlled(doc, project, c).None?
  {
  }

  // ---------------------------------------------------------------- contract updates

  /** A contract update is accepted at the current version, and not past a pause; a new list is in
      order and every task of the project stands with it; a block has a reason, any other move is
      one that may be made, and what is then in execution is a current milestone. */
  ghost predicate MayAmend(doc: Document, at: nat, version: int, op: ProjectOp)
    requires at < |doc.projects| && op.Contract?
  {
    var p := doc.projects[at];
    var q := if op.milestones.Some? then p.(milestones := op.milestones.value) else p;
    && version == p.rowVersion >= 1
    && (p.mode == Paused ==> op.to == None || op.to == Some(Stalled))
    && (op.milestones.Some? ==>
          && (exists a: nat, b: nat :: InOrder(op.milestones.value, a, b))
          && forall k | 0 <= k < |doc.tasks| && doc.tasks[k].project == p.id ::
               ContractHolds(doc.projects[at := q], doc.tasks, doc.tasks[k]))
    && (op.to == Some(Stalled) ==> !Blank(op.reason))
    && (op.to.Some? && op.to.value != Stalled && op.to.value != p.lifecycle.stage ==> MayMove(q, op.to.value))
    && (p.lifecycle.stage == Executing && (op.to.None? || op.to == Some(Executing)) ==>
          exists m :: m in q.milestones && m.id == p.lifecycle.milestone && m.status == Current)
  }

  ghost predicate AmendedTo(p: Project, op: ProjectOp, now: Project)
    requires op.Contract?
  {
    var q := if op.milestones.Some? then p.(milestones := op.milestones.value) else p;
    if op.to == Some(Stalled) then BlockedFrom(q, now.(rowVersion := p.rowVersion + 1)) && now.rowVersion ==
        p.rowVersion + 2
    else if op.to.None? || op.to.value == p.lifecycle.stage then now == q.(rowVersion := p.rowVersion + 1)
    else MovedTo(q, op.to.value, now.(rowVersion := p.rowVersion)) && now.rowVersion == p.rowVersion + 1
  }

  lemma LastCurrentHas(ms: seq<Milestone>, k: nat)
    requires CurrentAt(ms, k)
    ensures HasCurrent(ms, ms[k].id)
  {
    assert ms[k] in ms;
  }

  lemma ContractResultMeans(p: Project, op: ProjectOp)
    requires op.Contract?
    ensures var q := if op.milestones.Some? then p.(milestones := op.milestones.value) else p;
      var r := ContractResult(p, op.milestones, op.to, op.reason);
      && (r.Some? <==>
           && (p.mode == Paused ==> op.to == None || op.to == Some(Stalled))
           && (op.milestones.Some? ==> MilestonesValid(op.milestones.value))
           && (op.to == Some(Stalled) ==> !Blank(op.reason))
           && (op.to.Some? && op.to.value != Stalled && op.to.value != p.lifecycle.stage ==> MayMove(q, op.to.value))
           && (p.lifecycle.stage == Executing && (op.to.None? || op.to == Some(Executing)) ==>
                 HasCurrent(q.milestones, p.lifecycle.milestone)))
      && (r.Some? ==> AmendedTo(p, op, r.value))
  {
    var q := if op.milestones.Some? then p.(milestones := op.milestones.value) else p;
    if op.to.Some? && op.to.value != Stalled && op.to.value != p.lifecycle.stage {
      TransitionMeans(q, op.to.value, op.reason);
      forall k: nat | CurrentAt(q.milestones, k) {
        LastCurrentHas(q.milestones, k);
      }
    }
  }

  /** The update, and with a block the pause of everything in the project. */
  lemma ContractMeans(doc: Document, at: nat, version: int, op: ProjectOp)
    requires at < |doc.projects| && op.Contract?
    ensures var r := DocAfter(doc, ContractOp(at, version, op));
      && (r.Some? <==> MayAmend(doc, at, version, op))
      && (r.Some? ==>
           && |r.value.projects| == |doc.projects| && r.value.projects == doc.projects[at := r.value.projects[at]]
           && AmendedTo(doc.projects[at], op, r.value.projects[at])
           && if op.to == Some(Stalled)
              then TasksPaused(doc.tasks, doc.projects[at].id, "", true, op.reason, r.value.tasks)
                   && WorkStopped(doc, doc.projects[at].id, "", true, r.value)
              else r.value == doc.(projects := r.value.projects))
  {
    ContractResultMeans(doc.projects[at], op);
    if op.milestones.Some? {
      MilestonesMean(op.milestones.value);
    }
    PauseMeans(doc, doc.projects[at].id, "", op.reason);
  }

  // ---------------------------------------------------------------- tasks

  /** A new contract waits to be dispatched and verified; a user pause has its reason; a resume
      clears it; and a cancellation closes work that is not over. */
  ghost predicate MayEdit(doc: Document, t: Task, edit: TaskEdit, u: Task) {
    match edit
    case NewContract(command, depends, milestone) =>
      && t.dispatch != Claimed && ContractHolds(doc.projects, doc.tasks, u)
      && u.command == (if command.Some? then command.value else t.command)
      && u.dependsOn == (if depends.Some? then depends.value else t.dependsOn)
      && u.milestone == (if milestone.Some? then milestone.value else t.milestone)
      && u.dispatch == Undispatched && !u.passed && u.rowVersion == t.rowVersion + 1
      && t == u.(command := t.command, dependsOn := t.dependsOn, milestone := t.milestone, dispatch := t.dispatch,
                 passed := t.passed, rowVersion := t.rowVersion)
    case UserPause => u == t.(pauseReason := "paused_by_user", rowVersion := t.rowVersion + 2)
    case UserResume =>
      u == t.(pauseReason := "", rowVersion := if t.pauseReason == "" then t.rowVersion + 1 else t.rowVersion + 2)
    case UserCancel =>
      && t.state != ExecutionComplete && t.state != Archived
      && u == t.(state := Cancelled, pauseReason := "",
                 rowVersion := if t.pauseReason == "" then t.rowVersion + 1 else t.rowVersion + 2)
  }

  lemma EditIs(doc: Document, t: Task, edit: TaskEdit, u: Task)
    ensures Rewritten(doc, t, edit) == Some(u) <==> MayEdit(doc, t, edit, u)
  {
    if edit.NewContract? && MayEdit(doc, t, edit, u) {
      assert u == Edited(t, NewTerms(edit.newCommand, edit.newDepends, edit.newMilestone));
    }
  }

  ghost predicate UnderTakeover(projects: seq<Project>, id: string) {
    FindProject(projects, id).Some? && FindProject(projects, id).value.mode == Active
  }

  /** An update is accepted at the current version; of a high-risk task in a project under
      takeover it pauses the whole project. */
  lemma UpdateMeans(doc: Document, i: nat, version: int, edit: TaskEdit)
    requires i < |doc.tasks|
    ensures var r := DocAfter(doc, UpdateOp(i, version, edit));
      && (r.Some? <==> version == doc.tasks[i].rowVersion && exists u :: MayEdit(doc, doc.tasks[i], edit, u))
      && (forall u | r.Some? && MayEdit(doc, doc.tasks[i], edit, u) ::
           var edited := doc.(tasks := doc.tasks[i := u]);
           if u.highRisk && UnderTakeover(doc.projects, u.project)
           then PausedFor(edited, u, true, "high_risk", r.value) else r.value == edited)
  {
    forall u {
      EditIs(doc, doc.tasks[i], edit, u);
    }
    if Rewritten(doc, doc.tasks[i], edit).Some? {
      var u := Rewritten(doc, doc.tasks[i], edit).value;
      PauseIsFor(WithTask(doc, i, u), u, "high_risk");
    }
  }

  /** A task is created with a fresh id in a project that is there, and with a contract that
      stands: human work ready at once, agent work waiting for approval. */
  lemma CreateMeans(doc: Document, id: string, project: string, origin: Origin, milestone: string,
                    dependsOn: seq<string>, command: seq<string>)
    ensures var r := DocAfter(doc, CreateOp(id, project, origin, milestone, dependsOn, command));
      var u := Task(id, project, milestone, dependsOn, command, "", false, 0, "", origin, Planned,
                    if origin == Human then Ready else AwaitingApproval, "", false, "plan",
                    if origin == Human then 1 else 2);
      && (r.Some? <==>
           && (forall t | t in doc.tasks :: t.id != id) && (exists p :: p in doc.projects && p.id == project)
           && ContractHolds(doc.projects, doc.tasks, u))
      && (r.Some? ==> r.value == doc.(tasks := doc.tasks + [u]))
  {
    assert Raised(id, project, origin, milestone, dependsOn, command).id == id;
  }

  lemma DispatchMeans(doc: Document, i: nat, approved: bool, baseline: string)
    requires i < |doc.tasks|
    ensures var r := DocAfter(doc, DispatchDecision(i, approved, baseline));
      var t := doc.tasks[i];
      && r.Some? && r.value == doc.(tasks := r.value.tasks) && OnlyTask(doc.tasks, i, r.value.tasks)
      && var u := r.value.tasks[i];
        && (if approved then u.dispatch == Ready && u.baseline == baseline
            else u.dispatch == Undispatched && u.baseline == t.baseline)
        && t == u.(dispatch := t.dispatch, baseline := t.baseline, rowVersion := t.rowVersion)
        && u.rowVersion == t.rowVersion + 1
  {
  }

  // ---------------------------------------------------------------- which claims are revoked

  /** Nothing may be worked on: the task is paused, released or cancelled, or an agent raised it
      in a project that is not under takeover. */
  predicate Shut(doc: Document, t: Task) {
    || t.pauseReason != "" || t.dispatch == Released || t.state == Cancelled
    || (t.origin == Agent && FindProject(doc.projects, t.project).Some?
        && FindProject(doc.projects, t.project).value.mode != Active)
  }

  lemma ClosedIsShut(doc: Document, t: Task)
    ensures ExecutionClosed(doc, t) <==> Shut(doc, t)
  {
  }

  /** After a transaction without error no active lease of the user is for a shut task. */
  lemma SweptMeans(s: Server, l: Step, t: Server, id: string, k: nat)
    requires Next(s, l, t) && Committed(s, l, t)
    requires id in t.rows && t.rows[id].status == LeaseActive && t.rows[id].user == s.me
    requires k < |t.doc.tasks| && t.doc.tasks[k].id == t.rows[id].task
    ensures !Shut(t.doc, t.doc.tasks[k])
  {
    CommittedSweeps(s, l, t);
    ClosedIsShut(t.doc, t.doc.tasks[k]);
  }

  /** And a pass takes nothing else away: a lease that it ends was one of the user's, for a shut
      task among those it reached. */
  lemma PassTakesOnlyShut(doc: Document, rows: Rows, me: string, n: nat, now: int, id: string)
    requires n <= |doc.tasks| && id in rows
    ensures var after := RevokeClosed(doc, rows, me, n, now);
      && id in after
      && (after[id] != rows[id] <==>
           rows[id].status == LeaseActive && rows[id].user == me
             && exists k :: 0 <= k < n && doc.tasks[k].id == rows[id].task && Shut(doc, doc.tasks[k]))
      && (after[id] != rows[id] ==> after[id] == rows[id].(status := LeaseReleased, updated := now))
  {
    RevokedRow(doc, rows, me, n, now, id);
    forall k | 0 <= k < n {
      ClosedIsShut(doc, doc.tasks[k]);
    }
  }
}
