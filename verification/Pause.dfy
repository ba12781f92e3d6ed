/** What a pause closes: the claim predicates of a task, the fixpoint that finds everything
    depending on a paused task, and the pause itself. */
module Pause {
  import opened Basics
  import opened ProjectState
  import opened TaskContract

  // ---------------------------------------------------------------- claim predicates

  predicate DependenciesPassed(tasks: seq<Task>, task: Task) {
    forall d | d in task.dependsOn ::
      var dep := FindTask(tasks, d);
      && dep.Some? && dep.value.pauseReason == "" && dep.value.dispatch == Done
      && (dep.value.command != [] ==> dep.value.passed)
  }

  /** Checked before a lease is inserted and again under the store lock. */
  predicate ClaimAllowed(doc: Document, task: Task) {
    task.pauseReason == "" &&
    match task.origin
    case Human =>
      && task.state in {Planned, Queued, TaskState.Running, WaitingReview, WaitingHuman, Blocked, Failed}
      && !task.highRisk
      && DependenciesPassed(doc.tasks, task)
    case Agent =>
      var p := FindProject(doc.projects, task.project);
      && p.Some? && p.value.mode == Active && p.value.lifecycle.stage == Executing
      && task.command != [] && !task.highRisk
      && (p.value.lifecycle.milestone != "" ==> task.milestone == p.value.lifecycle.milestone)
      && DependenciesPassed(doc.tasks, task)
  }

  /** Where dispatch has left the task: approved, or a stale gate on human work. */
  predicate Claimable(task: Task) {
    task.dispatch == Ready || (task.origin == Human && task.dispatch == AwaitingApproval)
  }

  /** Execution is closed and any lease on the task has to be revoked. */
  predicate ExecutionClosed(doc: Document, task: Task) {
    || task.pauseReason != ""
    || task.dispatch == Released || task.state == Cancelled
    || (task.origin == Agent &&
        FindProject(doc.projects, task.project).Some? &&
        FindProject(doc.projects, task.project).value.mode in {Manual, Paused})
  }

  // ---------------------------------------------------------------- the fixpoint

  ghost predicate ClosedUnderDependents(tasks: seq<Task>, project: string, s: set<string>) {
    forall t, d | t in tasks && t.project == project && d in t.dependsOn && d in s :: t.id in s
  }

  ghost predicate IsLeastClosed(tasks: seq<Task>, project: string, root: string, s: set<string>) {
    && root in s && ClosedUnderDependents(tasks, project, s)
    && forall other: set<string> | root in other && ClosedUnderDependents(tasks, project, other) :: s <= other
  }

  /** The paused task and everything that depends on it inside the project, directly or not. */
  ghost function Affected(tasks: seq<Task>, project: string, root: string): set<string> {
    set id | id in Ids(tasks) + {root} &&
      forall other: set<string> | root in other && ClosedUnderDependents(tasks, project, other) :: id in other
  }

  lemma AffectedIsLeastClosed(tasks: seq<Task>, project: string, root: string)
    ensures IsLeastClosed(tasks, project, root, Affected(tasks, project, root))
  {
    var a := Affected(tasks, project, root);
    forall t, d | t in tasks && t.project == project && d in t.dependsOn && d in a
      ensures t.id in a
    {
      assert FindTask(tasks, t.id).Some?;
    }
  }

  lemma LeastClosedIsUnique(tasks: seq<Task>, project: string, root: string, s: set<string>)
    requires IsLeastClosed(tasks, project, root, s)
    ensures s == Affected(tasks, project, root)
  {
    AffectedIsLeastClosed(tasks, project, root);
  }

  /** Only ids, projects and dependencies decide who depends on a task. */
  lemma SameAffected(tasks: seq<Task>, others: seq<Task>, project: string, root: string)
    requires |tasks| == |others|
    requires forall k | 0 <= k < |tasks| ::
      tasks[k].id == others[k].id && tasks[k].project == others[k].project && tasks[k].dependsOn == others[k].dependsOn
    ensures Affected(tasks, project, root) == Affected(others, project, root)
  {
    AffectedIsLeastClosed(tasks, project, root);
    SameClosed(tasks, others, project, Affected(tasks, project, root));
    forall other: set<string> | root in other && ClosedUnderDependents(others, project, other)
      ensures Affected(tasks, project, root) <= other
    {
      SameClosed(others, tasks, project, other);
    }
    LeastClosedIsUnique(others, project, root, Affected(tasks, project, root));
  }

  lemma SameClosed(tasks: seq<Task>, others: seq<Task>, project: string, s: set<string>)
    requires |tasks| == |others| && ClosedUnderDependents(tasks, project, s)
    requires forall k | 0 <= k < |tasks| ::
      tasks[k].id == others[k].id && tasks[k].project == others[k].project && tasks[k].dependsOn == others[k].dependsOn
    ensures ClosedUnderDependents(others, project, s)
  {
    forall t, d | t in others && t.project == project && d in t.dependsOn && d in s ensures t.id in s {
      var k :| 0 <= k < |others| && others[k] == t;
      assert tasks[k] in tasks;
    }
  }

  // ---------------------------------------------------------------- the same by paths

  ghost predicate DependsDirectly(tasks: seq<Task>, project: string, from: string, to: string) {
    exists t :: t in tasks && t.id == to && t.project == project && from in t.dependsOn
  }

  /** Each task of the chain but the first is in the project and depends on the one before it. */
  ghost predicate Chain(tasks: seq<Task>, project: string, p: seq<string>) {
    |p| > 0 && forall k | 0 <= k < |p| - 1 :: DependsDirectly(tasks, project, p[k], p[k+1])
  }

  ghost predicate ChainTo(tasks: seq<Task>, project: string, root: string, p: seq<string>, id: string) {
    Chain(tasks, project, p) && p[0] == root && p[|p|-1] == id
  }

  /** The root itself, or a task that depends on it through tasks of the project. */
  ghost predicate Dependent(tasks: seq<Task>, project: string, root: string, id: string) {
    exists p :: ChainTo(tasks, project, root, p, id)
  }

  lemma {:induction false} ChainStaysClosed(tasks: seq<Task>, project: string, p: seq<string>, s: set<string>)
    requires Chain(tasks, project, p) && p[0] in s && ClosedUnderDependents(tasks, project, s)
    ensures p[|p|-1] in s
  {
    if |p| > 1 {
      var n := |p| - 1;
      ChainStaysClosed(tasks, project, p[..n], s);
      assert DependsDirectly(tasks, project, p[n-1], p[n]);
    }
  }

  /** The least closed set is what chains of dependencies reach. */
  lemma AffectedByChains(tasks: seq<Task>, project: string, root: string, id: string)
    ensures id in Affected(tasks, project, root) <==> Dependent(tasks, project, root, id)
  {
    var a := Affected(tasks, project, root);
    AffectedIsLeastClosed(tasks, project, root);
    if Dependent(tasks, project, root, id) {
      var p :| ChainTo(tasks, project, root, p, id);
      ChainStaysClosed(tasks, project, p, a);
    }
    var reached := set x | x in a && Dependent(tasks, project, root, x);
    assert ChainTo(tasks, project, root, [root], root);
    forall t, d | t in tasks && t.project == project && d in t.dependsOn && d in reached ensures t.id in reached {
      var p :| ChainTo(tasks, project, root, p, d);
      assert DependsDirectly(tasks, project, d, t.id);
      assert ChainTo(tasks, project, root, p + [t.id], t.id);
    }
    assert a <= reached;
  }

  /** Nothing in s is there without need. */
  ghost predicate Needed(tasks: seq<Task>, project: string, root: string, s: set<string>) {
    forall other: set<string> | root in other && ClosedUnderDependents(tasks, project, other) :: s <= other
  }

  lemma DependentIsNeeded(tasks: seq<Task>, project: string, root: string, s: set<string>, t: Task, d: string)
    requires Needed(tasks, project, root, s) && t in tasks && t.project == project && d in t.dependsOn && d in s
    ensures Needed(tasks, project, root, s + {t.id})
  {
  }

  /** Sweeps the stored tasks until a whole sweep adds nothing. */
  method FindAffected(tasks: seq<Task>, project: string, root: string) returns (affected: set<string>)
    ensures IsLeastClosed(tasks, project, root, affected)
    ensures affected == Affected(tasks, project, root)
  {
    affected := {root};
    var changed := true;
    while changed
      invariant root in affected
      invariant Needed(tasks, project, root, affected)
      invariant !changed ==> ClosedUnderDependents(tasks, project, affected)
      decreases Ids(tasks) - affected, changed
    {
      changed := false;
      ghost var before := affected;
      for i := 0 to |tasks|
        invariant before <= affected && (changed <==> before < affected)
        invariant changed ==> Ids(tasks) - affected < Ids(tasks) - before
        invariant Needed(tasks, project, root, affected)
        invariant !changed ==>
            forall k, d | 0 <= k < i && tasks[k].project == project && d in tasks[k].dependsOn && d in before ::
                tasks[k].id in before
      {
        var t := tasks[i];
        if t.project == project && t.id !in affected {
          for j := 0 to |t.dependsOn|
            invariant forall k | 0 <= k < j :: t.dependsOn[k] !in affected
          {
            if t.dependsOn[j] in affected {
              assert t in tasks && FindTask(tasks, t.id).Some?;
              assert t.id in Ids(tasks) - affected;
              DependentIsNeeded(tasks, project, root, affected, t, t.dependsOn[j]);
              affected := affected + {t.id};
              changed := true;
              break;
            }
          }
        }
      }
    }
    LeastClosedIsUnique(tasks, project, root, affected);
  }

  // ---------------------------------------------------------------- the pause

  predicate ProjectScopeReason(reason: string) {
    reason in {"path_violation", "tool_violation", "shared_directory_conflict", "high_risk"}
  }

  predicate ProjectWide(root: string, reason: string) {
    root == "" || ProjectScopeReason(reason)
  }

  function PausedProject(p: Project, reason: string): Project {
    p.(mode := Paused,
       lifecycle := p.lifecycle.(stage := Stalled,
                                 previous := if p.lifecycle.stage != Stalled then Some(p.lifecycle.stage)
                                   else p.lifecycle.previous),
       rowVersion := p.rowVersion + 1)
  }

  function PausedTask(t: Task, reason: string): Task {
    if t.dispatch == Done then t
    else t.(pauseReason := reason,
            dispatch := if t.dispatch in {Claimed, Ready} then Released else t.dispatch,
            runtime := "", rowVersion := t.rowVersion + 1)
  }

  function StoppedAttempt(a: Attempt): Attempt {
    if a.status == AttemptRunning then a.(status := AttemptFailed) else a
  }

  function StoppedRun(r: ToolRun): ToolRun {
    if r.status == RunRunning || r.status == RunWaiting then r.(status := RunFailed) else r
  }

  /** The ids a pause reaches, as a test on tasks. */
  ghost predicate InScope(tasks: seq<Task>, project: string, root: string, reason: string, t: Task) {
    t.project == project && (ProjectWide(root, reason) || t.id in Affected(tasks, project, root))
  }

  ghost predicate OwnerInScope(tasks: seq<Task>, project: string, root: string, reason: string, id: string) {
    FindTask(tasks, id).Some? && InScope(tasks, project, root, reason, FindTask(tasks, id).value)
  }

  /** The document after a pause, told member by member. */
  ghost predicate IsPaused(doc: Document, project: string, root: string, reason: string, after: Document) {
    && |after.projects| == |doc.projects| && |after.tasks| == |doc.tasks|
    && |after.attempts| == |doc.attempts| && |after.runs| == |doc.runs|
    && (forall i | 0 <= i < |doc.projects| ::
          after.projects[i] == if doc.projects[i].id == project && ProjectWide(root, reason)
                               then PausedProject(doc.projects[i], reason) else doc.projects[i])
    && (forall i | 0 <= i < |doc.tasks| ::
          after.tasks[i] == if InScope(doc.tasks, project, root, reason, doc.tasks[i])
                            then PausedTask(doc.tasks[i], reason) else doc.tasks[i])
    && (forall i | 0 <= i < |doc.attempts| ::
          after.attempts[i] == if OwnerInScope(doc.tasks, project, root, reason, doc.attempts[i].task)
                               then StoppedAttempt(doc.attempts[i]) else doc.attempts[i])
    && (forall i | 0 <= i < |doc.runs| ::
          after.runs[i] == if OwnerInScope(doc.tasks, project, root, reason, doc.runs[i].task)
                           then StoppedRun(doc.runs[i]) else doc.runs[i])
  }

  /** As a function: there is exactly one such document. */
  ghost function PausedDocument(doc: Document, project: string, root: string, reason: string): (after: Document)
    ensures IsPaused(doc, project, root, reason, after)
  {
    Document(
      seq(|doc.projects|, i requires 0 <= i < |doc.projects| =>
        if doc.projects[i].id == project && ProjectWide(root, reason)
        then PausedProject(doc.projects[i], reason) else doc.projects[i]),
      seq(|doc.tasks|, i requires 0 <= i < |doc.tasks| =>
        if InScope(doc.tasks, project, root, reason, doc.tasks[i])
        then PausedTask(doc.tasks[i], reason) else doc.tasks[i]),
      seq(|doc.attempts|, i requires 0 <= i < |doc.attempts| =>
        if OwnerInScope(doc.tasks, project, root, reason, doc.attempts[i].task)
        then StoppedAttempt(doc.attempts[i]) else doc.attempts[i]),
      seq(|doc.runs|, i requires 0 <= i < |doc.runs| =>
        if OwnerInScope(doc.tasks, project, root, reason, doc.runs[i].task)
        then StoppedRun(doc.runs[i]) else doc.runs[i]))
  }

  /** Lookup through a document whose tasks changed in place but kept id and project. */
  lemma {:induction false} FindThrough(before: seq<Task>, after: seq<Task>, id: string)
    requires |before| == |after|
    requires forall i | 0 <= i < |before| :: before[i].id == after[i].id
    ensures FindTask(before, id).Some? == FindTask(after, id).Some?
    ensures FindTask(before, id).Some? ==> exists i ::
      0 <= i < |before| && FindTask(before, id).value == before[i] && FindTask(after, id).value == after[i]
  {
    if before != [] && before[0].id != id {
      FindThrough(before[1..], after[1..], id);
      if FindTask(before, id).Some? {
        var i :| 0 <= i < |before| - 1 && FindTask(before, id).value == before[1..][i]
          && FindTask(after, id).value == after[1..][i];
        assert before[i+1] == before[1..][i] && after[i+1] == after[1..][i];
      }
    } else if before != [] {
      assert FindTask(before, id).value == before[0] && FindTask(after, id).value == after[0];
    }
  }

  predicate OwnerAffected(tasks: seq<Task>, id: string, project: string, wide: bool, affected: set<string>) {
    var t := FindTask(tasks, id);
    t.Some? && t.value.project == project && (wide || t.value.id in affected)
  }

  lemma SameOwner(before: seq<Task>, after: seq<Task>, project: string, root: string, reason: string, id: string)
    requires |before| == |after|
    requires forall i | 0 <= i < |before| :: before[i].id == after[i].id && before[i].project == after[i].project
    ensures OwnerInScope(before, project, root, reason, id) <==>
            OwnerAffected(after, id, project, ProjectWide(root, reason), Affected(before, project, root))
  {
    FindThrough(before, after, id);
  }

  /** The four sweeps of a pause put together. */
  lemma SweepsPause(doc: Document, project: string, root: string, reason: string, after: Document)
    requires |after.projects| == |doc.projects| && |after.tasks| == |doc.tasks|
    requires |after.attempts| == |doc.attempts| && |after.runs| == |doc.runs|
    requires forall i | 0 <= i < |doc.projects| ::
      after.projects[i] == if doc.projects[i].id == project && ProjectWide(root, reason)
                           then PausedProject(doc.projects[i], reason) else doc.projects[i]
    requires forall i | 0 <= i < |doc.tasks| ::
      after.tasks[i] == if doc.tasks[i].project == project
        && (ProjectWide(root, reason) || doc.tasks[i].id in Affected(doc.tasks, project, root))
                        then PausedTask(doc.tasks[i], reason) else doc.tasks[i]
    requires forall i | 0 <= i < |doc.attempts| ::
      after.attempts[i] == if OwnerAffected(after.tasks, doc.attempts[i].task, project, ProjectWide(root, reason),
        Affected(doc.tasks, project, root))
                           then StoppedAttempt(doc.attempts[i]) else doc.attempts[i]
    requires forall i | 0 <= i < |doc.runs| ::
      after.runs[i] == if OwnerAffected(after.tasks, doc.runs[i].task, project, ProjectWide(root, reason),
          Affected(doc.tasks, project, root))
                       then StoppedRun(doc.runs[i]) else doc.runs[i]
    ensures after == PausedDocument(doc, project, root, reason)
  {
    assert forall i | 0 <= i < |doc.tasks| ::
        doc.tasks[i].id == after.tasks[i].id && doc.tasks[i].project == after.tasks[i].project;
    assert IsPaused(doc, project, root, reason, after) by {
      forall i | 0 <= i < |doc.attempts| {
        SameOwner(doc.tasks, after.tasks, project, root, reason, doc.attempts[i].task);
      }
      forall i | 0 <= i < |doc.runs| {
        SameOwner(doc.tasks, after.tasks, project, root, reason, doc.runs[i].task);
      }
    }
    PausedIsDetermined(doc, project, root, reason, after);
  }

  lemma PausedIsDetermined(doc: Document, project: string, root: string, reason: string, after: Document)
    requires IsPaused(doc, project, root, reason, after)
    ensures after == PausedDocument(doc, project, root, reason)
  {
    var paused := PausedDocument(doc, project, root, reason);
    assert after.projects == paused.projects && after.tasks == paused.tasks;
    assert after.attempts == paused.attempts && after.runs == paused.runs;
  }

  /** After a pause nothing in its scope runs or can be claimed, except work already done. */
  lemma PauseClosesScope(doc: Document, project: string, root: string, reason: string, after: Document)
    requires IsPaused(doc, project, root, reason, after) && !Blank(reason)
    ensures forall i | 0 <= i < |after.tasks| && InScope(doc.tasks, project, root, reason, doc.tasks[i])
        && after.tasks[i].dispatch != Done ::
      && after.tasks[i].dispatch !in {Claimed, Ready} && !ClaimAllowed(after, after.tasks[i])
      && ExecutionClosed(after, after.tasks[i])
    ensures forall a | a in after.attempts && OwnerInScope(doc.tasks, project, root, reason, a.task) ::
        a.status != AttemptRunning
    ensures forall r | r in after.runs && OwnerInScope(doc.tasks, project, root, reason, r.task) ::
        r.status !in {RunRunning, RunWaiting}
  {
    assert reason != "";
  }
}
