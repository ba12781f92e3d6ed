/** What the operations on the document mean for a task, a project and a lease, field by field
    and without the functions that compute them. */
module Outcomes {
  import opened Basics
  import opened ProjectState
  import opened TaskContract
  import opened Pause
  import opened Takeover
  import opened LeaseTable
  import opened Protocol

  // ---------------------------------------------------------------- a pause

  predicate WideReason(root: string, reason: string) {
    || root == "" || reason == "path_violation" || reason == "tool_violation"
    || reason == "shared_directory_conflict" || reason == "high_risk"
  }

  /** The task is reached by a pause of the root: everything in the project is, or what depends
      on the root through tasks of the project. */
  ghost predicate Reached(tasks: seq<Task>, project: string, root: string, wide: bool, t: Task) {
    t.project == project && (wide || Dependent(tasks, project, root, t.id))
  }

  /** A pause leaves finished work alone; other work gets the reason, loses its holder, and is
      taken out of the queue. */
  predicate PausedTo(was: Task, now: Task, reason: string) {
    if was.dispatch == Done then now == was
    else
      && now.pauseReason == reason && now.runtime == "" && now.rowVersion == was.rowVersion + 1
      && (was.dispatch == Claimed || was.dispatch == Ready ==> now.dispatch == Released)
      && (was.dispatch != Claimed && was.dispatch != Ready ==> now.dispatch == was.dispatch)
      && was == now.(pauseReason := was.pauseReason, runtime := was.runtime, rowVersion := was.rowVersion,
                     dispatch := was.dispatch)
  }

  /** A blocked project remembers the stage it was in before the first pause. */
  predicate BlockedFrom(was: Project, now: Project) {
    && now.mode == Paused && now.lifecycle.stage == Stalled && now.rowVersion == was.rowVersion + 1
    && (was.lifecycle.stage == Stalled ==> now.lifecycle.previous == was.lifecycle.previous)
    && (was.lifecycle.stage != Stalled ==> now.lifecycle.previous == Some(was.lifecycle.stage))
    && now.lifecycle.milestone == was.lifecycle.milestone
    && now.id == was.id && now.milestones == was.milestones
  }

  ghost predicate OwnerReached(tasks: seq<Task>, project: string, root: string, wide: bool, owner: string) {
    FindTask(tasks, owner).Some? && Reached(tasks, project, root, wide, FindTask(tasks, owner).value)
  }

  /** Work in progress of a reached task fails; nothing else of it changes. */
  ghost predicate WorkStopped(doc: Document, project: string, root: string, wide: bool, after: Document) {
    && |after.attempts| == |doc.attempts| && |after.runs| == |doc.runs|
    && (forall k | 0 <= k < |doc.attempts| ::
         if OwnerReached(doc.tasks, project, root, wide, doc.attempts[k].task)
              && doc.attempts[k].status == AttemptRunning
         then after.attempts[k] == doc.attempts[k].(status := AttemptFailed)
         else after.attempts[k] == doc.attempts[k])
    && (forall k | 0 <= k < |doc.runs| ::
         if OwnerReached(doc.tasks, project, root, wide, doc.runs[k].task)
              && (doc.runs[k].status == RunRunning || doc.runs[k].status == RunWaiting)
         then after.runs[k] == doc.runs[k].(status := RunFailed) else after.runs[k] == doc.runs[k])
  }

  ghost predicate TasksPaused(tasks: seq<Task>, project: string, root: string, wide: bool, reason: string,
                              after: seq<Task>) {
    && |after| == |tasks|
    && forall k | 0 <= k < |tasks| ::
         if Reached(tasks, project, root, wide, tasks[k]) then PausedTo(tasks[k], after[k], reason)
         else after[k] == tasks[k]
  }

  ghost predicate ProjectsBlocked(projects: seq<Project>, project: string, wide: bool, after: seq<Project>) {
    && |after| == |projects|
    && forall k | 0 <= k < |projects| ::
         if wide && projects[k].id == project then BlockedFrom(projects[k], after[k]) else after[k] == projects[k]
  }

  lemma ReachedIsInScope(tasks: seq<Task>, project: string, root: string, reason: string, t: Task)
    ensures InScope(tasks, project, root, reason, t) <==>
            Reached(tasks, project, root, WideReason(root, reason), t)
  {
    AffectedByChains(tasks, project, root, t.id);
  }

  lemma PauseOfTasks(doc: Document, project: string, root: string, reason: string)
    ensures var after := PausedDocument(doc, project, root, reason);
      var wide := WideReason(root, reason);
      && TasksPaused(doc.tasks, project, root, wide, reason, after.tasks)
      && ProjectsBlocked(doc.projects, project, wide, after.projects)
  {
    assert IsPaused(doc, project, root, reason, PausedDocument(doc, project, root, reason));
    forall k | 0 <= k < |doc.tasks| {
      ReachedIsInScope(doc.tasks, project, root, reason, doc.tasks[k]);
    }
  }

  lemma OwnerIsInScope(tasks: seq<Task>, project: string, root: string, reason: string, owner: string)
    ensures OwnerInScope(tasks, project, root, reason, owner) <==>
            OwnerReached(tasks, project, root, WideReason(root, reason), owner)
  {
    if FindTask(tasks, owner).Some? {
      ReachedIsInScope(tasks, project, root, reason, FindTask(tasks, owner).value);
    }
  }

  /** The whole effect of a pause. */
  lemma PauseMeans(doc: Document, project: string, root: string, reason: string)
    ensures var after := PausedDocument(doc, project, root, reason);
      var wide := WideReason(root, reason);
      && TasksPaused(doc.tasks, project, root, wide, reason, after.tasks)
      && ProjectsBlocked(doc.projects, project, wide, after.projects)
      && WorkStopped(doc, project, root, wide, after)
  {
    PauseOfTasks(doc, project, root, reason);
    assert IsPaused(doc, project, root, reason, PausedDocument(doc, project, root, reason));
    forall k | 0 <= k < |doc.attempts| {
      OwnerIsInScope(doc.tasks, project, root, reason, doc.attempts[k].task);
    }
    forall k | 0 <= k < |doc.runs| {
      OwnerIsInScope(doc.tasks, project, root, reason, doc.runs[k].task);
    }
  }

  /** A task pauses with what depends on it, or with the whole project. */
  ghost predicate PausedFor(doc: Document, t: Task, wide: bool, reason: string, after: Document) {
    && TasksPaused(doc.tasks, t.project, t.id, wide, reason, after.tasks)
    && ProjectsBlocked(doc.projects, t.project, wide, after.projects)
    && WorkStopped(doc, t.project, t.id, wide, after)
  }

  lemma PauseIsFor(doc: Document, t: Task, reason: string)
    ensures PausedFor(doc, t, WideReason(t.id, reason), reason, PausedDocument(doc, t.project, t.id, reason))
  {
    PauseMeans(doc, t.project, t.id, reason);
  }

  // ---------------------------------------------------------------- the end of a release

  /** The same tasks as far as a pause looks at them. */
  ghost predicate SameShape(tasks: seq<Task>, others: seq<Task>) {
    && |tasks| == |others|
    && forall k | 0 <= k < |tasks| ::
         tasks[k].id == others[k].id && tasks[k].project == others[k].project
           && tasks[k].dependsOn == others[k].dependsOn
  }

  lemma SameReach(tasks: seq<Task>, others: seq<Task>, project: string, root: string, wide: bool)
    requires SameShape(tasks, others)
    ensures forall id :: Dependent(tasks, project, root, id) <==> Dependent(others, project, root, id)
    ensures forall owner ::
        OwnerReached(tasks, project, root, wide, owner) <==> OwnerReached(others, project, root, wide, owner)
  {
    SameAffected(tasks, others, project, root);
    forall id ensures Dependent(tasks, project, root, id) <==> Dependent(others, project, root, id) {
      AffectedByChains(tasks, project, root, id);
      AffectedByChains(others, project, root, id);
    }
    forall owner
      ensures OwnerReached(tasks, project, root, wide, owner) <==> OwnerReached(others, project, root, wide, owner)
    {
      FindThrough(tasks, others, owner);
    }
  }

  /** Only the task at i is another. */
  ghost predicate OnlyTask(was: seq<Task>, i: nat, now: seq<Task>) {
    i < |was| == |now| && forall k | 0 <= k < |was| && k != i :: now[k] == was[k]
  }

  /** A verified task is passed, done and nobody's, its failures forgotten. */
  predicate Verified(was: Task, now: Task) {
    && now.passed && now.failures == 0 && now.dispatch == Done && now.runtime == ""
    && now.rowVersion == was.rowVersion + 1
    && was == now.(passed := was.passed, failures := was.failures, dispatch := was.dispatch, runtime := was.runtime,
                   rowVersion := was.rowVersion)
  }

  /** A task that failed is not passed, and is paused with the reason and out of its holder's
      hands; a failure of the verification counts. */
  predicate FailedTo(was: Task, now: Task, counted: nat, reason: string) {
    && !now.passed && now.failures == was.failures + counted && now.pauseReason == reason && now.runtime == ""
    && now.dispatch == Released && now.rowVersion == was.rowVersion + 2
    && was == now.(passed := was.passed, failures := was.failures, pauseReason := was.pauseReason,
                   runtime := was.runtime, dispatch := was.dispatch, rowVersion := was.rowVersion)
  }

  /** The milestone in execution has tasks, and all of them are done and verified. */
  ghost predicate MilestoneFinished(tasks: seq<Task>, p: Project) {
    && (exists k :: 0 <= k < |tasks| && tasks[k].project == p.id && tasks[k].milestone == p.lifecycle.milestone)
    && forall k | 0 <= k < |tasks| && tasks[k].project == p.id && tasks[k].milestone == p.lifecycle.milestone ::
         tasks[k].dispatch == Done && tasks[k].passed
  }

  /** The project whose milestone is finished waits for its acceptance; no other changes. */
  ghost predicate ProjectsReviewed(projects: seq<Project>, project: string, tasks: seq<Task>, after: seq<Project>) {
    && |after| == |projects|
    && forall k | 0 <= k < |projects| ::
         var p, q := projects[k], after[k];
         if p.id == project && p.lifecycle.stage == Executing && MilestoneFinished(tasks, p)
         then q.lifecycle.stage == AwaitingAcceptance && q.rowVersion == p.rowVersion + 1
                && p == q.(lifecycle := p.lifecycle, rowVersion := p.rowVersion)
                && q.lifecycle.milestone == p.lifecycle.milestone && q.lifecycle.previous == p.lifecycle.previous
         else q == p
  }

  ghost predicate PassedOutcome(doc: Document, i: nat, after: Document) {
    && OnlyTask(doc.tasks, i, after.tasks) && Verified(doc.tasks[i], after.tasks[i])
    && ProjectsReviewed(doc.projects, doc.tasks[i].project, after.tasks, after.projects)
    && after.attempts == doc.attempts && after.runs == doc.runs
  }

  /** The failed task and what depends on it are paused, and their work stops. */
  ghost predicate FailedOutcome(doc: Document, i: nat, counted: nat, reason: string, after: Document) {
    && i < |doc.tasks| == |after.tasks| && FailedTo(doc.tasks[i], after.tasks[i], counted, reason)
    && var t := doc.tasks[i];
      var wide := WideReason(t.id, reason);
      && (forall k | 0 <= k < |doc.tasks| && k != i ::
           if Reached(doc.tasks, t.project, t.id, wide, doc.tasks[k])
               then PausedTo(doc.tasks[k], after.tasks[k], reason)
           else after.tasks[k] == doc.tasks[k])
      && ProjectsBlocked(doc.projects, t.project, wide, after.projects)
      && WorkStopped(doc, t.project, t.id, wide, after)
  }

  lemma PassedMeans(doc: Document, i: nat)
    requires i < |doc.tasks|
    ensures PassedOutcome(doc, i, PassedDocument(doc, i))
  {
    var t := doc.tasks[i];
    var mid := WithTask(doc, i, t.(passed := true, failures := 0, dispatch := Done, runtime := ""));
    var after := PassedDocument(doc, i);
    ReviewedTasks(mid, t.project);
    forall k | 0 <= k < |doc.projects|
      ensures MilestoneDone(mid.tasks, doc.projects[k]) <==> MilestoneFinished(after.tasks, doc.projects[k])
    {
      SameMilestone(mid.tasks, after.tasks, doc.projects[k]);
    }
  }

  lemma SameMilestone(tasks: seq<Task>, after: seq<Task>, p: Project)
    requires |tasks| == |after|
    requires forall k | 0 <= k < |tasks| :: after[k].(rowVersion := tasks[k].rowVersion) == tasks[k]
    ensures MilestoneDone(tasks, p) <==> MilestoneFinished(after, p)
  {
    assert forall k | 0 <= k < |tasks| :: tasks[k] in tasks && after[k] in after;
  }

  lemma FailedMeans(doc: Document, i: nat, verified: bool)
    requires i < |doc.tasks| && doc.tasks[i].dispatch == Claimed
    ensures var reason := if !verified then "task_failed"
                          else if doc.tasks[i].failures >= 1 then "acceptance_failed_twice" else "acceptance_failed";
      FailedOutcome(doc, i, if verified then 1 else 0, reason, FailedDocument(doc, i, verified))
  {
    var t := doc.tasks[i];
    var noted := Noted(doc, i, verified);
    var reason := FailureReason(verified, noted.tasks[i].failures);
    var wide := WideReason(t.id, reason);
    var paused := PausedDocument(noted, t.project, t.id, reason);
    PauseMeans(noted, t.project, t.id, reason);
    SamePause(doc, noted, t.project, t.id, wide, reason, paused);
    assert ChainTo(noted.tasks, t.project, t.id, [t.id], t.id);
    assert Reached(noted.tasks, t.project, t.id, wide, noted.tasks[i]);
    assert PausedTo(noted.tasks[i], paused.tasks[i], reason);
  }

  /** A pause after a change that it does not look at. */
  lemma SamePause(doc: Document, noted: Document, project: string, root: string, wide: bool, reason: string,
                  paused: Document)
    requires SameShape(doc.tasks, noted.tasks) && noted == doc.(tasks := noted.tasks)
    requires TasksPaused(noted.tasks, project, root, wide, reason, paused.tasks)
    requires WorkStopped(noted, project, root, wide, paused)
    ensures forall k | 0 <= k < |doc.tasks| && noted.tasks[k] == doc.tasks[k] ::
      if Reached(doc.tasks, project, root, wide, doc.tasks[k]) then PausedTo(doc.tasks[k], paused.tasks[k], reason)
      else paused.tasks[k] == doc.tasks[k]
    ensures WorkStopped(doc, project, root, wide, paused)
  {
    SameReach(doc.tasks, noted.tasks, project, root, wide);
  }

  /** What a verdict under a good lease does, once it is in force: the command that passed marks
      its task passed and done; one that failed counts, takes the mark and the task away, and
      pauses it with what depends on it. The lease is given back either way. */
  lemma CommitMeans(s: Server, q: nat, i: nat, passed: bool, save: Save, n: nat, t: Server)
    requires CommitStep(s, q, i, passed, save, n, t)
    requires LeaseGood(s.doc, s.rows, s.me, i, s.requests[q].lease, s.clock)
    ensures save == SaveLost ==> t.doc == s.doc
    ensures save != SaveLost && passed ==> PassedOutcome(s.doc, i, t.doc)
    ensures save != SaveLost && !passed ==>
      FailedOutcome(s.doc, i, 1, if s.doc.tasks[i].failures >= 1 then "acceptance_failed_twice"
          else "acceptance_failed",
                    t.doc)
    ensures s.requests[q].lease in t.rows && t.rows[s.requests[q].lease].status == LeaseReleased
  {
    if passed {
      PassedMeans(s.doc, i);
    } else {
      FailedMeans(s.doc, i, true);
    }
    GivenBack(s, VerifiedDocument(s.doc, i, passed), s.requests[q].lease, save, n, t);
  }

  lemma GivenBack(s: Server, doc: Document, lease: string, save: Save, n: nat, t: Server)
    requires Transacted(s, doc, Apply(Close(s.me, lease), s.rows, s.clock), save, n, t)
    requires Usable(s.rows, s.me, lease, s.clock)
    ensures lease in t.rows && t.rows[lease].status == LeaseReleased
  {
    RevokedRow(doc, Apply(Close(s.me, lease), s.rows, s.clock), s.me, n, s.clock, lease);
  }

  /** A verdict under a lease that no longer holds changes neither store. */
  lemma LateCommitMeans(s: Server, q: nat, i: nat, passed: bool, save: Save, n: nat, t: Server)
    requires CommitStep(s, q, i, passed, save, n, t)
    requires !LeaseGood(s.doc, s.rows, s.me, i, s.requests[q].lease, s.clock)
    ensures t.doc == s.doc && t.rows == s.rows && t.verifying == s.verifying
  {
  }

  /** A release that reports failure pauses its task without counting, and one with nothing to
      verify is done without being passed. */
  lemma ReleaseMeans(s: Server, l: Step, t: Server)
    requires Next(s, l, t)
    ensures l.FailRelease? && LeaseGood(s.doc, s.rows, s.me, l.i, l.lease, s.clock) ==>
      && (if l.save == SaveLost then t.doc == s.doc else FailedOutcome(s.doc, l.i, 0, "task_failed", t.doc))
      && l.lease in t.rows && t.rows[l.lease].status == LeaseReleased
    ensures l.FastRelease? && Usable(s.rows, s.me, s.requests[l.q].lease, s.clock) ==>
      && (if l.save == SaveLost then t.doc == s.doc else UncheckedOutcome(s.doc, l.i, t.doc))
      && s.requests[l.q].lease in t.rows && t.rows[s.requests[l.q].lease].status == LeaseReleased
  {
    if l.FailRelease? && LeaseGood(s.doc, s.rows, s.me, l.i, l.lease, s.clock) {
      FailedMeans(s.doc, l.i, false);
      GivenBack(s, FailedDocument(s.doc, l.i, false), l.lease, l.save, l.n, t);
    }
    if l.FastRelease? && Usable(s.rows, s.me, s.requests[l.q].lease, s.clock) {
      GivenBack(s, FastDocument(s.doc, l.i), s.requests[l.q].lease, l.save, l.n, t);
    }
  }

  /** Done and complete, and not a word about passing. */
  ghost predicate UncheckedOutcome(doc: Document, i: nat, after: Document) {
    && after == doc.(tasks := after.tasks) && OnlyTask(doc.tasks, i, after.tasks)
    && var u, v := doc.tasks[i], after.tasks[i];
      && v.dispatch == Done && v.state == ExecutionComplete && v.runtime == "" && v.rowVersion == u.rowVersion + 1
      && u == v.(dispatch := u.dispatch, state := u.state, runtime := u.runtime, rowVersion := u.rowVersion)
  }

  /** Handling an expired lease pauses its task, unless the task is gone or a newer lease of it
      is active. */
  lemma ExpireMeans(s: Server, i: nat, lease: string, save: Save, n: nat, t: Server)
    requires ExpireStep(s, i, lease, save, n, t) && save != SaveLost
    ensures var newer := i < |s.doc.tasks| && exists id ::
          id in s.rows && id != lease && s.rows[id].user == s.me && s.rows[id].task == s.doc.tasks[i].id
            && s.rows[id].status == LeaseActive;
      if i >= |s.doc.tasks| || newer then t.doc == s.doc
      else
        var u := s.doc.tasks[i];
        var wide := u.id == "";
        && TasksPaused(s.doc.tasks, u.project, u.id, wide, "heartbeat_lost", t.doc.tasks)
        && ProjectsBlocked(s.doc.projects, u.project, wide, t.doc.projects)
        && WorkStopped(s.doc, u.project, u.id, wide, t.doc)
  {
    if i < |s.doc.tasks| {
      PauseMeans(s.doc, s.doc.tasks[i].project, s.doc.tasks[i].id, "heartbeat_lost");
    }
  }
}
