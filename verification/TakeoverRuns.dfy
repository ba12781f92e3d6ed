/** Whole runs of the operations that move projects, from an empty document. */
module TakeoverRuns {
  import opened Basics
  import opened ProjectState
  import opened Pause
  import opened Takeover

  /** Creation, takeover control, contract updates, pauses that the server makes by itself,
      finished milestones, and everything that leaves the projects alone. */
  datatype DocStep =
    | Found(id: string, milestones: seq<Milestone>)
    | Take(project: string, control: Control)
    | Amend(at: nat, version: int, change: ProjectOp)
    | Halt(project: string, root: string, reason: string)
    | Review(project: string)
    | Rest(result: Document)

  /** The document after a step; a refused one leaves it alone. */
  ghost function Stepped(doc: Document, s: DocStep): Document {
    match s
    case Found(id, milestones) =>
      if FindProject(doc.projects, id).Some? then doc
      else doc.(projects := doc.projects + [FreshProject(id, milestones)])
    case Take(project, c) =>
      var after := Controlled(doc, project, c);
      if after.Some? then after.value else doc
    case Amend(at, version, change) =>
      if at < |doc.projects| && change.Contract? && ContractAccepted(doc, at, version, change) then
        var rest := if change.to == Some(Stalled) then PausedDocument(doc, doc.projects[at].id, "", change.reason)
          else doc;
        rest.(projects := doc.projects[at := ProjectAfter(doc.projects[at], change)])
      else doc
    case Halt(project, root, reason) => PausedDocument(doc, project, root, reason)
    case Review(project) =>
      doc.(projects := seq(|doc.projects|, k requires 0 <= k < |doc.projects| =>
        if doc.projects[k].id == project && MilestoneDone(doc.tasks, doc.projects[k])
        then ProjectAfter(doc.projects[k], MilestoneReady) else doc.projects[k]))
    case Rest(result) => result.(projects := doc.projects)
  }

  ghost function Run(doc: Document, steps: seq<DocStep>): Document {
    if steps == [] then doc else Stepped(Run(doc, steps[..|steps|-1]), steps[|steps|-1])
  }

  const EMPTY := Document([], [], [], [])

  // ---------------------------------------------------------------- what a step is to one project

  /** What the step does to the project at i, if it does anything but count its version. */
  ghost function Move(doc: Document, s: DocStep, i: nat): Option<ProjectOp>
    requires i < |doc.projects|
  {
    var p := doc.projects[i];
    match s
    case Found(_, _) => None
    case Take(project, c) =>
      if p.id != project || Controlled(doc, project, c).None? then None
      else (match c.action
            case StartTakeover => Some(Start)
            case PauseTakeover => if ProjectWide(c.root, c.reason) then Some(PauseAll(c.reason)) else None
            case ResumeTakeover => Some(ResumeAll)
            case StopTakeover => Some(Stop))
    case Amend(at, version, change) =>
      if i == at && change.Contract? && ContractAccepted(doc, at, version, change) then Some(change) else None
    case Halt(project, root, reason) =>
      if p.id == project && ProjectWide(root, reason) then Some(PauseAll(reason)) else None
    case Review(project) => if p.id == project && MilestoneDone(doc.tasks, p) then Some(MilestoneReady) else None
    case Rest(_) => None
  }

  /** The same project, whatever its version. */
  predicate SameProject(p: Project, q: Project) {
    p.(rowVersion := 0) == q.(rowVersion := 0)
  }

  ghost function MovedBy(p: Project, op: Option<ProjectOp>): Project {
    if op.Some? then ProjectAfter(p, op.value) else p
  }

  lemma TakeMoves(doc: Document, project: string, c: Control, i: nat)
    requires i < |doc.projects| && Controlled(doc, project, c).Some?
    ensures var after := Controlled(doc, project, c).value;
      && |after.projects| == |doc.projects|
      && SameProject(after.projects[i], MovedBy(doc.projects[i], Move(doc, Take(project, c), i)))
  {
    match c.action
    case StartTakeover =>
    case PauseTakeover =>
      var paused := PausedDocument(doc, project, c.root, c.reason);
      assert IsPaused(doc, project, c.root, c.reason, paused);
    case ResumeTakeover =>
    case StopTakeover =>
  }

  /** Every step is, for every project, one of the moves of a single project, or none. */
  lemma StepMoves(doc: Document, s: DocStep, i: nat)
    requires i < |doc.projects|
    ensures var after := Stepped(doc, s);
      && |doc.projects| <= |after.projects|
      && SameProject(after.projects[i], MovedBy(doc.projects[i], Move(doc, s, i)))
  {
    match s
    case Take(project, c) => if Controlled(doc, project, c).Some? { TakeMoves(doc, project, c, i); }
    case Halt(project, root, reason) => assert IsPaused(doc, project, root, reason, Stepped(doc, s));
    case _ =>
  }

  /** Projects that were not there before are fresh ones. */
  lemma NewProjects(doc: Document, s: DocStep, i: nat)
    requires |doc.projects| <= i < |Stepped(doc, s).projects|
    ensures s.Found? && Stepped(doc, s).projects[i] == FreshProject(s.id, s.milestones)
  {
  }

  lemma StepKeepsId(doc: Document, s: DocStep, i: nat)
    requires i < |doc.projects|
    ensures i < |Stepped(doc, s).projects| && Stepped(doc, s).projects[i].id == doc.projects[i].id
  {
    StepMoves(doc, s, i);
  }

  // ---------------------------------------------------------------- the invariants of runs

  ghost predicate LifecyclesOk(doc: Document) {
    forall i | 0 <= i < |doc.projects| :: LifecycleOk(doc.projects[i])
  }

  ghost predicate MilestonesCurrent(doc: Document) {
    forall i | 0 <= i < |doc.projects| :: ExecutingIsCurrent(doc.projects[i])
  }

  lemma StepKeepsLifecycles(doc: Document, s: DocStep)
    requires LifecyclesOk(doc)
    ensures LifecyclesOk(Stepped(doc, s))
  {
    var after := Stepped(doc, s);
    forall i | 0 <= i < |after.projects| ensures LifecycleOk(after.projects[i]) {
      if i < |doc.projects| {
        StepMoves(doc, s, i);
        if Move(doc, s, i).Some? {
          OpKeepsLifecycle(doc.projects[i], Move(doc, s, i).value);
        }
      } else {
        NewProjects(doc, s, i);
      }
    }
  }

  /** Over every run from the empty document, in every project takeover is paused exactly while
      the lifecycle is blocked, and the stage to return to is never blocked itself. */
  lemma {:induction false} RunKeepsLifecycles(steps: seq<DocStep>)
    ensures LifecyclesOk(Run(EMPTY, steps))
  {
    if steps != [] {
      RunKeepsLifecycles(steps[..|steps|-1]);
      StepKeepsLifecycles(Run(EMPTY, steps[..|steps|-1]), steps[|steps|-1]);
    }
  }

  /** The step is an accepted contract update of a project that is, or in the same request
      becomes, blocked out of execution, with a list without the milestone in execution. */
  ghost predicate LosesMilestone(doc: Document, s: DocStep) {
    && s.Amend? && s.at < |doc.projects| && s.change.Contract? && ContractAccepted(doc, s.at, s.version, s.change)
    && Loses(doc.projects[s.at], s.change)
  }

  lemma StepKeepsMilestones(doc: Document, s: DocStep)
    requires LifecyclesOk(doc) && MilestonesCurrent(doc)
    ensures MilestonesCurrent(Stepped(doc, s)) <==> !LosesMilestone(doc, s)
  {
    var after := Stepped(doc, s);
    forall i | 0 <= i < |after.projects|
      ensures ExecutingIsCurrent(after.projects[i]) <==> !(LosesMilestone(doc, s) && i == s.at)
    {
      if i < |doc.projects| {
        StepMoves(doc, s, i);
        if Move(doc, s, i).Some? {
          OpKeepsExecutingMilestone(doc.projects[i], Move(doc, s, i).value);
        }
      } else {
        NewProjects(doc, s, i);
      }
    }
    if LosesMilestone(doc, s) {
      StepMoves(doc, s, s.at);
      assert !ExecutingIsCurrent(after.projects[s.at]);
    }
  }

  lemma {:induction false} NeverLosesKeeps(steps: seq<DocStep>)
    requires forall k | 0 <= k < |steps| :: !LosesMilestone(Run(EMPTY, steps[..k]), steps[k])
    ensures MilestonesCurrent(Run(EMPTY, steps))
  {
    if steps != [] {
      var n := |steps| - 1;
      forall k | 0 <= k < n ensures !LosesMilestone(Run(EMPTY, steps[..n][..k]), steps[..n][k]) {
        assert steps[..n][..k] == steps[..k];
      }
      NeverLosesKeeps(steps[..n]);
      RunKeepsLifecycles(steps[..n]);
      StepKeepsMilestones(Run(EMPTY, steps[..n]), steps[n]);
    }
  }

  /** Over a run from the empty document the milestone in execution is a current milestone of its
      project at every moment exactly when no step is such an update. */
  lemma RunKeepsMilestones(steps: seq<DocStep>)
    ensures (forall k | 0 <= k <= |steps| :: MilestonesCurrent(Run(EMPTY, steps[..k]))) <==>
            (forall k | 0 <= k < |steps| :: !LosesMilestone(Run(EMPTY, steps[..k]), steps[k]))
  {
    if forall k | 0 <= k <= |steps| :: MilestonesCurrent(Run(EMPTY, steps[..k])) {
      forall k | 0 <= k < |steps| ensures !LosesMilestone(Run(EMPTY, steps[..k]), steps[k]) {
        assert steps[..k+1][..k] == steps[..k];
        assert MilestonesCurrent(Run(EMPTY, steps[..k])) && MilestonesCurrent(Run(EMPTY, steps[..k+1]));
        RunKeepsLifecycles(steps[..k]);
        StepKeepsMilestones(Run(EMPTY, steps[..k]), steps[k]);
      }
    }
    if forall k | 0 <= k < |steps| :: !LosesMilestone(Run(EMPTY, steps[..k]), steps[k]) {
      forall k | 0 <= k <= |steps| ensures MilestonesCurrent(Run(EMPTY, steps[..k])) {
        forall j | 0 <= j < k ensures !LosesMilestone(Run(EMPTY, steps[..k][..j]), steps[..k][j]) {
          assert steps[..k][..j] == steps[..j];
        }
        NeverLosesKeeps(steps[..k]);
      }
    }
  }

  // ---------------------------------------------------------------- pauses and the resume

  /** A resume of the whole project, or a stop. */
  predicate Lifts(s: DocStep, project: string) {
    s.Take? && s.project == project
      && ((s.control.action == ResumeTakeover && s.control.root == "") || s.control.action == StopTakeover)
  }

  /** A resume of single tasks is refused while the project is paused. */
  lemma StalledMove(doc: Document, s: DocStep, i: nat)
    requires i < |doc.projects| && UniqueProjectIds(doc.projects) && LifecycleOk(doc.projects[i])
    requires doc.projects[i].lifecycle.stage == Stalled && !Lifts(s, doc.projects[i].id)
    ensures Move(doc, s, i) != Some(ResumeAll) && Move(doc, s, i) != Some(Stop)
  {
    if s.Take? && s.project == doc.projects[i].id {
      FindProjectAt(doc.projects, i);
    }
  }

  lemma StepKeepsUnique(doc: Document, s: DocStep)
    requires UniqueProjectIds(doc.projects)
    ensures UniqueProjectIds(Stepped(doc, s).projects)
  {
    var after := Stepped(doc, s).projects;
    forall i | 0 <= i < |doc.projects| ensures i < |after| && after[i].id == doc.projects[i].id {
      StepKeepsId(doc, s, i);
    }
  }

  lemma StalledStep(doc: Document, s: DocStep, i: nat)
    requires i < |doc.projects| && UniqueProjectIds(doc.projects) && LifecycleOk(doc.projects[i])
    requires doc.projects[i].lifecycle.stage == Stalled && !Lifts(s, doc.projects[i].id)
    ensures var after := Stepped(doc, s);
      && i < |after.projects| && after.projects[i].id == doc.projects[i].id
      && after.projects[i].lifecycle == doc.projects[i].lifecycle
  {
    StepMoves(doc, s, i);
    StalledMove(doc, s, i);
  }

  lemma {:induction false} StaysStalled(doc: Document, steps: seq<DocStep>, i: nat)
    requires UniqueProjectIds(doc.projects) && LifecyclesOk(doc) && i < |doc.projects|
    requires doc.projects[i].lifecycle.stage == Stalled
    requires forall s | s in steps :: !Lifts(s, doc.projects[i].id)
    ensures var after := Run(doc, steps);
      && UniqueProjectIds(after.projects) && LifecyclesOk(after) && i < |after.projects|
      && after.projects[i].id == doc.projects[i].id && after.projects[i].lifecycle == doc.projects[i].lifecycle
  {
    if steps != [] {
      var n := |steps| - 1;
      assert steps == steps[..n] + [steps[n]];
      StaysStalled(doc, steps[..n], i);
      var before := Run(doc, steps[..n]);
      StepKeepsUnique(before, steps[n]);
      StepKeepsLifecycles(before, steps[n]);
      StalledStep(before, steps[n], i);
    }
  }

  /** A project that some pause has blocked keeps the stage and milestone from before it through
      whatever else is tried in the document, until a resume of the whole project is accepted,
      which restores both. */
  lemma ResumeRestores(doc: Document, pause: DocStep, between: seq<DocStep>, c: Control, i: nat)
    requires UniqueProjectIds(doc.projects) && LifecyclesOk(doc) && i < |doc.projects|
    requires doc.projects[i].lifecycle.stage != Stalled
    requires Move(doc, pause, i).Some? && Move(doc, pause, i).value.PauseAll?
    requires forall s | s in between :: !Lifts(s, doc.projects[i].id)
    requires c.action == ResumeTakeover
    requires Controlled(Run(Stepped(doc, pause), between), doc.projects[i].id, c).Some?
    ensures var after := Stepped(Run(Stepped(doc, pause), between), Take(doc.projects[i].id, c));
      && i < |after.projects| && after.projects[i].mode == Active
      && after.projects[i].lifecycle == doc.projects[i].lifecycle.(previous := None)
  {
    var p := doc.projects[i];
    var paused := Stepped(doc, pause);
    StepMoves(doc, pause, i);
    StepKeepsUnique(doc, pause);
    StepKeepsLifecycles(doc, pause);
    StaysStalled(paused, between, i);
    var held := Run(paused, between);
    StepMoves(held, Take(p.id, c), i);
  }
}
