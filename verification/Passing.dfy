/** Only an acceptance command that the server ran can mark a task passed. */
module Passing {
  import opened Basics
  import opened ProjectState
  import opened TaskContract
  import opened Pause
  import opened Takeover
  import opened LeaseTable
  import opened Protocol
  import opened Outcomes
  import opened ClaimOutcomes

  /** The mark is no new one, and the command that earned it is still the task's command. */
  predicate KeepsMark(t: Task, u: Task) {
    u.passed ==> t.passed && u.command == t.command
  }

  ghost predicate NoNewMarks(doc: Document, after: Document) {
    && |doc.tasks| <= |after.tasks|
    && (forall i | 0 <= i < |doc.tasks| :: KeepsMark(doc.tasks[i], after.tasks[i]))
    && (forall i | |doc.tasks| <= i < |after.tasks| :: !after.tasks[i].passed)
  }

  lemma PauseNoNewMarks(doc: Document, project: string, root: string, reason: string)
    ensures NoNewMarks(doc, PausedDocument(doc, project, root, reason))
  {
  }

  lemma ControlNoNewMarks(doc: Document, project: string, c: Control)
    requires Controlled(doc, project, c).Some?
    ensures NoNewMarks(doc, Controlled(doc, project, c).value)
  {
    match c.action
    case PauseTakeover => PauseNoNewMarks(doc, project, c.root, c.reason);
    case _ =>
  }

  lemma UpdateNoNewMarks(doc: Document, i: nat, t: Task)
    requires i < |doc.tasks| && KeepsMark(doc.tasks[i], t)
    ensures NoNewMarks(doc, WithTask(doc, i, t))
    ensures NoNewMarks(doc, AfterUpdate(WithTask(doc, i, t), i))
  {
    PauseNoNewMarks(WithTask(doc, i, t), t.project, t.id, "high_risk");
  }

  lemma ChangeNoNewMarks(doc: Document, op: DocOp)
    requires DocAfter(doc, op).Some?
    ensures NoNewMarks(doc, DocAfter(doc, op).value)
  {
    match op
    case TakeoverOp(project, c) => ControlNoNewMarks(doc, project, c);
    case ContractOp(at, version, change) => PauseNoNewMarks(doc, doc.projects[at].id, "", change.reason);
    case UpdateOp(i, version, edit) => UpdateNoNewMarks(doc, i, Rewritten(doc, doc.tasks[i], edit).value);
    case _ =>
  }

  /** The step marks the task at i, by a verdict under a good lease. */
  ghost predicate MarksPassed(s: Server, l: Step, i: nat) {
    && l.Commit? && l.i == i && l.passed && l.save != SaveLost && AtTask(s, l.q, i, Verifying)
    && LeaseGood(s.doc, s.rows, s.me, i, s.requests[l.q].lease, s.clock)
  }

  lemma FailedNoNewMarks(doc: Document, i: nat, counted: nat, reason: string, after: Document, k: nat)
    requires FailedOutcome(doc, i, counted, reason, after) && k < |doc.tasks|
    ensures KeepsMark(doc.tasks[k], after.tasks[k])
  {
  }

  lemma CommitMarks(s: Server, l: Step, t: Server, i: nat)
    requires l.Commit? && Next(s, l, t) && i < |t.doc.tasks| && t.doc.tasks[i].passed
    ensures i < |s.doc.tasks| && t.doc.tasks[i].command == s.doc.tasks[i].command
    ensures s.doc.tasks[i].passed || MarksPassed(s, l, i)
  {
    if LeaseGood(s.doc, s.rows, s.me, l.i, s.requests[l.q].lease, s.clock) && l.save != SaveLost {
      CommitMeans(s, l.q, l.i, l.passed, l.save, l.n, t);
      if !l.passed {
        FailedNoNewMarks(s.doc, l.i, 1,
                         if s.doc.tasks[l.i].failures >= 1 then "acceptance_failed_twice" else "acceptance_failed",
                         t.doc, i);
      }
    }
  }

  lemma ClaimNoNewMarks(s: Server, l: Step, t: Server, i: nat)
    requires l.Claim? && Next(s, l, t) && i < |t.doc.tasks|
    ensures i < |s.doc.tasks| && KeepsMark(s.doc.tasks[i], t.doc.tasks[i])
  {
    GrantMeans(s, l.lease, l.runtime, l.fingerprint);
    ClaimKeeps(s, l.lease, l.runtime, l.fingerprint, i);
  }

  lemma ReleaseNoNewMarks(s: Server, l: Step, t: Server, i: nat)
    requires (l.FailRelease? || l.FastRelease?) && Next(s, l, t) && i < |t.doc.tasks|
    ensures i < |s.doc.tasks| && KeepsMark(s.doc.tasks[i], t.doc.tasks[i])
  {
    ReleaseMeans(s, l, t);
    if t.doc != s.doc {
      if l.FailRelease? {
        FailedNoNewMarks(s.doc, l.i, 0, "task_failed", t.doc, i);
      } else {
        UncheckedNoNewMarks(s.doc, l.i, t.doc, i);
      }
    }
  }

  lemma UncheckedNoNewMarks(doc: Document, i: nat, after: Document, k: nat)
    requires i < |doc.tasks| && UncheckedOutcome(doc, i, after) && k < |doc.tasks|
    ensures KeepsMark(doc.tasks[k], after.tasks[k])
  {
  }

  lemma ExpireNoNewMarks(s: Server, l: Step, t: Server, i: nat)
    requires l.Expire? && Next(s, l, t) && i < |t.doc.tasks|
    ensures i < |s.doc.tasks| && KeepsMark(s.doc.tasks[i], t.doc.tasks[i])
  {
    if l.save != SaveLost {
      ExpireMeans(s, l.i, l.lease, l.save, l.n, t);
    }
  }

  /** A step that is no verdict leaves no new mark: no artifact, no decision, no release without
      a command and no user action can. */
  lemma OtherNoNewMarks(s: Server, l: Step, t: Server, i: nat)
    requires !l.Commit? && Next(s, l, t) && i < |t.doc.tasks| && t.doc.tasks[i].passed
    ensures i < |s.doc.tasks| && KeepsMark(s.doc.tasks[i], t.doc.tasks[i])
  {
    match l
    case Change(op, save, n) =>
      if DocAfter(s.doc, op).Some? {
        ChangeNoNewMarks(s.doc, op);
      }
    case Claim(_, _, _, _, _) => ClaimNoNewMarks(s, l, t, i);
    case Expire(_, _, _, _) => ExpireNoNewMarks(s, l, t, i);
    case FailRelease(_, _, _, _) => ReleaseNoNewMarks(s, l, t, i);
    case FastRelease(_, _, _, _) => ReleaseNoNewMarks(s, l, t, i);
    case _ =>
  }

  lemma StepMarks(s: Server, l: Step, t: Server, i: nat)
    requires Next(s, l, t) && i < |t.doc.tasks| && t.doc.tasks[i].passed
    ensures i < |s.doc.tasks| && t.doc.tasks[i].command == s.doc.tasks[i].command
    ensures s.doc.tasks[i].passed || MarksPassed(s, l, i)
  {
    if l.Commit? {
      CommitMarks(s, l, t, i);
    } else {
      OtherNoNewMarks(s, l, t, i);
    }
  }

  ghost predicate MarkedAtStart(ss: seq<Server>, i: nat)
    requires |ss| > 0
  {
    i < |ss[0].doc.tasks| && ss[0].doc.tasks[i].passed
  }

  lemma {:induction false} MarkedBy(ss: seq<Server>, ls: seq<Step>, i: nat, k: nat) returns (c: nat)
    requires IsRun(ss, ls) && k <= |ls| && i < |ss[k].doc.tasks| && ss[k].doc.tasks[i].passed && !MarkedAtStart(ss, i)
    ensures c < k && MarksPassed(ss[c], ls[c], i) && ss[c].doc.tasks[i].command == ss[k].doc.tasks[i].command
  {
    assert StepAt(ss, ls, k - 1);
    StepMarks(ss[k-1], ls[k-1], ss[k], i);
    if MarksPassed(ss[k-1], ls[k-1], i) {
      c := k - 1;
    } else {
      c := MarkedBy(ss, ls, i, k - 1);
    }
  }

  /** A task that carries the mark, and did not at the start of the run, got it from a verdict
      "passed" in the run: of a verification that was loaded at r and begun at b, of the very
      command the task still has, under a lease that was active and on which the task stayed
      claimed from the load to the verdict. */
  lemma PassedMeansCommandRan(ss: seq<Server>, ls: seq<Step>, i: nat, k: nat) returns (r: nat, b: nat, c: nat)
    requires IsRun(ss, ls) && k <= |ls| && i < |ss[k].doc.tasks| && ss[k].doc.tasks[i].passed
    requires !(i < |ss[0].doc.tasks| && ss[0].doc.tasks[i].passed)
    ensures r < b < c < k && ls[c].Commit? && ls[c].passed && ls[c].i == i && ls[c].q in ss[c].requests
    ensures ls[r].Load? && ls[r].q == ls[c].q && ls[b].Begin? && ls[b].q == ls[c].q
    ensures ss[c].requests[ls[c].q].command == ss[k].doc.tasks[i].command
    ensures forall j | r <= j <= c ::
      && Alive(ss[j], ss[c].requests[ls[c].q].lease, i)
      && ss[j].doc.tasks[i].command == ss[k].doc.tasks[i].command
  {
    c := MarkedBy(ss, ls, i, k);
    r, b := VerifiedWorkWasHeldThroughout(ss, ls, c);
  }
}
