/** What the delivery of a decision does to the whole document, without the functions that
    compute it: the decided card, the recorded events, and the pause a failure causes. */
module DecisionOutcomes {
  import opened Basics
  import opened ProjectState
  import opened Pause
  import opened Outcomes
  import P = Projection

  // ---------------------------------------------------------------- the decision itself

  /** The first stored task with the id. */
  ghost predicate FirstWith(tasks: seq<Task>, id: string, i: nat) {
    i < |tasks| && tasks[i].id == id && forall k | 0 <= k < i :: tasks[k].id != id
  }

  /** Exactly the four events of the decision are there afterwards, besides the earlier ones. */
  ghost predicate Recorded(events: seq<P.EventId>, id: string, after: seq<P.EventId>) {
    && events <= after
    && forall e :: e in after <==> e in events || e == P.Marker(id) || e == P.CheckpointResolved(id)
                                   || e == P.DecisionMade(id) || e == P.DecisionAction(id)
  }

  /** The decision is carried out on the task found, unless its marker says that it has been. */
  ghost predicate CarriedTo(b: P.Board, i: nat, d: P.Decided, id: string, fingerprint: Option<string>, mid: P.Board) {
    && FirstWith(b.doc.tasks, d.task, i) && Recorded(b.events, id, mid.events)
    && if P.Marker(id) in b.events then mid == b.(events := mid.events)
       else P.OnlyCard(b, i, mid) && P.OtherVerdicts(b, d.task, mid)
            && P.Means(P.CardAt(b, i), P.CardAt(mid, i), d, id, fingerprint)
  }

  lemma ActivityRecords(events: seq<P.EventId>, id: string)
    requires P.Marker(id) in events
    ensures Recorded(events, id, P.WithActivity(events, id))
  {
    var one := P.WithEvent(events, P.CheckpointResolved(id));
    var two := P.WithEvent(one, P.DecisionMade(id));
    assert forall e :: e in one <==> e in events || e == P.CheckpointResolved(id);
    assert forall e :: e in two <==> e in one || e == P.DecisionMade(id);
  }

  lemma CarriedIs(b: P.Board, d: P.Decided, id: string, fingerprint: Option<string>)
    requires P.Carried(b, d, id, fingerprint).Some?
    ensures CarriedTo(b, P.IndexOf(b.doc.tasks, d.task), d, id, fingerprint,
                      P.Carried(b, d, id, fingerprint).value)
  {
    if P.Marker(id) in b.events {
      ActivityRecords(b.events, id);
    } else {
      P.CarriedMeans(b, d, id, fingerprint);
      ActivityRecords(b.events + [P.Marker(id)], id);
    }
  }

  /** When a decision is carried out at all: the task is there, and the marker is, or the kind
      knows the action and the inputs of a task made ready can be read. */
  lemma CarriedWhen(b: P.Board, d: P.Decided, id: string, fingerprint: Option<string>)
    ensures P.Carried(b, d, id, fingerprint).Some? <==>
      (exists t :: t in b.doc.tasks && t.id == d.task) &&
      (P.Marker(id) in b.events ||
       match d.kind
       case "final_acceptance" =>
         d.action in {"approve", "approve_once", "approve_session", "reject", "reject_with_feedback", "reroute",
                      "request_changes"}
       case "archive_override" =>
         d.action in {"approve", "approve_once", "approve_session", "reject", "reject_with_feedback"}
       case "dispatch" =>
         d.action in {"reject", "reject_with_feedback"}
           || (d.action in {"approve", "approve_once", "approve_session"} && fingerprint.Some?)
       case _ => true)
  {
    var i := P.IndexOf(b.doc.tasks, d.task);
    if i < |b.doc.tasks| {
      assert b.doc.tasks[i] in b.doc.tasks;
    }
  }

  // ---------------------------------------------------------------- the pause it causes

  /** The recorded action is one that the takeover of the project answers with a pause. */
  predicate Punishes(d: P.Decided, highRisk: bool, cause: string) {
    var plain := d.kind != "final_acceptance" && d.kind != "archive_override";
    || (cause == "acceptance_failed" && d.kind == "final_acceptance"
        && d.action in {"reject", "reject_with_feedback", "rejected"})
    || (cause == "acceptance_failed" && plain && d.action == "final_acceptance_rejected")
    || (cause == "task_failed" && plain && d.action in {"tool_run_failed", "phase_failed"})
    || (cause == "high_risk" && plain && d.action == "task_updated" && highRisk)
  }

  lemma CauseIs(d: P.Decided, highRisk: bool, cause: string)
    ensures P.Cause(d, highRisk) == Some(cause) <==> Punishes(d, highRisk, cause)
  {
    var verb := P.Verb(d.action);
    if d.kind == "final_acceptance" {
      assert ("final_acceptance_" + verb)[0] == 'f' && ("final_acceptance_" + verb)[17..] == verb;
      assert "final_acceptance_rejected"[17..] == "rejected";
      assert "final_acceptance_" + "rejected" == "final_acceptance_rejected";
      assert "tool_run_failed"[0] == 't' && "task_updated"[0] == 't' && "phase_failed"[0] == 'p';
    } else if d.kind == "archive_override" {
      assert ("archive_override_" + verb)[0] == 'a';
      assert "final_acceptance_rejected"[0] == 'f';
      assert "tool_run_failed"[0] == 't' && "task_updated"[0] == 't' && "phase_failed"[0] == 'p';
    }
  }

  /** A failed acceptance counts against the task and takes its mark away. */
  predicate Counted(was: Task, now: Task, id: string, counts: bool) {
    if counts && was.id == id
    then now.failures == was.failures + 1 && !now.passed
         && was == now.(failures := was.failures, passed := was.passed)
    else now == was
  }

  ghost predicate CountedIn(doc: Document, id: string, counts: bool, noted: Document) {
    && noted == doc.(tasks := noted.tasks) && |noted.tasks| == |doc.tasks|
    && forall k | 0 <= k < |doc.tasks| :: Counted(doc.tasks[k], noted.tasks[k], id, counts)
  }

  predicate FailedBefore(tasks: seq<Task>, id: string) {
    exists u :: u in tasks && u.id == id && u.failures >= 1
  }

  /** The failure is counted, and the task with what depends on it paused and announced; the
      second failure has a reason of its own. */
  ghost predicate StruckTo(b: P.Board, i: nat, cause: string, notice: string, noted: Document, after: P.Board)
    requires i < |b.doc.tasks|
  {
    var t := b.doc.tasks[i];
    var counts := cause == "acceptance_failed";
    var reason := if counts && FailedBefore(b.doc.tasks, t.id) then "acceptance_failed_twice" else cause;
    && after.verdicts == b.verdicts && after.pauses == b.pauses + 1
    && after.events == b.events + [P.Unrelated(notice)]
    && CountedIn(b.doc, t.id, counts, noted)
    && PausedFor(noted, t, WideReason(t.id, reason), reason, after.doc)
  }

  lemma TwiceIs(tasks: seq<Task>, id: string)
    ensures P.FailedTwice(P.CountFailure(tasks, id), id) <==> FailedBefore(tasks, id)
  {
    var counted := P.CountFailure(tasks, id);
    if P.FailedTwice(counted, id) {
      var k :| 0 <= k < |counted| && counted[k].id == id && counted[k].failures >= 2;
      assert tasks[k] in tasks;
    }
    if u :| u in tasks && u.id == id && u.failures >= 1 {
      var k :| 0 <= k < |tasks| && tasks[k] == u;
      assert counted[k].failures >= 2;
    }
  }

  lemma PunishedIs(b: P.Board, i: nat, cause: string, notice: string) returns (noted: Document)
    requires i < |b.doc.tasks|
    ensures StruckTo(b, i, cause, notice, noted, P.Punished(b, i, cause, notice))
  {
    var t := b.doc.tasks[i];
    noted := P.Noted(b.doc, t.id, cause);
    TwiceIs(b.doc.tasks, t.id);
    PauseIsFor(noted, t, P.ReasonFor(noted, t.id, cause));
  }

  ghost predicate Running(projects: seq<Project>, id: string) {
    FindProject(projects, id).Some? && FindProject(projects, id).value.mode == Active
  }

  lemma HookIs(b: P.Board, mid: P.Board, d: P.Decided, id: string, fingerprint: Option<string>)
    requires P.Carried(b, d, id, fingerprint) == Some(mid)
    ensures var i := P.IndexOf(b.doc.tasks, d.task);
      && i < |b.doc.tasks| == |mid.doc.tasks| && P.IndexOf(mid.doc.tasks, d.task) == i
      && mid.doc.tasks[i].highRisk == b.doc.tasks[i].highRisk
      && (P.Punishable(mid, d) <==>
           Running(b.doc.projects, b.doc.tasks[i].project) && P.Cause(d, b.doc.tasks[i].highRisk).Some?)
  {
    P.CarriedCard(b, d, id, fingerprint);
    P.SupportedIsDecided(P.CardAt(b, P.IndexOf(b.doc.tasks, d.task)), d, id);
  }

  /** The whole transaction: the decision is carried out, and when its action was not recorded
      before, is a failure, and the project is being run, the task is paused for it. */
  lemma DeliveryMeans(b: P.Board, d: P.Decided, id: string, fingerprint: Option<string>, notice: string)
    returns (mid: P.Board, i: nat, noted: Document)
    requires P.Applied(b, d, id, fingerprint, notice).Some?
    ensures CarriedTo(b, i, d, id, fingerprint, mid) && i < |mid.doc.tasks|
    ensures var after := P.Applied(b, d, id, fingerprint, notice).value;
      var hooked := P.DecisionAction(id) !in b.events && Running(b.doc.projects, b.doc.tasks[i].project);
      && (forall cause :: hooked && Punishes(d, b.doc.tasks[i].highRisk, cause) ==>
            StruckTo(mid, i, cause, notice, noted, after))
      && (!(hooked && exists cause :: Punishes(d, b.doc.tasks[i].highRisk, cause)) ==> after == mid)
  {
    mid := P.Carried(b, d, id, fingerprint).value;
    i := P.IndexOf(b.doc.tasks, d.task);
    CarriedIs(b, d, id, fingerprint);
    HookIs(b, mid, d, id, fingerprint);
    noted := mid.doc;
    forall cause {
      CauseIs(d, b.doc.tasks[i].highRisk, cause);
    }
    if P.DecisionAction(id) !in b.events && P.Punishable(mid, d) {
      noted := PunishedIs(mid, i, P.Cause(d, b.doc.tasks[i].highRisk).value, notice);
    }
  }
}
