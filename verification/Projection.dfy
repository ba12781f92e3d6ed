/** Delivery of human decisions into the task document: rows queued in the database are
    applied to a document with a separate commit, and recorded events make the repeats harmless:
    one guards the decision itself, another the pause that a rejection causes. */
module Projection {
  import opened Basics
  import opened ProjectState
  import opened Pause
  import opened Takeover
  import Compaction

  datatype Acceptance = NotReady | AcceptedByHuman | RejectedByHuman

  /** What people have decided about a task. */
  datatype Verdict = Verdict(acceptance: Acceptance, decision: string, archive: string)

  const UNDECIDED := Verdict(NotReady, "", "")

  datatype Card = Card(task: Task, verdict: Verdict)

  /** Recorded events by id: the marker of a decision, its three activity events, others. */
  datatype EventId = Marker(decision: string) | CheckpointResolved(decision: string) | DecisionMade(decision: string)
                   | DecisionAction(decision: string) | Unrelated(name: string)

  /** The document, the verdicts by task, and how many takeover pauses were announced. */
  datatype Board = Board(doc: Document, verdicts: map<string, Verdict>, pauses: nat, events: seq<EventId>)

  datatype Decided = Decided(task: string, kind: string, action: string)

  predicate Approves(action: string) {
    action in {"approve", "approve_once", "approve_session"}
  }

  predicate Rejects(action: string) {
    action in {"reject", "reject_with_feedback"}
  }

  /** The card after a decision; None for an action the kind does not know. */
  function Decide(c: Card, d: Decided, id: string): Option<Card> {
    if d.kind == "final_acceptance" then
      if Approves(d.action) then
        Some(c.(verdict := c.verdict.(acceptance := AcceptedByHuman, decision := id)))
      else if Rejects(d.action) then
        Some(Card(c.task.(state := TaskState.Running),
                  c.verdict.(acceptance := RejectedByHuman, decision := id)))
      else if d.action in {"reroute", "request_changes"} then
        Some(Card(c.task.(state := Blocked), c.verdict.(acceptance := NotReady, decision := "")))
      else None
    else if d.kind == "archive_override" then
      if Approves(d.action) then Some(Card(c.task.(state := Archived), Verdict(NotReady, "", id)))
      else if Rejects(d.action) then Some(c.(verdict := c.verdict.(archive := id)))
      else None
    else if d.kind == "dispatch" then
      if Approves(d.action) then Some(c.(task := c.task.(dispatch := Ready)))
      else if Rejects(d.action) then Some(c.(task := c.task.(dispatch := Undispatched)))
      else None
    else Some(c)
  }

  /** The kind knows the action. */
  predicate Supported(d: Decided) {
    match d.kind
    case "final_acceptance" => Approves(d.action) || Rejects(d.action) || d.action in {"reroute", "request_changes"}
    case "archive_override" => Approves(d.action) || Rejects(d.action)
    case "dispatch" => Approves(d.action) || Rejects(d.action)
    case _ => true
  }

  /** A dispatch decision that leaves the task ready also records its acceptance inputs. */
  function Changed(c: Card, d: Decided, id: string, fingerprint: Option<string>): Option<Card> {
    var u := Decide(c, d, id);
    if u.None? then None
    else if d.kind == "dispatch" && u.value.task.dispatch == Ready && fingerprint.None? then None
    else
      var t := u.value.task;
      Some(u.value.(task := t.(
        baseline := if d.kind == "dispatch" && t.dispatch == Ready then fingerprint.value else t.baseline,
        rowVersion := t.rowVersion + 1)))
  }

  function IndexOf(tasks: seq<Task>, id: string): (i: nat)
    ensures i <= |tasks| && (i < |tasks| ==> tasks[i].id == id) && forall k | 0 <= k < i :: tasks[k].id != id
  {
    if tasks == [] || tasks[0].id == id then 0 else 1 + IndexOf(tasks[1..], id)
  }

  function CardAt(b: Board, i: nat): Card
    requires i < |b.doc.tasks|
  {
    var t := b.doc.tasks[i];
    Card(t, if t.id in b.verdicts then b.verdicts[t.id] else UNDECIDED)
  }

  function WithCard(b: Board, i: nat, c: Card): Board
    requires i < |b.doc.tasks|
  {
    b.(doc := b.doc.(tasks := b.doc.tasks[i := c.task]), verdicts := b.verdicts[c.task.id := c.verdict])
  }

  function WithEvent(events: seq<EventId>, e: EventId): seq<EventId> {
    if e in events then events else events + [e]
  }

  function WithActivity(events: seq<EventId>, id: string): seq<EventId> {
    WithEvent(WithEvent(WithEvent(events, CheckpointResolved(id)), DecisionMade(id)), DecisionAction(id))
  }

  /** What the callback of the transaction makes of the document; None when it refuses. */
  function Carried(b: Board, d: Decided, id: string, fingerprint: Option<string>): Option<Board> {
    var i := IndexOf(b.doc.tasks, d.task);
    if i == |b.doc.tasks| then None
    else if Marker(id) in b.events then Some(b.(events := WithActivity(b.events, id)))
    else
      var c := Changed(CardAt(b, i), d, id, fingerprint);
      if c.None? then None
      else Some(WithCard(b, i, c.value).(events := WithActivity(b.events + [Marker(id)], id)))
  }

  // ---------------------------------------------------------------- the takeover hook

  function Verb(action: string): string {
    if Approves(action) then "approved"
    else if Rejects(action) then "rejected"
    else if action in {"reroute", "request_changes"} then "rerouted"
    else action
  }

  /** The action under which the decision is recorded. */
  function ActionType(d: Decided): string {
    if d.kind == "final_acceptance" then "final_acceptance_" + Verb(d.action)
    else if d.kind == "archive_override" then "archive_override_" + Verb(d.action)
    else d.action
  }

  /** What the recorded action is to the takeover of the task's project, if it is a failure. */
  function Cause(d: Decided, highRisk: bool): Option<string> {
    match ActionType(d)
    case "task_updated" => if highRisk then Some("high_risk") else None
    case "tool_run_failed" => Some("task_failed")
    case "phase_failed" => Some("task_failed")
    case "final_acceptance_rejected" => Some("acceptance_failed")
    case _ => None
  }

  predicate CanPause(d: Decided) {
    Cause(d, true).Some?
  }

  predicate Watched(doc: Document, t: Task) {
    var p := FindProject(doc.projects, t.project);
    p.Some? && p.value.mode == Active
  }

  /** A recorded decision now pauses its task. */
  predicate Punishable(b: Board, d: Decided) {
    var i := IndexOf(b.doc.tasks, d.task);
    i < |b.doc.tasks| && Watched(b.doc, b.doc.tasks[i]) && Cause(d, b.doc.tasks[i].highRisk).Some?
  }

  function OneFailure(t: Task, id: string): Task {
    if t.id == id then t.(failures := t.failures + 1, passed := false) else t
  }

  function CountFailure(tasks: seq<Task>, id: string): seq<Task> {
    seq(|tasks|, i requires 0 <= i < |tasks| => OneFailure(tasks[i], id))
  }

  predicate FailedTwice(tasks: seq<Task>, id: string) {
    exists i | 0 <= i < |tasks| :: tasks[i].id == id && tasks[i].failures >= 2
  }

  /** The document the pause starts from, and the reason it gives. */
  function Noted(doc: Document, id: string, cause: string): Document {
    if cause == "acceptance_failed" then doc.(tasks := CountFailure(doc.tasks, id)) else doc
  }

  function ReasonFor(doc: Document, id: string, cause: string): string {
    if cause == "acceptance_failed" && FailedTwice(doc.tasks, id) then "acceptance_failed_twice" else cause
  }

  /** A failure counted, and the task and what depends on it paused and announced. */
  ghost function Punished(b: Board, i: nat, cause: string, notice: string): Board
    requires i < |b.doc.tasks|
  {
    var t := b.doc.tasks[i];
    var doc := Noted(b.doc, t.id, cause);
    Board(PausedDocument(doc, t.project, t.id, ReasonFor(doc, t.id, cause)), b.verdicts, b.pauses + 1,
          b.events + [Unrelated(notice)])
  }

  /** Only an event that was not there before the transaction counts as a failure. */
  ghost function Hooked(b: Board, d: Decided, anew: bool, notice: string): Board {
    if anew && Punishable(b, d) then
      var i := IndexOf(b.doc.tasks, d.task);
      Punished(b, i, Cause(d, b.doc.tasks[i].highRisk).value, notice)
    else b
  }

  /** The whole transaction of one projection; None when it is refused. */
  ghost function Applied(b: Board, d: Decided, id: string, fingerprint: Option<string>, notice: string): Option<Board> {
    var c := Carried(b, d, id, fingerprint);
    if c.None? then None else Some(Hooked(c.value, d, DecisionAction(id) !in b.events, notice))
  }

  // ---------------------------------------------------------------- what a decision does

  lemma {:induction false} IndexOfUpdate(tasks: seq<Task>, id: string, t: Task)
    requires IndexOf(tasks, id) < |tasks| && t.id == id
    ensures IndexOf(tasks[IndexOf(tasks, id) := t], id) == IndexOf(tasks, id)
  {
    if tasks[0].id != id {
      IndexOfUpdate(tasks[1..], id, t);
      assert tasks[IndexOf(tasks, id) := t][1..] == tasks[1..][IndexOf(tasks[1..], id) := t];
    }
  }

  lemma {:induction false} IndexOfSameIds(tasks: seq<Task>, others: seq<Task>, id: string)
    requires |tasks| == |others| && forall k | 0 <= k < |tasks| :: tasks[k].id == others[k].id
    ensures IndexOf(tasks, id) == IndexOf(others, id)
  {
    if tasks != [] {
      IndexOfSameIds(tasks[1..], others[1..], id);
    }
  }

  lemma ActivityMarks(events: seq<EventId>, id: string, other: string)
    ensures Marker(other) in WithActivity(events, id) <==> Marker(other) in events
    ensures DecisionAction(id) in WithActivity(events, id)
    ensures other != id ==> (DecisionAction(other) in WithActivity(events, id) <==> DecisionAction(other) in events)
  {
    var one := WithEvent(events, CheckpointResolved(id));
    var two := WithEvent(one, DecisionMade(id));
    assert Marker(other) in one <==> Marker(other) in events;
    assert Marker(other) in two <==> Marker(other) in one;
    assert DecisionAction(other) in one <==> DecisionAction(other) in events;
    assert DecisionAction(other) in two <==> DecisionAction(other) in one;
  }

  lemma SupportedIsDecided(c: Card, d: Decided, id: string)
    ensures Decide(c, d, id).Some? <==> Supported(d)
    ensures Decide(c, d, id).Some? ==>
            Decide(c, d, id).value.task.id == c.task.id && Decide(c, d, id).value.task.project == c.task.project
              && Decide(c, d, id).value.task.highRisk == c.task.highRisk
              && Decide(c, d, id).value.task.rowVersion == c.task.rowVersion
  {
  }

  /** The card is carried out on the task found, and the hook still finds it there. */
  lemma CarriedCard(b: Board, d: Decided, id: string, fingerprint: Option<string>)
    requires Carried(b, d, id, fingerprint).Some?
    ensures var i := IndexOf(b.doc.tasks, d.task);
      var c := Carried(b, d, id, fingerprint).value;
      && i < |b.doc.tasks| == |c.doc.tasks| && IndexOf(c.doc.tasks, d.task) == i && c.pauses == b.pauses
      && c.doc.projects == b.doc.projects && (Punishable(c, d) <==> Punishable(b, d))
      && (forall k | 0 <= k < |b.doc.tasks| :: c.doc.tasks[k].id == b.doc.tasks[k].id)
      && (Marker(id) in b.events ==> c == b.(events := c.events))
      && (Marker(id) !in b.events ==>
           Supported(d) && c.doc.tasks[i].rowVersion == b.doc.tasks[i].rowVersion + 1
             && c == WithCard(b, i, Changed(CardAt(b, i), d, id, fingerprint).value).(events := c.events))
  {
    var i := IndexOf(b.doc.tasks, d.task);
    SupportedIsDecided(CardAt(b, i), d, id);
    if Marker(id) !in b.events {
      IndexOfUpdate(b.doc.tasks, d.task, Changed(CardAt(b, i), d, id, fingerprint).value.task);
    }
  }

  /** The events of the document after the transaction, as far as any decision is concerned. */
  lemma AppliedEvents(b: Board, d: Decided, id: string, fingerprint: Option<string>, notice: string, other: string)
    requires Applied(b, d, id, fingerprint, notice).Some?
    ensures var after := Applied(b, d, id, fingerprint, notice).value;
      && Marker(id) in after.events && DecisionAction(id) in after.events
      && (other != id ==> (Marker(other) in after.events <==> Marker(other) in b.events)
                            && (DecisionAction(other) in after.events <==> DecisionAction(other) in b.events))
  {
    ActivityMarks(b.events, id, id);
    ActivityMarks(b.events, id, other);
    ActivityMarks(b.events + [Marker(id)], id, id);
    ActivityMarks(b.events + [Marker(id)], id, other);
  }

  /** When a decision can be applied at all. */
  lemma AppliedWhen(b: Board, d: Decided, id: string, fingerprint: Option<string>, notice: string)
    ensures Applied(b, d, id, fingerprint, notice).Some? ==>
            IndexOf(b.doc.tasks, d.task) < |b.doc.tasks| && (Marker(id) in b.events || Supported(d))
    ensures IndexOf(b.doc.tasks, d.task) < |b.doc.tasks| && (Marker(id) in b.events || Supported(d)) ==>
            fingerprint.Some? ==> Applied(b, d, id, fingerprint, notice).Some?
  {
    var i := IndexOf(b.doc.tasks, d.task);
    if i < |b.doc.tasks| {
      SupportedIsDecided(CardAt(b, i), d, id);
    }
  }

  lemma PunishedIds(b: Board, i: nat, cause: string, notice: string)
    requires i < |b.doc.tasks|
    ensures var after := Punished(b, i, cause, notice);
      && |after.doc.tasks| == |b.doc.tasks|
      && forall k | 0 <= k < |b.doc.tasks| :: after.doc.tasks[k].id == b.doc.tasks[k].id
  {
  }

  lemma AppliedIndex(b: Board, d: Decided, id: string, fingerprint: Option<string>, notice: string, task: string)
    requires Applied(b, d, id, fingerprint, notice).Some?
    ensures var after := Applied(b, d, id, fingerprint, notice).value;
      |after.doc.tasks| == |b.doc.tasks| && IndexOf(after.doc.tasks, task) == IndexOf(b.doc.tasks, task)
  {
    CarriedCard(b, d, id, fingerprint);
    var c := Carried(b, d, id, fingerprint).value;
    var after := Applied(b, d, id, fingerprint, notice).value;
    if after != c {
      var i := IndexOf(c.doc.tasks, d.task);
      PunishedIds(c, i, Cause(d, c.doc.tasks[i].highRisk).value, notice);
    }
    IndexOfSameIds(b.doc.tasks, after.doc.tasks, task);
  }

  /** The table of decisions, field by field. A final acceptance accepts, rejects and sends back
      to running, or reroutes and blocks; an archive decision is recorded either way and archives
      when it approves; a dispatch decision makes ready, with the inputs recorded, or parks. Any
      other field of the task but the version stays, and any other kind changes nothing else. */
  predicate Means(was: Card, now: Card, d: Decided, id: string, fingerprint: Option<string>) {
    var yes := d.action in {"approve", "approve_once", "approve_session"};
    var no := d.action in {"reject", "reject_with_feedback"};
    var t, u := was.task, now.task;
    && (d.kind in {"final_acceptance", "archive_override", "dispatch"} ==>
         yes || no || (d.kind == "final_acceptance" && d.action in {"reroute", "request_changes"}))
    && u == t.(state := u.state, dispatch := u.dispatch, baseline := u.baseline, rowVersion := t.rowVersion + 1)
    && u.state == (if d.kind == "final_acceptance" && no then TaskState.Running
                   else if d.kind == "final_acceptance" && !yes then Blocked
                   else if d.kind == "archive_override" && yes then Archived else t.state)
    && u.dispatch == (if d.kind != "dispatch" then t.dispatch else if yes then Ready else Undispatched)
    && (if d.kind == "dispatch" && yes then Some(u.baseline) == fingerprint else u.baseline == t.baseline)
    && now.verdict.acceptance == (if d.kind == "final_acceptance" && yes then AcceptedByHuman
                                  else if d.kind == "final_acceptance" && no then RejectedByHuman
                                  else if d.kind == "final_acceptance" || (d.kind == "archive_override" && yes)
                                  then NotReady else was.verdict.acceptance)
    && now.verdict.decision == (if d.kind == "final_acceptance" && (yes || no) then id
                                else if d.kind == "final_acceptance" || (d.kind == "archive_override" && yes)
                                then "" else was.verdict.decision)
    && now.verdict.archive == (if d.kind == "archive_override" then id else was.verdict.archive)
  }

  /** A pause takes readiness and claims away, and changes nothing a decision is about. */
  lemma PunishedKeeps(b: Board, i: nat, cause: string, notice: string)
    requires i < |b.doc.tasks|
    ensures var after := Punished(b, i, cause, notice);
      && |after.doc.tasks| == |b.doc.tasks| && after.verdicts == b.verdicts
      && var was, now := b.doc.tasks[i], after.doc.tasks[i];
        && now.id == was.id && now.state == was.state && now.baseline == was.baseline
        && (now.dispatch == Ready ==> was.dispatch == Ready)
  {
  }

  /** One card is the decided one, and nothing else of the document is another. */
  ghost predicate OnlyCard(b: Board, i: nat, after: Board) {
    && i < |b.doc.tasks| == |after.doc.tasks| && after.pauses == b.pauses
    && after.doc == b.doc.(tasks := b.doc.tasks[i := after.doc.tasks[i]])
  }

  ghost predicate OtherVerdicts(b: Board, task: string, after: Board) {
    forall other | other != task ::
      (other in after.verdicts <==> other in b.verdicts)
        && (other in b.verdicts ==> after.verdicts[other] == b.verdicts[other])
  }

  lemma CarriedMeans(b: Board, d: Decided, id: string, fingerprint: Option<string>)
    requires Carried(b, d, id, fingerprint).Some? && Marker(id) !in b.events
    ensures var i := IndexOf(b.doc.tasks, d.task);
      var c := Carried(b, d, id, fingerprint).value;
      && OnlyCard(b, i, c) && OtherVerdicts(b, d.task, c) && Supported(d)
      && Means(CardAt(b, i), CardAt(c, i), d, id, fingerprint)
  {
    CarriedCard(b, d, id, fingerprint);
    ChangedMeans(CardAt(b, IndexOf(b.doc.tasks, d.task)), d, id, fingerprint);
  }

  /** What a decision does to its task when it is carried out. Unless it pauses the task that is
      all; and a pause changes nothing the decision is about, but for the readiness it takes away
      again. */
  lemma DecisionsMeanWhatTheySay(b: Board, d: Decided, id: string, fingerprint: Option<string>, notice: string)
    returns (mid: Card)
    requires Applied(b, d, id, fingerprint, notice).Some? && Marker(id) !in b.events
    ensures var i := IndexOf(b.doc.tasks, d.task);
      var after := Applied(b, d, id, fingerprint, notice).value;
      && i < |b.doc.tasks| == |after.doc.tasks| && Marker(id) in after.events && OtherVerdicts(b, d.task, after)
      && Means(CardAt(b, i), mid, d, id, fingerprint)
      && (DecisionAction(id) in b.events || !Punishable(b, d) ==> OnlyCard(b, i, after) && CardAt(after, i) == mid)
      && after.doc.tasks[i].id == mid.task.id && after.doc.tasks[i].state == mid.task.state
      && after.doc.tasks[i].baseline == mid.task.baseline && CardAt(after, i).verdict == mid.verdict
      && (after.doc.tasks[i].dispatch == Ready ==> mid.task.dispatch == Ready)
  {
    var i := IndexOf(b.doc.tasks, d.task);
    CarriedCard(b, d, id, fingerprint);
    CarriedMeans(b, d, id, fingerprint);
    AppliedEvents(b, d, id, fingerprint, notice, id);
    var c := Carried(b, d, id, fingerprint).value;
    mid := CardAt(c, i);
    if DecisionAction(id) !in b.events && Punishable(b, d) {
      PunishedKeeps(c, i, Cause(d, c.doc.tasks[i].highRisk).value, notice);
    }
  }

  lemma ChangedMeans(was: Card, d: Decided, id: string, fingerprint: Option<string>)
    requires Changed(was, d, id, fingerprint).Some?
    ensures var now := Changed(was, d, id, fingerprint).value;
      Supported(d) && Means(was, now, d, id, fingerprint)
  {
  }

  /** A rejected final acceptance in a project that is being run: one more failure, the task no
      longer passed, and the task with everything that depends on it paused, for the second
      failure with a reason of its own. */
  lemma RejectionPauses(b: Board, d: Decided, id: string, fingerprint: Option<string>, notice: string)
    requires UniqueTaskIds(b.doc.tasks) && d.kind == "final_acceptance" && Rejects(d.action)
    requires IndexOf(b.doc.tasks, d.task) < |b.doc.tasks| && DecisionAction(id) !in b.events
    requires Watched(b.doc, b.doc.tasks[IndexOf(b.doc.tasks, d.task)])
    ensures Applied(b, d, id, fingerprint, notice).Some?
    ensures var i := IndexOf(b.doc.tasks, d.task);
      var c := Carried(b, d, id, fingerprint);
      var after := Applied(b, d, id, fingerprint, notice).value;
      && c.Some? && after.pauses == b.pauses + 1 && (d.task != "" ==> after.doc.projects == b.doc.projects)
      && |c.value.doc.tasks| == |after.doc.tasks| == |b.doc.tasks| > i
      && Failed(c.value.doc.tasks, i, after.doc.tasks)
      && c.value.doc.tasks[i].failures == b.doc.tasks[i].failures
      && c.value.doc.tasks[i].project == b.doc.tasks[i].project
      && c.value.doc.tasks[i].dispatch == b.doc.tasks[i].dispatch
      && c.value.doc.tasks[i].rowVersion == b.doc.tasks[i].rowVersion + (if Marker(id) in b.events then 0 else 1)
      && forall k | 0 <= k < |b.doc.tasks| && k != i :: c.value.doc.tasks[k] == b.doc.tasks[k]
  {
    var i := IndexOf(b.doc.tasks, d.task);
    RejectionIsFailure(d);
    SupportedIsDecided(CardAt(b, i), d, id);
    CarriedCard(b, d, id, fingerprint);
    var c := Carried(b, d, id, fingerprint).value;
    PunishedRejection(c, i, notice);
  }

  /** The tasks after a counted failure of the one at i. */
  ghost predicate Failed(was: seq<Task>, i: nat, now: seq<Task>)
    requires i < |was| == |now|
  {
    var reason := if was[i].failures >= 1 then "acceptance_failed_twice" else "acceptance_failed";
    && now[i].id == was[i].id && now[i].project == was[i].project
    && now[i].failures == was[i].failures + 1 && !now[i].passed
    && (was[i].dispatch != Done ==>
         now[i].pauseReason == reason && now[i].dispatch !in {Claimed, Ready, Done}
           && now[i].rowVersion == was[i].rowVersion + 1)
    && (was[i].dispatch == Done ==> now[i].dispatch == Done && now[i].rowVersion == was[i].rowVersion)
    && forall k | 0 <= k < |was| && k != i ::
         now[k] == if was[k].project == was[i].project
                     && (was[i].id == "" || was[k].id in Affected(was, was[i].project, was[i].id))
                   then PausedTask(was[k], reason) else was[k]
  }

  lemma PunishedRejection(b: Board, i: nat, notice: string)
    requires i < |b.doc.tasks| && forall k | 0 <= k < |b.doc.tasks| && k != i :: b.doc.tasks[k].id != b.doc.tasks[i].id
    ensures var after := Punished(b, i, "acceptance_failed", notice);
      && |after.doc.tasks| == |b.doc.tasks| && (b.doc.tasks[i].id != "" ==> after.doc.projects == b.doc.projects)
      && Failed(b.doc.tasks, i, after.doc.tasks)
  {
    var t := b.doc.tasks[i];
    var noted := Noted(b.doc, t.id, "acceptance_failed");
    var reason := ReasonFor(noted, t.id, "acceptance_failed");
    FailedTwiceWhen(b.doc.tasks, i);
    SameAffected(b.doc.tasks, noted.tasks, t.project, t.id);
    var after := PausedDocument(noted, t.project, t.id, reason);
    assert IsPaused(noted, t.project, t.id, reason, after);
    assert ProjectWide(t.id, reason) <==> t.id == "";
    AffectedIsLeastClosed(noted.tasks, t.project, t.id);
  }

  lemma RejectionIsFailure(d: Decided)
    requires d.kind == "final_acceptance" && Rejects(d.action)
    ensures forall risk :: Cause(d, risk) == Some("acceptance_failed")
  {
    assert "final_acceptance_" + "rejected" == "final_acceptance_rejected";
  }

  lemma FailedTwiceWhen(tasks: seq<Task>, i: nat)
    requires i < |tasks| && forall k | 0 <= k < |tasks| && k != i :: tasks[k].id != tasks[i].id
    ensures FailedTwice(CountFailure(tasks, tasks[i].id), tasks[i].id) <==> tasks[i].failures >= 1
  {
    assert CountFailure(tasks, tasks[i].id)[i].failures == tasks[i].failures + 1;
  }

  /** A transaction leaves everything but the record of events as it was, on any document,
      exactly when the marker is there, and the event of a decision that would pause its task
      now is there as well. */
  lemma RepeatIsHarmless(b: Board, d: Decided, id: string, fingerprint: Option<string>, notice: string)
    requires Applied(b, d, id, fingerprint, notice).Some?
    ensures Applied(b, d, id, fingerprint, notice).value.(events := b.events) == b <==>
            Marker(id) in b.events && (DecisionAction(id) in b.events || !Punishable(b, d))
  {
    CarriedCard(b, d, id, fingerprint);
    var i := IndexOf(b.doc.tasks, d.task);
    var c := Carried(b, d, id, fingerprint).value;
    assert Marker(id) !in b.events ==> c.doc.tasks[i] != b.doc.tasks[i];
  }

  /** In particular a transaction repeated at once changes nothing at all. */
  lemma RepeatAtOnce(b: Board, d: Decided, id: string, fingerprint: Option<string>, notice: string,
                     again: Option<string>)
    requires Applied(b, d, id, fingerprint, notice).Some?
    ensures var once := Applied(b, d, id, fingerprint, notice).value;
      Applied(once, d, id, again, notice) == Some(once)
  {
    var once := Applied(b, d, id, fingerprint, notice).value;
    AppliedIndex(b, d, id, fingerprint, notice, d.task);
    AppliedEvents(b, d, id, fingerprint, notice, id);
    AppliedActivity(b, d, id, fingerprint, notice);
    CarriedCard(b, d, id, fingerprint);
  }

  lemma AppliedActivity(b: Board, d: Decided, id: string, fingerprint: Option<string>, notice: string)
    requires Applied(b, d, id, fingerprint, notice).Some?
    ensures var events := Applied(b, d, id, fingerprint, notice).value.events;
      WithActivity(events, id) == events
  {
    var before := if Marker(id) in b.events then b.events else b.events + [Marker(id)];
    var one := WithEvent(before, CheckpointResolved(id));
    var two := WithEvent(one, DecisionMade(id));
    assert CheckpointResolved(id) in one && CheckpointResolved(id) in two && DecisionMade(id) in two;
    var events := WithActivity(before, id);
    assert CheckpointResolved(id) in events && DecisionMade(id) in events && DecisionAction(id) in events;
  }

  // ---------------------------------------------------------------- the projector

  class Projector {
    const control: ControlDocument
    var verdicts: map<string, Verdict>
    var pauses: nat
    var events: seq<EventId>

    ghost function View(): Board
      reads this, control
    {
      Board(control.Doc(), verdicts, pauses, events)
    }

    constructor (b: Board)
      ensures View() == b && fresh(control)
    {
      control := new ControlDocument(b.doc);
      verdicts, pauses, events := b.verdicts, b.pauses, b.events;
    }

    method AppendActivity(id: string)
      modifies this`events
      ensures events == WithActivity(old(events), id)
    {
      if CheckpointResolved(id) !in events { events := events + [CheckpointResolved(id)]; }
      if DecisionMade(id) !in events { events := events + [DecisionMade(id)]; }
      if DecisionAction(id) !in events { events := events + [DecisionAction(id)]; }
    }

    method HasMarker(id: string) returns (there: bool)
      ensures there <==> Marker(id) in events
    {
      for k := 0 to |events|
        invariant forall j | 0 <= j < k :: events[j] != Marker(id)
      {
        if events[k] == Marker(id) {
          return true;
        }
      }
      return false;
    }

    /** Carries the decision out on one card, and leaves its marker. */
    method ChangeCard(i: nat, d: Decided, id: string, fingerprint: Option<string>) returns (ok: bool)
      requires i < |control.tasks|
      modifies this, control`tasks
      ensures ok <==> Changed(old(CardAt(View(), i)), d, id, fingerprint).Some?
      ensures ok ==>
          View() == WithCard(old(View()), i, Changed(old(CardAt(View(), i)), d, id, fingerprint).value)
                      .(events := old(events) + [Marker(id)])
      ensures !ok ==> View() == old(View())
    {
      var t := control.tasks[i];
      var c := Decide(Card(t, if t.id in verdicts then verdicts[t.id] else UNDECIDED), d, id);
      if c.None? {
        return false;
      }
      var u := c.value.task;
      if d.kind == "dispatch" && u.dispatch == Ready {
        if fingerprint.None? {
          return false;
        }
        u := u.(baseline := fingerprint.value);
      }
      control.tasks := control.tasks[i := u.(rowVersion := u.rowVersion + 1)];
      verdicts := verdicts[u.id := c.value.verdict];
      events := events + [Marker(id)];
      return true;
    }

    /** The callback of the transaction: on a refusal nothing may be saved, and nothing is. */
    method ApplyTaskProjection(d: Decided, id: string, fingerprint: Option<string>) returns (ok: bool)
      modifies this, control
      ensures ok <==> Carried(old(View()), d, id, fingerprint).Some?
      ensures View() == if ok then Carried(old(View()), d, id, fingerprint).value else old(View())
    {
      var marked := HasMarker(id);
      for i := 0 to |control.tasks|
        invariant View() == old(View())
        invariant forall k | 0 <= k < i :: control.tasks[k].id != d.task
      {
        if control.tasks[i].id == d.task {
          assert IndexOf(control.tasks, d.task) == i;
          if !marked {
            ok := ChangeCard(i, d, id, fingerprint);
            if !ok {
              return false;
            }
          }
          AppendActivity(id);
          return true;
        }
      }
      assert IndexOf(control.tasks, d.task) == |control.tasks|;
      return false;
    }

    /** One more failure for the tasks with the id, and whether that makes two for one of them. */
    method NoteFailure(id: string) returns (twice: bool)
      modifies control`tasks
      ensures control.tasks == CountFailure(old(control.tasks), id)
      ensures twice <==> FailedTwice(control.tasks, id)
    {
      twice := false;
      for i := 0 to |control.tasks|
        invariant |control.tasks| == |old(control.tasks)|
        invariant forall k | 0 <= k < i :: control.tasks[k] == OneFailure(old(control.tasks)[k], id)
        invariant forall k | i <= k < |control.tasks| :: control.tasks[k] == old(control.tasks)[k]
        invariant twice <==> exists k | 0 <= k < i :: control.tasks[k].id == id && control.tasks[k].failures >= 2
      {
        var t := control.tasks[i];
        if t.id == id {
          control.tasks := control.tasks[i := t.(failures := t.failures + 1, passed := false)];
          assert forall k | 0 <= k < i :: control.tasks[k] == OneFailure(old(control.tasks)[k], id);
          if t.failures + 1 >= 2 {
            twice := true;
          }
        }
      }
    }

    /** A failure in a project that is being run pauses the task. */
    method Punish(i: nat, cause: string, notice: string)
      requires i < |control.tasks|
      modifies this, control
      ensures View() == Punished(old(View()), i, cause, notice)
    {
      var t := control.tasks[i];
      var reason := cause;
      if cause == "acceptance_failed" {
        var twice := NoteFailure(t.id);
        if twice {
          reason := "acceptance_failed_twice";
        }
      }
      control.PauseControlState(t.project, t.id, reason);
      pauses := pauses + 1;
      events := events + [Unrelated(notice)];
    }

    /** Looks at every event that was not there before the transaction. */
    method ApplyTakeoverEvents(previous: seq<EventId>, d: Decided, id: string, notice: string)
      requires DecisionAction(id) in previous || OnlyLast(events, DecisionAction(id))
      modifies this, control
      ensures View() == Hooked(old(View()), d, DecisionAction(id) !in previous, notice)
    {
      var all := events;
      for k := 0 to |all|
        invariant k < |all| || DecisionAction(id) in previous ==> View() == old(View())
        invariant k == |all| ==> View() == Hooked(old(View()), d, DecisionAction(id) !in previous, notice)
      {
        if all[k] !in previous && all[k] == DecisionAction(id) {
          assert k == |all| - 1;
          var i := FindIndex(d.task);
          if i < |control.tasks| {
            var p := FindProject(control.projects, control.tasks[i].project);
            if p.Some? && p.value.mode == Active {
              var cause := Cause(d, control.tasks[i].highRisk);
              if cause.Some? {
                Punish(i, cause.value, notice);
              }
            }
          }
        }
      }
    }

    method FindIndex(id: string) returns (i: nat)
      ensures i == IndexOf(control.tasks, id)
    {
      i := 0;
      while i < |control.tasks|
        invariant i <= |control.tasks| && forall k | 0 <= k < i :: control.tasks[k].id != id
      {
        if control.tasks[i].id == id {
          return;
        }
        i := i + 1;
      }
    }

    /** The transaction: the callback, then the hook over the new events. */
    method WithStateLocked(d: Decided, id: string, fingerprint: Option<string>, notice: string) returns (ok: bool)
      modifies this, control
      ensures ok <==> Applied(old(View()), d, id, fingerprint, notice).Some?
      ensures View() == if ok then Applied(old(View()), d, id, fingerprint, notice).value else old(View())
    {
      var previous := events;
      ok := ApplyTaskProjection(d, id, fingerprint);
      if ok {
        if DecisionAction(id) !in previous {
          LastEvent(if Marker(id) in previous then previous else previous + [Marker(id)], id);
        }
        ApplyTakeoverEvents(previous, d, id, notice);
      }
    }
  }

  predicate OnlyLast(events: seq<EventId>, e: EventId) {
    events != [] && events[|events|-1] == e && forall k | 0 <= k < |events| - 1 :: events[k] != e
  }

  /** The event of the decision comes last when it is new. */
  lemma LastEvent(events: seq<EventId>, id: string)
    requires DecisionAction(id) !in events
    ensures OnlyLast(WithActivity(events, id), DecisionAction(id))
  {
    var one := WithEvent(events, CheckpointResolved(id));
    var two := WithEvent(one, DecisionMade(id));
    assert DecisionAction(id) !in one && DecisionAction(id) !in two;
    assert WithActivity(events, id)[..|two|] == two;
  }

  // ---------------------------------------------------------------- the two stores together

  datatype RowState = Waiting | FailedOnce | Delivered

  datatype Row = Row(state: RowState, attempts: nat)

  /** A worker has a list of decisions still to apply, and the verdict on the first one. */
  datatype Worker = Worker(queue: seq<string>, verdict: Option<bool>)

  datatype World = World(board: Board, rows: map<string, Row>, workers: map<nat, Worker>)

  datatype Write = Written | WriteLost | WrittenWithError

  datatype Move =
    | Queue(id: string)
    | Take(w: nat, queue: seq<string>)
    | Apply(w: nat, fingerprint: Option<string>, notice: string, write: Write)
    | Mark(w: nat, reached: bool)
    | Prune(kept: seq<EventId>)
    | Edit(board: Board, more: seq<EventId>)
    | Crash

  function MarkedRow(r: Row, ok: bool): Row {
    if r.state == Delivered then r else Row(if ok then Delivered else FailedOnce, r.attempts + 1)
  }

  /** decisions is what the database says each decision was about. */
  ghost predicate Next(decisions: map<string, Decided>, s: World, m: Move, t: World) {
    match m
    case Queue(id) => id in decisions && id !in s.rows && t == s.(rows := s.rows[id := Row(Waiting, 0)])
    case Take(w, queue) =>
      && w !in s.workers && (forall id | id in queue :: id in s.rows && s.rows[id].state != Delivered)
      && t == s.(workers := s.workers[w := Worker(queue, None)])
    case Apply(w, fingerprint, notice, write) =>
      && w in s.workers && s.workers[w].queue != [] && s.workers[w].verdict.None? && s.workers[w].queue[0] in decisions
      && var id := s.workers[w].queue[0];
        var after := Applied(s.board, decisions[id], id, fingerprint, notice);
        t == World(if after.Some? && write != WriteLost then after.value else s.board, s.rows,
                   s.workers[w := s.workers[w].(verdict := Some(after.Some? && write == Written))])
    case Mark(w, reached) =>
      && w in s.workers && s.workers[w].queue != [] && s.workers[w].verdict.Some?
      && var id := s.workers[w].queue[0];
        t == World(s.board,
                   if reached && id in s.rows then s.rows[id := MarkedRow(s.rows[id], s.workers[w].verdict.value)]
                   else s.rows,
                   s.workers[w := Worker(s.workers[w].queue[1..], None)])
    case Prune(kept) => (forall e | e in kept :: e in s.board.events) && t == s.(board := s.board.(events := kept))
    case Edit(board, more) =>
      (forall e | e in more :: e.Unrelated?) && t == s.(board := board.(events := s.board.events + more))
    case Crash => t == s.(workers := map[])
  }

  /** The move does more to the document than record events: it carries the decision out, or
      counts it as a failure. */
  ghost predicate Effect(s: World, m: Move, t: World, id: string) {
    && m.Apply? && m.w in s.workers && s.workers[m.w].queue != [] && s.workers[m.w].queue[0] == id
    && t.board.(events := s.board.events) != s.board
  }

  /** Some worker is still going to apply the decision. */
  ghost predicate Held(s: World, id: string) {
    exists w :: w in s.workers && HeldBy(s.workers[w], id)
  }

  predicate HeldBy(w: Worker, id: string) {
    w.queue != [] && (id in w.queue[1..] || (w.queue[0] == id && w.verdict.None?))
  }

  /** The events that guard the decision are there: the marker, and for a decision that can
      pause its task the event of the decision itself. */
  ghost predicate Guarded(decisions: map<string, Decided>, b: Board, id: string) {
    && Marker(id) in b.events
    && (id in decisions && CanPause(decisions[id]) ==> DecisionAction(id) in b.events)
  }

  predicate Over(s: World, id: string) {
    id in s.rows && s.rows[id].state == Delivered
  }

  ghost predicate Safe(decisions: map<string, Decided>, s: World, id: string) {
    Guarded(decisions, s.board, id) || (Over(s, id) && !Held(s, id))
  }

  /** Compaction keeps the guard until the row is delivered and nobody holds it. */
  ghost predicate Retains(decisions: map<string, Decided>, s: World, m: Move, id: string) {
    m.Prune? && Safe(decisions, s, id) ==> Safe(decisions, s.(board := s.board.(events := m.kept)), id)
  }

  ghost predicate IsRun(decisions: map<string, Decided>, ss: seq<World>, ms: seq<Move>) {
    && |ss| == |ms| + 1 && ss[0].rows == map[] && ss[0].workers == map[]
         && (forall e | e in ss[0].board.events :: e.Unrelated?)
    && forall k | 0 <= k < |ms| :: Next(decisions, ss[k], ms[k], ss[k+1])
  }

  /** How many of the first k moves had an effect of the decision. */
  ghost function Count(ss: seq<World>, ms: seq<Move>, id: string, k: nat): nat
    requires |ss| == |ms| + 1 && k <= |ms|
  {
    if k == 0 then 0 else Count(ss, ms, id, k - 1) + if Effect(ss[k-1], ms[k-1], ss[k], id) then 1 else 0
  }

  /** What ties the count to the two stores. */
  ghost predicate Tallies(decisions: map<string, Decided>, s: World, id: string, count: nat) {
    && count <= 1
    && (count == 0 ==> Marker(id) !in s.board.events && !Over(s, id))
    && (count == 1 ==> Safe(decisions, s, id))
    && (forall w | w in s.workers && s.workers[w].queue != [] && s.workers[w].queue[0] == id
         && s.workers[w].verdict == Some(true) :: count == 1)
  }

  lemma CauseNeedsKind(d: Decided)
    ensures !CanPause(d) ==> forall risk :: Cause(d, risk).None?
  {
  }

  /** An application with its guard in place has no effect; one without its marker has one. */
  lemma EffectOfApply(decisions: map<string, Decided>, s: World, m: Move, t: World)
    requires m.Apply? && Next(decisions, s, m, t)
    ensures var id := s.workers[m.w].queue[0];
      && (Guarded(decisions, s.board, id) ==> !Effect(s, m, t, id))
      && (t.board != s.board && Marker(id) !in s.board.events ==> Effect(s, m, t, id))
      && (t.board != s.board ==> Guarded(decisions, t.board, id))
      && (s.workers[m.w].verdict.None? && t.workers[m.w].verdict == Some(true) ==>
           Marker(id) in s.board.events || t.board != s.board)
  {
    var id := s.workers[m.w].queue[0];
    var d := decisions[id];
    var after := Applied(s.board, d, id, m.fingerprint, m.notice);
    if after.Some? {
      RepeatIsHarmless(s.board, d, id, m.fingerprint, m.notice);
      AppliedEvents(s.board, d, id, m.fingerprint, m.notice, id);
      CauseNeedsKind(d);
    }
  }

  /** Other decisions' guards are as they were. */
  lemma OtherGuards(decisions: map<string, Decided>, s: World, m: Move, t: World, id: string)
    requires m.Apply? && Next(decisions, s, m, t) && s.workers[m.w].queue[0] != id
    ensures Marker(id) in t.board.events <==> Marker(id) in s.board.events
    ensures Guarded(decisions, t.board, id) <==> Guarded(decisions, s.board, id)
  {
    var head := s.workers[m.w].queue[0];
    if t.board != s.board {
      AppliedEvents(s.board, decisions[head], head, m.fingerprint, m.notice, id);
    }
  }

  lemma HeldStays(decisions: map<string, Decided>, s: World, m: Move, t: World, id: string)
    requires Next(decisions, s, m, t) && (m.Apply? || m.Mark? || m.Crash? || (m.Take? && Over(s, id)))
    ensures Held(t, id) ==> Held(s, id)
    ensures Over(s, id) ==> Over(t, id)
  {
    if Held(t, id) {
      var w :| w in t.workers && HeldBy(t.workers[w], id);
      assert w in s.workers && HeldBy(s.workers[w], id);
    }
  }

  /** A move that drops no events leaves a safe decision safe, and without effect. */
  lemma SafeStays(decisions: map<string, Decided>, s: World, m: Move, t: World, id: string)
    requires Next(decisions, s, m, t) && !m.Prune? && Safe(decisions, s, id)
    ensures Safe(decisions, t, id) && !Effect(s, m, t, id)
  {
    if Over(s, id) && (m.Apply? || m.Mark? || m.Crash? || m.Take?) {
      HeldStays(decisions, s, m, t, id);
    }
    if m.Apply? {
      var head := s.workers[m.w].queue[0];
      EffectOfApply(decisions, s, m, t);
      if head == id {
        assert HeldBy(s.workers[m.w], id);
        assert Held(s, id);
      } else {
        OtherGuards(decisions, s, m, t, id);
      }
    } else if m.Queue? || m.Edit? {
      assert t.workers == s.workers;
      assert Held(t, id) <==> Held(s, id);
    }
  }

  lemma ApplyTallies(decisions: map<string, Decided>, s: World, m: Move, t: World, id: string, count: nat)
    requires m.Apply? && Next(decisions, s, m, t) && Tallies(decisions, s, id, count)
    ensures Tallies(decisions, t, id, count + if Effect(s, m, t, id) then 1 else 0)
  {
    if count == 1 {
      SafeStays(decisions, s, m, t, id);
    } else {
      EffectOfApply(decisions, s, m, t);
      if s.workers[m.w].queue[0] != id {
        OtherGuards(decisions, s, m, t, id);
      }
    }
  }

  lemma MoveTallies(decisions: map<string, Decided>, s: World, m: Move, t: World, id: string, count: nat)
    requires Next(decisions, s, m, t) && Tallies(decisions, s, id, count) && Retains(decisions, s, m, id)
    ensures Tallies(decisions, t, id, count + if Effect(s, m, t, id) then 1 else 0)
  {
    if m.Apply? {
      ApplyTallies(decisions, s, m, t, id, count);
    } else if !m.Prune? && count == 1 {
      SafeStays(decisions, s, m, t, id);
    }
  }

  lemma {:induction false} RunTallies(decisions: map<string, Decided>, ss: seq<World>, ms: seq<Move>, id: string,
                                      k: nat)
    requires IsRun(decisions, ss, ms) && k <= |ms|
    requires forall j | 0 <= j < k :: Retains(decisions, ss[j], ms[j], id)
    ensures Tallies(decisions, ss[k], id, Count(ss, ms, id, k))
  {
    if k == 0 {
      assert Marker(id) !in ss[0].board.events;
    } else {
      RunTallies(decisions, ss, ms, id, k - 1);
      MoveTallies(decisions, ss[k-1], ms[k-1], ss[k], id, Count(ss, ms, id, k - 1));
    }
  }

  /** Over every run with crashes, lost writes, retries and concurrent workers: a decision has
      its effect at most once, and exactly once when its row says delivered, provided
      compaction retains its guard while it can still be needed. */
  lemma ExactlyOnce(decisions: map<string, Decided>, ss: seq<World>, ms: seq<Move>, id: string, k: nat)
    requires IsRun(decisions, ss, ms) && k <= |ms|
    requires forall j | 0 <= j < k :: Retains(decisions, ss[j], ms[j], id)
    ensures Count(ss, ms, id, k) <= 1
    ensures Over(ss[k], id) ==> Count(ss, ms, id, k) == 1
  {
    RunTallies(decisions, ss, ms, id, k);
  }

  // ---------------------------------------------------------------- what compaction retains

  function Names(items: seq<Compaction.Item>, name: nat -> EventId): seq<EventId> {
    seq(|items|, i requires 0 <= i < |items| => name(items[i].id))
  }

  /** The recorded events as the compaction of the document sees them. */
  ghost predicate Records(h: Compaction.History, name: nat -> EventId, events: seq<EventId>) {
    && Compaction.Distinct(h.tasks) && Compaction.DistinctItems(h.events) && events == Names(h.events, name)
    && forall x, y | x in h.events && y in h.events && name(x.id) == name(y.id) :: x == y
  }

  /** The event of a task of the document that carries the name. */
  ghost predicate IsEvent(h: Compaction.History, name: nat -> EventId, x: Compaction.Item, e: EventId) {
    x in h.events && x.task in h.tasks && !x.running && name(x.id) == e
  }

  predicate Recent(h: Compaction.History, x: Compaction.Item) {
    Compaction.NewerCount(Compaction.Share(h, Compaction.Events, x.task), x) < 64
  }

  lemma CompactionKeeps(h: Compaction.History, name: nat -> EventId, events: seq<EventId>, x: Compaction.Item,
                        e: EventId)
    requires Records(h, name, events) && IsEvent(h, name, x, e)
    ensures e in Names(Compaction.Compacted(h).events, name) <==> Recent(h, x)
  {
    var after := Compaction.Compacted(h).events;
    Compaction.SurvivesWhile(h, Compaction.Events, x);
    assert Compaction.ListOf(Compaction.Compacted(h), Compaction.Events) == after;
    if x in after {
      var k :| 0 <= k < |after| && after[k] == x;
      assert Names(after, name)[k] == e;
    }
    if e in Names(after, name) {
      var k :| 0 <= k < |after| && Names(after, name)[k] == e;
      Compaction.CompactedMembers(h.events, h.tasks, Compaction.EVENTS, after[k]);
    }
  }

  lemma OnlyRecorded(h: Compaction.History, name: nat -> EventId, events: seq<EventId>)
    requires Records(h, name, events)
    ensures forall e | e in Names(Compaction.Compacted(h).events, name) :: e in events
  {
    var after := Compaction.Compacted(h).events;
    forall e | e in Names(after, name) ensures e in events {
      var k :| 0 <= k < |after| && Names(after, name)[k] == e;
      Compaction.CompactedMembers(h.events, h.tasks, Compaction.EVENTS, after[k]);
      InNames(h.events, name, after[k]);
    }
  }

  lemma RetainsWhen(decisions: map<string, Decided>, s: World, kept: seq<EventId>, id: string)
    requires Guarded(decisions, s.board, id) && !(Over(s, id) && !Held(s, id))
    ensures Retains(decisions, s, Prune(kept), id) <==> Guarded(decisions, s.board.(events := kept), id)
  {
    assert Held(s.(board := s.board.(events := kept)), id) <==> Held(s, id);
  }

  /** A compaction retains the guard of a decision that is still needed exactly when fewer than
      64 events of the task are newer than its marker, and, if it can pause its task, newer
      than its own event, which carries the time of the response. */
  lemma CompactionRetains(decisions: map<string, Decided>, s: World, h: Compaction.History, name: nat -> EventId,
                          id: string, marker: Compaction.Item, action: Compaction.Item)
    requires Records(h, name, s.board.events) && id in decisions && !(Over(s, id) && !Held(s, id))
    requires IsEvent(h, name, marker, Marker(id))
    requires CanPause(decisions[id]) ==> IsEvent(h, name, action, DecisionAction(id))
    ensures var kept := Names(Compaction.Compacted(h).events, name);
      && Next(decisions, s, Prune(kept), s.(board := s.board.(events := kept)))
      && (Retains(decisions, s, Prune(kept), id) <==>
           Recent(h, marker) && (CanPause(decisions[id]) ==> Recent(h, action)))
  {
    OnlyRecorded(h, name, s.board.events);
    CompactionKeeps(h, name, s.board.events, marker, Marker(id));
    InNames(h.events, name, marker);
    if CanPause(decisions[id]) {
      CompactionKeeps(h, name, s.board.events, action, DecisionAction(id));
      InNames(h.events, name, action);
    }
    RetainsWhen(decisions, s, Names(Compaction.Compacted(h).events, name), id);
  }

  lemma InNames(items: seq<Compaction.Item>, name: nat -> EventId, x: Compaction.Item)
    requires x in items
    ensures name(x.id) in Names(items, name)
  {
    var k :| 0 <= k < |items| && items[k] == x;
    assert Names(items, name)[k] == name(x.id);
  }

  // ---------------------------------------------------------------- retention is needed

  /** The run goes on, and no further event is dropped. */
  ghost predicate Continues(decisions: map<string, Decided>, ss: seq<World>, ms: seq<Move>, ss2: seq<World>,
                            ms2: seq<Move>) {
    && IsRun(decisions, ss2, ms2) && |ss| == |ms| + 1 && |ms| <= |ms2| && ss2[..|ss|] == ss && ms2[..|ms|] == ms
    && forall k | |ms| <= k < |ms2| :: !ms2[k].Prune?
  }

  /** However the run goes on, the decision has no further effect. */
  ghost predicate Silent(decisions: map<string, Decided>, ss: seq<World>, ms: seq<Move>, id: string)
    requires |ss| == |ms| + 1
  {
    forall ss2, ms2 | Continues(decisions, ss, ms, ss2, ms2) ::
      Count(ss2, ms2, id, |ms2|) == Count(ss, ms, id, |ms|)
  }

  /** Rows and queues are about known decisions, and only supported ones leave a marker. */
  ghost predicate Known(decisions: map<string, Decided>, s: World) {
    && s.rows.Keys <= decisions.Keys
    && (forall w, x | w in s.workers && x in s.workers[w].queue :: x in s.rows)
    && (forall x | Marker(x) in s.board.events :: x in decisions && Supported(decisions[x]))
  }

  lemma KnownStays(decisions: map<string, Decided>, s: World, m: Move, t: World)
    requires Next(decisions, s, m, t) && Known(decisions, s)
    ensures Known(decisions, t)
  {
    if m.Apply? && t.board != s.board {
      var head := s.workers[m.w].queue[0];
      AppliedWhen(s.board, decisions[head], head, m.fingerprint, m.notice);
      forall x | Marker(x) in t.board.events ensures x in decisions && Supported(decisions[x]) {
        AppliedEvents(s.board, decisions[head], head, m.fingerprint, m.notice, x);
      }
    }
  }

  lemma {:induction false} RunKnown(decisions: map<string, Decided>, ss: seq<World>, ms: seq<Move>, k: nat)
    requires IsRun(decisions, ss, ms) && k <= |ms|
    ensures Known(decisions, ss[k])
  {
    if k > 0 {
      RunKnown(decisions, ss, ms, k - 1);
      KnownStays(decisions, ss[k-1], ms[k-1], ss[k]);
    }
  }

  /** Nothing more can come of the decision. */
  ghost predicate Finished(decisions: map<string, Decided>, s: World, id: string)
    requires id in decisions
  {
    !Supported(decisions[id]) || Safe(decisions, s, id)
  }

  lemma FinishedStays(decisions: map<string, Decided>, s: World, m: Move, t: World, id: string)
    requires Next(decisions, s, m, t) && !m.Prune? && Known(decisions, s) && id in decisions
    requires Finished(decisions, s, id)
    ensures Finished(decisions, t, id) && !Effect(s, m, t, id)
  {
    if Safe(decisions, s, id) {
      SafeStays(decisions, s, m, t, id);
    } else if m.Apply? && s.workers[m.w].queue[0] == id {
      AppliedWhen(s.board, decisions[id], id, m.fingerprint, m.notice);
    }
  }

  lemma {:induction false} FinishedRun(decisions: map<string, Decided>, ss: seq<World>, ms: seq<Move>, id: string,
                                       from: nat, k: nat)
    requires IsRun(decisions, ss, ms) && from <= k <= |ms| && id in decisions && Finished(decisions, ss[from], id)
    requires forall j | from <= j < |ms| :: !ms[j].Prune?
    ensures Finished(decisions, ss[k], id) && Count(ss, ms, id, k) == Count(ss, ms, id, from)
    decreases k
  {
    if k > from {
      FinishedRun(decisions, ss, ms, id, from, k - 1);
      RunKnown(decisions, ss, ms, k - 1);
      FinishedStays(decisions, ss[k-1], ms[k-1], ss[k], id);
    }
  }

  lemma {:induction false} CountPrefix(ss: seq<World>, ms: seq<Move>, ss2: seq<World>, ms2: seq<Move>, id: string,
                                       k: nat)
    requires |ss| == |ms| + 1 && |ss2| == |ms2| + 1 && k <= |ms| <= |ms2| && ss2[..|ss|] == ss && ms2[..|ms|] == ms
    ensures Count(ss2, ms2, id, k) == Count(ss, ms, id, k)
  {
    if k > 0 {
      CountPrefix(ss, ms, ss2, ms2, id, k - 1);
      assert ss2[k] == ss[k] && ss2[k-1] == ss[k-1] && ms2[k-1] == ms[k-1];
    }
  }

  lemma Extend(decisions: map<string, Decided>, ss: seq<World>, ms: seq<Move>, m: Move, t: World, id: string)
    requires IsRun(decisions, ss, ms) && Next(decisions, ss[|ms|], m, t)
    ensures IsRun(decisions, ss + [t], ms + [m])
    ensures Count(ss + [t], ms + [m], id, |ms| + 1) ==
            Count(ss, ms, id, |ms|) + (if Effect(ss[|ms|], m, t, id) then 1 else 0)
  {
    assert (ss + [t])[..|ss|] == ss && (ms + [m])[..|ms|] == ms;
    CountPrefix(ss, ms, ss + [t], ms + [m], id, |ms|);
    forall k | 0 <= k < |ms| + 1 ensures Next(decisions, (ss + [t])[k], (ms + [m])[k], (ss + [t])[k+1]) {
      if k < |ms| {
        assert Next(decisions, ss[k], ms[k], ss[k+1]);
      }
    }
  }

  /** The same for a continuation. */
  lemma Grow(decisions: map<string, Decided>, ss0: seq<World>, ms0: seq<Move>, ss: seq<World>, ms: seq<Move>, m: Move,
             t: World, id: string)
    requires Continues(decisions, ss0, ms0, ss, ms) && !m.Prune? && Next(decisions, ss[|ms|], m, t)
    ensures Continues(decisions, ss0, ms0, ss + [t], ms + [m])
    ensures Count(ss + [t], ms + [m], id, |ms| + 1) ==
            Count(ss, ms, id, |ms|) + (if Effect(ss[|ms|], m, t, id) then 1 else 0)
  {
    Extend(decisions, ss, ms, m, t, id);
    assert (ss + [t])[..|ss0|] == ss[..|ss0|] && (ms + [m])[..|ms0|] == ms[..|ms0|];
  }

  /** The worker is about to apply the decision. */
  ghost predicate About(s: World, w: nat, id: string) {
    w in s.workers && s.workers[w].queue != [] && s.workers[w].queue[0] == id && s.workers[w].verdict.None?
  }

  /** A worker that holds the decision gets to it, while every write before it is lost. */
  lemma {:induction false} Drain(decisions: map<string, Decided>, ss0: seq<World>, ms0: seq<Move>, ss: seq<World>,
                                 ms: seq<Move>, id: string, w: nat)
    returns (ss2: seq<World>, ms2: seq<Move>)
    requires Continues(decisions, ss0, ms0, ss, ms) && w in ss[|ms|].workers && HeldBy(ss[|ms|].workers[w], id)
    ensures Continues(decisions, ss0, ms0, ss2, ms2) && About(ss2[|ms2|], w, id)
    ensures ss2[|ms2|].board == ss[|ms|].board && Count(ss2, ms2, id, |ms2|) == Count(ss, ms, id, |ms|)
    decreases |ss[|ms|].workers[w].queue|, ss[|ms|].workers[w].verdict.None?
  {
    ss2, ms2 := ss, ms;
    var s := ss[|ms|];
    var worker := s.workers[w];
    RunKnown(decisions, ss, ms, |ms|);
    if About(s, w, id) {
      return;
    }
    assert id in worker.queue[1..];
    assert worker.queue[0] in s.rows;
    if worker.verdict.None? {
      var after := Applied(s.board, decisions[worker.queue[0]], worker.queue[0], None, "");
      var t := s.(workers := s.workers[w := worker.(verdict := Some(false))]);
      Grow(decisions, ss0, ms0, ss, ms, Apply(w, None, "", WriteLost), t, id);
      ss2, ms2 := Drain(decisions, ss0, ms0, ss + [t], ms + [Apply(w, None, "", WriteLost)], id, w);
    } else {
      var t := s.(workers := s.workers[w := Worker(worker.queue[1..], None)]);
      assert HeldBy(t.workers[w], id) by {
        assert worker.queue[1..] == [worker.queue[1]] + worker.queue[1..][1..];
      }
      Grow(decisions, ss0, ms0, ss, ms, Mark(w, false), t, id);
      ss2, ms2 := Drain(decisions, ss0, ms0, ss + [t], ms + [Mark(w, false)], id, w);
    }
  }

  /** A row that is not delivered is taken again after a restart. */
  lemma Retake(decisions: map<string, Decided>, ss0: seq<World>, ms0: seq<Move>, ss: seq<World>, ms: seq<Move>,
               id: string)
    returns (ss2: seq<World>, ms2: seq<Move>)
    requires Continues(decisions, ss0, ms0, ss, ms) && id in decisions && !Over(ss[|ms|], id)
    ensures Continues(decisions, ss0, ms0, ss2, ms2) && About(ss2[|ms2|], 0, id)
    ensures ss2[|ms2|].board == ss[|ms|].board && Count(ss2, ms2, id, |ms2|) == Count(ss, ms, id, |ms|)
  {
    ss2, ms2 := ss, ms;
    var s := ss[|ms|];
    if id !in s.rows {
      var t := s.(rows := s.rows[id := Row(Waiting, 0)]);
      Grow(decisions, ss0, ms0, ss2, ms2, Queue(id), t, id);
      ss2, ms2, s := ss2 + [t], ms2 + [Queue(id)], t;
    }
    var t := s.(workers := map[]);
    Grow(decisions, ss0, ms0, ss2, ms2, Crash, t, id);
    ss2, ms2 := ss2 + [t], ms2 + [Crash];
    var u := t.(workers := map[0 := Worker([id], None)]);
    Grow(decisions, ss0, ms0, ss2, ms2, Take(0, [id]), u, id);
    ss2, ms2 := ss2 + [u], ms2 + [Take(0, [id])];
  }

  /** A document in which the decision's task is there and its project is being run. */
  function Target(d: Decided): Board {
    Board(Document([Project("project", Active, Lifecycle(Executing, None, ""), [], 0)],
                   [Task(d.task, "project", "", [], [], "", false, 0, "", Human, TaskState.Running, Undispatched, "",
                         true, "", 0)], [], []), map[], 0, [])
  }

  lemma TargetStrikes(d: Decided, id: string, events: seq<EventId>)
    requires Supported(d) && !(Marker(id) in events && (CanPause(d) ==> DecisionAction(id) in events))
    ensures var b := Target(d).(events := events);
      Applied(b, d, id, Some(""), "").Some? && Applied(b, d, id, Some(""), "").value.(events := b.events) != b
  {
    var b := Target(d).(events := events);
    assert IndexOf(b.doc.tasks, d.task) == 0;
    AppliedWhen(b, d, id, Some(""), "");
    RepeatIsHarmless(b, d, id, Some(""), "");
    assert Punishable(b, d) <==> CanPause(d);
  }

  /** Once a worker is about to apply an unguarded decision, and the task is there, in a project
      that is being run, the application has an effect. */
  lemma Strike(decisions: map<string, Decided>, ss0: seq<World>, ms0: seq<Move>, ss: seq<World>, ms: seq<Move>,
               id: string, w: nat)
    returns (ss2: seq<World>, ms2: seq<Move>)
    requires Continues(decisions, ss0, ms0, ss, ms) && About(ss[|ms|], w, id) && id in decisions
    requires Supported(decisions[id]) && !Guarded(decisions, ss[|ms|].board, id)
    ensures Continues(decisions, ss0, ms0, ss2, ms2)
    ensures Count(ss2, ms2, id, |ms2|) == Count(ss, ms, id, |ms|) + 1
  {
    var s, d := ss[|ms|], decisions[id];
    var b := Target(d).(events := s.board.events);
    var t := s.(board := b);
    assert s.board.events + [] == s.board.events;
    Grow(decisions, ss0, ms0, ss, ms, Edit(Target(d), []), t, id);
    TargetStrikes(d, id, s.board.events);
    var after := Applied(b, d, id, Some(""), "").value;
    var u := World(after, t.rows, t.workers[w := t.workers[w].(verdict := Some(true))]);
    Grow(decisions, ss0, ms0, ss + [t], ms + [Edit(Target(d), [])], Apply(w, Some(""), "", Written), u, id);
    ss2, ms2 := ss + [t] + [u], ms + [Edit(Target(d), [])] + [Apply(w, Some(""), "", Written)];
  }

  /** After any run, a decision that its kind supports has no further effect, however the run
      goes on without compaction, exactly when its guard is there or its row is delivered and
      no worker holds it. So what Retains asks of compaction is what is needed, no more. */
  lemma GuardIsExact(decisions: map<string, Decided>, ss: seq<World>, ms: seq<Move>, id: string)
    requires IsRun(decisions, ss, ms) && id in decisions
    ensures Silent(decisions, ss, ms, id) <==> !Supported(decisions[id]) || Safe(decisions, ss[|ms|], id)
  {
    if Finished(decisions, ss[|ms|], id) {
      forall ss2, ms2 | Continues(decisions, ss, ms, ss2, ms2)
        ensures Count(ss2, ms2, id, |ms2|) == Count(ss, ms, id, |ms|)
      {
        assert ss2[|ms|] == ss2[..|ss|][|ms|];
        FinishedRun(decisions, ss2, ms2, id, |ms|, |ms2|);
        CountPrefix(ss, ms, ss2, ms2, id, |ms|);
      }
    } else {
      assert ss[..|ss|] == ss && ms[..|ms|] == ms;
      var ss2, ms2;
      var w := 0;
      if Over(ss[|ms|], id) {
        w :| w in ss[|ms|].workers && HeldBy(ss[|ms|].workers[w], id);
        ss2, ms2 := Drain(decisions, ss, ms, ss, ms, id, w);
      } else {
        ss2, ms2 := Retake(decisions, ss, ms, ss, ms, id);
      }
      ss2, ms2 := Strike(decisions, ss, ms, ss2, ms2, id, w);
    }
  }

  /** A worker with the decision in hand applies it. */
  lemma Strikes(decisions: map<string, Decided>, a: World, id: string, write: Write) returns (b: World, c: World)
    requires write != WriteLost && id in decisions && a.workers == map[]
    requires var after := Applied(a.board, decisions[id], id, Some(""), "");
      after.Some? && after.value.(events := a.board.events) != a.board
    ensures b == a.(workers := map[0 := Worker([id], None)])
    ensures Next(decisions, b, Apply(0, Some(""), "", write), c) && Effect(b, Apply(0, Some(""), "", write), c, id)
    ensures c.board == Applied(a.board, decisions[id], id, Some(""), "").value && c.rows == a.rows
  {
    b := a.(workers := map[0 := Worker([id], None)]);
    var after := Applied(a.board, decisions[id], id, Some(""), "").value;
    c := World(after, a.rows, b.workers[0 := Worker([id], Some(write == Written))]);
  }

  /** One worker takes the row and applies it, with an effect, whatever the caller is told. */
  lemma Deliver(decisions: map<string, Decided>, ss: seq<World>, ms: seq<Move>, id: string, write: Write)
    returns (ss2: seq<World>, ms2: seq<Move>)
    requires IsRun(decisions, ss, ms) && write != WriteLost && id in decisions
    requires id in ss[|ms|].rows && ss[|ms|].rows[id].state != Delivered && ss[|ms|].workers == map[]
    requires var b := ss[|ms|].board;
      var after := Applied(b, decisions[id], id, Some(""), "");
      after.Some? && after.value.(events := b.events) != b
    ensures IsRun(decisions, ss2, ms2) && |ms2| == |ms| + 2 && ms2[..|ms|] == ms && ss2[..|ss|] == ss
    ensures Count(ss2, ms2, id, |ms2|) == Count(ss, ms, id, |ms|) + 1
    ensures ss2[|ms2|].board == Applied(ss[|ms|].board, decisions[id], id, Some(""), "").value
    ensures ss2[|ms2|].rows == ss[|ms|].rows
  {
    var b, c := Strikes(decisions, ss[|ms|], id, write);
    Extend(decisions, ss, ms, Take(0, [id]), b, id);
    Extend(decisions, ss + [b], ms + [Take(0, [id])], Apply(0, Some(""), "", write), c, id);
    ss2, ms2 := ss + [b] + [c], ms + [Take(0, [id])] + [Apply(0, Some(""), "", write)];
  }

  /** Compaction drops events, and the server restarts. */
  lemma Forget(decisions: map<string, Decided>, ss: seq<World>, ms: seq<Move>, id: string, kept: seq<EventId>)
    returns (ss2: seq<World>, ms2: seq<Move>)
    requires IsRun(decisions, ss, ms) && forall e | e in kept :: e in ss[|ms|].board.events
    ensures IsRun(decisions, ss2, ms2) && |ms2| == |ms| + 2 && ms2[..|ms|+1] == ms + [Prune(kept)]
    ensures ss2[..|ss|] == ss && Count(ss2, ms2, id, |ms2|) == Count(ss, ms, id, |ms|)
    ensures ss2[|ms2|] == World(ss[|ms|].board.(events := kept), ss[|ms|].rows, map[])
  {
    var b := ss[|ms|].(board := ss[|ms|].board.(events := kept));
    Extend(decisions, ss, ms, Prune(kept), b, id);
    var c := b.(workers := map[]);
    Extend(decisions, ss + [b], ms + [Prune(kept)], Crash, c, id);
    ss2, ms2 := ss + [b] + [c], ms + [Prune(kept)] + [Crash];
  }

  /** The first delivery: queued, taken, and written although the caller is told otherwise. */
  lemma FirstDelivery(id: string, d: Decided, b: Board) returns (ss: seq<World>, ms: seq<Move>)
    requires (forall e | e in b.events :: e.Unrelated?) && Applied(b, d, id, Some(""), "").Some?
    ensures IsRun(map[id := d], ss, ms) && |ms| == 3 && Count(ss, ms, id, 3) == 1
    ensures ss[3].board == Applied(b, d, id, Some(""), "").value && ss[3].rows == map[id := Row(Waiting, 0)]
  {
    var s0 := World(b, map[], map[]);
    var s1 := s0.(rows := map[id := Row(Waiting, 0)]);
    Extend(map[id := d], [s0], [], Queue(id), s1, id);
    RepeatIsHarmless(b, d, id, Some(""), "");
    ss, ms := Deliver(map[id := d], [s0] + [s1], [] + [Queue(id)], id, WrittenWithError);
  }

  /** What compaction keeps does not stop a second effect. */
  ghost predicate Unguarded(after: Board, d: Decided, id: string, kept: seq<EventId>) {
    && (forall e | e in kept :: e in after.events)
    && !(Marker(id) in kept && (DecisionAction(id) in kept || !Punishable(after, d)))
  }

  lemma UnguardedStrikes(b: Board, d: Decided, id: string, kept: seq<EventId>)
    requires Supported(d) && Applied(b, d, id, Some(""), "").Some?
    requires Unguarded(Applied(b, d, id, Some(""), "").value, d, id, kept)
    ensures var after := Applied(b, d, id, Some(""), "").value.(events := kept);
      && Applied(after, d, id, Some(""), "").Some?
      && Applied(after, d, id, Some(""), "").value.(events := kept) != after
      && !(Marker(id) in kept && (CanPause(d) ==> DecisionAction(id) in kept))
  {
    AppliedIndex(b, d, id, Some(""), "", d.task);
    AppliedWhen(b, d, id, Some(""), "");
    var after := Applied(b, d, id, Some(""), "").value.(events := kept);
    AppliedWhen(after, d, id, Some(""), "");
    RepeatIsHarmless(after, d, id, Some(""), "");
    CauseNeedsKind(d);
  }

  lemma ForgetAndRetry(decisions: map<string, Decided>, ss: seq<World>, ms: seq<Move>, id: string, kept: seq<EventId>)
    returns (ss2: seq<World>, ms2: seq<Move>)
    requires IsRun(decisions, ss, ms) && |ms| == 3 && Count(ss, ms, id, 3) == 1 && id in decisions
    requires ss[3].rows == map[id := Row(Waiting, 0)] && forall e | e in kept :: e in ss[3].board.events
    requires var b := ss[3].board.(events := kept);
      var after := Applied(b, decisions[id], id, Some(""), "");
      after.Some? && after.value.(events := kept) != b
    ensures IsRun(decisions, ss2, ms2) && Count(ss2, ms2, id, |ms2|) == 2
    ensures |ms2| == 7 && ms2[3] == Prune(kept) && ss2[3] == ss[3]
    ensures ss2[7].board == Applied(ss[3].board.(events := kept), decisions[id], id, Some(""), "").value
  {
    var ss5, ms5 := Forget(decisions, ss, ms, id, kept);
    ss2, ms2 := Deliver(decisions, ss5, ms5, id, Written);
    assert ms2[3] == ms5[3] by { assert ms2[3] == ms2[..5][3]; }
    assert ms5[3] == ms5[..4][3];
    assert ss2[3] == ss5[3] by { assert ss2[3] == ss2[..6][3]; }
    assert ss5[3] == ss5[..4][3];
  }

  lemma NotRetained(decisions: map<string, Decided>, s: World, id: string, kept: seq<EventId>)
    requires Guarded(decisions, s.board, id) && !Over(s, id)
    requires !(Marker(id) in kept && (id in decisions && CanPause(decisions[id]) ==> DecisionAction(id) in kept))
    ensures !Retains(decisions, s, Prune(kept), id)
  {
    assert !Guarded(decisions, s.board.(events := kept), id);
  }

  /** For every decision that can be carried out, on every document, and whatever compaction
      keeps, as long as the marker is not among it, or not the event of the decision although
      that would pause the task: there is a run in which the write succeeds, the caller is told
      otherwise, compaction keeps just that, and the retry takes effect a second time. */
  lemma ForgottenGuard(id: string, d: Decided, b: Board, kept: seq<EventId>)
    returns (decisions: map<string, Decided>, ss: seq<World>, ms: seq<Move>)
    requires Supported(d) && (forall e | e in b.events :: e.Unrelated?) && Applied(b, d, id, Some(""), "").Some?
    requires Unguarded(Applied(b, d, id, Some(""), "").value, d, id, kept)
    ensures IsRun(decisions, ss, ms) && Count(ss, ms, id, |ms|) == 2
    ensures |ms| == 7 && ms[3] == Prune(kept) && !Retains(decisions, ss[3], ms[3], id)
    ensures Marker(id) in ss[3].board.events && DecisionAction(id) in ss[3].board.events
    ensures var after := Applied(b, d, id, Some(""), "").value.(events := kept);
      Applied(after, d, id, Some(""), "").Some? && ss[7].board == Applied(after, d, id, Some(""), "").value
  {
    decisions := map[id := d];
    var ss3, ms3 := FirstDelivery(id, d, b);
    UnguardedStrikes(b, d, id, kept);
    AppliedEvents(b, d, id, Some(""), "", id);
    ss, ms := ForgetAndRetry(decisions, ss3, ms3, id, kept);
    NotRetained(decisions, ss[3], id, kept);
  }

  /** A rejection of the decision's task is counted and pauses it. */
  predicate Rejectable(b: Board, d: Decided) {
    var i := IndexOf(b.doc.tasks, d.task);
    && d.kind == "final_acceptance" && Rejects(d.action) && d.task != ""
    && i < |b.doc.tasks| && Watched(b.doc, b.doc.tasks[i]) && b.doc.tasks[i].dispatch != Done
  }

  function Decidee(b: Board, d: Decided): Task
    requires Rejectable(b, d)
  {
    b.doc.tasks[IndexOf(b.doc.tasks, d.task)]
  }

  lemma RejectedOnce(b: Board, d: Decided, id: string, notice: string)
    requires UniqueTaskIds(b.doc.tasks) && Rejectable(b, d) && DecisionAction(id) !in b.events
    ensures Applied(b, d, id, Some(""), notice).Some?
    ensures var after := Applied(b, d, id, Some(""), notice).value;
      && UniqueTaskIds(after.doc.tasks) && Rejectable(after, d) && after.pauses == b.pauses + 1
      && Decidee(after, d).failures == Decidee(b, d).failures + 1
      && Decidee(after, d).pauseReason ==
           if Decidee(b, d).failures >= 1 then "acceptance_failed_twice" else "acceptance_failed"
  {
    RejectionPauses(b, d, id, Some(""), notice);
    AppliedIndex(b, d, id, Some(""), notice, d.task);
    var after := Applied(b, d, id, Some(""), notice).value;
    SameIdsUnique(b, d, id, notice);
  }

  lemma SameIdsUnique(b: Board, d: Decided, id: string, notice: string)
    requires UniqueTaskIds(b.doc.tasks) && Applied(b, d, id, Some(""), notice).Some?
    ensures UniqueTaskIds(Applied(b, d, id, Some(""), notice).value.doc.tasks)
  {
    CarriedCard(b, d, id, Some(""));
    var c := Carried(b, d, id, Some("")).value;
    if DecisionAction(id) !in b.events && Punishable(c, d) {
      var i := IndexOf(c.doc.tasks, d.task);
      PunishedIds(c, i, Cause(d, c.doc.tasks[i].highRisk).value, notice);
    }
  }

  /** The same for a rejected final acceptance of which compaction keeps the marker and drops
      the older event: the second failure is counted and the task paused for it, although it
      was rejected once. */
  lemma SecondFailure(id: string, d: Decided, b: Board)
    returns (decisions: map<string, Decided>, ss: seq<World>, ms: seq<Move>)
    requires UniqueTaskIds(b.doc.tasks) && Rejectable(b, d) && forall e | e in b.events :: e.Unrelated?
    ensures IsRun(decisions, ss, ms) && |ms| == 7 && ms[3] == Prune([Marker(id)])
    ensures Marker(id) in ss[3].board.events && Count(ss, ms, id, 7) == 2
    ensures Rejectable(ss[7].board, d) && ss[7].board.pauses == b.pauses + 2
    ensures Decidee(ss[7].board, d).failures == Decidee(b, d).failures + 2
    ensures Decidee(ss[7].board, d).pauseReason == "acceptance_failed_twice"
  {
    RejectedOnce(b, d, id, "");
    var after := Applied(b, d, id, Some(""), "").value;
    AppliedEvents(b, d, id, Some(""), "", id);
    RejectionIsFailure(d);
    decisions, ss, ms := ForgottenGuard(id, d, b, [Marker(id)]);
    RejectedOnce(after.(events := [Marker(id)]), d, id, "");
  }
}
