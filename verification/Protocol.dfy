/** The two-store protocol: leases in the database, tasks in the per-user document, commands
    run in between. Every step of one user's server is a label; a run is any interleaving. */
module Protocol {
  import opened Basics
  import opened ProjectState
  import opened TaskContract
  import opened Pause
  import opened Takeover
  import opened LeaseTable

  // ---------------------------------------------------------------- document transactions

  /** How the write of a transaction ends. A write that fails after its log entry is complete
      reports an error and is found by the next load all the same. */
  datatype Save = Saved | SaveLost | SaveKept

  /** The task updates that matter here: a new contract, and the three user actions. */
  datatype TaskEdit =
    | NewContract(newCommand: Option<seq<string>>, newDepends: Option<seq<string>>, newMilestone: Option<string>)
    | UserPause | UserResume | UserCancel

  datatype DocOp =
    | TakeoverOp(project: string, control: Control)
    | ContractOp(at: nat, version: int, change: ProjectOp)
    | CreateOp(id: string, project: string, origin: Origin, milestone: string, dependsOn: seq<string>,
        command: seq<string>)
    | UpdateOp(i: nat, version: int, edit: TaskEdit)
    | DispatchDecision(i: nat, approved: bool, baseline: string)
    | Elsewhere(result: Document)

  /** An update of a high-risk task in an active project. */
  predicate Risky(doc: Document, t: Task) {
    var p := FindProject(doc.projects, t.project);
    t.highRisk && p.Some? && p.value.mode == Active
  }

  /** Such an update pauses the project. */
  ghost function AfterUpdate(doc: Document, i: nat): Document
    requires i < |doc.tasks|
  {
    var t := doc.tasks[i];
    if Risky(doc, t) then PausedDocument(doc, t.project, t.id, "high_risk") else doc
  }

  ghost function WithTask(doc: Document, i: nat, t: Task): Document
    requires i < |doc.tasks|
  {
    doc.(tasks := doc.tasks[i := t])
  }

  /** What operations that are not modelled here may do to tasks: they never set a task to
      claimed or passed and never change the command of a claimed or passed one. */
  ghost predicate OnlyElsewhere(doc: Document, after: Document) {
    && |doc.tasks| <= |after.tasks| && UniqueTaskIds(after.tasks)
    && (forall i | 0 <= i < |doc.tasks| ::
          && after.tasks[i].id == doc.tasks[i].id && after.tasks[i].project == doc.tasks[i].project
          && (after.tasks[i].dispatch == Claimed ==>
               doc.tasks[i].dispatch == Claimed && after.tasks[i].command == doc.tasks[i].command)
          && (after.tasks[i].passed ==> doc.tasks[i].passed && after.tasks[i].command == doc.tasks[i].command))
    && (forall i | |doc.tasks| <= i < |after.tasks| :: after.tasks[i].dispatch != Claimed && !after.tasks[i].passed)
  }

  /** The task an accepted update leaves; every update counts the version up, and so does
      setting or clearing a user pause. */
  ghost function Rewritten(doc: Document, t: Task, edit: TaskEdit): Option<Task> {
    var cleared := t.rowVersion + if t.pauseReason != "" then 2 else 1;
    match edit
    case NewContract(newCommand, newDepends, newMilestone) =>
      var u := Edited(t, NewTerms(newCommand, newDepends, newMilestone));
      if t.dispatch != Claimed && ContractHolds(doc.projects, doc.tasks, u) then Some(u) else None
    case UserPause => Some(t.(pauseReason := "paused_by_user", rowVersion := t.rowVersion + 2))
    case UserResume => Some(t.(pauseReason := "", rowVersion := cleared))
    case UserCancel =>
      if t.state in {ExecutionComplete, Archived} then None
      else Some(t.(state := Cancelled, pauseReason := "", rowVersion := cleared))
  }

  /** The document an accepted operation leaves; None when it is refused. */
  ghost function DocAfter(doc: Document, op: DocOp): Option<Document> {
    match op
    case TakeoverOp(project, control) => Controlled(doc, project, control)
    case ContractOp(at, version, change) =>
      if at < |doc.projects| && change.Contract? && ContractAccepted(doc, at, version, change) then
        var rest := if change.to == Some(Stalled) then PausedDocument(doc, doc.projects[at].id, "", change.reason)
          else doc;
        Some(rest.(projects := doc.projects[at := ProjectAfter(doc.projects[at], change)]))
      else None
    case CreateOp(id, project, origin, milestone, dependsOn, command) =>
      var t := Raised(id, project, origin, milestone, dependsOn, command);
      if FindTask(doc.tasks, id).None? && FindProject(doc.projects, project).Some?
          && ContractHolds(doc.projects, doc.tasks, t)
      then Some(doc.(tasks := doc.tasks + [t])) else None
    case UpdateOp(i, version, edit) =>
      if i < |doc.tasks| && version == doc.tasks[i].rowVersion && Rewritten(doc, doc.tasks[i], edit).Some?
      then Some(AfterUpdate(WithTask(doc, i, Rewritten(doc, doc.tasks[i], edit).value), i)) else None
    case DispatchDecision(i, approved, baseline) =>
      if i < |doc.tasks| then
        var t := doc.tasks[i];
        Some(WithTask(doc, i, if approved
          then t.(dispatch := Ready, baseline := baseline, rowVersion := t.rowVersion + 1)
                              else t.(dispatch := Undispatched, rowVersion := t.rowVersion + 1)))
      else None
    case Elsewhere(result) => if OnlyElsewhere(doc, result) then Some(result) else None
  }

  // ---------------------------------------------------------------- claiming

  predicate WritesWorkspace(t: Task) {
    t.phase !in {"review", "final_validation"}
  }

  predicate SharedDirectoryConflict(tasks: seq<Task>, t: Task) {
    WritesWorkspace(t) &&
    exists o | o in tasks :: o.id != t.id && o.project == t.project && o.dispatch == Claimed && WritesWorkspace(o)
  }

  /** Ready high-risk tasks of active projects are paused before anything is claimed. */
  ghost function RiskScan(doc: Document, i: nat): (after: Document)
    ensures |after.tasks| == |doc.tasks|
    decreases |doc.tasks| - i
  {
    if i >= |doc.tasks| then doc
    else
      var t := doc.tasks[i];
      var p := FindProject(doc.projects, t.project);
      RiskScan(if t.dispatch == Ready && p.Some? && p.value.mode == Active && t.highRisk
               then PausedDocument(doc, t.project, t.id, "high_risk") else doc, i + 1)
  }

  datatype Granted = Granted(doc: Document, rows: Rows, to: Option<nat>)

  /** What the claim decides about one task on its way through the stored tasks. */
  datatype Verdict = Skip | Unsafe(reason: string) | Lost(baseline: string) | Won(baseline: string)

  /** A task that may not be claimed is skipped; one whose project directory is being written
      to, or whose acceptance inputs cannot be recorded, is paused; otherwise the inputs are
      recorded and the lease is tried. */
  ghost function Judge(doc: Document, rows: Rows, i: nat, lease: string, fingerprint: string -> Option<string>): Verdict
    requires i < |doc.tasks|
  {
    var t := doc.tasks[i];
    if !Claimable(t) || !ClaimAllowed(doc, t) then Skip
    else if SharedDirectoryConflict(doc.tasks, t) then Unsafe("shared_directory_conflict")
    else if t.baseline == "" && fingerprint(t.id).None? then Unsafe("acceptance_inputs_unavailable")
    else
      var baseline := if t.baseline == "" then fingerprint(t.id).value else t.baseline;
      if Blank(t.id) || !InsertAllowed(rows, lease, t.id) then Lost(baseline) else Won(baseline)
  }

  function GrantedTask(t: Task, baseline: string, runtime: string): Task {
    t.(baseline := baseline, dispatch := Claimed, runtime := runtime, rowVersion := t.rowVersion + 1)
  }

  ghost function Judged(doc: Document, i: nat, v: Verdict, runtime: string): Document
    requires i < |doc.tasks|
  {
    var t := doc.tasks[i];
    match v
    case Skip => doc
    case Unsafe(reason) => PausedDocument(doc, t.project, t.id, reason)
    case Lost(baseline) => WithTask(doc, i, t.(baseline := baseline))
    case Won(baseline) => WithTask(doc, i, GrantedTask(t, baseline, runtime))
  }

  lemma JudgedLength(doc: Document, i: nat, v: Verdict, runtime: string)
    requires i < |doc.tasks|
    ensures |Judged(doc, i, v, runtime).tasks| == |doc.tasks|
  {
  }

  /** The first stored task that may be claimed gets the lease; tasks that turn out unsafe on
      the way are paused. */
  ghost function ClaimScan(doc: Document, rows: Rows, i: nat, lease: string, me: string, runtime: string, now: int,
                           fingerprint: string -> Option<string>): (g: Granted)
    decreases |doc.tasks| - i
  {
    if i >= |doc.tasks| then Granted(doc, rows, None)
    else
      var v := Judge(doc, rows, i, lease, fingerprint);
      JudgedLength(doc, i, v, runtime);
      var after := Judged(doc, i, v, runtime);
      if v.Won? then Granted(after, Apply(Insert(lease, me, doc.tasks[i].id, runtime), rows, now), Some(i))
      else ClaimScan(after, rows, i + 1, lease, me, runtime, now, fingerprint)
  }

  // ---------------------------------------------------------------- releasing

  /** The gate of every step an agent takes under its lease. */
  predicate LeaseGood(doc: Document, rows: Rows, me: string, i: nat, lease: string, now: int) {
    && i < |doc.tasks| && ClaimAllowed(doc, doc.tasks[i]) && doc.tasks[i].dispatch == Claimed
    && Usable(rows, me, lease, now) && rows[lease].task == doc.tasks[i].id
  }

  ghost function Reviewed(doc: Document, project: string): Document {
    doc.(projects := seq(|doc.projects|, k requires 0 <= k < |doc.projects| =>
      if doc.projects[k].id == project && MilestoneDone(doc.tasks, doc.projects[k])
      then ProjectAfter(doc.projects[k], MilestoneReady) else doc.projects[k]))
  }

  ghost function BumpTask(doc: Document, i: nat): Document
    requires i < |doc.tasks|
  {
    WithTask(doc, i, doc.tasks[i].(rowVersion := doc.tasks[i].rowVersion + 1))
  }

  ghost function PassedDocument(doc: Document, i: nat): Document
    requires i < |doc.tasks|
  {
    BumpTask(Reviewed(WithTask(doc, i, doc.tasks[i].(passed := true, failures := 0, dispatch := Done, runtime := "")),
                      doc.tasks[i].project), i)
  }

  function FailureReason(verified: bool, failures: nat): string {
    if !verified then "task_failed" else if failures >= 2 then "acceptance_failed_twice" else "acceptance_failed"
  }

  /** The task with the failure counted, if it was the verification that failed. */
  ghost function Noted(doc: Document, i: nat, verified: bool): Document
    requires i < |doc.tasks|
  {
    var t := doc.tasks[i];
    WithTask(doc, i, t.(failures := if verified then t.failures + 1 else t.failures, passed := false))
  }

  ghost function FailedDocument(doc: Document, i: nat, verified: bool): Document
    requires i < |doc.tasks|
  {
    var t := doc.tasks[i];
    var noted := Noted(doc, i, verified);
    BumpTask(PausedDocument(noted, t.project, t.id, FailureReason(verified, noted.tasks[i].failures)), i)
  }

  ghost function FastDocument(doc: Document, i: nat): Document
    requires i < |doc.tasks|
  {
    WithTask(doc, i, doc.tasks[i].(dispatch := Done, runtime := "", state := ExecutionComplete,
                                   rowVersion := doc.tasks[i].rowVersion + 1))
  }

  // ---------------------------------------------------------------- revocation

  /** After the write, the leases of closed tasks are revoked one task at a time; n tells how
      many tasks were reached before the database failed, all of them if it did not. */
  ghost function RevokeClosed(doc: Document, rows: Rows, me: string, n: nat, now: int): Rows
    requires n <= |doc.tasks|
  {
    if n == 0 then rows
    else
      var r := RevokeClosed(doc, rows, me, n - 1, now);
      if ExecutionClosed(doc, doc.tasks[n-1]) then Apply(Revoke(me, doc.tasks[n-1].id), r, now) else r
  }

  /** A closed task with the given id is among the first n. */
  ghost predicate ClosedAmong(doc: Document, n: nat, id: string)
    requires n <= |doc.tasks|
  {
    exists k :: 0 <= k < n && ExecutionClosed(doc, doc.tasks[k]) && doc.tasks[k].id == id
  }

  lemma {:induction false} RevokedRow(doc: Document, rows: Rows, me: string, n: nat, now: int, id: string)
    requires n <= |doc.tasks|
    ensures RevokeClosed(doc, rows, me, n, now).Keys == rows.Keys
    ensures id in rows ==>
      RevokeClosed(doc, rows, me, n, now)[id] ==
      if rows[id].status == LeaseActive && rows[id].user == me && ClosedAmong(doc, n, rows[id].task)
      then rows[id].(status := LeaseReleased, updated := now) else rows[id]
  {
    if n > 0 {
      RevokedRow(doc, rows, me, n - 1, now, id);
      if id in rows {
        assert ClosedAmong(doc, n, rows[id].task) <==>
          ClosedAmong(doc, n - 1, rows[id].task)
            || (ExecutionClosed(doc, doc.tasks[n-1]) && doc.tasks[n-1].id == rows[id].task);
      }
    }
  }

  // ---------------------------------------------------------------- the server

  datatype Phase = Loaded | Verifying | Finished | Refused

  /** A release request in flight: the task and the command come from the document it read
      when it started. */
  datatype Request = Request(lease: string, task: string, command: seq<string>, phase: Phase)

  /** verifying is the in-memory table of running acceptance commands; learned holds the
      leases whose ids were handed out by a successful claim; undo the tasks whose leases failed
      claims have still to give back. */
  datatype Server = Server(
    me: string, doc: Document, rows: Rows, requests: map<nat, Request>, verifying: map<string, nat>,
    learned: set<string>, undo: multiset<string>, clock: int)

  datatype Step =
    | Tick(to: int)
    | Change(op: DocOp, save: Save, n: nat)
    | Claim(lease: string, runtime: string, fingerprint: string -> Option<string>, save: Save, n: nat)
    | RollBack(task: string, reached: bool)
    | Renew(i: nat, lease: string, save: Save, n: nat)
    | SweepLeases
    | Expire(i: nat, lease: string, save: Save, n: nat)
    | Load(q: nat, i: nat, lease: string)
    | Begin(q: nat, i: nat, save: Save, n: nat)
    | Commit(q: nat, i: nat, passed: bool, save: Save, n: nat)
    | FastRelease(q: nat, i: nat, save: Save, n: nat)
    | FailRelease(i: nat, lease: string, save: Save, n: nat)
    | Forget(q: nat)
    | OtherUsers(after: Rows)
    | Crash

  predicate TxOk(doc: Document, save: Save, n: nat) {
    save == Saved && n == |doc.tasks|
  }

  /** The end of every transaction whose body succeeded with document doc and lease rows rows. */
  ghost predicate Transacted(s: Server, doc: Document, rows: Rows, save: Save, n: nat, t: Server) {
    && n <= |doc.tasks|
    && t.doc == (if save == SaveLost then s.doc else doc)
    && t.rows == (if save == Saved then RevokeClosed(doc, rows, s.me, n, s.clock) else rows)
    && t.me == s.me && t.clock == s.clock
  }

  ghost predicate KeepsRequests(s: Server, t: Server) {
    t.requests == s.requests && t.verifying == s.verifying && t.learned == s.learned && t.undo == s.undo
  }

  /** Rows of other users come and go under the same rules as ours. */
  ghost predicate OthersOnly(rows: Rows, after: Rows, me: string) {
    && (forall id | id in rows ::
          && id in after && after[id].user == rows[id].user && after[id].task == rows[id].task
          && (rows[id].user == me || rows[id].status != LeaseActive ==> after[id] == rows[id]))
    && (forall id | id in after && id !in rows ::
         after[id].user != me && (after[id].status == LeaseActive ==> !Held(rows, after[id].task)))
  }

  ghost predicate ChangeStep(s: Server, op: DocOp, save: Save, n: nat, t: Server) {
    var doc := DocAfter(s.doc, op);
    if doc.None? then t == s else Transacted(s, doc.value, s.rows, save, n, t) && KeepsRequests(s, t)
  }

  ghost function Scanned(s: Server, lease: string, runtime: string, fingerprint: string -> Option<string>): Granted {
    ClaimScan(RiskScan(s.doc, 0), s.rows, 0, lease, s.me, runtime, s.clock, fingerprint)
  }

  /** A claim whose transaction fails is left with a lease to give back. */
  ghost predicate ClaimStep(s: Server, lease: string, g: Granted, save: Save, n: nat, t: Server) {
    && lease !in s.rows && n <= |g.doc.tasks| && t.me == s.me && t.clock == s.clock
    && t.doc == (if save == SaveLost then s.doc else g.doc)
    && t.rows == (if save == Saved then RevokeClosed(g.doc, g.rows, s.me, n, s.clock) else g.rows)
    && t.requests == s.requests && t.verifying == s.verifying
    && t.learned == (if g.to.Some? && TxOk(g.doc, save, n) then s.learned + {lease} else s.learned)
    && t.undo == (if g.to.Some? && g.to.value < |g.doc.tasks| && !TxOk(g.doc, save, n)
                  then s.undo + multiset{g.doc.tasks[g.to.value].id} else s.undo)
  }

  /** It does so after its transaction, when other steps may have come between, and by task: the
      lease it closes can be a newer one. The database may fail. */
  ghost predicate RollBackStep(s: Server, task: string, reached: bool, t: Server) {
    && task in s.undo
    && t == s.(undo := s.undo - multiset{task},
               rows := if reached then Apply(Revoke(s.me, task), s.rows, s.clock) else s.rows)
  }

  ghost predicate RenewStep(s: Server, i: nat, lease: string, save: Save, n: nat, t: Server) {
    if !LeaseGood(s.doc, s.rows, s.me, i, lease, s.clock) then t == s
    else Transacted(s, s.doc, Apply(Beat(s.me, lease), s.rows, s.clock), save, n, t) && KeepsRequests(s, t)
  }

  predicate NewerLease(rows: Rows, me: string, lease: string, task: string) {
    exists id ::
        id in rows && id != lease && rows[id].user == me && rows[id].task == task && rows[id].status == LeaseActive
  }

  /** i is the task the lease is for, or the number of tasks when it is gone. */
  ghost predicate IsTaskOf(doc: Document, i: nat, id: string) {
    if i < |doc.tasks| then doc.tasks[i].id == id
    else i == |doc.tasks| && forall k | 0 <= k < |doc.tasks| :: doc.tasks[k].id != id
  }

  ghost function ExpiredDocument(s: Server, i: nat, lease: string): Document {
    if i >= |s.doc.tasks| || NewerLease(s.rows, s.me, lease, s.doc.tasks[i].id) then s.doc
    else PausedDocument(s.doc, s.doc.tasks[i].project, s.doc.tasks[i].id, "heartbeat_lost")
  }

  /** Handling one swept lease: its task is paused unless somebody has claimed it again. */
  ghost predicate ExpireStep(s: Server, i: nat, lease: string, save: Save, n: nat, t: Server) {
    && lease in s.rows && s.rows[lease].status == LeaseExpired && IsTaskOf(s.doc, i, s.rows[lease].task)
    && Transacted(s, ExpiredDocument(s, i, lease), s.rows, save, n, t) && KeepsRequests(s, t)
  }

  /** A release request reads the document: the command it is going to run is fixed here. */
  ghost predicate LoadStep(s: Server, q: nat, i: nat, lease: string, t: Server) {
    && q !in s.requests && lease in s.learned && lease in s.rows
    && i < |s.doc.tasks| && s.doc.tasks[i].id == s.rows[lease].task
    && t == s.(requests := s.requests[q := Request(lease, s.doc.tasks[i].id, s.doc.tasks[i].command, Loaded)])
  }

  ghost predicate AtTask(s: Server, q: nat, i: nat, phase: Phase) {
    && q in s.requests && s.requests[q].phase == phase
    && i < |s.doc.tasks| && s.doc.tasks[i].id == s.requests[q].task
  }

  ghost predicate BeginStep(s: Server, q: nat, i: nat, save: Save, n: nat, t: Server) {
    && AtTask(s, q, i, Loaded) && s.requests[q].command != []
    && if !LeaseGood(s.doc, s.rows, s.me, i, s.requests[q].lease, s.clock) || s.requests[q].task in s.verifying
       then t == s.(requests := s.requests[q := s.requests[q].(phase := Refused)])
       else
         && Transacted(s, s.doc, s.rows, save, n, t) && t.learned == s.learned && t.undo == s.undo
         && t.verifying == s.verifying[s.requests[q].task := q]
         && t.requests == s.requests[q := s.requests[q].(phase := if TxOk(s.doc, save, n) then Verifying else Refused)]
  }

  ghost function VerifiedDocument(doc: Document, i: nat, passed: bool): Document
    requires i < |doc.tasks|
  {
    if passed then PassedDocument(doc, i) else FailedDocument(doc, i, true)
  }

  ghost predicate CommitStep(s: Server, q: nat, i: nat, passed: bool, save: Save, n: nat, t: Server) {
    && AtTask(s, q, i, Verifying)
    && t.requests == s.requests[q := s.requests[q].(phase := Phase.Finished)] && t.verifying == s.verifying
         && t.learned == s.learned && t.undo == s.undo
    && if !LeaseGood(s.doc, s.rows, s.me, i, s.requests[q].lease, s.clock) then t == s.(requests := t.requests)
       else Transacted(s, VerifiedDocument(s.doc, i, passed),
                       Apply(Close(s.me, s.requests[q].lease), s.rows, s.clock), save, n, t)
  }

  /** A release with nothing to verify. */
  ghost predicate FastStep(s: Server, q: nat, i: nat, save: Save, n: nat, t: Server) {
    && AtTask(s, q, i, Loaded) && s.requests[q].command == []
    && t.requests == s.requests[q := s.requests[q].(phase := Phase.Finished)] && t.verifying == s.verifying
         && t.learned == s.learned && t.undo == s.undo
    && if !Usable(s.rows, s.me, s.requests[q].lease, s.clock) then t == s.(requests := t.requests)
       else Transacted(s, FastDocument(s.doc, i), Apply(Close(s.me, s.requests[q].lease), s.rows, s.clock), save, n, t)
  }

  ghost predicate FailStep(s: Server, i: nat, lease: string, save: Save, n: nat, t: Server) {
    if !LeaseGood(s.doc, s.rows, s.me, i, lease, s.clock) then t == s
    else
      && Transacted(s, FailedDocument(s.doc, i, false), Apply(Close(s.me, lease), s.rows, s.clock), save, n, t)
      && KeepsRequests(s, t)
  }

  ghost predicate Next(s: Server, l: Step, t: Server) {
    match l
    case Tick(to) => s.clock <= to && t == s.(clock := to)
    case Change(op, save, n) => ChangeStep(s, op, save, n, t)
    case Claim(lease, runtime, fingerprint, save, n) =>
      ClaimStep(s, lease, Scanned(s, lease, runtime, fingerprint), save, n, t)
    case RollBack(task, reached) => RollBackStep(s, task, reached, t)
    case Renew(i, lease, save, n) => RenewStep(s, i, lease, save, n, t)
    case SweepLeases => t == s.(rows := Apply(Sweep(s.me), s.rows, s.clock))
    case Expire(i, lease, save, n) => ExpireStep(s, i, lease, save, n, t)
    case Load(q, i, lease) => LoadStep(s, q, i, lease, t)
    case Begin(q, i, save, n) => BeginStep(s, q, i, save, n, t)
    case Commit(q, i, passed, save, n) => CommitStep(s, q, i, passed, save, n, t)
    case FastRelease(q, i, save, n) => FastStep(s, q, i, save, n, t)
    case FailRelease(i, lease, save, n) => FailStep(s, i, lease, save, n, t)
    case Forget(q) =>
      && q in s.requests && s.requests[q].phase == Phase.Finished && s.requests[q].task in s.verifying
           && s.verifying[s.requests[q].task] == q
      && t == s.(verifying := s.verifying - {s.requests[q].task})
    case OtherUsers(after) => OthersOnly(s.rows, after, s.me) && t == s.(rows := after)
    case Crash => t == s.(requests := map[], verifying := map[], undo := multiset{})
  }

  // ---------------------------------------------------------------- what steps preserve

  ghost predicate LosesClaim(t: Task, u: Task) {
    u.id == t.id && (u.dispatch == Claimed ==> t.dispatch == Claimed && u.command == t.command)
  }

  /** Tasks stay where they are, nothing becomes claimed, and claimed tasks keep their command. */
  ghost predicate NoNewClaims(doc: Document, after: Document) {
    && |doc.tasks| <= |after.tasks|
    && (forall i | 0 <= i < |doc.tasks| :: LosesClaim(doc.tasks[i], after.tasks[i]))
    && (forall i | |doc.tasks| <= i < |after.tasks| :: after.tasks[i].dispatch != Claimed)
  }

  lemma PauseNoNewClaims(doc: Document, project: string, root: string, reason: string)
    ensures NoNewClaims(doc, PausedDocument(doc, project, root, reason))
  {
  }

  lemma AfterUpdateNoNewClaims(doc: Document, i: nat)
    requires i < |doc.tasks|
    ensures NoNewClaims(doc, AfterUpdate(doc, i))
  {
    PauseNoNewClaims(doc, doc.tasks[i].project, doc.tasks[i].id, "high_risk");
  }

  lemma StopNoNewClaims(doc: Document, project: string)
    ensures NoNewClaims(doc, StoppedDocument(doc, project))
  {
  }

  /** A document with the same tasks, as far as ids go. */
  lemma SameIdsUnique(doc: Document, after: Document, to: Option<nat>)
    requires UniqueTaskIds(doc.tasks) && |after.tasks| == |doc.tasks| && OnlyClaims(doc, after, to)
    ensures UniqueTaskIds(after.tasks)
  {
    assert forall i | 0 <= i < |doc.tasks| :: after.tasks[i].id == doc.tasks[i].id;
  }

  lemma ResumeNoNewClaims(doc: Document, p: Project, c: Control)
    requires CanResume(doc, p, c)
    ensures NoNewClaims(doc, ResumedDocument(doc, p, c))
  {
    var after := ResumedDocument(doc, p, c);
    forall i | 0 <= i < |doc.tasks|
      ensures after.tasks[i].id == doc.tasks[i].id && after.tasks[i].command == doc.tasks[i].command
      ensures after.tasks[i].dispatch == Claimed ==> doc.tasks[i].dispatch == Claimed
    {
    }
  }

  lemma ControlNoNewClaims(doc: Document, project: string, c: Control)
    requires Controlled(doc, project, c).Some?
    ensures NoNewClaims(doc, Controlled(doc, project, c).value)
  {
    match c.action
    case StartTakeover =>
    case PauseTakeover => PauseNoNewClaims(doc, project, c.root, c.reason);
    case ResumeTakeover => ResumeNoNewClaims(doc, FindProject(doc.projects, project).value, c);
    case StopTakeover => StopNoNewClaims(doc, project);
  }

  /** A task rewritten in place, then the update hook. */
  lemma UpdateNoNewClaims(doc: Document, i: nat, t: Task)
    requires i < |doc.tasks| && t.id == doc.tasks[i].id
    requires t.dispatch == Claimed ==> doc.tasks[i].dispatch == Claimed && t.command == doc.tasks[i].command
    ensures NoNewClaims(doc, WithTask(doc, i, t))
    ensures NoNewClaims(doc, AfterUpdate(WithTask(doc, i, t), i))
  {
    AfterUpdateNoNewClaims(WithTask(doc, i, t), i);
  }

  lemma CreateNoNewClaims(doc: Document, t: Task)
    requires FindTask(doc.tasks, t.id).None? && t.dispatch != Claimed
    ensures NoNewClaims(doc, doc.(tasks := doc.tasks + [t]))
  {
    forall i | 0 <= i < |doc.tasks| ensures doc.tasks[i].id != t.id {
      assert doc.tasks[i] in doc.tasks;
    }
  }

  lemma ChangeNoNewClaims(doc: Document, op: DocOp)
    requires DocAfter(doc, op).Some?
    ensures NoNewClaims(doc, DocAfter(doc, op).value)
    ensures op.CreateOp? || op.Elsewhere? || |DocAfter(doc, op).value.tasks| == |doc.tasks|
  {
    match op
    case TakeoverOp(project, c) =>
      ControlNoNewClaims(doc, project, c);
    case ContractOp(at, version, change) =>
      PauseNoNewClaims(doc, doc.projects[at].id, "", change.reason);
    case CreateOp(id, project, origin, milestone, dependsOn, command) =>
      CreateNoNewClaims(doc, Raised(id, project, origin, milestone, dependsOn, command));
    case UpdateOp(i, version, edit) =>
      UpdateNoNewClaims(doc, i, Rewritten(doc, doc.tasks[i], edit).value);
    case DispatchDecision(i, approved, baseline) =>
      var t := doc.tasks[i];
      UpdateNoNewClaims(doc, i, if approved
        then t.(dispatch := Ready, baseline := baseline, rowVersion := t.rowVersion + 1)
                                else t.(dispatch := Undispatched, rowVersion := t.rowVersion + 1));
    case Elsewhere(result) =>
  }

  lemma ChangeKeepsUnique(doc: Document, op: DocOp)
    requires UniqueTaskIds(doc.tasks) && DocAfter(doc, op).Some?
    ensures UniqueTaskIds(DocAfter(doc, op).value.tasks)
  {
    if op.CreateOp? {
      forall i | 0 <= i < |doc.tasks| ensures doc.tasks[i].id != op.id {
        assert doc.tasks[i] in doc.tasks;
      }
    } else if !op.Elsewhere? {
      ChangeNoNewClaims(doc, op);
      SameIdsUnique(doc, DocAfter(doc, op).value, None);
    }
  }

  // ---------------------------------------------------------------- what a claim does

  /** As NoNewClaims, with one task allowed to become claimed. */
  ghost predicate OnlyClaims(doc: Document, after: Document, to: Option<nat>) {
    && |doc.tasks| <= |after.tasks|
    && (forall i | 0 <= i < |doc.tasks| ::
          if to == Some(i) then after.tasks[i].id == doc.tasks[i].id else LosesClaim(doc.tasks[i], after.tasks[i]))
    && (forall i | |doc.tasks| <= i < |after.tasks| :: after.tasks[i].dispatch != Claimed)
  }

  lemma {:induction false} RiskScanNoNewClaims(doc: Document, i: nat)
    ensures NoNewClaims(doc, RiskScan(doc, i))
    decreases |doc.tasks| - i
  {
    if i < |doc.tasks| {
      var t := doc.tasks[i];
      PauseNoNewClaims(doc, t.project, t.id, "high_risk");
      var p := FindProject(doc.projects, t.project);
      RiskScanNoNewClaims(if t.dispatch == Ready && p.Some? && p.value.mode == Active && t.highRisk
                          then PausedDocument(doc, t.project, t.id, "high_risk") else doc, i + 1);
    }
  }

  lemma NoNewThenOnly(doc: Document, mid: Document, after: Document, to: Option<nat>)
    requires NoNewClaims(doc, mid) && OnlyClaims(mid, after, to) && |doc.tasks| == |mid.tasks|
    ensures OnlyClaims(doc, after, to)
  {
  }

  lemma NoNewTwice(doc: Document, mid: Document, after: Document)
    requires NoNewClaims(doc, mid) && NoNewClaims(mid, after)
    ensures NoNewClaims(doc, after)
  {
  }

  lemma JudgedNoNewClaims(doc: Document, i: nat, v: Verdict, runtime: string)
    requires i < |doc.tasks|
    ensures !v.Won? ==> NoNewClaims(doc, Judged(doc, i, v, runtime))
    ensures v.Won? ==> OnlyClaims(doc, Judged(doc, i, v, runtime), Some(i))
    ensures |Judged(doc, i, v, runtime).tasks| == |doc.tasks|
  {
    if v.Unsafe? {
      PauseNoNewClaims(doc, doc.tasks[i].project, doc.tasks[i].id, v.reason);
    }
  }

  /** No task but the one that gets the lease becomes claimed. */
  lemma {:induction false} ClaimScanOnlyClaims(doc: Document, rows: Rows, i: nat, lease: string, me: string,
                                               runtime: string, now: int,
                                               fingerprint: string -> Option<string>)
    ensures var g := ClaimScan(doc, rows, i, lease, me, runtime, now, fingerprint);
      |g.doc.tasks| == |doc.tasks| && OnlyClaims(doc, g.doc, g.to)
    decreases |doc.tasks| - i
  {
    if i < |doc.tasks| {
      var v := Judge(doc, rows, i, lease, fingerprint);
      var after := Judged(doc, i, v, runtime);
      JudgedNoNewClaims(doc, i, v, runtime);
      if !v.Won? {
        ClaimScanOnlyClaims(after, rows, i + 1, lease, me, runtime, now, fingerprint);
        var g := ClaimScan(after, rows, i + 1, lease, me, runtime, now, fingerprint);
        NoNewThenOnly(doc, after, g.doc, g.to);
      }
    }
  }

  /** The lease goes to a task that nobody holds. */
  predicate LeaseOf(doc: Document, rows: Rows, lease: string, me: string, runtime: string, now: int, g: Granted) {
    && (g.to.None? ==> g.rows == rows)
    && (g.to.Some? ==>
          && g.to.value < |doc.tasks| && InsertAllowed(rows, lease, doc.tasks[g.to.value].id)
          && g.rows == Apply(Insert(lease, me, doc.tasks[g.to.value].id, runtime), rows, now))
  }

  lemma LeaseOfSameIds(doc: Document, mid: Document, rows: Rows, lease: string, me: string, runtime: string, now: int,
                       g: Granted)
    requires NoNewClaims(doc, mid) && |mid.tasks| == |doc.tasks| && LeaseOf(mid, rows, lease, me, runtime, now, g)
    ensures LeaseOf(doc, rows, lease, me, runtime, now, g)
  {
  }

  lemma WonLease(doc: Document, rows: Rows, i: nat, lease: string, me: string, runtime: string, now: int,
                 fingerprint: string -> Option<string>)
    requires i < |doc.tasks| && Judge(doc, rows, i, lease, fingerprint).Won?
    ensures LeaseOf(doc, rows, lease, me, runtime, now,
                    ClaimScan(doc, rows, i, lease, me, runtime, now, fingerprint))
  {
  }

  lemma {:induction false} ClaimScanLease(doc: Document, rows: Rows, i: nat, lease: string, me: string,
                                          runtime: string, now: int,
                                          fingerprint: string -> Option<string>)
    ensures LeaseOf(doc, rows, lease, me, runtime, now,
                    ClaimScan(doc, rows, i, lease, me, runtime, now, fingerprint))
    decreases |doc.tasks| - i
  {
    if i < |doc.tasks| {
      var v := Judge(doc, rows, i, lease, fingerprint);
      JudgedLength(doc, i, v, runtime);
      if v.Won? {
        WonLease(doc, rows, i, lease, me, runtime, now, fingerprint);
      } else {
        var after := Judged(doc, i, v, runtime);
        JudgedNoNewClaims(doc, i, v, runtime);
        ClaimScanLease(after, rows, i + 1, lease, me, runtime, now, fingerprint);
        LeaseOfSameIds(doc, after, rows, lease, me, runtime, now,
                       ClaimScan(after, rows, i + 1, lease, me, runtime, now, fingerprint));
      }
    }
  }

  /** A task that may be claimed is not closed, the one exception being a cancelled agent task. */
  lemma AllowedIsOpen(doc: Document, i: nat, baseline: string, runtime: string)
    requires i < |doc.tasks| && ClaimAllowed(doc, doc.tasks[i])
    ensures var t := GrantedTask(doc.tasks[i], baseline, runtime);
      && (ExecutionClosed(WithTask(doc, i, t), t) <==> t.state == Cancelled)
           && (t.state == Cancelled ==> t.origin == Agent)
  {
  }

  /** What the granted task looks like right after the scan. */
  lemma {:induction false} ClaimScanTask(doc: Document, rows: Rows, i: nat, lease: string, me: string,
                                         runtime: string, now: int,
                                         fingerprint: string -> Option<string>)
    ensures var g := ClaimScan(doc, rows, i, lease, me, runtime, now, fingerprint);
      g.to.Some? ==>
        && g.to.value < |g.doc.tasks|
        && var t := g.doc.tasks[g.to.value];
          && t.dispatch == Claimed && t.runtime == runtime
          && (ExecutionClosed(g.doc, t) <==> t.state == Cancelled) && (t.state == Cancelled ==> t.origin == Agent)
    decreases |doc.tasks| - i
  {
    if i < |doc.tasks| {
      var v := Judge(doc, rows, i, lease, fingerprint);
      JudgedLength(doc, i, v, runtime);
      if v.Won? {
        AllowedIsOpen(doc, i, v.baseline, runtime);
      } else {
        ClaimScanTask(Judged(doc, i, v, runtime), rows, i + 1, lease, me, runtime, now, fingerprint);
      }
    }
  }

  // ---------------------------------------------------------------- what every step does

  /** Rows keep their user and task, closed rows are history, and an overdue lease of ours is
      never extended. */
  ghost predicate RowsEvolve(rows: Rows, after: Rows, me: string, now: int) {
    forall id | id in rows ::
      && id in after && after[id].user == rows[id].user && after[id].task == rows[id].task
      && (rows[id].status != LeaseActive ==> after[id] == rows[id])
      && (rows[id].user == me && after[id].expires != rows[id].expires ==> now < rows[id].expires)
  }

  lemma ApplyEvolves(op: LeaseOp, rows: Rows, me: string, now: int)
    ensures RowsEvolve(rows, Apply(op, rows, now), me, now)
  {
  }

  lemma RowsEvolveTwice(rows: Rows, mid: Rows, after: Rows, me: string, now: int)
    requires RowsEvolve(rows, mid, me, now) && RowsEvolve(mid, after, me, now)
    ensures RowsEvolve(rows, after, me, now)
  {
  }

  lemma RevokeEvolves(doc: Document, rows: Rows, me: string, n: nat, now: int)
    requires n <= |doc.tasks|
    ensures RowsEvolve(rows, RevokeClosed(doc, rows, me, n, now), me, now)
  {
    forall id | id in rows {
      RevokedRow(doc, rows, me, n, now, id);
    }
  }

  ghost function GrantOf(s: Server, l: Step): Option<nat> {
    match l
    case Claim(lease, runtime, fingerprint, save, n) => Scanned(s, lease, runtime, fingerprint).to
    case _ => None
  }

  /** Documents change only by losing claims, or by granting one. */
  ghost predicate Evolves(s: Server, to: Option<nat>, t: Server) {
    RowsEvolve(s.rows, t.rows, s.me, s.clock) && t.me == s.me && s.clock <= t.clock && OnlyClaims(s.doc, t.doc, to)
  }

  lemma TransactedEvolves(s: Server, doc: Document, rows: Rows, save: Save, n: nat, t: Server)
    requires Transacted(s, doc, rows, save, n, t) && NoNewClaims(s.doc, doc) && RowsEvolve(s.rows, rows, s.me, s.clock)
    ensures Evolves(s, None, t)
    ensures |doc.tasks| == |s.doc.tasks| ==> |t.doc.tasks| == |s.doc.tasks|
  {
    RevokeEvolves(doc, rows, s.me, n, s.clock);
    RowsEvolveTwice(s.rows, rows, RevokeClosed(doc, rows, s.me, n, s.clock), s.me, s.clock);
  }

  lemma ReviewedTasks(doc: Document, project: string)
    ensures Reviewed(doc, project).tasks == doc.tasks
  {
  }

  lemma PassedNoNewClaims(doc: Document, i: nat)
    requires i < |doc.tasks|
    ensures NoNewClaims(doc, PassedDocument(doc, i)) && |PassedDocument(doc, i).tasks| == |doc.tasks|
    ensures PassedDocument(doc, i).tasks[i].dispatch == Done
  {
    ReviewedTasks(WithTask(doc, i, doc.tasks[i].(passed := true, failures := 0, dispatch := Done, runtime := "")),
        doc.tasks[i].project);
  }

  lemma BumpNoNewClaims(doc: Document, i: nat)
    requires i < |doc.tasks|
    ensures NoNewClaims(doc, BumpTask(doc, i))
  {
  }

  lemma NotedNoNewClaims(doc: Document, i: nat, verified: bool)
    requires i < |doc.tasks|
    ensures NoNewClaims(doc, Noted(doc, i, verified)) && |Noted(doc, i, verified).tasks| == |doc.tasks|
  {
  }

  lemma FailedNoNewClaims(doc: Document, i: nat, verified: bool)
    requires i < |doc.tasks|
    ensures NoNewClaims(doc, FailedDocument(doc, i, verified))
        && |FailedDocument(doc, i, verified).tasks| == |doc.tasks|
  {
    var t := doc.tasks[i];
    var noted := Noted(doc, i, verified);
    var reason := FailureReason(verified, noted.tasks[i].failures);
    NotedNoNewClaims(doc, i, verified);
    var paused := PausedDocument(noted, t.project, t.id, reason);
    PauseNoNewClaims(noted, t.project, t.id, reason);
    BumpNoNewClaims(paused, i);
    NoNewTwice(doc, noted, paused);
    NoNewTwice(doc, paused, BumpTask(paused, i));
  }

  lemma ClaimRows(s: Server, lease: string, g: Granted, save: Save, n: nat, t: Server)
    requires ClaimStep(s, lease, g, save, n, t) && RowsEvolve(s.rows, g.rows, s.me, s.clock)
    ensures RowsEvolve(s.rows, t.rows, s.me, s.clock)
  {
    RevokeEvolves(g.doc, g.rows, s.me, n, s.clock);
    RowsEvolveTwice(s.rows, g.rows, RevokeClosed(g.doc, g.rows, s.me, n, s.clock), s.me, s.clock);
  }

  /** A claim grants at most one task, one without an active lease. */
  lemma ScannedGrant(s: Server, lease: string, runtime: string, fingerprint: string -> Option<string>)
    ensures var g := Scanned(s, lease, runtime, fingerprint);
      && |g.doc.tasks| == |s.doc.tasks| && OnlyClaims(s.doc, g.doc, g.to)
      && (g.to.None? ==> g.rows == s.rows)
      && (g.to.Some? ==>
            && g.to.value < |s.doc.tasks| && !Held(s.rows, s.doc.tasks[g.to.value].id)
            && g.rows == Apply(Insert(lease, s.me, s.doc.tasks[g.to.value].id, runtime), s.rows, s.clock))
  {
    var scanned := RiskScan(s.doc, 0);
    RiskScanNoNewClaims(s.doc, 0);
    ClaimScanOnlyClaims(scanned, s.rows, 0, lease, s.me, runtime, s.clock, fingerprint);
    ClaimScanLease(scanned, s.rows, 0, lease, s.me, runtime, s.clock, fingerprint);
    var g := Scanned(s, lease, runtime, fingerprint);
    NoNewThenOnly(s.doc, scanned, g.doc, g.to);
  }

  lemma ClaimEvolves(s: Server, lease: string, runtime: string, fingerprint: string -> Option<string>, save: Save,
                     n: nat, t: Server)
    requires ClaimStep(s, lease, Scanned(s, lease, runtime, fingerprint), save, n, t)
    ensures var to := Scanned(s, lease, runtime, fingerprint).to;
      Evolves(s, to, t) && |t.doc.tasks| == |s.doc.tasks|
        && (to.Some? ==> to.value < |s.doc.tasks| && !Held(s.rows, s.doc.tasks[to.value].id))
  {
    ScannedGrant(s, lease, runtime, fingerprint);
    var g := Scanned(s, lease, runtime, fingerprint);
    if g.to.Some? {
      ApplyEvolves(Insert(lease, s.me, s.doc.tasks[g.to.value].id, runtime), s.rows, s.me, s.clock);
    }
    ClaimRows(s, lease, g, save, n, t);
  }

  lemma ChangeEvolves(s: Server, op: DocOp, save: Save, n: nat, t: Server)
    requires UniqueTaskIds(s.doc.tasks) && ChangeStep(s, op, save, n, t)
    ensures Evolves(s, None, t) && UniqueTaskIds(t.doc.tasks)
  {
    if DocAfter(s.doc, op).Some? {
      var doc := DocAfter(s.doc, op).value;
      ChangeNoNewClaims(s.doc, op);
      ChangeKeepsUnique(s.doc, op);
      TransactedEvolves(s, doc, s.rows, save, n, t);
    }
  }

  lemma ExpireEvolves(s: Server, i: nat, lease: string, save: Save, n: nat, t: Server)
    requires ExpireStep(s, i, lease, save, n, t)
    ensures Evolves(s, None, t) && |t.doc.tasks| == |s.doc.tasks|
  {
    if i < |s.doc.tasks| {
      PauseNoNewClaims(s.doc, s.doc.tasks[i].project, s.doc.tasks[i].id, "heartbeat_lost");
    }
    TransactedEvolves(s, ExpiredDocument(s, i, lease), s.rows, save, n, t);
  }

  /** The end of a release: the new document and the closed lease. */
  lemma ReleaseEvolves(s: Server, doc: Document, lease: string, save: Save, n: nat, t: Server)
    requires NoNewClaims(s.doc, doc) && |doc.tasks| == |s.doc.tasks|
    requires Transacted(s, doc, Apply(Close(s.me, lease), s.rows, s.clock), save, n, t)
    ensures Evolves(s, None, t) && |t.doc.tasks| == |s.doc.tasks|
  {
    ApplyEvolves(Close(s.me, lease), s.rows, s.me, s.clock);
    TransactedEvolves(s, doc, Apply(Close(s.me, lease), s.rows, s.clock), save, n, t);
  }

  lemma CommitEvolves(s: Server, q: nat, i: nat, passed: bool, save: Save, n: nat, t: Server)
    requires CommitStep(s, q, i, passed, save, n, t)
    ensures Evolves(s, None, t) && |t.doc.tasks| == |s.doc.tasks|
  {
    if LeaseGood(s.doc, s.rows, s.me, i, s.requests[q].lease, s.clock) {
      if passed {
        PassedNoNewClaims(s.doc, i);
      } else {
        FailedNoNewClaims(s.doc, i, true);
      }
      ReleaseEvolves(s, VerifiedDocument(s.doc, i, passed), s.requests[q].lease, save, n, t);
    }
  }

  lemma OtherReleaseEvolves(s: Server, l: Step, t: Server)
    requires (l.FastRelease? || l.FailRelease?) && Next(s, l, t)
    ensures Evolves(s, None, t) && |t.doc.tasks| == |s.doc.tasks|
  {
    match l
    case FastRelease(q, i, save, n) =>
      if Usable(s.rows, s.me, s.requests[q].lease, s.clock) {
        ReleaseEvolves(s, FastDocument(s.doc, i), s.requests[q].lease, save, n, t);
      }
    case FailRelease(i, lease, save, n) =>
      if LeaseGood(s.doc, s.rows, s.me, i, lease, s.clock) {
        FailedNoNewClaims(s.doc, i, false);
        ReleaseEvolves(s, FailedDocument(s.doc, i, false), lease, save, n, t);
      }
  }

  lemma QuietEvolves(s: Server, l: Step, t: Server)
    requires !l.Change? && !l.Claim? && !l.Expire? && !l.Commit? && !l.FastRelease? && !l.FailRelease? && Next(s, l, t)
    ensures Evolves(s, None, t) && |t.doc.tasks| == |s.doc.tasks|
  {
    match l
    case Renew(i, lease, save, n) =>
      if LeaseGood(s.doc, s.rows, s.me, i, lease, s.clock) {
        ApplyEvolves(Beat(s.me, lease), s.rows, s.me, s.clock);
        TransactedEvolves(s, s.doc, Apply(Beat(s.me, lease), s.rows, s.clock), save, n, t);
      }
    case Begin(q, i, save, n) =>
      if LeaseGood(s.doc, s.rows, s.me, i, s.requests[q].lease, s.clock) && s.requests[q].task !in s.verifying {
        TransactedEvolves(s, s.doc, s.rows, save, n, t);
      }
    case SweepLeases => ApplyEvolves(Sweep(s.me), s.rows, s.me, s.clock);
    case RollBack(task, reached) => ApplyEvolves(Revoke(s.me, task), s.rows, s.me, s.clock);
    case _ =>
  }

  /** The one lemma the safety argument needs of each step: documents change only by losing
      claims, or by granting one to a task without an active lease. */
  lemma StepEvolves(s: Server, l: Step, t: Server)
    requires UniqueTaskIds(s.doc.tasks) && Next(s, l, t)
    ensures Evolves(s, GrantOf(s, l), t) && UniqueTaskIds(t.doc.tasks)
    ensures GrantOf(s, l).Some? ==>
        GrantOf(s, l).value < |s.doc.tasks| && !Held(s.rows, s.doc.tasks[GrantOf(s, l).value].id)
  {
    match l {
      case Change(op, save, n) => ChangeEvolves(s, op, save, n, t);
      case Claim(lease, runtime, fingerprint, save, n) =>
        ClaimEvolves(s, lease, runtime, fingerprint, save, n, t);
      case Expire(i, lease, save, n) => ExpireEvolves(s, i, lease, save, n, t);
      case Commit(q, i, passed, save, n) => CommitEvolves(s, q, i, passed, save, n, t);
      case FastRelease(q, i, save, n) => OtherReleaseEvolves(s, l, t);
      case FailRelease(i, lease, save, n) => OtherReleaseEvolves(s, l, t);
      case _ => QuietEvolves(s, l, t);
    }
    if !l.Change? {
      SameIdsUnique(s.doc, t.doc, GrantOf(s, l));
    }
  }

  // ---------------------------------------------------------------- the life of one claim

  /** Lease and document agree that the task is being worked on under this lease. */
  ghost predicate Alive(s: Server, lease: string, i: nat) {
    && Usable(s.rows, s.me, lease, s.clock)
    && i < |s.doc.tasks| && s.doc.tasks[i].id == s.rows[lease].task && s.doc.tasks[i].dispatch == Claimed
  }

  /** The two stores cannot drift back into agreement: whatever is alive after a step was
      alive before it, with the same command. */
  lemma AliveBefore(s: Server, l: Step, t: Server, lease: string, i: nat)
    requires UniqueTaskIds(s.doc.tasks) && Next(s, l, t)
    requires lease in s.rows && Alive(t, lease, i)
    ensures Alive(s, lease, i) && s.doc.tasks[i].command == t.doc.tasks[i].command
    ensures s.rows[lease].task == t.rows[lease].task
  {
    StepEvolves(s, l, t);
    assert GrantOf(s, l) == Some(i) ==> Held(s.rows, s.doc.tasks[i].id);
  }

  /** The requests table: who is in flight, for which task, and who is verifying. */
  ghost predicate ServerOk(s: Server) {
    && UniqueTaskIds(s.doc.tasks)
    && (forall id | id in s.learned :: id in s.rows)
    && (forall q | q in s.requests ::
          && s.requests[q].lease in s.rows && s.rows[s.requests[q].lease].task == s.requests[q].task
          && (s.requests[q].phase == Verifying ==>
               s.requests[q].task in s.verifying && s.verifying[s.requests[q].task] == q))
  }

  /** A server that has just started. */
  ghost predicate Started(s: Server) {
    UniqueTaskIds(s.doc.tasks) && s.requests == map[] && s.verifying == map[] && s.undo == multiset{}
      && forall id | id in s.learned :: id in s.rows
  }

  lemma LearnedStep(s: Server, l: Step, t: Server)
    requires ServerOk(s) && Next(s, l, t)
    ensures forall id | id in t.learned :: id in t.rows
  {
    StepEvolves(s, l, t);
    if l.Claim? {
      ScannedGrant(s, l.lease, l.runtime, l.fingerprint);
      var g := Scanned(s, l.lease, l.runtime, l.fingerprint);
      RevokeEvolves(g.doc, g.rows, s.me, l.n, s.clock);
    }
  }

  predicate AboutRequests(l: Step) {
    l.Load? || l.Begin? || l.Commit? || l.FastRelease? || l.Forget? || l.Crash?
  }

  /** The two tables of requests stay the same in every other step. */
  lemma OtherRequests(s: Server, l: Step, t: Server)
    requires Next(s, l, t) && !AboutRequests(l)
    ensures t.requests == s.requests && t.verifying == s.verifying
  {
  }

  lemma RequestVerifying(s: Server, l: Step, t: Server, q: nat)
    requires ServerOk(s) && Next(s, l, t) && q in t.requests && t.requests[q].phase == Verifying
    ensures t.requests[q].task in t.verifying && t.verifying[t.requests[q].task] == q
  {
    if !AboutRequests(l) {
      OtherRequests(s, l, t);
    }
  }

  lemma RequestLease(s: Server, l: Step, t: Server, q: nat)
    requires ServerOk(s) && Next(s, l, t) && RowsEvolve(s.rows, t.rows, s.me, s.clock) && q in t.requests
    ensures t.requests[q].lease in t.rows && t.rows[t.requests[q].lease].task == t.requests[q].task
  {
    RequestStep(s, l, t, q);
  }

  lemma ServerStep(s: Server, l: Step, t: Server)
    requires ServerOk(s) && Next(s, l, t)
    ensures ServerOk(t)
  {
    StepEvolves(s, l, t);
    LearnedStep(s, l, t);
    forall q | q in t.requests
      ensures t.requests[q].phase == Verifying ==>
          t.requests[q].task in t.verifying && t.verifying[t.requests[q].task] == q
      ensures t.requests[q].lease in t.rows && t.rows[t.requests[q].lease].task == t.requests[q].task
    {
      RequestLease(s, l, t, q);
      if t.requests[q].phase == Verifying {
        RequestVerifying(s, l, t, q);
      }
    }
  }

  /** What one step can do to one request. */
  lemma RequestStep(s: Server, l: Step, t: Server, q: nat)
    requires Next(s, l, t) && q in t.requests
    ensures q in s.requests || (l.Load? && l.q == q && l.lease in s.learned && t.requests[q].phase == Loaded)
    ensures q in s.requests ==>
      && t.requests[q].lease == s.requests[q].lease && t.requests[q].task == s.requests[q].task
           && t.requests[q].command == s.requests[q].command
      && (t.requests[q].phase == Loaded ==> s.requests[q].phase == Loaded)
      && (t.requests[q].phase == Verifying ==>
           s.requests[q].phase == Verifying || (l.Begin? && l.q == q && s.requests[q].phase == Loaded))
  {
    if !AboutRequests(l) {
      OtherRequests(s, l, t);
    }
  }

  // ---------------------------------------------------------------- whole runs

  ghost predicate StepAt(ss: seq<Server>, ls: seq<Step>, k: nat)
    requires |ss| == |ls| + 1 && k < |ls|
  {
    Next(ss[k], ls[k], ss[k+1])
  }

  /** ls[k] leads from ss[k] to ss[k+1]. */
  ghost predicate IsRun(ss: seq<Server>, ls: seq<Step>) {
    |ss| == |ls| + 1 && Started(ss[0]) && forall k | 0 <= k < |ls| :: StepAt(ss, ls, k)
  }

  lemma {:induction false} RunKeepsServer(ss: seq<Server>, ls: seq<Step>, k: nat)
    requires IsRun(ss, ls) && k <= |ls|
    ensures ServerOk(ss[k])
  {
    if k > 0 {
      RunKeepsServer(ss, ls, k - 1);
      assert StepAt(ss, ls, k - 1);
      ServerStep(ss[k-1], ls[k-1], ss[k]);
    }
  }

  lemma {:induction false} RowsStay(ss: seq<Server>, ls: seq<Step>, lease: string, a: nat, b: nat)
    requires IsRun(ss, ls) && a <= b <= |ls| && lease in ss[a].rows
    ensures lease in ss[b].rows && ss[b].rows[lease].task == ss[a].rows[lease].task
    decreases b
  {
    if a < b {
      RowsStay(ss, ls, lease, a, b - 1);
      RunKeepsServer(ss, ls, b - 1);
      assert StepAt(ss, ls, b - 1);
      StepEvolves(ss[b-1], ls[b-1], ss[b]);
    }
  }

  /** The request q is in flight at k as it is at c, in phase. */
  ghost predicate SameRequest(ss: seq<Server>, q: nat, k: nat, c: nat)
    requires k < |ss| && c < |ss| && q in ss[c].requests
  {
    && q in ss[k].requests && ss[k].requests[q].lease == ss[c].requests[q].lease
    && ss[k].requests[q].task == ss[c].requests[q].task && ss[k].requests[q].command == ss[c].requests[q].command
  }

  /** A loaded request was loaded, and has been waiting ever since. */
  lemma {:induction false} LoadedSince(ss: seq<Server>, ls: seq<Step>, q: nat, c: nat) returns (r: nat)
    requires IsRun(ss, ls) && c <= |ls| && q in ss[c].requests && ss[c].requests[q].phase == Loaded
    ensures r < c && ls[r].Load? && ls[r].q == q
    ensures forall k | r < k <= c :: SameRequest(ss, q, k, c)
  {
    assert StepAt(ss, ls, c - 1);
    RequestStep(ss[c-1], ls[c-1], ss[c], q);
    if q in ss[c-1].requests {
      r := LoadedSince(ss, ls, q, c - 1);
    } else {
      r := c - 1;
    }
    forall k | r < k < c && q in ss[c-1].requests ensures SameRequest(ss, q, k, c) {
      assert SameRequest(ss, q, k, c - 1);
    }
  }

  /** A verifying request went through a load and then an accepted begin. */
  lemma {:induction false} VerifyingSince(ss: seq<Server>, ls: seq<Step>, q: nat, c: nat) returns (r: nat, b: nat)
    requires IsRun(ss, ls) && c <= |ls| && q in ss[c].requests && ss[c].requests[q].phase == Verifying
    ensures r < b < c && ls[r].Load? && ls[r].q == q && ls[b].Begin? && ls[b].q == q
    ensures forall k | r < k <= c :: SameRequest(ss, q, k, c)
    ensures forall k | b < k <= c :: q in ss[k].requests && ss[k].requests[q].phase == Verifying
  {
    assert StepAt(ss, ls, c - 1);
    RequestStep(ss[c-1], ls[c-1], ss[c], q);
    if ss[c-1].requests[q].phase == Verifying {
      r, b := VerifyingSince(ss, ls, q, c - 1);
    } else {
      b := c - 1;
      r := LoadedSince(ss, ls, q, b);
    }
    forall k | r < k < c ensures SameRequest(ss, q, k, c) {
      assert SameRequest(ss, q, k, c - 1);
    }
  }

  lemma AliveStepBack(ss: seq<Server>, ls: seq<Step>, lease: string, i: nat, c: nat)
    requires IsRun(ss, ls) && 0 < c <= |ls| && lease in ss[c-1].rows && Alive(ss[c], lease, i)
    ensures Alive(ss[c-1], lease, i) && ss[c-1].doc.tasks[i].command == ss[c].doc.tasks[i].command
  {
    RunKeepsServer(ss, ls, c - 1);
    assert StepAt(ss, ls, c - 1);
    AliveBefore(ss[c-1], ls[c-1], ss[c], lease, i);
  }

  /** Going back from a moment at which lease and task agree, they agreed all the time. */
  lemma {:induction false} AliveSince(ss: seq<Server>, ls: seq<Step>, lease: string, i: nat, k: nat, c: nat)
    requires IsRun(ss, ls) && k <= c <= |ls| && lease in ss[k].rows && Alive(ss[c], lease, i)
    ensures Alive(ss[k], lease, i) && ss[k].doc.tasks[i].command == ss[c].doc.tasks[i].command
    decreases c
  {
    if k < c {
      RowsStay(ss, ls, lease, k, c - 1);
      AliveStepBack(ss, ls, lease, i, c);
      AliveSince(ss, ls, lease, i, k, c - 1);
    }
  }

  // ---------------------------------------------------------------- closing execution

  /** The step is a transaction whose caller got no error. */
  ghost predicate Committed(s: Server, l: Step, t: Server) {
    match l
    case Change(op, save, n) => DocAfter(s.doc, op).Some? && TxOk(t.doc, save, n)
    case Claim(_, _, _, save, n) => TxOk(t.doc, save, n)
    case Renew(i, lease, save, n) => LeaseGood(s.doc, s.rows, s.me, i, lease, s.clock) && TxOk(t.doc, save, n)
    case Expire(_, _, save, n) => TxOk(t.doc, save, n)
    case Begin(q, i, save, n) =>
      && q in s.requests && LeaseGood(s.doc, s.rows, s.me, i, s.requests[q].lease, s.clock)
      && s.requests[q].task !in s.verifying && TxOk(t.doc, save, n)
    case Commit(q, i, _, save, n) => q in s.requests
        && LeaseGood(s.doc, s.rows, s.me, i, s.requests[q].lease, s.clock) && TxOk(t.doc, save, n)
    case FastRelease(q, _, save, n) => q in s.requests && Usable(s.rows, s.me, s.requests[q].lease, s.clock)
        && TxOk(t.doc, save, n)
    case FailRelease(i, lease, save, n) => LeaseGood(s.doc, s.rows, s.me, i, lease, s.clock) && TxOk(t.doc, save, n)
    case _ => false
  }

  /** The lease rows after such a step, for the document it left. */
  ghost predicate Swept(doc: Document, rows: Rows, me: string) {
    forall id, k | id in rows && 0 <= k < |doc.tasks| && rows[id].status == LeaseActive && rows[id].user == me
        && rows[id].task == doc.tasks[k].id ::
      !ExecutionClosed(doc, doc.tasks[k])
  }

  lemma RevokeAllSweeps(doc: Document, rows: Rows, me: string, now: int)
    ensures Swept(doc, RevokeClosed(doc, rows, me, |doc.tasks|, now), me)
  {
    var after := RevokeClosed(doc, rows, me, |doc.tasks|, now);
    forall id, k | id in after && 0 <= k < |doc.tasks| && after[id].status == LeaseActive && after[id].user == me
        && after[id].task == doc.tasks[k].id
      ensures !ExecutionClosed(doc, doc.tasks[k])
    {
      RevokedRow(doc, rows, me, |doc.tasks|, now, id);
    }
  }

  lemma TransactedSweeps(s: Server, doc: Document, rows: Rows, save: Save, n: nat, t: Server)
    requires Transacted(s, doc, rows, save, n, t) && TxOk(t.doc, save, n)
    ensures Swept(t.doc, t.rows, s.me)
  {
    RevokeAllSweeps(t.doc, rows, s.me, s.clock);
  }

  lemma ReleaseSweeps(s: Server, l: Step, t: Server)
    requires (l.Commit? || l.FastRelease? || l.FailRelease?) && Next(s, l, t) && Committed(s, l, t)
    ensures Swept(t.doc, t.rows, s.me)
  {
    match l
    case Commit(q, i, passed, save, n) =>
      TransactedSweeps(s, VerifiedDocument(s.doc, i, passed), Apply(Close(s.me, s.requests[q].lease), s.rows, s.clock),
          save, n, t);
    case FastRelease(q, i, save, n) =>
      TransactedSweeps(s, FastDocument(s.doc, i), Apply(Close(s.me, s.requests[q].lease), s.rows, s.clock), save, n, t);
    case FailRelease(i, lease, save, n) =>
      TransactedSweeps(s, FailedDocument(s.doc, i, false), Apply(Close(s.me, lease), s.rows, s.clock), save, n, t);
  }

  /** After every transaction that returns without error no closed task has an active lease. */
  lemma CommittedSweeps(s: Server, l: Step, t: Server)
    requires Next(s, l, t) && Committed(s, l, t)
    ensures Swept(t.doc, t.rows, s.me)
  {
    match l
    case Change(op, save, n) => TransactedSweeps(s, DocAfter(s.doc, op).value, s.rows, save, n, t);
    case Claim(lease, runtime, fingerprint, _, _) =>
      RevokeAllSweeps(t.doc, Scanned(s, lease, runtime, fingerprint).rows, s.me, s.clock);
    case Renew(_, lease, save, n) => TransactedSweeps(s, s.doc, Apply(Beat(s.me, lease), s.rows, s.clock), save, n, t);
    case Expire(i, lease, save, n) => TransactedSweeps(s, ExpiredDocument(s, i, lease), s.rows, save, n, t);
    case Begin(_, _, save, n) => TransactedSweeps(s, s.doc, s.rows, save, n, t);
    case _ => ReleaseSweeps(s, l, t);
  }

  /** A lease granted by a claim survives that claim's own revocation pass, unless the task is
      a cancelled one that an agent raised. */
  lemma GrantSurvivesItsClaim(s: Server, l: Step, t: Server)
    requires UniqueTaskIds(s.doc.tasks) && l.Claim? && Next(s, l, t) && Committed(s, l, t) && GrantOf(s, l).Some?
    ensures var i := GrantOf(s, l).value;
      && i < |t.doc.tasks| && l.lease in t.rows && t.rows[l.lease].task == t.doc.tasks[i].id
      && (t.rows[l.lease].status == LeaseActive <==> t.doc.tasks[i].state != Cancelled)
      && (t.doc.tasks[i].state == Cancelled ==> t.doc.tasks[i].origin == Agent)
      && (t.rows[l.lease].status == LeaseActive ==> Alive(t, l.lease, i))
  {
    ScannedGrant(s, l.lease, l.runtime, l.fingerprint);
    ClaimScanTask(RiskScan(s.doc, 0), s.rows, 0, l.lease, s.me, l.runtime, s.clock, l.fingerprint);
    var g := Scanned(s, l.lease, l.runtime, l.fingerprint);
    SameIdsUnique(s.doc, g.doc, g.to);
    RevokedRow(g.doc, g.rows, s.me, |g.doc.tasks|, s.clock, l.lease);
    OnlyOneClosed(g.doc, g.to.value);
  }

  /** A rollback that comes late ends whatever claim is alive on its task, and no other. */
  lemma RollBackEnds(s: Server, task: string, reached: bool, t: Server, lease: string, i: nat)
    requires RollBackStep(s, task, reached, t) && lease in s.rows
    ensures Alive(t, lease, i) <==> Alive(s, lease, i) && !(reached && s.rows[lease].task == task)
  {
  }

  lemma OnlyOneClosed(doc: Document, i: nat)
    requires UniqueTaskIds(doc.tasks) && i < |doc.tasks|
    ensures ClosedAmong(doc, |doc.tasks|, doc.tasks[i].id) <==> ExecutionClosed(doc, doc.tasks[i])
  {
    if ExecutionClosed(doc, doc.tasks[i]) {
      assert ClosedAmong(doc, |doc.tasks|, doc.tasks[i].id);
    } else {
      assert forall k | 0 <= k < |doc.tasks| && doc.tasks[k].id == doc.tasks[i].id :: k == i;
    }
  }

  // ---------------------------------------------------------------- pauses during a verification

  /** A saved takeover pause or stop ends every claim in its scope for good, even when the
      revocation of the leases fails: the document no longer agrees. */
  lemma SavedTakeoverPauseEndsClaims(s: Server, project: string, c: Control, save: Save, n: nat, t: Server, i: nat,
                                     lease: string)
    requires ChangeStep(s, TakeoverOp(project, c), save, n, t) && Controlled(s.doc, project, c).Some?
        && save != SaveLost
    requires i < |s.doc.tasks| && s.doc.tasks[i].project == project
    requires c.action == StopTakeover
        || (c.action == PauseTakeover && InScope(s.doc.tasks, project, c.root, c.reason, s.doc.tasks[i]))
    ensures !Alive(t, lease, i)
  {
  }

  /** An update that closes a task and leaves its dispatch state alone. It ends the claim exactly
      when its revocation reaches the task, or when the update hook pauses the project of a
      high-risk task and that is saved. */
  lemma ClosingUpdateEndsClaim(s: Server, i: nat, v: Task, save: Save, n: nat, t: Server, lease: string)
    requires UniqueTaskIds(s.doc.tasks) && Alive(s, lease, i)
    requires v.id == s.doc.tasks[i].id && v.project == s.doc.tasks[i].project && v.dispatch == Claimed
        && v.highRisk == s.doc.tasks[i].highRisk && (v.pauseReason != "" || v.state == Cancelled)
    requires Transacted(s, AfterUpdate(WithTask(s.doc, i, v), i), s.rows, save, n, t)
    ensures Alive(t, lease, i) <==> save == SaveLost || (!Risky(s.doc, s.doc.tasks[i]) && (save == SaveKept || n <= i))
  {
    var doc := WithTask(s.doc, i, v);
    if Risky(s.doc, v) {
      assert AfterUpdate(doc, i) == PausedDocument(doc, v.project, v.id, "high_risk");
      assert ProjectScopeReason("high_risk");
    } else {
      RevokedRow(doc, s.rows, s.me, n, s.clock, lease);
      OneClosed(doc, i, n);
    }
  }

  lemma OneClosed(doc: Document, i: nat, n: nat)
    requires UniqueTaskIds(doc.tasks) && i < |doc.tasks| && n <= |doc.tasks| && ExecutionClosed(doc, doc.tasks[i])
    ensures ClosedAmong(doc, n, doc.tasks[i].id) <==> i < n
  {
    assert forall k | 0 <= k < |doc.tasks| && k != i :: doc.tasks[k].id != doc.tasks[i].id;
    if i < n {
      assert ClosedAmong(doc, n, doc.tasks[i].id);
    }
  }

  /** A user pause is such an update. */
  lemma UserPauseEndsClaim(s: Server, i: nat, save: Save, n: nat, t: Server, lease: string)
    requires UniqueTaskIds(s.doc.tasks) && Alive(s, lease, i)
    requires ChangeStep(s, UpdateOp(i, s.doc.tasks[i].rowVersion, UserPause), save, n, t)
    ensures Alive(t, lease, i) <==> save == SaveLost || (!Risky(s.doc, s.doc.tasks[i]) && (save == SaveKept || n <= i))
  {
    ClosingUpdateEndsClaim(s, i, Rewritten(s.doc, s.doc.tasks[i], UserPause).value, save, n, t, lease);
  }

  /** So a user pause whose revocation failed, followed by a resume, leaves lease and document
      in agreement: the user saw an error, and a verification whose command had already ended
      when the pause was saved still counts. (The command of a verification that is still
      running is cancelled between the save and the revocation, and then fails; the model lets
      any verdict come back.) */
  lemma UnnoticedUserPause(s: Server, i: nat, lease: string) returns (t: Server, u: Server)
    requires UniqueTaskIds(s.doc.tasks) && Alive(s, lease, i) && !Risky(s.doc, s.doc.tasks[i])
        && !ExecutionClosed(s.doc, s.doc.tasks[i])
    ensures ChangeStep(s, UpdateOp(i, s.doc.tasks[i].rowVersion, UserPause), Saved, 0, t) && i < |t.doc.tasks|
    ensures t.doc.tasks[i].pauseReason != ""
    ensures ChangeStep(t, UpdateOp(i, t.doc.tasks[i].rowVersion, UserResume), Saved, |t.doc.tasks|, u)
    ensures Alive(u, lease, i) && u.doc.tasks[i].command == s.doc.tasks[i].command
  {
    var x := s.doc.tasks[i];
    var y := x.(pauseReason := "paused_by_user", rowVersion := x.rowVersion + 2);
    t := s.(doc := WithTask(s.doc, i, y));
    var z := y.(pauseReason := "", rowVersion := y.rowVersion + 2);
    var doc := WithTask(t.doc, i, z);
    u := t.(doc := doc, rows := RevokeClosed(doc, t.rows, t.me, |doc.tasks|, t.clock));
    RevokedRow(doc, t.rows, t.me, |doc.tasks|, t.clock, lease);
    assert forall k | 0 <= k < |doc.tasks| && k != i :: doc.tasks[k].id != x.id;
    assert !ExecutionClosed(doc, doc.tasks[i]);
  }

  /** So does an update that moves the project of the task to blocked. */
  lemma SavedBlockEndsClaims(s: Server, at: nat, version: int, change: ProjectOp, save: Save, n: nat, t: Server, i: nat,
                             lease: string)
    requires ChangeStep(s, ContractOp(at, version, change), save, n, t) && save != SaveLost
    requires DocAfter(s.doc, ContractOp(at, version, change)).Some? && change.to == Some(Stalled)
    requires i < |s.doc.tasks| && s.doc.tasks[i].project == s.doc.projects[at].id
    ensures !Alive(t, lease, i)
  {
    var paused := PausedDocument(s.doc, s.doc.projects[at].id, "", change.reason);
    assert InScope(s.doc.tasks, s.doc.projects[at].id, "", change.reason, s.doc.tasks[i]);
    assert t.doc.tasks == paused.tasks;
  }

  /** A cancellation is another. */
  lemma UserCancelEndsClaim(s: Server, i: nat, save: Save, n: nat, t: Server, lease: string)
    requires UniqueTaskIds(s.doc.tasks) && Alive(s, lease, i)
        && s.doc.tasks[i].state !in {ExecutionComplete, Archived}
    requires ChangeStep(s, UpdateOp(i, s.doc.tasks[i].rowVersion, UserCancel), save, n, t)
    ensures Alive(t, lease, i) <==> save == SaveLost || (!Risky(s.doc, s.doc.tasks[i]) && (save == SaveKept || n <= i))
  {
    ClosingUpdateEndsClaim(s, i, Rewritten(s.doc, s.doc.tasks[i], UserCancel).value, save, n, t, lease);
  }

  /** A task rewritten in place passes on what its dependencies were, if it was none itself. */
  lemma SamePassed(tasks: seq<Task>, i: nat, u: Task, task: Task)
    requires UniqueTaskIds(tasks) && i < |tasks| && u.id == tasks[i].id && tasks[i].dispatch != Done
        && u.dispatch != Done
    ensures DependenciesPassed(tasks[i := u], task) <==> DependenciesPassed(tasks, task)
  {
    FindTaskAt(tasks, i);
    forall d | d in task.dependsOn
      ensures FindTask(tasks[i := u], d) == if d == u.id then Some(u) else FindTask(tasks, d)
    {
      FindTaskUpdate(tasks, i, u, d);
    }
  }

  /** The gate after a cancellation that is in force while its revocation failed: it is shut
      for human work, and as open as before for a task that an agent raised, whose state the
      claim predicate does not look at. */
  lemma CancelledGate(s: Server, i: nat, save: Save, n: nat, t: Server, lease: string)
    requires UniqueTaskIds(s.doc.tasks) && LeaseGood(s.doc, s.rows, s.me, i, lease, s.clock)
        && s.doc.tasks[i].state !in {ExecutionComplete, Archived}
    requires ChangeStep(s, UpdateOp(i, s.doc.tasks[i].rowVersion, UserCancel), save, n, t)
    requires save == SaveKept || (save == Saved && n <= i)
    ensures i < |t.doc.tasks| && t.doc.tasks[i].state == Cancelled
    ensures LeaseGood(t.doc, t.rows, t.me, i, lease, t.clock) <==> s.doc.tasks[i].origin == Agent
  {
    var u := s.doc.tasks[i];
    var v := Rewritten(s.doc, u, UserCancel).value;
    UserCancelEndsClaim(s, i, save, n, t, lease);
    assert !Risky(s.doc, u);
    assert t.doc == WithTask(s.doc, i, v);
    SamePassed(s.doc.tasks, i, v, v);
  }

  /** There is such a step from every good lease on an agent-raised task: the user has
      cancelled and saw an error, and with no resume at all the agent's next step, a release
      that counts among them, passes the gate. */
  lemma UnnoticedCancel(s: Server, i: nat, lease: string) returns (t: Server)
    requires UniqueTaskIds(s.doc.tasks) && LeaseGood(s.doc, s.rows, s.me, i, lease, s.clock)
        && s.doc.tasks[i].origin == Agent && s.doc.tasks[i].state !in {ExecutionComplete, Archived}
    ensures ChangeStep(s, UpdateOp(i, s.doc.tasks[i].rowVersion, UserCancel), Saved, 0, t)
    ensures i < |t.doc.tasks| && t.doc.tasks[i].state == Cancelled
    ensures LeaseGood(t.doc, t.rows, t.me, i, lease, t.clock) && ExecutionClosed(t.doc, t.doc.tasks[i])
  {
    t := s.(doc := WithTask(s.doc, i, Rewritten(s.doc, s.doc.tasks[i], UserCancel).value));
    CancelledGate(s, i, Saved, 0, t, lease);
  }

  // ---------------------------------------------------------------- the main theorem

  /** A transaction that completes leaves no living claim on a closed task. */
  lemma CommittedStaysOpen(ss: seq<Server>, ls: seq<Step>, k: nat, lease: string, i: nat)
    requires IsRun(ss, ls) && k < |ls| && Committed(ss[k], ls[k], ss[k+1]) && Alive(ss[k+1], lease, i)
    ensures !ExecutionClosed(ss[k+1].doc, ss[k+1].doc.tasks[i])
  {
    RunKeepsServer(ss, ls, k);
    assert StepAt(ss, ls, k);
    StepEvolves(ss[k], ls[k], ss[k+1]);
    CommittedSweeps(ss[k], ls[k], ss[k+1]);
  }

  /** Whenever a verification is committed under a lease, then from the moment its request was
      loaded that lease was active and unexpired and the task stayed claimed under it with the
      very command that was run; no second verification of the task ran; and no transaction
      that closes the task (a pause, a stop, a cancellation) completed. */
  lemma VerifiedWorkWasHeldThroughout(ss: seq<Server>, ls: seq<Step>, c: nat) returns (r: nat, b: nat)
    requires IsRun(ss, ls) && c < |ls| && ls[c].Commit? && ls[c].q in ss[c].requests
    requires LeaseGood(ss[c].doc, ss[c].rows, ss[c].me, ls[c].i, ss[c].requests[ls[c].q].lease, ss[c].clock)
    ensures r < b < c && ls[r].Load? && ls[r].q == ls[c].q && ls[b].Begin? && ls[b].q == ls[c].q
    ensures var q, i, lease := ls[c].q, ls[c].i, ss[c].requests[ls[c].q].lease;
      && (forall k | r <= k <= c ::
            Alive(ss[k], lease, i) && ss[k].doc.tasks[i].command == ss[c].requests[q].command)
      && (forall k, other | b < k <= c && other in ss[k].requests && ss[k].requests[other].phase == Verifying
            && ss[k].requests[other].task == ss[c].requests[q].task :: other == q)
      && (forall k | r <= k < c && Committed(ss[k], ls[k], ss[k+1]) ::
           !ExecutionClosed(ss[k+1].doc, ss[k+1].doc.tasks[i]))
  {
    var q, i, lease := ls[c].q, ls[c].i, ss[c].requests[ls[c].q].lease;
    assert StepAt(ss, ls, c);
    r, b := VerifyingSince(ss, ls, q, c);
    assert StepAt(ss, ls, r) && SameRequest(ss, q, r + 1, c);
    RequestStep(ss[r], ls[r], ss[r+1], q);
    RunKeepsServer(ss, ls, r);
    forall k | r <= k <= c ensures Alive(ss[k], lease, i) && ss[k].doc.tasks[i].command == ss[c].doc.tasks[i].command {
      RowsStay(ss, ls, lease, r, k);
      AliveSince(ss, ls, lease, i, k, c);
    }
    assert Alive(ss[r], lease, i);
    assert ls[r].i == i;
    forall k, other | b < k <= c && other in ss[k].requests && ss[k].requests[other].phase == Verifying
      && ss[k].requests[other].task == ss[c].requests[q].task
      ensures other == q
    {
      RunKeepsServer(ss, ls, k);
      assert SameRequest(ss, q, k, c);
    }
    forall k | r <= k < c && Committed(ss[k], ls[k], ss[k+1])
      ensures !ExecutionClosed(ss[k+1].doc, ss[k+1].doc.tasks[i])
    {
      assert Alive(ss[k+1], lease, i);
      CommittedStaysOpen(ss, ls, k, lease, i);
    }
  }
}
