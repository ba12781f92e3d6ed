/** The runbook engine: phases of a task, the evidence they need, what tool results lead to, and
    when a task is ready for human acceptance. */
module Runbook {
  import opened Basics
  import opened ProjectState

  // ---------------------------------------------------------------- runbooks

  /** Phase ids after normalisation; unknown ids are all the same. */
  datatype PhaseId = Plan | Implement | Write | Test | Review | FixOrReplan | FinalValidation | ReadyForAcceptance
      | Unknown

  datatype PhaseSpec = PhaseSpec(id: PhaseId, required: seq<string>)

  datatype Book = Book(phases: seq<PhaseSpec>, rules: seq<string>)

  datatype ToolDef = ToolDef(id: string, kind: string, phases: seq<PhaseId>, maxRetries: nat, agent: bool)

  ghost predicate DistinctPhases(book: Book) {
    forall i, j | 0 <= i < j < |book.phases| :: book.phases[i].id != book.phases[j].id
  }

  function IndexOf(phases: seq<PhaseSpec>, id: PhaseId): (i: nat)
    ensures i <= |phases| && (i < |phases| ==> phases[i].id == id) && forall k | 0 <= k < i :: phases[k].id != id
  {
    if phases == [] || phases[0].id == id then 0 else 1 + IndexOf(phases[1..], id)
  }

  predicate HasPhase(book: Book, id: PhaseId) {
    IndexOf(book.phases, id) < |book.phases|
  }

  /** The next phase that is neither unknown nor recovery, from position i on. */
  function NextFrom(phases: seq<PhaseSpec>, i: nat): PhaseId
    decreases |phases| - i
  {
    if i >= |phases| then ReadyForAcceptance
    else if phases[i].id in {Unknown, FixOrReplan} then NextFrom(phases, i + 1)
    else phases[i].id
  }

  function RecoveryTarget(book: Book): Option<PhaseId> {
    if HasPhase(book, Test) then Some(Test)
    else if HasPhase(book, Review) then Some(Review)
    else if HasPhase(book, FinalValidation) then Some(FinalValidation)
    else if HasPhase(book, FixOrReplan) then Some(NextFrom(book.phases, IndexOf(book.phases, FixOrReplan) + 1))
    else None
  }

  function NextPhase(book: Book, id: PhaseId): Option<PhaseId> {
    if id in {Unknown, ReadyForAcceptance} then None
    else if id == FixOrReplan then RecoveryTarget(book)
    else if HasPhase(book, id) then Some(NextFrom(book.phases, IndexOf(book.phases, id) + 1))
    else None
  }

  method FindNext(book: Book, from: nat) returns (id: PhaseId)
    requires from <= |book.phases|
    ensures id == NextFrom(book.phases, from)
  {
    for i := from to |book.phases|
      invariant NextFrom(book.phases, from) == NextFrom(book.phases, i)
    {
      if book.phases[i].id != Unknown && book.phases[i].id != FixOrReplan {
        return book.phases[i].id;
      }
    }
    return ReadyForAcceptance;
  }

  lemma {:induction false} NextIsLater(phases: seq<PhaseSpec>, i: nat)
    ensures NextFrom(phases, i) !in {Unknown, FixOrReplan}
    ensures NextFrom(phases, i) == ReadyForAcceptance || exists k ::
        i <= k < |phases| && phases[k].id == NextFrom(phases, i)
    decreases |phases| - i
  {
    if i < |phases| {
      if phases[i].id in {Unknown, FixOrReplan} {
        NextIsLater(phases, i + 1);
      }
    }
  }

  lemma PhaseAt(book: Book, k: nat)
    requires DistinctPhases(book) && k < |book.phases|
    ensures IndexOf(book.phases, book.phases[k].id) == k
  {
    assert book.phases[IndexOf(book.phases, book.phases[k].id)].id == book.phases[k].id;
  }

  // ---------------------------------------------------------------- chains of tool runs

  /** A tool run in a chain that no human touches. */
  datatype Link = Link(phase: PhaseId, retries: nat, max: nat)

  function ToolForPhase(tools: seq<ToolDef>, spec: PhaseSpec): Option<ToolDef> {
    if tools == [] || spec.required == [] then None
    else if tools[0].kind == spec.required[0] && spec.id in tools[0].phases then Some(tools[0])
    else ToolForPhase(tools[1..], spec)
  }

  predicate Retries(a: Link, b: Link) {
    a.retries < a.max && b == a.(retries := a.retries + 1)
  }

  predicate Advances(book: Book, tools: seq<ToolDef>, a: Link, b: Link) {
    && NextPhase(book, a.phase) == Some(b.phase) && b.phase != ReadyForAcceptance && HasPhase(book, b.phase)
    && var tool := ToolForPhase(tools, book.phases[IndexOf(book.phases, b.phase)]);
      tool.Some? && !tool.value.agent && b == Link(b.phase, 0, tool.value.maxRetries)
  }

  /** One tool run sets off the next one: a retry, or the tool of the next phase. */
  predicate Hop(book: Book, tools: seq<ToolDef>, a: Link, b: Link) {
    Retries(a, b) || Advances(book, tools, a, b)
  }

  ghost predicate IsChain(book: Book, tools: seq<ToolDef>, c: seq<Link>) {
    forall k | 0 <= k < |c| - 1 :: Hop(book, tools, c[k], c[k+1])
  }

  /** Phases still ahead: recovery counts as before everything. */
  function Ahead(book: Book, id: PhaseId): nat {
    if id == FixOrReplan then |book.phases| + 1 else |book.phases| - IndexOf(book.phases, id)
  }

  lemma AdvanceMovesOn(book: Book, tools: seq<ToolDef>, a: Link, b: Link)
    requires DistinctPhases(book) && Advances(book, tools, a, b)
    ensures b.phase != FixOrReplan && Ahead(book, b.phase) < Ahead(book, a.phase)
    ensures a.phase != FixOrReplan ==> IndexOf(book.phases, a.phase) < IndexOf(book.phases, b.phase)
  {
    if a.phase != FixOrReplan {
      var i := IndexOf(book.phases, a.phase) + 1;
      NextIsLater(book.phases, i);
      var k :| i <= k < |book.phases| && book.phases[k].id == b.phase;
      PhaseAt(book, k);
    } else if HasPhase(book, FixOrReplan) {
      NextIsLater(book.phases, IndexOf(book.phases, FixOrReplan) + 1);
    }
  }

  ghost predicate RetriesBounded(tools: seq<ToolDef>, limit: nat) {
    forall t | t in tools :: t.maxRetries <= limit
  }

  lemma {:induction false} ToolBounded(tools: seq<ToolDef>, spec: PhaseSpec, limit: nat)
    requires RetriesBounded(tools, limit) && ToolForPhase(tools, spec).Some?
    ensures ToolForPhase(tools, spec).value.maxRetries <= limit && ToolForPhase(tools, spec).value in tools
  {
    if !(tools[0].kind == spec.required[0] && spec.id in tools[0].phases) {
      ToolBounded(tools[1..], spec, limit);
    } else {
      assert tools[0] in tools;
    }
  }

  ghost predicate LinkOk(l: Link, limit: nat) {
    l.retries <= l.max <= limit
  }

  /** How many runs a link can still set off, counting itself. */
  function Budget(book: Book, l: Link, limit: nat): int {
    Ahead(book, l.phase) * (limit + 1) + l.max - l.retries + 1
  }

  lemma StageShrinks(a: nat, b: nat, limit: nat)
    requires b < a
    ensures b * (limit + 1) + limit + 1 <= a * (limit + 1)
  {
    assert (b + 1) * (limit + 1) <= a * (limit + 1);
  }

  lemma HopShrinks(book: Book, tools: seq<ToolDef>, a: Link, b: Link, limit: nat)
    requires DistinctPhases(book) && RetriesBounded(tools, limit) && LinkOk(a, limit) && Hop(book, tools, a, b)
    ensures LinkOk(b, limit) && Budget(book, b, limit) < Budget(book, a, limit)
  {
    if Advances(book, tools, a, b) {
      AdvanceMovesOn(book, tools, a, b);
      ToolBounded(tools, book.phases[IndexOf(book.phases, b.phase)], limit);
      StageShrinks(Ahead(book, a.phase), Ahead(book, b.phase), limit);
    }
  }

  /** Every chain is finite, with a bound known before it starts; and once a chain has left
      the recovery phase it does not come back to it. */
  lemma {:induction false} ChainsEnd(book: Book, tools: seq<ToolDef>, c: seq<Link>, limit: nat)
    requires DistinctPhases(book) && RetriesBounded(tools, limit) && c != [] && LinkOk(c[0], limit)
        && IsChain(book, tools, c)
    ensures |c| <= Budget(book, c[0], limit)
    ensures forall j, k | 0 <= j <= k < |c| && c[k].phase == FixOrReplan :: c[j].phase == FixOrReplan
  {
    if |c| == 1 {
      assert Ahead(book, c[0].phase) * (limit + 1) >= 0;
    } else {
      HopShrinks(book, tools, c[0], c[1], limit);
      forall k | 0 <= k < |c[1..]| - 1 ensures Hop(book, tools, c[1..][k], c[1..][k+1]) {
        assert Hop(book, tools, c[k+1], c[k+2]);
      }
      ChainsEnd(book, tools, c[1..], limit);
      assert Hop(book, tools, c[0], c[1]);
      if Advances(book, tools, c[0], c[1]) {
        AdvanceMovesOn(book, tools, c[0], c[1]);
      }
      forall j, k | 0 <= j <= k < |c| && c[k].phase == FixOrReplan ensures c[j].phase == FixOrReplan {
        if k > 0 {
          assert c[1..][k-1] == c[k] && c[1..][0] == c[1];
          if j > 0 { assert c[1..][j-1] == c[j]; }
        }
      }
    }
  }

  /** Distinct ids are needed: with a phase listed twice two passing tools chase each other. */
  lemma {:induction false} RepeatedPhaseNeverEnds(n: nat) returns (book: Book, tools: seq<ToolDef>, c: seq<Link>)
    ensures !DistinctPhases(book) && |c| == n + 1 && IsChain(book, tools, c)
    ensures c[0] == Link(Test, 0, 0) || c[0] == Link(Review, 0, 0)
    ensures book == Book([PhaseSpec(Test, ["t"]), PhaseSpec(Review, ["r"]), PhaseSpec(Test, ["t"])], [])
    ensures tools == [ToolDef("go_test", "t", [Test], 0, false), ToolDef("review", "r", [Review], 0, false)]
  {
    if n == 0 {
      book := Book([PhaseSpec(Test, ["t"]), PhaseSpec(Review, ["r"]), PhaseSpec(Test, ["t"])], []);
      tools := [ToolDef("go_test", "t", [Test], 0, false), ToolDef("review", "r", [Review], 0, false)];
      c := [Link(Test, 0, 0)];
      assert book.phases[0].id == book.phases[2].id;
    } else {
      book, tools, c := RepeatedPhaseNeverEnds(n - 1);
      var first := if c[0].phase == Test then Link(Review, 0, 0) else Link(Test, 0, 0);
      assert IndexOf(book.phases, Test) == 0 && IndexOf(book.phases, Review) == 1;
      assert NextPhase(book, Test) == Some(Review) && NextPhase(book, Review) == Some(Test);
      assert ToolForPhase(tools, book.phases[0]) == Some(tools[0]);
      assert ToolForPhase(tools, book.phases[1]) == Some(tools[1]) by {
        assert tools[1..][0] == tools[1];
      }
      assert Advances(book, tools, first, c[0]);
      c := [first] + c;
    }
  }

  // ---------------------------------------------------------------- tasks under a runbook

  datatype Verdict = Pass | Fail | Record

  datatype Evidence = Evidence(task: string, kind: string, verdict: Verdict)

  /** Test, review and completion evidence has to pass; other evidence must not have failed. */
  predicate Passes(kind: string, verdict: Verdict) {
    if kind in {"test_result", "review_result", "completion_check"} then verdict == Pass else verdict != Fail
  }

  datatype Acceptance = NotReady | ReadyForReview | UnderReview | AcceptedByHuman | RejectedByHuman

  datatype Job = Job(id: string, state: TaskState, current: PhaseId, acceptance: Acceptance, managed: bool)

  datatype TryStatus = TryRunning | TryDone | TryFailed

  datatype Try = Try(task: string, phase: PhaseId, status: TryStatus)

  datatype Board = Board(jobs: seq<Job>, tries: seq<Try>, evidence: seq<Evidence>)

  /** A task without a current phase has the one its state suggests. */
  function CurrentPhase(j: Job): PhaseId {
    if j.current != Unknown then j.current
    else match j.state
      case Planned => Plan
      case Queued => Plan
      case WaitingReview => Review
      case Blocked => FixOrReplan
      case Failed => FixOrReplan
      case ExecutionComplete => ReadyForAcceptance
      case Archived => ReadyForAcceptance
      case _ => Implement
  }

  /** The last running attempt of the task in the phase; the number of attempts if none. */
  function RunningTry(tries: seq<Try>, task: string, phase: PhaseId): (i: nat)
    ensures i <= |tries|
    ensures i < |tries| ==> tries[i] == Try(task, phase, TryRunning)
    ensures i == |tries| ==> forall k | 0 <= k < |tries| :: tries[k] != Try(task, phase, TryRunning)
  {
    if tries == [] then 0
    else if tries[|tries|-1] == Try(task, phase, TryRunning) then |tries| - 1
    else
      var i := RunningTry(tries[..|tries|-1], task, phase);
      if i == |tries| - 1 then |tries| else i
  }

  predicate Present(evidence: seq<Evidence>, task: string, kind: string) {
    exists e | e in evidence :: e.task == task && e.kind == kind && Passes(kind, e.verdict)
  }

  /** The rule asks for nothing, or its evidence is there or about to be. */
  predicate Provided(evidence: seq<Evidence>, task: string, kind: string, extra: Option<(string, Verdict)>) {
    Blank(kind) || Present(evidence, task, kind)
      || (extra.Some? && extra.value.0 == kind && Passes(kind, extra.value.1))
  }

  /** The completion rules without passing evidence; extra is evidence about to be recorded. */
  function MissingKinds(evidence: seq<Evidence>, task: string, rules: seq<string>,
                        extra: Option<(string, Verdict)>): seq<string> {
    if rules == [] then []
    else (if Provided(evidence, task, rules[0], extra) then []
        else [rules[0]]) + MissingKinds(evidence, task, rules[1..], extra)
  }

  /** Every completion rule has passing evidence. */
  ghost predicate FullyEvidenced(book: Book, evidence: seq<Evidence>, task: string) {
    forall kind | kind in book.rules && !Blank(kind) :: Present(evidence, task, kind)
  }

  lemma {:induction false} NothingMissing(evidence: seq<Evidence>, task: string, rules: seq<string>,
                                          extra: Option<(string, Verdict)>)
    ensures MissingKinds(evidence, task, rules, extra) == [] <==>
        forall kind | kind in rules :: Provided(evidence, task, kind, extra)
  {
    if rules != [] {
      NothingMissing(evidence, task, rules[1..], extra);
      assert rules == [rules[0]] + rules[1..];
    }
  }

  // ---------------------------------------------------------------- the operations

  function WithJob(b: Board, i: nat, j: Job): Board
    requires i < |b.jobs|
  {
    b.(jobs := b.jobs[i := j])
  }

  function StateForPhase(phase: PhaseId): TaskState {
    if phase == Review then WaitingReview else TaskState.Running
  }

  /** Starts the current phase; one attempt at a time. */
  function Start(book: Book, b: Board, i: nat, asked: PhaseId): Option<Board>
    requires i < |b.jobs|
  {
    var j := b.jobs[i];
    var phase := if asked == Unknown then CurrentPhase(j) else asked;
    if phase in {Unknown, ReadyForAcceptance} || !HasPhase(book, phase) || j.state == Archived
        || j.acceptance == AcceptedByHuman
      || phase != CurrentPhase(j) || RunningTry(b.tries, j.id, phase) < |b.tries| then None
    else
      Some(WithJob(b, i, j.(state := StateForPhase(phase), current := phase, acceptance := NotReady))
           .(tries := b.tries + [Try(j.id, phase, TryRunning)]))
  }

  /** An artifact kind that may complete the phase; "" is none. */
  predicate Accepts(book: Book, phase: PhaseId, kind: string) {
    HasPhase(book, phase) &&
    var required := book.phases[IndexOf(book.phases, phase)].required;
    required == [] || (kind != "" && kind in required)
  }

  /** Completes a running phase with passing evidence and moves to the next one, or to human
      acceptance after the last. The completion rules are checked for final validation only. */
  function Complete(book: Book, b: Board, i: nat, asked: PhaseId, kind: string, verdict: Verdict): Option<Board>
    requires i < |b.jobs|
  {
    var j := b.jobs[i];
    var phase := if asked == Unknown then CurrentPhase(j) else asked;
    var at := RunningTry(b.tries, j.id, phase);
    var extra := if kind == "" then None else Some((kind, verdict));
    var next := NextPhase(book, phase);
    if !HasPhase(book, phase) || at == |b.tries| || !Accepts(book, phase, kind)
        || (kind != "" && !Passes(kind, verdict))
      || (phase == FinalValidation && MissingKinds(b.evidence, j.id, book.rules, extra) != []) || next.None? then None
    else
      var evidence := if kind == "" then b.evidence else b.evidence + [Evidence(j.id, kind, verdict)];
      var tries := b.tries[at := b.tries[at].(status := TryDone)];
      var k := if next.value == ReadyForAcceptance
        then j.(state := ExecutionComplete, acceptance := ReadyForReview, current := ReadyForAcceptance)
        else j.(state := StateForPhase(next.value), current := next.value);
      Some(Board(b.jobs[i := k], tries, evidence))
  }

  /** A failed phase sends the task to recovery. */
  function FailPhase(b: Board, i: nat, asked: PhaseId): Option<Board>
    requires i < |b.jobs|
  {
    var j := b.jobs[i];
    var phase := if asked == Unknown then CurrentPhase(j) else asked;
    var at := RunningTry(b.tries, j.id, phase);
    if at == |b.tries| then None
    else
      Some(WithJob(b, i, j.(state := Failed, current := FixOrReplan, acceptance := NotReady))
           .(tries := b.tries[at := b.tries[at].(status := TryFailed)]))
  }

  /** Evidence of a tool that does not end its phase, or that failed and ends it. */
  function ToolEvidence(book: Book, b: Board, i: nat, phase: PhaseId, kind: string, verdict: Verdict): Option<Board>
    requires i < |b.jobs|
  {
    if !HasPhase(book, phase) || RunningTry(b.tries, b.jobs[i].id, phase) == |b.tries| || kind == "" then None
    else
      var recorded := b.(evidence := b.evidence + [Evidence(b.jobs[i].id, kind, verdict)]);
      if kind in book.phases[IndexOf(book.phases, phase)].required then
        if Passes(kind, verdict) then Complete(book, b, i, phase, kind, verdict) else FailPhase(recorded, i, phase)
      else Some(recorded)
  }

  predicate AcceptanceMove(from: Acceptance, to: Acceptance, state: TaskState) {
    || from == to
    || (to in {ReadyForReview, UnderReview} && state == ExecutionComplete
        && ((from == NotReady && to == ReadyForReview) || (from == ReadyForReview && to == UnderReview)))
    || (to == NotReady && from in {ReadyForReview, UnderReview, RejectedByHuman})
  }

  /** A direct change of state and acceptance status; the rules are checked on entry. */
  function SetAcceptance(book: Book, b: Board, i: nat, state: TaskState, to: Acceptance): Option<Board>
    requires i < |b.jobs|
  {
    var j := b.jobs[i];
    if to == j.acceptance then Some(WithJob(b, i, j.(state := state)))
    else if !AcceptanceMove(j.acceptance, to, state)
      || (to in {ReadyForReview, UnderReview} && MissingKinds(b.evidence, j.id, book.rules, None) != []) then None
    else Some(WithJob(b, i, j.(state := state, acceptance := to)))
  }

  /** How a tool run ends: it could not be run, or it produced evidence. canStart says whether
      the tool of a following phase finds its workspace. */
  datatype ToolResult = ToolResult(broke: bool, kind: string, verdict: Verdict, canStart: bool)

  datatype Progress = Progress(board: Board, next: Option<Link>)

  /** After a passing tool the task's phase is started, and its tool with it, where the project
      leaves that to the engine, there is a tool, and a workspace for it. */
  function Progressed(book: Book, tools: seq<ToolDef>, b: Board, i: nat, canStart: bool): Progress
    requires i < |b.jobs|
  {
    var j := b.jobs[i];
    if j.managed || j.current in {Unknown, ReadyForAcceptance} || !HasPhase(book, j.current) then Progress(b, None)
    else
      var tool := ToolForPhase(tools, book.phases[IndexOf(book.phases, j.current)]);
      var started := Start(book, b, i, j.current);
      if tool.None? || started.None? then Progress(b, None)
      else
        Progress(started.value,
                 if canStart && !tool.value.agent then Some(Link(j.current, 0, tool.value.maxRetries)) else None)
  }

  /** The end of one tool run: a retry when nothing could be recorded, the next phase and its tool
      after a pass. */
  function RunDone(book: Book, tools: seq<ToolDef>, b: Board, i: nat, run: Link, result: ToolResult): Progress
    requires i < |b.jobs|
  {
    var r := if result.broke then None else ToolEvidence(book, b, i, run.phase, result.kind, result.verdict);
    if r.None? then
      Progress(b, if run.retries < run.max && !b.jobs[i].managed then Some(run.(retries := run.retries + 1)) else None)
    else if result.verdict != Pass then Progress(r.value, None)
    else Progressed(book, tools, r.value, i, result.canStart)
  }

  /** A pause or a stop fails the running attempts it reaches and moves no phase. */
  function Halt(b: Board, reached: set<string>): Board {
    b.(tries := seq(|b.tries|, k requires 0 <= k < |b.tries| =>
        if b.tries[k].task in reached && b.tries[k].status == TryRunning then b.tries[k].(status := TryFailed)
            else b.tries[k]))
  }

  // ---------------------------------------------------------------- runs

  /** Decision is a human decision on acceptance, or work done without a runbook: it never
      makes a task ready. */
  datatype Event =
    | Started(i: nat, asked: PhaseId)
    | Completed(i: nat, asked: PhaseId, kind: string, verdict: Verdict)
    | PhaseFailed(i: nat, asked: PhaseId)
    | ToolDone(i: nat, phase: PhaseId, kind: string, verdict: Verdict)
    | AcceptanceSet(i: nat, state: TaskState, to: Acceptance)
    | Decision(i: nat, state: TaskState, to: Acceptance)
    | Halted(reached: set<string>)
    | Raised(job: Job)

  function Stepped(book: Book, b: Board, e: Event): Option<Board> {
    match e
    case Started(i, asked) => if i < |b.jobs| then Start(book, b, i, asked) else None
    case Completed(i, asked, kind, verdict) => if i < |b.jobs| then Complete(book, b, i, asked, kind, verdict) else None
    case PhaseFailed(i, asked) => if i < |b.jobs| then FailPhase(b, i, asked) else None
    case ToolDone(i, phase, kind, verdict) => if i < |b.jobs| then ToolEvidence(book, b, i, phase, kind, verdict)
        else None
    case AcceptanceSet(i, state, to) => if i < |b.jobs| then SetAcceptance(book, b, i, state, to) else None
    case Decision(i, state, to) =>
      if i < |b.jobs| && to in {NotReady, AcceptedByHuman, RejectedByHuman}
          then Some(WithJob(b, i, b.jobs[i].(state := state, acceptance := to))) else None
    case Halted(reached) => Some(Halt(b, reached))
    case Raised(job) =>
      if job.acceptance == NotReady && forall k | 0 <= k < |b.jobs| :: b.jobs[k].id != job.id
      then Some(b.(jobs := b.jobs + [job])) else None
  }

  ghost predicate UniqueJobs(jobs: seq<Job>) {
    forall i, j | 0 <= i < |jobs| && 0 <= j < |jobs| && jobs[i].id == jobs[j].id :: i == j
  }

  /** A running attempt is for the current phase of its task. */
  ghost predicate TryFits(jobs: seq<Job>, t: Try) {
    t.status == TryRunning ==>
      exists i :: 0 <= i < |jobs| && jobs[i].id == t.task && jobs[i].current == t.phase && t.phase != Unknown
  }

  ghost predicate BoardOk(b: Board) {
    && UniqueJobs(b.jobs)
    && (forall k | 0 <= k < |b.tries| :: TryFits(b.jobs, b.tries[k]))
    && (forall j, k | 0 <= j < k < |b.tries| && b.tries[j].status == TryRunning && b.tries[k].status == TryRunning ::
         b.tries[j].task != b.tries[k].task)
  }

  // ---------------------------------------------------------------- attempts follow the task

  /** The job a running attempt belongs to. */
  lemma TryOf(b: Board, k: nat, i: nat)
    requires BoardOk(b) && k < |b.tries| && b.tries[k].status == TryRunning && i < |b.jobs|
        && b.jobs[i].id == b.tries[k].task
    ensures b.jobs[i].current == b.tries[k].phase && b.tries[k].phase != Unknown
  {
    assert TryFits(b.jobs, b.tries[k]);
    var j :| 0 <= j < |b.jobs| && b.jobs[j].id == b.tries[k].task && b.jobs[j].current == b.tries[k].phase;
    assert j == i;
  }

  lemma FitsStill(jobs: seq<Job>, after: seq<Job>, i: nat, t: Try)
    requires TryFits(jobs, t) && i < |jobs| == |after| && after == jobs[i := after[i]]
    requires t.status == TryRunning ==> t.task != jobs[i].id
    ensures TryFits(after, t)
  {
    if t.status == TryRunning {
      var k :| 0 <= k < |jobs| && jobs[k].id == t.task && jobs[k].current == t.phase && t.phase != Unknown;
      assert after[k] == jobs[k];
    }
  }

  /** Ending the running attempt of a task and moving the task on. */
  lemma EndTryKeeps(b: Board, i: nat, at: nat, ended: TryStatus, j: Job, evidence: seq<Evidence>)
    requires BoardOk(b) && i < |b.jobs| && at < |b.tries| && b.tries[at].status == TryRunning
        && b.tries[at].task == b.jobs[i].id
    requires j.id == b.jobs[i].id && ended != TryRunning
    ensures BoardOk(Board(b.jobs[i := j], b.tries[at := b.tries[at].(status := ended)], evidence))
  {
    var tries := b.tries[at := b.tries[at].(status := ended)];
    forall k | 0 <= k < |tries| ensures TryFits(b.jobs[i := j], tries[k]) {
      if k != at {
        assert TryFits(b.jobs, b.tries[k]);
        assert b.tries[k].status == TryRunning ==> b.tries[k].task != b.tries[at].task;
        FitsStill(b.jobs, b.jobs[i := j], i, b.tries[k]);
      }
    }
  }

  lemma StartKeeps(book: Book, b: Board, i: nat, asked: PhaseId)
    requires BoardOk(b) && i < |b.jobs| && Start(book, b, i, asked).Some?
    ensures BoardOk(Start(book, b, i, asked).value)
  {
    var j := b.jobs[i];
    var after := Start(book, b, i, asked).value;
    forall k | 0 <= k < |b.tries| && b.tries[k].status == TryRunning ensures b.tries[k].task != j.id {
      if b.tries[k].task == j.id {
        TryOf(b, k, i);
      }
    }
    forall k | 0 <= k < |after.tries| ensures TryFits(after.jobs, after.tries[k]) {
      if k < |b.tries| {
        assert TryFits(b.jobs, b.tries[k]);
        FitsStill(b.jobs, after.jobs, i, b.tries[k]);
      } else {
        assert after.jobs[i].id == after.tries[k].task && after.jobs[i].current == after.tries[k].phase;
      }
    }
  }

  lemma JobChangeKeeps(b: Board, i: nat, j: Job)
    requires BoardOk(b) && i < |b.jobs| && j.id == b.jobs[i].id && j.current == b.jobs[i].current
    ensures BoardOk(WithJob(b, i, j))
  {
    forall k | 0 <= k < |b.tries| ensures TryFits(b.jobs[i := j], b.tries[k]) {
      assert TryFits(b.jobs, b.tries[k]);
      if b.tries[k].status == TryRunning {
        var x :| 0 <= x < |b.jobs| && b.jobs[x].id == b.tries[k].task && b.jobs[x].current == b.tries[k].phase
          && b.tries[k].phase != Unknown;
        assert b.jobs[i := j][x].id == b.tries[k].task && b.jobs[i := j][x].current == b.tries[k].phase;
      }
    }
  }

  lemma HaltKeeps(b: Board, reached: set<string>)
    requires BoardOk(b)
    ensures BoardOk(Halt(b, reached))
  {
    var after := Halt(b, reached);
    forall k | 0 <= k < |after.tries| ensures TryFits(after.jobs, after.tries[k]) {
      assert TryFits(b.jobs, b.tries[k]);
    }
  }

  lemma RaiseKeeps(b: Board, job: Job)
    requires BoardOk(b) && forall k | 0 <= k < |b.jobs| :: b.jobs[k].id != job.id
    ensures BoardOk(b.(jobs := b.jobs + [job]))
  {
    forall k | 0 <= k < |b.tries| ensures TryFits(b.jobs + [job], b.tries[k]) {
      assert TryFits(b.jobs, b.tries[k]);
      if b.tries[k].status == TryRunning {
        var x :| 0 <= x < |b.jobs| && b.jobs[x].id == b.tries[k].task && b.jobs[x].current == b.tries[k].phase
          && b.tries[k].phase != Unknown;
        assert (b.jobs + [job])[x] == b.jobs[x];
      }
    }
  }

  lemma CompleteKeeps(book: Book, b: Board, i: nat, asked: PhaseId, kind: string, verdict: Verdict)
    requires BoardOk(b) && i < |b.jobs| && Complete(book, b, i, asked, kind, verdict).Some?
    ensures BoardOk(Complete(book, b, i, asked, kind, verdict).value)
  {
    var phase := if asked == Unknown then CurrentPhase(b.jobs[i]) else asked;
    var after := Complete(book, b, i, asked, kind, verdict).value;
    EndTryKeeps(b, i, RunningTry(b.tries, b.jobs[i].id, phase), TryDone, after.jobs[i], after.evidence);
  }

  lemma FailKeeps(b: Board, i: nat, asked: PhaseId)
    requires BoardOk(b) && i < |b.jobs| && FailPhase(b, i, asked).Some?
    ensures BoardOk(FailPhase(b, i, asked).value)
  {
    var phase := if asked == Unknown then CurrentPhase(b.jobs[i]) else asked;
    var after := FailPhase(b, i, asked).value;
    EndTryKeeps(b, i, RunningTry(b.tries, b.jobs[i].id, phase), TryFailed, after.jobs[i], after.evidence);
  }

  lemma ToolKeeps(book: Book, b: Board, i: nat, phase: PhaseId, kind: string, verdict: Verdict)
    requires BoardOk(b) && i < |b.jobs| && ToolEvidence(book, b, i, phase, kind, verdict).Some?
    ensures BoardOk(ToolEvidence(book, b, i, phase, kind, verdict).value)
  {
    var recorded := b.(evidence := b.evidence + [Evidence(b.jobs[i].id, kind, verdict)]);
    assert BoardOk(recorded);
    if kind in book.phases[IndexOf(book.phases, phase)].required {
      if Passes(kind, verdict) {
        CompleteKeeps(book, b, i, phase, kind, verdict);
      } else {
        FailKeeps(recorded, i, phase);
      }
    }
  }

  lemma StepKeeps(book: Book, b: Board, e: Event)
    requires BoardOk(b) && Stepped(book, b, e).Some?
    ensures BoardOk(Stepped(book, b, e).value)
  {
    match e
    case Started(i, asked) => StartKeeps(book, b, i, asked);
    case Completed(i, asked, kind, verdict) => CompleteKeeps(book, b, i, asked, kind, verdict);
    case PhaseFailed(i, asked) => FailKeeps(b, i, asked);
    case ToolDone(i, phase, kind, verdict) => ToolKeeps(book, b, i, phase, kind, verdict);
    case AcceptanceSet(i, state, to) => JobChangeKeeps(b, i, b.jobs[i].(state := state, acceptance := to));
    case Decision(i, state, to) => JobChangeKeeps(b, i, b.jobs[i].(state := state, acceptance := to));
    case Halted(reached) => HaltKeeps(b, reached);
    case Raised(job) => RaiseKeeps(b, job);
  }

  /** The boards that any run of events, accepted or refused, leads to. */
  function After(book: Book, b: Board, events: seq<Event>): Board {
    if events == [] then b
    else
      var before := After(book, b, events[..|events|-1]);
      var next := Stepped(book, before, events[|events|-1]);
      if next.None? then before else next.value
  }

  const EMPTY_BOARD := Board([], [], [])

  lemma {:induction false} RunKeeps(book: Book, events: seq<Event>)
    ensures BoardOk(After(book, EMPTY_BOARD, events))
  {
    if events != [] {
      var n := |events| - 1;
      RunKeeps(book, events[..n]);
      var before := After(book, EMPTY_BOARD, events[..n]);
      if Stepped(book, before, events[n]).Some? {
        StepKeeps(book, before, events[n]);
      }
    }
  }

  /** Over every run, a running attempt is always for its task's current phase, so a task has
      at most one. */
  lemma RunningIsCurrent(book: Book, events: seq<Event>, i: nat, k: nat)
    requires var b := After(book, EMPTY_BOARD, events);
      i < |b.jobs| && k < |b.tries| && b.tries[k].status == TryRunning && b.tries[k].task == b.jobs[i].id
    ensures var b := After(book, EMPTY_BOARD, events);
      && b.jobs[i].current == b.tries[k].phase
      && (forall other | 0 <= other < |b.tries| && b.tries[other].status == TryRunning
           && b.tries[other].task == b.jobs[i].id :: other == k)
  {
    RunKeeps(book, events);
    TryOf(After(book, EMPTY_BOARD, events), k, i);
  }

  // ---------------------------------------------------------------- the way to acceptance

  /** Every phase that leads to acceptance is final validation, or the artifact that completes
      it is all the rules ask for. */
  ghost predicate Gated(book: Book) {
    forall phase, kind, rule |
      phase != FinalValidation && NextPhase(book, phase) == Some(ReadyForAcceptance) && Accepts(book, phase, kind)
      && rule in book.rules && !Blank(rule) :: rule == kind
  }

  ghost predicate Enters(b: Board, after: Board, i: nat) {
    && i < |b.jobs| && i < |after.jobs| && after.jobs[i].acceptance in {ReadyForReview, UnderReview}
    && b.jobs[i].acceptance != after.jobs[i].acceptance
  }

  /** If the event brings a task to acceptance, all its evidence is there. */
  ghost predicate SafeEntry(book: Book, b: Board, e: Event, i: nat) {
    BoardOk(b) && Stepped(book, b, e).Some? && Enters(b, Stepped(book, b, e).value, i) ==>
      FullyEvidenced(book, Stepped(book, b, e).value.evidence, b.jobs[i].id)
  }

  lemma CompleteEvidenced(book: Book, b: Board, i: nat, asked: PhaseId, kind: string, verdict: Verdict)
    requires Gated(book) && i < |b.jobs| && Complete(book, b, i, asked, kind, verdict).Some?
    requires Enters(b, Complete(book, b, i, asked, kind, verdict).value, i)
    ensures FullyEvidenced(book, Complete(book, b, i, asked, kind, verdict).value.evidence, b.jobs[i].id)
  {
    var j := b.jobs[i];
    var phase := if asked == Unknown then CurrentPhase(j) else asked;
    var after := Complete(book, b, i, asked, kind, verdict).value;
    var extra := if kind == "" then None else Some((kind, verdict));
    NothingMissing(b.evidence, j.id, book.rules, extra);
    forall rule | rule in book.rules && !Blank(rule) ensures Present(after.evidence, j.id, rule) {
      assert phase == FinalValidation ==> Provided(b.evidence, j.id, rule, extra);
      if phase == FinalValidation && Present(b.evidence, j.id, rule) {
        var e :| e in b.evidence && e.task == j.id && e.kind == rule && Passes(rule, e.verdict);
        assert e in after.evidence;
      } else {
        assert kind == rule && Evidence(j.id, kind, verdict) in after.evidence;
      }
    }
  }

  lemma EntryIsSafe(book: Book, b: Board, e: Event, i: nat)
    requires Gated(book)
    ensures SafeEntry(book, b, e, i)
  {
    if BoardOk(b) && Stepped(book, b, e).Some? && Enters(b, Stepped(book, b, e).value, i) {
      match e
      case Completed(k, asked, kind, verdict) => CompleteEvidenced(book, b, k, asked, kind, verdict);
      case ToolDone(k, phase, kind, verdict) => CompleteEvidenced(book, b, k, phase, kind, verdict);
      case AcceptanceSet(k, state, to) =>
        NothingMissing(b.evidence, b.jobs[k].id, book.rules, None);
        assert forall kind | kind in book.rules :: Provided(b.evidence, b.jobs[k].id, kind, None);
      case _ =>
    }
  }

  /** A phase that leads to acceptance past the rules, and a task that takes it. */
  lemma UngatedEntry(book: Book, phase: PhaseId, kind: string, rule: string) returns (b: Board, e: Event)
    requires phase != FinalValidation && NextPhase(book, phase) == Some(ReadyForAcceptance)
        && Accepts(book, phase, kind)
    requires rule in book.rules && !Blank(rule) && rule != kind
    ensures !SafeEntry(book, b, e, 0)
  {
    var job := Job("t", TaskState.Running, phase, NotReady, false);
    b := Board([job], [Try("t", phase, TryRunning)], []);
    e := Event.Completed(0, phase, kind, Pass);
    assert TryFits(b.jobs, b.tries[0]) by { assert b.jobs[0].id == b.tries[0].task; }
    assert BoardOk(b);
    assert b.tries[|b.tries|-1] == Try("t", phase, TryRunning);
    var after := Stepped(book, b, e).value;
    assert !Present(after.evidence, "t", rule);
  }

  /** A task becomes ready for acceptance, or under review, only with passing evidence for
      every completion rule exactly when the runbook is gated. */
  lemma GatedExactly(book: Book)
    ensures Gated(book) <==> forall b, e, i: nat :: SafeEntry(book, b, e, i)
  {
    if Gated(book) {
      forall b, e, i: nat ensures SafeEntry(book, b, e, i) {
        EntryIsSafe(book, b, e, i);
      }
    } else {
      var phase, kind, rule :| phase != FinalValidation && NextPhase(book, phase) == Some(ReadyForAcceptance)
        && Accepts(book, phase, kind)
        && rule in book.rules && !Blank(rule) && rule != kind;
      var b, e := UngatedEntry(book, phase, kind, rule);
      assert !SafeEntry(book, b, e, 0);
    }
  }

  // ---------------------------------------------------------------- the two runbooks

  const CODE_BOOK := Book(
    [PhaseSpec(Plan, ["plan"]), PhaseSpec(Implement, ["diff_summary"]), PhaseSpec(Test, ["test_result"]),
     PhaseSpec(Review, ["review_result"]), PhaseSpec(FixOrReplan, ["diff_summary"]),
         PhaseSpec(FinalValidation, ["completion_check"])],
    ["plan", "diff_summary", "test_result", "review_result", "completion_check"])

  const DOCS_BOOK := Book(
    [PhaseSpec(Plan, ["plan"]), PhaseSpec(Write, ["doc_summary"]), PhaseSpec(Review, ["review_result"]),
     PhaseSpec(FixOrReplan, ["doc_summary"]), PhaseSpec(FinalValidation, ["completion_check"])],
    ["plan", "doc_summary", "review_result", "completion_check"])

  /** Where a book leads to acceptance from: only from its last phase, for the built-in books
      final validation. */
  lemma LastPhaseOnly(book: Book, phase: PhaseId)
    requires DistinctPhases(book) && |book.phases| > 0 && book.phases[|book.phases|-1].id == FinalValidation
    requires forall k | 0 <= k < |book.phases| :: book.phases[k].id != ReadyForAcceptance
    ensures NextPhase(book, phase) == Some(ReadyForAcceptance) ==> phase == FinalValidation
  {
    var n := |book.phases| - 1;
    PhaseAt(book, n);
    if NextPhase(book, phase).Some? && phase != FixOrReplan && phase != FinalValidation {
      var i := IndexOf(book.phases, phase);
      assert i < n;
      ReachesLast(book.phases, i + 1, n);
    }
  }

  lemma {:induction false} ReachesLast(phases: seq<PhaseSpec>, i: nat, n: nat)
    requires i <= n < |phases| && phases[n].id == FinalValidation
    requires forall k | 0 <= k < |phases| :: phases[k].id != ReadyForAcceptance
    ensures NextFrom(phases, i) != ReadyForAcceptance
    decreases n - i
  {
    if phases[i].id in {Unknown, FixOrReplan} {
      ReachesLast(phases, i + 1, n);
    }
  }

  lemma EndsInValidation(book: Book)
    requires DistinctPhases(book) && |book.phases| > 0 && book.phases[|book.phases|-1].id == FinalValidation
    requires forall k | 0 <= k < |book.phases| :: book.phases[k].id != ReadyForAcceptance
    ensures Gated(book)
  {
    forall phase | NextPhase(book, phase) == Some(ReadyForAcceptance) ensures phase == FinalValidation {
      LastPhaseOnly(book, phase);
    }
  }

  /** The built-in runbooks are gated, and their chains end. */
  lemma BuiltInBooks(book: Book)
    requires book == CODE_BOOK || book == DOCS_BOOK
    ensures Gated(book) && DistinctPhases(book)
  {
    if book == CODE_BOOK {
      assert DistinctPhases(CODE_BOOK);
    } else {
      assert DistinctPhases(DOCS_BOOK);
    }
    EndsInValidation(book);
  }
}
