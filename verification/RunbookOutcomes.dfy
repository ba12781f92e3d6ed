/** What the runbook engine takes as evidence, what each of its operations does to a task, and
    what a task that waits for acceptance has to show, spelled out. */
module RunbookOutcomes {
  import opened Basics
  import opened ProjectState
  import opened Runbook
  import opened RunbookGate

  // ---------------------------------------------------------------- evidence

  /** Test, review and completion evidence has passed; any other has at least not failed. */
  predicate Good(kind: string, verdict: Verdict) {
    verdict == Pass
    || (verdict == Record && kind != "test_result" && kind != "review_result" && kind != "completion_check")
  }

  ghost predicate Shown(evidence: seq<Evidence>, task: string, kind: string) {
    exists e :: e in evidence && e.task == task && e.kind == kind && Good(kind, e.verdict)
  }

  lemma PassesIsGood(kind: string, verdict: Verdict)
    ensures Passes(kind, verdict) <==> Good(kind, verdict)
  {
  }

  lemma PresentIsShown(evidence: seq<Evidence>, task: string, kind: string)
    ensures Present(evidence, task, kind) <==> Shown(evidence, task, kind)
  {
  }

  ghost predicate AllShown(book: Book, evidence: seq<Evidence>, task: string) {
    forall rule | rule in book.rules && !Blank(rule) :: Shown(evidence, task, rule)
  }

  ghost predicate WaitsForAcceptance(j: Job) {
    j.acceptance == ReadyForReview || j.acceptance == UnderReview
  }

  /** No event takes evidence away. */
  lemma EvidenceStays(book: Book, b: Board, e: Event)
    requires Stepped(book, b, e).Some?
    ensures b.evidence <= Stepped(book, b, e).value.evidence
  {
  }

  lemma JobsStay(book: Book, b: Board, e: Event, i: nat)
    requires Stepped(book, b, e).Some? && i < |Stepped(book, b, e).value.jobs|
    ensures var j := Stepped(book, b, e).value.jobs[i];
      if i < |b.jobs| then j.id == b.jobs[i].id else j.acceptance == Acceptance.NotReady
  {
  }

  lemma StillShown(book: Book, evidence: seq<Evidence>, after: seq<Evidence>, task: string)
    requires AllShown(book, evidence, task) && evidence <= after
    ensures AllShown(book, after, task)
  {
    forall rule | rule in book.rules && !Blank(rule) ensures Shown(after, task, rule) {
      var e :| e in evidence && e.task == task && e.kind == rule && Good(rule, e.verdict);
      assert e in after;
    }
  }

  lemma FullyIsAllShown(book: Book, evidence: seq<Evidence>, task: string)
    ensures FullyEvidenced(book, evidence, task) <==> AllShown(book, evidence, task)
  {
    forall rule {
      PresentIsShown(evidence, task, rule);
    }
  }

  lemma WaitingStep(book: Book, b: Board, e: Event, i: nat)
    requires SafeEntry(book, b, e, i) && BoardOk(b) && Stepped(book, b, e).Some?
    requires i < |b.jobs| && WaitsForAcceptance(b.jobs[i]) ==> AllShown(book, b.evidence, b.jobs[i].id)
    ensures var after := Stepped(book, b, e).value;
      i < |after.jobs| && WaitsForAcceptance(after.jobs[i]) ==> AllShown(book, after.evidence, after.jobs[i].id)
  {
    var after := Stepped(book, b, e).value;
    if i < |after.jobs| && WaitsForAcceptance(after.jobs[i]) {
      JobsStay(book, b, e, i);
      EvidenceStays(book, b, e);
      if b.jobs[i].acceptance == after.jobs[i].acceptance {
        StillShown(book, b.evidence, after.evidence, b.jobs[i].id);
      } else {
        FullyIsAllShown(book, after.evidence, b.jobs[i].id);
      }
    }
  }

  /** At every moment of every run under a gated book, a task that is ready for acceptance or
      under review has good evidence for every completion rule. So it has when tasks are created
      in the planning phase and the book is gated from there. */
  lemma {:induction false} WaitingIsShown(book: Book, events: seq<Event>, i: nat)
    requires Gated(book) || (GatedFromPlan(book) && AllPlanned(events))
    ensures var b := After(book, EMPTY_BOARD, events);
      i < |b.jobs| && WaitsForAcceptance(b.jobs[i]) ==> AllShown(book, b.evidence, b.jobs[i].id)
  {
    if events != [] {
      var n := |events| - 1;
      var before := After(book, EMPTY_BOARD, events[..n]);
      WaitingIsShown(book, events[..n], i);
      RunKeeps(book, events[..n]);
      if Gated(book) {
        EntryIsSafe(book, before, events[n], i);
      } else {
        assert events[..n] + [events[n]] == events;
        PlannedEntry(book, events[..n], events[n], i);
      }
      if Stepped(book, before, events[n]).Some? {
        WaitingStep(book, before, events[n], i);
      }
    }
  }

  ghost predicate Found(evidence: seq<Evidence>, task: string, kind: string, verdict: Verdict) {
    Evidence(task, kind, verdict) in evidence
  }

  /** Under the two built-in runbooks: what a task that waits for acceptance has. */
  lemma CodeTaskIsTested(events: seq<Event>, i: nat)
    requires var b := After(CODE_BOOK, EMPTY_BOARD, events);
      i < |b.jobs| && (b.jobs[i].acceptance == ReadyForReview || b.jobs[i].acceptance == UnderReview)
    ensures var b := After(CODE_BOOK, EMPTY_BOARD, events);
      var t := b.jobs[i].id;
      && Found(b.evidence, t, "test_result", Pass) && Found(b.evidence, t, "review_result", Pass)
      && Found(b.evidence, t, "completion_check", Pass)
      && (Found(b.evidence, t, "plan", Pass) || Found(b.evidence, t, "plan", Record))
      && (Found(b.evidence, t, "diff_summary", Pass) || Found(b.evidence, t, "diff_summary", Record))
  {
    var b := After(CODE_BOOK, EMPTY_BOARD, events);
    var t := b.jobs[i].id;
    BuiltInBooks(CODE_BOOK);
    WaitingIsShown(CODE_BOOK, events, i);
    ShownIsFound(CODE_BOOK, b.evidence, t, 0, "plan");
    ShownIsFound(CODE_BOOK, b.evidence, t, 1, "diff_summary");
    ShownIsFound(CODE_BOOK, b.evidence, t, 2, "test_result");
    ShownIsFound(CODE_BOOK, b.evidence, t, 3, "review_result");
    ShownIsFound(CODE_BOOK, b.evidence, t, 4, "completion_check");
  }

  lemma DocsTaskIsReviewed(events: seq<Event>, i: nat)
    requires var b := After(DOCS_BOOK, EMPTY_BOARD, events);
      i < |b.jobs| && (b.jobs[i].acceptance == ReadyForReview || b.jobs[i].acceptance == UnderReview)
    ensures var b := After(DOCS_BOOK, EMPTY_BOARD, events);
      var t := b.jobs[i].id;
      && Found(b.evidence, t, "review_result", Pass) && Found(b.evidence, t, "completion_check", Pass)
      && (Found(b.evidence, t, "plan", Pass) || Found(b.evidence, t, "plan", Record))
      && (Found(b.evidence, t, "doc_summary", Pass) || Found(b.evidence, t, "doc_summary", Record))
  {
    var b := After(DOCS_BOOK, EMPTY_BOARD, events);
    var t := b.jobs[i].id;
    BuiltInBooks(DOCS_BOOK);
    WaitingIsShown(DOCS_BOOK, events, i);
    ShownIsFound(DOCS_BOOK, b.evidence, t, 0, "plan");
    ShownIsFound(DOCS_BOOK, b.evidence, t, 1, "doc_summary");
    ShownIsFound(DOCS_BOOK, b.evidence, t, 2, "review_result");
    ShownIsFound(DOCS_BOOK, b.evidence, t, 3, "completion_check");
  }

  lemma ShownIsFound(book: Book, evidence: seq<Evidence>, task: string, r: nat, rule: string)
    requires AllShown(book, evidence, task) && r < |book.rules| && book.rules[r] == rule
    requires |rule| > 0 && 'a' <= rule[0] <= 'z'
    ensures Found(evidence, task, rule, Pass) || (Found(evidence, task, rule, Record) && Good(rule, Record))
  {
    assert rule in book.rules && !Blank(rule);
    var e :| e in evidence && e.task == task && e.kind == rule && Good(rule, e.verdict);
    assert e == Evidence(task, rule, e.verdict);
  }

  // ---------------------------------------------------------------- where a task stands

  /** The phase an operation is about: the one asked for, the task's own, or the one that its
      state suggests. */
  predicate AtPhase(j: Job, asked: PhaseId, phase: PhaseId) {
    if asked != Unknown then phase == asked
    else if j.current != Unknown then phase == j.current
    else
      && (phase == Plan <==> j.state == Planned || j.state == Queued)
      && (phase == Review <==> j.state == WaitingReview)
      && (phase == FixOrReplan <==> j.state == Blocked || j.state == Failed)
      && (phase == ReadyForAcceptance <==> j.state == ExecutionComplete || j.state == Archived)
      && (phase == Implement <==> j.state == TaskState.Running || j.state == WaitingHuman || j.state == Cancelled)
      && phase != Unknown && phase != Write && phase != Test && phase != FinalValidation
  }

  /** The first phase of the book with the id. */
  ghost predicate SpecAt(book: Book, phase: PhaseId, k: nat) {
    k < |book.phases| && book.phases[k].id == phase && forall m | 0 <= m < k :: book.phases[m].id != phase
  }

  ghost predicate InBook(book: Book, phase: PhaseId) {
    exists k :: 0 <= k < |book.phases| && book.phases[k].id == phase
  }

  predicate Regular(spec: PhaseSpec) {
    spec.id != Unknown && spec.id != FixOrReplan
  }

  /** The first regular phase from position i on, or acceptance after the last. */
  ghost predicate RegularFrom(phases: seq<PhaseSpec>, i: nat, next: PhaseId) {
    || (next == ReadyForAcceptance && forall k | i <= k < |phases| :: !Regular(phases[k]))
    || (exists k :: i <= k < |phases| && Regular(phases[k]) && phases[k].id == next
                      && forall m | i <= m < k :: !Regular(phases[m]))
  }

  /** Recovery goes back to the tests, or else to review, or else to final validation; any other
      phase goes on to the next regular one. */
  ghost predicate FollowsTo(book: Book, phase: PhaseId, next: PhaseId) {
    && phase != Unknown && phase != ReadyForAcceptance
    && if phase == FixOrReplan && InBook(book, Test) then next == Test
       else if phase == FixOrReplan && InBook(book, Review) then next == Review
       else if phase == FixOrReplan && InBook(book, FinalValidation) then next == FinalValidation
       else exists k: nat :: SpecAt(book, phase, k) && RegularFrom(book.phases, k + 1, next)
  }

  lemma CurrentIsAt(j: Job, asked: PhaseId, phase: PhaseId)
    ensures phase == (if asked == Unknown then CurrentPhase(j) else asked) <==> AtPhase(j, asked, phase)
  {
  }

  lemma {:induction false} NextIsRegular(phases: seq<PhaseSpec>, i: nat, next: PhaseId)
    ensures NextFrom(phases, i) == next <==> RegularFrom(phases, i, next)
    decreases |phases| - i
  {
    if i < |phases| && !Regular(phases[i]) {
      NextIsRegular(phases, i + 1, next);
    }
  }

  lemma SpecIsIndex(book: Book, phase: PhaseId, k: nat)
    ensures SpecAt(book, phase, k) <==> k == IndexOf(book.phases, phase) && HasPhase(book, phase)
    ensures InBook(book, phase) <==> HasPhase(book, phase)
  {
  }

  lemma NextAfterIs(book: Book, phase: PhaseId, next: PhaseId)
    ensures HasPhase(book, phase) && NextFrom(book.phases, IndexOf(book.phases, phase) + 1) == next <==>
            exists k: nat :: SpecAt(book, phase, k) && RegularFrom(book.phases, k + 1, next)
  {
    var at := IndexOf(book.phases, phase);
    SpecIsIndex(book, phase, at);
    NextIsRegular(book.phases, at + 1, next);
    forall k: nat | SpecAt(book, phase, k) ensures k == at {
      SpecIsIndex(book, phase, k);
    }
  }

  lemma NextIsFollowing(book: Book, phase: PhaseId, next: PhaseId)
    ensures NextPhase(book, phase) == Some(next) <==> FollowsTo(book, phase, next)
  {
    SpecIsIndex(book, Test, 0);
    SpecIsIndex(book, Review, 0);
    SpecIsIndex(book, FinalValidation, 0);
    NextAfterIs(book, phase, next);
  }

  /** The last running attempt of the task in the phase. */
  ghost predicate RunsAt(tries: seq<Try>, task: string, phase: PhaseId, at: nat) {
    && at < |tries| && tries[at] == Try(task, phase, TryRunning)
    && forall k | at < k < |tries| :: tries[k] != Try(task, phase, TryRunning)
  }

  lemma {:induction false} NoneLater(tries: seq<Try>, task: string, phase: PhaseId)
    ensures forall k | RunningTry(tries, task, phase) < k < |tries| :: tries[k] != Try(task, phase, TryRunning)
  {
    if tries != [] && tries[|tries|-1] != Try(task, phase, TryRunning) {
      var n := |tries| - 1;
      NoneLater(tries[..n], task, phase);
      forall k | RunningTry(tries, task, phase) < k < n ensures tries[k] != Try(task, phase, TryRunning) {
        assert tries[k] == tries[..n][k];
      }
    }
  }

  lemma RunningIsLast(tries: seq<Try>, task: string, phase: PhaseId, at: nat)
    ensures RunsAt(tries, task, phase, at) <==> at == RunningTry(tries, task, phase) < |tries|
  {
    NoneLater(tries, task, phase);
  }

  // ---------------------------------------------------------------- the operations

  /** Nobody else works in the phase, the task is in it, and it is a phase to be worked in. */
  ghost predicate MayStart(book: Book, b: Board, i: nat, asked: PhaseId, phase: PhaseId)
    requires i < |b.jobs|
  {
    var j := b.jobs[i];
    && AtPhase(j, asked, phase) && AtPhase(j, Unknown, phase) && phase != Unknown && phase != ReadyForAcceptance
    && InBook(book, phase) && j.state != Archived && j.acceptance != AcceptedByHuman
    && forall k | 0 <= k < |b.tries| :: b.tries[k] != Try(j.id, phase, TryRunning)
  }

  /** A task in a phase waits for review in review, and is running in any other. */
  predicate StandsIn(j: Job, phase: PhaseId, now: Job) {
    && now == j.(current := phase, state := now.state, acceptance := now.acceptance)
    && now.state == (if phase == Review then WaitingReview else TaskState.Running)
  }

  lemma StartMeans(book: Book, b: Board, i: nat, asked: PhaseId)
    requires i < |b.jobs|
    ensures match Start(book, b, i, asked)
      case None => forall phase :: !MayStart(book, b, i, asked, phase)
      case Some(after) => exists phase ::
        && MayStart(book, b, i, asked, phase) && after == b.(jobs := after.jobs, tries := after.tries)
        && after.tries == b.tries + [Try(b.jobs[i].id, phase, TryRunning)]
        && |after.jobs| == |b.jobs| && after.jobs == b.jobs[i := after.jobs[i]]
        && StandsIn(b.jobs[i], phase, after.jobs[i]) && after.jobs[i].acceptance == Acceptance.NotReady
  {
    var phase := if asked == Unknown then CurrentPhase(b.jobs[i]) else asked;
    SpecIsIndex(book, phase, 0);
    assert RunningTry(b.tries, b.jobs[i].id, phase) < |b.tries| <==>
      exists k :: 0 <= k < |b.tries| && b.tries[k] == Try(b.jobs[i].id, phase, TryRunning);
    assert AtPhase(b.jobs[i], asked, phase);
    assert MayStart(book, b, i, asked, phase) <==> Start(book, b, i, asked).Some?;
  }

  ghost predicate AsksFor(book: Book, phase: PhaseId, kind: string) {
    exists k: nat :: SpecAt(book, phase, k)
      && (book.phases[k].required == [] || (kind != "" && kind in book.phases[k].required))
  }

  lemma AcceptsIsAsked(book: Book, phase: PhaseId, kind: string)
    ensures Accepts(book, phase, kind) <==> AsksFor(book, phase, kind)
  {
    SpecIsIndex(book, phase, IndexOf(book.phases, phase));
    forall k: nat | SpecAt(book, phase, k) ensures k == IndexOf(book.phases, phase) {
      SpecIsIndex(book, phase, k);
    }
  }

  /** Final validation finds every rule shown, the artifact of its own included. */
  ghost predicate RulesMet(book: Book, b: Board, task: string, phase: PhaseId, kind: string) {
    phase == FinalValidation ==>
      forall rule | rule in book.rules && !Blank(rule) :: Shown(b.evidence, task, rule) || rule == kind
  }

  /** The phase runs, its artifact is one it asks for and is good, final validation finds every
      rule shown, and there is a phase to go on to. */
  ghost predicate MayComplete(book: Book, b: Board, i: nat, asked: PhaseId, kind: string, verdict: Verdict,
                              phase: PhaseId, at: nat, next: PhaseId)
    requires i < |b.jobs|
  {
    && AtPhase(b.jobs[i], asked, phase) && RunsAt(b.tries, b.jobs[i].id, phase, at)
    && AsksFor(book, phase, kind) && (kind != "" ==> Good(kind, verdict))
    && RulesMet(book, b, b.jobs[i].id, phase, kind) && FollowsTo(book, phase, next)
  }

  /** The attempt is done, the artifact recorded, and the task in the next phase, or complete and
      ready for acceptance. */
  predicate CompletedTo(b: Board, i: nat, kind: string, verdict: Verdict, at: nat, next: PhaseId, after: Board) {
    && i < |b.jobs| == |after.jobs| && at < |b.tries| == |after.tries|
    && after.jobs == b.jobs[i := after.jobs[i]] && after.tries == b.tries[at := b.tries[at].(status := TryDone)]
    && after.evidence == b.evidence + (if kind == "" then [] else [Evidence(b.jobs[i].id, kind, verdict)])
    && if next == ReadyForAcceptance
       then after.jobs[i] == b.jobs[i].(state := ExecutionComplete, acceptance := ReadyForReview, current := next)
       else StandsIn(b.jobs[i], next, after.jobs[i]) && after.jobs[i].acceptance == b.jobs[i].acceptance
  }

  lemma RulesAreShown(book: Book, b: Board, task: string, kind: string, verdict: Verdict)
    requires kind != "" ==> Good(kind, verdict)
    ensures MissingKinds(b.evidence, task, book.rules, if kind == "" then None else Some((kind, verdict))) == [] <==>
            forall rule | rule in book.rules && !Blank(rule) :: Shown(b.evidence, task, rule) || rule == kind
  {
    var extra := if kind == "" then None else Some((kind, verdict));
    NothingMissing(b.evidence, task, book.rules, extra);
    assert Blank("");
    forall rule
      ensures Provided(b.evidence, task, rule, extra) <==>
              Blank(rule) || Shown(b.evidence, task, rule) || rule == kind
    {
      PresentIsShown(b.evidence, task, rule);
    }
  }

  ghost predicate Passable(book: Book, b: Board, task: string, phase: PhaseId, kind: string, verdict: Verdict) {
    && Accepts(book, phase, kind) && (kind != "" ==> Passes(kind, verdict))
    && (phase == FinalValidation ==>
         MissingKinds(b.evidence, task, book.rules, if kind == "" then None else Some((kind, verdict))) == [])
  }

  lemma PassableIs(book: Book, b: Board, task: string, phase: PhaseId, kind: string, verdict: Verdict)
    ensures Passable(book, b, task, phase, kind, verdict) <==>
      AsksFor(book, phase, kind) && (kind != "" ==> Good(kind, verdict)) && RulesMet(book, b, task, phase, kind)
  {
    AcceptsIsAsked(book, phase, kind);
    PassesIsGood(kind, verdict);
    if kind != "" ==> Good(kind, verdict) {
      RulesAreShown(book, b, task, kind, verdict);
    }
  }

  lemma MayIsPassable(book: Book, b: Board, i: nat, asked: PhaseId, kind: string, verdict: Verdict, phase: PhaseId,
                      at: nat, next: PhaseId)
    requires i < |b.jobs|
    ensures MayComplete(book, b, i, asked, kind, verdict, phase, at, next) <==>
      && phase == (if asked == Unknown then CurrentPhase(b.jobs[i]) else asked)
      && at == RunningTry(b.tries, b.jobs[i].id, phase) < |b.tries|
      && Passable(book, b, b.jobs[i].id, phase, kind, verdict) && NextPhase(book, phase) == Some(next)
  {
    CurrentIsAt(b.jobs[i], asked, phase);
    RunningIsLast(b.tries, b.jobs[i].id, phase, at);
    PassableIs(book, b, b.jobs[i].id, phase, kind, verdict);
    NextIsFollowing(book, phase, next);
  }

  /** A phase is completed exactly when it may be, and then moves the task on. */
  lemma CompleteMeans(book: Book, b: Board, i: nat, asked: PhaseId, kind: string, verdict: Verdict)
    requires i < |b.jobs|
    ensures match Complete(book, b, i, asked, kind, verdict)
      case None => forall phase, at: nat, next :: !MayComplete(book, b, i, asked, kind, verdict, phase, at, next)
      case Some(after) => exists phase, at: nat, next ::
        MayComplete(book, b, i, asked, kind, verdict, phase, at, next)
          && CompletedTo(b, i, kind, verdict, at, next, after)
  {
    var phase := if asked == Unknown then CurrentPhase(b.jobs[i]) else asked;
    var at := RunningTry(b.tries, b.jobs[i].id, phase);
    forall other, x: nat, next {
      MayIsPassable(book, b, i, asked, kind, verdict, other, x, next);
    }
    if Complete(book, b, i, asked, kind, verdict).Some? {
      var next := NextPhase(book, phase).value;
      assert MayComplete(book, b, i, asked, kind, verdict, phase, at, next);
      assert CompletedTo(b, i, kind, verdict, at, next, Complete(book, b, i, asked, kind, verdict).value);
    }
  }

  /** The attempt has failed, and the task goes to recovery. */
  predicate FailedTo(b: Board, i: nat, at: nat, after: Board) {
    && i < |b.jobs| && at < |b.tries| && after.evidence == b.evidence
    && after.jobs == b.jobs[i := b.jobs[i].(state := Failed, current := FixOrReplan,
                                            acceptance := Acceptance.NotReady)]
    && after.tries == b.tries[at := b.tries[at].(status := TryFailed)]
  }

  ghost predicate MayFail(b: Board, i: nat, asked: PhaseId, phase: PhaseId, at: nat)
    requires i < |b.jobs|
  {
    AtPhase(b.jobs[i], asked, phase) && RunsAt(b.tries, b.jobs[i].id, phase, at)
  }

  lemma FailMeans(b: Board, i: nat, asked: PhaseId)
    requires i < |b.jobs|
    ensures match FailPhase(b, i, asked)
      case None => forall phase, at: nat :: !MayFail(b, i, asked, phase, at)
      case Some(after) => exists phase, at: nat :: MayFail(b, i, asked, phase, at) && FailedTo(b, i, at, after)
  {
    var phase := if asked == Unknown then CurrentPhase(b.jobs[i]) else asked;
    var at := RunningTry(b.tries, b.jobs[i].id, phase);
    forall other, x: nat
      ensures MayFail(b, i, asked, other, x) <==> other == phase && x == at < |b.tries|
    {
      CurrentIsAt(b.jobs[i], asked, other);
      RunningIsLast(b.tries, b.jobs[i].id, other, x);
    }
    if at < |b.tries| {
      assert MayFail(b, i, asked, phase, at);
    }
  }

  /** The artifact belongs to what the phase asks for. */
  ghost predicate Requires(book: Book, phase: PhaseId, kind: string) {
    exists k: nat :: SpecAt(book, phase, k) && kind in book.phases[k].required
  }

  lemma RequiresIs(book: Book, phase: PhaseId, kind: string)
    requires HasPhase(book, phase)
    ensures Requires(book, phase, kind) <==> kind in book.phases[IndexOf(book.phases, phase)].required
  {
    SpecIsIndex(book, phase, IndexOf(book.phases, phase));
    forall k: nat | SpecAt(book, phase, k) ensures k == IndexOf(book.phases, phase) {
      SpecIsIndex(book, phase, k);
    }
  }

  lemma FailsAsked(b: Board, i: nat, phase: PhaseId)
    requires i < |b.jobs| && phase != Unknown && RunningTry(b.tries, b.jobs[i].id, phase) < |b.tries|
    ensures FailPhase(b, i, phase).Some?
    ensures exists at: nat ::
        RunsAt(b.tries, b.jobs[i].id, phase, at) && FailedTo(b, i, at, FailPhase(b, i, phase).value)
  {
    RunningIsLast(b.tries, b.jobs[i].id, phase, RunningTry(b.tries, b.jobs[i].id, phase));
  }

  lemma RunningIsThere(tries: seq<Try>, task: string, phase: PhaseId)
    ensures RunningTry(tries, task, phase) < |tries| <==> Try(task, phase, TryRunning) in tries
  {
  }

  /** What a tool found, while its phase runs: an artifact that the phase asks for completes the
      phase when it is good and fails it when it is not; any other is only recorded. */
  lemma ToolMeans(book: Book, b: Board, i: nat, phase: PhaseId, kind: string, verdict: Verdict)
    requires i < |b.jobs| && phase != Unknown
    ensures var id := b.jobs[i].id;
      var r := ToolEvidence(book, b, i, phase, kind, verdict);
      var recorded := b.(evidence := b.evidence + [Evidence(id, kind, verdict)]);
      if !InBook(book, phase) || kind == "" || Try(id, phase, TryRunning) !in b.tries then r == None
      else if !Requires(book, phase, kind) then r == Some(recorded)
      else if Good(kind, verdict) then r == Complete(book, b, i, phase, kind, verdict)
      else exists at: nat :: RunsAt(b.tries, id, phase, at) && r.Some? && FailedTo(recorded, i, at, r.value)
  {
    var id := b.jobs[i].id;
    SpecIsIndex(book, phase, 0);
    RunningIsThere(b.tries, id, phase);
    PassesIsGood(kind, verdict);
    if HasPhase(book, phase) {
      RequiresIs(book, phase, kind);
      if RunningTry(b.tries, id, phase) < |b.tries| {
        FailsAsked(b.(evidence := b.evidence + [Evidence(id, kind, verdict)]), i, phase);
      }
    }
  }

  /** A direct change of the acceptance status: forward one step at a time, for complete work with
      every rule shown; back to "not ready" from everything but a human acceptance. */
  lemma AcceptanceMeans(book: Book, b: Board, i: nat, state: TaskState, to: Acceptance)
    requires i < |b.jobs|
    ensures var j := b.jobs[i];
      var forward := (j.acceptance == Acceptance.NotReady && to == ReadyForReview)
                     || (j.acceptance == ReadyForReview && to == UnderReview);
      var back := to == Acceptance.NotReady && j.acceptance != AcceptedByHuman;
      SetAcceptance(book, b, i, state, to) ==
      if to == j.acceptance || back || (forward && state == ExecutionComplete && AllShown(book, b.evidence, j.id))
      then Some(b.(jobs := b.jobs[i := j.(state := state, acceptance := to)])) else None
  {
    RulesAreShown(book, b, b.jobs[i].id, "", Pass);
    assert AllShown(book, b.evidence, b.jobs[i].id) <==>
      forall rule | rule in book.rules && !Blank(rule) ::
        Shown(b.evidence, b.jobs[i].id, rule) || rule == "" by { assert Blank(""); }
  }

  /** A pause or a stop fails the running attempts of the tasks it reaches; nothing else changes. */
  lemma HaltMeans(b: Board, reached: set<string>)
    ensures var after := Halt(b, reached);
      && after == b.(tries := after.tries) && |after.tries| == |b.tries|
      && forall k | 0 <= k < |b.tries| ::
           after.tries[k] == if b.tries[k].task in reached && b.tries[k].status == TryRunning
                             then b.tries[k].(status := TryFailed) else b.tries[k]
  {
  }

  // ---------------------------------------------------------------- what a tool run sets off

  /** The first tool that makes what the phase asks for first, and is made for the phase. */
  ghost predicate ToolFor(tools: seq<ToolDef>, spec: PhaseSpec, t: nat) {
    && t < |tools| && |spec.required| > 0
    && tools[t].kind == spec.required[0] && spec.id in tools[t].phases
    && forall u | 0 <= u < t :: !(tools[u].kind == spec.required[0] && spec.id in tools[u].phases)
  }

  lemma {:induction false} ToolIsFirst(tools: seq<ToolDef>, spec: PhaseSpec)
    ensures match ToolForPhase(tools, spec)
      case None => forall t: nat :: !ToolFor(tools, spec, t)
      case Some(tool) => exists t: nat :: ToolFor(tools, spec, t) && tools[t] == tool
  {
    if tools != [] && spec.required != [] {
      if tools[0].kind == spec.required[0] && spec.id in tools[0].phases {
        assert ToolFor(tools, spec, 0);
      } else {
        ToolIsFirst(tools[1..], spec);
        forall t: nat ensures ToolFor(tools, spec, t) <==> t > 0 && ToolFor(tools[1..], spec, t - 1) {
          if t > 0 && t < |tools| {
            assert tools[t] == tools[1..][t-1];
            assert forall u | 0 < u < t :: tools[u] == tools[1..][u-1];
            assert forall u | 0 <= u < t - 1 :: tools[1..][u] == tools[u+1];
          }
        }
        if ToolForPhase(tools, spec).Some? {
          var t: nat :| ToolFor(tools[1..], spec, t) && tools[1..][t] == ToolForPhase(tools, spec).value;
          assert ToolFor(tools, spec, t + 1);
        }
      }
    }
  }

  /** The tool of the phase, run for the first time. */
  ghost predicate FirstRun(book: Book, tools: seq<ToolDef>, phase: PhaseId, run: Link) {
    exists k: nat, t: nat :: SpecAt(book, phase, k) && ToolFor(tools, book.phases[k], t) && !tools[t].agent
                               && run == Link(phase, 0, tools[t].maxRetries)
  }

  lemma FirstRunIs(book: Book, tools: seq<ToolDef>, phase: PhaseId, run: Link)
    requires HasPhase(book, phase)
    ensures var tool := ToolForPhase(tools, book.phases[IndexOf(book.phases, phase)]);
      FirstRun(book, tools, phase, run) <==>
      tool.Some? && !tool.value.agent && run == Link(phase, 0, tool.value.maxRetries)
  {
    var at := IndexOf(book.phases, phase);
    SpecIsIndex(book, phase, at);
    ToolIsFirst(tools, book.phases[at]);
    forall k: nat | SpecAt(book, phase, k) ensures k == at {
      SpecIsIndex(book, phase, k);
    }
    forall t: nat, u: nat | ToolFor(tools, book.phases[at], t) && ToolFor(tools, book.phases[at], u)
      ensures t == u
    {
    }
  }

  /** The two ways a chain goes on by itself. */
  lemma HopMeans(book: Book, tools: seq<ToolDef>, a: Link, b: Link)
    ensures Hop(book, tools, a, b) <==>
      (a.retries < a.max && b == Link(a.phase, a.retries + 1, a.max))
      || (FollowsTo(book, a.phase, b.phase) && b.phase != ReadyForAcceptance && FirstRun(book, tools, b.phase, b))
  {
    NextIsFollowing(book, a.phase, b.phase);
    SpecIsIndex(book, b.phase, 0);
    if HasPhase(book, b.phase) {
      FirstRunIs(book, tools, b.phase, b);
    } else {
      forall k: nat ensures !SpecAt(book, b.phase, k) {
        SpecIsIndex(book, b.phase, k);
      }
    }
  }

  /** The end of a tool run. What cannot be recorded is retried as often as the tool allows, in a
      project that is not managed. What did not pass sets nothing off. After a pass the task's phase
      is started, if it is one to be worked in and has a tool, and the tool is run, unless an agent
      has to or there is no workspace. */
  lemma RunDoneMeans(book: Book, tools: seq<ToolDef>, b: Board, i: nat, run: Link, result: ToolResult)
    requires i < |b.jobs|
    ensures var p := RunDone(book, tools, b, i, run, result);
      var r := if result.broke then None else ToolEvidence(book, b, i, run.phase, result.kind, result.verdict);
      if r.None? then
        && p.board == b
        && p.next == if run.retries < run.max && !b.jobs[i].managed
                     then Some(Link(run.phase, run.retries + 1, run.max)) else None
      else if result.verdict != Pass then p == Progress(r.value, None)
      else
        && (p.board == r.value || Start(book, r.value, i, r.value.jobs[i].current) == Some(p.board))
        && (p.next.Some? ==>
             && Start(book, r.value, i, r.value.jobs[i].current) == Some(p.board) && !r.value.jobs[i].managed
             && result.canStart && FirstRun(book, tools, r.value.jobs[i].current, p.next.value))
        && (forall next | !r.value.jobs[i].managed && result.canStart && r.value.jobs[i].current != Unknown
                && FirstRun(book, tools, r.value.jobs[i].current, next)
                && Start(book, r.value, i, r.value.jobs[i].current).Some? ::
              p == Progress(Start(book, r.value, i, r.value.jobs[i].current).value, Some(next)))
  {
    var r := if result.broke then None else ToolEvidence(book, b, i, run.phase, result.kind, result.verdict);
    if r.Some? && result.verdict == Pass {
      var phase := r.value.jobs[i].current;
      if HasPhase(book, phase) {
        forall next {
          FirstRunIs(book, tools, phase, next);
        }
      }
    }
  }
}
