/** Which runbooks guarantee evidence at acceptance for the tasks the system creates, which all
    start in the planning phase. */
module RunbookGate {
  import opened Basics
  import opened ProjectState
  import opened Runbook

  predicate Startable(book: Book, phase: PhaseId) {
    phase !in {Unknown, ReadyForAcceptance} && HasPhase(book, phase)
  }

  /** The phase can be completed without the evidence that a rule asks for. */
  predicate Avoids(book: Book, phase: PhaseId, rule: string) {
    && HasPhase(book, phase) && phase != FinalValidation
    && var required := book.phases[IndexOf(book.phases, phase)].required;
      required == [] || exists kind | kind in required :: kind != "" && kind != rule
  }

  /** One phase further: by failing, or by completing without the rule's evidence. */
  predicate Moves(book: Book, rule: string, a: PhaseId, b: PhaseId) {
    Startable(book, a) && (b == FixOrReplan || (Avoids(book, a, rule) && NextPhase(book, a) == Some(b)))
  }

  ghost predicate Route(book: Book, rule: string, p: seq<PhaseId>) {
    |p| > 0 && p[0] == Plan && forall k | 0 <= k < |p| - 1 :: Moves(book, rule, p[k], p[k+1])
  }

  ghost predicate Leads(book: Book, rule: string, p: seq<PhaseId>, phase: PhaseId) {
    Route(book, rule, p) && p[|p|-1] == phase
  }

  /** A task can get from planning to the phase without the rule's evidence. */
  ghost predicate Reachable(book: Book, rule: string, phase: PhaseId) {
    exists p :: Leads(book, rule, p, phase)
  }

  /** No rule of the book can be avoided on the way to acceptance. */
  ghost predicate GatedFromPlan(book: Book) {
    forall rule | rule in book.rules && !Blank(rule) :: !Reachable(book, rule, ReadyForAcceptance)
  }

  lemma MoveReaches(book: Book, rule: string, a: PhaseId, b: PhaseId)
    requires Reachable(book, rule, a) && Moves(book, rule, a, b)
    ensures Reachable(book, rule, b)
  {
    var p :| Leads(book, rule, p, a);
    assert Leads(book, rule, p + [b], b);
  }

  // ---------------------------------------------------------------- what runs keep

  /** Tasks are created in the planning phase. */
  predicate PlannedEvent(e: Event) {
    e.Raised? ==> e.job.current == Plan
  }

  ghost predicate AllPlanned(events: seq<Event>) {
    forall e | e in events :: PlannedEvent(e)
  }

  /** The task has the rule's evidence, or is where it could get to without it. */
  ghost predicate Accounted(book: Book, evidence: seq<Evidence>, j: Job, rule: string) {
    j.current != Unknown && (Present(evidence, j.id, rule) || Reachable(book, rule, j.current))
  }

  ghost predicate BoardAccounted(book: Book, b: Board, rule: string) {
    && BoardOk(b)
    && (forall k | 0 <= k < |b.tries| && b.tries[k].status == TryRunning :: Startable(book, b.tries[k].phase))
    && (forall i | 0 <= i < |b.jobs| :: Accounted(book, b.evidence, b.jobs[i], rule))
  }

  lemma MoreEvidence(book: Book, evidence: seq<Evidence>, more: seq<Evidence>, j: Job, rule: string)
    requires Accounted(book, evidence, j, rule) && evidence <= more
    ensures Accounted(book, more, j, rule)
  {
  }

  lemma NextIsKnown(book: Book, phase: PhaseId)
    ensures NextPhase(book, phase).Some? ==> NextPhase(book, phase).value != Unknown
  {
    if HasPhase(book, phase) {
      NextIsLater(book.phases, IndexOf(book.phases, phase) + 1);
    }
    if HasPhase(book, FixOrReplan) {
      NextIsLater(book.phases, IndexOf(book.phases, FixOrReplan) + 1);
    }
  }

  /** A completed phase was the current one, and has left the rule's evidence or avoided it. */
  lemma CompleteAccounted(book: Book, b: Board, i: nat, asked: PhaseId, kind: string, verdict: Verdict, rule: string)
    requires BoardAccounted(book, b, rule) && i < |b.jobs| && Complete(book, b, i, asked, kind, verdict).Some?
    requires rule in book.rules && !Blank(rule)
    ensures var after := Complete(book, b, i, asked, kind, verdict).value;
      && b.evidence <= after.evidence && |after.jobs| == |b.jobs|
      && (forall k | 0 <= k < |b.jobs| && k != i :: after.jobs[k] == b.jobs[k])
      && Accounted(book, after.evidence, after.jobs[i], rule)
  {
    var j := b.jobs[i];
    var phase := if asked == Unknown then CurrentPhase(j) else asked;
    var at := RunningTry(b.tries, j.id, phase);
    var after := Complete(book, b, i, asked, kind, verdict).value;
    var extra := if kind == "" then None else Some((kind, verdict));
    TryOf(b, at, i);
    NextIsKnown(book, phase);
    NothingMissing(b.evidence, j.id, book.rules, extra);
    if kind == rule {
      assert Evidence(j.id, kind, verdict) in after.evidence;
    } else if phase == FinalValidation {
      assert Provided(b.evidence, j.id, rule, extra);
    } else {
      assert Avoids(book, phase, rule);
      if !Present(b.evidence, j.id, rule) {
        MoveReaches(book, rule, phase, after.jobs[i].current);
      }
    }
  }

  lemma FailAccounted(book: Book, b: Board, i: nat, asked: PhaseId, rule: string)
    requires BoardAccounted(book, b, rule) && i < |b.jobs| && FailPhase(b, i, asked).Some?
    ensures Accounted(book, b.evidence, FailPhase(b, i, asked).value.jobs[i], rule)
  {
    var j := b.jobs[i];
    var phase := if asked == Unknown then CurrentPhase(j) else asked;
    var at := RunningTry(b.tries, j.id, phase);
    TryOf(b, at, i);
    if !Present(b.evidence, j.id, rule) {
      MoveReaches(book, rule, phase, FixOrReplan);
    }
  }

  /** Running attempts only ever come from a start. */
  lemma RunningStartable(book: Book, b: Board, e: Event)
    requires Stepped(book, b, e).Some?
    requires forall k | 0 <= k < |b.tries| && b.tries[k].status == TryRunning :: Startable(book, b.tries[k].phase)
    ensures var after := Stepped(book, b, e).value;
      forall k | 0 <= k < |after.tries| && after.tries[k].status == TryRunning :: Startable(book, after.tries[k].phase)
  {
  }

  lemma RecordedAccounted(book: Book, b: Board, more: Evidence, rule: string)
    requires BoardAccounted(book, b, rule)
    ensures BoardAccounted(book, b.(evidence := b.evidence + [more]), rule)
  {
    forall i | 0 <= i < |b.jobs| ensures Accounted(book, b.evidence + [more], b.jobs[i], rule) {
      MoreEvidence(book, b.evidence, b.evidence + [more], b.jobs[i], rule);
    }
  }

  lemma ToolAccounted(book: Book, b: Board, i: nat, phase: PhaseId, kind: string, verdict: Verdict, rule: string)
    requires BoardAccounted(book, b, rule) && i < |b.jobs| && ToolEvidence(book, b, i, phase, kind, verdict).Some?
    requires rule in book.rules && !Blank(rule)
    ensures var after := ToolEvidence(book, b, i, phase, kind, verdict).value;
      && b.evidence <= after.evidence && |after.jobs| == |b.jobs|
      && (forall k | 0 <= k < |b.jobs| && k != i :: after.jobs[k] == b.jobs[k])
      && Accounted(book, after.evidence, after.jobs[i], rule)
  {
    var more := Evidence(b.jobs[i].id, kind, verdict);
    var recorded := b.(evidence := b.evidence + [more]);
    RecordedAccounted(book, b, more, rule);
    if kind in book.phases[IndexOf(book.phases, phase)].required {
      if Passes(kind, verdict) {
        CompleteAccounted(book, b, i, phase, kind, verdict, rule);
      } else {
        FailAccounted(book, recorded, i, phase, rule);
      }
    }
  }

  lemma JobsAccounted(book: Book, b: Board, e: Event, rule: string, i: nat)
    requires BoardAccounted(book, b, rule) && PlannedEvent(e) && Stepped(book, b, e).Some?
    requires rule in book.rules && !Blank(rule) && i < |Stepped(book, b, e).value.jobs|
    ensures Accounted(book, Stepped(book, b, e).value.evidence, Stepped(book, b, e).value.jobs[i], rule)
  {
    var after := Stepped(book, b, e).value;
    match e
    case Completed(k, asked, kind, verdict) =>
      CompleteAccounted(book, b, k, asked, kind, verdict, rule);
      if i != k { MoreEvidence(book, b.evidence, after.evidence, b.jobs[i], rule); }
    case ToolDone(k, phase, kind, verdict) =>
      ToolAccounted(book, b, k, phase, kind, verdict, rule);
      if i != k { MoreEvidence(book, b.evidence, after.evidence, b.jobs[i], rule); }
    case PhaseFailed(k, asked) => FailAccounted(book, b, k, asked, rule);
    case Raised(job) =>
      if i == |b.jobs| {
        assert Leads(book, rule, [Plan], Plan);
      }
    case _ =>
  }

  lemma StepAccounted(book: Book, b: Board, e: Event, rule: string)
    requires BoardAccounted(book, b, rule) && PlannedEvent(e) && Stepped(book, b, e).Some?
    requires rule in book.rules && !Blank(rule)
    ensures BoardAccounted(book, Stepped(book, b, e).value, rule)
  {
    StepKeeps(book, b, e);
    RunningStartable(book, b, e);
    forall i | 0 <= i < |Stepped(book, b, e).value.jobs|
      ensures Accounted(book, Stepped(book, b, e).value.evidence, Stepped(book, b, e).value.jobs[i], rule)
    {
      JobsAccounted(book, b, e, rule, i);
    }
  }

  lemma {:induction false} RunAccounted(book: Book, events: seq<Event>, rule: string)
    requires AllPlanned(events) && rule in book.rules && !Blank(rule)
    ensures BoardAccounted(book, After(book, EMPTY_BOARD, events), rule)
  {
    if events != [] {
      var n := |events| - 1;
      RunAccounted(book, events[..n], rule);
      assert events[n] in events;
      if Stepped(book, After(book, EMPTY_BOARD, events[..n]), events[n]).Some? {
        StepAccounted(book, After(book, EMPTY_BOARD, events[..n]), events[n], rule);
      }
    }
  }

  /** Whatever brings a task to acceptance is its last phase, or was checked against the rules. */
  lemma EntryCases(book: Book, b: Board, e: Event, i: nat)
    requires BoardOk(b) && Stepped(book, b, e).Some? && Enters(b, Stepped(book, b, e).value, i)
    ensures var after := Stepped(book, b, e).value;
      && after.jobs[i].id == b.jobs[i].id
      && (after.jobs[i].current == ReadyForAcceptance || FullyEvidenced(book, after.evidence, b.jobs[i].id))
  {
    match e
    case AcceptanceSet(k, state, to) =>
      NothingMissing(b.evidence, b.jobs[k].id, book.rules, None);
      assert forall kind | kind in book.rules :: Provided(b.evidence, b.jobs[k].id, kind, None);
    case _ =>
  }

  lemma PlannedEntry(book: Book, events: seq<Event>, e: Event, i: nat)
    requires GatedFromPlan(book) && AllPlanned(events + [e])
    ensures SafeEntry(book, After(book, EMPTY_BOARD, events), e, i)
  {
    var b := After(book, EMPTY_BOARD, events);
    assert AllPlanned(events) && PlannedEvent(e) by {
      assert forall x | x in events :: x in events + [e];
      assert e in events + [e];
    }
    if Stepped(book, b, e).Some? && Enters(b, Stepped(book, b, e).value, i) && BoardOk(b) {
      var after := Stepped(book, b, e).value;
      EntryCases(book, b, e, i);
      forall rule | rule in book.rules && !Blank(rule) ensures Present(after.evidence, b.jobs[i].id, rule) {
        RunAccounted(book, events, rule);
        StepAccounted(book, b, e, rule);
        assert Accounted(book, after.evidence, after.jobs[i], rule);
      }
    }
  }

  // ---------------------------------------------------------------- a route is a run

  /** A board with one idle task in the phase, without the rule's evidence. */
  ghost predicate Idle(b: Board, phase: PhaseId, rule: string) {
    && |b.jobs| == 1 && b.jobs[0].id == "t" && b.jobs[0].current == phase && b.jobs[0].acceptance == NotReady
    && b.jobs[0].state != Archived && (forall t | t in b.tries :: t.status != TryRunning)
    && !Present(b.evidence, "t", rule)
  }

  lemma OneMoreEvent(book: Book, events: seq<Event>, e: Event)
    requires Stepped(book, After(book, EMPTY_BOARD, events), e).Some?
    ensures After(book, EMPTY_BOARD, events + [e]) == Stepped(book, After(book, EMPTY_BOARD, events), e).value
    ensures AllPlanned(events) && PlannedEvent(e) ==> AllPlanned(events + [e])
  {
    assert (events + [e])[..|events|] == events;
  }

  /** The task with its attempt running. */
  ghost predicate Busy(b: Board, phase: PhaseId, rule: string) {
    && |b.jobs| == 1 && b.jobs[0].id == "t" && b.jobs[0].current == phase && b.jobs[0].acceptance == NotReady
    && b.jobs[0].state != Archived && |b.tries| > 0 && b.tries[|b.tries|-1] == Try("t", phase, TryRunning)
    && (forall k | 0 <= k < |b.tries| - 1 :: b.tries[k].status != TryRunning) && !Present(b.evidence, "t", rule)
  }

  lemma StartIdle(book: Book, b: Board, phase: PhaseId, rule: string)
    requires Idle(b, phase, rule) && Startable(book, phase)
    ensures Stepped(book, b, Started(0, Unknown)).Some?
    ensures Busy(Stepped(book, b, Started(0, Unknown)).value, phase, rule)
  {
    assert forall k | 0 <= k < |b.tries| :: b.tries[k] in b.tries;
  }

  lemma FailBusy(book: Book, b: Board, phase: PhaseId, rule: string)
    requires Busy(b, phase, rule) && phase != Unknown
    ensures Stepped(book, b, PhaseFailed(0, Unknown)).Some?
    ensures Idle(Stepped(book, b, PhaseFailed(0, Unknown)).value, FixOrReplan, rule)
  {
  }

  /** An artifact that completes the phase and is not what the rule asks for. */
  lemma OtherKind(book: Book, phase: PhaseId, rule: string) returns (kind: string)
    requires Avoids(book, phase, rule) && !Blank(rule)
    ensures Accepts(book, phase, kind) && kind != rule
  {
    var required := book.phases[IndexOf(book.phases, phase)].required;
    if required == [] {
      kind := "";
    } else {
      kind :| kind in required && kind != "" && kind != rule;
    }
  }

  lemma CompleteBusy(book: Book, b: Board, phase: PhaseId, kind: string, rule: string)
    requires Busy(b, phase, rule) && phase !in {Unknown, FinalValidation}
    requires Accepts(book, phase, kind) && kind != rule && NextPhase(book, phase).Some?
    ensures var done := Stepped(book, b, Event.Completed(0, Unknown, kind, Pass));
      && done.Some? && |done.value.jobs| == 1 && !Present(done.value.evidence, "t", rule)
      && (NextPhase(book, phase).value == ReadyForAcceptance ==> Enters(b, done.value, 0))
      && (NextPhase(book, phase).value != ReadyForAcceptance ==>
           Idle(done.value, NextPhase(book, phase).value, rule))
  {
    assert RunningTry(b.tries, "t", phase) == |b.tries| - 1;
  }

  /** One move of a route as events: start, then fail or complete. */
  lemma WalkOn(book: Book, events: seq<Event>, rule: string, a: PhaseId, b: PhaseId) returns (more: seq<Event>)
    requires AllPlanned(events) && Idle(After(book, EMPTY_BOARD, events), a, rule) && !Blank(rule)
    requires Moves(book, rule, a, b) && b != ReadyForAcceptance
    ensures AllPlanned(more) && Idle(After(book, EMPTY_BOARD, more), b, rule)
  {
    StartIdle(book, After(book, EMPTY_BOARD, events), a, rule);
    OneMoreEvent(book, events, Started(0, Unknown));
    var started := events + [Started(0, Unknown)];
    if b == FixOrReplan {
      FailBusy(book, After(book, EMPTY_BOARD, started), a, rule);
      OneMoreEvent(book, started, PhaseFailed(0, Unknown));
      more := started + [PhaseFailed(0, Unknown)];
    } else {
      var kind := OtherKind(book, a, rule);
      CompleteBusy(book, After(book, EMPTY_BOARD, started), a, kind, rule);
      OneMoreEvent(book, started, Event.Completed(0, Unknown, kind, Pass));
      more := started + [Event.Completed(0, Unknown, kind, Pass)];
    }
  }

  lemma {:induction false} Walk(book: Book, rule: string, p: seq<PhaseId>) returns (events: seq<Event>)
    requires Route(book, rule, p) && p[|p|-1] != ReadyForAcceptance && !Blank(rule)
    ensures AllPlanned(events) && Idle(After(book, EMPTY_BOARD, events), p[|p|-1], rule)
  {
    var n := |p| - 1;
    if n == 0 {
      var job := Job("t", TaskState.Planned, Plan, NotReady, false);
      var none: seq<Event> := [];
      OneMoreEvent(book, none, Raised(job));
      events := none + [Raised(job)];
    } else {
      assert Moves(book, rule, p[n-1], p[n]);
      assert p[..n][|p[..n]|-1] == p[n-1];
      events := Walk(book, rule, p[..n]);
      events := WalkOn(book, events, rule, p[n-1], p[n]);
    }
  }

  /** A route to acceptance that avoids a rule is a run that enters it without the evidence. */
  lemma LeakyEntry(book: Book, rule: string, p: seq<PhaseId>) returns (events: seq<Event>, e: Event)
    requires Leads(book, rule, p, ReadyForAcceptance) && rule in book.rules && !Blank(rule)
    ensures AllPlanned(events + [e]) && !SafeEntry(book, After(book, EMPTY_BOARD, events), e, 0)
  {
    var n := |p| - 1;
    assert Moves(book, rule, p[n-1], p[n]);
    assert p[..n][|p[..n]|-1] == p[n-1];
    var walked := Walk(book, rule, p[..n]);
    StartIdle(book, After(book, EMPTY_BOARD, walked), p[n-1], rule);
    OneMoreEvent(book, walked, Started(0, Unknown));
    events := walked + [Started(0, Unknown)];
    var kind := OtherKind(book, p[n-1], rule);
    e := Event.Completed(0, Unknown, kind, Pass);
    var b := After(book, EMPTY_BOARD, events);
    CompleteBusy(book, b, p[n-1], kind, rule);
    RunKeeps(book, events);
  }

  /** Over every run in which tasks are created in the planning phase, a task becomes ready for
      acceptance, or under review, only with passing evidence for every completion rule, exactly
      when no rule can be avoided on a way from planning to acceptance. */
  lemma GatedFromPlanExactly(book: Book)
    ensures GatedFromPlan(book) <==>
            forall events, e, i: nat | AllPlanned(events + [e]) ::
              SafeEntry(book, After(book, EMPTY_BOARD, events), e, i)
  {
    if GatedFromPlan(book) {
      forall events, e, i: nat | AllPlanned(events + [e])
        ensures SafeEntry(book, After(book, EMPTY_BOARD, events), e, i)
      {
        PlannedEntry(book, events, e, i);
      }
    } else {
      var rule :| rule in book.rules && !Blank(rule) && Reachable(book, rule, ReadyForAcceptance);
      var p :| Leads(book, rule, p, ReadyForAcceptance);
      var events, e := LeakyEntry(book, rule, p);
    }
  }

  const CHAIN := Book([PhaseSpec(Plan, ["plan"]), PhaseSpec(Implement, ["diff_summary"])], ["plan", "diff_summary"])

  /** A book that is gated for any board is gated for created tasks. The other way fails: here
      the only phase that leads to acceptance comes after one that asks for the other rule. */
  lemma GatedIsStronger(book: Book)
    ensures Gated(book) ==> GatedFromPlan(book)
    ensures GatedFromPlan(CHAIN) && !Gated(CHAIN)
  {
    if Gated(book) {
      GatedExactly(book);
      GatedFromPlanExactly(book);
    }
    ChainIsGatedFromPlan();
  }

  lemma ChainIsGatedFromPlan()
    ensures GatedFromPlan(CHAIN) && !Gated(CHAIN)
  {
    var chain := CHAIN;
    assert IndexOf(chain.phases, Plan) == 0 && IndexOf(chain.phases, Implement) == 1;
    assert NextPhase(chain, Implement) == Some(ReadyForAcceptance) && Accepts(chain, Implement, "diff_summary");
    assert "plan" in chain.rules && !Blank("plan") by { assert "plan"[0] == 'p'; }
    assert "plan" != "diff_summary" by { assert "plan"[0] != "diff_summary"[0]; }
    forall p | Leads(chain, "plan", p, ReadyForAcceptance) ensures false {
      StuckAt(chain, "plan", p, Plan);
    }
    forall p | Leads(chain, "diff_summary", p, ReadyForAcceptance) ensures false {
      StuckAt(chain, "diff_summary", p, Implement);
    }
  }

  /** Of the two-phase chain a route without the evidence of a phase never gets past it. */
  lemma {:induction false} StuckAt(chain: Book, rule: string, p: seq<PhaseId>, at: PhaseId)
    requires chain == CHAIN
    requires (at == Plan && rule == "plan") || (at == Implement && rule == "diff_summary")
    requires Route(chain, rule, p)
    ensures p[|p|-1] in {Plan, Implement, FixOrReplan} && (at == Plan ==> p[|p|-1] != Implement)
  {
    var n := |p| - 1;
    if n > 0 {
      assert Moves(chain, rule, p[n-1], p[n]);
      assert p[..n][|p[..n]|-1] == p[n-1];
      StuckAt(chain, rule, p[..n], at);
      assert IndexOf(chain.phases, Plan) == 0 && IndexOf(chain.phases, Implement) == 1;
      assert NextFrom(chain.phases, 1) == Implement;
      assert !HasPhase(chain, FixOrReplan) && !Avoids(chain, at, rule);
    }
  }
}
