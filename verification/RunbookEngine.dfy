/** The runbook engine as it updates tasks, attempts and evidence in place, and the chain of
    tool runs it sets off by itself. */
module RunbookEngine {
  import opened Basics
  import opened ProjectState
  import opened Runbook

  class Engine {
    const book: Book
    const tools: seq<ToolDef>
    var jobs: seq<Job>
    var tries: seq<Try>
    var evidence: seq<Evidence>

    ghost function View(): Board
      reads this
    {
      Board(jobs, tries, evidence)
    }

    constructor (book: Book, tools: seq<ToolDef>, b: Board)
      ensures this.book == book && this.tools == tools && View() == b
    {
      this.book, this.tools := book, tools;
      jobs, tries, evidence := b.jobs, b.tries, b.evidence;
    }

    /** Looks back for the running attempt. */
    method FindRunning(task: string, phase: PhaseId) returns (i: nat)
      ensures i == RunningTry(tries, task, phase)
    {
      var k := |tries|;
      assert tries[..k] == tries;
      while k > 0
        invariant k <= |tries|
        invariant RunningTry(tries[..k], task, phase) == k ==> RunningTry(tries, task, phase) == |tries|
        invariant RunningTry(tries[..k], task, phase) < k ==>
            RunningTry(tries, task, phase) == RunningTry(tries[..k], task, phase)
      {
        assert tries[..k][..k-1] == tries[..k-1];
        k := k - 1;
        if tries[k] == Try(task, phase, TryRunning) {
          return k;
        }
      }
      return |tries|;
    }

    method FindEvidence(task: string, kind: string) returns (there: bool)
      ensures there == Present(evidence, task, kind)
    {
      for k := 0 to |evidence|
        invariant forall j | 0 <= j < k ::
            !(evidence[j].task == task && evidence[j].kind == kind && Passes(kind, evidence[j].verdict))
      {
        if evidence[k].task == task && evidence[k].kind == kind && Passes(kind, evidence[k].verdict) {
          return true;
        }
      }
      return false;
    }

    /** The evidence of one rule, the artifact about to be recorded included. */
    method IsProvided(task: string, kind: string, extra: Option<(string, Verdict)>) returns (there: bool)
      ensures there == Provided(evidence, task, kind, extra)
    {
      if Blank(kind) {
        return true;
      }
      there := FindEvidence(task, kind);
      if extra.Some? && extra.value.0 == kind && Passes(kind, extra.value.1) {
        there := true;
      }
    }

    method FindMissing(task: string, extra: Option<(string, Verdict)>) returns (missing: seq<string>)
      ensures missing == MissingKinds(evidence, task, book.rules, extra)
    {
      missing := [];
      for r := 0 to |book.rules|
        invariant missing + MissingKinds(evidence, task, book.rules[r..], extra) ==
            MissingKinds(evidence, task, book.rules, extra)
      {
        assert book.rules[r..][1..] == book.rules[r+1..];
        var there := IsProvided(task, book.rules[r], extra);
        if !there {
          missing := missing + [book.rules[r]];
        }
      }
    }

    method StartPhase(i: nat, asked: PhaseId) returns (ok: bool)
      requires i < |jobs|
      modifies this`jobs, this`tries
      ensures ok <==> Start(book, old(View()), i, asked).Some?
      ensures View() == if ok then Start(book, old(View()), i, asked).value else old(View())
    {
      var j := jobs[i];
      var phase := if asked == Unknown then CurrentPhase(j) else asked;
      if phase == Unknown || phase == ReadyForAcceptance || !HasPhase(book, phase) || j.state == Archived
          || j.acceptance == AcceptedByHuman {
        return false;
      }
      if phase != CurrentPhase(j) {
        return false;
      }
      var at := FindRunning(j.id, phase);
      if at < |tries| {
        return false;
      }
      tries := tries + [Try(j.id, phase, TryRunning)];
      jobs := jobs[i := j.(state := StateForPhase(phase), current := phase, acceptance := NotReady)];
      return true;
    }

    method CompletePhase(i: nat, asked: PhaseId, kind: string, verdict: Verdict) returns (ok: bool)
      requires i < |jobs|
      modifies this
      ensures ok <==> Complete(book, old(View()), i, asked, kind, verdict).Some?
      ensures View() == if ok then Complete(book, old(View()), i, asked, kind, verdict).value else old(View())
    {
      var j := jobs[i];
      var phase := if asked == Unknown then CurrentPhase(j) else asked;
      if !HasPhase(book, phase) {
        return false;
      }
      var at := FindRunning(j.id, phase);
      if at == |tries| || !Accepts(book, phase, kind) || (kind != "" && !Passes(kind, verdict)) {
        return false;
      }
      if phase == FinalValidation {
        var missing := FindMissing(j.id, if kind == "" then None else Some((kind, verdict)));
        if missing != [] {
          return false;
        }
      }
      var next := NextPhase(book, phase);
      if next.None? {
        return false;
      }
      if kind != "" {
        evidence := evidence + [Evidence(j.id, kind, verdict)];
      }
      tries := tries[at := tries[at].(status := TryDone)];
      if next.value == ReadyForAcceptance {
        jobs := jobs[i := j.(state := ExecutionComplete, acceptance := ReadyForReview, current := ReadyForAcceptance)];
      } else {
        jobs := jobs[i := j.(state := StateForPhase(next.value), current := next.value)];
      }
      return true;
    }

    method Fail(i: nat, asked: PhaseId) returns (ok: bool)
      requires i < |jobs|
      modifies this`jobs, this`tries
      ensures ok <==> FailPhase(old(View()), i, asked).Some?
      ensures View() == if ok then FailPhase(old(View()), i, asked).value else old(View())
    {
      var j := jobs[i];
      var phase := if asked == Unknown then CurrentPhase(j) else asked;
      var at := FindRunning(j.id, phase);
      if at == |tries| {
        return false;
      }
      tries := tries[at := tries[at].(status := TryFailed)];
      jobs := jobs[i := j.(state := Failed, current := FixOrReplan, acceptance := NotReady)];
      return true;
    }

    /** Records what a tool found: the evidence completes the phase, fails it, or is kept. */
    method ApplyResult(i: nat, phase: PhaseId, kind: string, verdict: Verdict) returns (ok: bool)
      requires i < |jobs| && phase != Unknown
      modifies this
      ensures ok <==> ToolEvidence(book, old(View()), i, phase, kind, verdict).Some?
      ensures View() == if ok then ToolEvidence(book, old(View()), i, phase, kind, verdict).value else old(View())
    {
      if !HasPhase(book, phase) {
        return false;
      }
      var at := FindRunning(jobs[i].id, phase);
      if at == |tries| || kind == "" {
        return false;
      }
      var required := kind in book.phases[IndexOf(book.phases, phase)].required;
      if required && Passes(kind, verdict) {
        ok := CompletePhase(i, phase, kind, verdict);
        return;
      }
      evidence := evidence + [Evidence(jobs[i].id, kind, verdict)];
      ok := true;
      if required {
        ok := Fail(i, phase);
      }
    }

    /** After a passing tool: start the next phase and its tool, if the project lets it. */
    method AutoProgress(i: nat, canStart: bool) returns (next: Option<Link>)
      requires i < |jobs|
      modifies this`jobs, this`tries
      ensures Progress(View(), next) == Progressed(book, tools, old(View()), i, canStart)
    {
      var j := jobs[i];
      if j.managed || j.current == Unknown || j.current == ReadyForAcceptance || !HasPhase(book, j.current) {
        return None;
      }
      var tool := ToolForPhase(tools, book.phases[IndexOf(book.phases, j.current)]);
      if tool.None? {
        return None;
      }
      var ok := StartPhase(i, j.current);
      if !ok || !canStart || tool.value.agent {
        return None;
      }
      return Some(Link(j.current, 0, tool.value.maxRetries));
    }

    /** The end of one tool run, and the run it sets off, if any. */
    method CompleteToolRun(i: nat, run: Link, result: ToolResult) returns (next: Option<Link>)
      requires i < |jobs| && run.phase != Unknown
      modifies this
      ensures Progress(View(), next) == RunDone(book, tools, old(View()), i, run, result)
      ensures |jobs| == |old(jobs)|
    {
      ghost var before := View();
      var ok := false;
      if !result.broke {
        ok := ApplyResult(i, run.phase, result.kind, result.verdict);
      }
      RecordedJobs(book, before, i, run.phase, result.kind, result.verdict);
      if !ok {
        return if run.retries < run.max && !jobs[i].managed then Some(run.(retries := run.retries + 1)) else None;
      }
      var required := result.kind in book.phases[IndexOf(book.phases, run.phase)].required;
      if (required && !Passes(result.kind, result.verdict)) || result.verdict != Pass {
        return None;
      }
      next := AutoProgress(i, result.canStart);
    }

    /** The chain of runs that one tool run sets off by itself always ends. */
    method RunChain(i: nat, first: Link, results: nat -> ToolResult, limit: nat) returns (runs: nat)
      requires i < |jobs| && first.phase != Unknown && BoardOk(View())
      requires DistinctPhases(book) && RetriesBounded(tools, limit) && LinkOk(first, limit)
      modifies this
      ensures BoardOk(View()) && 1 <= runs <= Budget(book, first, limit)
    {
      var link := Some(first);
      runs := 0;
      ghost var total := Budget(book, first, limit);
      ghost var left := total;
      BudgetIsPositive(book, first, limit);
      while link.Some?
        invariant i < |jobs| && BoardOk(View())
        invariant link.Some? ==>
            LinkOk(link.value, limit) && link.value.phase != Unknown && left == Budget(book, link.value, limit)
        invariant left >= 0 && (link.Some? ==> left >= 1) && runs + left <= total && (link.None? ==> runs >= 1)
        decreases left
      {
        var run := link.value;
        FollowUp(book, tools, View(), i, run, results(runs));
        link := CompleteToolRun(i, run, results(runs));
        runs := runs + 1;
        if link.Some? {
          HopShrinks(book, tools, run, link.value, limit);
          BudgetIsPositive(book, link.value, limit);
          left := Budget(book, link.value, limit);
        } else {
          left := left - 1;
        }
      }
    }
  }

  lemma RecordedJobs(book: Book, b: Board, i: nat, phase: PhaseId, kind: string, verdict: Verdict)
    requires i < |b.jobs|
    ensures var r := ToolEvidence(book, b, i, phase, kind, verdict);
      r.Some? ==> |r.value.jobs| == |b.jobs| && HasPhase(book, phase)
  {
  }

  /** What a tool run sets off is a retry of it or the tool of the phase that follows. */
  lemma FollowUp(book: Book, tools: seq<ToolDef>, b: Board, i: nat, run: Link, result: ToolResult)
    requires i < |b.jobs| && run.phase != Unknown && BoardOk(b)
    ensures var p := RunDone(book, tools, b, i, run, result);
      && BoardOk(p.board)
      && (p.next.Some? ==> Hop(book, tools, run, p.next.value) && p.next.value.phase != Unknown)
  {
    var r := if result.broke then None else ToolEvidence(book, b, i, run.phase, result.kind, result.verdict);
    if r.Some? {
      ToolKeeps(book, b, i, run.phase, result.kind, result.verdict);
      var j := r.value.jobs[i];
      if Start(book, r.value, i, j.current).Some? {
        StartKeeps(book, r.value, i, j.current);
        PassMovesOn(book, b, i, run.phase, result.kind);
      }
    }
  }

  /** After a pass the task is in the phase that follows, or still works in this one. */
  lemma PassMovesOn(book: Book, b: Board, i: nat, phase: PhaseId, kind: string)
    requires i < |b.jobs| && phase != Unknown && BoardOk(b)
    ensures var r := ToolEvidence(book, b, i, phase, kind, Pass);
      r.Some? ==> NextPhase(book, phase) == Some(r.value.jobs[i].current)
                  || (r.value.jobs[i].current == phase
                      && RunningTry(r.value.tries, r.value.jobs[i].id, phase) < |r.value.tries|)
  {
    var r := ToolEvidence(book, b, i, phase, kind, Pass);
    if r.Some? && kind !in book.phases[IndexOf(book.phases, phase)].required {
      TryOf(b, RunningTry(b.tries, b.jobs[i].id, phase), i);
    }
  }

  lemma BudgetIsPositive(book: Book, l: Link, limit: nat)
    requires LinkOk(l, limit)
    ensures Budget(book, l, limit) >= 1
  {
    assert Ahead(book, l.phase) * (limit + 1) >= 0;
  }
}
