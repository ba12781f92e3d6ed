/** What a claim gives, and to which task: the conditions of a grant and the order of the scan,
    spelled out. */
module ClaimOutcomes {
  import opened Basics
  import opened ProjectState
  import opened TaskContract
  import opened Pause
  import opened Takeover
  import opened LeaseTable
  import opened Protocol
  import opened Outcomes

  // ---------------------------------------------------------------- what a task needs

  /** Finished, in order, and verified if there was a command to verify it. */
  predicate DependencyMet(tasks: seq<Task>, d: string) {
    var dep := FindTask(tasks, d);
    dep.Some? && dep.value.dispatch == Done && dep.value.pauseReason == ""
      && (dep.value.command == [] || dep.value.passed)
  }

  /** Human work only has to be open; work that an agent raised needs a command to verify it, and
      its project in execution of its milestone. */
  predicate FreeToWork(doc: Document, t: Task) {
    && t.pauseReason == "" && !t.highRisk && (forall d | d in t.dependsOn :: DependencyMet(doc.tasks, d))
    && (t.origin == Human ==>
         t.state != ExecutionComplete && t.state != Archived && t.state != Cancelled)
    && (t.origin == Agent ==>
         var p := FindProject(doc.projects, t.project);
         && t.command != [] && p.Some? && p.value.mode == Active && p.value.lifecycle.stage == Executing
         && (p.value.lifecycle.milestone == "" || p.value.lifecycle.milestone == t.milestone))
  }

  predicate InQueue(t: Task) {
    t.dispatch == Ready || (t.dispatch == AwaitingApproval && t.origin == Human)
  }

  predicate WritesFiles(t: Task) {
    t.phase != "review" && t.phase != "final_validation"
  }

  /** Somebody else is writing in the project's directory, and so would this task. */
  predicate DirectoryBusy(tasks: seq<Task>, t: Task) {
    WritesFiles(t) && exists o | o in tasks ::
      o.id != t.id && o.project == t.project && o.dispatch == Claimed && WritesFiles(o)
  }

  predicate Unheld(rows: Rows, lease: string, task: string) {
    && !Blank(task) && lease !in rows
    && forall id | id in rows && rows[id].task == task :: rows[id].status != LeaseActive
  }

  ghost predicate Wins(doc: Document, rows: Rows, k: nat, lease: string, fingerprint: string -> Option<string>)
    requires k < |doc.tasks|
  {
    var t := doc.tasks[k];
    && InQueue(t) && FreeToWork(doc, t) && !DirectoryBusy(doc.tasks, t)
    && (t.baseline != "" || fingerprint(t.id).Some?) && Unheld(rows, lease, t.id)
  }

  /** The test that a claim makes of a task, and every later step of its agent again. */
  lemma AllowedIsFree(doc: Document, t: Task)
    ensures ClaimAllowed(doc, t) <==> FreeToWork(doc, t)
  {
    assert DependenciesPassed(doc.tasks, t) <==> forall d | d in t.dependsOn :: DependencyMet(doc.tasks, d) by {
      forall d | d in t.dependsOn
        ensures DependencyMet(doc.tasks, d) <==>
                var dep := FindTask(doc.tasks, d);
                && dep.Some? && dep.value.pauseReason == "" && dep.value.dispatch == Done
                && (dep.value.command != [] ==> dep.value.passed)
      {
      }
    }
  }

  /** The task at k gets the lease when the scan arrives there. */
  lemma WonMeansWins(doc: Document, rows: Rows, k: nat, lease: string, fingerprint: string -> Option<string>)
    requires k < |doc.tasks|
    ensures Judge(doc, rows, k, lease, fingerprint).Won? <==> Wins(doc, rows, k, lease, fingerprint)
  {
    AllowedIsFree(doc, doc.tasks[k]);
  }

  // ---------------------------------------------------------------- one task on the way

  /** What the claim does to the document on its way past a task that does not win: a task whose
      directory is in use, or whose acceptance inputs cannot be read, is paused; one whose lease is
      taken has its inputs recorded; any other is left alone. */
  ghost predicate StepsOver(doc: Document, rows: Rows, k: nat, lease: string, fingerprint: string -> Option<string>,
                            after: Document)
  {
    && k < |doc.tasks| == |after.tasks| && !Wins(doc, rows, k, lease, fingerprint)
    && var t := doc.tasks[k];
      if !InQueue(t) || !FreeToWork(doc, t) then after == doc
      else if DirectoryBusy(doc.tasks, t) then PausedFor(doc, t, true, "shared_directory_conflict", after)
      else if t.baseline == "" && fingerprint(t.id).None? then
        PausedFor(doc, t, t.id == "", "acceptance_inputs_unavailable", after)
      else
        && after == doc.(tasks := after.tasks) && OnlyTask(doc.tasks, k, after.tasks)
        && after.tasks[k] == t.(baseline := if t.baseline != "" then t.baseline else fingerprint(t.id).value)
  }

  lemma UnsafeMeans(doc: Document, rows: Rows, k: nat, lease: string, fingerprint: string -> Option<string>)
    requires k < |doc.tasks| && Judge(doc, rows, k, lease, fingerprint).Unsafe?
    ensures var t, reason := doc.tasks[k], Judge(doc, rows, k, lease, fingerprint).reason;
      && InQueue(t) && FreeToWork(doc, t)
      && if DirectoryBusy(doc.tasks, t) then reason == "shared_directory_conflict"
         else t.baseline == "" && fingerprint(t.id).None? && reason == "acceptance_inputs_unavailable"
  {
    AllowedIsFree(doc, doc.tasks[k]);
  }

  lemma UnsafeIsOver(doc: Document, rows: Rows, k: nat, lease: string, fingerprint: string -> Option<string>)
    requires k < |doc.tasks| && Judge(doc, rows, k, lease, fingerprint).Unsafe?
    ensures var t := doc.tasks[k];
      StepsOver(doc, rows, k, lease, fingerprint,
                PausedDocument(doc, t.project, t.id, Judge(doc, rows, k, lease, fingerprint).reason))
  {
    UnsafeMeans(doc, rows, k, lease, fingerprint);
    PauseIsFor(doc, doc.tasks[k], Judge(doc, rows, k, lease, fingerprint).reason);
  }

  lemma SkipIsOver(doc: Document, rows: Rows, k: nat, lease: string, runtime: string,
                   fingerprint: string -> Option<string>)
    requires k < |doc.tasks| && !Judge(doc, rows, k, lease, fingerprint).Unsafe?
        && !Judge(doc, rows, k, lease, fingerprint).Won?
    ensures StepsOver(doc, rows, k, lease, fingerprint,
                      Judged(doc, k, Judge(doc, rows, k, lease, fingerprint), runtime))
  {
    AllowedIsFree(doc, doc.tasks[k]);
    WonMeansWins(doc, rows, k, lease, fingerprint);
  }

  /** The scan goes on behind a task that does not win. */
  lemma GoesOn(s: Server, doc: Document, rows: Rows, k: nat, lease: string, runtime: string,
               fingerprint: string -> Option<string>)
    returns (after: Document)
    requires k < |doc.tasks| && !Wins(doc, rows, k, lease, fingerprint)
    ensures StepsOver(doc, rows, k, lease, fingerprint, after)
    ensures ClaimScan(doc, rows, k, lease, s.me, runtime, s.clock, fingerprint)
         == ClaimScan(after, rows, k + 1, lease, s.me, runtime, s.clock, fingerprint)
  {
    var v := Judge(doc, rows, k, lease, fingerprint);
    WonMeansWins(doc, rows, k, lease, fingerprint);
    after := Judged(doc, k, v, runtime);
    if v.Unsafe? {
      UnsafeIsOver(doc, rows, k, lease, fingerprint);
    } else {
      SkipIsOver(doc, rows, k, lease, runtime, fingerprint);
    }
  }

  // ---------------------------------------------------------------- the scan

  /** The granted task is claimed for the runtime, its inputs recorded. */
  predicate GrantedTo(was: Task, now: Task, runtime: string, fingerprint: string -> Option<string>) {
    && now.dispatch == Claimed && now.runtime == runtime && now.rowVersion == was.rowVersion + 1
    && (if was.baseline != "" then now.baseline == was.baseline else fingerprint(was.id) == Some(now.baseline))
    && was == now.(dispatch := was.dispatch, runtime := was.runtime, rowVersion := was.rowVersion,
                   baseline := was.baseline)
  }

  /** A claim lasts two minutes. */
  predicate LeasedTo(rows: Rows, after: Rows, lease: string, me: string, task: string, runtime: string, now: int) {
    after == rows[lease := Lease(lease, me, task, runtime, LeaseActive, now + 120, now, now)]
  }

  /** The documents that the scan goes through, from the task at k on. */
  ghost predicate Passes(docs: seq<Document>, rows: Rows, k: nat, lease: string,
                         fingerprint: string -> Option<string>)
  {
    |docs| > 0 && forall m | 0 <= m < |docs| - 1 :: StepsOver(docs[m], rows, k + m, lease, fingerprint, docs[m+1])
  }

  /** The scan ends with the first task that wins on arrival, and grants it; or behind the last. */
  ghost predicate EndsWell(s: Server, rows: Rows, end: Document, at: nat, lease: string, runtime: string,
                           fingerprint: string -> Option<string>, g: Granted)
  {
    match g.to
    case None => at == |end.tasks| && g.doc == end && g.rows == rows
    case Some(i) =>
      && i == at < |end.tasks| && Wins(end, rows, i, lease, fingerprint)
      && g.doc == end.(tasks := g.doc.tasks) && OnlyTask(end.tasks, i, g.doc.tasks)
      && GrantedTo(end.tasks[i], g.doc.tasks[i], runtime, fingerprint)
      && LeasedTo(rows, g.rows, lease, s.me, end.tasks[i].id, runtime, s.clock)
  }

  lemma Ends(s: Server, doc: Document, rows: Rows, k: nat, lease: string, runtime: string,
             fingerprint: string -> Option<string>)
    requires k <= |doc.tasks| && (k < |doc.tasks| ==> Wins(doc, rows, k, lease, fingerprint))
    ensures EndsWell(s, rows, doc, k, lease, runtime, fingerprint,
                     ClaimScan(doc, rows, k, lease, s.me, runtime, s.clock, fingerprint))
  {
    if k < |doc.tasks| {
      WonMeansWins(doc, rows, k, lease, fingerprint);
    }
  }

  lemma PassesFrom(doc: Document, rest: seq<Document>, rows: Rows, k: nat, lease: string,
                   fingerprint: string -> Option<string>)
    requires Passes(rest, rows, k + 1, lease, fingerprint) && StepsOver(doc, rows, k, lease, fingerprint, rest[0])
    ensures Passes([doc] + rest, rows, k, lease, fingerprint)
  {
    var docs := [doc] + rest;
    forall m | 0 <= m < |docs| - 1 ensures StepsOver(docs[m], rows, k + m, lease, fingerprint, docs[m+1]) {
      if m > 0 {
        assert docs[m] == rest[m-1] && docs[m+1] == rest[m];
        assert StepsOver(rest[m-1], rows, k + 1 + (m - 1), lease, fingerprint, rest[m]);
      }
    }
  }

  ghost predicate Course(s: Server, docs: seq<Document>, rows: Rows, k: nat, lease: string, runtime: string,
                         fingerprint: string -> Option<string>, g: Granted)
  {
    && Passes(docs, rows, k, lease, fingerprint)
    && EndsWell(s, rows, docs[|docs|-1], k + |docs| - 1, lease, runtime, fingerprint, g)
  }

  lemma CourseFrom(s: Server, doc: Document, rest: seq<Document>, rows: Rows, k: nat, lease: string, runtime: string,
                   fingerprint: string -> Option<string>, g: Granted)
    requires Course(s, rest, rows, k + 1, lease, runtime, fingerprint, g)
    requires StepsOver(doc, rows, k, lease, fingerprint, rest[0])
    ensures Course(s, [doc] + rest, rows, k, lease, runtime, fingerprint, g)
  {
    PassesFrom(doc, rest, rows, k, lease, fingerprint);
    assert ([doc] + rest)[|rest|] == rest[|rest|-1];
  }

  lemma {:induction false} ScanFrom(s: Server, doc: Document, rows: Rows, k: nat, lease: string, runtime: string,
                                    fingerprint: string -> Option<string>)
    returns (docs: seq<Document>)
    requires k <= |doc.tasks|
    ensures |docs| > 0 && docs[0] == doc
    ensures Course(s, docs, rows, k, lease, runtime, fingerprint,
                   ClaimScan(doc, rows, k, lease, s.me, runtime, s.clock, fingerprint))
    decreases |doc.tasks| - k
  {
    if k == |doc.tasks| || Wins(doc, rows, k, lease, fingerprint) {
      docs := [doc];
      Ends(s, doc, rows, k, lease, runtime, fingerprint);
    } else {
      var after := GoesOn(s, doc, rows, k, lease, runtime, fingerprint);
      var rest := ScanFrom(s, after, rows, k + 1, lease, runtime, fingerprint);
      docs := [doc] + rest;
      CourseFrom(s, doc, rest, rows, k, lease, runtime, fingerprint,
                 ClaimScan(doc, rows, k, lease, s.me, runtime, s.clock, fingerprint));
    }
  }

  // ---------------------------------------------------------------- the risk scan before it

  /** Ready high-risk work of an active project pauses the whole project. */
  ghost predicate RiskSeen(doc: Document, k: nat)
    requires k < |doc.tasks|
  {
    var t, p := doc.tasks[k], FindProject(doc.projects, doc.tasks[k].project);
    t.dispatch == Ready && t.highRisk && p.Some? && p.value.mode == Active
  }

  ghost predicate RiskStep(doc: Document, k: nat, after: Document) {
    && k < |doc.tasks| == |after.tasks|
    && if RiskSeen(doc, k) then PausedFor(doc, doc.tasks[k], true, "high_risk", after) else after == doc
  }

  ghost predicate RiskPasses(docs: seq<Document>, k: nat) {
    |docs| > 0 && forall m | 0 <= m < |docs| - 1 :: RiskStep(docs[m], k + m, docs[m+1])
  }

  lemma RiskPassesFrom(doc: Document, rest: seq<Document>, k: nat)
    requires RiskPasses(rest, k + 1) && RiskStep(doc, k, rest[0])
    ensures RiskPasses([doc] + rest, k)
  {
    var docs := [doc] + rest;
    forall m | 0 <= m < |docs| - 1 ensures RiskStep(docs[m], k + m, docs[m+1]) {
      if m > 0 {
        assert docs[m] == rest[m-1] && docs[m+1] == rest[m];
        assert RiskStep(rest[m-1], k + 1 + (m - 1), rest[m]);
      }
    }
  }

  lemma {:induction false} RiskFrom(doc: Document, k: nat) returns (docs: seq<Document>)
    requires k <= |doc.tasks|
    ensures RiskPasses(docs, k) && docs[0] == doc && docs[|docs|-1] == RiskScan(doc, k)
    ensures |docs| == |doc.tasks| - k + 1
    decreases |doc.tasks| - k
  {
    docs := [doc];
    if k < |doc.tasks| {
      var t := doc.tasks[k];
      var after := if RiskSeen(doc, k) then PausedDocument(doc, t.project, t.id, "high_risk") else doc;
      PauseIsFor(doc, t, "high_risk");
      var rest := RiskFrom(after, k + 1);
      docs := docs + rest;
      RiskPassesFrom(doc, rest, k);
    }
  }

  // ---------------------------------------------------------------- what a claim means

  /** The whole course of a claim: first the risk scan over all tasks, then the scan for the
      first task that wins. */
  lemma ClaimMeans(s: Server, lease: string, runtime: string, fingerprint: string -> Option<string>, save: Save, n: nat,
                   t: Server)
    returns (risk: seq<Document>, docs: seq<Document>)
    requires ClaimStep(s, lease, Scanned(s, lease, runtime, fingerprint), save, n, t)
    ensures RiskPasses(risk, 0) && |risk| == |s.doc.tasks| + 1 && risk[0] == s.doc
    ensures |docs| > 0 && docs[0] == risk[|risk|-1]
    ensures var g := Scanned(s, lease, runtime, fingerprint);
      && Course(s, docs, s.rows, 0, lease, runtime, fingerprint, g)
      && t.doc == if save == SaveLost then s.doc else g.doc
  {
    risk := RiskFrom(s.doc, 0);
    docs := ScanFrom(s, RiskScan(s.doc, 0), s.rows, 0, lease, runtime, fingerprint);
  }

  // ---------------------------------------------------------------- seen from before the claim

  /** A task during a claim: as it was, its inputs perhaps recorded, or else paused and out of
      everybody's hands. Finished work is never touched. */
  predicate KeptTask(was: Task, now: Task, fingerprint: string -> Option<string>) {
    && was == now.(baseline := was.baseline, pauseReason := was.pauseReason, dispatch := was.dispatch,
                   runtime := was.runtime, rowVersion := was.rowVersion)
    && (now.pauseReason == "" || was.dispatch == Done ==> was == now.(baseline := was.baseline))
    && (now.dispatch != was.dispatch ==> now.dispatch == Released)
    && (now.baseline != was.baseline ==> was.baseline == "" && fingerprint(was.id) == Some(now.baseline))
  }

  predicate NothingOpen(tasks: seq<Task>, project: string) {
    forall t | t in tasks && t.project == project :: t.dispatch == Done || t.pauseReason != ""
  }

  /** A project during a claim: as it was, or blocked with all its unfinished tasks paused. */
  predicate KeptProject(was: Project, now: Project, tasks: seq<Task>) {
    && now.id == was.id
    && (now == was || (now.mode == Paused && NothingOpen(tasks, was.id)))
  }

  ghost predicate Kept(doc: Document, after: Document, fingerprint: string -> Option<string>) {
    && |after.tasks| == |doc.tasks| && |after.projects| == |doc.projects|
    && (forall k | 0 <= k < |doc.tasks| :: KeptTask(doc.tasks[k], after.tasks[k], fingerprint))
    && (forall k | 0 <= k < |doc.projects| :: KeptProject(doc.projects[k], after.projects[k], after.tasks))
  }

  lemma KeptTwice(doc: Document, mid: Document, after: Document, fingerprint: string -> Option<string>)
    requires Kept(doc, mid, fingerprint) && Kept(mid, after, fingerprint)
    ensures Kept(doc, after, fingerprint)
  {
    forall k | 0 <= k < |doc.projects| ensures KeptProject(doc.projects[k], after.projects[k], after.tasks) {
      assert KeptProject(doc.projects[k], mid.projects[k], mid.tasks);
      assert KeptProject(mid.projects[k], after.projects[k], after.tasks);
      forall t | t in after.tasks && t.project == doc.projects[k].id && mid.projects[k] != doc.projects[k]
        ensures t.dispatch == Done || t.pauseReason != ""
      {
        var j :| 0 <= j < |after.tasks| && after.tasks[j] == t;
        assert KeptTask(mid.tasks[j], after.tasks[j], fingerprint) && mid.tasks[j] in mid.tasks;
      }
    }
  }

  lemma PausedIsKept(doc: Document, t: Task, wide: bool, reason: string, after: Document,
                     fingerprint: string -> Option<string>)
    requires PausedFor(doc, t, wide, reason, after) && reason != ""
    ensures Kept(doc, after, fingerprint)
  {
    forall k | 0 <= k < |doc.projects| ensures KeptProject(doc.projects[k], after.projects[k], after.tasks) {
      if wide && doc.projects[k].id == t.project {
        forall u | u in after.tasks && u.project == t.project ensures u.dispatch == Done || u.pauseReason != "" {
          var j :| 0 <= j < |after.tasks| && after.tasks[j] == u;
          assert Reached(doc.tasks, t.project, t.id, wide, doc.tasks[j]);
        }
      }
    }
  }

  lemma OverIsKept(doc: Document, rows: Rows, k: nat, lease: string, fingerprint: string -> Option<string>,
                   after: Document)
    requires StepsOver(doc, rows, k, lease, fingerprint, after)
    ensures Kept(doc, after, fingerprint)
  {
    var t := doc.tasks[k];
    if InQueue(t) && FreeToWork(doc, t) {
      if DirectoryBusy(doc.tasks, t) {
        PausedIsKept(doc, t, true, "shared_directory_conflict", after, fingerprint);
      } else if t.baseline == "" && fingerprint(t.id).None? {
        PausedIsKept(doc, t, t.id == "", "acceptance_inputs_unavailable", after, fingerprint);
      }
    }
  }

  ghost predicate StepsKeep(docs: seq<Document>, fingerprint: string -> Option<string>) {
    forall m | 0 <= m < |docs| - 1 :: Kept(docs[m], docs[m+1], fingerprint)
  }

  lemma PassesKeep(docs: seq<Document>, rows: Rows, k: nat, lease: string, fingerprint: string -> Option<string>)
    requires Passes(docs, rows, k, lease, fingerprint)
    ensures StepsKeep(docs, fingerprint)
  {
    forall m | 0 <= m < |docs| - 1 ensures Kept(docs[m], docs[m+1], fingerprint) {
      OverIsKept(docs[m], rows, k + m, lease, fingerprint, docs[m+1]);
    }
  }

  lemma RiskIsKept(doc: Document, k: nat, after: Document, fingerprint: string -> Option<string>)
    requires RiskStep(doc, k, after)
    ensures Kept(doc, after, fingerprint)
  {
    if RiskSeen(doc, k) {
      PausedIsKept(doc, doc.tasks[k], true, "high_risk", after, fingerprint);
    }
  }

  lemma RiskPassesKeep(docs: seq<Document>, fingerprint: string -> Option<string>)
    requires RiskPasses(docs, 0)
    ensures StepsKeep(docs, fingerprint)
  {
    forall m | 0 <= m < |docs| - 1 ensures Kept(docs[m], docs[m+1], fingerprint) {
      assert RiskStep(docs[m], 0 + m, docs[m+1]);
      RiskIsKept(docs[m], m, docs[m+1], fingerprint);
    }
  }

  lemma {:induction false} KeptThrough(docs: seq<Document>, fingerprint: string -> Option<string>, a: nat, b: nat)
    requires StepsKeep(docs, fingerprint) && a <= b < |docs|
    ensures Kept(docs[a], docs[b], fingerprint)
    decreases b - a
  {
    if a < b {
      KeptThrough(docs, fingerprint, a, b - 1);
      assert Kept(docs[b-1], docs[b-1+1], fingerprint);
      KeptTwice(docs[a], docs[b-1], docs[b], fingerprint);
    }
  }

  /** Lookups give the same task or project, as far as it is kept. */
  lemma {:induction false} KeptFind(tasks: seq<Task>, after: seq<Task>, d: string,
                                    fingerprint: string -> Option<string>)
    requires |tasks| == |after| && forall k | 0 <= k < |tasks| :: KeptTask(tasks[k], after[k], fingerprint)
    ensures FindTask(tasks, d).Some? == FindTask(after, d).Some?
    ensures FindTask(tasks, d).Some? ==> KeptTask(FindTask(tasks, d).value, FindTask(after, d).value, fingerprint)
  {
    if tasks != [] && tasks[0].id != d {
      KeptFind(tasks[1..], after[1..], d, fingerprint);
    }
  }

  lemma {:induction false} KeptFindProject(projects: seq<Project>, after: seq<Project>, tasks: seq<Task>, id: string)
    requires |projects| == |after|
        && forall k | 0 <= k < |projects| :: KeptProject(projects[k], after[k], tasks)
    ensures FindProject(projects, id).Some? == FindProject(after, id).Some?
    ensures FindProject(projects, id).Some? ==>
        KeptProject(FindProject(projects, id).value, FindProject(after, id).value, tasks)
  {
    if projects != [] && projects[0].id != id {
      KeptFindProject(projects[1..], after[1..], tasks, id);
    }
  }

  lemma KeptDependencies(doc: Document, after: Document, t: Task, fingerprint: string -> Option<string>)
    requires Kept(doc, after, fingerprint)
    ensures (forall d | d in t.dependsOn :: DependencyMet(doc.tasks, d))
        <==> (forall d | d in t.dependsOn :: DependencyMet(after.tasks, d))
  {
    forall d | d in t.dependsOn ensures DependencyMet(doc.tasks, d) <==> DependencyMet(after.tasks, d) {
      KeptFind(doc.tasks, after.tasks, d, fingerprint);
    }
  }

  /** A task that is still unpaused is as free to work as it was. */
  lemma KeptFree(doc: Document, after: Document, k: nat, fingerprint: string -> Option<string>)
    requires Kept(doc, after, fingerprint) && k < |doc.tasks| && after.tasks[k].pauseReason == ""
        && doc.tasks[k].dispatch != Done
    ensures FreeToWork(doc, doc.tasks[k]) <==> FreeToWork(after, after.tasks[k])
  {
    assert KeptTask(doc.tasks[k], after.tasks[k], fingerprint);
    KeptDependencies(doc, after, doc.tasks[k], fingerprint);
    KeptFindProject(doc.projects, after.projects, after.tasks, doc.tasks[k].project);
    assert after.tasks[k] in after.tasks;
  }

  lemma KeptBusy(doc: Document, after: Document, k: nat, fingerprint: string -> Option<string>)
    requires Kept(doc, after, fingerprint) && k < |doc.tasks| && DirectoryBusy(after.tasks, after.tasks[k])
    ensures DirectoryBusy(doc.tasks, doc.tasks[k])
  {
    assert KeptTask(doc.tasks[k], after.tasks[k], fingerprint);
    var o :| o in after.tasks && o.id != after.tasks[k].id && o.project == after.tasks[k].project
      && o.dispatch == Claimed && WritesFiles(o);
    var j :| 0 <= j < |after.tasks| && after.tasks[j] == o;
    assert KeptTask(doc.tasks[j], after.tasks[j], fingerprint) && doc.tasks[j] in doc.tasks;
  }

  // ---------------------------------------------------------------- the two main statements

  /** A task that would have won before the claim and is passed over was paused by the claim. */
  lemma PassedIsPaused(doc: Document, arrival: Document, rows: Rows, k: nat, lease: string,
                       fingerprint: string -> Option<string>)
    requires Kept(doc, arrival, fingerprint) && k < |doc.tasks|
    requires Wins(doc, rows, k, lease, fingerprint) && !Wins(arrival, rows, k, lease, fingerprint)
    ensures arrival.tasks[k].pauseReason != ""
  {
    if arrival.tasks[k].pauseReason == "" {
      assert KeptTask(doc.tasks[k], arrival.tasks[k], fingerprint);
      KeptFree(doc, arrival, k, fingerprint);
      if DirectoryBusy(arrival.tasks, arrival.tasks[k]) {
        KeptBusy(doc, arrival, k, fingerprint);
      }
    }
  }

  lemma ArrivalGrant(doc: Document, arrival: Document, g: Document, rows: Rows, i: nat, lease: string, runtime: string,
                     fingerprint: string -> Option<string>)
    requires Kept(doc, arrival, fingerprint) && i < |doc.tasks|
    requires Wins(arrival, rows, i, lease, fingerprint)
    requires OnlyTask(arrival.tasks, i, g.tasks) && GrantedTo(arrival.tasks[i], g.tasks[i], runtime, fingerprint)
    ensures InQueue(doc.tasks[i]) && FreeToWork(doc, doc.tasks[i]) && Unheld(rows, lease, doc.tasks[i].id)
    ensures GrantedTo(doc.tasks[i], g.tasks[i], runtime, fingerprint)
    ensures !DirectoryBusy(g.tasks, g.tasks[i])
  {
    assert KeptTask(doc.tasks[i], arrival.tasks[i], fingerprint);
    KeptFree(doc, arrival, i, fingerprint);
    forall o | o in g.tasks && o.id != g.tasks[i].id ensures o in arrival.tasks {
      var j :| 0 <= j < |g.tasks| && g.tasks[j] == o;
      assert arrival.tasks[j] == o;
    }
  }

  /** The documents of a claim put together. */
  lemma CourseKeeps(s: Server, lease: string, runtime: string, fingerprint: string -> Option<string>)
    returns (docs: seq<Document>)
    ensures |docs| > 0 && Course(s, docs, s.rows, 0, lease, runtime, fingerprint,
                                 Scanned(s, lease, runtime, fingerprint))
    ensures forall m | 0 <= m < |docs| ::
        Kept(s.doc, docs[m], fingerprint) && Kept(docs[m], docs[|docs|-1], fingerprint)
  {
    var risk := RiskFrom(s.doc, 0);
    docs := ScanFrom(s, RiskScan(s.doc, 0), s.rows, 0, lease, runtime, fingerprint);
    RiskPassesKeep(risk, fingerprint);
    PassesKeep(docs, s.rows, 0, lease, fingerprint);
    KeptThrough(risk, fingerprint, 0, |risk| - 1);
    forall m | 0 <= m < |docs|
      ensures Kept(s.doc, docs[m], fingerprint) && Kept(docs[m], docs[|docs|-1], fingerprint)
    {
      KeptThrough(docs, fingerprint, 0, m);
      KeptThrough(docs, fingerprint, m, |docs| - 1);
      KeptTwice(s.doc, docs[0], docs[m], fingerprint);
    }
  }

  lemma PassedStaysPaused(s: Server, docs: seq<Document>, j: nat, lease: string, runtime: string,
                          fingerprint: string -> Option<string>, g: Granted)
    requires |docs| > 0 && Course(s, docs, s.rows, 0, lease, runtime, fingerprint, g)
    requires forall m | 0 <= m < |docs| ::
        Kept(s.doc, docs[m], fingerprint) && Kept(docs[m], docs[|docs|-1], fingerprint)
    requires j < |s.doc.tasks| && (g.to.Some? ==> j < g.to.value) && Wins(s.doc, s.rows, j, lease, fingerprint)
    ensures j < |g.doc.tasks| && g.doc.tasks[j].pauseReason != ""
  {
    var end := docs[|docs|-1];
    assert j < |docs| - 1;
    assert StepsOver(docs[j], s.rows, 0 + j, lease, fingerprint, docs[j+1]);
    PassedIsPaused(s.doc, docs[j], s.rows, j, lease, fingerprint);
    assert Kept(docs[j], end, fingerprint);
    assert KeptTask(docs[j].tasks[j], end.tasks[j], fingerprint);
  }

  /** A granted task was waiting in the queue, unpaused, low-risk, with every dependency done and
      verified, in an open state or in its project's milestone, and held by nobody; it is claimed
      for the runtime and two minutes, with its inputs recorded, and is the only task writing in
      its directory. Every task before it that met the same conditions has been paused by this
      very claim, and so has every such task when nothing is granted. */
  lemma GrantMeans(s: Server, lease: string, runtime: string, fingerprint: string -> Option<string>)
    requires lease !in s.rows
    ensures var g := Scanned(s, lease, runtime, fingerprint);
      && |g.doc.tasks| == |s.doc.tasks|
      && (g.to.Some? ==>
            var i := g.to.value;
            && i < |s.doc.tasks| && InQueue(s.doc.tasks[i]) && FreeToWork(s.doc, s.doc.tasks[i])
            && Unheld(s.rows, lease, s.doc.tasks[i].id)
            && GrantedTo(s.doc.tasks[i], g.doc.tasks[i], runtime, fingerprint)
            && LeasedTo(s.rows, g.rows, lease, s.me, s.doc.tasks[i].id, runtime, s.clock)
            && !DirectoryBusy(g.doc.tasks, g.doc.tasks[i]))
      && (g.to.None? ==> g.rows == s.rows)
      && (forall j | 0 <= j < |s.doc.tasks| && (g.to.Some? ==> j < g.to.value)
              && Wins(s.doc, s.rows, j, lease, fingerprint) :: g.doc.tasks[j].pauseReason != "")
  {
    var g := Scanned(s, lease, runtime, fingerprint);
    var docs := CourseKeeps(s, lease, runtime, fingerprint);
    if g.to.Some? {
      ArrivalGrant(s.doc, docs[|docs|-1], g.doc, s.rows, g.to.value, lease, runtime, fingerprint);
    }
    forall j | 0 <= j < |s.doc.tasks| && (g.to.Some? ==> j < g.to.value) && Wins(s.doc, s.rows, j, lease, fingerprint)
      ensures g.doc.tasks[j].pauseReason != ""
    {
      PassedStaysPaused(s, docs, j, lease, runtime, fingerprint, g);
    }
  }

  /** No other task changes in a claim but by having its inputs recorded or by being paused. */
  lemma ClaimKeeps(s: Server, lease: string, runtime: string, fingerprint: string -> Option<string>, k: nat)
    requires lease !in s.rows && k < |s.doc.tasks|
    ensures var g := Scanned(s, lease, runtime, fingerprint);
      && |g.doc.tasks| == |s.doc.tasks|
      && (g.to != Some(k) ==> KeptTask(s.doc.tasks[k], g.doc.tasks[k], fingerprint))
      && (g.to == Some(k) ==> GrantedTo(s.doc.tasks[k], g.doc.tasks[k], runtime, fingerprint))
  {
    GrantMeans(s, lease, runtime, fingerprint);
    var docs := CourseKeeps(s, lease, runtime, fingerprint);
    assert KeptTask(s.doc.tasks[k], docs[|docs|-1].tasks[k], fingerprint);
  }
}
