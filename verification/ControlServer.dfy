/** The server as it runs: one document, one lease table and the requests in flight, updated in
    place. Every method is a step of the protocol, so everything proved of runs holds of it. */
module ControlServer {
  import opened Basics
  import opened ProjectState
  import opened TaskContract
  import opened Pause
  import opened Takeover
  import opened LeaseTable
  import opened Protocol

  /** Where the database stops answering while n leases are to be looked at. */
  function Reached(failAfter: nat, n: nat): nat {
    if failAfter < n then failAfter else n
  }

  class Service {
    const me: string
    const claims: ClaimTable
    var stored: Document
    var requests: map<nat, Request>
    var verifying: map<string, nat>
    ghost var learned: set<string>
    var undo: multiset<string>

    ghost function View(now: int): Server
      reads this, claims
    {
      Server(me, stored, claims.rows, requests, verifying, learned, undo, now)
    }

    constructor (me: string, doc: Document)
      ensures this.me == me && fresh(claims) && claims.rows == map[] && stored == doc
      ensures requests == map[] && verifying == map[] && learned == {} && undo == multiset{}
    {
      this.me := me;
      claims := new ClaimTable();
      stored := doc;
      requests, verifying, learned, undo := map[], map[], {}, multiset{};
    }

    /** Closes the leases of closed tasks, in stored order, until the database fails. */
    method RevokeClosedClaims(doc: Document, failAfter: nat, now: int) returns (ok: bool)
      modifies claims
      ensures claims.rows == RevokeClosed(doc, old(claims.rows), me, Reached(failAfter, |doc.tasks|), now)
      ensures ok <==> failAfter >= |doc.tasks|
    {
      var n := Reached(failAfter, |doc.tasks|);
      for i := 0 to n
        invariant claims.rows == RevokeClosed(doc, old(claims.rows), me, i, now)
      {
        if ExecutionClosed(doc, doc.tasks[i]) {
          claims.RevokeTaskClaims(me, doc.tasks[i].id, now);
        }
      }
      ok := n == |doc.tasks|;
    }

    /** The end of a transaction: write the document, then revoke. */
    method Finish(doc: Document, save: Save, failAfter: nat, now: int) returns (ok: bool)
      modifies this`stored, claims
      ensures stored == (if save == SaveLost then old(stored) else doc)
      ensures claims.rows == if save == Saved
          then RevokeClosed(doc, old(claims.rows), me, Reached(failAfter, |doc.tasks|), now) else old(claims.rows)
      ensures ok <==> TxOk(doc, save, Reached(failAfter, |doc.tasks|))
    {
      if save != SaveLost {
        stored := doc;
      }
      if save != Saved {
        return false;
      }
      ok := RevokeClosedClaims(doc, failAfter, now);
    }

    method FindStored(id: string) returns (i: nat)
      ensures i <= |stored.tasks| && (i < |stored.tasks| ==> stored.tasks[i].id == id)
      ensures i == |stored.tasks| ==> forall k | 0 <= k < |stored.tasks| :: stored.tasks[k].id != id
    {
      i := 0;
      while i < |stored.tasks| && stored.tasks[i].id != id
        invariant i <= |stored.tasks|
        invariant forall k | 0 <= k < i :: stored.tasks[k].id != id
      {
        i := i + 1;
      }
    }

    // -------------------------------------------------------------- claiming

    /** Pauses the projects of risky tasks that are ready. */
    method PauseRisky(work: ControlDocument)
      modifies work
      ensures work.Doc() == RiskScan(old(work.Doc()), 0)
    {
      var n := |work.tasks|;
      for i := 0 to n
        invariant |work.tasks| == n && RiskScan(old(work.Doc()), 0) == RiskScan(work.Doc(), i)
      {
        var t := work.tasks[i];
        var p := FindProject(work.projects, t.project);
        if t.dispatch == Ready && p.Some? && p.value.mode == Active && t.highRisk {
          work.PauseControlState(t.project, t.id, "high_risk");
        }
      }
    }

    /** Judges one task: skips it, pauses what is unsafe, or tries the lease. */
    method TryTask(work: ControlDocument, i: nat, lease: string, runtime: string,
                   fingerprint: string -> Option<string>, now: int)
      returns (won: bool)
      requires i < |work.tasks|
      modifies work, claims
      ensures var v := Judge(old(work.Doc()), old(claims.rows), i, lease, fingerprint);
        && work.Doc() == Judged(old(work.Doc()), i, v, runtime) && (won <==> v.Won?)
        && claims.rows == if won then Apply(Insert(lease, me, old(work.tasks[i].id), runtime), old(claims.rows), now)
             else old(claims.rows)
    {
      var t := work.tasks[i];
      if !Claimable(t) || !ClaimAllowed(Document(work.projects, work.tasks, work.attempts, work.runs), t) {
        return false;
      }
      if SharedDirectoryConflict(work.tasks, t) {
        work.PauseControlState(t.project, t.id, "shared_directory_conflict");
        return false;
      }
      if t.baseline == "" {
        if fingerprint(t.id).None? {
          work.PauseControlState(t.project, t.id, "acceptance_inputs_unavailable");
          return false;
        }
        t := t.(baseline := fingerprint(t.id).value);
      }
      won := false;
      if !Blank(t.id) {
        won := claims.TryClaim(lease, me, t.id, runtime, now);
      }
      if won {
        t := t.(dispatch := Claimed, runtime := runtime, rowVersion := t.rowVersion + 1);
      }
      work.tasks := work.tasks[i := t];
    }

    /** Gives the lease to the first task that may have it. */
    method ScanForClaim(work: ControlDocument, lease: string, runtime: string, fingerprint: string -> Option<string>,
                        now: int)
      returns (to: Option<nat>)
      modifies work, claims
      ensures Granted(work.Doc(), claims.rows, to) ==
              ClaimScan(old(work.Doc()), old(claims.rows), 0, lease, me, runtime, now, fingerprint)
    {
      var n := |work.tasks|;
      for i := 0 to n
        invariant |work.tasks| == n && claims.rows == old(claims.rows)
        invariant ClaimScan(old(work.Doc()), old(claims.rows), 0, lease, me, runtime, now, fingerprint) ==
                  ClaimScan(work.Doc(), claims.rows, i, lease, me, runtime, now, fingerprint)
      {
        JudgedLength(work.Doc(), i, Judge(work.Doc(), claims.rows, i, lease, fingerprint), runtime);
        var won := TryTask(work, i, lease, runtime, fingerprint, now);
        if won {
          return Some(i);
        }
      }
      return None;
    }

    /** The agent's request for work. A lease whose transaction fails is still to be given back. */
    method AgentClaim(lease: string, runtime: string, agent: string, fingerprint: string -> Option<string>,
                      save: Save, failAfter: nat, now: int)
      returns (r: Outcome, task: Option<string>)
      requires lease !in claims.rows
      modifies this, claims
      ensures r == Rejected(Invalid) <==> Blank(runtime) || Blank(agent)
      ensures r == Rejected(Invalid) ==> View(now) == old(View(now))
      ensures r != Rejected(Invalid) ==>
        exists n ::
            ClaimStep(old(View(now)), lease, Scanned(old(View(now)), lease, runtime, fingerprint), save, n, View(now))
      ensures r == Accepted && task.Some? ==> lease in learned
      ensures r != Accepted ==> task.None? && learned == old(learned)
    {
      task := None;
      if Blank(runtime) || Blank(agent) {
        return Rejected(Invalid), None;
      }
      ghost var before := View(now);
      var work := new ControlDocument(stored);
      PauseRisky(work);
      var to := ScanForClaim(work, lease, runtime, fingerprint, now);
      ghost var g := Scanned(before, lease, runtime, fingerprint);
      assert g == Granted(work.Doc(), claims.rows, to);
      ScannedGrant(before, lease, runtime, fingerprint);
      var doc := Document(work.projects, work.tasks, work.attempts, work.runs);
      var ok := Finish(doc, save, failAfter, now);
      ghost var n := Reached(failAfter, |doc.tasks|);
      if !ok {
        if to.Some? {
          undo := undo + multiset{doc.tasks[to.value].id};
        }
        assert ClaimStep(before, lease, g, save, n, View(now));
        return Rejected(Unavailable), None;
      }
      if to.Some? {
        learned := learned + {lease};
        task := Some(doc.tasks[to.value].id);
      }
      assert ClaimStep(before, lease, g, save, n, View(now));
      return Accepted, task;
    }

    /** Gives back what a failed claim was left with, if the database lets it. */
    method RollBackClaim(task: string, reached: bool, now: int)
      requires task in undo
      modifies this`undo, claims
      ensures RollBackStep(old(View(now)), task, reached, View(now))
    {
      undo := undo - multiset{task};
      if reached {
        claims.RevokeTaskClaims(me, task, now);
      }
    }

    // -------------------------------------------------------------- holding and losing a lease

    /** An agent acts under its lease: the gate of every step it takes. */
    method RequireLease(i: nat, lease: string, now: int) returns (ok: bool)
      requires i < |stored.tasks|
      ensures ok <==> LeaseGood(stored, claims.rows, me, i, lease, now)
    {
      if !ClaimAllowed(stored, stored.tasks[i]) || stored.tasks[i].dispatch != Claimed {
        return false;
      }
      if lease !in claims.rows || claims.rows[lease].user != me {
        return false;
      }
      var row := claims.rows[lease];
      return row.task == stored.tasks[i].id && row.status == LeaseActive && row.expires > now;
    }

    method AgentHeartbeat(lease: string, save: Save, failAfter: nat, now: int) returns (r: Outcome)
      modifies this`stored, claims
      ensures r == Accepted ==>
        exists i, n :: LeaseGood(old(stored), old(claims.rows), me, i, lease, now)
          && RenewStep(old(View(now)), i, lease, save, n, View(now))
      ensures r == Rejected(NotFound) ==> View(now) == old(View(now))
      ensures old(UniqueTaskIds(stored.tasks)) ==>
        (r == Rejected(NotFound) <==> forall i: nat :: !LeaseGood(old(stored), old(claims.rows), me, i, lease, now))
      ensures r == Rejected(Unavailable) ==> exists i, n :: RenewStep(old(View(now)), i, lease, save, n, View(now))
      ensures r.Rejected? ==> r.error in {NotFound, Unavailable}
    {
      if lease !in claims.rows || claims.rows[lease].user != me {
        return Rejected(NotFound);
      }
      var i := FindStored(claims.rows[lease].task);
      if i == |stored.tasks| {
        return Rejected(NotFound);
      }
      var good := RequireLease(i, lease, now);
      if !good {
        return Rejected(NotFound);
      }
      ghost var before := View(now);
      var beat := claims.Heartbeat(me, lease, now);
      var doc := stored;
      var ok := Finish(doc, save, failAfter, now);
      assert RenewStep(before, i, lease, save, Reached(failAfter, |doc.tasks|), View(now));
      return if ok then Accepted else Rejected(Unavailable);
    }

    /** The sweep closes overdue leases; each swept lease is then handled on its own. */
    method SweepLeases(now: int) returns (expired: set<string>)
      modifies claims
      ensures View(now) == old(View(now)).(rows := Apply(Sweep(me), old(claims.rows), now))
      ensures expired == set id | id in old(claims.rows) && Stale(old(claims.rows)[id], me, now)
                                    && old(claims.rows)[id].user == me
      ensures forall id | id in expired :: id in claims.rows && claims.rows[id].status == LeaseExpired
    {
      expired := claims.ExpireStale(me, now);
      expired := set id | id in expired && claims.rows[id].user == me;
    }

    /** The document with the task of the lease paused, unless a newer lease is in force. */
    method DocumentExpired(i: nat, lease: string, now: int) returns (doc: Document)
      ensures doc == ExpiredDocument(View(now), i, lease)
    {
      if i >= |stored.tasks| || NewerLease(claims.rows, me, lease, stored.tasks[i].id) {
        return stored;
      }
      var work := new ControlDocument(stored);
      work.PauseControlState(stored.tasks[i].project, stored.tasks[i].id, "heartbeat_lost");
      return Document(work.projects, work.tasks, work.attempts, work.runs);
    }

    /** Pauses the task of a swept lease, unless a newer lease is in force. */
    method ApplyExpired(lease: string, save: Save, failAfter: nat, now: int) returns (r: Outcome)
      requires lease in claims.rows && claims.rows[lease].status == LeaseExpired
      modifies this`stored, claims
      ensures exists i, n :: ExpireStep(old(View(now)), i, lease, save, n, View(now))
      ensures r == Accepted ==> Swept(stored, claims.rows, me)
    {
      var i := FindStored(claims.rows[lease].task);
      ghost var before := View(now);
      var doc := DocumentExpired(i, lease, now);
      var ok := Finish(doc, save, failAfter, now);
      ghost var n := Reached(failAfter, |doc.tasks|);
      assert ExpireStep(before, i, lease, save, n, View(now));
      if ok {
        TransactedSweeps(before, doc, before.rows, save, n, View(now));
      }
      return if ok then Accepted else Rejected(Unavailable);
    }

    // -------------------------------------------------------------- verification

    /** A release request reads the task it is about; the command is fixed from here on. */
    method LoadRelease(q: nat, lease: string, now: int) returns (r: Outcome)
      requires q !in requests && lease in learned
      modifies this`requests
      ensures r == Accepted ==> exists i :: LoadStep(old(View(now)), q, i, lease, View(now))
      ensures r != Accepted ==> r == Rejected(NotFound) && View(now) == old(View(now))
    {
      if lease !in claims.rows {
        return Rejected(NotFound);
      }
      var i := FindStored(claims.rows[lease].task);
      if i == |stored.tasks| {
        return Rejected(NotFound);
      }
      ghost var before := View(now);
      requests := requests[q := Request(lease, stored.tasks[i].id, stored.tasks[i].command, Loaded)];
      assert LoadStep(before, q, i, lease, View(now));
      return Accepted;
    }

    /** Entry to verification is a transaction of its own, and at most one runs per task. */
    method BeginVerification(q: nat, save: Save, failAfter: nat, now: int) returns (r: Outcome)
      requires q in requests && requests[q].phase == Loaded && requests[q].command != []
      modifies this`stored, this`requests, this`verifying, claims
      ensures r == Rejected(NotFound) ==> View(now) == old(View(now))
      ensures r != Rejected(NotFound) ==> exists i, n :: BeginStep(old(View(now)), q, i, save, n, View(now))
      ensures r == Accepted <==> q in requests && requests[q].phase == Verifying
      ensures r == Accepted ==> old(requests[q].task !in verifying) && Swept(stored, claims.rows, me)
    {
      var request := requests[q];
      var i := FindStored(request.task);
      if i == |stored.tasks| {
        return Rejected(NotFound);
      }
      ghost var before := View(now);
      var good := RequireLease(i, request.lease, now);
      if !good || request.task in verifying {
        requests := requests[q := request.(phase := Refused)];
        assert BeginStep(before, q, i, save, 0, View(now));
        return Rejected(Conflict);
      }
      verifying := verifying[request.task := q];
      var doc := stored;
      var ok := Finish(doc, save, failAfter, now);
      requests := requests[q := request.(phase := if ok then Verifying else Refused)];
      ghost var n := Reached(failAfter, |doc.tasks|);
      assert BeginStep(before, q, i, save, n, View(now));
      if ok {
        TransactedSweeps(before, doc, before.rows, save, n, View(now));
      }
      return if ok then Accepted else Rejected(Unavailable);
    }

    /** What a verified release does to the document. */
    method SettlePassed(work: ControlDocument, i: nat)
      requires i < |work.tasks| && UniqueProjectIds(work.projects)
      modifies work
      ensures work.Doc() == PassedDocument(old(work.Doc()), i)
    {
      var t := work.tasks[i];
      work.tasks := work.tasks[i := t.(passed := true, failures := 0, dispatch := Done, runtime := "")];
      ghost var mid := work.Doc();
      work.AdvanceMilestoneReview(t.project);
      assert work.projects == Reviewed(mid, t.project).projects;
      work.tasks := work.tasks[i := work.tasks[i].(rowVersion := work.tasks[i].rowVersion + 1)];
    }

    /** Counts the failure, if it was the verification that failed. */
    method NoteFailure(work: ControlDocument, i: nat, verified: bool)
      requires i < |work.tasks|
      modifies work`tasks
      ensures work.Doc() == Noted(old(work.Doc()), i, verified)
    {
      var t := work.tasks[i];
      work.tasks := work.tasks[i := t.(failures := if verified then t.failures + 1 else t.failures, passed := false)];
    }

    /** What a failed release does to the document. */
    method SettleFailed(work: ControlDocument, i: nat, verified: bool)
      requires i < |work.tasks|
      modifies work
      ensures work.Doc() == FailedDocument(old(work.Doc()), i, verified)
    {
      NoteFailure(work, i, verified);
      var t := work.tasks[i];
      work.PauseControlState(t.project, t.id, FailureReason(verified, t.failures));
      work.tasks := work.tasks[i := work.tasks[i].(rowVersion := work.tasks[i].rowVersion + 1)];
    }

    /** The document of a release: the one of a passed, or of a failed verification. */
    method SettledDocument(i: nat, passed: bool) returns (doc: Document)
      requires i < |stored.tasks| && UniqueProjectIds(stored.projects)
      ensures doc == VerifiedDocument(stored, i, passed)
    {
      var work := new ControlDocument(stored);
      if passed {
        SettlePassed(work, i);
      } else {
        SettleFailed(work, i, true);
      }
      doc := Document(work.projects, work.tasks, work.attempts, work.runs);
    }

    /** The verdict of the command counts only if the lease still holds. */
    method CommitVerification(q: nat, passed: bool, save: Save, failAfter: nat, now: int) returns (r: Outcome)
      requires q in requests && requests[q].phase == Verifying && UniqueProjectIds(stored.projects)
      modifies this`stored, this`requests, claims
      ensures r == Rejected(NotFound) ==> View(now) == old(View(now))
      ensures r != Rejected(NotFound) ==> exists i, n :: CommitStep(old(View(now)), q, i, passed, save, n, View(now))
      ensures r == Rejected(Closed) ==> stored == old(stored) && claims.rows == old(claims.rows)
      ensures r == Accepted ==> Swept(stored, claims.rows, me)
    {
      var request := requests[q];
      var i := FindStored(request.task);
      if i == |stored.tasks| {
        return Rejected(NotFound);
      }
      ghost var before := View(now);
      requests := requests[q := request.(phase := Phase.Finished)];
      var good := RequireLease(i, request.lease, now);
      if !good {
        assert CommitStep(before, q, i, passed, save, 0, View(now));
        return Rejected(Closed);
      }
      var released := claims.Release(me, request.lease, now);
      var doc := SettledDocument(i, passed);
      var ok := Finish(doc, save, failAfter, now);
      ghost var n := Reached(failAfter, |doc.tasks|);
      assert CommitStep(before, q, i, passed, save, n, View(now));
      if ok {
        TransactedSweeps(before, doc, Apply(Close(me, request.lease), before.rows, now), save, n, View(now));
      }
      return if ok then Accepted else Rejected(Unavailable);
    }
  }
}
