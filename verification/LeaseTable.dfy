/** The lease table: one exclusive, time-bounded hold per task, for the tasks of all users. */
module LeaseTable {
  import opened Basics
  import opened ProjectState

  datatype LeaseStatus = LeaseActive | LeaseReleased | LeaseExpired

  datatype Lease = Lease(
    id: string, user: string, task: string, runtime: string, status: LeaseStatus,
    expires: int, created: int, updated: int)

  type Rows = map<string, Lease>

  /** Lease duration in seconds. */
  const LEASE_TTL := 120

  /** The partial unique index: an active row for the task blocks another one. */
  predicate Held(rows: Rows, task: string) {
    exists id | id in rows :: rows[id].status == LeaseActive && rows[id].task == task
  }

  predicate Usable(rows: Rows, user: string, id: string, now: int) {
    id in rows && rows[id].user == user && rows[id].status == LeaseActive && rows[id].expires > now
  }

  // ---------------------------------------------------------------- what each operation means

  datatype LeaseOp =
    | Insert(id: string, user: string, task: string, runtime: string)
    | Beat(user: string, id: string)
    | Close(user: string, id: string)
    | Sweep(user: string)
    | Revoke(user: string, task: string)

  predicate InsertAllowed(rows: Rows, id: string, task: string) {
    id !in rows && !Held(rows, task)
  }

  /** The sweep of one user, or of everybody for the empty name. */
  predicate Stale(row: Lease, user: string, now: int) {
    row.status == LeaseActive && (user == "" || row.user == user) && row.expires <= now
  }

  predicate Revocable(row: Lease, user: string, task: string) {
    row.status == LeaseActive && row.user == user && row.task == task
  }

  function Apply(op: LeaseOp, rows: Rows, now: int): Rows {
    match op
    case Insert(id, user, task, runtime) =>
      if InsertAllowed(rows, id, task)
      then rows[id := Lease(id, user, task, runtime, LeaseActive, now + LEASE_TTL, now, now)] else rows
    case Beat(user, id) =>
      if Usable(rows, user, id, now)
      then rows[id := rows[id].(expires := now + LEASE_TTL, updated := now)] else rows
    case Close(user, id) =>
      if Usable(rows, user, id, now)
      then rows[id := rows[id].(status := LeaseReleased, updated := now)] else rows
    case Sweep(user) =>
      map id | id in rows ::
        if Stale(rows[id], user, now) then rows[id].(status := LeaseExpired, updated := now) else rows[id]
    case Revoke(user, task) =>
      map id | id in rows ::
        if Revocable(rows[id], user, task) then rows[id].(status := LeaseReleased, updated := now) else rows[id]
  }

  // ---------------------------------------------------------------- the table

  class ClaimTable {
    var rows: Rows

    constructor ()
      ensures rows == map[]
    {
      rows := map[];
    }

    /** Inserts a lease for one task, or reports that the task is held. */
    method TryClaim(id: string, user: string, task: string, runtime: string, now: int) returns (won: bool)
      modifies this
      ensures won <==> InsertAllowed(old(rows), id, task)
      ensures rows == Apply(Insert(id, user, task, runtime), old(rows), now)
    {
      var blocked := id in rows;
      var keys := rows.Keys;
      while keys != {}
        invariant keys <= rows.Keys
        invariant blocked <==>
            id in rows || exists k | k in rows.Keys - keys :: rows[k].status == LeaseActive && rows[k].task == task
      {
        var k :| k in keys;
        if rows[k].status == LeaseActive && rows[k].task == task { blocked := true; }
        keys := keys - {k};
      }
      won := !blocked;
      if won {
        rows := rows[id := Lease(id, user, task, runtime, LeaseActive, now + LEASE_TTL, now, now)];
      }
    }

    /** Claims the first candidate that nobody holds; blank candidates are skipped. */
    method ClaimReadyTask(id: string, user: string, candidates: seq<string>, runtime: string, agent: string, now: int)
      returns (r: Outcome, task: string)
      modifies this
      ensures r == Rejected(Invalid) <==> Blank(user) || Blank(runtime) || Blank(agent)
      ensures r == Accepted ==>
        exists k | 0 <= k < |candidates| ::
          && candidates[k] == task && !Blank(task) && InsertAllowed(old(rows), id, task)
          && (forall j | 0 <= j < k :: Blank(candidates[j]) || !InsertAllowed(old(rows), id, candidates[j]))
      ensures r == Accepted ==> rows == Apply(Insert(id, user, task, runtime), old(rows), now)
      ensures r != Accepted ==> rows == old(rows)
      ensures r == Rejected(NotFound) ==> forall c | c in candidates :: Blank(c) || !InsertAllowed(old(rows), id, c)
      ensures r.Rejected? ==> r.error in {Invalid, NotFound}
    {
      task := "";
      if Blank(user) || Blank(runtime) || Blank(agent) {
        return Rejected(Invalid), task;
      }
      for i := 0 to |candidates|
        invariant rows == old(rows)
        invariant forall j | 0 <= j < i :: Blank(candidates[j]) || !InsertAllowed(rows, id, candidates[j])
      {
        if !Blank(candidates[i]) {
          var won := TryClaim(id, user, candidates[i], runtime, now);
          if won {
            return Accepted, candidates[i];
          }
        }
      }
      return Rejected(NotFound), task;
    }

    method Heartbeat(user: string, id: string, now: int) returns (r: Outcome)
      modifies this
      ensures r.Accepted? <==> Usable(old(rows), user, id, now)
      ensures rows == Apply(Beat(user, id), old(rows), now)
    {
      if id !in rows || rows[id].user != user {
        return Rejected(NotFound);
      }
      if rows[id].status != LeaseActive || rows[id].expires <= now {
        return Rejected(NotFound);
      }
      rows := rows[id := rows[id].(expires := now + LEASE_TTL, updated := now)];
      return Accepted;
    }

    method Release(user: string, id: string, now: int) returns (r: Outcome)
      modifies this
      ensures r.Accepted? <==> Usable(old(rows), user, id, now)
      ensures rows == Apply(Close(user, id), old(rows), now)
    {
      if id !in rows || rows[id].user != user || rows[id].status != LeaseActive || rows[id].expires <= now {
        return Rejected(NotFound);
      }
      rows := rows[id := rows[id].(status := LeaseReleased, updated := now)];
      return Accepted;
    }

    /** Collects the overdue rows of the scope, then closes them one by one. */
    method ExpireStale(user: string, now: int) returns (expired: set<string>)
      modifies this
      ensures rows == Apply(Sweep(user), old(rows), now)
      ensures expired == set id | id in old(rows) && Stale(old(rows)[id], user, now)
    {
      var keys, stale := rows.Keys, {};
      while keys != {}
        invariant keys <= rows.Keys
        invariant stale == set id | id in rows.Keys - keys && Stale(rows[id], user, now)
      {
        var k :| k in keys;
        if Stale(rows[k], user, now) { stale := stale + {k}; }
        keys := keys - {k};
      }
      expired := {};
      while stale - expired != {}
        invariant expired <= stale && rows.Keys == old(rows).Keys
        invariant forall id | id in rows ::
          rows[id] == if id in expired then old(rows)[id].(status := LeaseExpired, updated := now) else old(rows)[id]
        decreases stale - expired
      {
        var k :| k in stale - expired;
        rows := rows[k := rows[k].(status := LeaseExpired, updated := now)];
        expired := expired + {k};
      }
    }

    method RevokeTaskClaims(user: string, task: string, now: int)
      modifies this
      ensures rows == Apply(Revoke(user, task), old(rows), now)
    {
      rows := map id | id in rows ::
        if Revocable(rows[id], user, task) then rows[id].(status := LeaseReleased, updated := now) else rows[id];
    }
  }

  // ---------------------------------------------------------------- the invariant

  /** a was closed before b was granted. */
  ghost predicate Precedes(a: Lease, b: Lease) {
    a.status != LeaseActive && a.updated <= b.created
  }

  ghost predicate Sequential(rows: Rows) {
    forall a, b | a in rows && b in rows && a != b && rows[a].task == rows[b].task ::
      Precedes(rows[a], rows[b]) || Precedes(rows[b], rows[a])
  }

  ghost predicate RowOk(id: string, row: Lease, now: int) {
    && row.id == id && row.created <= row.updated <= now
    && (row.status == LeaseActive ==> row.expires == row.updated + LEASE_TTL)
    && (row.status == LeaseExpired ==> row.expires <= row.updated)
  }

  ghost predicate TableOk(rows: Rows, now: int) {
    Sequential(rows) && forall id | id in rows :: RowOk(id, rows[id], now)
  }

  /** Rows that only change while active, keeping task and time of the grant, stay in turn. */
  lemma ChangesKeepSequence(rows: Rows, after: Rows)
    requires Sequential(rows) && after.Keys == rows.Keys
    requires forall id | id in rows :: after[id].task == rows[id].task && after[id].created == rows[id].created
    requires forall id | id in rows && rows[id].status != LeaseActive :: after[id] == rows[id]
    ensures Sequential(after)
  {
    forall a, b | a in after && b in after && a != b && after[a].task == after[b].task
      ensures Precedes(after[a], after[b]) || Precedes(after[b], after[a])
    {
      assert Precedes(rows[a], rows[b]) || Precedes(rows[b], rows[a]);
    }
  }

  lemma InsertKeepsTable(rows: Rows, id: string, user: string, task: string, runtime: string, before: int, now: int)
    requires TableOk(rows, before) && before <= now && InsertAllowed(rows, id, task)
    ensures TableOk(Apply(Insert(id, user, task, runtime), rows, now), now)
  {
    var after := Apply(Insert(id, user, task, runtime), rows, now);
    forall a | a in rows && rows[a].task == task ensures Precedes(rows[a], after[id]) {
      assert rows[a].status != LeaseActive && RowOk(a, rows[a], before);
    }
    forall a | a in rows ensures RowOk(a, after[a], now) {
      assert RowOk(a, rows[a], before);
    }
  }

  lemma ApplyKeepsTable(op: LeaseOp, rows: Rows, before: int, now: int)
    requires TableOk(rows, before) && before <= now
    ensures TableOk(Apply(op, rows, now), now)
  {
    if op.Insert? {
      if InsertAllowed(rows, op.id, op.task) {
        InsertKeepsTable(rows, op.id, op.user, op.task, op.runtime, before, now);
      }
    } else {
      ChangesKeepSequence(rows, Apply(op, rows, now));
      forall id | id in rows ensures RowOk(id, Apply(op, rows, now)[id], now) {
        assert RowOk(id, rows[id], before);
      }
    }
  }

  /** A closed row is history: no operation ever changes it again. */
  lemma ClosedIsForever(op: LeaseOp, rows: Rows, now: int, id: string)
    requires id in rows && rows[id].status != LeaseActive
    ensures id in Apply(op, rows, now) && Apply(op, rows, now)[id] == rows[id]
  {
  }

  // ---------------------------------------------------------------- runs

  /** One operation and the clock reading it used. */
  datatype LeaseEvent = LeaseEvent(op: LeaseOp, at: int)

  ghost predicate ClockRuns(events: seq<LeaseEvent>, start: int) {
    forall i | 0 <= i < |events| :: start <= events[i].at && forall j | i <= j < |events| ::
        events[i].at <= events[j].at
  }

  ghost function Run(events: seq<LeaseEvent>, rows: Rows): Rows
  {
    if events == [] then rows
    else Apply(events[|events|-1].op, Run(events[..|events|-1], rows), events[|events|-1].at)
  }

  ghost function Clock(events: seq<LeaseEvent>, start: int): int {
    if events == [] then start else events[|events|-1].at
  }

  lemma {:induction false} RunKeepsTable(events: seq<LeaseEvent>, rows: Rows, start: int)
    requires TableOk(rows, start) && ClockRuns(events, start)
    ensures TableOk(Run(events, rows), Clock(events, start))
  {
    if events != [] {
      var n := |events| - 1;
      RunKeepsTable(events[..n], rows, start);
      ApplyKeepsTable(events[n].op, Run(events[..n], rows), Clock(events[..n], start), events[n].at);
    }
  }

  lemma {:induction false} ClosedThroughRun(events: seq<LeaseEvent>, rows: Rows, id: string)
    requires id in rows && rows[id].status != LeaseActive
    ensures id in Run(events, rows) && Run(events, rows)[id] == rows[id]
  {
    if events != [] {
      var n := |events| - 1;
      ClosedThroughRun(events[..n], rows, id);
      ClosedIsForever(events[n].op, Run(events[..n], rows), events[n].at, id);
    }
  }

  /** The moments at which a row entitles its holder: from the grant until it lapses or is
      closed, whichever is first. */
  ghost predicate Authorises(row: Lease, t: int) {
    row.created <= t < row.expires && (row.status != LeaseActive ==> t < row.updated)
  }

  /** Over a whole run from the empty table, no moment is covered by two leases of one task. */
  lemma AuthorityNeverOverlaps(events: seq<LeaseEvent>, start: int, a: string, b: string, t: int)
    requires ClockRuns(events, start)
    requires a in Run(events, map[]) && b in Run(events, map[])
    requires Run(events, map[])[a].task == Run(events, map[])[b].task
    requires Authorises(Run(events, map[])[a], t) && Authorises(Run(events, map[])[b], t)
    ensures a == b
  {
    RunKeepsTable(events, map[], start);
  }

  /** Right after a sweep at time t nothing in its scope is overdue, and every lease that
      was not overdue is as it was. */
  lemma SweepLeavesNothingOverdue(rows: Rows, user: string, t: int, id: string)
    requires id in rows
    ensures var after := Apply(Sweep(user), rows, t);
      && id in after
      && (after[id].status == LeaseActive && (user == "" || after[id].user == user) ==> after[id].expires > t)
      && (after[id] != rows[id] ==> Stale(rows[id], user, t) && after[id].status == LeaseExpired)
  {
  }

  /** What a holder can rely on: until its expiry a lease is only ever closed by its own
      release or by a revocation of its task. */
  lemma OnlyReleaseOrRevokeEndsEarly(op: LeaseOp, rows: Rows, now: int, id: string)
    requires id in rows && rows[id].status == LeaseActive && now < rows[id].expires
    requires Apply(op, rows, now)[id].status != LeaseActive
    ensures op == Close(rows[id].user, id) || op == Revoke(rows[id].user, rows[id].task)
    ensures Apply(op, rows, now)[id].status == LeaseReleased
  {
  }

  /** At most one holder per task, and a claim succeeds exactly when there is none. */
  lemma ExactlyOneWinner(events: seq<LeaseEvent>, start: int, id: string, user: string, task: string, runtime: string,
                         now: int)
    requires ClockRuns(events, start) && Clock(events, start) <= now
    ensures var rows := Run(events, map[]);
      var after := Apply(Insert(id, user, task, runtime), rows, now);
      && (forall a, b | a in rows && b in rows && rows[a].status == LeaseActive && rows[b].status == LeaseActive
           && rows[a].task == rows[b].task :: a == b)
      && (id !in rows ==> (Held(rows, task) <==> after == rows))
      && (id !in rows && !Held(rows, task) ==>
           Usable(after, user, id, now + LEASE_TTL - 1) && !Usable(after, user, id, now + LEASE_TTL))
  {
    RunKeepsTable(events, map[], start);
  }
}
