/** What the operations of the lease table do to each lease, attribute by attribute. */
module LeaseOutcomes {
  import opened Basics
  import opened ProjectState
  import opened LeaseTable

  /** The lease can be used by the user: it is the user's, active, and its time is not over. */
  predicate InUse(rows: Rows, user: string, id: string, now: int) {
    id in rows && rows[id].user == user && rows[id].status == LeaseActive && now < rows[id].expires
  }

  predicate Given(op: LeaseOp, rows: Rows, id: string) {
    && op.Insert? && op.id == id && id !in rows
    && forall other | other in rows && rows[other].status == LeaseActive :: rows[other].task != op.task
  }

  /** The operation gives the lease back: its user closes it in time, or revokes its task. */
  predicate GivesBack(op: LeaseOp, rows: Rows, id: string, now: int) {
    || (op.Close? && op.id == id && InUse(rows, op.user, id, now))
    || (op.Revoke? && id in rows && rows[id].status == LeaseActive && rows[id].user == op.user
        && rows[id].task == op.task)
  }

  /** The operation finds it overdue: in a sweep over its user, or over everybody. */
  predicate FindsOverdue(op: LeaseOp, rows: Rows, id: string, now: int) {
    op.Sweep? && id in rows && rows[id].status == LeaseActive && rows[id].expires <= now
      && (op.user == rows[id].user || op.user == "")
  }

  /** Leases are never dropped, and a new one is one given. Whose it is and for what never
      changes. It ends by being given back or found overdue, and its time is only ever renewed by
      a heartbeat in time, for two minutes from then. */
  lemma RowMeans(op: LeaseOp, rows: Rows, now: int, id: string)
    ensures var after := Apply(op, rows, now);
      && (id in after <==> id in rows || Given(op, rows, id))
      && (id !in rows && id in after ==>
           after[id] == Lease(id, op.user, op.task, op.runtime, LeaseActive, now + 120, now, now))
      && (id in rows ==>
           var r, s := rows[id], after[id];
           && s.status == (if GivesBack(op, rows, id, now) then LeaseReleased
                           else if FindsOverdue(op, rows, id, now) then LeaseExpired else r.status)
           && s.expires == (if op.Beat? && op.id == id && InUse(rows, op.user, id, now) then now + 120
                            else r.expires)
           && s.updated == (if s.status != r.status || (op.Beat? && op.id == id && InUse(rows, op.user, id, now))
                            then now else r.updated)
           && s == r.(status := s.status, expires := s.expires, updated := s.updated))
  {
  }
}
