/** What each operation on pending handoffs does to each row, which references it makes, and how
    many rows a promotion deals with, spelled out. */
module HandoffOutcomes {
  import opened Basics
  import opened Handoff

  // ---------------------------------------------------------------- recording, pinning, discarding

  /** A recorded paste has two different terminals and a fingerprint; the same paste into the same
      draft is not recorded again while the first waits. */
  lemma RecordMeans(rows: seq<Row>, h: Row)
    ensures var complete := h.user != "" && h.sourceTerminal != "" && h.target != "" && h.fingerprint != ""
                            && h.sourceTerminal != h.target;
      var again := exists r :: r in rows && r.promoted == "" && r.user == h.user && r.target == h.target
                                 && r.copy == h.copy && r.draft == h.draft;
      After(rows, Record(h)) == if complete && !again then rows + [h.(promoted := "")] else rows
  {
    assert (exists r | r in rows :: Active(r, h)) <==>
      exists r :: r in rows && r.promoted == "" && r.user == h.user && r.target == h.target && r.copy == h.copy
        && r.draft == h.draft by {
      forall r ensures Active(r, h) <==> r.promoted == "" && r.user == h.user && r.target == h.target
                                           && r.copy == h.copy && r.draft == h.draft {
      }
    }
  }

  predicate ToBePinned(r: Row, user: string, target: string, draft: Option<string>) {
    r.user == user && r.target == target && r.promoted == "" && r.intended == ""
      && (draft.Some? ==> r.draft == draft.value)
  }

  lemma PinMeans(rows: seq<Row>, user: string, target: string, task: string, draft: Option<string>)
    ensures var after := After(rows, Pin(user, target, task, draft));
      && |after| == |rows|
      && forall k | 0 <= k < |rows| ::
           after[k] == if ToBePinned(rows[k], user, target, draft) then rows[k].(intended := task) else rows[k]
  {
  }

  lemma DiscardMeans(rows: seq<Row>, user: string, target: string, draft: string, r: Row)
    requires RowsOk(rows)
    ensures r in After(rows, CancelDraft(user, target, draft)) <==>
            r in rows && !ToBePinned(r, user, target, Some(draft))
  {
    WithoutMembers(rows, user, target, draft);
  }

  // ---------------------------------------------------------------- promotion

  /** The row is part of the submission: its source is known, nobody pinned it elsewhere, and it is
      in the draft. */
  predicate Submitted(r: Row, task: string, draft: Option<string>) {
    r.sourceTask != "" && (r.intended == task || r.intended == "") && (draft.Some? ==> r.draft == draft.value)
  }

  /** The task that a promotion tries the waiting row for: this one, or for a row that an earlier
      submission left, its own, if that is still there. */
  predicate TriedFor(r: Row, user: string, target: string, task: string, draft: Option<string>,
                     known: Option<set<string>>, to: string)
  {
    && r.user == user && r.target == target && r.promoted == ""
    && if Submitted(r, task, draft) then to == task
       else r.sourceTask != "" && r.intended != "" && to == r.intended && known.Some? && to in known.value
  }

  lemma TriedIsPlanned(r: Row, user: string, target: string, task: string, draft: Option<string>,
                       known: Option<set<string>>, to: string)
    ensures TriedFor(r, user, target, task, draft, known, to) <==>
      && Waits(r, user, target)
      && ((Joins(r, task, draft) && to == task)
          || (Recovers(r, task, draft) && known.Some? && r.intended in known.value && to == r.intended))
  {
  }

  lemma PlanIsTried(rows: seq<Row>, user: string, target: string, task: string, draft: Option<string>,
                    known: Option<set<string>>, a: Attempt)
    requires UniqueIds(rows)
    ensures a in Plan(rows, user, target, task, draft, known) <==>
            a.row in rows && TriedFor(a.row, user, target, task, draft, known, a.task)
  {
    var ps := Listed(rows, user, target);
    ListedRows(rows, user, target);
    RecoveriesOf(ps, task, draft, known);
    JoiningsOf(ps, task, draft);
    RecoveriesKnown(ps, task, draft, known);
    TriedIsPlanned(a.row, user, target, task, draft, known, a.task);
  }

  lemma {:induction false} RecoveriesKnown(ps: seq<Row>, task: string, draft: Option<string>,
                                           known: Option<set<string>>)
    ensures forall a | a in Recoveries(ps, task, draft, known) :: known.Some? && a.row.intended in known.value
  {
    if ps != [] {
      RecoveriesKnown(ps[..|ps|-1], task, draft, known);
    }
  }

  /** A row that a promotion changes was tried, and is promoted to the task it was tried for; and
      when no attempt fails every row that is tried is promoted. */
  lemma PromoteMeans(rows: seq<Row>, user: string, target: string, task: string, draft: Option<string>,
                     known: Option<set<string>>, marks: seq<bool>, k: nat)
    requires UniqueIds(rows) && k < |rows| && user != "" && target != "" && task != ""
    requires |marks| == |Plan(rows, user, target, task, draft, known)|
    ensures var after := After(rows, Promote(user, target, task, draft, known, marks));
      && |after| == |rows|
      && (after[k] == rows[k]
          || exists to :: TriedFor(rows[k], user, target, task, draft, known, to)
                            && after[k] == rows[k].(promoted := to))
      && forall to | (forall j | 0 <= j < |marks| :: marks[j])
                       && TriedFor(rows[k], user, target, task, draft, known, to) ::
           after[k] == rows[k].(promoted := to)
  {
    var plan := Plan(rows, user, target, task, draft, known);
    PlanPartitions(rows, user, target, task, draft, known);
    PromotedRow(rows, user, plan, marks, k);
    if j :| 0 <= j < |plan| && marks[j] && plan[j].row.id == rows[k].id {
      SameRow(rows, plan[j].row, rows[k]);
      PlanIsTried(rows, user, target, task, draft, known, plan[j]);
    }
    forall to | (forall j | 0 <= j < |marks| :: marks[j])
      && TriedFor(rows[k], user, target, task, draft, known, to)
      ensures Promoted(rows, user, plan, marks)[k] == rows[k].(promoted := to)
    {
      PlanIsTried(rows, user, target, task, draft, known, Attempt(rows[k], to));
      var j :| 0 <= j < |plan| && plan[j] == Attempt(rows[k], to);
    }
  }

  predicate Reviews(r: Ref, user: string, target: string, source: string) {
    r.user == user && r.target == target && r.source == source && r.relation == "reviews"
  }

  /** The reference of one handoff that went to the task. */
  predicate ReferenceOf(r: Ref, user: string, to: string, h: Row) {
    Reviews(r, user, to, h.sourceTask) && r.snapshot == h.snapshot && r.sourceTerminal == h.sourceTerminal
      && r.targetTerminal == h.target && r.copy == h.copy
  }

  /** The references made: for the task the row was tried for, to the task the text came from. */
  lemma PromotedReference(t: Tables, user: string, plan: seq<Attempt>, marks: seq<bool>, after: Tables, j: nat)
    requires CarriedOut(t, user, plan, marks, after) && j < |plan| && marks[j]
    ensures exists x :: x in after.refs && Reviews(after.refs[x], user, plan[j].task, plan[j].row.sourceTask)
  {
    assert HasPair(after.refs, RefOf(user, plan[j]));
  }

  /** And no others: what is new or changed in the table says from where and to where the text of
      one of the attempts went. */
  lemma OnlyPlannedReferences(t: Tables, user: string, plan: seq<Attempt>, marks: seq<bool>, after: Tables, x: string)
    requires CarriedOut(t, user, plan, marks, after) && x in after.refs
    ensures (x in t.refs && after.refs[x] == t.refs[x])
      || exists j :: 0 <= j < |plan| && ReferenceOf(after.refs[x], user, plan[j].task, plan[j].row)
  {
  }

  /** A repeated reference keeps its place, and its content unless new text comes with it. */
  lemma AddMeans(refs: map<string, Ref>, r: Ref, id: string, after: map<string, Ref>, x: string)
    requires UniqueRefs(refs) && RefAdded(refs, r, id, after)
    requires x in refs && refs[x].user == r.user && refs[x].target == r.target && refs[x].source == r.source
      && refs[x].relation == r.relation
    ensures after.Keys == refs.Keys && forall y | y in refs && y != x :: after[y] == refs[y]
    ensures after[x] == if r.snapshot == refs[x].snapshot || Blank(r.snapshot) then refs[x] else r
  {
    assert SamePair(refs[x], r);
    var y :| y in refs && SamePair(refs[y], r) && after == refs[y := Refreshed(refs[y], r)];
    assert SamePair(refs[x], refs[y]);
  }

  // ---------------------------------------------------------------- how many rows a promotion deals with

  /** The row waits, comes from a known task, and is pinned or in the draft. */
  predicate DealtWith(r: Row, user: string, target: string, draft: Option<string>) {
    && r.user == user && r.target == target && r.promoted == "" && r.sourceTask != ""
    && (r.intended != "" || (draft.Some? ==> r.draft == draft.value))
  }

  function AllDealtWith(rows: seq<Row>, user: string, target: string, draft: Option<string>): set<Row> {
    set r | r in rows && DealtWith(r, user, target, draft)
  }

  function Attempts(ps: seq<Row>, task: string, draft: Option<string>, known: Option<set<string>>): nat {
    |Recoveries(ps, task, draft, known)| + |Joinings(ps, task, draft)| + GivenUp(ps, task, draft, known)
  }

  lemma OneMoreListed(ps: seq<Row>, p: Row, task: string, draft: Option<string>, known: Option<set<string>>)
    ensures Attempts(ps + [p], task, draft, known) == Attempts(ps, task, draft, known)
      + if p.sourceTask != "" && (p.intended != "" || (draft.Some? ==> p.draft == draft.value)) then 1 else 0
  {
    assert (ps + [p])[..|ps|] == ps;
  }

  /** Each of these rows is counted once: as promoted, as failed, or as given up. */
  lemma {:induction false} EachCountedOnce(rows: seq<Row>, user: string, target: string, task: string,
                                           draft: Option<string>, known: Option<set<string>>)
    requires UniqueIds(rows)
    ensures Attempts(Listed(rows, user, target), task, draft, known) == |AllDealtWith(rows, user, target, draft)|
    ensures Attempts(Listed(rows, user, target), task, draft, known)
         == |Plan(rows, user, target, task, draft, known)| + GivenUp(Listed(rows, user, target), task, draft, known)
  {
    if rows != [] {
      var n := |rows| - 1;
      var p := rows[n];
      LastIsNew(rows);
      EachCountedOnce(rows[..n], user, target, task, draft, known);
      OneMoreDealtWith(rows, user, target, draft);
      if Waits(p, user, target) {
        assert Listed(rows, user, target) == Listed(rows[..n], user, target) + [p];
        OneMoreListed(Listed(rows[..n], user, target), p, task, draft, known);
      } else {
        assert Listed(rows, user, target) == Listed(rows[..n], user, target);
      }
    }
  }

  lemma OneMoreDealtWith(rows: seq<Row>, user: string, target: string, draft: Option<string>)
    requires rows != [] && UniqueIds(rows)
    ensures var n := |rows| - 1;
      |AllDealtWith(rows, user, target, draft)| ==
      |AllDealtWith(rows[..n], user, target, draft)| + if DealtWith(rows[n], user, target, draft) then 1 else 0
  {
    var n := |rows| - 1;
    LastIsNew(rows);
    var before := AllDealtWith(rows[..n], user, target, draft);
    assert rows[n] !in before;
    if DealtWith(rows[n], user, target, draft) {
      assert AllDealtWith(rows, user, target, draft) == before + {rows[n]};
    } else {
      assert AllDealtWith(rows, user, target, draft) == before;
    }
  }

  // ---------------------------------------------------------------- direct references

  /** The row waits for the same paste. */
  predicate SamePaste(r: Row, h: Row) {
    r.promoted == "" && r.user == h.user && r.target == h.target && r.copy == h.copy && r.draft == h.draft
  }

  /** A submitted paste with a matched copy and a known source is recorded, and the one row that
      waits for it is promoted to its task once the reference is written. */
  lemma LinkMeans(rows: seq<Row>, h: Row, marked: bool)
    requires RowsOk(rows) && FreshId(rows, Link(h, marked))
    ensures var after, recorded := After(rows, Link(h, marked)), After(rows, Record(h));
      if h.copy == "" || h.sourceTask == "" || !ValidPending(h) then after == rows
      else
        && |after| == |recorded|
        && forall k | 0 <= k < |recorded| ::
             after[k] == if marked && SamePaste(recorded[k], h) then recorded[k].(promoted := h.intended)
                         else recorded[k]
  {
    if Linkable(h) {
      RecordOk(rows, h);
      var recorded := Recorded(rows, h);
      forall k | 0 <= k < |recorded|
        ensures MarkedRow(recorded[k], h.user, Answered(rows, h).id, h.intended)
             == if SamePaste(recorded[k], h) then recorded[k].(promoted := h.intended) else recorded[k]
      {
        LinkedIs(rows, h, k);
      }
    }
  }

  lemma LinkedIs(rows: seq<Row>, h: Row, k: nat)
    requires RowsOk(rows) && (forall r | r in rows :: r.id != h.id) && k < |Recorded(rows, h)|
    ensures var r := Recorded(rows, h)[k];
      SamePaste(r, h) <==> r.user == h.user && r.id == Answered(rows, h).id && r.promoted == ""
  {
    var recorded := Recorded(rows, h);
    RecordOk(rows, h);
    ActiveThere(rows, h);
    var j :| 0 <= j < |recorded| && Active(recorded[j], h);
    AnsweredIs(rows, h, j);
    if SamePaste(recorded[k], h) {
      AnsweredIs(rows, h, k);
    }
  }
}
