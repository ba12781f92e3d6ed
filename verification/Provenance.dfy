/** What handoffs are for: over whole runs of both tables, a promoted handoff has its source
    reference, and a reference comes from an attempt, a link or a supplement. */
module Provenance {
  import opened Basics
  import opened Handoff

  /** A step on the handoffs, a reference added directly, or one discarded by its user. */
  datatype Deed = On(step: Step) | Supplement(reference: Ref) | Discard(id: string)

  /** The references a deed makes. */
  ghost function MadeIn(t: Tables, d: Deed): set<Ref> {
    match d
    case On(Promote(user, target, task, draft, known, marks)) =>
      if Nameless(user, target, task) then {} else MadeBy(user, Plan(t.rows, user, target, task, draft, known))
    case On(Link(h, _)) => if Linkable(h) then {RefFor(h)} else {}
    case On(_) => {}
    case Supplement(r) => {r}
    case Discard(_) => {}
  }

  /** What has to be there for what the deed marked. */
  ghost predicate Backed(t: Tables, d: Deed, refs: map<string, Ref>) {
    match d
    case On(Promote(user, target, task, draft, known, marks)) =>
      var plan := Plan(t.rows, user, target, task, draft, known);
      !Nameless(user, target, task) && |marks| == |plan| ==> AllMade(refs, user, plan, marks)
    case On(Link(h, marked)) => Linkable(h) && marked ==> HasPair(refs, RefFor(h))
    case _ => true
  }

  /** The deeds as the tables see them, database failures included. */
  ghost predicate Next(t: Tables, d: Deed, after: Tables) {
    match d
    case On(s) =>
      FreshId(t.rows, s) && after.rows == Handoff.After(t.rows, s)
        && RefsGrow(t.refs, after.refs, MadeIn(t, d)) && Backed(t, d, after.refs)
    case Supplement(_) => after.rows == t.rows && RefsGrow(t.refs, after.refs, MadeIn(t, d))
    case Discard(id) => after == t.(refs := t.refs - {id})
  }

  ghost predicate IsRun(ts: seq<Tables>, ds: seq<Deed>) {
    && |ts| == |ds| + 1 && ts[0] == Tables([], map[])
    && forall k | 0 <= k < |ds| :: Next(ts[k], ds[k], ts[k+1])
  }

  // ---------------------------------------------------------------- promoted handoffs have references

  /** The reference that a promoted handoff became. */
  ghost predicate HasRef(refs: map<string, Ref>, user: string, target: string, source: string) {
    exists x :: x in refs && refs[x].user == user && refs[x].target == target && refs[x].source == source
      && refs[x].relation == "reviews"
  }

  ghost predicate Credited(t: Tables, r: Row) {
    r.promoted != "" ==> HasRef(t.refs, r.user, r.promoted, r.sourceTask)
  }

  ghost predicate AllCredited(t: Tables) {
    forall r | r in t.rows :: Credited(t, r)
  }

  lemma PairIsRef(refs: map<string, Ref>, r: Ref)
    requires r.relation == "reviews"
    ensures HasPair(refs, r) <==> HasRef(refs, r.user, r.target, r.source)
  {
    if HasRef(refs, r.user, r.target, r.source) {
      var x :| x in refs && refs[x].user == r.user && refs[x].target == r.target && refs[x].source == r.source
        && refs[x].relation == "reviews";
      assert SamePair(refs[x], r);
    }
  }

  lemma RefsStay(refs: map<string, Ref>, after: map<string, Ref>, made: set<Ref>, user: string, target: string,
                 source: string)
    requires RefsGrow(refs, after, made) && HasRef(refs, user, target, source)
    ensures HasRef(after, user, target, source)
  {
    var x :| x in refs && refs[x].user == user && refs[x].target == target && refs[x].source == source
      && refs[x].relation == "reviews";
    assert SamePair(after[x], refs[x]);
  }

  /** Where a reference can have come from. */
  lemma RefsOnlyGrow(refs: map<string, Ref>, after: map<string, Ref>, r: Ref, user: string, target: string,
                     source: string)
    requires RefsGrow(refs, after, {r}) && HasRef(after, user, target, source)
    ensures HasRef(refs, user, target, source) || (r.user == user && r.target == target && r.source == source)
  {
    var x :| x in after && after[x].user == user && after[x].target == target && after[x].source == source
      && after[x].relation == "reviews";
    if x in refs && after[x] == refs[x] {
      assert HasRef(refs, user, target, source);
    }
  }

  /** The last reference of a promoted handoff is discarded. */
  ghost predicate Orphans(t: Tables, d: Deed) {
    && d.Discard?
    && exists r :: r in t.rows && r.promoted != "" && !HasRef(t.refs - {d.id}, r.user, r.promoted, r.sourceTask)
  }

  /** A link collapses onto a handoff recorded with another source, and marks it although its
      own source has no reference. */
  ghost predicate Miscredits(t: Tables, d: Deed) {
    && d.On? && d.step.Link? && d.step.marked && Linkable(d.step.h)
    && var h := d.step.h;
      var r := Answered(t.rows, h);
      r in t.rows && r.sourceTask != h.sourceTask && !HasRef(t.refs, h.user, h.intended, r.sourceTask)
  }

  /** A row after a promotion is credited if the one it was is: by the attempt that marked it. */
  lemma PromotedCredited(t: Tables, d: Deed, after: Tables, k: nat)
    requires RowsOk(t.rows) && AllCredited(t) && Next(t, d, after) && d.On? && d.step.Promote? && k < |after.rows|
    ensures Credited(after, after.rows[k])
  {
    var s := d.step;
    var plan := Plan(t.rows, s.user, s.target, s.task, s.draft, s.known);
    if Nameless(s.user, s.target, s.task) || |s.marks| != |plan| {
      UnchangedCredited(t, after, t.rows[k], MadeIn(t, d));
    } else {
      PromotedSame(t.rows, s.user, plan, s.marks);
      PlanPartitions(t.rows, s.user, s.target, s.task, s.draft, s.known);
      PromotedRow(t.rows, s.user, plan, s.marks, k);
      if j :| 0 <= j < |plan| && s.marks[j] && plan[j].row.id == t.rows[k].id {
        SameRow(t.rows, plan[j].row, t.rows[k]);
        PairIsRef(after.refs, RefOf(s.user, plan[j]));
      } else {
        UnchangedCredited(t, after, t.rows[k], MadeIn(t, d));
      }
    }
  }

  lemma UnchangedCredited(t: Tables, after: Tables, r: Row, made: set<Ref>)
    requires RefsGrow(t.refs, after.refs, made) && Credited(t, r)
    ensures Credited(after, r)
  {
    if r.promoted != "" {
      RefsStay(t.refs, after.refs, made, r.user, r.promoted, r.sourceTask);
    }
  }

  /** A link leaves every row but the answered one as it was. */
  lemma LinkedRow(t: Tables, d: Deed, after: Tables, r: Row)
    requires RowsOk(t.rows) && AllCredited(t) && Next(t, d, after) && d.On? && d.step.Link? && r in after.rows
    requires d.step.marked && Linkable(d.step.h) ==> r.id != Answered(t.rows, d.step.h).id
    ensures Credited(after, r)
  {
    var h := d.step.h;
    if Linkable(h) {
      var recorded := Recorded(t.rows, h);
      var k :| 0 <= k < |after.rows| && after.rows[k] == r;
      assert r == recorded[k];
      if r in t.rows {
        UnchangedCredited(t, after, r, MadeIn(t, d));
      }
    } else {
      UnchangedCredited(t, after, r, MadeIn(t, d));
    }
  }

  /** The answered row of a marking link, before and after. */
  lemma AnsweredMarked(rows: seq<Row>, h: Row) returns (k: nat)
    requires RowsOk(rows) && Linkable(h) && h.intended != "" && forall x | x in rows :: x.id != h.id
    ensures var after := Handoff.After(rows, Link(h, true));
      && k < |Recorded(rows, h)| == |after| && Recorded(rows, h)[k] == Answered(rows, h)
      && after[k] == Answered(rows, h).(promoted := h.intended)
      && Answered(rows, h).user == h.user
      && (Answered(rows, h) !in rows ==> Answered(rows, h).sourceTask == h.sourceTask)
      && UniqueIds(after)
  {
    ActiveThere(rows, h);
    k :| 0 <= k < |Recorded(rows, h)| && Active(Recorded(rows, h)[k], h);
    AnsweredIs(rows, h, k);
    StepKeepsRows(rows, Link(h, true));
  }

  lemma LinkCredits(t: Tables, d: Deed, after: Tables)
    requires RowsOk(t.rows) && AllCredited(t) && Next(t, d, after) && d.On? && d.step.Link?
    ensures AllCredited(after) <==> !Miscredits(t, d)
  {
    var h := d.step.h;
    if d.step.marked && Linkable(h) {
      var k := AnsweredMarked(t.rows, h);
      var a := Answered(t.rows, h);
      var marked := after.rows[k];
      PairIsRef(after.refs, RefFor(h));
      forall r | r in after.rows && r != marked ensures Credited(after, r) {
        LinkedRow(t, d, after, r);
      }
      if HasRef(t.refs, h.user, h.intended, a.sourceTask) {
        RefsStay(t.refs, after.refs, MadeIn(t, d), h.user, h.intended, a.sourceTask);
      } else if HasRef(after.refs, h.user, h.intended, a.sourceTask) {
        RefsOnlyGrow(t.refs, after.refs, RefFor(h), h.user, h.intended, a.sourceTask);
      }
      assert Credited(after, marked) <==> !Miscredits(t, d);
      assert marked in after.rows;
    } else {
      forall r | r in after.rows ensures Credited(after, r) {
        LinkedRow(t, d, after, r);
      }
    }
  }

  /** A deed that leaves rows as they are, unpromoted ones aside. */
  lemma QuietCredits(t: Tables, d: Deed, after: Tables)
    requires RowsOk(t.rows) && AllCredited(t) && Next(t, d, after)
    requires d.Supplement? || (d.On? && !d.step.Promote? && !d.step.Link?)
    ensures AllCredited(after)
  {
    forall r | r in after.rows ensures Credited(after, r) {
      if r.promoted != "" {
        if d.On? {
          PromotedWasThere(t.rows, d.step, r);
        }
        UnchangedCredited(t, after, r, MadeIn(t, d));
      }
    }
  }

  lemma PromotedWasThere(rows: seq<Row>, s: Step, r: Row)
    requires RowsOk(rows) && FreshId(rows, s) && !s.Promote? && !s.Link?
    requires r in Handoff.After(rows, s) && r.promoted != ""
    ensures r in rows
  {
    match s
    case Record(h) =>
    case Pin(user, target, task, draft) =>
      var k :| 0 <= k < |rows| && Pinned(rows, user, target, task, draft)[k] == r;
      assert rows[k] == r;
    case CancelDraft(user, target, discarded) => WithoutMembers(rows, user, target, discarded);
  }

  /** One deed: every promoted handoff keeps or gets its reference, except, exactly, when the
      last one is discarded or a link marks a handoff with another source. */
  lemma DeedCredits(t: Tables, d: Deed, after: Tables)
    requires RowsOk(t.rows) && AllCredited(t) && Next(t, d, after)
    ensures AllCredited(after) <==> !Orphans(t, d) && !Miscredits(t, d)
  {
    match d
    case Discard(id) =>
    case Supplement(_) => QuietCredits(t, d, after);
    case On(s) =>
      if s.Promote? {
        forall r | r in after.rows ensures Credited(after, r) {
          var k :| 0 <= k < |after.rows| && after.rows[k] == r;
          PromotedCredited(t, d, after, k);
        }
      } else if s.Link? {
        LinkCredits(t, d, after);
      } else {
        QuietCredits(t, d, after);
      }
  }

  lemma {:induction false} RunKeepsRowsOk(ts: seq<Tables>, ds: seq<Deed>, k: nat)
    requires IsRun(ts, ds) && k <= |ds|
    ensures RowsOk(ts[k].rows)
  {
    if k > 0 {
      RunKeepsRowsOk(ts, ds, k - 1);
      assert Next(ts[k-1], ds[k-1], ts[k]);
      if ds[k-1].On? {
        StepKeepsRows(ts[k-1].rows, ds[k-1].step);
      }
    }
  }

  ghost predicate Forfeits(t: Tables, d: Deed) {
    Orphans(t, d) || Miscredits(t, d)
  }

  lemma {:induction false} NoForfeitCredits(ts: seq<Tables>, ds: seq<Deed>, k: nat)
    requires IsRun(ts, ds) && k <= |ds| && forall j | 0 <= j < k :: !Forfeits(ts[j], ds[j])
    ensures AllCredited(ts[k])
  {
    if k > 0 {
      NoForfeitCredits(ts, ds, k - 1);
      RunKeepsRowsOk(ts, ds, k - 1);
      assert Next(ts[k-1], ds[k-1], ts[k]) && !Forfeits(ts[k-1], ds[k-1]);
      DeedCredits(ts[k-1], ds[k-1], ts[k]);
    }
  }

  /** Over a run from empty tables every promoted handoff has, at every moment, the reference of
      its own source to the task it was promoted to, exactly when no deed is one of those two. */
  lemma PromotedHaveReferences(ts: seq<Tables>, ds: seq<Deed>)
    requires IsRun(ts, ds)
    ensures (forall k | 0 <= k <= |ds| :: AllCredited(ts[k])) <==>
            (forall k | 0 <= k < |ds| :: !Forfeits(ts[k], ds[k]))
  {
    if forall k | 0 <= k <= |ds| :: AllCredited(ts[k]) {
      forall k | 0 <= k < |ds| ensures !Forfeits(ts[k], ds[k]) {
        RunKeepsRowsOk(ts, ds, k);
        assert AllCredited(ts[k]) && AllCredited(ts[k+1]) && Next(ts[k], ds[k], ts[k+1]);
        DeedCredits(ts[k], ds[k], ts[k+1]);
      }
    }
    if forall k | 0 <= k < |ds| :: !Forfeits(ts[k], ds[k]) {
      forall k | 0 <= k <= |ds| ensures AllCredited(ts[k]) {
        NoForfeitCredits(ts, ds, k);
      }
    }
  }

  // ---------------------------------------------------------------- references have origins

  /** No origin is invented: over every run a reference was made by some deed of it. */
  lemma {:induction false} ReferencesHaveOrigins(ts: seq<Tables>, ds: seq<Deed>, n: nat, x: string) returns (k: nat)
    requires IsRun(ts, ds) && n <= |ds| && x in ts[n].refs
    ensures k < n && ts[n].refs[x] in MadeIn(ts[k], ds[k])
  {
    assert Next(ts[n-1], ds[n-1], ts[n]);
    if x in ts[n-1].refs && ts[n].refs[x] == ts[n-1].refs[x] {
      k := ReferencesHaveOrigins(ts, ds, n - 1, x);
    } else {
      k := n - 1;
    }
  }
}
