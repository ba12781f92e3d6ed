/** Copy-and-paste provenance between terminals: pending handoffs wait for a submission, are
    pinned to its task, and become source references of that task and no other. */
module Handoff {
  import opened Basics

  /** One copied text pasted into a terminal. intended is the task it is pinned to, promoted the
      task it became a reference of; both are "" until then. */
  datatype Row = Row(
    id: string, user: string, sourceTask: string, sourceTerminal: string, target: string,
    fingerprint: string, copy: string, draft: string, snapshot: string, intended: string, promoted: string)

  datatype Ref = Ref(
    user: string, target: string, source: string, relation: string, snapshot: string,
    sourceTerminal: string, targetTerminal: string, copy: string)

  /** rows in the order of their creation. */
  datatype Tables = Tables(rows: seq<Row>, refs: map<string, Ref>)

  // ---------------------------------------------------------------- pending rows

  predicate Active(r: Row, h: Row) {
    r.promoted == "" && r.user == h.user && r.target == h.target && r.copy == h.copy && r.draft == h.draft
  }

  predicate ValidPending(h: Row) {
    && h.user != "" && h.sourceTerminal != "" && h.target != "" && h.sourceTerminal != h.target
    && h.fingerprint != ""
  }

  /** One active row per paste event: a retransmitted paste collapses onto the first. */
  function Recorded(rows: seq<Row>, h: Row): seq<Row> {
    if exists r | r in rows :: Active(r, h) then rows else rows + [h.(promoted := "")]
  }

  predicate Waits(r: Row, user: string, target: string) {
    r.user == user && r.target == target && r.promoted == ""
  }

  predicate InDraft(r: Row, draft: Option<string>) {
    draft.None? || r.draft == draft.value
  }

  function PinnedRow(r: Row, user: string, target: string, task: string, draft: Option<string>): Row {
    if Waits(r, user, target) && r.intended == "" && InDraft(r, draft) then r.(intended := task) else r
  }

  function Pinned(rows: seq<Row>, user: string, target: string, task: string, draft: Option<string>): seq<Row> {
    seq(|rows|, k requires 0 <= k < |rows| => PinnedRow(rows[k], user, target, task, draft))
  }

  predicate Discardable(r: Row, user: string, target: string, draft: string) {
    Waits(r, user, target) && r.draft == draft && r.intended == ""
  }

  function WithoutDraft(rows: seq<Row>, user: string, target: string, draft: string): seq<Row> {
    if rows == [] then []
    else
      var rest := WithoutDraft(rows[..|rows|-1], user, target, draft);
      if Discardable(rows[|rows|-1], user, target, draft) then rest else rest + [rows[|rows|-1]]
  }

  function MarkedRow(r: Row, user: string, id: string, task: string): Row {
    if r.user == user && r.id == id && r.promoted == "" then r.(promoted := task) else r
  }

  function Marked(rows: seq<Row>, user: string, id: string, task: string): seq<Row> {
    seq(|rows|, k requires 0 <= k < |rows| => MarkedRow(rows[k], user, id, task))
  }

  // ---------------------------------------------------------------- source references

  predicate SamePair(a: Ref, b: Ref) {
    a.user == b.user && a.target == b.target && a.source == b.source && a.relation == b.relation
  }

  ghost predicate UniqueRefs(refs: map<string, Ref>) {
    forall a, b | a in refs && b in refs && SamePair(refs[a], refs[b]) :: a == b
  }

  predicate ValidRef(r: Ref) {
    r.target != "" && r.source != "" && r.target != r.source
  }

  function Refreshed(older: Ref, r: Ref): Ref {
    if !Blank(r.snapshot) && r.snapshot != older.snapshot then r else older
  }

  ghost predicate HasPair(refs: map<string, Ref>, r: Ref) {
    exists x :: x in refs && SamePair(refs[x], r)
  }

  /** A reference is refused when it is incomplete, or new under an id that is taken. */
  ghost predicate RefAccepted(refs: map<string, Ref>, r: Ref, id: string) {
    ValidRef(r) && (HasPair(refs, r) || id !in refs)
  }

  /** A repeated reference keeps its row and takes the newest content. */
  ghost predicate RefAdded(refs: map<string, Ref>, r: Ref, id: string, after: map<string, Ref>) {
    if HasPair(refs, r)
    then exists x :: x in refs && SamePair(refs[x], r) && after == refs[x := Refreshed(refs[x], r)]
    else after == refs[id := r]
  }

  lemma AddKeepsUnique(refs: map<string, Ref>, r: Ref, id: string, after: map<string, Ref>)
    requires UniqueRefs(refs) && RefAdded(refs, r, id, after)
    ensures UniqueRefs(after)
    ensures HasPair(after, r)
  {
    if HasPair(refs, r) {
      var x :| x in refs && SamePair(refs[x], r) && after == refs[x := Refreshed(refs[x], r)];
      assert SamePair(after[x], refs[x]);
      forall a, b | a in after && b in after && SamePair(after[a], after[b]) ensures a == b {
        assert SamePair(refs[a], refs[b]);
      }
    } else {
      assert after[id] == r;
    }
  }

  /** References stay, for the pairs they are for, and every new or changed one is one of those
      that were made. */
  ghost predicate RefsGrow(refs: map<string, Ref>, after: map<string, Ref>, made: set<Ref>) {
    && (forall x | x in refs :: x in after && SamePair(after[x], refs[x]))
    && (forall x | x in after :: (x in refs && after[x] == refs[x]) || after[x] in made)
  }

  lemma AddGrows(refs: map<string, Ref>, r: Ref, id: string, after: map<string, Ref>)
    requires RefAccepted(refs, r, id) && RefAdded(refs, r, id, after)
    ensures RefsGrow(refs, after, {r}) && HasPair(after, r)
  {
    if HasPair(refs, r) {
      var x :| x in refs && SamePair(refs[x], r) && after == refs[x := Refreshed(refs[x], r)];
      assert SamePair(after[x], r);
    } else {
      assert after[id] == r;
    }
  }

  lemma GrowOn(refs: map<string, Ref>, mid: map<string, Ref>, after: map<string, Ref>, made: set<Ref>, more: set<Ref>)
    requires RefsGrow(refs, mid, made) && RefsGrow(mid, after, more)
    ensures RefsGrow(refs, after, made + more)
  {
  }

  lemma PairsStay(refs: map<string, Ref>, after: map<string, Ref>, made: set<Ref>, r: Ref)
    requires RefsGrow(refs, after, made) && HasPair(refs, r)
    ensures HasPair(after, r)
  {
    var x :| x in refs && SamePair(refs[x], r);
    assert SamePair(after[x], r);
  }

  // ---------------------------------------------------------------- promotion

  /** Pinned to another submission, or to this task from an earlier draft. */
  predicate Recovers(p: Row, task: string, draft: Option<string>) {
    p.sourceTask != "" && p.intended != "" && !(p.intended == task && InDraft(p, draft))
  }

  /** Part of the submission that is being confirmed. */
  predicate Joins(p: Row, task: string, draft: Option<string>) {
    p.sourceTask != "" && (p.intended == "" || p.intended == task) && InDraft(p, draft)
  }

  datatype Attempt = Attempt(row: Row, task: string)

  /** The attempts of the recovery loop; known is the tasks in the document, None when it
      could not be read. */
  function Recoveries(ps: seq<Row>, task: string, draft: Option<string>, known: Option<set<string>>): seq<Attempt> {
    if ps == [] then []
    else
      var p := ps[|ps|-1];
      Recoveries(ps[..|ps|-1], task, draft, known) +
      if Recovers(p, task, draft) && known.Some? && p.intended in known.value then [Attempt(p, p.intended)] else []
  }

  /** Recoveries given up because the task is gone or the document unreadable. */
  function GivenUp(ps: seq<Row>, task: string, draft: Option<string>, known: Option<set<string>>): nat {
    if ps == [] then 0
    else
      var p := ps[|ps|-1];
      GivenUp(ps[..|ps|-1], task, draft, known) +
      if Recovers(p, task, draft) && !(known.Some? && p.intended in known.value) then 1 else 0
  }

  function Joinings(ps: seq<Row>, task: string, draft: Option<string>): seq<Attempt> {
    if ps == [] then []
    else
      var p := ps[|ps|-1];
      Joinings(ps[..|ps|-1], task, draft) + if Joins(p, task, draft) then [Attempt(p, task)] else []
  }

  function Listed(rows: seq<Row>, user: string, target: string): seq<Row> {
    if rows == [] then []
    else Listed(rows[..|rows|-1], user, target) + if Waits(rows[|rows|-1], user, target) then [rows[|rows|-1]] else []
  }

  function Plan(rows: seq<Row>, user: string, target: string, task: string, draft: Option<string>,
                known: Option<set<string>>): seq<Attempt> {
    var ps := Listed(rows, user, target);
    Recoveries(ps, task, draft, known) + Joinings(ps, task, draft)
  }

  /** The two loops share no row: nothing is both recovered and joined. */
  lemma LoopsAreDisjoint(p: Row, task: string, draft: Option<string>)
    ensures !(Recovers(p, task, draft) && Joins(p, task, draft))
    ensures p.sourceTask != "" && (p.intended != "" || InDraft(p, draft)) <==>
        Recovers(p, task, draft) || Joins(p, task, draft)
  {
  }

  ghost predicate UniqueIds(rows: seq<Row>) {
    forall i, j | 0 <= i < |rows| && 0 <= j < |rows| && rows[i].id == rows[j].id :: i == j
  }

  ghost predicate FromRows(plan: seq<Attempt>, rows: seq<Row>) {
    forall k | 0 <= k < |plan| :: plan[k].row in rows
  }

  ghost predicate DistinctRows(plan: seq<Attempt>) {
    forall i, j | 0 <= i < |plan| && 0 <= j < |plan| && plan[i].row.id == plan[j].row.id :: i == j
  }

  lemma {:induction false} ListedRows(rows: seq<Row>, user: string, target: string)
    requires UniqueIds(rows)
    ensures UniqueIds(Listed(rows, user, target))
    ensures forall p :: p in Listed(rows, user, target) <==> p in rows && Waits(p, user, target)
  {
    if rows != [] {
      var n := |rows| - 1;
      ListedRows(rows[..n], user, target);
      assert rows == rows[..n] + [rows[n]];
      forall p | p in rows[..n] ensures p.id != rows[n].id {
        var i :| 0 <= i < n && rows[..n][i] == p;
        assert rows[i] == p;
      }
    }
  }

  lemma LastIsNew(ps: seq<Row>)
    requires ps != [] && UniqueIds(ps)
    ensures var n := |ps| - 1; UniqueIds(ps[..n]) && forall p :: p in ps <==> p in ps[..n] || p == ps[n]
    ensures var n := |ps| - 1; forall p | p in ps[..n] :: p.id != ps[n].id
  {
    var n := |ps| - 1;
    assert ps == ps[..n] + [ps[n]];
    forall p | p in ps[..n] ensures p.id != ps[n].id {
      var i :| 0 <= i < n && ps[..n][i] == p;
      assert ps[i] == p;
    }
  }

  lemma OneMoreAttempt(plan: seq<Attempt>, ps: seq<Row>, more: seq<Row>, a: Attempt)
    requires DistinctRows(plan) && FromRows(plan, ps) && a.row in more
    requires forall p | p in ps :: p in more && p.id != a.row.id
    ensures DistinctRows(plan + [a]) && FromRows(plan + [a], more)
  {
    forall i, j | 0 <= i < |plan| + 1 && 0 <= j < |plan| + 1
        && (plan + [a])[i].row.id == (plan + [a])[j].row.id ensures i == j {
      if i < |plan| { assert plan[i].row in ps; }
      if j < |plan| { assert plan[j].row in ps; }
    }
  }

  lemma {:induction false} RecoveriesOf(ps: seq<Row>, task: string, draft: Option<string>, known: Option<set<string>>)
    requires UniqueIds(ps)
    ensures var plan := Recoveries(ps, task, draft, known);
      && DistinctRows(plan) && FromRows(plan, ps)
      && (forall k | 0 <= k < |plan| :: Recovers(plan[k].row, task, draft) && plan[k].task == plan[k].row.intended)
      && (forall p | p in ps && Recovers(p, task, draft) && known.Some? && p.intended in known.value ::
           Attempt(p, p.intended) in plan)
  {
    if ps != [] {
      var n := |ps| - 1;
      LastIsNew(ps);
      RecoveriesOf(ps[..n], task, draft, known);
      OneMoreAttempt(Recoveries(ps[..n], task, draft, known), ps[..n], ps, Attempt(ps[n], ps[n].intended));
    }
  }

  lemma {:induction false} JoiningsOf(ps: seq<Row>, task: string, draft: Option<string>)
    requires UniqueIds(ps)
    ensures var plan := Joinings(ps, task, draft);
      && DistinctRows(plan) && FromRows(plan, ps)
      && (forall k | 0 <= k < |plan| :: Joins(plan[k].row, task, draft) && plan[k].task == task)
      && (forall p | p in ps && Joins(p, task, draft) :: Attempt(p, task) in plan)
  {
    if ps != [] {
      var n := |ps| - 1;
      LastIsNew(ps);
      JoiningsOf(ps[..n], task, draft);
      OneMoreAttempt(Joinings(ps[..n], task, draft), ps[..n], ps, Attempt(ps[n], task));
    }
  }

  /** The two loops partition the waiting rows they deal with: no row is attached twice in one
      call, a pinned row only ever to its own task, and every row of the submission is tried. */
  lemma PlanPartitions(rows: seq<Row>, user: string, target: string, task: string, draft: Option<string>,
                       known: Option<set<string>>)
    requires UniqueIds(rows)
    ensures var plan := Plan(rows, user, target, task, draft, known);
      && DistinctRows(plan)
      && (forall k | 0 <= k < |plan| :: plan[k].row in rows && Waits(plan[k].row, user, target) &&
            plan[k].task == (if plan[k].row.intended != "" then plan[k].row.intended else task))
      && (forall p | p in rows && Waits(p, user, target) && Joins(p, task, draft) :: Attempt(p, task) in plan)
      && (forall p | p in rows && Waits(p, user, target) && Recovers(p, task, draft) && known.Some?
           && p.intended in known.value ::
            Attempt(p, p.intended) in plan)
  {
    var ps := Listed(rows, user, target);
    ListedRows(rows, user, target);
    RecoveriesOf(ps, task, draft, known);
    JoiningsOf(ps, task, draft);
    var a, b := Recoveries(ps, task, draft, known), Joinings(ps, task, draft);
    var plan := Plan(rows, user, target, task, draft, known);
    forall i, j | 0 <= i < |plan| && 0 <= j < |plan| && plan[i].row.id == plan[j].row.id ensures i == j {
      if i < |a| && |a| <= j {
        SameRow(ps, plan[i].row, plan[j].row);
        LoopsAreDisjoint(plan[i].row, task, draft);
      } else if j < |a| && |a| <= i {
        SameRow(ps, plan[i].row, plan[j].row);
        LoopsAreDisjoint(plan[i].row, task, draft);
      }
    }
  }

  lemma SameRow(ps: seq<Row>, p: Row, q: Row)
    requires UniqueIds(ps) && p in ps && q in ps && p.id == q.id
    ensures p == q
  {
  }

  // ---------------------------------------------------------------- one attempt

  /** How the two statements of an attempt end in the database. */
  datatype Luck = Both | RefFails | MarkFails

  function RefOf(user: string, a: Attempt): Ref {
    Ref(user, a.task, a.row.sourceTask, "reviews", a.row.snapshot, a.row.sourceTerminal, a.row.target, a.row.copy)
  }

  ghost predicate Attached(t: Tables, user: string, a: Attempt, id: string, luck: Luck, after: Tables, ok: bool) {
    if !RefAccepted(t.refs, RefOf(user, a), id) || luck == RefFails then after == t && !ok
    else
      && RefAdded(t.refs, RefOf(user, a), id, after.refs)
      && after.rows == (if luck == MarkFails then t.rows else Marked(t.rows, user, a.row.id, a.task))
      && ok == (luck == Both)
  }

  /** The references the attempts of a plan make. */
  function MadeBy(user: string, plan: seq<Attempt>): set<Ref> {
    set k | 0 <= k < |plan| :: RefOf(user, plan[k])
  }

  /** Every attempt that marked its row has its reference. */
  ghost predicate AllMade(refs: map<string, Ref>, user: string, plan: seq<Attempt>, marks: seq<bool>)
    requires |marks| == |plan|
  {
    forall k | 0 <= k < |plan| && marks[k] :: HasPair(refs, RefOf(user, plan[k]))
  }

  function Trues(marks: seq<bool>): (n: nat)
    ensures n <= |marks|
  {
    if marks == [] then 0 else Trues(marks[..|marks|-1]) + if marks[|marks|-1] then 1 else 0
  }

  lemma {:induction false} TruesInTurn(marks: seq<bool>, more: seq<bool>)
    ensures Trues(marks + more) == Trues(marks) + Trues(more)
  {
    if more == [] {
      assert marks + more == marks;
    } else {
      assert (marks + more)[..|marks| + |more| - 1] == marks + more[..|more|-1];
      TruesInTurn(marks, more[..|more|-1]);
    }
  }

  /** One attempt more: what it made, and whether it marked its row. */
  lemma OneMoreMade(refs: map<string, Ref>, mid: map<string, Ref>, after: map<string, Ref>, user: string,
                    plan: seq<Attempt>, marks: seq<bool>, a: Attempt, ok: bool)
    requires |marks| == |plan| && RefsGrow(refs, mid, MadeBy(user, plan)) && AllMade(mid, user, plan, marks)
    requires RefsGrow(mid, after, {RefOf(user, a)}) && (ok ==> HasPair(after, RefOf(user, a)))
    ensures RefsGrow(refs, after, MadeBy(user, plan + [a])) && AllMade(after, user, plan + [a], marks + [ok])
    ensures Trues(marks + [ok]) == Trues(marks) + if ok then 1 else 0
  {
    GrowOn(refs, mid, after, MadeBy(user, plan), {RefOf(user, a)});
    MadeInTurn(user, plan, [a]);
    StillMade(mid, after, {RefOf(user, a)}, user, plan, marks);
    AllMadeInTurn(after, user, plan, marks, [a], [ok]);
    assert (marks + [ok])[..|marks|] == marks;
  }

  lemma MadeInTurn(user: string, plan: seq<Attempt>, more: seq<Attempt>)
    ensures MadeBy(user, plan + more) == MadeBy(user, plan) + MadeBy(user, more)
    ensures |more| == 1 ==> MadeBy(user, more) == {RefOf(user, more[0])}
  {
    forall r | r in MadeBy(user, more) ensures r in MadeBy(user, plan + more) {
      var k :| 0 <= k < |more| && r == RefOf(user, more[k]);
      assert (plan + more)[|plan| + k] == more[k];
    }
    forall r | r in MadeBy(user, plan) ensures r in MadeBy(user, plan + more) {
      var k :| 0 <= k < |plan| && r == RefOf(user, plan[k]);
      assert (plan + more)[k] == plan[k];
    }
  }

  lemma StillMade(refs: map<string, Ref>, after: map<string, Ref>, made: set<Ref>, user: string, plan: seq<Attempt>,
                  marks: seq<bool>)
    requires |marks| == |plan| && AllMade(refs, user, plan, marks) && RefsGrow(refs, after, made)
    ensures AllMade(after, user, plan, marks)
  {
    forall k | 0 <= k < |plan| && marks[k] ensures HasPair(after, RefOf(user, plan[k])) {
      PairsStay(refs, after, made, RefOf(user, plan[k]));
    }
  }

  /** Two plans carried out one after the other. */
  lemma MadeTwice(refs: map<string, Ref>, mid: map<string, Ref>, after: map<string, Ref>, user: string,
                  a: seq<Attempt>, marks: seq<bool>, b: seq<Attempt>, more: seq<bool>)
    requires |marks| == |a| && |more| == |b|
    requires RefsGrow(refs, mid, MadeBy(user, a)) && AllMade(mid, user, a, marks)
    requires RefsGrow(mid, after, MadeBy(user, b)) && AllMade(after, user, b, more)
    ensures RefsGrow(refs, after, MadeBy(user, a + b)) && AllMade(after, user, a + b, marks + more)
    ensures Trues(marks + more) == Trues(marks) + Trues(more)
  {
    GrowOn(refs, mid, after, MadeBy(user, a), MadeBy(user, b));
    MadeInTurn(user, a, b);
    StillMade(mid, after, MadeBy(user, b), user, a, marks);
    AllMadeInTurn(after, user, a, marks, b, more);
    TruesInTurn(marks, more);
  }

  lemma AllMadeInTurn(refs: map<string, Ref>, user: string, a: seq<Attempt>, marks: seq<bool>, b: seq<Attempt>,
                      more: seq<bool>)
    requires |marks| == |a| && |more| == |b| && AllMade(refs, user, a, marks) && AllMade(refs, user, b, more)
    ensures AllMade(refs, user, a + b, marks + more)
  {
    forall k | 0 <= k < |a + b| && (marks + more)[k] ensures HasPair(refs, RefOf(user, (a + b)[k])) {
      if k < |a| {
        assert (a + b)[k] == a[k] && marks[k];
      } else {
        assert (a + b)[k] == b[k - |a|] && more[k - |a|];
      }
    }
  }

  /** The rows the attempts of a plan leave, given which of them mark their row. */
  function Promoted(rows: seq<Row>, user: string, plan: seq<Attempt>, marks: seq<bool>): seq<Row>
    requires |marks| == |plan|
  {
    if plan == [] then rows
    else
      var n := |plan| - 1;
      var before := Promoted(rows, user, plan[..n], marks[..n]);
      if marks[n] then Marked(before, user, plan[n].row.id, plan[n].task) else before
  }

  /** What carrying out a plan leaves: the marked rows, references only of its attempts, and one
      for every attempt that marked its row. */
  ghost predicate CarriedOut(t: Tables, user: string, plan: seq<Attempt>, marks: seq<bool>, after: Tables) {
    && |marks| == |plan| && after.rows == Promoted(t.rows, user, plan, marks)
    && RefsGrow(t.refs, after.refs, MadeBy(user, plan)) && AllMade(after.refs, user, plan, marks)
  }

  /** A row after a promotion: marked by its own attempt, if there was one and it succeeded. */
  lemma {:induction false} PromotedRow(rows: seq<Row>, user: string, plan: seq<Attempt>, marks: seq<bool>, k: nat)
    requires |marks| == |plan| && k < |rows| && DistinctRows(plan)
    ensures var after := Promoted(rows, user, plan, marks);
      && |after| == |rows|
      && (rows[k].user == user && rows[k].promoted == "" ==>
            forall j | 0 <= j < |plan| && plan[j].row.id == rows[k].id && marks[j] ::
                after[k] == rows[k].(promoted := plan[j].task))
      && ((forall j | 0 <= j < |plan| && marks[j] :: plan[j].row.id != rows[k].id) ==> after[k] == rows[k])
      && (rows[k].promoted != "" || rows[k].user != user ==> after[k] == rows[k])
  {
    if plan != [] {
      var n := |plan| - 1;
      assert forall i, j | 0 <= i < n && 0 <= j < n && plan[..n][i].row.id == plan[..n][j].row.id ::
          plan[i].row.id == plan[j].row.id;
      PromotedRow(rows, user, plan[..n], marks[..n], k);
      var before := Promoted(rows, user, plan[..n], marks[..n]);
      if plan[n].row.id == rows[k].id {
        assert forall j | 0 <= j < n && marks[..n][j] :: plan[..n][j].row.id != rows[k].id;
        assert before[k] == rows[k];
      } else {
        forall j | 0 <= j < |plan| && plan[j].row.id == rows[k].id && marks[j]
          ensures rows[k].user == user && rows[k].promoted == "" ==>
              Promoted(rows, user, plan, marks)[k] == rows[k].(promoted := plan[j].task)
        {
          assert plan[..n][j] == plan[j] && marks[..n][j] == marks[j];
        }
      }
    }
  }

  // ---------------------------------------------------------------- steps and runs

  /** The operations on pending rows; a link is the direct reference of a submitted paste,
      which records a pinned row first. Database failures cut a step short. */
  datatype Step =
    | Record(h: Row)
    | Pin(user: string, target: string, task: string, draft: Option<string>)
    | CancelDraft(user: string, target: string, discarded: string)
    | Promote(user: string, target: string, task: string, draft: Option<string>, known: Option<set<string>>,
        marks: seq<bool>)
    | Link(h: Row, marked: bool)

  /** The row that a recording answers with. */
  ghost function Answered(rows: seq<Row>, h: Row): Row {
    if exists r :: r in rows && Active(r, h) then var r :| r in rows && Active(r, h); r else h.(promoted := "")
  }

  predicate Nameless(user: string, target: string, task: string) {
    user == "" || target == "" || task == ""
  }

  /** A paste without a matched copy or a known source task leaves no trace. */
  predicate Linkable(h: Row) {
    h.copy != "" && h.sourceTask != "" && ValidPending(h)
  }

  function RefFor(h: Row): Ref {
    Ref(h.user, h.intended, h.sourceTask, "reviews", h.snapshot, h.sourceTerminal, h.target, h.copy)
  }

  ghost function After(rows: seq<Row>, s: Step): seq<Row> {
    match s
    case Record(h) => if ValidPending(h) then Recorded(rows, h) else rows
    case Pin(user, target, task, draft) => Pinned(rows, user, target, task, draft)
    case CancelDraft(user, target, discarded) => WithoutDraft(rows, user, target, discarded)
    case Promote(user, target, task, draft, known, marks) =>
      var plan := Plan(rows, user, target, task, draft, known);
      if Nameless(user, target, task) || |marks| != |plan| then rows else Promoted(rows, user, plan, marks)
    case Link(h, marked) =>
      if !Linkable(h) then rows
      else if marked then Marked(Recorded(rows, h), h.user, Answered(rows, h).id, h.intended) else Recorded(rows, h)
  }

  ghost predicate FreshId(rows: seq<Row>, s: Step) {
    match s
    case Record(h) => forall r | r in rows :: r.id != h.id
    case Link(h, _) => h.intended != "" && forall r | r in rows :: r.id != h.id
    case _ => true
  }

  /** One active row per paste event. */
  ghost predicate OneActive(rows: seq<Row>) {
    forall i, j | 0 <= i < |rows| && 0 <= j < |rows| && rows[i].promoted == "" && Active(rows[j], rows[i]) :: i == j
  }

  ghost predicate RowsOk(rows: seq<Row>) {
    UniqueIds(rows) && OneActive(rows)
  }

  // ---------------------------------------------------------------- what steps keep

  /** The same rows, some of them newly promoted or newly pinned. */
  ghost predicate SameRows(rows: seq<Row>, after: seq<Row>) {
    |after| == |rows| && forall k | 0 <= k < |rows| ::
      && after[k] == rows[k].(intended := after[k].intended, promoted := after[k].promoted)
      && (rows[k].promoted != "" ==> after[k] == rows[k])
  }

  lemma SameRowsOk(rows: seq<Row>, after: seq<Row>)
    requires RowsOk(rows) && SameRows(rows, after)
    ensures RowsOk(after)
  {
    forall i, j | 0 <= i < |after| && 0 <= j < |after| && after[i].id == after[j].id ensures i == j {
      assert rows[i].id == rows[j].id;
    }
    forall i, j | 0 <= i < |after| && 0 <= j < |after| && after[i].promoted == ""
        && Active(after[j], after[i]) ensures i == j {
      assert rows[i].promoted == "" && Active(rows[j], rows[i]);
    }
  }

  lemma {:induction false} PromotedSame(rows: seq<Row>, user: string, plan: seq<Attempt>, marks: seq<bool>)
    requires |marks| == |plan|
    ensures SameRows(rows, Promoted(rows, user, plan, marks))
  {
    if plan != [] {
      PromotedSame(rows, user, plan[..|plan|-1], marks[..|plan|-1]);
    }
  }

  lemma {:induction false} WithoutMembers(rows: seq<Row>, user: string, target: string, draft: string)
    requires RowsOk(rows)
    ensures RowsOk(WithoutDraft(rows, user, target, draft))
    ensures forall r :: r in WithoutDraft(rows, user, target, draft) <==>
        r in rows && !Discardable(r, user, target, draft)
  {
    if rows != [] {
      var n := |rows| - 1;
      LastIsNew(rows);
      assert OneActive(rows[..n]);
      WithoutMembers(rows[..n], user, target, draft);
      var rest := WithoutDraft(rows[..n], user, target, draft);
      AppendOk(rest, rows, n);
    }
  }

  /** A row can follow rows it was stored after. */
  lemma AppendOk(rest: seq<Row>, rows: seq<Row>, n: nat)
    requires RowsOk(rest) && RowsOk(rows) && n < |rows| && forall r | r in rest :: r in rows[..n]
    ensures RowsOk(rest + [rows[n]])
  {
    forall r | r in rest ensures r.id != rows[n].id && (r.promoted == "" ==> !Active(rows[n], r))
        && (rows[n].promoted == "" ==> !Active(r, rows[n])) {
      var i :| 0 <= i < n && rows[..n][i] == r;
      assert rows[i] == r;
    }
  }

  lemma RecordOk(rows: seq<Row>, h: Row)
    requires RowsOk(rows) && forall r | r in rows :: r.id != h.id
    ensures RowsOk(Recorded(rows, h))
    ensures forall r | r in rows :: r in Recorded(rows, h)
  {
    if !exists r :: r in rows && Active(r, h) {
      forall k | 0 <= k < |rows| ensures !Active(rows[k], h) && rows[k].id != h.id {
        assert rows[k] in rows;
      }
    }
  }

  lemma StepKeepsRows(rows: seq<Row>, s: Step)
    requires RowsOk(rows) && FreshId(rows, s)
    ensures RowsOk(After(rows, s))
  {
    match s
    case Record(h) => RecordOk(rows, h);
    case Pin(user, target, task, draft) => SameRowsOk(rows, Pinned(rows, user, target, task, draft));
    case CancelDraft(user, target, discarded) => WithoutMembers(rows, user, target, discarded);
    case Promote(user, target, task, draft, known, marks) =>
      var plan := Plan(rows, user, target, task, draft, known);
      if |marks| == |plan| {
        PromotedSame(rows, user, plan, marks);
        SameRowsOk(rows, Promoted(rows, user, plan, marks));
      }
    case Link(h, marked) =>
      RecordOk(rows, h);
      var recorded := Recorded(rows, h);
      SameRowsOk(recorded, Marked(recorded, h.user, Answered(rows, h).id, h.intended));
  }

  /** A pinned row is still there, pinned as it was, and promoted, if at all, to its task; a
      promoted row is unchanged. */
  ghost predicate Faithful(r: Row, after: seq<Row>) {
    r in after || (r.promoted == "" && r.intended != "" && r.(promoted := r.intended) in after)
  }

  /** A link collapses onto an active row that waits for another task, and marks it. */
  ghost predicate Strays(rows: seq<Row>, s: Step, r: Row) {
    && s.Link? && s.marked && Linkable(s.h) && r in rows && Active(r, s.h)
    && r.intended != s.h.intended
  }

  lemma PromoteFaithful(rows: seq<Row>, s: Step, r: Row)
    requires RowsOk(rows) && s.Promote? && r in rows && (r.intended != "" || r.promoted != "")
    ensures Faithful(r, After(rows, s))
  {
    var plan := Plan(rows, s.user, s.target, s.task, s.draft, s.known);
    if |s.marks| == |plan| && s.user != "" && s.target != "" && s.task != "" {
      var k :| 0 <= k < |rows| && rows[k] == r;
      PlanPartitions(rows, s.user, s.target, s.task, s.draft, s.known);
      PromotedRow(rows, s.user, plan, s.marks, k);
      var after := Promoted(rows, s.user, plan, s.marks);
      assert after[k] in after;
      if j :| 0 <= j < |plan| && s.marks[j] && plan[j].row.id == r.id {
        SameRow(rows, plan[j].row, r);
      }
    }
  }

  lemma LinkFaithful(rows: seq<Row>, s: Step, r: Row)
    requires RowsOk(rows) && FreshId(rows, s) && s.Link? && r in rows && (r.intended != "" || r.promoted != "")
    ensures Faithful(r, After(rows, s)) <==> !Strays(rows, s, r)
  {
    var h := s.h;
    RecordOk(rows, h);
    var recorded := Recorded(rows, h);
    var after := After(rows, s);
    var k :| 0 <= k < |recorded| && recorded[k] == r;
    if Linkable(h) && s.marked {
      var answer := Answered(rows, h);
      assert after[k] == MarkedRow(r, h.user, answer.id, h.intended);
      if Active(r, h) {
        OnlyActive(rows, h, r);
        StepKeepsRows(rows, s);
        assert after[k] == r.(promoted := h.intended);
        if r.(promoted := r.intended) in after || r in after {
          var x :| 0 <= x < |after| && (after[x] == r || after[x] == r.(promoted := r.intended));
          assert after[x].id == after[k].id;
        }
      } else {
        assert answer.id == r.id ==> r.promoted != "" by {
          if answer.id == r.id && exists x :: x in rows && Active(x, h) {
            SameRow(rows, answer, r);
          }
        }
        assert after[k] == r;
      }
    } else if Linkable(h) {
      assert after == recorded;
    } else {
      assert after == rows;
    }
  }

  lemma OnlyActive(rows: seq<Row>, h: Row, r: Row)
    requires RowsOk(rows) && r in rows && Active(r, h)
    ensures Answered(rows, h) == r && Recorded(rows, h) == rows
  {
    var a := Answered(rows, h);
    var i :| 0 <= i < |rows| && rows[i] == r;
    var j :| 0 <= j < |rows| && rows[j] == a;
    assert Active(rows[j], rows[i]);
  }

  /** No step re-pins or cancels a pinned row or promotes it to another task, and none changes
      a promoted row, except, exactly, a straying link. */
  lemma StepFaithful(rows: seq<Row>, s: Step, r: Row)
    requires RowsOk(rows) && FreshId(rows, s) && r in rows && (r.intended != "" || r.promoted != "")
    ensures Faithful(r, After(rows, s)) <==> !Strays(rows, s, r)
  {
    match s
    case Record(h) => RecordOk(rows, h);
    case Pin(user, target, task, draft) =>
      var k :| 0 <= k < |rows| && rows[k] == r;
      assert Pinned(rows, user, target, task, draft)[k] == r;
    case CancelDraft(user, target, discarded) => WithoutMembers(rows, user, target, discarded);
    case Promote(_, _, _, _, _, _) => PromoteFaithful(rows, s, r);
    case Link(_, _) => LinkFaithful(rows, s, r);
  }

  ghost function AfterAll(rows: seq<Row>, steps: seq<Step>): seq<Row> {
    if steps == [] then rows else After(AfterAll(rows, steps[..|steps|-1]), steps[|steps|-1])
  }

  /** Ids are fresh all along. */
  ghost predicate FreshRun(rows: seq<Row>, steps: seq<Step>) {
    forall k | 0 <= k < |steps| :: FreshId(AfterAll(rows, steps[..k]), steps[k])
  }

  lemma FreshPrefix(rows: seq<Row>, steps: seq<Step>)
    requires steps != [] && FreshRun(rows, steps)
    ensures FreshRun(rows, steps[..|steps|-1]) && FreshId(AfterAll(rows, steps[..|steps|-1]), steps[|steps|-1])
  {
    var n := |steps| - 1;
    forall k | 0 <= k < n ensures FreshId(AfterAll(rows, steps[..n][..k]), steps[..n][k]) {
      assert steps[..n][..k] == steps[..k];
    }
  }

  lemma {:induction false} RunKeepsRows(rows: seq<Row>, steps: seq<Step>)
    requires RowsOk(rows) && FreshRun(rows, steps)
    ensures RowsOk(AfterAll(rows, steps))
  {
    if steps != [] {
      FreshPrefix(rows, steps);
      RunKeepsRows(rows, steps[..|steps|-1]);
      StepKeepsRows(AfterAll(rows, steps[..|steps|-1]), steps[|steps|-1]);
    }
  }

  /** Over every run without straying links a handoff pinned to a task stays pinned to it and is
      promoted to nothing else, and a promoted handoff never changes. */
  lemma {:induction false} PinnedForGood(rows: seq<Row>, steps: seq<Step>, r: Row)
    requires RowsOk(rows) && FreshRun(rows, steps) && r in rows && (r.intended != "" || r.promoted != "")
    requires forall k, x | 0 <= k < |steps| && x in AfterAll(rows, steps[..k]) && x.id == r.id ::
        !Strays(AfterAll(rows, steps[..k]), steps[k], x)
    ensures Faithful(r, AfterAll(rows, steps))
  {
    if steps != [] {
      var n := |steps| - 1;
      FreshPrefix(rows, steps);
      forall k, x | 0 <= k < n && x in AfterAll(rows, steps[..n][..k]) && x.id == r.id
        ensures !Strays(AfterAll(rows, steps[..n][..k]), steps[..n][k], x)
      {
        assert steps[..n][..k] == steps[..k];
      }
      PinnedForGood(rows, steps[..n], r);
      RunKeepsRows(rows, steps[..n]);
      var before := AfterAll(rows, steps[..n]);
      var u := if r in before then r else r.(promoted := r.intended);
      assert u in before && u.id == r.id;
      StepFaithful(before, steps[n], u);
    }
  }

  lemma OneRowPlan(r: Row)
    requires Waits(r, r.user, r.target) && r.intended != "" && r.sourceTask != ""
    ensures Plan([r], r.user, r.target, r.intended, Some(r.draft), Some({r.intended})) == [Attempt(r, r.intended)]
  {
    assert [r][..0] == [];
    assert Listed([], r.user, r.target) == [];
    assert Listed([r], r.user, r.target) == [r];
    assert Recoveries([r], r.intended, Some(r.draft), Some({r.intended})) == [];
    assert Joinings([r], r.intended, Some(r.draft)) == [Attempt(r, r.intended)];
  }

  /** The promotion of one pinned row whose only attempt fails leaves it waiting. */
  lemma FailedPromotion(r: Row)
    requires Waits(r, r.user, r.target) && r.intended != "" && r.sourceTask != ""
    ensures After([r], Promote(r.user, r.target, r.intended, Some(r.draft), Some({r.intended}), [false])) == [r]
  {
    OneRowPlan(r);
    assert Promoted([r], r.user, [Attempt(r, r.intended)], [false]) == [r] by {
      assert [Attempt(r, r.intended)][..0] == [] && [false][..0] == [];
    }
  }

  lemma OneMoreStep(rows: seq<Row>, steps: seq<Step>, s: Step)
    requires FreshRun(rows, steps) && FreshId(AfterAll(rows, steps), s)
    ensures FreshRun(rows, steps + [s]) && AfterAll(rows, steps + [s]) == After(AfterAll(rows, steps), s)
  {
    assert (steps + [s])[..|steps|] == steps;
    forall k | 0 <= k < |steps| ensures (steps + [s])[..k] == steps[..k] {
    }
  }

  /** A straying link: a paste is recorded, pinned to task a when its draft is submitted, and
      its reference fails; the same copy submitted again in that draft for task b takes the
      waiting row along, and a's provenance goes to b. */
  lemma StrayingLink(h: Row, id: string, a: string, b: string) returns (steps: seq<Step>, s: Step, r: Row)
    requires Linkable(h) && h.intended == "" && h.promoted == "" && id != h.id && a != "" && b != "" && a != b
    ensures |steps| == 3 && s.Link? && FreshRun([], steps + [s]) && r.intended == a
    ensures AfterAll([], steps) == [r] && Strays(AfterAll([], steps), s, r)
    ensures AfterAll([], steps + [s]) == [r.(promoted := b)] && !Faithful(r, AfterAll([], steps + [s]))
  {
    r := h.(intended := a);
    s := Link(h.(id := id, intended := b), true);
    steps := RecordedAndPinned(h, r);
    LinkTakesAlong(r, s);
    OneMoreStep([], steps, s);
    assert AfterAll([], steps + [s])[0] == r.(promoted := b);
  }

  lemma RecordedAndPinned(h: Row, r: Row) returns (steps: seq<Step>)
    requires Linkable(h) && h.intended == "" && h.promoted == "" && r == h.(intended := r.intended) && r.intended != ""
    ensures |steps| == 3 && FreshRun([], steps) && AfterAll([], steps) == [r]
  {
    var pin := Pin(h.user, h.target, r.intended, Some(h.draft));
    var promote := Promote(h.user, h.target, r.intended, Some(h.draft), Some({r.intended}), [false]);
    var none: seq<Step> := [];
    OneMoreStep([], none, Record(h));
    var one := none + [Record(h)];
    assert AfterAll([], one) == [h] by {
      assert [] + [h.(promoted := "")] == [h];
    }
    OneMoreStep([], one, pin);
    assert AfterAll([], one + [pin]) == [r] by {
      assert Pinned([h], h.user, h.target, r.intended, Some(h.draft)) == [r];
    }
    OneMoreStep([], one + [pin], promote);
    FailedPromotion(r);
    steps := one + [pin] + [promote];
  }

  lemma LinkTakesAlong(r: Row, s: Step)
    requires s.Link? && s.marked && Linkable(s.h) && Active(r, s.h)
    ensures After([r], s) == [r.(promoted := s.h.intended)]
  {
    OneActiveRow(r);
    OnlyActive([r], s.h, r);
    assert Marked([r], s.h.user, r.id, s.h.intended) == [r.(promoted := s.h.intended)];
  }

  lemma OneActiveRow(r: Row)
    ensures RowsOk([r])
  {
  }

  /** When nothing fails, a promotion settles every waiting handoff it deals with: the ones of
      the submission go to its task, the others to the task they were pinned to. */
  lemma PromotionSettles(rows: seq<Row>, user: string, target: string, task: string, draft: Option<string>,
                         known: set<string>, marks: seq<bool>, r: Row)
    requires UniqueIds(rows) && r in rows && Waits(r, user, target)
        && |marks| == |Plan(rows, user, target, task, draft, Some(known))|
    requires forall k | 0 <= k < |marks| :: marks[k]
    ensures Joins(r, task, draft) ==>
        r.(promoted := task) in Promoted(rows, user, Plan(rows, user, target, task, draft, Some(known)), marks)
    ensures Recovers(r, task, draft) && r.intended in known ==>
            r.(promoted := r.intended) in Promoted(rows, user, Plan(rows, user, target, task, draft, Some(known)),
                marks)
  {
    var plan := Plan(rows, user, target, task, draft, Some(known));
    var k :| 0 <= k < |rows| && rows[k] == r;
    PlanPartitions(rows, user, target, task, draft, Some(known));
    PromotedRow(rows, user, plan, marks, k);
    var after := Promoted(rows, user, plan, marks);
    assert after[k] in after;
    if Joins(r, task, draft) {
      var j :| 0 <= j < |plan| && plan[j] == Attempt(r, task);
    } else if Recovers(r, task, draft) && r.intended in known {
      var j :| 0 <= j < |plan| && plan[j] == Attempt(r, r.intended);
    }
  }

  // ---------------------------------------------------------------- the tables in place

  class Desk {
    var rows: seq<Row>
    var refs: map<string, Ref>

    ghost predicate Valid()
      reads this
    {
      RowsOk(rows) && UniqueRefs(refs)
    }

    ghost function Now(): Tables
      reads this
    {
      Tables(rows, refs)
    }

    constructor ()
      ensures Valid() && rows == [] && refs == map[]
    {
      rows, refs := [], map[];
    }

    method RecordPending(h: Row) returns (r: Outcome)
      requires Valid() && forall x | x in rows :: x.id != h.id
      modifies this`rows
      ensures Valid() && rows == After(old(rows), Record(h))
      ensures r.Accepted? <==> ValidPending(h)
    {
      if h.user == "" || h.sourceTerminal == "" || h.target == "" || h.sourceTerminal == h.target {
        return Rejected(Invalid);
      }
      if h.fingerprint == "" {
        return Rejected(Invalid);
      }
      RecordOk(rows, h);
      for k := 0 to |rows|
        invariant forall j | 0 <= j < k :: !Active(rows[j], h)
      {
        if Active(rows[k], h) {
          return Accepted;
        }
      }
      rows := rows + [h.(promoted := "")];
      return Accepted;
    }

    /** Pins only rows that nobody has pinned. */
    method PinPending(user: string, target: string, task: string, draft: Option<string>)
      requires Valid()
      modifies this`rows
      ensures Valid() && rows == After(old(rows), Pin(user, target, task, draft))
    {
      StepKeepsRows(rows, Pin(user, target, task, draft));
      for k := 0 to |rows|
        invariant |rows| == |old(rows)|
        invariant forall j | 0 <= j < |rows| ::
            rows[j] == if j < k then PinnedRow(old(rows)[j], user, target, task, draft) else old(rows)[j]
      {
        var r := rows[k];
        if r.user == user && r.target == target && r.promoted == "" && r.intended == ""
            && (draft.None? || r.draft == draft.value) {
          rows := rows[k := r.(intended := task)];
        }
      }
      assert rows == Pinned(old(rows), user, target, task, draft);
    }

    /** Discards unsubmitted input only. */
    method CancelHandoffDraft(user: string, target: string, draft: string)
      requires Valid()
      modifies this`rows
      ensures Valid() && rows == After(old(rows), CancelDraft(user, target, draft))
    {
      StepKeepsRows(rows, CancelDraft(user, target, draft));
      var kept := [];
      for k := 0 to |rows|
        invariant rows == old(rows) && kept == WithoutDraft(rows[..k], user, target, draft)
      {
        assert rows[..k+1][..k] == rows[..k];
        if !Discardable(rows[k], user, target, draft) {
          kept := kept + [rows[k]];
        }
      }
      assert rows[..|rows|] == rows;
      rows := kept;
    }

    method MarkPromoted(user: string, id: string, task: string)
      modifies this`rows
      ensures rows == Marked(old(rows), user, id, task)
    {
      for k := 0 to |rows|
        invariant |rows| == |old(rows)|
        invariant forall j | 0 <= j < |rows| ::
            rows[j] == if j < k then MarkedRow(old(rows)[j], user, id, task) else old(rows)[j]
      {
        if rows[k].user == user && rows[k].id == id && rows[k].promoted == "" {
          rows := rows[k := rows[k].(promoted := task)];
        }
      }
    }

    /** Adds a reference, or refreshes the one there is for the pair. */
    method AddSourceRef(r: Ref, id: string) returns (ok: bool)
      requires UniqueRefs(refs)
      modifies this`refs
      ensures UniqueRefs(refs) && (ok <==> RefAccepted(old(refs), r, id))
      ensures if ok then RefAdded(old(refs), r, id, refs) else refs == old(refs)
    {
      if r.target == "" || r.source == "" || r.target == r.source {
        return false;
      }
      var keys := refs.Keys;
      while keys != {}
        invariant keys <= refs.Keys && refs == old(refs)
        invariant forall x | x in refs.Keys - keys :: !SamePair(refs[x], r)
      {
        var x :| x in keys;
        if SamePair(refs[x], r) {
          refs := refs[x := Refreshed(refs[x], r)];
          AddKeepsUnique(old(refs), r, id, refs);
          return true;
        }
        keys := keys - {x};
      }
      if id in refs {
        return false;
      }
      refs := refs[id := r];
      AddKeepsUnique(old(refs), r, id, refs);
      return true;
    }

    /** Writes the reference of one handoff and marks it. */
    method Attach(user: string, a: Attempt, id: string, luck: Luck) returns (ok: bool)
      requires UniqueRefs(refs)
      modifies this
      ensures UniqueRefs(refs) && rows == (if ok then Marked(old(rows), user, a.row.id, a.task) else old(rows))
      ensures Attached(Tables(old(rows), old(refs)), user, a, id, luck, Tables(rows, refs), ok)
      ensures RefsGrow(old(refs), refs, {RefOf(user, a)}) && (ok ==> HasPair(refs, RefOf(user, a)))
    {
      if luck == RefFails {
        return false;
      }
      var added := AddSourceRef(RefOf(user, a), id);
      if added {
        AddGrows(old(refs), RefOf(user, a), id, refs);
      }
      if !added || luck == MarkFails {
        return false;
      }
      MarkPromoted(user, a.row.id, a.task);
      return true;
    }

    /** The next attempt of a plan. */
    method AttachNext(ghost t: Tables, ghost plan: seq<Attempt>, ghost marks: seq<bool>, user: string, a: Attempt,
                      id: string, luck: Luck)
      returns (ok: bool)
      requires UniqueRefs(refs) && CarriedOut(t, user, plan, marks, Now())
      modifies this
      ensures UniqueRefs(refs) && CarriedOut(t, user, plan + [a], marks + [ok], Now())
      ensures Trues(marks + [ok]) == Trues(marks) + if ok then 1 else 0
    {
      ghost var mid := Now();
      ok := Attach(user, a, id, luck);
      OneMoreCarried(t, mid, user, plan, marks, a, ok, Now());
    }

    /** The direct reference of a submitted paste: recorded as pinned first, so that a failure
        can be recovered, and marked when the reference is written. */
    method LinkSource(h: Row, id: string, luck: Luck) returns (ok: bool, ghost marked: bool)
      requires Valid() && h.intended != "" && forall x | x in rows :: x.id != h.id
      modifies this
      ensures Valid() && rows == After(old(rows), Link(h, marked))
      ensures ok <==> Linkable(h) && luck != RefFails && RefAccepted(old(refs), RefFor(h), id)
      ensures marked <==> ok && luck == Both
      ensures if ok then RefAdded(old(refs), RefFor(h), id, refs) && HasPair(refs, RefFor(h)) else refs == old(refs)
    {
      marked := false;
      StepKeepsRows(rows, Link(h, true));
      if h.copy == "" || h.sourceTask == "" {
        return false, false;
      }
      ghost var was := rows;
      var recorded := RecordPending(h);
      if recorded.Rejected? {
        return false, false;
      }
      ActiveThere(was, h);
      var k := 0;
      while k < |rows| && !Active(rows[k], h)
        invariant k <= |rows| && forall j | 0 <= j < k :: !Active(rows[j], h)
      {
        k := k + 1;
      }
      AnsweredIs(was, h, k);
      if luck == RefFails {
        return false, false;
      }
      ok := AddSourceRef(RefFor(h), id);
      if !ok {
        return false, false;
      }
      AddGrows(old(refs), RefFor(h), id, refs);
      if luck != MarkFails {
        MarkPromoted(h.user, rows[k].id, h.intended);
        marked := true;
      }
    }

    method ListPending(user: string, target: string) returns (ps: seq<Row>)
      ensures ps == Listed(rows, user, target)
    {
      ps := [];
      for k := 0 to |rows|
        invariant ps == Listed(rows[..k], user, target)
      {
        assert rows[..k+1][..k] == rows[..k];
        if Waits(rows[k], user, target) {
          ps := ps + [rows[k]];
        }
      }
      assert rows[..|rows|] == rows;
    }

    /** Retries what earlier submissions left pinned, each against its own task. */
    method RecoverEarlier(ps: seq<Row>, user: string, task: string, draft: Option<string>, known: Option<set<string>>,
                          ids: nat -> string, lucks: nat -> Luck)
      returns (promoted: nat, failed: nat, ghost marks: seq<bool>)
      requires UniqueRefs(refs)
      modifies this
      ensures UniqueRefs(refs) && promoted == Trues(marks)
      ensures CarriedOut(old(Now()), user, Recoveries(ps, task, draft, known), marks, Now())
      ensures promoted + failed == |marks| + GivenUp(ps, task, draft, known)
    {
      promoted, failed, marks := 0, 0, [];
      ghost var t, plan := Now(), [];
      NothingCarried(t, user);
      for k := 0 to |ps|
        invariant UniqueRefs(refs) && promoted == Trues(marks)
        invariant plan == Recoveries(ps[..k], task, draft, known) && CarriedOut(t, user, plan, marks, Now())
        invariant promoted + failed == |marks| + GivenUp(ps[..k], task, draft, known)
      {
        var p := ps[k];
        OneMoreRecovery(ps, task, draft, known, k);
        assert Recovers(p, task, draft) <==>
          !(p.sourceTask == "" || p.intended == "" || (p.intended == task && (draft.None? || p.draft == draft.value)));
        if p.sourceTask == "" || p.intended == "" || (p.intended == task && (draft.None? || p.draft == draft.value)) {
          continue;
        }
        if known.None? || p.intended !in known.value {
          failed := failed + 1;
          continue;
        }
        var ok := AttachNext(t, plan, marks, user, Attempt(p, p.intended), ids(promoted + failed),
                             lucks(promoted + failed));
        plan := plan + [Attempt(p, p.intended)];
        marks := marks + [ok];
        if ok { promoted := promoted + 1; } else { failed := failed + 1; }
      }
      assert ps[..|ps|] == ps;
    }

    /** Attaches what belongs to the submission being confirmed. */
    method JoinCurrent(ps: seq<Row>, user: string, task: string, draft: Option<string>, ids: nat -> string,
                       lucks: nat -> Luck)
      returns (promoted: nat, failed: nat, ghost marks: seq<bool>)
      requires UniqueRefs(refs)
      modifies this
      ensures UniqueRefs(refs) && |marks| == promoted + failed && promoted == Trues(marks)
      ensures CarriedOut(old(Now()), user, Joinings(ps, task, draft), marks, Now())
    {
      promoted, failed, marks := 0, 0, [];
      ghost var t, plan := Now(), [];
      NothingCarried(t, user);
      for k := 0 to |ps|
        invariant UniqueRefs(refs) && |marks| == promoted + failed && promoted == Trues(marks)
        invariant plan == Joinings(ps[..k], task, draft) && CarriedOut(t, user, plan, marks, Now())
      {
        var p := ps[k];
        OneMoreJoining(ps, task, draft, k);
        assert Joins(p, task, draft) <==>
          !(p.sourceTask == "" || (p.intended != "" && p.intended != task) || (draft.Some? && p.draft != draft.value));
        if p.sourceTask == "" || (p.intended != "" && p.intended != task) || (draft.Some? && p.draft != draft.value) {
          continue;
        }
        var ok := AttachNext(t, plan, marks, user, Attempt(p, task), ids(promoted + failed), lucks(promoted + failed));
        plan := plan + [Attempt(p, task)];
        marks := marks + [ok];
        if ok { promoted := promoted + 1; } else { failed := failed + 1; }
      }
      assert ps[..|ps|] == ps;
    }

    /** Recovers what earlier submissions left, then attaches what belongs to this one. ids
        and lucks are the fresh ids and database outcomes of the attempts of each loop. */
    method PromotePending(user: string, target: string, task: string, draft: Option<string>, known: Option<set<string>>,
                          ids: nat -> string, lucks: nat -> Luck, moreIds: nat -> string, moreLucks: nat -> Luck)
      returns (promoted: nat, failed: nat, ghost marks: seq<bool>)
      requires Valid()
      modifies this
      ensures Valid() && rows == After(old(rows), Promote(user, target, task, draft, known, marks))
      ensures Nameless(user, target, task) ==> refs == old(refs) && promoted == 0 && failed == 1 && marks == []
      ensures !Nameless(user, target, task) ==>
        var plan := Plan(old(rows), user, target, task, draft, known);
        && CarriedOut(old(Now()), user, plan, marks, Now()) && promoted == Trues(marks)
        && promoted + failed == |plan| + GivenUp(Listed(old(rows), user, target), task, draft, known)
    {
      if user == "" || target == "" || task == "" {
        return 0, 1, [];
      }
      var ps := ListPending(user, target);
      promoted, failed, marks := RecoverEarlier(ps, user, task, draft, known, ids, lucks);
      ghost var mid := Now();
      var more, lost; ghost var rest;
      more, lost, rest := JoinCurrent(ps, user, task, draft, moreIds, moreLucks);
      CarriedInTurn(old(Now()), mid, user, Recoveries(ps, task, draft, known), marks, Joinings(ps, task, draft), rest,
                    Now());
      promoted, failed, marks := promoted + more, failed + lost, marks + rest;
      StepKeepsRows(old(rows), Promote(user, target, task, draft, known, marks));
    }
  }

  /** What a recording answers with is the one active row of the paste event. */
  lemma AnsweredIs(rows: seq<Row>, h: Row, k: nat)
    requires RowsOk(rows) && (forall x | x in rows :: x.id != h.id) && k < |Recorded(rows, h)|
        && Active(Recorded(rows, h)[k], h)
    ensures Answered(rows, h) == Recorded(rows, h)[k]
  {
    var recorded := Recorded(rows, h);
    RecordOk(rows, h);
    if r :| r in rows && Active(r, h) {
      OnlyActive(rows, h, r);
      var i :| 0 <= i < |rows| && rows[i] == r;
      assert Active(recorded[k], recorded[i]);
    } else {
      forall j | 0 <= j < |rows| ensures !Active(rows[j], h) {
        assert rows[j] in rows;
      }
    }
  }

  lemma ActiveThere(rows: seq<Row>, h: Row)
    ensures exists k :: 0 <= k < |Recorded(rows, h)| && Active(Recorded(rows, h)[k], h)
  {
    var recorded := Recorded(rows, h);
    if r :| r in rows && Active(r, h) {
      var k :| 0 <= k < |rows| && rows[k] == r;
      assert Active(recorded[k], h);
    } else {
      assert Active(recorded[|rows|], h);
    }
  }

  lemma OneMoreRecovery(ps: seq<Row>, task: string, draft: Option<string>, known: Option<set<string>>, k: nat)
    requires k < |ps|
    ensures var there := Recovers(ps[k], task, draft) && known.Some? && ps[k].intended in known.value;
      && Recoveries(ps[..k+1], task, draft, known) ==
         (if there then Recoveries(ps[..k], task, draft, known) + [Attempt(ps[k], ps[k].intended)]
           else Recoveries(ps[..k], task, draft, known))
      && GivenUp(ps[..k+1], task, draft, known) == GivenUp(ps[..k], task, draft, known) +
          if Recovers(ps[k], task, draft) && !there then 1 else 0
  {
    assert ps[..k+1][..k] == ps[..k];
  }

  lemma OneMoreJoining(ps: seq<Row>, task: string, draft: Option<string>, k: nat)
    requires k < |ps|
    ensures Joinings(ps[..k+1], task, draft) ==
            if Joins(ps[k], task, draft) then Joinings(ps[..k], task, draft) + [Attempt(ps[k], task)]
                else Joinings(ps[..k], task, draft)
  {
    assert ps[..k+1][..k] == ps[..k];
  }

  lemma {:induction false} PlansInTurn(rows: seq<Row>, user: string, a: seq<Attempt>, marks: seq<bool>,
                                       b: seq<Attempt>, more: seq<bool>)
    requires |marks| == |a| && |more| == |b|
    ensures Promoted(rows, user, a + b, marks + more) == Promoted(Promoted(rows, user, a, marks), user, b, more)
  {
    if b == [] {
      assert a + b == a && marks + more == marks;
    } else {
      var n := |b| - 1;
      assert a + b == (a + b[..n]) + [b[n]] && marks + more == (marks + more[..n]) + [more[n]];
      OneMoreMark(rows, user, a + b[..n], marks + more[..n], b[n], more[n]);
      PlansInTurn(rows, user, a, marks, b[..n], more[..n]);
    }
  }

  lemma NothingCarried(t: Tables, user: string)
    ensures CarriedOut(t, user, [], [], t)
  {
  }

  /** One attempt more, on the tables that an earlier part of the plan has left. */
  lemma OneMoreCarried(t: Tables, mid: Tables, user: string, plan: seq<Attempt>, marks: seq<bool>, a: Attempt,
                       ok: bool, after: Tables)
    requires CarriedOut(t, user, plan, marks, mid)
    requires RefsGrow(mid.refs, after.refs, {RefOf(user, a)}) && (ok ==> HasPair(after.refs, RefOf(user, a)))
    requires after.rows == if ok then Marked(mid.rows, user, a.row.id, a.task) else mid.rows
    ensures CarriedOut(t, user, plan + [a], marks + [ok], after)
    ensures Trues(marks + [ok]) == Trues(marks) + if ok then 1 else 0
  {
    OneMoreMade(t.refs, mid.refs, after.refs, user, plan, marks, a, ok);
    OneMoreMark(t.rows, user, plan, marks, a, ok);
  }

  lemma CarriedInTurn(t: Tables, mid: Tables, user: string, a: seq<Attempt>, marks: seq<bool>, b: seq<Attempt>,
                      more: seq<bool>, after: Tables)
    requires CarriedOut(t, user, a, marks, mid) && CarriedOut(mid, user, b, more, after)
    ensures CarriedOut(t, user, a + b, marks + more, after) && Trues(marks + more) == Trues(marks) + Trues(more)
  {
    PlansInTurn(t.rows, user, a, marks, b, more);
    MadeTwice(t.refs, mid.refs, after.refs, user, a, marks, b, more);
  }

  lemma OneMoreMark(rows: seq<Row>, user: string, plan: seq<Attempt>, marks: seq<bool>, a: Attempt, ok: bool)
    requires |marks| == |plan|
    ensures Promoted(rows, user, plan + [a], marks + [ok]) ==
            if ok then Marked(Promoted(rows, user, plan, marks), user, a.row.id, a.task)
                else Promoted(rows, user, plan, marks)
  {
    assert (plan + [a])[..|plan|] == plan && (marks + [ok])[..|plan|] == marks;
  }
}