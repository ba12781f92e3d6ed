/** Which lifecycle moves and milestone lists a project takes, spelled out. */
module LifecycleOutcomes {
  import opened Basics
  import opened ProjectState
  import opened Takeover

  // ---------------------------------------------------------------- the lifecycle

  const EDGES := {(Delegated, Reconnaissance), (Reconnaissance, Planning), (Planning, AwaitingConfirmation),
                  (AwaitingConfirmation, Executing), (Executing, AwaitingAcceptance),
                  (AwaitingAcceptance, Executing), (AwaitingAcceptance, Stage.Completed)}

  /** The last milestone of the list that is in execution. */
  ghost predicate CurrentAt(ms: seq<Milestone>, k: nat) {
    k < |ms| && ms[k].status == Current && forall j | k < j < |ms| :: ms[j].status != Current
  }

  /** Along an edge, or from blocked back to where it was; into execution only with a current
      milestone, after an acceptance a new one; and to the end only with all of them finished. */
  ghost predicate MayMove(p: Project, to: Stage) {
    && (if p.lifecycle.stage == Stalled then p.lifecycle.previous == Some(to)
        else (p.lifecycle.stage, to) in EDGES)
    && (to == Executing ==> exists k: nat ::
          && CurrentAt(p.milestones, k) && p.milestones[k].id != ""
          && (p.lifecycle.stage == AwaitingAcceptance ==> p.milestones[k].id != p.lifecycle.milestone))
    && (to == Stage.Completed ==>
          |p.milestones| > 0 && forall k | 0 <= k < |p.milestones| :: p.milestones[k].status == Finished)
  }

  /** The stage is entered, nothing is left to return to, and execution is of the current
      milestone. */
  ghost predicate MovedTo(p: Project, to: Stage, q: Project) {
    && q == p.(lifecycle := q.lifecycle) && q.lifecycle.stage == to && q.lifecycle.previous == None
    && (to != Executing ==> q.lifecycle.milestone == p.lifecycle.milestone)
    && (to == Executing ==>
          exists k: nat :: CurrentAt(p.milestones, k) && p.milestones[k].id == q.lifecycle.milestone)
  }

  lemma {:induction false} LastCurrentIs(ms: seq<Milestone>)
    ensures forall k: nat | CurrentAt(ms, k) :: ms[k].id == LastCurrent(ms)
    ensures LastCurrent(ms) != "" ==> exists k: nat :: CurrentAt(ms, k)
  {
    if ms != [] {
      var n := |ms| - 1;
      LastCurrentIs(ms[..n]);
      if ms[n].status == Current {
        assert CurrentAt(ms, n);
      } else {
        forall k: nat ensures CurrentAt(ms, k) <==> CurrentAt(ms[..n], k) {
          SameCurrent(ms, n, k);
        }
      }
    }
  }

  lemma SameCurrent(ms: seq<Milestone>, n: nat, k: nat)
    requires n + 1 == |ms| && ms[n].status != Current
    ensures CurrentAt(ms, k) <==> CurrentAt(ms[..n], k)
  {
    if CurrentAt(ms[..n], k) {
      assert forall j | k < j < n :: ms[j] == ms[..n][j];
    }
    if CurrentAt(ms, k) {
      assert k != n;
    }
  }

  /** A lifecycle request is accepted exactly along these lines. */
  lemma TransitionMeans(p: Project, to: Stage, reason: string)
    requires to != p.lifecycle.stage
    ensures var r := Transitioned(p, Some(to), reason);
      if to == Stalled then
        r == if Blank(reason) then None
             else Some(p.(lifecycle := p.lifecycle.(stage := Stalled, previous := Some(p.lifecycle.stage))))
      else (r.Some? <==> MayMove(p, to)) && (r.Some? ==> MovedTo(p, to, r.value))
  {
    LastCurrentIs(p.milestones);
    assert p.lifecycle.stage != Stalled ==> (Forward(p.lifecycle.stage, to) <==> (p.lifecycle.stage, to) in EDGES);
  }

  /** The first n milestones are finished ones with evidence, then at most one in execution, then
      those to come, each with a name and an id of its own. */
  ghost predicate InOrderUpTo(ms: seq<Milestone>, n: nat, a: nat, b: nat) {
    && a <= b <= a + 1 && b <= n <= |ms|
    && (forall k | 0 <= k < a :: ms[k].status == Finished && !Blank(ms[k].evidence))
    && (forall k | a <= k < b :: ms[k].status == Current)
    && (forall k | b <= k < n :: ms[k].status == Todo)
    && (forall k | 0 <= k < n :: !Blank(ms[k].id) && !Blank(ms[k].name))
    && (forall j, k | 0 <= j < k < n :: ms[j].id != ms[k].id)
  }

  ghost predicate InOrder(ms: seq<Milestone>, a: nat, b: nat) {
    InOrderUpTo(ms, |ms|, a, b)
  }

  lemma InOrderIsValid(ms: seq<Milestone>, a: nat, b: nat)
    requires InOrder(ms, a, b)
    ensures MilestonesValid(ms)
  {
  }

  lemma {:induction false} ValidIsInOrder(ms: seq<Milestone>, n: nat) returns (a: nat, b: nat)
    requires n <= |ms| && ValidUpTo(ms, n)
    ensures InOrderUpTo(ms, n, a, b)
  {
    a, b := 0, 0;
    if n > 0 {
      a, b := ValidIsInOrder(ms, n - 1);
      assert a < n - 1 ==> Rank(ms[a]) <= Rank(ms[n-1]);
      assert b < n - 1 ==> Rank(ms[b]) <= Rank(ms[n-1]);
      if ms[n-1].status == Finished {
        a, b := n, n;
      } else if ms[n-1].status == Current {
        a, b := n - 1, n;
      }
    }
  }

  /** Such lists, and no others, are accepted. */
  lemma MilestonesMean(ms: seq<Milestone>)
    ensures MilestonesValid(ms) <==> exists a: nat, b: nat :: InOrder(ms, a, b)
  {
    if MilestonesValid(ms) {
      var a, b := ValidIsInOrder(ms, |ms|);
      assert InOrder(ms, a, b);
    }
    forall a: nat, b: nat | InOrder(ms, a, b) {
      InOrderIsValid(ms, a, b);
    }
  }
}
