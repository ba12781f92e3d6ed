/** Exactly what survives a compaction pass, and exactly what the memory of a task then says,
    counted over the items of the task. */
module CompactionOutcomes {
  import opened Basics
  import opened Compaction

  /** Later in time, or at the same time with the higher id. */
  predicate Younger(y: Item, x: Item) {
    y.stamp > x.stamp || (y.stamp == x.stamp && y.id > x.id)
  }

  function YoungerOver(items: seq<Item>, x: Item): set<Item> {
    set y | y in items && !y.running && Younger(y, x)
  }

  lemma {:induction false} SetOfDistinct(s: seq<Item>)
    requires DistinctItems(s)
    ensures |set y | y in s| == |s|
  {
    if s != [] {
      var n := |s| - 1;
      SetOfDistinct(s[..n]);
      assert (set y | y in s) == (set y | y in s[..n]) + {s[n]} by {
        assert s == s[..n] + [s[n]];
      }
      assert s[n] !in s[..n];
    }
  }

  lemma NewerIsYounger(items: seq<Item>, x: Item)
    requires DistinctItems(items) && x in items
    ensures NewerCount(items, x) == |YoungerOver(items, x)|
  {
    var closed := Pick(items, NoLongerRunning);
    var newer := Pick(closed, NewerThan(x));
    PickMembers(items, NoLongerRunning);
    PickMembers(closed, NewerThan(x));
    PickSubset(items, NoLongerRunning);
    PickSubset(closed, NewerThan(x));
    DistinctPart(items, closed);
    DistinctPart(closed, newer);
    SetOfDistinct(newer);
    forall y ensures y in newer <==> y in YoungerOver(items, x) {
      if y in items {
        SameIdSame(items, x, y);
      }
    }
    assert (set y | y in newer) == YoungerOver(items, x);
  }

  lemma ShareIsDistinct(h: History, shelf: Shelf, task: string)
    requires DistinctItems(ListOf(h, shelf))
    ensures DistinctItems(Share(h, shelf, task))
    ensures forall x :: x in Share(h, shelf, task) <==> x in ListOf(h, shelf) && x.task == task
  {
    PickMembers(ListOf(h, shelf), OfTask(task));
    PickSubset(ListOf(h, shelf), OfTask(task));
    DistinctPart(ListOf(h, shelf), Share(h, shelf, task));
  }

  /** Of the events, attempts and runs of a task those survive a pass that still run, and of the
      others the youngest: 64 events, 12 attempts, 12 runs. What belongs to no task survives. */
  lemma SurvivesExactly(h: History, shelf: Shelf, x: Item)
    requires Distinct(h.tasks) && shelf != Artifacts && DistinctItems(ListOf(h, shelf)) && x in ListOf(h, shelf)
    ensures x in ListOf(Compacted(h), shelf) <==>
      x.task !in h.tasks || x.running
      || |YoungerOver(Share(h, shelf, x.task), x)| < if shelf == Events then 64 else 12
  {
    var items := ListOf(h, shelf);
    ShareIsDistinct(h, shelf, x.task);
    ShelfCompacted(h, shelf);
    if x.task !in h.tasks {
      CompactedMembers(items, h.tasks, RuleOf(h, shelf), x);
    } else if x.running {
      UndroppableSurvives(items, h.tasks, RuleOf(h, shelf), x);
    } else {
      SurvivesWhile(h, shelf, x);
      NewerIsYounger(Share(h, shelf, x.task), x);
    }
  }

  // ---------------------------------------------------------------- artifacts

  /** Something still needs the artifact: an attempt or run that survives names it, or it is the
      youngest of its task and kind. */
  ghost predicate StillNeeded(h: History, id: nat) {
    || (exists x :: x in Compacted(h).attempts && id in x.names)
    || (exists x :: x in Compacted(h).runs && id in x.names)
    || (exists a :: a in h.artifacts && a.id == id && a.task != ""
          && forall y | y in h.artifacts && y.task == a.task && y.kind == a.kind :: !Younger(y, a))
  }

  lemma LatestIsYoungest(artifacts: seq<Item>, a: Item)
    requires a in artifacts
    ensures IsLatest(artifacts, a) <==>
            a.task != "" && forall y | y in artifacts && y.task == a.task && y.kind == a.kind :: !Younger(y, a)
  {
  }

  lemma ProtectedIsNeeded(h: History, id: nat)
    ensures id in ArtifactRule(h).protected <==> StillNeeded(h, id)
  {
    forall a | a in h.artifacts {
      LatestIsYoungest(h.artifacts, a);
    }
  }

  lemma {:induction false} KeptWhen(s: seq<Item>, protected: set<nat>, n: nat, k: nat)
    requires DistinctItems(s) && k < |s| && s[k].id !in protected
    ensures s[k] in Kept(s, protected, n) <==> |Pick(s[..k], Unprotected(protected))| >= n
  {
    if n > 0 {
      var m := if s[0].id in protected then n else n - 1;
      if k == 0 {
        FirstIsGone(s, protected, m);
      } else {
        KeptWhen(s[1..], protected, m, k - 1);
        assert s[..k][1..] == s[1..][..k-1] && s[..k][0] == s[0];
        assert s[k] == s[1..][k-1] && s[k] != s[0];
      }
    }
  }

  lemma FirstIsGone(s: seq<Item>, protected: set<nat>, n: nat)
    requires DistinctItems(s) && s != []
    ensures s[0] !in Kept(s[1..], protected, n)
  {
    KeptPartitions(s[1..], protected, n);
    forall y | y in Kept(s[1..], protected, n) ensures y in s[1..] {
      assert y in multiset(s[1..]);
    }
  }

  function OlderThan(items: seq<Item>, needed: set<nat>, x: Item): set<Item> {
    set y | y in items && y.id !in needed && Younger(x, y)
  }

  lemma OlderComeFirst(s: seq<Item>, needed: set<nat>, k: nat)
    requires InOrder(s) && DistinctItems(s) && k < |s|
    ensures |Pick(s[..k], Unprotected(needed))| == |OlderThan(s, needed, s[k])|
  {
    var older := Pick(s[..k], Unprotected(needed));
    PickMembers(s[..k], Unprotected(needed));
    PickSubset(s[..k], Unprotected(needed));
    DistinctPart(s[..k], older);
    SetOfDistinct(older);
    forall y ensures y in s[..k] <==> y in s && Younger(s[k], y) {
      if y in s {
        var j :| 0 <= j < |s| && s[j] == y;
        assert j < k ==> s[..k][j] == y;
        assert j < k <==> Younger(s[k], y);
      }
    }
    assert (set y | y in older) == OlderThan(s, needed, s[k]);
  }

  lemma AtMostAll(s: seq<Item>, protected: set<nat>, k: nat)
    requires k < |s| && s[k].id !in protected
    ensures |Pick(s[..k], Unprotected(protected))| < |Pick(s, Unprotected(protected))|
  {
    assert s == s[..k] + s[k..];
    PickAppend(s[..k], s[k..], Unprotected(protected));
  }

  lemma UnneededRetained(share: seq<Item>, needed: set<nat>, limit: nat, x: Item)
    requires DistinctItems(share) && x in share && x.id !in needed
    ensures x in Retained(share, Needed(needed, limit)) <==> |OlderThan(share, needed, x)| + limit >= |share|
  {
    var s := Ordered(share);
    OrderedInOrder(share);
    OrderedMembers(share);
    DistinctPart(share, s);
    var k :| 0 <= k < |s| && s[k] == x;
    KeptWhen(s, needed, ToDrop(share, needed, limit), k);
    OlderComeFirst(s, needed, k);
    AtMostAll(s, needed, k);
    assert OlderThan(s, needed, x) == OlderThan(share, needed, x);
  }

  /** The artifacts of the task that nothing needs, older than x. */
  ghost predicate OlderUnneeded(h: History, x: Item, older: set<Item>) {
    forall y :: y in older <==> y in h.artifacts && y.task == x.task && !StillNeeded(h, y.id) && Younger(x, y)
  }

  lemma OlderIsUnneeded(h: History, x: Item)
    requires DistinctItems(h.artifacts)
    ensures OlderUnneeded(h, x, OlderThan(Share(h, Artifacts, x.task), ArtifactRule(h).protected, x))
  {
    ShareIsDistinct(h, Artifacts, x.task);
    forall y: Item {
      ProtectedIsNeeded(h, y.id);
    }
  }

  /** An artifact of a task survives when something needs it, or when enough of its task's
      others, unneeded and older, can go to bring the task down to 24. */
  lemma ArtifactSurvivesExactly(h: History, x: Item, older: set<Item>)
    requires Distinct(h.tasks) && DistinctItems(h.artifacts) && x in h.artifacts && OlderUnneeded(h, x, older)
    ensures x in Compacted(h).artifacts <==>
      x.task !in h.tasks || StillNeeded(h, x.id) || |older| + 24 >= |Share(h, Artifacts, x.task)|
  {
    ArtifactRetained(h, x);
    ProtectedIsNeeded(h, x.id);
    OlderIsUnneeded(h, x);
    SameOlder(h, x, older, OlderThan(Share(h, Artifacts, x.task), ArtifactRule(h).protected, x));
  }

  lemma SameOlder(h: History, x: Item, older: set<Item>, others: set<Item>)
    requires OlderUnneeded(h, x, older) && OlderUnneeded(h, x, others)
    ensures older == others
  {
  }

  lemma ArtifactRetained(h: History, x: Item)
    requires Distinct(h.tasks) && DistinctItems(h.artifacts) && x in h.artifacts
    ensures var share, needed := Share(h, Artifacts, x.task), ArtifactRule(h).protected;
      x in Compacted(h).artifacts <==>
      x.task !in h.tasks || x.id in needed || |OlderThan(share, needed, x)| + 24 >= |share|
  {
    var share, rule := Share(h, Artifacts, x.task), ArtifactRule(h);
    ShareIsDistinct(h, Artifacts, x.task);
    CompactedMembers(h.artifacts, h.tasks, rule, x);
    if x.id in rule.protected {
      RetainedPartitions(share, rule);
      RetainedMembers(share, rule);
    } else {
      UnneededRetained(share, rule.protected, 24, x);
    }
  }

  // ---------------------------------------------------------------- memories

  /** The shelf gave the item away in the pass. */
  ghost predicate GivenAway(h: History, task: string, x: Item, shelf: Shelf) {
    x in Share(h, shelf, task) && x !in Share(Compacted(h), shelf, task)
  }

  lemma {:induction false} FoldedWindow(m: Memory, s: seq<Item>, shelf: Shelf)
    ensures var f := FoldedAll(m, s, shelf);
      && (f.start == m.start || exists x :: x in s && f.start == Some(x.stamp))
      && (f.end == m.end || exists x :: x in s && f.end == Some(x.stamp))
  {
    if s != [] {
      var n := |s| - 1;
      FoldedWindow(m, s[..n], shelf);
      assert s == s[..n] + [s[n]];
    }
  }

  /** One end of the window: where it was, or at an item that was folded away. */
  ghost predicate AtFolded(h: History, task: string, was: Option<int>, now: Option<int>) {
    now == was || exists shelf, x :: x in Pruned(Share(h, shelf, task), RuleOf(h, shelf)) && now == Some(x.stamp)
  }

  lemma {:induction false} WindowUpTo(h: History, task: string, k: nat)
    requires Distinct(h.tasks) && task in h.tasks && k <= 4
    ensures var b, m := MemoryOf(h.memories, task), MemoryOf(MemoriesUpTo(h, k), task);
      && AtFolded(h, task, b.start, m.start) && AtFolded(h, task, b.end, m.end)
      && forall stamp | Covers(b, stamp) :: Covers(m, stamp)
  {
    if k > 0 {
      WindowUpTo(h, task, k - 1);
      var shelf := ShelfAt(k - 1);
      var before := MemoriesUpTo(h, k - 1);
      MemoryOfTask(before, ListOf(h, shelf), h.tasks, RuleOf(h, shelf), shelf, task);
      FoldedWindow(MemoryOf(before, task), Pruned(Share(h, shelf, task), RuleOf(h, shelf)), shelf);
      MemoryStage(before, ListOf(h, shelf), h.tasks, RuleOf(h, shelf), shelf, task);
    }
  }

  lemma PrunedIsGivenAway(h: History, task: string, shelf: Shelf, x: Item)
    requires Distinct(h.tasks) && task in h.tasks && DistinctItems(ListOf(h, shelf))
    requires x in Pruned(Share(h, shelf, task), RuleOf(h, shelf))
    ensures GivenAway(h, task, x, shelf)
  {
    var share, rule := Share(h, shelf, task), RuleOf(h, shelf);
    ShareIsDistinct(h, shelf, task);
    ShareAfter(h, task, shelf);
    RetainedMembers(share, rule);
    RetainedPartitions(share, rule);
    DistinctMultiset(share);
    assert multiset(share)[x] == multiset(Retained(share, rule))[x] + multiset(Pruned(share, rule))[x];
  }

  ghost predicate AtGivenAway(h: History, task: string, was: Option<int>, now: Option<int>) {
    now == was || exists shelf, x :: GivenAway(h, task, x, shelf) && now == Some(x.stamp)
  }

  lemma FoldedIsGivenAway(h: History, task: string, was: Option<int>, now: Option<int>)
    requires Distinct(h.tasks) && task in h.tasks && forall shelf :: DistinctItems(ListOf(h, shelf))
    requires AtFolded(h, task, was, now)
    ensures AtGivenAway(h, task, was, now)
  {
    if now != was {
      var shelf, x :| x in Pruned(Share(h, shelf, task), RuleOf(h, shelf)) && now == Some(x.stamp);
      PrunedIsGivenAway(h, task, shelf, x);
    }
  }

  predicate Empty(m: Memory) {
    m.events == 0 && m.attempts == 0 && m.runs == 0 && m.artifacts == 0
  }

  /** Memories are kept for existing tasks, and only where something was ever folded away. The
      window of a kept one covers what it covered, and grows no further than to the items given
      away. */
  lemma MemoryMeans(h: History, task: string)
    requires Distinct(h.tasks) && forall shelf :: DistinctItems(ListOf(h, shelf))
    ensures var after := Compacted(h).memories;
      && (task in after ==> task in h.tasks && !Empty(after[task]))
      && (task in after ==>
           var b, m := MemoryOf(h.memories, task), after[task];
           && AtGivenAway(h, task, b.start, m.start) && AtGivenAway(h, task, b.end, m.end)
           && forall stamp | Covers(b, stamp) :: Covers(m, stamp))
  {
    var all := AllMemories(h);
    assert Compacted(h).memories == map t | t in all && t in h.tasks && Worth(all[t]) :: all[t];
    if task in Compacted(h).memories {
      var b, m := MemoryOf(h.memories, task), all[task];
      WindowUpTo(h, task, 4);
      FoldedIsGivenAway(h, task, b.start, m.start);
      FoldedIsGivenAway(h, task, b.end, m.end);
    }
  }
}
