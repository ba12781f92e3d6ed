/** The retention pass as it rewrites the document's lists and memories. */
module Archive {
  import opened Basics
  import opened Compaction

  /** A table of the latest artifact by task and kind holds exactly the latest ones. */
  lemma LatestIds(artifacts: seq<Item>, latest: map<(string, string), Item>)
    requires forall k | k in latest :: IsLatest(artifacts, latest[k]) && (latest[k].task, latest[k].kind) == k
    requires forall x | x in artifacts && x.task != "" ::
      (x.task, x.kind) in latest && NotAfter(x, latest[(x.task, x.kind)])
    ensures (set k | k in latest :: latest[k].id) == (set x | x in artifacts && IsLatest(artifacts, x) :: x.id)
  {
    forall x | x in artifacts && IsLatest(artifacts, x)
      ensures (x.task, x.kind) in latest && latest[(x.task, x.kind)].id == x.id
    {
      var y := latest[(x.task, x.kind)];
      assert NotAfter(x, y) && NotAfter(y, x);
    }
  }

  class Keeper {
    const tasks: seq<string>
    var events: seq<Item>
    var attempts: seq<Item>
    var runs: seq<Item>
    var artifacts: seq<Item>
    var memories: map<string, Memory>

    ghost function View(): History
      reads this
    {
      History(tasks, events, attempts, runs, artifacts, memories)
    }

    constructor (h: History)
      ensures View() == h
    {
      tasks, events, attempts, runs, artifacts, memories := h.tasks, h.events, h.attempts, h.runs, h.artifacts,
          h.memories;
    }

    /** Items by task; items of no known task pass through. */
    method Group(items: seq<Item>) returns (passthrough: seq<Item>, grouped: map<string, seq<Item>>)
      ensures passthrough == Pick(items, Outside(tasks))
      ensures forall t | t in tasks :: (if t in grouped then grouped[t] else []) == Pick(items, OfTask(t))
    {
      passthrough, grouped := [], map[];
      for i := 0 to |items|
        invariant passthrough == Pick(items[..i], Outside(tasks))
        invariant forall t | t in tasks :: (if t in grouped then grouped[t] else []) == Pick(items[..i], OfTask(t))
      {
        var x := items[i];
        PickOneMore(items, i, Outside(tasks));
        forall t | t in tasks ensures Pick(items[..i+1], OfTask(t)) == Pick(items[..i], OfTask(t)) + if x.task == t
            then [x] else [] {
          PickOneMore(items, i, OfTask(t));
        }
        if x.task !in tasks {
          passthrough := passthrough + [x];
        } else {
          grouped := grouped[x.task := (if x.task in grouped then grouped[x.task] else []) + [x]];
        }
      }
      assert items[..|items|] == items;
    }

    method SplitRunning(items: seq<Item>) returns (running: seq<Item>, closed: seq<Item>)
      ensures running == Pick(items, StillRunning) && closed == Pick(items, NoLongerRunning)
    {
      running, closed := [], [];
      for i := 0 to |items|
        invariant running == Pick(items[..i], StillRunning) && closed == Pick(items[..i], NoLongerRunning)
      {
        PickOneMore(items, i, StillRunning);
        PickOneMore(items, i, NoLongerRunning);
        if items[i].running {
          running := running + [items[i]];
        } else {
          closed := closed + [items[i]];
        }
      }
      assert items[..|items|] == items;
    }

    /** Folds pruned items into the memory of their task. */
    method Fold(task: string, pruned: seq<Item>, shelf: Shelf)
      modifies this`memories
      ensures memories == WithFolded(old(memories), task, pruned, shelf)
    {
      if pruned == [] {
        return;
      }
      var m := if task in memories then memories[task] else EMPTY;
      for i := 0 to |pruned|
        invariant m == FoldedAll(MemoryOf(old(memories), task), pruned[..i], shelf)
      {
        assert pruned[..i+1][..i] == pruned[..i];
        m := Counted(m, shelf);
        if m.start.None? || pruned[i].stamp < m.start.value {
          m := m.(start := Some(pruned[i].stamp));
        }
        if m.end.None? || pruned[i].stamp > m.end.value {
          m := m.(end := Some(pruned[i].stamp));
        }
      }
      assert pruned[..|pruned|] == pruned;
      memories := memories[task := m];
    }

    /** One task's share: running items stay, and the newest of the others. */
    method CompactShare(task: string, mine: seq<Item>, limit: nat, shelf: Shelf) returns (kept: seq<Item>)
      modifies this`memories
      ensures kept == Retained(mine, Newest(limit))
      ensures memories == WithFolded(old(memories), task, Pruned(mine, Newest(limit)), shelf)
    {
      var running, closed := SplitRunning(mine);
      closed := Ordered(closed);
      var pruned := [];
      if |closed| > limit {
        pruned := closed[..|closed| - limit];
        closed := closed[|closed| - limit..];
      }
      Fold(task, pruned, shelf);
      kept := running + closed;
    }

    /** Events, attempts and runs. */
    method CompactNewest(items: seq<Item>, limit: nat, shelf: Shelf) returns (compacted: seq<Item>)
      modifies this`memories
      ensures compacted == CompactedList(items, tasks, Newest(limit))
      ensures memories == MemoriesAfter(old(memories), items, tasks, Newest(limit), shelf)
    {
      var passthrough, grouped := Group(items);
      compacted := passthrough;
      for i := 0 to |tasks|
        invariant compacted == Pick(items, Outside(tasks)) + RetainedOf(items, tasks[..i], Newest(limit))
        invariant memories == MemoriesAfter(old(memories), items, tasks[..i], Newest(limit), shelf)
      {
        OneMoreTask(old(memories), items, tasks, i, Newest(limit), shelf);
        var kept := CompactShare(tasks[i], if tasks[i] in grouped then grouped[tasks[i]] else [], limit, shelf);
        compacted := compacted + kept;
        Regrouped(passthrough, RetainedOf(items, tasks[..i], Newest(limit)), kept);
      }
      assert tasks[..|tasks|] == tasks;
    }

    method NamedBy(items: seq<Item>) returns (names: set<nat>)
      ensures names == Named(items)
    {
      names := {};
      for i := 0 to |items|
        invariant names == Named(items[..i])
      {
        assert items[..i+1] == items[..i] + [items[i]];
        names := names + items[i].names;
      }
      assert items[..|items|] == items;
    }

    /** The artifacts that have to stay. */
    method ProtectedIds() returns (protected: set<nat>)
      ensures protected == Protected(artifacts, attempts, runs)
    {
      var byAttempts := NamedBy(attempts);
      var byRuns := NamedBy(runs);
      var latest := LatestByTaskKind();
      var newest := set k | k in latest :: latest[k].id;
      protected := byAttempts + byRuns + newest;
      LatestIds(artifacts, latest);
    }

    method LatestByTaskKind() returns (latest: map<(string, string), Item>)
      ensures forall k | k in latest :: IsLatest(artifacts, latest[k]) && (latest[k].task, latest[k].kind) == k
      ensures forall x | x in artifacts && x.task != "" ::
          (x.task, x.kind) in latest && NotAfter(x, latest[(x.task, x.kind)])
    {
      latest := map[];
      for i := 0 to |artifacts|
        invariant forall k | k in latest ::
            latest[k] in artifacts && latest[k].task != "" && (latest[k].task, latest[k].kind) == k
        invariant forall j | 0 <= j < i && artifacts[j].task != "" ::
          (artifacts[j].task, artifacts[j].kind) in latest
            && NotAfter(artifacts[j], latest[(artifacts[j].task, artifacts[j].kind)])
      {
        var x := artifacts[i];
        if x.task != "" {
          var k := (x.task, x.kind);
          if k !in latest || !NotAfter(x, latest[k]) {
            latest := latest[k := x];
          }
        }
      }
    }

    /** Drops up to n unprotected items, oldest first. */
    method DropOldest(sorted: seq<Item>, protected: set<nat>, n: nat) returns (kept: seq<Item>, dropped: seq<Item>)
      ensures kept == Kept(sorted, protected, n) && dropped == Dropped(sorted, protected, n)
    {
      kept, dropped := [], [];
      for i := 0 to |sorted|
        invariant |dropped| <= n
        invariant Kept(sorted, protected, n) == kept + Kept(sorted[i..], protected, n - |dropped|)
        invariant Dropped(sorted, protected, n) == dropped + Dropped(sorted[i..], protected, n - |dropped|)
      {
        assert sorted[i..][1..] == sorted[i+1..];
        if sorted[i].id in protected || |dropped| == n {
          StayWhenNone(sorted[i..], protected);
          StayWhenNone(sorted[i+1..], protected);
          kept := kept + [sorted[i]];
        } else {
          dropped := dropped + [sorted[i]];
        }
      }
    }

    method HowMany(mine: seq<Item>, sorted: seq<Item>, protected: set<nat>) returns (n: nat)
      requires sorted == Ordered(mine)
      ensures n == ToDrop(mine, protected, ARTIFACT_LIMIT)
    {
      OrderedInOrder(mine);
      var prunable := |Pick(sorted, Unprotected(protected))|;
      n := 0;
      if |sorted| > ARTIFACT_LIMIT {
        n := |sorted| - ARTIFACT_LIMIT;
      }
      if n > prunable {
        n := prunable;
      }
    }

    method CompactArtifactShare(task: string, mine: seq<Item>, protected: set<nat>) returns (kept: seq<Item>)
      modifies this`memories
      ensures kept == Retained(mine, Needed(protected, ARTIFACT_LIMIT))
      ensures memories == WithFolded(old(memories), task, Pruned(mine, Needed(protected, ARTIFACT_LIMIT)), Artifacts)
    {
      var sorted := Ordered(mine);
      var toPrune := HowMany(mine, sorted, protected);
      var dropped;
      kept, dropped := DropOldest(sorted, protected, toPrune);
      Fold(task, dropped, Artifacts);
    }

    method CompactArtifacts(protected: set<nat>) returns (compacted: seq<Item>)
      modifies this`memories
      ensures compacted == CompactedList(artifacts, tasks, Needed(protected, ARTIFACT_LIMIT))
      ensures memories == MemoriesAfter(old(memories), artifacts, tasks, Needed(protected, ARTIFACT_LIMIT), Artifacts)
    {
      var passthrough, grouped := Group(artifacts);
      compacted := passthrough;
      for i := 0 to |tasks|
        invariant compacted == Pick(artifacts, Outside(tasks))
            + RetainedOf(artifacts, tasks[..i], Needed(protected, ARTIFACT_LIMIT))
        invariant memories == MemoriesAfter(old(memories), artifacts, tasks[..i], Needed(protected, ARTIFACT_LIMIT),
            Artifacts)
      {
        OneMoreTask(old(memories), artifacts, tasks, i, Needed(protected, ARTIFACT_LIMIT), Artifacts);
        var kept := CompactArtifactShare(tasks[i], if tasks[i] in grouped then grouped[tasks[i]] else [], protected);
        compacted := compacted + kept;
        Regrouped(passthrough, RetainedOf(artifacts, tasks[..i], Needed(protected, ARTIFACT_LIMIT)), kept);
      }
      assert tasks[..|tasks|] == tasks;
    }

    /** One of the first three stages of the pass. */
    method CompactStage(ghost h: History, ghost k: nat, items: seq<Item>, limit: nat,
                        shelf: Shelf) returns (compacted: seq<Item>)
      requires k < 3 && tasks == h.tasks && memories == MemoriesUpTo(h, k)
      requires shelf == ShelfAt(k) && items == ListOf(h, shelf) && RuleOf(h, shelf) == Newest(limit)
      modifies this`memories
      ensures compacted == CompactedList(items, tasks, Newest(limit)) && memories == MemoriesUpTo(h, k + 1)
    {
      Stage(h, k);
      compacted := CompactNewest(items, limit, shelf);
    }

    /** Events, attempts and runs go first, so that what only pruned ones referred to can go
        as well. */
    method CompactLogs()
      modifies this
      ensures artifacts == old(artifacts) && memories == MemoriesUpTo(old(View()), 3)
      ensures events == Compacted(old(View())).events && attempts == Compacted(old(View())).attempts
          && runs == Compacted(old(View())).runs
    {
      ghost var h := View();
      events := CompactStage(h, 0, events, 64, Events);
      attempts := CompactStage(h, 1, attempts, 12, Attempts);
      runs := CompactStage(h, 2, runs, 12, Runs);
    }

    /** Artifacts, judged by what the retained attempts and runs still name. */
    method CompactEvidence(ghost h: History)
      requires tasks == h.tasks && artifacts == h.artifacts && memories == MemoriesUpTo(h, 3)
      requires attempts == CompactedList(h.attempts, h.tasks, ATTEMPTS) && runs == CompactedList(h.runs, h.tasks, RUNS)
      modifies this`artifacts, this`memories
      ensures artifacts == CompactedList(h.artifacts, h.tasks, ArtifactRule(h)) && memories == AllMemories(h)
    {
      ArtifactStage(h);
      var protected := ProtectedIds();
      artifacts := CompactArtifacts(protected);
    }

    method DropEmptyMemories()
      modifies this`memories
      ensures memories == map task | task in old(memories) && task in tasks && Worth(old(memories)[task]) ::
          old(memories)[task]
    {
      memories := map task | task in memories && task in tasks && Worth(memories[task]) :: memories[task];
    }

    method Compact()
      modifies this
      ensures View() == Compacted(old(View()))
    {
      ghost var h := View();
      CompactLogs();
      CompactEvidence(h);
      DropEmptyMemories();
    }
  }

  lemma Regrouped(a: seq<Item>, b: seq<Item>, c: seq<Item>)
    ensures a + b + c == a + (b + c)
  {
  }

  lemma Stage(h: History, k: nat)
    requires k < 4
    ensures MemoriesUpTo(h, k + 1) ==
            MemoriesAfter(MemoriesUpTo(h, k), ListOf(h, ShelfAt(k)), h.tasks, RuleOf(h, ShelfAt(k)), ShelfAt(k))
  {
  }

  lemma ArtifactStage(h: History)
    ensures AllMemories(h) == MemoriesAfter(MemoriesUpTo(h, 3), h.artifacts, h.tasks, ArtifactRule(h), Artifacts)
  {
    Stage(h, 3);
    assert ShelfAt(3) == Artifacts;
  }

  lemma PickOneMore(items: seq<Item>, i: nat, sel: Selector)
    requires i < |items|
    ensures Pick(items[..i+1], sel) == Pick(items[..i], sel) + if Selected(items[i], sel) then [items[i]] else []
  {
    assert items[..i+1] == items[..i] + [items[i]];
    PickAppend(items[..i], [items[i]], sel);
    assert Pick([items[i]], sel) == if Selected(items[i], sel) then [items[i]] else [];
  }

  /** One task more in the list and in the memories. */
  lemma OneMoreTask(memories: map<string, Memory>, items: seq<Item>, tasks: seq<string>, i: nat, rule: Rule,
                    shelf: Shelf)
    requires i < |tasks|
    ensures RetainedOf(items, tasks[..i+1], rule) == RetainedOf(items, tasks[..i], rule)
        + Retained(Pick(items, OfTask(tasks[i])), rule)
    ensures MemoriesAfter(memories, items, tasks[..i+1], rule, shelf) ==
            WithFolded(MemoriesAfter(memories, items, tasks[..i], rule, shelf), tasks[i],
                Pruned(Pick(items, OfTask(tasks[i])), rule), shelf)
  {
    assert tasks[..i+1] == tasks[..i] + [tasks[i]] && tasks[..i+1][..i] == tasks[..i];
    RetainedOfOneMore(items, tasks[..i], tasks[i], rule);
  }

  lemma {:induction false} RetainedOfOneMore(items: seq<Item>, tasks: seq<string>, task: string, rule: Rule)
    ensures RetainedOf(items, tasks + [task], rule) == RetainedOf(items, tasks, rule)
        + Retained(Pick(items, OfTask(task)), rule)
  {
    if tasks != [] {
      assert (tasks + [task])[1..] == tasks[1..] + [task];
      RetainedOfOneMore(items, tasks[1..], task, rule);
    }
  }

  lemma StayWhenNone(s: seq<Item>, protected: set<nat>)
    ensures Kept(s, protected, 0) == s && Dropped(s, protected, 0) == []
  {
  }
}
