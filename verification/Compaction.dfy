/** Retention: old history of a task is folded into counters, the newest items stay, and
    artifacts that something still needs are never dropped. */
module Compaction {
  import opened Basics

  /** An event, a phase attempt, a tool run or an artifact. names are the artifacts an attempt
      or run refers to; stamp is the time the source sorts by; task "" belongs to no task. */
  datatype Item = Item(id: nat, task: string, stamp: int, running: bool, kind: string, passes: bool, names: set<nat>)

  datatype Selector =
    | OfTask(task: string) | Outside(tasks: seq<string>) | StillRunning | NoLongerRunning
    | Unprotected(protected: set<nat>) | NewerThan(item: Item)

  predicate Selected(x: Item, sel: Selector) {
    match sel
    case OfTask(task) => x.task == task
    case Outside(tasks) => x.task !in tasks
    case StillRunning => x.running
    case NoLongerRunning => !x.running
    case Unprotected(protected) => x.id !in protected
    case NewerThan(item) => x != item && NotAfter(item, x)
  }

  function Pick(s: seq<Item>, sel: Selector): seq<Item> {
    if s == [] then [] else (if Selected(s[0], sel) then [s[0]] else []) + Pick(s[1..], sel)
  }

  lemma {:induction false} PickMembers(s: seq<Item>, sel: Selector)
    ensures forall x :: x in Pick(s, sel) <==> x in s && Selected(x, sel)
  {
    if s != [] {
      PickMembers(s[1..], sel);
      assert s == [s[0]] + s[1..];
    }
  }

  lemma {:induction false} PickAppend(s: seq<Item>, t: seq<Item>, sel: Selector)
    ensures Pick(s + t, sel) == Pick(s, sel) + Pick(t, sel)
  {
    if s == [] {
      assert s + t == t;
    } else {
      assert (s + t)[1..] == s[1..] + t;
      PickAppend(s[1..], t, sel);
    }
  }

  lemma {:induction false} PickAll(s: seq<Item>, sel: Selector)
    requires forall x | x in s :: Selected(x, sel)
    ensures Pick(s, sel) == s
  {
    if s != [] {
      PickAll(s[1..], sel);
    }
  }

  lemma {:induction false} PickNone(s: seq<Item>, sel: Selector)
    requires forall x | x in s :: !Selected(x, sel)
    ensures Pick(s, sel) == []
  {
    if s != [] {
      PickNone(s[1..], sel);
    }
  }

  lemma {:induction false} PickSubset(s: seq<Item>, sel: Selector)
    ensures multiset(Pick(s, sel)) <= multiset(s)
  {
    if s != [] {
      PickSubset(s[1..], sel);
      assert s == [s[0]] + s[1..];
    }
  }

  // ---------------------------------------------------------------- order

  predicate NotAfter(a: Item, b: Item) {
    a.stamp < b.stamp || (a.stamp == b.stamp && a.id <= b.id)
  }

  ghost predicate InOrder(s: seq<Item>) {
    forall i, j | 0 <= i < j < |s| :: NotAfter(s[i], s[j])
  }

  function Insert(x: Item, s: seq<Item>): (r: seq<Item>)
    ensures multiset(r) == multiset(s) + multiset{x}
  {
    if s == [] then [x]
    else if NotAfter(x, s[0]) then [x] + s
    else
      assert s == [s[0]] + s[1..];
      [s[0]] + Insert(x, s[1..])
  }

  /** The items by time, then id. */
  function Ordered(s: seq<Item>): (r: seq<Item>)
    ensures multiset(r) == multiset(s)
  {
    if s == [] then []
    else
      assert s == [s[0]] + s[1..];
      Insert(s[0], Ordered(s[1..]))
  }

  lemma {:induction false} InsertInOrder(x: Item, s: seq<Item>)
    requires InOrder(s)
    ensures InOrder(Insert(x, s))
  {
    if s != [] && !NotAfter(x, s[0]) {
      InsertInOrder(x, s[1..]);
      var rest := Insert(x, s[1..]);
      forall j | 0 <= j < |rest| ensures NotAfter(s[0], rest[j]) {
        assert rest[j] in multiset(rest);
        assert rest[j] == x || rest[j] in multiset(s[1..]);
      }
    }
  }

  lemma {:induction false} OrderedInOrder(s: seq<Item>)
    ensures InOrder(Ordered(s)) && |Ordered(s)| == |s|
  {
    assert |multiset(Ordered(s))| == |multiset(s)|;
    if s != [] {
      OrderedInOrder(s[1..]);
      InsertInOrder(s[0], Ordered(s[1..]));
    }
  }

  lemma OrderedMembers(s: seq<Item>)
    ensures forall x :: x in Ordered(s) <==> x in s
  {
    assert forall x :: x in Ordered(s) <==> x in multiset(Ordered(s));
    assert forall x :: x in s <==> x in multiset(s);
  }

  // ---------------------------------------------------------------- one task

  function Excess(n: nat, limit: nat): nat {
    if n > limit then n - limit else 0
  }

  /** Items that are over the limit, oldest first; running items neither count nor go. */
  function NewestPruned(items: seq<Item>, limit: nat): seq<Item> {
    var closed := Ordered(Pick(items, NoLongerRunning));
    closed[..Excess(|closed|, limit)]
  }

  function NewestKept(items: seq<Item>, limit: nat): seq<Item> {
    var closed := Ordered(Pick(items, NoLongerRunning));
    Pick(items, StillRunning) + closed[Excess(|closed|, limit)..]
  }

  lemma {:induction false} RunningSplit(s: seq<Item>)
    ensures multiset(Pick(s, StillRunning)) + multiset(Pick(s, NoLongerRunning)) == multiset(s)
  {
    if s != [] {
      RunningSplit(s[1..]);
      assert s == [s[0]] + s[1..];
      if s[0].running {
        assert Pick(s, StillRunning) == [s[0]] + Pick(s[1..], StillRunning);
        assert Pick(s, NoLongerRunning) == Pick(s[1..], NoLongerRunning);
      } else {
        assert Pick(s, StillRunning) == Pick(s[1..], StillRunning);
        assert Pick(s, NoLongerRunning) == [s[0]] + Pick(s[1..], NoLongerRunning);
      }
    }
  }

  /** Nothing appears and nothing is lost between what a task keeps and what is folded away. */
  lemma NewestPartitions(items: seq<Item>, limit: nat)
    ensures multiset(NewestKept(items, limit)) + multiset(NewestPruned(items, limit)) == multiset(items)
    ensures |NewestKept(items, limit)| + |NewestPruned(items, limit)| == |items|
  {
    var closed := Ordered(Pick(items, NoLongerRunning));
    var n := Excess(|closed|, limit);
    RunningSplit(items);
    assert |multiset(NewestKept(items, limit)) + multiset(NewestPruned(items, limit))| == |NewestKept(items,
        limit)| + |NewestPruned(items, limit)|;
    Regroup(Pick(items, StillRunning), closed, n);
  }

  lemma Regroup(a: seq<Item>, b: seq<Item>, n: nat)
    requires n <= |b|
    ensures multiset(a + b[n..]) + multiset(b[..n]) == multiset(a) + multiset(b)
  {
    assert b == b[..n] + b[n..];
    assert multiset(a + b[n..]) == multiset(a) + multiset(b[n..]);
  }

  lemma NewestMembers(items: seq<Item>, limit: nat)
    ensures forall x | x in NewestKept(items, limit) :: x in items
    ensures forall x | x in NewestPruned(items, limit) :: x in items && !x.running
  {
    var closed := Ordered(Pick(items, NoLongerRunning));
    PickMembers(items, StillRunning);
    PickMembers(items, NoLongerRunning);
    OrderedMembers(Pick(items, NoLongerRunning));
    forall x | x in NewestPruned(items, limit) ensures x in items && !x.running {
      assert x in closed;
    }
  }

  /** What is folded away is the oldest of what no longer runs, and only what is over the
      limit. */
  lemma OldestGoFirst(items: seq<Item>, limit: nat)
    ensures forall x, y | x in NewestPruned(items, limit) && y in NewestKept(items, limit) && !y.running ::
        NotAfter(x, y)
    ensures |NewestPruned(items, limit)| == Excess(|Pick(items, NoLongerRunning)|, limit)
  {
    PickMembers(items, StillRunning);
    PickMembers(items, NoLongerRunning);
    var closed := Ordered(Pick(items, NoLongerRunning));
    OrderedInOrder(Pick(items, NoLongerRunning));
    var n := Excess(|closed|, limit);
    forall x, y | x in closed[..n] && y in NewestKept(items, limit) && !y.running ensures NotAfter(x, y) {
      assert y in closed[n..];
      var i :| 0 <= i < n && closed[..n][i] == x;
      var j :| 0 <= j < |closed| - n && closed[n..][j] == y;
      assert closed[i] == x && closed[n + j] == y;
    }
  }

  lemma NewestClosed(items: seq<Item>, limit: nat)
    ensures |Pick(NewestKept(items, limit), NoLongerRunning)| <= limit
    ensures |Pick(NewestKept(items, limit), NoLongerRunning)| <= |Pick(items, NoLongerRunning)|
  {
    PickMembers(items, StillRunning);
    PickMembers(items, NoLongerRunning);
    var closed := Ordered(Pick(items, NoLongerRunning));
    var n := Excess(|closed|, limit);
    OrderedInOrder(Pick(items, NoLongerRunning));
    OrderedMembers(Pick(items, NoLongerRunning));
    PickAppend(Pick(items, StillRunning), closed[n..], NoLongerRunning);
    PickNone(Pick(items, StillRunning), NoLongerRunning);
    PickAll(closed[n..], NoLongerRunning);
  }

  lemma NewestPrunesNothing(items: seq<Item>, limit: nat)
    requires |Pick(items, NoLongerRunning)| <= limit
    ensures NewestPruned(items, limit) == []
  {
    OrderedInOrder(Pick(items, NoLongerRunning));
  }

  // ---------------------------------------------------------------- how long an item stays

  ghost predicate DistinctItems(s: seq<Item>) {
    forall i, j | 0 <= i < j < |s| :: s[i].id != s[j].id
  }

  /** How many of the items that no longer run come after x. */
  function NewerCount(items: seq<Item>, x: Item): nat {
    |Pick(Pick(items, NoLongerRunning), NewerThan(x))|
  }

  lemma {:induction false} InsertPicks(x: Item, s: seq<Item>, sel: Selector)
    ensures |Pick(Insert(x, s), sel)| == |Pick([x] + s, sel)|
  {
    assert ([x] + s)[1..] == s;
    if s != [] && !NotAfter(x, s[0]) {
      InsertPicks(x, s[1..], sel);
      assert ([x] + s[1..])[1..] == s[1..];
    }
  }

  lemma {:induction false} OrderedPicks(s: seq<Item>, sel: Selector)
    ensures |Pick(Ordered(s), sel)| == |Pick(s, sel)|
  {
    if s != [] {
      OrderedPicks(s[1..], sel);
      InsertPicks(s[0], Ordered(s[1..]), sel);
      assert ([s[0]] + Ordered(s[1..]))[1..] == Ordered(s[1..]);
    }
  }

  lemma {:induction false} DistinctMultiset(s: seq<Item>)
    requires DistinctItems(s)
    ensures forall x :: multiset(s)[x] <= 1
  {
    if s != [] {
      DistinctMultiset(s[1..]);
      assert s == [s[0]] + s[1..];
      assert s[0] !in multiset(s[1..]);
    }
  }

  /** A list with only items of a distinct one, each as often, is distinct. */
  lemma DistinctPart(s: seq<Item>, r: seq<Item>)
    requires DistinctItems(s) && multiset(r) <= multiset(s)
    ensures DistinctItems(r)
  {
    DistinctMultiset(s);
    forall i, j | 0 <= i < j < |r| ensures r[i].id != r[j].id {
      assert r == r[..j] + r[j..] && r[i] in r[..j] && r[j] in r[j..];
      assert multiset(r)[r[j]] == multiset(r[..j])[r[j]] + multiset(r[j..])[r[j]];
      assert r[i] in multiset(s) && r[j] in multiset(s);
      SameIdSame(s, r[i], r[j]);
    }
  }

  lemma SameIdSame(s: seq<Item>, x: Item, y: Item)
    requires DistinctItems(s) && x in s && y in s
    ensures x.id == y.id ==> x == y
  {
  }

  /** In order and without repetition, the items after x are those at later places. */
  lemma NewerAreLater(s: seq<Item>, k: nat)
    requires InOrder(s) && k < |s| && DistinctItems(s)
    ensures |Pick(s, NewerThan(s[k]))| == |s| - 1 - k
  {
    assert s == s[..k+1] + s[k+1..];
    PickAppend(s[..k+1], s[k+1..], NewerThan(s[k]));
    PickNone(s[..k+1], NewerThan(s[k]));
    PickAll(s[k+1..], NewerThan(s[k]));
  }

  lemma InSuffix(s: seq<Item>, k: nat, n: nat)
    requires DistinctItems(s) && k < |s| && n <= |s|
    ensures s[k] in s[n..] <==> n <= k
  {
    if n <= k {
      assert s[n..][k - n] == s[k];
    }
  }

  lemma OrderedClosed(items: seq<Item>)
    requires DistinctItems(items)
    ensures DistinctItems(Ordered(Pick(items, NoLongerRunning)))
    ensures forall x :: x in Ordered(Pick(items, NoLongerRunning)) <==> x in items && !x.running
  {
    PickMembers(items, NoLongerRunning);
    OrderedMembers(Pick(items, NoLongerRunning));
    PickSubset(items, NoLongerRunning);
    DistinctPart(items, Ordered(Pick(items, NoLongerRunning)));
  }

  /** An item that no longer runs is kept exactly when fewer than the limit come after it. */
  lemma NewestKeptWhen(items: seq<Item>, limit: nat, x: Item)
    requires DistinctItems(items) && x in items && !x.running
    ensures x in NewestKept(items, limit) <==> NewerCount(items, x) < limit
  {
    var closed := Pick(items, NoLongerRunning);
    var s := Ordered(closed);
    OrderedClosed(items);
    OrderedInOrder(closed);
    var k :| 0 <= k < |s| && s[k] == x;
    NewerAreLater(s, k);
    OrderedPicks(closed, NewerThan(x));
    InSuffix(s, k, Excess(|s|, limit));
    PickMembers(items, StillRunning);
  }

  // ---------------------------------------------------------------- artifacts of one task

  /** Drops the first n droppable items of an ordered list. */
  function Kept(s: seq<Item>, protected: set<nat>, n: nat): seq<Item> {
    if s == [] || n == 0 then s
    else if s[0].id in protected then [s[0]] + Kept(s[1..], protected, n)
    else Kept(s[1..], protected, n - 1)
  }

  function Dropped(s: seq<Item>, protected: set<nat>, n: nat): seq<Item> {
    if s == [] || n == 0 then []
    else if s[0].id in protected then Dropped(s[1..], protected, n)
    else [s[0]] + Dropped(s[1..], protected, n - 1)
  }

  lemma {:induction false} KeptPartitions(s: seq<Item>, protected: set<nat>, n: nat)
    ensures multiset(Kept(s, protected, n)) + multiset(Dropped(s, protected, n)) == multiset(s)
    ensures |Kept(s, protected, n)| + |Dropped(s, protected, n)| == |s|
    ensures forall x | x in Dropped(s, protected, n) :: x.id !in protected
  {
    if s != [] && n > 0 {
      assert s == [s[0]] + s[1..];
      KeptPartitions(s[1..], protected, if s[0].id in protected then n else n - 1);
    }
  }

  lemma {:induction false} DroppedCount(s: seq<Item>, protected: set<nat>, n: nat)
    requires n <= |Pick(s, Unprotected(protected))|
    ensures |Dropped(s, protected, n)| == n
    ensures n == |Pick(s, Unprotected(protected))| ==> forall x | x in Kept(s, protected, n) :: x.id in protected
  {
    if s != [] && n > 0 {
      DroppedCount(s[1..], protected, if s[0].id in protected then n else n - 1);
    } else if n == 0 && n == |Pick(s, Unprotected(protected))| {
      PickMembers(s, Unprotected(protected));
      forall x | x in s ensures x.id in protected {
        assert x in Pick(s, Unprotected(protected)) <==> x.id !in protected;
      }
    }
  }

  lemma {:induction false} DroppedFirst(s: seq<Item>, protected: set<nat>, n: nat)
    requires InOrder(s)
    ensures forall x, y | x in Dropped(s, protected, n) && y in Kept(s, protected, n) && y.id !in protected ::
        NotAfter(x, y)
  {
    if s != [] && n > 0 {
      var m := if s[0].id in protected then n else n - 1;
      DroppedFirst(s[1..], protected, m);
      KeptPartitions(s[1..], protected, m);
      forall y | y in Kept(s[1..], protected, m) ensures NotAfter(s[0], y) {
        assert y in multiset(s[1..]);
        var j :| 0 <= j < |s| - 1 && s[1..][j] == y;
        assert s[j + 1] == y;
      }
    }
  }

  function ToDrop(items: seq<Item>, protected: set<nat>, limit: nat): nat {
    var droppable := |Pick(Ordered(items), Unprotected(protected))|;
    if Excess(|items|, limit) < droppable then Excess(|items|, limit) else droppable
  }

  // ---------------------------------------------------------------- one task, either rule

  /** Events, attempts and runs keep the newest; artifacts also keep what is still needed. */
  datatype Rule = Newest(limit: nat) | Needed(protected: set<nat>, limit: nat)

  function Retained(items: seq<Item>, rule: Rule): seq<Item> {
    match rule
    case Newest(limit) => NewestKept(items, limit)
    case Needed(protected, limit) => Kept(Ordered(items), protected, ToDrop(items, protected, limit))
  }

  function Pruned(items: seq<Item>, rule: Rule): seq<Item> {
    match rule
    case Newest(limit) => NewestPruned(items, limit)
    case Needed(protected, limit) => Dropped(Ordered(items), protected, ToDrop(items, protected, limit))
  }

  /** What may go, under the rule. */
  predicate Droppable(x: Item, rule: Rule) {
    match rule
    case Newest(_) => !x.running
    case Needed(protected, _) => x.id !in protected
  }

  lemma RetainedPartitions(items: seq<Item>, rule: Rule)
    ensures multiset(Retained(items, rule)) + multiset(Pruned(items, rule)) == multiset(items)
    ensures |Retained(items, rule)| + |Pruned(items, rule)| == |items|
    ensures forall x | x in Pruned(items, rule) :: Droppable(x, rule)
  {
    match rule
    case Newest(limit) =>
      NewestPartitions(items, limit);
      NewestMembers(items, limit);
    case Needed(protected, limit) =>
      OrderedInOrder(items);
      KeptPartitions(Ordered(items), protected, ToDrop(items, protected, limit));
  }

  lemma RetainedMembers(items: seq<Item>, rule: Rule)
    ensures forall x :: x in items <==> x in Retained(items, rule) || x in Pruned(items, rule)
  {
    RetainedPartitions(items, rule);
    forall x ensures x in items <==> x in Retained(items, rule) || x in Pruned(items, rule) {
      assert x in items <==> x in multiset(Retained(items, rule)) + multiset(Pruned(items, rule));
    }
  }

  /** The oldest droppable items go first. */
  lemma OldestPruned(items: seq<Item>, rule: Rule)
    ensures forall x, y | x in Pruned(items, rule) && y in Retained(items, rule) && Droppable(y, rule) :: NotAfter(x, y)
  {
    match rule
    case Newest(limit) => OldestGoFirst(items, limit);
    case Needed(protected, limit) =>
      OrderedInOrder(items);
      DroppedFirst(Ordered(items), protected, ToDrop(items, protected, limit));
  }

  /** Within its limit, up to what must not go. */
  ghost predicate Bounded(items: seq<Item>, rule: Rule) {
    match rule
    case Newest(limit) => |Pick(items, NoLongerRunning)| <= limit
    case Needed(protected, limit) => |items| <= limit || forall x | x in items :: x.id in protected
  }

  lemma RetainedBounded(items: seq<Item>, rule: Rule)
    ensures Bounded(Retained(items, rule), rule)
  {
    match rule
    case Newest(limit) => NewestClosed(items, limit);
    case Needed(protected, limit) =>
      OrderedInOrder(items);
      KeptPartitions(Ordered(items), protected, ToDrop(items, protected, limit));
      DroppedCount(Ordered(items), protected, ToDrop(items, protected, limit));
  }

  lemma BoundedPrunesNothing(items: seq<Item>, rule: Rule)
    requires Bounded(items, rule)
    ensures Pruned(items, rule) == []
  {
    match rule
    case Newest(limit) => NewestPrunesNothing(items, limit);
    case Needed(protected, limit) =>
      if |items| > limit {
        OrderedMembers(items);
        assert Pick(Ordered(items), Unprotected(protected)) == [] by {
          PickNone(Ordered(items), Unprotected(protected));
        }
      }
  }

  // ---------------------------------------------------------------- all tasks

  /** The kept items of each task in turn. */
  function RetainedOf(items: seq<Item>, tasks: seq<string>, rule: Rule): seq<Item> {
    if tasks == [] then [] else Retained(Pick(items, OfTask(tasks[0])), rule) + RetainedOf(items, tasks[1..], rule)
  }

  /** Items of no known task are passed through. */
  function CompactedList(items: seq<Item>, tasks: seq<string>, rule: Rule): seq<Item> {
    Pick(items, Outside(tasks)) + RetainedOf(items, tasks, rule)
  }

  ghost predicate Distinct(tasks: seq<string>) {
    forall i, j | 0 <= i < j < |tasks| :: tasks[i] != tasks[j]
  }

  lemma {:induction false} RetainedOfTask(items: seq<Item>, tasks: seq<string>, rule: Rule, task: string)
    requires Distinct(tasks)
    ensures Pick(RetainedOf(items, tasks, rule), OfTask(task)) ==
            if task in tasks then Retained(Pick(items, OfTask(task)), rule) else []
  {
    if tasks != [] {
      var head := Retained(Pick(items, OfTask(tasks[0])), rule);
      PickMembers(items, OfTask(tasks[0]));
      RetainedMembers(Pick(items, OfTask(tasks[0])), rule);
      PickAppend(head, RetainedOf(items, tasks[1..], rule), OfTask(task));
      RetainedOfTask(items, tasks[1..], rule, task);
      if tasks[0] == task {
        PickAll(head, OfTask(task));
        assert task !in tasks[1..];
      } else {
        PickNone(head, OfTask(task));
      }
    }
  }

  /** Each task's share of the compacted list is what the task keeps. */
  lemma CompactedShare(items: seq<Item>, tasks: seq<string>, rule: Rule, task: string)
    requires Distinct(tasks) && task in tasks
    ensures Pick(CompactedList(items, tasks, rule), OfTask(task)) == Retained(Pick(items, OfTask(task)), rule)
  {
    PickMembers(items, Outside(tasks));
    PickAppend(Pick(items, Outside(tasks)), RetainedOf(items, tasks, rule), OfTask(task));
    PickNone(Pick(items, Outside(tasks)), OfTask(task));
    RetainedOfTask(items, tasks, rule, task);
  }

  lemma {:induction false} RetainedOfMembers(items: seq<Item>, tasks: seq<string>, rule: Rule)
    ensures forall x | x in RetainedOf(items, tasks, rule) :: x in items && x.task in tasks
  {
    if tasks != [] {
      PickMembers(items, OfTask(tasks[0]));
      RetainedMembers(Pick(items, OfTask(tasks[0])), rule);
      RetainedOfMembers(items, tasks[1..], rule);
    }
  }

  /** An item survives unless its own task folds it away. */
  lemma CompactedMembers(items: seq<Item>, tasks: seq<string>, rule: Rule, x: Item)
    requires Distinct(tasks)
    ensures x in CompactedList(items, tasks, rule) <==>
            x in items && (x.task in tasks ==> x in Retained(Pick(items, OfTask(x.task)), rule))
  {
    PickMembers(items, Outside(tasks));
    PickMembers(items, OfTask(x.task));
    PickMembers(CompactedList(items, tasks, rule), OfTask(x.task));
    RetainedOfMembers(items, tasks, rule);
    if x.task in tasks {
      CompactedShare(items, tasks, rule, x.task);
      RetainedMembers(Pick(items, OfTask(x.task)), rule);
      assert x in Pick(CompactedList(items, tasks, rule), OfTask(x.task)) <==> x in CompactedList(items, tasks, rule);
    }
  }

  /** What may not be dropped is not dropped. */
  lemma UndroppableSurvives(items: seq<Item>, tasks: seq<string>, rule: Rule, x: Item)
    requires Distinct(tasks) && x in items && !Droppable(x, rule)
    ensures x in CompactedList(items, tasks, rule)
  {
    PickMembers(items, OfTask(x.task));
    CompactedMembers(items, tasks, rule, x);
    RetainedPartitions(Pick(items, OfTask(x.task)), rule);
    RetainedMembers(Pick(items, OfTask(x.task)), rule);
  }

  // ---------------------------------------------------------------- memories

  datatype Shelf = Events | Attempts | Runs | Artifacts

  datatype Memory = Memory(events: nat, attempts: nat, runs: nat, artifacts: nat, start: Option<int>, end: Option<int>)

  const EMPTY := Memory(0, 0, 0, 0, None, None)

  function CountIn(m: Memory, shelf: Shelf): nat {
    match shelf
    case Events => m.events
    case Attempts => m.attempts
    case Runs => m.runs
    case Artifacts => m.artifacts
  }

  function Counted(m: Memory, shelf: Shelf): Memory {
    match shelf
    case Events => m.(events := m.events + 1)
    case Attempts => m.(attempts := m.attempts + 1)
    case Runs => m.(runs := m.runs + 1)
    case Artifacts => m.(artifacts := m.artifacts + 1)
  }

  function Folded(m: Memory, x: Item, shelf: Shelf): Memory {
    Counted(m, shelf).(start := if m.start.None? || x.stamp < m.start.value then Some(x.stamp) else m.start,
                       end := if m.end.None? || x.stamp > m.end.value then Some(x.stamp) else m.end)
  }

  function FoldedAll(m: Memory, s: seq<Item>, shelf: Shelf): Memory {
    if s == [] then m else Folded(FoldedAll(m, s[..|s|-1], shelf), s[|s|-1], shelf)
  }

  predicate Covers(m: Memory, stamp: int) {
    m.start.Some? && m.end.Some? && m.start.value <= stamp <= m.end.value
  }

  /** Folding counts every item once, on its own shelf, and widens the window over it. */
  lemma {:induction false} FoldedCounts(m: Memory, s: seq<Item>, shelf: Shelf)
    ensures forall other ::
        CountIn(FoldedAll(m, s, shelf), other) == CountIn(m, other) + if other == shelf then |s| else 0
    ensures forall x | x in s :: Covers(FoldedAll(m, s, shelf), x.stamp)
    ensures forall stamp | Covers(m, stamp) :: Covers(FoldedAll(m, s, shelf), stamp)
  {
    if s != [] {
      var n := |s| - 1;
      FoldedCounts(m, s[..n], shelf);
      assert s == s[..n] + [s[n]];
    }
  }

  function MemoryOf(memories: map<string, Memory>, task: string): Memory {
    if task in memories then memories[task] else EMPTY
  }

  /** A memory is touched only for a task that has something to fold. */
  function WithFolded(memories: map<string, Memory>, task: string, pruned: seq<Item>,
                      shelf: Shelf): map<string, Memory> {
    if pruned == [] then memories else memories[task := FoldedAll(MemoryOf(memories, task), pruned, shelf)]
  }

  lemma WithFoldedOf(memories: map<string, Memory>, one: string, pruned: seq<Item>, shelf: Shelf, task: string)
    ensures MemoryOf(WithFolded(memories, one, pruned, shelf), task) ==
            if task == one then FoldedAll(MemoryOf(memories, task), pruned, shelf) else MemoryOf(memories, task)
  {
  }

  function MemoriesAfter(memories: map<string, Memory>, items: seq<Item>, tasks: seq<string>, rule: Rule,
                         shelf: Shelf): map<string, Memory> {
    if tasks == [] then memories
    else
      var n := |tasks| - 1;
      WithFolded(MemoriesAfter(memories, items, tasks[..n], rule, shelf), tasks[n],
          Pruned(Pick(items, OfTask(tasks[n])), rule), shelf)
  }

  lemma {:induction false} MemoryOfTask(memories: map<string, Memory>, items: seq<Item>, tasks: seq<string>,
                                        rule: Rule, shelf: Shelf, task: string)
    requires Distinct(tasks)
    ensures MemoryOf(MemoriesAfter(memories, items, tasks, rule, shelf), task) ==
            if task in tasks then FoldedAll(MemoryOf(memories, task), Pruned(Pick(items, OfTask(task)), rule), shelf)
                else MemoryOf(memories, task)
  {
    if tasks != [] {
      var n := |tasks| - 1;
      var rest := MemoriesAfter(memories, items, tasks[..n], rule, shelf);
      MemoryOfTask(memories, items, tasks[..n], rule, shelf, task);
      WithFoldedOf(rest, tasks[n], Pruned(Pick(items, OfTask(tasks[n])), rule), shelf, task);
      LastOrBefore(tasks, task);
    }
  }

  lemma LastOrBefore(tasks: seq<string>, task: string)
    requires tasks != [] && Distinct(tasks)
    ensures var n := |tasks| - 1;
      && (task in tasks <==> task == tasks[n] || task in tasks[..n])
      && !(task == tasks[n] && task in tasks[..n]) && Distinct(tasks[..n])
  {
    assert tasks == tasks[..|tasks|-1] + [tasks[|tasks|-1]];
  }

  /** What one stage of the pass does to the memory of a task. */
  lemma MemoryStage(memories: map<string, Memory>, items: seq<Item>, tasks: seq<string>, rule: Rule, shelf: Shelf,
                    task: string)
    requires Distinct(tasks) && task in tasks
    ensures var before, after := MemoryOf(memories, task),
        MemoryOf(MemoriesAfter(memories, items, tasks, rule, shelf), task);
      var gone := Pruned(Pick(items, OfTask(task)), rule);
      && (forall other :: CountIn(after, other) == CountIn(before, other) + if other == shelf then |gone| else 0)
      && (forall x | x in gone :: Covers(after, x.stamp))
      && (forall stamp | Covers(before, stamp) :: Covers(after, stamp))
  {
    MemoryOfTask(memories, items, tasks, rule, shelf, task);
    FoldedCounts(MemoryOf(memories, task), Pruned(Pick(items, OfTask(task)), rule), shelf);
  }

  lemma {:induction false} NothingPrunedKeepsMemories(memories: map<string, Memory>, items: seq<Item>,
                                                      tasks: seq<string>, rule: Rule, shelf: Shelf)
    requires forall task | task in tasks :: Pruned(Pick(items, OfTask(task)), rule) == []
    ensures MemoriesAfter(memories, items, tasks, rule, shelf) == memories
  {
    if tasks != [] {
      NothingPrunedKeepsMemories(memories, items, tasks[..|tasks|-1], rule, shelf);
    }
  }

  // ---------------------------------------------------------------- protection

  predicate IsLatest(artifacts: seq<Item>, x: Item) {
    x in artifacts && x.task != "" && forall y | y in artifacts && y.task == x.task && y.kind == x.kind ::
      NotAfter(y, x)
  }

  function Named(items: seq<Item>): set<nat> {
    set x, a | x in items && a in x.names :: a
  }

  /** Artifacts that a retained attempt or run names, and the latest of each task and kind. */
  function Protected(artifacts: seq<Item>, attempts: seq<Item>, runs: seq<Item>): set<nat> {
    Named(attempts) + Named(runs) + (set x | x in artifacts && IsLatest(artifacts, x) :: x.id)
  }

  lemma {:induction false} LatestExists(artifacts: seq<Item>, task: string, kind: string) returns (x: Item)
    requires task != "" && exists y :: y in artifacts && y.task == task && y.kind == kind
    ensures IsLatest(artifacts, x) && x.task == task && x.kind == kind
  {
    var rest := artifacts[1..];
    if exists y :: y in rest && y.task == task && y.kind == kind {
      x := LatestExists(rest, task, kind);
      if artifacts[0].task == task && artifacts[0].kind == kind && !NotAfter(artifacts[0], x) {
        x := artifacts[0];
      }
    } else {
      x := artifacts[0];
    }
  }

  // ---------------------------------------------------------------- the whole pass

  const EVENTS := Newest(64)
  const ATTEMPTS := Newest(12)
  const RUNS := Newest(12)
  const ARTIFACT_LIMIT := 24

  datatype History = History(
    tasks: seq<string>, events: seq<Item>, attempts: seq<Item>, runs: seq<Item>, artifacts: seq<Item>,
    memories: map<string, Memory>)

  predicate Worth(m: Memory) {
    m.events + m.attempts + m.runs + m.artifacts > 0
  }

  function ListOf(h: History, shelf: Shelf): seq<Item> {
    match shelf
    case Events => h.events
    case Attempts => h.attempts
    case Runs => h.runs
    case Artifacts => h.artifacts
  }

  function ArtifactRule(h: History): Rule {
    Needed(Protected(h.artifacts, CompactedList(h.attempts, h.tasks, ATTEMPTS), CompactedList(h.runs, h.tasks, RUNS)),
        ARTIFACT_LIMIT)
  }

  function RuleOf(h: History, shelf: Shelf): Rule {
    match shelf
    case Events => EVENTS
    case Attempts => ATTEMPTS
    case Runs => RUNS
    case Artifacts => ArtifactRule(h)
  }

  /** The memories after the first k of the four stages. */
  function MemoriesUpTo(h: History, k: nat): map<string, Memory>
    requires k <= 4
  {
    if k == 0 then h.memories
    else
      var shelf := ShelfAt(k - 1);
      MemoriesAfter(MemoriesUpTo(h, k - 1), ListOf(h, shelf), h.tasks, RuleOf(h, shelf), shelf)
  }

  function ShelfAt(k: nat): Shelf
    requires k < 4
  {
    if k == 0 then Events else if k == 1 then Attempts else if k == 2 then Runs else Artifacts
  }

  function AllMemories(h: History): map<string, Memory> {
    MemoriesUpTo(h, 4)
  }

  /** Memories of tasks that are gone, and empty ones, are not kept. */
  function Compacted(h: History): History {
    History(h.tasks,
            CompactedList(h.events, h.tasks, EVENTS), CompactedList(h.attempts, h.tasks, ATTEMPTS),
            CompactedList(h.runs, h.tasks, RUNS), CompactedList(h.artifacts, h.tasks, ArtifactRule(h)),
            map task | task in AllMemories(h) && task in h.tasks && Worth(AllMemories(h)[task]) :: AllMemories(h)[task])
  }

  lemma ShelfCompacted(h: History, shelf: Shelf)
    ensures ListOf(Compacted(h), shelf) == CompactedList(ListOf(h, shelf), h.tasks, RuleOf(h, shelf))
  {
  }

  function Share(h: History, shelf: Shelf, task: string): seq<Item> {
    Pick(ListOf(h, shelf), OfTask(task))
  }

  predicate Before(shelf: Shelf, k: nat) {
    match shelf
    case Events => 0 < k
    case Attempts => 1 < k
    case Runs => 2 < k
    case Artifacts => 3 < k
  }

  /** The stages up to k have each counted what they folded away. */
  lemma {:induction false} MemoryCounts(h: History, task: string, k: nat)
    requires Distinct(h.tasks) && task in h.tasks && k <= 4
    ensures var m := MemoryOf(MemoriesUpTo(h, k), task);
      && (forall shelf :: CountIn(m, shelf) ==
           CountIn(MemoryOf(h.memories, task), shelf) + if Before(shelf, k)
             then |Pruned(Share(h, shelf, task), RuleOf(h, shelf))| else 0)
      && (forall shelf, x | Before(shelf, k) && x in Pruned(Share(h, shelf, task), RuleOf(h, shelf)) ::
           Covers(m, x.stamp))
  {
    if k > 0 {
      MemoryCounts(h, task, k - 1);
      var shelf := ShelfAt(k - 1);
      MemoryStage(MemoriesUpTo(h, k - 1), ListOf(h, shelf), h.tasks, RuleOf(h, shelf), shelf, task);
      assert forall other :: Before(other, k) <==> Before(other, k - 1) || other == shelf;
    }
  }

  // ---------------------------------------------------------------- what a pass keeps

  lemma ShareAfter(h: History, task: string, shelf: Shelf)
    requires Distinct(h.tasks) && task in h.tasks
    ensures Share(Compacted(h), shelf, task) == Retained(Share(h, shelf, task), RuleOf(h, shelf))
  {
    ShelfCompacted(h, shelf);
    CompactedShare(ListOf(h, shelf), h.tasks, RuleOf(h, shelf), task);
  }

  lemma MemoryKept(h: History, task: string)
    requires task in h.tasks
    ensures MemoryOf(Compacted(h).memories, task) == MemoryOf(AllMemories(h), task)
        || !Worth(MemoryOf(AllMemories(h), task))
    ensures forall shelf ::
        CountIn(MemoryOf(Compacted(h).memories, task), shelf) == CountIn(MemoryOf(AllMemories(h), task), shelf)
  {
    var all := AllMemories(h);
    assert Compacted(h).memories == map t | t in all && t in h.tasks && Worth(all[t]) :: all[t];
    NothingToCount(MemoryOf(all, task));
  }

  lemma NothingToCount(m: Memory)
    ensures !Worth(m) ==> forall shelf :: CountIn(m, shelf) == 0
  {
  }

  /** For every existing task and every kind of history, what is kept plus the counter is what
      it was before, and nothing is kept that was not there. */
  lemma HistoryIsConserved(h: History, task: string, shelf: Shelf)
    requires Distinct(h.tasks) && task in h.tasks
    ensures |Share(Compacted(h), shelf, task)| + CountIn(MemoryOf(Compacted(h).memories, task), shelf)
            == |Share(h, shelf, task)| + CountIn(MemoryOf(h.memories, task), shelf)
    ensures multiset(Share(Compacted(h), shelf, task)) <= multiset(Share(h, shelf, task))
  {
    ShareAfter(h, task, shelf);
    MemoryKept(h, task);
    MemoryCounts(h, task, 4);
    assert Before(shelf, 4);
    RetainedPartitions(Share(h, shelf, task), RuleOf(h, shelf));
  }

  /** What goes is the oldest of what may go: running items and needed artifacts never do. The
      retention bounds hold afterwards. */
  lemma OldestIsFolded(h: History, task: string, shelf: Shelf)
    requires Distinct(h.tasks) && task in h.tasks
    ensures forall x | x in Share(h, shelf, task) && x !in Share(Compacted(h), shelf, task) ::
      Droppable(x, RuleOf(h, shelf)) && forall y | y in Share(Compacted(h), shelf, task)
        && Droppable(y, RuleOf(h, shelf)) :: NotAfter(x, y)
    ensures Bounded(Share(Compacted(h), shelf, task), RuleOf(h, shelf))
  {
    var rule := RuleOf(h, shelf);
    ShareAfter(h, task, shelf);
    RetainedPartitions(Share(h, shelf, task), rule);
    RetainedMembers(Share(h, shelf, task), rule);
    OldestPruned(Share(h, shelf, task), rule);
    RetainedBounded(Share(h, shelf, task), rule);
  }

  predicate TakesNewest(shelf: Shelf) {
    shelf != Artifacts
  }

  /** How long history stays: an event, attempt or run of a task that no longer runs survives a
      pass exactly while fewer of the task's items than the limit are newer. */
  lemma SurvivesWhile(h: History, shelf: Shelf, x: Item)
    requires Distinct(h.tasks) && TakesNewest(shelf) && DistinctItems(ListOf(h, shelf))
    requires x in ListOf(h, shelf) && x.task in h.tasks && !x.running
    ensures x in ListOf(Compacted(h), shelf) <==>
            NewerCount(Share(h, shelf, x.task), x) < if shelf == Events then 64 else 12
  {
    var items := ListOf(h, shelf);
    ShelfCompacted(h, shelf);
    CompactedMembers(items, h.tasks, RuleOf(h, shelf), x);
    PickMembers(items, OfTask(x.task));
    PickSubset(items, OfTask(x.task));
    DistinctPart(items, Share(h, shelf, x.task));
    NewestKeptWhen(Share(h, shelf, x.task), RuleOf(h, shelf).limit, x);
  }

  /** The window of a task's memory covers everything folded away. */
  lemma WindowCovers(h: History, task: string, shelf: Shelf)
    requires Distinct(h.tasks) && task in h.tasks
    ensures forall x | x in Share(h, shelf, task) && x !in Share(Compacted(h), shelf, task) ::
        Covers(MemoryOf(Compacted(h).memories, task), x.stamp)
  {
    ShareAfter(h, task, shelf);
    RetainedMembers(Share(h, shelf, task), RuleOf(h, shelf));
    MemoryCounts(h, task, 4);
    MemoryKept(h, task);
    forall x | x in Share(h, shelf, task) && x !in Share(Compacted(h), shelf, task)
      ensures Covers(MemoryOf(Compacted(h).memories, task), x.stamp)
    {
      var gone := Pruned(Share(h, shelf, task), RuleOf(h, shelf));
      assert x in gone && |gone| > 0 && Before(shelf, 4);
      assert CountIn(MemoryOf(AllMemories(h), task), shelf) > 0;
    }
  }

  /** Every artifact that a retained attempt or run names is still there, so no dangling
      reference appears. */
  lemma ReferencesSurvive(h: History, x: Item, a: Item)
    requires Distinct(h.tasks) && a in h.artifacts
    requires (x in Compacted(h).attempts || x in Compacted(h).runs) && a.id in x.names
    ensures a in Compacted(h).artifacts
  {
    UndroppableSurvives(h.artifacts, h.tasks, ArtifactRule(h), a);
  }

  lemma LatestSurvives(h: History, a: Item)
    requires Distinct(h.tasks) && IsLatest(h.artifacts, a)
    ensures IsLatest(Compacted(h).artifacts, a)
  {
    UndroppableSurvives(h.artifacts, h.tasks, ArtifactRule(h), a);
    forall y | y in Compacted(h).artifacts ensures y in h.artifacts {
      CompactedMembers(h.artifacts, h.tasks, ArtifactRule(h), y);
    }
  }

  predicate Evidence(artifacts: seq<Item>, task: string, kind: string) {
    exists x | x in artifacts :: x.task == task && x.kind == kind && x.passes
  }

  /** The kinds of evidence a runbook asks for and the task does not have. */
  function Missing(artifacts: seq<Item>, task: string, rules: seq<string>): seq<string> {
    if rules == [] then []
    else (if Evidence(artifacts, task, rules[0]) then [] else [rules[0]]) + Missing(artifacts, task, rules[1..])
  }

  lemma {:induction false} MissingMembers(artifacts: seq<Item>, task: string, rules: seq<string>, kind: string)
    ensures kind in Missing(artifacts, task, rules) <==> kind in rules && !Evidence(artifacts, task, kind)
  {
    if rules != [] {
      MissingMembers(artifacts, task, rules[1..], kind);
    }
  }

  /** A task that has artifacts of a kind has a latest one, the same before and after a pass. A
      kind whose latest artifact passes is not reported missing after a pass; and nothing is
      newly reported present. */
  lemma EvidenceSurvives(h: History, task: string, rules: seq<string>, kind: string)
    requires Distinct(h.tasks) && task != ""
    ensures (exists y :: y in h.artifacts && y.task == task && y.kind == kind) ==>
            exists a :: IsLatest(h.artifacts, a) && IsLatest(Compacted(h).artifacts, a)
              && a.task == task && a.kind == kind
    ensures (exists a :: IsLatest(h.artifacts, a) && a.task == task && a.kind == kind && a.passes) ==>
            kind !in Missing(Compacted(h).artifacts, task, rules)
    ensures kind in Missing(h.artifacts, task, rules) ==> kind in Missing(Compacted(h).artifacts, task, rules)
  {
    var after := Compacted(h).artifacts;
    MissingMembers(after, task, rules, kind);
    MissingMembers(h.artifacts, task, rules, kind);
    if exists y :: y in h.artifacts && y.task == task && y.kind == kind {
      var latest := LatestExists(h.artifacts, task, kind);
      LatestSurvives(h, latest);
    }
    if a :| IsLatest(h.artifacts, a) && a.task == task && a.kind == kind && a.passes {
      LatestSurvives(h, a);
    }
    forall y | y in after ensures y in h.artifacts {
      CompactedMembers(h.artifacts, h.tasks, ArtifactRule(h), y);
    }
  }

  // ---------------------------------------------------------------- a second pass

  lemma SecondShare(items: seq<Item>, tasks: seq<string>, rule: Rule, task: string)
    requires Distinct(tasks) && task in tasks
    ensures Pruned(Pick(CompactedList(items, tasks, rule), OfTask(task)), rule) == []
  {
    CompactedShare(items, tasks, rule, task);
    RetainedBounded(Pick(items, OfTask(task)), rule);
    BoundedPrunesNothing(Retained(Pick(items, OfTask(task)), rule), rule);
  }

  lemma SecondMembers(items: seq<Item>, tasks: seq<string>, rule: Rule, x: Item)
    requires Distinct(tasks)
    ensures x in CompactedList(CompactedList(items, tasks, rule), tasks, rule) <==>
        x in CompactedList(items, tasks, rule)
  {
    var once := CompactedList(items, tasks, rule);
    CompactedMembers(once, tasks, rule, x);
    if x.task in tasks {
      SecondShare(items, tasks, rule, x.task);
      PickMembers(once, OfTask(x.task));
      RetainedMembers(Pick(once, OfTask(x.task)), rule);
    }
  }

  /** What the first pass protected and kept, the second protects too. */
  lemma StillProtected(h: History, x: Item)
    requires Distinct(h.tasks) && x in Compacted(h).artifacts && x.id in ArtifactRule(h).protected
    ensures x.id in ArtifactRule(Compacted(h)).protected
  {
    var after := Compacted(h);
    var attempts, runs := after.attempts, after.runs;
    if x.id in Named(attempts) {
      var y :| y in attempts && x.id in y.names;
      SecondMembers(h.attempts, h.tasks, ATTEMPTS, y);
    } else if x.id in Named(runs) {
      var y :| y in runs && x.id in y.names;
      SecondMembers(h.runs, h.tasks, RUNS, y);
    } else {
      var y :| y in h.artifacts && IsLatest(h.artifacts, y) && y.id == x.id;
      LatestSurvives(h, y);
    }
  }

  lemma StillBounded(h: History, task: string, items: seq<Item>)
    requires Distinct(h.tasks) && Bounded(items, ArtifactRule(h)) && forall x | x in items ::
        x in Compacted(h).artifacts
    ensures Bounded(items, ArtifactRule(Compacted(h)))
  {
    forall x | x in items && x.id in ArtifactRule(h).protected ensures x.id in ArtifactRule(Compacted(h)).protected {
      StillProtected(h, x);
    }
  }

  lemma SecondArtifacts(h: History, task: string)
    requires Distinct(h.tasks) && task in h.tasks
    ensures Pruned(Share(Compacted(h), Artifacts, task), ArtifactRule(Compacted(h))) == []
  {
    var items := Share(Compacted(h), Artifacts, task);
    PickMembers(Compacted(h).artifacts, OfTask(task));
    ShareAfter(h, task, Artifacts);
    RetainedBounded(Share(h, Artifacts, task), ArtifactRule(h));
    StillBounded(h, task, items);
    BoundedPrunesNothing(items, ArtifactRule(Compacted(h)));
  }

  /** A second pass prunes nothing and leaves every memory as it is. */
  lemma SecondPassPrunesNothing(h: History)
    requires Distinct(h.tasks)
    ensures forall shelf, task | task in h.tasks ::
        Pruned(Share(Compacted(h), shelf, task), RuleOf(Compacted(h), shelf)) == []
    ensures Compacted(Compacted(h)).memories == Compacted(h).memories
  {
    var after := Compacted(h);
    forall shelf, task | task in h.tasks ensures Pruned(Share(after, shelf, task), RuleOf(after, shelf)) == [] {
      match shelf
      case Events => SecondShare(h.events, h.tasks, EVENTS, task);
      case Attempts => SecondShare(h.attempts, h.tasks, ATTEMPTS, task);
      case Runs => SecondShare(h.runs, h.tasks, RUNS, task);
      case Artifacts => SecondArtifacts(h, task);
    }
    SameMemories(after, 4);
  }

  lemma {:induction false} SameMemories(h: History, k: nat)
    requires k <= 4
    requires forall shelf, task | task in h.tasks :: Pruned(Share(h, shelf, task), RuleOf(h, shelf)) == []
    ensures MemoriesUpTo(h, k) == h.memories
  {
    if k > 0 {
      SameMemories(h, k - 1);
      var shelf := ShelfAt(k - 1);
      forall task | task in h.tasks ensures Pruned(Pick(ListOf(h, shelf), OfTask(task)), RuleOf(h, shelf)) == [] {
        assert Pruned(Share(h, shelf, task), RuleOf(h, shelf)) == [];
      }
      NothingPrunedKeepsMemories(h.memories, ListOf(h, shelf), h.tasks, RuleOf(h, shelf), shelf);
    }
  }
}
