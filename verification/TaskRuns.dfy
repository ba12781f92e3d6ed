/** Whole runs of the operations that add tasks or change what tasks depend on. */
module TaskRuns {
  import opened Basics
  import opened ProjectState
  import opened DependencyGraph
  import opened TaskContract

  /** Everything that adds tasks or changes dependencies; Other stands for every operation that
      leaves ids, projects and dependencies of the tasks alone, and may replace projects. */
  datatype Op =
    | Create(title: string, task: Task)
    | Derive(parentId: string, titles: seq<string>, ids: seq<string>)
    | Compose(id: string, sources: seq<string>, title: string)
    | Rewrite(taskId: string, expected: int, byAgent: bool, terms: NewTerms)
    | Other(projects: seq<Project>, tasks: seq<Task>)

  datatype Plan = Plan(projects: seq<Project>, tasks: seq<Task>)

  ghost predicate SameDependencies(tasks: seq<Task>, after: seq<Task>) {
    && |after| == |tasks|
    && forall i | 0 <= i < |tasks| ::
         after[i].id == tasks[i].id && after[i].project == tasks[i].project && after[i].dependsOn == tasks[i].dependsOn
  }

  ghost predicate OpFresh(p: Plan, op: Op) {
    match op
    case Create(_, task) => task.id !in Ids(p.tasks)
    case Derive(_, titles, ids) => |ids| == |titles| && FreshIds(p.tasks, ids)
    case Compose(id, _, _) => id !in Ids(p.tasks)
    case Rewrite(_, _, _, _) => true
    case Other(_, tasks) => SameDependencies(p.tasks, tasks)
  }

  /** What an operation leaves, accepted or refused. */
  ghost function Stepped(p: Plan, op: Op): Plan {
    match op
    case Create(title, task) =>
      if CreateAllowed(p.projects, p.tasks, title, task) then p.(tasks := p.tasks + [task]) else p
    case Derive(parentId, titles, ids) =>
      if BranchesAllowed(p.projects, p.tasks, parentId, titles)
      then p.(tasks := p.tasks + Branches(FindTask(p.tasks, parentId).value, ids)) else p
    case Compose(id, sources, title) =>
      if ComposeAllowed(p.projects, p.tasks, sources, title)
      then p.(tasks := p.tasks + [Composed(p.tasks, id, sources)])
      else p
    case Rewrite(id, expected, byAgent, c) =>
      if EditAllowed(p.projects, p.tasks, id, expected, byAgent, c)
      then p.(tasks := WithContract(p.tasks, id, c)) else p
    case Other(projects, tasks) => Plan(projects, tasks)
  }

  ghost function After(p: Plan, ops: seq<Op>): Plan {
    if ops == [] then p else Stepped(After(p, ops[..|ops|-1]), ops[|ops|-1])
  }

  ghost predicate AllFresh(p: Plan, ops: seq<Op>) {
    forall i | 0 <= i < |ops| :: OpFresh(After(p, ops[..i]), ops[i])
  }

  lemma {:induction false} BranchesKeepSound(tasks: seq<Task>, parent: Task, ids: seq<string>)
    requires SoundBoard(tasks) && FindTask(tasks, parent.id) == Some(parent) && FreshIds(tasks, ids)
    ensures SoundBoard(tasks + Branches(parent, ids))
    ensures forall id :: FindTask(tasks + Branches(parent, ids), id).Some? <==> FindTask(tasks, id).Some? || id in ids
    ensures FindTask(tasks + Branches(parent, ids), parent.id) == Some(parent)
  {
    if ids == [] {
      assert tasks + Branches(parent, ids) == tasks;
    } else {
      var n := |ids| - 1;
      BranchesKeepSound(tasks, parent, ids[..n]);
      var soFar, branch := tasks + Branches(parent, ids[..n]), Branch(parent, ids[n]);
      assert ids[n] !in Ids(tasks) && ids[n] !in ids[..n];
      BranchesOneMore(parent, ids, n);
      assert ids[..n+1] == ids && ids == ids[..n] + [ids[n]];
      assert tasks + Branches(parent, ids) == soFar + [branch];
      BranchIsSound(soFar, parent, ids[n]);
      FindMember(tasks, parent);
      AddKeepsSound(soFar, branch);
      forall id ensures FindTask(soFar + [branch], id).Some? <==> FindTask(tasks, id).Some? || id in ids {
        FindTaskAppend(soFar, branch, id);
      }
      FindTaskAppend(soFar, branch, parent.id);
    }
  }

  lemma SameDependenciesKeepSound(tasks: seq<Task>, after: seq<Task>)
    requires SoundBoard(tasks) && SameDependencies(tasks, after)
    ensures SoundBoard(after)
  {
    forall id ensures FindTask(after, id).Some? <==> FindTask(tasks, id).Some?
      ensures FindTask(tasks, id).Some? ==>
                FindTask(after, id).value.project == FindTask(tasks, id).value.project
                  && FindTask(after, id).value.dependsOn == FindTask(tasks, id).value.dependsOn
    {
      SameFound(tasks, after, id);
    }
    assert GraphOf(after) == GraphOf(tasks);
    forall t, d | t in after && d in t.dependsOn ensures d in Scope(after, t.project) {
      var i :| 0 <= i < |after| && after[i] == t;
      assert tasks[i] in tasks;
      assert d in Scope(tasks, t.project);
    }
  }

  lemma {:induction false} SameFound(tasks: seq<Task>, after: seq<Task>, id: string)
    requires SameDependencies(tasks, after)
    ensures FindTask(after, id).Some? <==> FindTask(tasks, id).Some?
    ensures FindTask(tasks, id).Some? ==>
        FindTask(after, id).value.project == FindTask(tasks, id).value.project
          && FindTask(after, id).value.dependsOn == FindTask(tasks, id).value.dependsOn
  {
    if tasks != [] {
      SameFound(tasks[1..], after[1..], id);
    }
  }

  lemma StepKeepsSound(p: Plan, op: Op)
    requires SoundBoard(p.tasks) && OpFresh(p, op)
    ensures SoundBoard(Stepped(p, op).tasks)
  {
    match op
    case Create(title, task) =>
      if CreateAllowed(p.projects, p.tasks, title, task) {
        AddKeepsSound(p.tasks, task);
      }
    case Derive(parentId, titles, ids) =>
      if BranchesAllowed(p.projects, p.tasks, parentId, titles) {
        BranchesKeepSound(p.tasks, FindTask(p.tasks, parentId).value, ids);
      }
    case Compose(id, sources, title) =>
      if ComposeAllowed(p.projects, p.tasks, sources, title) {
        ComposedIsSound(p.tasks, id, sources);
        AddKeepsSound(p.tasks, Composed(p.tasks, id, sources));
      }
    case Rewrite(id, expected, byAgent, c) =>
      if EditAllowed(p.projects, p.tasks, id, expected, byAgent, c) {
        RewriteKeepsSound(p.tasks, id, c);
      }
    case Other(projects, tasks) => SameDependenciesKeepSound(p.tasks, tasks);
  }

  lemma RewriteKeepsSound(tasks: seq<Task>, id: string, c: NewTerms)
    requires SoundBoard(tasks) && FindTask(tasks, id).Some?
    requires DependenciesSound(tasks, Edited(FindTask(tasks, id).value, c))
    ensures SoundBoard(WithContract(tasks, id, c))
  {
    var i :| 0 <= i < |tasks| && tasks[i] == FindTask(tasks, id).value;
    OneContract(tasks, i, c);
    EditKeepsSound(tasks, i, Edited(tasks[i], c));
  }

  /** Over every run from an empty document, with every creation, derivation, composition and
      contract edit there is, accepted or refused, and anything else in between: dependencies
      stay inside their project, and the whole graph stays acyclic. */
  lemma {:induction false} RunKeepsSound(projects: seq<Project>, ops: seq<Op>)
    requires AllFresh(Plan(projects, []), ops)
    ensures SoundBoard(After(Plan(projects, []), ops).tasks)
  {
    if ops == [] {
      forall v ensures !OnCycle(GraphOf([]), v) {
        CycleLeavesByAnEdge(GraphOf([]), v);
      }
    } else {
      var n := |ops| - 1;
      forall i | 0 <= i < n ensures OpFresh(After(Plan(projects, []), ops[..n][..i]), ops[..n][i]) {
        assert ops[..n][..i] == ops[..i];
      }
      RunKeepsSound(projects, ops[..n]);
      StepKeepsSound(After(Plan(projects, []), ops[..n]), ops[n]);
    }
  }
}
