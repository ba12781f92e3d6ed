/** The task contract check and every operation that can add a task or change its contract. */
module TaskContract {
  import opened Basics
  import opened ProjectState
  import opened DependencyGraph

  function Ids(tasks: seq<Task>): (s: set<string>)
    ensures forall id :: id in s <==> FindTask(tasks, id).Some?
  {
    var s := set t | t in tasks :: t.id;
    assert forall id | FindTask(tasks, id).Some? :: FindTask(tasks, id).value in tasks;
    s
  }

  function GraphOf(tasks: seq<Task>): Graph {
    map id | id in Ids(tasks) :: FindTask(tasks, id).value.dependsOn
  }

  /** The tasks a task of the given project may depend on. */
  function Scope(tasks: seq<Task>, project: string): (s: set<string>)
    ensures s <= GraphOf(tasks).Keys
    ensures forall id :: id in s <==> FindTask(tasks, id).Some? && FindTask(tasks, id).value.project == project
  {
    set id | id in Ids(tasks) && FindTask(tasks, id).value.project == project
  }

  predicate CommandAllowed(command: seq<string>) {
    command != [] ==> !Blank(command[0])
  }

  predicate MilestoneKnown(projects: seq<Project>, project: string, milestone: string) {
    milestone == "" ||
    (FindProject(projects, project).Some? &&
     exists m | m in FindProject(projects, project).value.milestones :: m.id == milestone)
  }

  /** What the dependency half of the contract promises, on the graph that already has the
      task's own dependencies in place. */
  ghost predicate DependenciesSound(tasks: seq<Task>, task: Task) {
    Sound(GraphOf(tasks)[task.id := task.dependsOn], Scope(tasks, task.project) + {task.id}, task.id)
  }

  ghost predicate ContractHolds(projects: seq<Project>, tasks: seq<Task>, task: Task) {
    && CommandAllowed(task.command)
    && MilestoneKnown(projects, task.project, task.milestone)
    && DependenciesSound(tasks, task)
  }

  /** The depth-first search, with the ids on the current path in visiting. There is no
      set of finished ids: shared dependencies are visited again. */
  class DependencySearch {
    const tasks: seq<Task>
    const project: string
    var visiting: set<string>

    constructor (tasks: seq<Task>, task: Task)
      ensures this.tasks == tasks && this.project == task.project && visiting == {task.id}
    {
      this.tasks, this.project, this.visiting := tasks, task.project, {task.id};
    }

    /** Accepts id exactly when everything reachable from it is in the project, off the
        current path, and on no cycle; an accepted visit restores the path. */
    method Visit(id: string) returns (ok: bool)
      modifies this
      ensures ok <==> SoundAvoiding(GraphOf(tasks), Scope(tasks, project), id, old(visiting))
      ensures ok ==> visiting == old(visiting)
      decreases Ids(tasks) - visiting
    {
      ghost var g, scope, path := GraphOf(tasks), Scope(tasks, project), visiting;
      SoundUnfolds(g, scope, id, path);
      if id in visiting {
        return false;
      }
      var dep := FindTask(tasks, id);
      if dep.None? || dep.value.project != project {
        return false;
      }
      assert id in scope && g[id] == dep.value.dependsOn;
      visiting := visiting + {id};
      for i := 0 to |dep.value.dependsOn|
        invariant visiting == path + {id}
        invariant forall k | 0 <= k < i :: SoundAvoiding(g, scope, dep.value.dependsOn[k], path + {id})
      {
        var deeper := Visit(dep.value.dependsOn[i]);
        if !deeper {
          return false;
        }
      }
      visiting := visiting - {id};
      return true;
    }
  }

  method ValidateTaskContract(projects: seq<Project>, tasks: seq<Task>, task: Task) returns (r: Outcome)
    ensures r.Accepted? <==> ContractHolds(projects, tasks, task)
  {
    NewEdgesSound(GraphOf(tasks), Scope(tasks, task.project), task.id, task.dependsOn);
    if task.command != [] && Blank(task.command[0]) {
      return Rejected(Invalid);
    }
    if task.milestone != "" {
      var p := FindProject(projects, task.project);
      var milestones := if p.Some? then p.value.milestones else [];
      var found := false;
      for i := 0 to |milestones|
        invariant found <==> exists k | 0 <= k < i :: milestones[k].id == task.milestone
      {
        if milestones[i].id == task.milestone { found := true; }
      }
      if !found {
        return Rejected(Invalid);
      }
    }
    var search := new DependencySearch(tasks, task);
    for i := 0 to |task.dependsOn|
      invariant search.visiting == {task.id}
      invariant forall k | 0 <= k < i ::
        SoundAvoiding(GraphOf(tasks), Scope(tasks, task.project), task.dependsOn[k], {task.id})
    {
      var ok := search.Visit(task.dependsOn[i]);
      if !ok {
        return Rejected(Invalid);
      }
    }
    return Accepted;
  }

  // ---------------------------------------------------------------- the board invariant

  /** Dependencies stay inside the project and the whole dependency graph is acyclic. */
  ghost predicate SoundBoard(tasks: seq<Task>) {
    && UniqueTaskIds(tasks)
    && (forall t | t in tasks :: t.project != "")
    && (forall t, d | t in tasks && d in t.dependsOn :: d in Scope(tasks, t.project))
    && Acyclic(GraphOf(tasks))
  }

  lemma FindMember(tasks: seq<Task>, t: Task)
    requires UniqueTaskIds(tasks) && t in tasks
    ensures FindTask(tasks, t.id) == Some(t)
  {
    var i :| 0 <= i < |tasks| && tasks[i] == t;
    FindTaskAt(tasks, i);
  }

  /** Sound dependencies are in particular all in scope. */
  lemma DirectDependencies(tasks: seq<Task>, task: Task, d: string)
    requires DependenciesSound(tasks, task) && d in task.dependsOn
    ensures d in Scope(tasks, task.project) && d != task.id
  {
    var h := GraphOf(tasks)[task.id := task.dependsOn];
    Trivial(h, d);
    EdgeThenReach(h, task.id, d, d);
    Trivial(h, task.id);
  }

  /** Storing a task whose contract was accepted keeps the board sound: a new task. */
  lemma AddKeepsSound(tasks: seq<Task>, task: Task)
    requires SoundBoard(tasks) && task.id !in Ids(tasks) && task.project != "" && DependenciesSound(tasks, task)
    ensures SoundBoard(tasks + [task])
  {
    var after := tasks + [task];
    forall id ensures FindTask(after, id) == if id == task.id then Some(task) else FindTask(tasks, id) {
      FindTaskAppend(tasks, task, id);
    }
    forall i | 0 <= i < |tasks| ensures tasks[i].id != task.id {
      FindTaskAt(tasks, i);
    }
    StoredContract(tasks, task, after);
  }

  /** The shared core: the document differs from a sound one only in the accepted task. */
  lemma StoredContract(tasks: seq<Task>, task: Task, after: seq<Task>)
    requires SoundBoard(tasks) && DependenciesSound(tasks, task)
    requires forall id :: FindTask(after, id) == if id == task.id then Some(task) else FindTask(tasks, id)
    requires FindTask(tasks, task.id).Some? ==> FindTask(tasks, task.id).value.project == task.project
    ensures Acyclic(GraphOf(after))
    ensures forall t, d | (t in tasks || t == task) && d in t.dependsOn :: d in Scope(after, t.project)
  {
    GraphAfter(tasks, task, after);
    RedirectKeepsAcyclic(GraphOf(tasks), Scope(tasks, task.project) + {task.id}, task.id, task.dependsOn);
    forall t, d | (t in tasks || t == task) && d in t.dependsOn ensures d in Scope(after, t.project) {
      if t == task { DirectDependencies(tasks, task, d); }
      assert d in Scope(tasks, t.project);
    }
  }

  lemma GraphAfter(tasks: seq<Task>, task: Task, after: seq<Task>)
    requires forall id :: FindTask(after, id) == if id == task.id then Some(task) else FindTask(tasks, id)
    ensures GraphOf(after) == GraphOf(tasks)[task.id := task.dependsOn]
  {
  }

  lemma FindTaskUpdate(tasks: seq<Task>, i: nat, task: Task, id: string)
    requires UniqueTaskIds(tasks) && i < |tasks| && task.id == tasks[i].id
    ensures FindTask(tasks[i := task], id) == if id == task.id then Some(task) else FindTask(tasks, id)
  {
    var after := tasks[i := task];
    if id == task.id {
      FindTaskAt(after, i);
    } else if k :| 0 <= k < |tasks| && tasks[k].id == id {
      FindTaskAt(tasks, k);
      FindTaskAt(after, k);
    } else {
      assert forall k | 0 <= k < |after| :: after[k].id == tasks[k].id;
    }
  }

  /** ... or a new contract for a stored task of the same project. */
  lemma EditKeepsSound(tasks: seq<Task>, i: nat, task: Task)
    requires SoundBoard(tasks) && i < |tasks|
    requires task.id == tasks[i].id && task.project == tasks[i].project && DependenciesSound(tasks, task)
    ensures SoundBoard(tasks[i := task])
  {
    var after := tasks[i := task];
    FindTaskAt(tasks, i);
    forall id ensures FindTask(after, id) == if id == task.id then Some(task) else FindTask(tasks, id) {
      FindTaskUpdate(tasks, i, task, id);
    }
    StoredContract(tasks, task, after);
  }

  /** On a sound board every stored task would pass its dependency check again. */
  lemma SoundBoardRevalidates(tasks: seq<Task>, task: Task)
    requires SoundBoard(tasks) && task in tasks
    ensures DependenciesSound(tasks, task)
  {
    var g := GraphOf(tasks);
    FindMember(tasks, task);
    assert g[task.id := task.dependsOn] == g;
    forall v | Reaches(g, task.id, v) ensures v in Scope(tasks, task.project) + {task.id} {
      var p :| Joins(g, p, task.id, v);
      PathStaysInProject(tasks, task, p);
    }
  }

  lemma {:induction false} PathStaysInProject(tasks: seq<Task>, task: Task, p: seq<string>)
    requires SoundBoard(tasks) && task in tasks
    requires Path(GraphOf(tasks), p) && p[0] == task.id
    ensures p[|p|-1] in Scope(tasks, task.project)
  {
    FindMember(tasks, task);
    if |p| > 1 {
      var q := p[..|p|-1];
      PathStaysInProject(tasks, task, q);
      var from := FindTask(tasks, q[|q|-1]).value;
      assert p[|p|-1] in from.dependsOn;
    }
  }

  /** A new task on a sound board can only go wrong at its own dependencies: its contract
      check is that they are tasks of its project. */
  lemma FreshContract(tasks: seq<Task>, task: Task)
    requires SoundBoard(tasks) && task.id !in Ids(tasks)
    ensures DependenciesSound(tasks, task) <==> forall d | d in task.dependsOn :: d in Scope(tasks, task.project)
  {
    var g, scope := GraphOf(tasks), Scope(tasks, task.project);
    if DependenciesSound(tasks, task) {
      forall d | d in task.dependsOn ensures d in scope {
        DirectDependencies(tasks, task, d);
      }
    }
    if forall d | d in task.dependsOn :: d in scope {
      forall d, v | d in task.dependsOn && Reaches(g, d, v) ensures v in scope && v !in {task.id} && !OnCycle(g, v) {
        var p :| Joins(g, p, d, v);
        PathStaysInProject(tasks, FindTask(tasks, d).value, p);
      }
      NewEdgesSound(g, scope, task.id, task.dependsOn);
    }
  }

  // ---------------------------------------------------------------- operations

  /** The stored form of a task raised now: human work is dispatched at once, agent work
      waits for approval. */
  function Raised(id: string, project: string, origin: Origin, milestone: string,
                  dependsOn: seq<string>, command: seq<string>): Task
  {
    Task(id, project, milestone, dependsOn, command, "", false, 0, "", origin, Planned,
         if origin.Agent? then AwaitingApproval else Ready, "", false, "plan",
         if origin.Agent? then 2 else 1)
  }

  ghost predicate CreateAllowed(projects: seq<Project>, tasks: seq<Task>, title: string, task: Task) {
    && task.project != "" && FindProject(projects, task.project).Some? && !Blank(title)
    && ContractHolds(projects, tasks, task)
  }

  predicate NoneBlank(titles: seq<string>) {
    forall i | 0 <= i < |titles| :: !Blank(titles[i])
  }

  predicate BranchesAllowed(projects: seq<Project>, tasks: seq<Task>, parentId: string, titles: seq<string>) {
    && titles != [] && FindTask(tasks, parentId).Some?
    && FindProject(projects, FindTask(tasks, parentId).value.project).Some?
    && NoneBlank(titles)
  }

  /** A parent that is being worked on gets parallel lanes instead of followers. */
  function Branch(parent: Task, id: string): Task {
    Raised(id, parent.project, Human, "",
           if parent.dispatch != Claimed && parent.state != Running then [parent.id] else [], [])
  }

  function Branches(parent: Task, ids: seq<string>): seq<Task> {
    seq(|ids|, i requires 0 <= i < |ids| => Branch(parent, ids[i]))
  }

  /** All of them are done, in one project. */
  predicate SourcesDone(tasks: seq<Task>, sources: seq<string>) {
    && sources != [] && FindTask(tasks, sources[0]).Some?
    && forall k | 0 <= k < |sources| ::
         FindTask(tasks, sources[k]).Some? && FindTask(tasks, sources[k]).value.dispatch == Done
           && FindTask(tasks, sources[k]).value.project == FindTask(tasks, sources[0]).value.project
  }

  predicate ComposeAllowed(projects: seq<Project>, tasks: seq<Task>, sources: seq<string>, title: string) {
    SourcesDone(tasks, sources) && FindProject(projects, FindTask(tasks, sources[0]).value.project).Some?
      && !Blank(title)
  }

  function Composed(tasks: seq<Task>, id: string, sources: seq<string>): Task
    requires sources != [] && FindTask(tasks, sources[0]).Some?
  {
    Raised(id, FindTask(tasks, sources[0]).value.project, Human, "", sources, [])
  }

  lemma ComposedIsSound(tasks: seq<Task>, id: string, sources: seq<string>)
    requires SoundBoard(tasks) && id !in Ids(tasks) && SourcesDone(tasks, sources)
    ensures DependenciesSound(tasks, Composed(tasks, id, sources)) && Composed(tasks, id, sources).project != ""
  {
    FreshContract(tasks, Composed(tasks, id, sources));
  }

  /** The new contract of a task; the task has to be dispatched and verified anew. */
  datatype NewTerms = NewTerms(command: Option<seq<string>>, dependsOn: Option<seq<string>>, milestone: Option<string>)

  function Edited(t: Task, c: NewTerms): Task {
    t.(command := if c.command.Some? then c.command.value else t.command,
       dependsOn := if c.dependsOn.Some? then c.dependsOn.value else t.dependsOn,
       milestone := if c.milestone.Some? then c.milestone.value else t.milestone,
       dispatch := Undispatched, passed := false, rowVersion := t.rowVersion + 1)
  }

  ghost predicate EditAllowed(projects: seq<Project>, tasks: seq<Task>, id: string, expected: int, byAgent: bool,
                              c: NewTerms) {
    && !byAgent && FindTask(tasks, id).Some?
    && expected == FindTask(tasks, id).value.rowVersion >= 1 && FindTask(tasks, id).value.dispatch != Claimed
    && ContractHolds(projects, tasks, Edited(FindTask(tasks, id).value, c))
  }

  function WithContract(tasks: seq<Task>, id: string, c: NewTerms): seq<Task> {
    seq(|tasks|, i requires 0 <= i < |tasks| => if tasks[i].id == id then Edited(tasks[i], c) else tasks[i])
  }

  /** The ids a transaction makes up are new and distinct. */
  ghost predicate FreshIds(tasks: seq<Task>, ids: seq<string>) {
    && (forall i | 0 <= i < |ids| :: ids[i] !in Ids(tasks))
    && forall i, j | 0 <= i < j < |ids| :: ids[i] != ids[j]
  }

  lemma StillFresh(tasks: seq<Task>, ids: seq<string>, task: Task)
    requires FreshIds(tasks, ids) && ids != [] && task.id == ids[0]
    ensures FreshIds(tasks + [task], ids[1..])
  {
    forall i | 0 <= i < |ids| - 1 ensures ids[1..][i] !in Ids(tasks + [task]) {
      FindTaskAppend(tasks, task, ids[i + 1]);
    }
  }

  /** The first i branches are there, and the other ids are still free. */
  ghost predicate Lanes(before: seq<Task>, parent: Task, ids: seq<string>, i: nat, tasks: seq<Task>)
    requires i <= |ids|
  {
    && FindTask(tasks, parent.id) == Some(parent) && FreshIds(tasks, ids[i..])
    && tasks == before + Branches(parent, ids[..i])
  }

  lemma FirstLane(tasks: seq<Task>, parent: Task, ids: seq<string>)
    requires FindTask(tasks, parent.id) == Some(parent) && FreshIds(tasks, ids)
    ensures Lanes(tasks, parent, ids, 0, tasks)
  {
    assert ids[0..] == ids && tasks + Branches(parent, ids[..0]) == tasks;
  }

  lemma OneMoreLane(before: seq<Task>, parent: Task, ids: seq<string>, i: nat, tasks: seq<Task>)
    requires i < |ids| && Lanes(before, parent, ids, i, tasks)
    ensures ids[i] !in Ids(tasks) && Lanes(before, parent, ids, i + 1, tasks + [Branch(parent, ids[i])])
  {
    assert ids[i..][0] == ids[i] && ids[i..][1..] == ids[i+1..];
    StillFresh(tasks, ids[i..], Branch(parent, ids[i]));
    FindTaskAppend(tasks, Branch(parent, ids[i]), parent.id);
    BranchesOneMore(parent, ids, i);
  }

  lemma OneContract(tasks: seq<Task>, i: nat, c: NewTerms)
    requires UniqueTaskIds(tasks) && i < |tasks|
    ensures WithContract(tasks, tasks[i].id, c) == tasks[i := Edited(tasks[i], c)]
  {
  }

  lemma BranchIsSound(tasks: seq<Task>, parent: Task, id: string)
    requires SoundBoard(tasks) && FindTask(tasks, parent.id) == Some(parent) && id !in Ids(tasks)
    ensures DependenciesSound(tasks, Branch(parent, id))
  {
    FreshContract(tasks, Branch(parent, id));
  }

  lemma BranchesOneMore(parent: Task, ids: seq<string>, i: nat)
    requires i < |ids|
    ensures Branches(parent, ids[..i+1]) == Branches(parent, ids[..i]) + [Branch(parent, ids[i])]
  {
  }

  /** The tasks and projects of one document, with the operations that create tasks and edit
      contracts. A refused operation leaves the document as it was. */
  class Board {
    var projects: seq<Project>
    var tasks: seq<Task>

    ghost predicate Valid()
      reads this
    {
      SoundBoard(tasks)
    }

    constructor (projects: seq<Project>)
      ensures Valid() && tasks == [] && this.projects == projects
    {
      this.projects, this.tasks := projects, [];
      new;
      forall v ensures !OnCycle(GraphOf([]), v) {
        CycleLeavesByAnEdge(GraphOf([]), v);
      }
    }

    method CreateTask(id: string, project: string, title: string, origin: Origin, milestone: string,
                      dependsOn: seq<string>, command: seq<string>) returns (r: Outcome)
      requires Valid() && id !in Ids(tasks)
      modifies this`tasks
      ensures Valid()
      ensures r.Accepted? <==>
              CreateAllowed(projects, old(tasks), title, Raised(id, project, origin, milestone, dependsOn, command))
      ensures tasks == if r.Accepted?
                       then old(tasks) + [Raised(id, project, origin, milestone, dependsOn, command)]
                       else old(tasks)
    {
      if project == "" || FindProject(projects, project).None? {
        return Rejected(Invalid);
      }
      if Blank(title) {
        return Rejected(Invalid);
      }
      var task := Raised(id, project, origin, milestone, dependsOn, command);
      r := ValidateTaskContract(projects, tasks, task);
      if r.Accepted? {
        AddKeepsSound(tasks, task);
        tasks := tasks + [task];
      }
    }

    /** The next child of the parent. */
    method CreateBranch(ghost before: seq<Task>, parent: Task, title: string, ids: seq<string>, i: nat)
      returns (r: Outcome)
      requires Valid() && i < |ids| && Lanes(before, parent, ids, i, tasks)
      modifies this`tasks
      ensures r.Accepted? <==> FindProject(projects, parent.project).Some? && !Blank(title)
      ensures r.Accepted? ==> Valid() && Lanes(before, parent, ids, i + 1, tasks)
    {
      OneMoreLane(before, parent, ids, i, tasks);
      BranchIsSound(tasks, parent, ids[i]);
      r := CreateTask(ids[i], parent.project, title, Human, "", Branch(parent, ids[i]).dependsOn, []);
    }

    /** One child after the other, up to a refusal. */
    method CreateLanes(parent: Task, titles: seq<string>, ids: seq<string>) returns (r: Outcome)
      requires Valid() && FindTask(tasks, parent.id) == Some(parent) && FreshIds(tasks, ids)
      requires |ids| == |titles| > 0
      modifies this`tasks
      ensures r.Accepted? <==> FindProject(projects, parent.project).Some? && NoneBlank(titles)
      ensures r.Accepted? ==> Valid() && tasks == old(tasks) + Branches(parent, ids)
    {
      FirstLane(tasks, parent, ids);
      for i := 0 to |titles|
        invariant Valid() && Lanes(old(tasks), parent, ids, i, tasks)
        invariant i > 0 ==> FindProject(projects, parent.project).Some? && NoneBlank(titles[..i])
      {
        r := CreateBranch(old(tasks), parent, titles[i], ids, i);
        if r.Rejected? {
          return;
        }
        assert titles[..i+1] == titles[..i] + [titles[i]];
      }
      assert ids[..|titles|] == ids && titles[..|titles|] == titles;
      return Accepted;
    }

    /** Derives children of a parent, all or none. */
    method CreateBranches(parentId: string, titles: seq<string>, ids: seq<string>) returns (r: Outcome)
      requires Valid() && FreshIds(tasks, ids) && |ids| == |titles|
      modifies this`tasks
      ensures Valid()
      ensures r.Accepted? <==> BranchesAllowed(projects, old(tasks), parentId, titles)
      ensures tasks == if r.Accepted?
                       then old(tasks) + Branches(FindTask(old(tasks), parentId).value, ids)
                       else old(tasks)
    {
      if titles == [] {
        return Rejected(Invalid);
      }
      var parent := FindTask(tasks, parentId);
      if parent.None? {
        return Rejected(NotFound);
      }
      var before := tasks;
      r := CreateLanes(parent.value, titles, ids);
      if r.Rejected? {
        tasks := before;
      }
    }

    /** The common project of finished tasks. */
    method CommonProject(sources: seq<string>) returns (r: Outcome, project: string)
      requires Valid() && sources != []
      ensures r.Accepted? <==> SourcesDone(tasks, sources)
      ensures r.Accepted? ==> project == FindTask(tasks, sources[0]).value.project
    {
      project := "";
      for i := 0 to |sources|
        invariant forall k | 0 <= k < i ::
          FindTask(tasks, sources[k]).Some? && FindTask(tasks, sources[k]).value.dispatch == Done
            && FindTask(tasks, sources[k]).value.project == project
        invariant project == "" <==> i == 0
      {
        var source := FindTask(tasks, sources[i]);
        if source.None? {
          return Rejected(NotFound), project;
        }
        if source.value.dispatch != Done {
          return Rejected(Invalid), project;
        }
        if project == "" {
          project := source.value.project;
        } else if source.value.project != project {
          return Rejected(Invalid), project;
        }
      }
      return Accepted, project;
    }

    /** A synthesis task depending on finished tasks of one project. */
    method ComposeTask(id: string, sources: seq<string>, title: string) returns (r: Outcome)
      requires Valid() && id !in Ids(tasks)
      modifies this`tasks
      ensures Valid()
      ensures r.Accepted? <==> ComposeAllowed(projects, old(tasks), sources, title)
      ensures tasks == if r.Accepted? then old(tasks) + [Composed(old(tasks), id, sources)] else old(tasks)
    {
      if sources == [] {
        return Rejected(Invalid);
      }
      var project;
      r, project := CommonProject(sources);
      if r.Rejected? {
        return;
      }
      ComposedIsSound(tasks, id, sources);
      r := CreateTask(id, project, title, Human, "", sources, []);
    }

    /** Replaces command, dependencies or milestone of a task that nobody is executing. */
    method EditContract(id: string, expectedVersion: int, byAgent: bool, c: NewTerms) returns (r: Outcome)
      requires Valid() && (c.command.Some? || c.dependsOn.Some? || c.milestone.Some?)
      modifies this`tasks
      ensures Valid()
      ensures r.Accepted? <==> EditAllowed(projects, old(tasks), id, expectedVersion, byAgent, c)
      ensures tasks == if r.Accepted? then WithContract(old(tasks), id, c) else old(tasks)
    {
      if !byAgent && expectedVersion < 1 {
        return Rejected(Invalid);
      }
      for i := 0 to |tasks|
        invariant tasks == old(tasks)
        invariant forall k | 0 <= k < i :: tasks[k].id != id
      {
        if tasks[i].id == id {
          FindTaskAt(tasks, i);
          if !byAgent && expectedVersion != tasks[i].rowVersion {
            return Rejected(Conflict);
          }
          if byAgent || tasks[i].dispatch == Claimed {
            return Rejected(Closed);
          }
          var task := Edited(tasks[i], c);
          r := ValidateTaskContract(projects, tasks, task);
          if r.Accepted? {
            EditKeepsSound(tasks, i, task);
            OneContract(tasks, i, c);
            tasks := tasks[i := task];
          }
          return;
        }
      }
      return Rejected(NotFound);
    }
  }
}
