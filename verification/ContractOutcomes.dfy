/** What the contract of a task promises, in terms of the stored tasks alone, and what the tasks
    that the server makes by itself look like. */
module ContractOutcomes {
  import opened Basics
  import opened ProjectState
  import opened DependencyGraph
  import opened TaskContract

  /** What a task depends on once the contract is in force. */
  function Needs(tasks: seq<Task>, task: Task, id: string): seq<string> {
    if id == task.id then task.dependsOn
    else if FindTask(tasks, id).Some? then FindTask(tasks, id).value.dependsOn else []
  }

  /** From the task to something it depends on, to something that depends on, and so on. */
  ghost predicate Walk(tasks: seq<Task>, task: Task, p: seq<string>) {
    |p| > 0 && p[0] == task.id && forall k | 0 <= k < |p| - 1 :: p[k+1] in Needs(tasks, task, p[k])
  }

  /** No walk comes twice to the same task, and all lead to stored tasks of the project. */
  ghost predicate WalksEnd(tasks: seq<Task>, task: Task) {
    forall p | Walk(tasks, task, p) ::
      && (forall i, j | 0 <= i < j < |p| :: p[i] != p[j])
      && (|p| > 1 ==> FindTask(tasks, p[|p|-1]).Some? && FindTask(tasks, p[|p|-1]).value.project == task.project)
  }

  lemma WalkIsPath(tasks: seq<Task>, task: Task, p: seq<string>)
    ensures Walk(tasks, task, p) <==>
            Path(GraphOf(tasks)[task.id := task.dependsOn], p) && p[0] == task.id
  {
    var h := GraphOf(tasks)[task.id := task.dependsOn];
    if Walk(tasks, task, p) {
      forall k | 0 <= k < |p| - 1 ensures p[k] in h && p[k+1] in h[p[k]] {
        assert p[k+1] in Needs(tasks, task, p[k]);
      }
    }
    if Path(h, p) && p[0] == task.id {
      forall k | 0 <= k < |p| - 1 ensures p[k+1] in Needs(tasks, task, p[k]) {
        assert p[k] in h && p[k+1] in h[p[k]];
      }
    }
  }

  /** A path that comes twice to the same place has been on a cycle, ... */
  lemma RepeatIsCycle(h: Graph, p: seq<string>, i: nat, j: nat)
    requires Path(h, p) && i < j < |p| && p[i] == p[j]
    ensures Reaches(h, p[0], p[i]) && OnCycle(h, p[i])
  {
    assert Joins(h, p[..i+1], p[0], p[i]);
    var c := p[i..j+1];
    assert Joins(h, c, p[i], p[i]) && |c| > 1;
  }

  /** ... and a way to a cycle goes on to come there twice. */
  lemma CycleRepeats(h: Graph, a: string, v: string) returns (q: seq<string>, i: nat, j: nat)
    requires Reaches(h, a, v) && OnCycle(h, v)
    ensures Path(h, q) && q[0] == a && i < j < |q| && q[i] == q[j]
  {
    var p :| Joins(h, p, a, v);
    var c :| Joins(h, c, v, v) && |c| > 1;
    JoinPaths(h, p, c, a, v, v);
    q, i, j := p + c[1..], |p| - 1, |p| + |c| - 2;
    assert q[i] == p[|p|-1] && q[j] == c[1..][|c|-2];
  }

  lemma SoundWalk(tasks: seq<Task>, task: Task, p: seq<string>)
    requires DependenciesSound(tasks, task) && Walk(tasks, task, p)
    ensures forall i, j | 0 <= i < j < |p| :: p[i] != p[j]
    ensures |p| > 1 ==> FindTask(tasks, p[|p|-1]).Some? && FindTask(tasks, p[|p|-1]).value.project == task.project
  {
    var h := GraphOf(tasks)[task.id := task.dependsOn];
    WalkIsPath(tasks, task, p);
    forall i, j | 0 <= i < j < |p| ensures p[i] != p[j] {
      if p[i] == p[j] {
        RepeatIsCycle(h, p, i, j);
      }
    }
    assert Joins(h, p, task.id, p[|p|-1]);
    assert Reaches(h, task.id, p[|p|-1]);
    if |p| > 1 {
      assert p[0] != p[|p|-1];
      assert p[|p|-1] in Scope(tasks, task.project);
    }
  }

  lemma WalksAreSound(tasks: seq<Task>, task: Task, v: string)
    requires WalksEnd(tasks, task) && Reaches(GraphOf(tasks)[task.id := task.dependsOn], task.id, v)
    ensures v in Scope(tasks, task.project) + {task.id}
    ensures !OnCycle(GraphOf(tasks)[task.id := task.dependsOn], v)
  {
    var h := GraphOf(tasks)[task.id := task.dependsOn];
    var p :| Joins(h, p, task.id, v);
    WalkIsPath(tasks, task, p);
    if OnCycle(h, v) {
      var q, i, j := CycleRepeats(h, task.id, v);
      WalkIsPath(tasks, task, q);
    }
  }

  predicate Written(s: string) {
    exists k :: 0 <= k < |s| && s[k] != ' ' && s[k] != '\t' && s[k] != '\n' && s[k] != '\r'
  }

  /** A contract stands when its command, if it has one, names a program, its milestone, if it
      has one, is one of the project's, and every walk along its dependencies ends. */
  lemma ContractStands(projects: seq<Project>, tasks: seq<Task>, task: Task)
    ensures ContractHolds(projects, tasks, task) <==>
      && (|task.command| > 0 ==> Written(task.command[0]))
      && (task.milestone != "" ==>
           && FindProject(projects, task.project).Some?
           && exists m :: m in FindProject(projects, task.project).value.milestones && m.id == task.milestone)
      && WalksEnd(tasks, task)
  {
    if DependenciesSound(tasks, task) {
      forall p | Walk(tasks, task, p) {
        SoundWalk(tasks, task, p);
      }
    }
    if WalksEnd(tasks, task) {
      forall v | Reaches(GraphOf(tasks)[task.id := task.dependsOn], task.id, v) {
        WalksAreSound(tasks, task, v);
      }
    }
  }

  // ---------------------------------------------------------------- tasks made by the server

  /** A task as the server makes it: planned, at once ready, with nothing recorded yet. */
  predicate Plain(t: Task, id: string, project: string, dependsOn: seq<string>) {
    t == Task(id, project, "", dependsOn, [], "", false, 0, "", Human, Planned, Ready, "", false, "plan", 1)
  }

  /** A branch waits for its parent, unless the parent is being worked on already. */
  lemma BranchMeans(parent: Task, id: string)
    ensures Plain(Branch(parent, id), id, parent.project,
                  if parent.dispatch == Claimed || parent.state == TaskState.Running then [] else [parent.id])
  {
  }

  /** A composed task waits for its sources, which are all done and in its project. */
  lemma ComposedMeans(projects: seq<Project>, tasks: seq<Task>, id: string, sources: seq<string>, title: string)
    ensures ComposeAllowed(projects, tasks, sources, title) <==>
      && |sources| > 0 && Written(title) && FindTask(tasks, sources[0]).Some?
      && var project := FindTask(tasks, sources[0]).value.project;
        && FindProject(projects, project).Some?
        && forall d | d in sources ::
             FindTask(tasks, d).Some? && FindTask(tasks, d).value.dispatch == Done
               && FindTask(tasks, d).value.project == project
    ensures ComposeAllowed(projects, tasks, sources, title) ==>
      Plain(Composed(tasks, id, sources), id, FindTask(tasks, sources[0]).value.project, sources)
  {
    assert forall k | 0 <= k < |sources| :: sources[k] in sources;
  }

  // ---------------------------------------------------------------- edits

  /** The task with the new terms, waiting to be dispatched and verified anew. */
  predicate EditedTo(t: Task, c: NewTerms, u: Task) {
    && u.command == (if c.command.Some? then c.command.value else t.command)
    && u.dependsOn == (if c.dependsOn.Some? then c.dependsOn.value else t.dependsOn)
    && u.milestone == (if c.milestone.Some? then c.milestone.value else t.milestone)
    && u.dispatch == Undispatched && !u.passed && u.rowVersion == t.rowVersion + 1
    && t == u.(command := t.command, dependsOn := t.dependsOn, milestone := t.milestone, dispatch := t.dispatch,
               passed := t.passed, rowVersion := t.rowVersion)
  }

  /** A contract is edited by a person, at the current version, while nobody works on the task, and
      only to one that stands. */
  lemma EditMeans(projects: seq<Project>, tasks: seq<Task>, i: nat, expected: int, byAgent: bool, c: NewTerms, u: Task)
    requires UniqueTaskIds(tasks) && i < |tasks| && EditedTo(tasks[i], c, u)
    ensures EditAllowed(projects, tasks, tasks[i].id, expected, byAgent, c) <==>
            !byAgent && expected == tasks[i].rowVersion && expected > 0 && tasks[i].dispatch != Claimed
              && ContractHolds(projects, tasks, u)
    ensures WithContract(tasks, tasks[i].id, c) == tasks[i := u]
  {
    FindTaskAt(tasks, i);
    OneContract(tasks, i, c);
    assert u == Edited(tasks[i], c);
  }
}
