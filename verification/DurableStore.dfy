/** Saving a document so that a crash leaves the old one or the new one: a log entry, a backup,
    the document, each written to a temporary file and renamed, and a load that finishes or
    forgets an interrupted save and cuts off the tool runs that cannot be going any more. */
module DurableStore {
  import opened Basics

  datatype Cause = NoStart | Restarted | TimedOut

  datatype RunState = Going | Over | CutOff(cause: Cause)

  /** A tool run of the document; start is None when its start time is missing or no time. With
      a run that is cut off go the new version of its task and the event that says so. */
  datatype Run = Run(start: Option<int>, state: RunState)

  /** A stored document. stamp is its update time, None when it cannot be read as a time; tidy
      says whether it is in canonical form. */
  datatype Snapshot = Snapshot(stamp: Option<int>, data: string, tidy: bool, runs: seq<Run>)

  datatype File = Main | Log | Backup

  /** A temporary file is torn until all of it is written. */
  datatype Temp = Torn | Full(content: Snapshot)

  datatype Disk = Disk(files: map<File, Snapshot>, temps: map<File, Temp>, legacy: Option<Snapshot>)

  predicate Prefer(candidate: Snapshot, current: Snapshot) {
    match (candidate.stamp, current.stamp)
    case (Some(a), Some(b)) => b <= a
    case (Some(_), None) => true
    case (None, Some(_)) => false
    case (None, None) => true
  }

  predicate LogWins(d: Disk) {
    Log in d.files && (Main !in d.files || Prefer(d.files[Log], d.files[Main]))
  }

  /** The document a load finds. */
  function View(d: Disk): Option<Snapshot> {
    if LogWins(d) then Some(d.files[Log])
    else if Main in d.files then Some(d.files[Main])
    else d.legacy
  }

  // ---------------------------------------------------------------- primitive steps

  datatype Action = Open(file: File) | Fill(file: File, content: Snapshot) | Rename(file: File) | Remove(file: File)

  function Do(d: Disk, a: Action): Disk {
    match a
    case Open(f) => d.(temps := d.temps[f := Torn])
    case Fill(f, x) => d.(temps := d.temps[f := Full(x)])
    case Rename(f) =>
      if f in d.temps && d.temps[f].Full? then Disk(d.files[f := d.temps[f].content], d.temps - {f}, d.legacy) else d
    case Remove(f) => d.(files := d.files - {f})
  }

  function DoAll(d: Disk, script: seq<Action>): Disk {
    if script == [] then d else Do(DoAll(d, script[..|script|-1]), script[|script|-1])
  }

  function WriteScript(f: File, x: Snapshot): seq<Action> {
    [Open(f), Fill(f, x), Rename(f)]
  }

  /** A whole save: the log entry, a backup of the document there is, the document, and the
      log entry goes. */
  function SaveScript(main: Option<Snapshot>, x: Snapshot): seq<Action> {
    WriteScript(Log, x) + (if main.Some? then WriteScript(Backup, main.value)
      else []) + WriteScript(Main, x) + [Remove(Log)]
  }

  function MainOf(d: Disk): Option<Snapshot> {
    if Main in d.files then Some(d.files[Main]) else None
  }

  /** What is left of a save cut after n primitive steps; temporary files do not matter. */
  function SaveCut(d: Disk, x: Snapshot, n: nat): Disk
    requires n <= |SaveScript(MainOf(d), x)|
  {
    DoAll(d, SaveScript(MainOf(d), x)[..n])
  }

  /** Where in the script the log entry and the document have been renamed. */
  const LOGGED := 3

  function Stored(d: Disk): nat {
    if Main in d.files then 9 else 6
  }

  predicate SameFiles(a: Disk, b: Disk) {
    a.files == b.files && a.legacy == b.legacy
  }

  lemma DoMore(d: Disk, script: seq<Action>, n: nat)
    requires n < |script|
    ensures DoAll(d, script[..n+1]) == Do(DoAll(d, script[..n]), script[n])
  {
    assert script[..n+1][..n] == script[..n];
  }

  /** The files after each of the steps of a save. */
  lemma CutFiles(d: Disk, x: Snapshot, n: nat)
    requires n <= |SaveScript(MainOf(d), x)|
    ensures var after := SaveCut(d, x, n);
      && |SaveScript(MainOf(d), x)| == Stored(d) + 1 && after.legacy == d.legacy
      && (n < LOGGED ==> after.files == d.files)
      && (LOGGED <= n ==> (Log in after.files <==> n <= Stored(d)) && (Log in after.files ==> after.files[Log] == x))
      && (n < Stored(d) ==> MainOf(after) == MainOf(d))
      && (Stored(d) <= n ==> MainOf(after) == Some(x))
  {
    CutSteps(d, x, n);
  }

  /** The step at a place: three for the log entry, three for a backup if there is a document,
      three for the document, and the removal. */
  lemma StepAt(main: Option<Snapshot>, x: Snapshot, k: nat)
    requires k < |SaveScript(main, x)|
    ensures var n := if main.Some? then 6 else 3;
      && |SaveScript(main, x)| == n + 4
      && (k < 3 ==> SaveScript(main, x)[k] == WriteScript(Log, x)[k])
      && (3 <= k < n ==> SaveScript(main, x)[k].file == Backup)
      && (n <= k < n + 3 ==> SaveScript(main, x)[k] == WriteScript(Main, x)[k - n])
      && (k == n + 3 ==> SaveScript(main, x)[k] == Remove(Log))
  {
  }

  /** The same, with the temporary file that the next step relies on. */
  lemma {:induction false} CutSteps(d: Disk, x: Snapshot, n: nat)
    requires n <= |SaveScript(MainOf(d), x)|
    ensures var after := SaveCut(d, x, n);
      && after.legacy == d.legacy
      && (n < LOGGED ==> after.files == d.files)
      && (LOGGED <= n ==> (Log in after.files <==> n <= Stored(d)) && (Log in after.files ==> after.files[Log] == x))
      && (n < Stored(d) ==> MainOf(after) == MainOf(d))
      && (Stored(d) <= n ==> MainOf(after) == Some(x))
      && (n == 2 ==> Log in after.temps && after.temps[Log] == Full(x))
      && (n == Stored(d) - 1 ==> Main in after.temps && after.temps[Main] == Full(x))
  {
    if n > 0 {
      CutSteps(d, x, n - 1);
      DoMore(d, SaveScript(MainOf(d), x), n - 1);
      StepAt(MainOf(d), x, n - 1);
    }
  }

  // ---------------------------------------------------------------- saves

  /** What makes a save safe at its only delicate point, the log entry without the document:
      the entry wins over the document there is, or that document is what was in force. */
  predicate SafeToSave(d: Disk, x: Snapshot) {
    Main in d.files ==> Prefer(x, d.files[Main]) || View(d) == Some(d.files[Main]) || d.files[Main] == x
  }

  /** A save cut anywhere leaves the document in force or the new one, never a mix, exactly
      when it was safe; and a completed save leaves the new one. */
  lemma CutSaveIsAtomic(d: Disk, x: Snapshot)
    ensures SafeToSave(d, x) <==>
            forall n | 0 <= n <= |SaveScript(MainOf(d), x)| :: View(SaveCut(d, x, n)) in {View(d), Some(x)}
    ensures View(SaveCut(d, x, |SaveScript(MainOf(d), x)|)) == Some(x)
  {
    var last := |SaveScript(MainOf(d), x)|;
    CutFiles(d, x, last);
    CutFiles(d, x, LOGGED);
    assert View(SaveCut(d, x, LOGGED)) in {View(d), Some(x)} ==> SafeToSave(d, x);
    if SafeToSave(d, x) {
      forall n | 0 <= n <= last ensures View(SaveCut(d, x, n)) in {View(d), Some(x)} {
        CutFiles(d, x, n);
      }
    }
  }

  /** A save is safe when it is not older than the document in force. */
  predicate NotOlder(x: Snapshot, d: Disk) {
    View(d).Some? ==> Prefer(x, View(d).value)
  }

  lemma NotOlderIsSafe(d: Disk, x: Snapshot)
    requires NotOlder(x, d)
    ensures SafeToSave(d, x)
  {
  }

  /** The one bad case: the clock has gone back, and an interrupted save is still waiting in
      the log. The save loses it and leaves a document older than both. */
  lemma LostLogEntry(older: Snapshot, logged: Snapshot, x: Snapshot)
    requires older != logged && older != x && Prefer(logged, older) && !Prefer(x, older)
    ensures var d := Disk(map[Main := older, Log := logged], map[], None);
      View(d) == Some(logged) && LOGGED <= |SaveScript(MainOf(d), x)| && View(SaveCut(d, x, LOGGED)) == Some(older)
  {
    CutFiles(Disk(map[Main := older, Log := logged], map[], None), x, LOGGED);
  }

  // ---------------------------------------------------------------- recovery

  /** Times are in nanoseconds. */
  const SECOND := 1_000_000_000
  const WINDOW := 150 * SECOND

  /** Why a run that is going cannot be: boot is the start of the process, cut to a second. */
  function CauseOf(start: Option<int>, now: int, boot: int): Option<Cause> {
    if start.None? then Some(NoStart)
    else if start.value < boot - SECOND then Some(Restarted)
    else if now > start.value + WINDOW then Some(TimedOut)
    else None
  }

  predicate Interrupted(r: Run, now: int, boot: int) {
    r.state == Going && CauseOf(r.start, now, boot).Some?
  }

  function RecoveredRun(r: Run, now: int, boot: int): Run {
    if Interrupted(r, now, boot) then r.(state := CutOff(CauseOf(r.start, now, boot).value)) else r
  }

  function Recovered(runs: seq<Run>, now: int, boot: int): seq<Run> {
    seq(|runs|, i requires 0 <= i < |runs| => RecoveredRun(runs[i], now, boot))
  }

  predicate AnyInterrupted(runs: seq<Run>, now: int, boot: int) {
    exists i | 0 <= i < |runs| :: Interrupted(runs[i], now, boot)
  }

  /** The document with some of its runs cut off, and nothing else new. */
  ghost predicate Descends(x: Snapshot, y: Snapshot) {
    && y.data == x.data && |y.runs| == |x.runs|
    && forall i | 0 <= i < |x.runs| ::
         y.runs[i] == x.runs[i]
           || (x.runs[i].state == Going && y.runs[i].state.CutOff? && y.runs[i].start == x.runs[i].start)
  }

  // ---------------------------------------------------------------- loads

  /** The project store recovers interrupted runs and rewrites what is not in canonical form;
      the workspace store only puts what it returns in canonical form. */
  datatype Flavour = ProjectFlavour | WorkspaceFlavour

  predicate Recovers(x: Snapshot, now: int, boot: int, flavour: Flavour) {
    flavour == ProjectFlavour && AnyInterrupted(x.runs, now, boot)
  }

  function Settle(x: Snapshot, now: int, boot: int, flavour: Flavour): Snapshot {
    if Recovers(x, now, boot, flavour) then Snapshot(Some(now), x.data, true, Recovered(x.runs, now, boot))
    else x.(tidy := true)
  }

  function Loaded(d: Disk, now: int, boot: int, flavour: Flavour): Option<Snapshot> {
    if View(d).None? then None else Some(Settle(View(d).value, now, boot, flavour))
  }

  predicate NeedsSave(d: Disk, now: int, boot: int, flavour: Flavour) {
    || LogWins(d) || Main !in d.files
    || (flavour == ProjectFlavour && !d.files[Main].tidy) || Recovers(d.files[Main], now, boot, flavour)
  }

  /** The steps of a load that writes: finish the save, or drop a stale log entry. */
  function LoadScript(d: Disk, now: int, boot: int, flavour: Flavour): seq<Action> {
    if View(d).None? then []
    else if NeedsSave(d, now, boot, flavour) then SaveScript(MainOf(d), Settle(View(d).value, now, boot, flavour))
    else if Log in d.files then [Remove(Log)] else []
  }

  function LoadCut(d: Disk, now: int, boot: int, flavour: Flavour, n: nat): Disk
    requires n <= |LoadScript(d, now, boot, flavour)|
  {
    DoAll(d, LoadScript(d, now, boot, flavour)[..n])
  }

  /** The disk after a load that runs to its end. */
  function Settled(d: Disk, now: int, boot: int, flavour: Flavour): Disk {
    LoadCut(d, now, boot, flavour, |LoadScript(d, now, boot, flavour)|)
  }

  /** The clock of the load is not behind the document in force, if a recovery uses it. */
  predicate LoadInTime(d: Disk, now: int, flavour: Flavour) {
    flavour == WorkspaceFlavour || StampedBy(d, now)
  }

  predicate StampedBy(d: Disk, now: int) {
    View(d).Some? && View(d).value.stamp.Some? ==> View(d).value.stamp.value <= now
  }

  lemma SettleDescends(x: Snapshot, now: int, boot: int, flavour: Flavour)
    ensures Descends(x, Settle(x, now, boot, flavour))
  {
  }

  lemma SettleIsSafe(d: Disk, now: int, boot: int, flavour: Flavour)
    requires View(d).Some? && LoadInTime(d, now, flavour)
    ensures SafeToSave(d, Settle(View(d).value, now, boot, flavour))
  {
    NotOlderIsSafe(d, Settle(View(d).value, now, boot, flavour));
  }

  /** A load cut anywhere leaves the document in force, recovered or not. */
  lemma CutLoadKeeps(d: Disk, now: int, boot: int, flavour: Flavour, n: nat)
    requires LoadInTime(d, now, flavour) && n <= |LoadScript(d, now, boot, flavour)|
    ensures View(LoadCut(d, now, boot, flavour, n)) in {View(d), Loaded(d, now, boot, flavour)}
    ensures LoadInTime(LoadCut(d, now, boot, flavour, n), now, flavour)
  {
    var script := LoadScript(d, now, boot, flavour);
    if View(d).Some? && NeedsSave(d, now, boot, flavour) {
      var x := Settle(View(d).value, now, boot, flavour);
      SettleIsSafe(d, now, boot, flavour);
      CutSaveIsAtomic(d, x);
      assert View(SaveCut(d, x, n)) in {View(d), Some(x)};
    } else if n == 1 {
      assert script[..1] == [Remove(Log)] && [Remove(Log)][..0] == [];
      assert LoadCut(d, now, boot, flavour, n) == Do(DoAll(d, []), Remove(Log));
    }
  }

  /** After a load that runs to its end the document in force is the one it returned, but for
      the form of a workspace document that did not have to be written. */
  lemma FinishedLoad(d: Disk, now: int, boot: int, flavour: Flavour)
    requires LoadInTime(d, now, flavour) && View(d).Some?
    ensures var after := Settled(d, now, boot, flavour);
      View(after).Some? && View(after).value.(tidy := true) == Loaded(d, now, boot, flavour).value
  {
    var script := LoadScript(d, now, boot, flavour);
    CutLoadKeeps(d, now, boot, flavour, |script|);
    assert script[..|script|] == script;
    if NeedsSave(d, now, boot, flavour) {
      CutSaveIsAtomic(d, Settle(View(d).value, now, boot, flavour));
    }
  }

  // ---------------------------------------------------------------- runs

  /** One call and the number of primitive steps it gets before the crash. A load has the time
      of the call and the start of the process. */
  datatype Call = Save(x: Snapshot, steps: nat) | Load(at: int, boot: int, steps: nat)

  function Script(d: Disk, c: Call, flavour: Flavour): seq<Action> {
    match c
    case Save(x, _) => SaveScript(MainOf(d), x)
    case Load(at, boot, _) => LoadScript(d, at, boot, flavour)
  }

  function Steps(d: Disk, c: Call, flavour: Flavour): (n: nat)
    ensures n <= |Script(d, c, flavour)|
  {
    if c.steps < |Script(d, c, flavour)| then c.steps else |Script(d, c, flavour)|
  }

  function Called(d: Disk, c: Call, flavour: Flavour): Disk {
    DoAll(d, Script(d, c, flavour)[..Steps(d, c, flavour)])
  }

  function After(d: Disk, calls: seq<Call>, flavour: Flavour): Disk {
    if calls == [] then d else Called(After(d, calls[..|calls|-1], flavour), calls[|calls|-1], flavour)
  }

  /** What is saved is not older than the document in force, and the clock of a load is not
      behind it. */
  predicate InTime(d: Disk, c: Call, flavour: Flavour) {
    match c
    case Save(x, _) => NotOlder(x, d)
    case Load(at, _, _) => LoadInTime(d, at, flavour)
  }

  ghost predicate AllInTime(d: Disk, calls: seq<Call>, flavour: Flavour) {
    forall i | 0 <= i < |calls| :: InTime(After(d, calls[..i], flavour), calls[i], flavour)
  }

  /** The documents that may be in force: since the last save that got as far as renaming the
      document, that one and every interrupted one. */
  function Candidates(d: Disk, calls: seq<Call>, flavour: Flavour): set<Option<Snapshot>> {
    if calls == [] then {View(d)}
    else
      var before := After(d, calls[..|calls|-1], flavour);
      var c := calls[|calls|-1];
      if c.Load? then Candidates(d, calls[..|calls|-1], flavour)
      else if c.steps >= Stored(before) then {Some(c.x)}
      else Candidates(d, calls[..|calls|-1], flavour) + {Some(c.x)}
  }

  /** One of the documents is in force, but for runs cut off since. */
  ghost predicate StemsFrom(candidates: set<Option<Snapshot>>, y: Option<Snapshot>) {
    if y.None? then None in candidates else exists x :: Some(x) in candidates && Descends(x, y.value)
  }

  lemma CalledKeeps(d: Disk, c: Call, flavour: Flavour)
    requires InTime(d, c, flavour)
    ensures c.Load? ==> View(Called(d, c, flavour)) in {View(d), Loaded(d, c.at, c.boot, flavour)}
    ensures c.Save? ==> View(Called(d, c, flavour)) in {View(d), Some(c.x)}
    ensures c.Save? && c.steps >= Stored(d) ==> View(Called(d, c, flavour)) == Some(c.x)
  {
    match c
    case Save(x, steps) =>
      NotOlderIsSafe(d, x);
      CutSaveIsAtomic(d, x);
      CutFiles(d, x, Steps(d, c, flavour));
      assert View(SaveCut(d, x, Steps(d, c, flavour))) in {View(d), Some(x)};
    case Load(at, boot, steps) =>
      CutLoadKeeps(d, at, boot, flavour, Steps(d, c, flavour));
  }

  lemma StemsOn(candidates: set<Option<Snapshot>>, y: Snapshot, z: Snapshot)
    requires StemsFrom(candidates, Some(y)) && Descends(y, z)
    ensures StemsFrom(candidates, Some(z))
  {
    var x :| Some(x) in candidates && Descends(x, y);
    assert Descends(x, z);
  }

  lemma StemsMore(candidates: set<Option<Snapshot>>, more: set<Option<Snapshot>>, y: Option<Snapshot>)
    requires StemsFrom(candidates, y) && candidates <= more
    ensures StemsFrom(more, y)
  {
    if y.Some? {
      var x :| Some(x) in candidates && Descends(x, y.value);
      assert Some(x) in more;
    }
  }

  lemma StemsFromItself(candidates: set<Option<Snapshot>>, y: Option<Snapshot>)
    requires y in candidates
    ensures StemsFrom(candidates, y)
  {
    if y.Some? {
      assert Descends(y.value, y.value);
    }
  }

  /** Crash consistency: after any run of saves and loads, each cut anywhere or complete, the
      document in force is the last completed save or one interrupted since, with nothing new
      but the runs that loads have cut off. */
  lemma {:induction false} CrashConsistent(d: Disk, calls: seq<Call>, flavour: Flavour)
    requires AllInTime(d, calls, flavour)
    ensures StemsFrom(Candidates(d, calls, flavour), View(After(d, calls, flavour)))
  {
    if calls == [] {
      StemsFromItself({View(d)}, View(d));
    } else {
      var n := |calls| - 1;
      InTimeBefore(d, calls, flavour, n);
      CrashConsistent(d, calls[..n], flavour);
      assert InTime(After(d, calls[..n], flavour), calls[n], flavour);
      CallStems(Candidates(d, calls[..n], flavour), After(d, calls[..n], flavour), calls[n], flavour);
    }
  }

  lemma CallStems(candidates: set<Option<Snapshot>>, d: Disk, c: Call, flavour: Flavour)
    requires InTime(d, c, flavour) && StemsFrom(candidates, View(d))
    ensures StemsFrom(if c.Load? then candidates
                      else if c.steps >= Stored(d) then {Some(c.x)} else candidates + {Some(c.x)},
                      View(Called(d, c, flavour)))
  {
    CalledKeeps(d, c, flavour);
    if c.Save? {
      StemsFromItself({Some(c.x)}, Some(c.x));
      StemsFromItself(candidates + {Some(c.x)}, Some(c.x));
      StemsMore(candidates, candidates + {Some(c.x)}, View(d));
    } else if View(d).Some? {
      SettleDescends(View(d).value, c.at, c.boot, flavour);
      StemsOn(candidates, View(d).value, Loaded(d, c.at, c.boot, flavour).value);
    }
  }

  lemma InTimeBefore(d: Disk, calls: seq<Call>, flavour: Flavour, n: nat)
    requires AllInTime(d, calls, flavour) && n <= |calls|
    ensures AllInTime(d, calls[..n], flavour)
  {
    forall i | 0 <= i < n ensures InTime(After(d, calls[..n][..i], flavour), calls[..n][i], flavour) {
      assert calls[..n][..i] == calls[..i];
    }
  }

  // ---------------------------------------------------------------- a running clock

  function TimeOf(c: Call): int {
    match c
    case Save(x, _) => if x.stamp.Some? then x.stamp.value else 0
    case Load(at, _, _) => at
  }

  /** Saves are stamped with the time of the call, and time does not go back. */
  ghost predicate Clocked(calls: seq<Call>, start: int) {
    && (forall i | 0 <= i < |calls| :: start <= TimeOf(calls[i]) && (calls[i].Save? ==> calls[i].x.stamp.Some?))
    && (forall i, j | 0 <= i < j < |calls| :: TimeOf(calls[i]) <= TimeOf(calls[j]))
  }

  lemma {:induction false} StampStays(d: Disk, calls: seq<Call>, flavour: Flavour, start: int)
    requires StampedBy(d, start) && Clocked(calls, start)
    ensures StampedBy(After(d, calls, flavour), if calls == [] then start else TimeOf(calls[|calls|-1]))
  {
    if calls != [] {
      var n := |calls| - 1;
      StampStays(d, calls[..n], flavour, start);
      assert n > 0 ==> calls[..n][n-1] == calls[n-1];
      CalledKeeps(After(d, calls[..n], flavour), calls[n], flavour);
    }
  }

  /** Then every call is in time, if the clock started after the document in force. */
  lemma ClockIsEnough(d: Disk, calls: seq<Call>, flavour: Flavour, start: int)
    requires StampedBy(d, start) && Clocked(calls, start)
    ensures AllInTime(d, calls, flavour)
  {
    forall i | 0 <= i < |calls| ensures InTime(After(d, calls[..i], flavour), calls[i], flavour) {
      StampStays(d, calls[..i], flavour, start);
      assert i > 0 ==> calls[..i][i-1] == calls[i-1];
    }
  }

  // ---------------------------------------------------------------- loads one after the other

  /** Only loads, at times and in processes that do not go back, between the two given ones. */
  ghost predicate Onward(calls: seq<Call>, now: int, boot: int, later: int, reboot: int) {
    && now <= later && boot <= reboot
    && (forall i | 0 <= i < |calls| ::
         calls[i].Load? && now <= calls[i].at <= later && boot <= calls[i].boot <= reboot)
    && (forall i, j | 0 <= i < j < |calls| :: calls[i].at <= calls[j].at)
  }

  lemma StillInterrupted(r: Run, now: int, boot: int, later: int, reboot: int)
    requires Interrupted(r, now, boot) && now <= later && boot <= reboot
    ensures Interrupted(r, later, reboot)
  {
  }

  lemma LoadsStayInTime(d: Disk, calls: seq<Call>, now: int, boot: int, later: int, reboot: int)
    requires StampedBy(d, now) && Onward(calls, now, boot, later, reboot)
    ensures StampedBy(After(d, calls, ProjectFlavour), if calls == [] then now else calls[|calls|-1].at)
  {
    StampStays(d, calls, ProjectFlavour, now);
  }

  /** While nothing of v is interrupted, v stays what every load finds. */
  lemma {:induction false} StaysSettled(d: Disk, calls: seq<Call>, v: Snapshot, now: int, boot: int, later: int,
                                        reboot: int)
    requires StampedBy(d, now) && Onward(calls, now, boot, later, reboot) && View(d).Some?
    requires View(d).value.(tidy := true) == v && !AnyInterrupted(v.runs, later, reboot)
    ensures View(After(d, calls, ProjectFlavour)).Some?
    ensures View(After(d, calls, ProjectFlavour)).value.(tidy := true) == v
  {
    if calls != [] {
      var n := |calls| - 1;
      StaysSettled(d, calls[..n], v, now, boot, later, reboot);
      LoadsStayInTime(d, calls[..n], now, boot, later, reboot);
      var before, c := After(d, calls[..n], ProjectFlavour), calls[n];
      CutLoadKeeps(before, c.at, c.boot, ProjectFlavour, Steps(before, c, ProjectFlavour));
      forall i | 0 <= i < |v.runs| ensures !Interrupted(v.runs[i], c.at, c.boot) {
        if Interrupted(v.runs[i], c.at, c.boot) {
          StillInterrupted(v.runs[i], c.at, c.boot, later, reboot);
        }
      }
    }
  }

  /** Loads only ever cut runs off. */
  lemma {:induction false} LoadsDescend(d: Disk, calls: seq<Call>, now: int, boot: int, later: int, reboot: int)
    requires StampedBy(d, now) && Onward(calls, now, boot, later, reboot) && View(d).Some?
    ensures View(After(d, calls, ProjectFlavour)).Some?
    ensures Descends(View(d).value, View(After(d, calls, ProjectFlavour)).value)
  {
    if calls != [] {
      var n := |calls| - 1;
      LoadsDescend(d, calls[..n], now, boot, later, reboot);
      LoadsStayInTime(d, calls[..n], now, boot, later, reboot);
      var before, c := After(d, calls[..n], ProjectFlavour), calls[n];
      CutLoadKeeps(before, c.at, c.boot, ProjectFlavour, Steps(before, c, ProjectFlavour));
      SettleDescends(View(before).value, c.at, c.boot, ProjectFlavour);
    }
  }

  /** Two loads of the project store with nothing but loads in between, each of those cut
      anywhere, return the same document exactly when no run that is going in the first one is
      overdue at the second or older than the process that makes it. */
  lemma LoadsAgree(d: Disk, now: int, boot: int, calls: seq<Call>, later: int, reboot: int)
    requires View(d).Some? && StampedBy(d, now) && Onward(calls, now, boot, later, reboot)
    ensures var first := Loaded(d, now, boot, ProjectFlavour);
      var second := Loaded(After(Settled(d, now, boot, ProjectFlavour), calls, ProjectFlavour), later, reboot,
          ProjectFlavour);
      second == first <==> forall r | r in first.value.runs :: !Interrupted(r, later, reboot)
  {
    var settled := Settled(d, now, boot, ProjectFlavour);
    var v := Loaded(d, now, boot, ProjectFlavour).value;
    FinishedLoad(d, now, boot, ProjectFlavour);
    CutLoadKeeps(d, now, boot, ProjectFlavour, |LoadScript(d, now, boot, ProjectFlavour)|);
    if !AnyInterrupted(v.runs, later, reboot) {
      StaysSettled(settled, calls, v, now, boot, later, reboot);
    } else {
      var i :| 0 <= i < |v.runs| && Interrupted(v.runs[i], later, reboot);
      LoadsDescend(settled, calls, now, boot, later, reboot);
      var x := View(After(settled, calls, ProjectFlavour)).value;
      assert Settle(x, later, reboot, ProjectFlavour).runs[i].state != Going;
      assert v.runs[i] in v.runs;
    }
  }

  /** The same tidy document, loaded while its one run is going, after the run's time, and
      after a restart: three loads that write nothing in between and return three documents. */
  lemma LoadsDisagree(data: string)
    ensures var x := Snapshot(Some(0), data, true, [Run(Some(0), Going)]);
      var d := Disk(map[Main := x], map[], None);
      && Loaded(d, 0, 0, ProjectFlavour) == Some(x) && Settled(d, 0, 0, ProjectFlavour) == d
      && Loaded(d, WINDOW + 1, 0, ProjectFlavour)
           == Some(Snapshot(Some(WINDOW + 1), data, true, [Run(Some(0), CutOff(TimedOut))]))
      && Loaded(d, 2 * SECOND, 2 * SECOND, ProjectFlavour)
           == Some(Snapshot(Some(2 * SECOND), data, true, [Run(Some(0), CutOff(Restarted))]))
  {
    var x := Snapshot(Some(0), data, true, [Run(Some(0), Going)]);
    assert !Interrupted(x.runs[0], 0, 0);
    assert Interrupted(x.runs[0], WINDOW + 1, 0) && Interrupted(x.runs[0], 2 * SECOND, 2 * SECOND);
    assert Recovered(x.runs, WINDOW + 1, 0) == [Run(Some(0), CutOff(TimedOut))];
    assert Recovered(x.runs, 2 * SECOND, 2 * SECOND) == [Run(Some(0), CutOff(Restarted))];
  }

  lemma {:induction false} WorkspaceStays(d: Disk, calls: seq<Call>)
    requires View(d).Some? && forall c | c in calls :: c.Load?
    ensures View(After(d, calls, WorkspaceFlavour)).Some?
    ensures View(After(d, calls, WorkspaceFlavour)).value.(tidy := true) == View(d).value.(tidy := true)
  {
    if calls != [] {
      var n := |calls| - 1;
      WorkspaceStays(d, calls[..n]);
      var before, c := After(d, calls[..n], WorkspaceFlavour), calls[n];
      assert c in calls;
      CutLoadKeeps(before, c.at, c.boot, WorkspaceFlavour, Steps(before, c, WorkspaceFlavour));
    }
  }

  /** The workspace store recovers nothing: what one load returns every later load returns
      until the next save, whatever the clock says and however often a load is cut. */
  lemma WorkspaceLoadsAgree(d: Disk, now: int, boot: int, calls: seq<Call>, later: int, reboot: int)
    requires View(d).Some? && forall c | c in calls :: c.Load?
    ensures var settled := Settled(d, now, boot, WorkspaceFlavour);
      Loaded(After(settled, calls, WorkspaceFlavour), later, reboot, WorkspaceFlavour)
        == Loaded(d, now, boot, WorkspaceFlavour)
  {
    FinishedLoad(d, now, boot, WorkspaceFlavour);
    WorkspaceStays(Settled(d, now, boot, WorkspaceFlavour), calls);
  }

  // ---------------------------------------------------------------- the store itself

  lemma {:induction false} DoAllAppend(d: Disk, a: seq<Action>, b: seq<Action>)
    ensures DoAll(d, a + b) == DoAll(DoAll(d, a), b)
  {
    if b == [] {
      assert a + b == a;
    } else {
      var n := |b| - 1;
      assert (a + b)[..|a| + n] == a + b[..n];
      DoAllAppend(d, a, b[..n]);
    }
  }

  lemma Front(a: seq<Action>, b: seq<Action>, c: seq<Action>, k: nat)
    requires k <= |b|
    ensures (a + b + c)[..|a| + k] == a + b[..k]
  {
    var s := (a + b + c)[..|a| + k];
    forall i | 0 <= i < |a| + k ensures s[i] == (a + b[..k])[i] {
      assert i >= |a| ==> (a + b + c)[i] == b[i - |a|];
    }
  }

  /** Part of a script, with what comes before it done. */
  lemma Part(d: Disk, done: seq<Action>, part: seq<Action>, rest: seq<Action>, k: nat)
    requires k <= |part|
    ensures DoAll(d, (done + part + rest)[..|done| + k]) == DoAll(DoAll(d, done), part[..k])
    ensures k == |part| ==> DoAll(d, done + part) == DoAll(DoAll(d, done), part) && part[..k] == part
  {
    Front(done, part, rest, k);
    DoAllAppend(d, done, part[..k]);
    if k == |part| {
      assert part[..k] == part;
    }
  }

  /** One user's files. patience is the number of primitive steps the machine still takes;
      after that every step fails, and a failed write removes its temporary file. */
  class FileStore {
    var disk: Disk
    var patience: nat

    constructor (disk: Disk, patience: nat)
      ensures this.disk == disk && this.patience == patience
    {
      this.disk, this.patience := disk, patience;
    }

    function Taken(want: nat): nat
      reads this
    {
      if patience < want then patience else want
    }

    method Primitive(a: Action) returns (ok: bool)
      modifies this
      ensures ok <==> old(patience) > 0
      ensures ok ==> disk == Do(old(disk), a) && patience == old(patience) - 1
      ensures !ok ==> disk == old(disk) && patience == 0
    {
      if patience == 0 {
        return false;
      }
      disk := Do(disk, a);
      patience := patience - 1;
      return true;
    }

    method WriteAtomically(f: File, x: Snapshot) returns (ok: bool)
      modifies this
      ensures ok <==> old(patience) >= 3
      ensures ok ==> disk == DoAll(old(disk), WriteScript(f, x)) && patience == old(patience) - 3
      ensures !ok ==> SameFiles(disk, DoAll(old(disk), WriteScript(f, x)[..old(patience)])) && patience == 0
    {
      ghost var was := disk;
      WriteSteps(was, f, x);
      ok := Primitive(Open(f));
      if !ok {
        return;
      }
      ok := Primitive(Fill(f, x));
      if !ok {
        disk := disk.(temps := disk.temps - {f});
        return;
      }
      ok := Primitive(Rename(f));
      if !ok {
        disk := disk.(temps := disk.temps - {f});
      }
    }

    /** Log entry, backup, document, and the log entry goes; that removal may fail unseen. */
    method SaveLocked(x: Snapshot) returns (ok: bool)
      modifies this
      ensures var n := old(Taken(Stored(disk) + 1));
        SameFiles(disk, SaveCut(old(disk), x, n)) && patience == old(patience) - n
      ensures ok <==> old(patience) >= Stored(old(disk))
    {
      ghost var was, p := disk, patience;
      ghost var script := SaveScript(MainOf(was), x);
      ghost var first := WriteScript(Log, x);
      ghost var second := if Main in disk.files then WriteScript(Backup, disk.files[Main]) else [];
      ghost var third := WriteScript(Main, x);
      assert script == [] + first + (second + third + [Remove(Log)]);
      assert script == first + second + (third + [Remove(Log)]);
      assert script == (first + second) + third + [Remove(Log)];
      assert script == (first + second + third) + [Remove(Log)] + [];
      ok := WriteAtomically(Log, x);
      Part(was, [], first, second + third + [Remove(Log)], if p < 3 then p else 3);
      if !ok {
        return;
      }
      assert [] + first == first;
      assert script[..3] == first;
      CutFiles(was, x, 3);
      if Main in disk.files {
        ok := WriteAtomically(Backup, disk.files[Main]);
        Part(was, first, second, third + [Remove(Log)], if p < 6 then p - 3 else 3);
        if !ok {
          return;
        }
      } else {
        assert first + second == first;
      }
      ghost var n := Stored(was) - 3;
      assert |first + second| == n;
      assert disk == DoAll(was, first + second) && patience == p - n;
      ok := WriteAtomically(Main, x);
      Part(was, first + second, third, [Remove(Log)], if p < n + 3 then p - n else 3);
      if !ok {
        return;
      }
      Part(was, first + second + third, [Remove(Log)], [], 0);
      Part(was, first + second + third, [Remove(Log)], [], 1);
      var removed := Primitive(Remove(Log));
      assert [Remove(Log)][..0] == [];
    }

    /** Cuts off the runs that cannot be going any more. */
    method RecoverRuns(runs: seq<Run>, now: int, boot: int) returns (r: seq<Run>, changed: bool)
      ensures r == Recovered(runs, now, boot) && (changed <==> AnyInterrupted(runs, now, boot))
    {
      r, changed := runs, false;
      for i := 0 to |runs|
        invariant |r| == |runs| && (changed <==> exists k | 0 <= k < i :: Interrupted(runs[k], now, boot))
        invariant forall k | 0 <= k < |runs| :: r[k] == if k < i then RecoveredRun(runs[k], now, boot) else runs[k]
      {
        if runs[i].state == Going {
          var cause := CauseOf(runs[i].start, now, boot);
          if cause.Some? {
            r := r[i := runs[i].(state := CutOff(cause.value))];
            changed := true;
          }
        }
      }
    }

    /** The document to load, and whether it is the stored one and no log entry. */
    method Choose() returns (x: Option<Snapshot>, fromMain: bool)
      ensures x == View(disk) && (fromMain <==> Main in disk.files && !LogWins(disk))
    {
      if Log in disk.files && (Main !in disk.files || Prefer(disk.files[Log], disk.files[Main])) {
        return Some(disk.files[Log]), false;
      }
      if Main in disk.files {
        return Some(disk.files[Main]), true;
      }
      return disk.legacy, false;
    }

    method Recover(x: Snapshot, now: int, boot: int, flavour: Flavour) returns (v: Snapshot, recovered: bool)
      ensures v == Settle(x, now, boot, flavour) && (recovered <==> Recovers(x, now, boot, flavour))
    {
      v, recovered := x.(tidy := true), false;
      if flavour == ProjectFlavour {
        var runs, changed := RecoverRuns(x.runs, now, boot);
        if changed {
          v, recovered := v.(stamp := Some(now), runs := runs), true;
        }
      }
    }

    /** Loads the document, finishing an interrupted save and recovering interrupted runs; a
        stale log entry is dropped. What it returns is then in the file, but for the form of a
        workspace document. */
    method LoadLocked(now: int, boot: int, flavour: Flavour) returns (r: Reply)
      modifies this
      ensures exists n: nat ::
          n <= |LoadScript(old(disk), now, boot, flavour)|
            && SameFiles(disk, LoadCut(old(disk), now, boot, flavour, n))
      ensures r.Found? ==> MainOf(disk).Some? && MainOf(disk).value.(tidy := true) == r.document
      ensures r == (if View(old(disk)).None? then Absent else Found(Loaded(old(disk), now, boot, flavour).value))
          || (r == Failed && NeedsSave(old(disk), now, boot, flavour))
    {
      ghost var was := disk;
      assert DoAll(was, LoadScript(was, now, boot, flavour)[..0]) == was;
      assert SameFiles(was, LoadCut(was, now, boot, flavour, 0));
      var x, fromMain := Choose();
      if x.None? {
        return Absent;
      }
      var v, recovered := Recover(x.value, now, boot, flavour);
      if !fromMain || (flavour == ProjectFlavour && !x.value.tidy) || recovered {
        ghost var n := Taken(Stored(disk) + 1);
        CutFiles(disk, v, n);
        var ok := SaveLocked(v);
        assert SameFiles(disk, LoadCut(was, now, boot, flavour, n));
        return if ok then Found(v) else Failed;
      }
      if Log in disk.files {
        var removed := Primitive(Remove(Log));
        assert LoadScript(was, now, boot, flavour)[..1] == [Remove(Log)] && [Remove(Log)][..0] == [];
        assert removed ==> SameFiles(disk, LoadCut(was, now, boot, flavour, 1));
      }
      return Found(v);
    }
  }

  datatype Reply = Absent | Found(document: Snapshot) | Failed

  lemma WriteSteps(d: Disk, f: File, x: Snapshot)
    ensures var s := WriteScript(f, x);
      && DoAll(d, s[..0]) == d && DoAll(d, s[..1]) == Do(d, s[0]) && DoAll(d, s[..2]) == Do(Do(d, s[0]), s[1])
      && DoAll(d, s) == Do(Do(Do(d, s[0]), s[1]), s[2])
  {
    var s := WriteScript(f, x);
    DoMore(d, s, 0);
    DoMore(d, s, 1);
    DoMore(d, s, 2);
    assert s[..3] == s;
  }
}