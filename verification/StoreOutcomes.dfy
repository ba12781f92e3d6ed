/** Which document a load finds, what it makes of runs that were interrupted, and what a complete
    save and a complete load leave on the disk, spelled out. */
module StoreOutcomes {
  import opened Basics
  import opened DurableStore

  /** The log entry is in force unless the document is younger, or has a time and the entry has
      none; without either it is the document of the older layout. */
  lemma ViewMeans(d: Disk)
    ensures Log !in d.files ==> View(d) == if Main in d.files then Some(d.files[Main]) else d.legacy
    ensures Log in d.files && Main !in d.files ==> View(d) == Some(d.files[Log])
    ensures Log in d.files && Main in d.files ==>
      var log, main := d.files[Log], d.files[Main];
      var younger := main.stamp.Some? && (log.stamp.None? || log.stamp.value < main.stamp.value);
      View(d) == Some(if younger then main else log)
  {
  }

  /** A run that is going is cut off when it has no start, began more than a second before the
      process, or has been going for more than two and a half minutes. */
  predicate RunSettled(r: Run, now: int, boot: int, s: Run) {
    && s.start == r.start
    && if r.state != Going then s.state == r.state
       else if r.start.None? then s.state == CutOff(NoStart)
       else if boot - r.start.value > 1_000_000_000 then s.state == CutOff(Restarted)
       else if now - r.start.value > 150_000_000_000 then s.state == CutOff(TimedOut)
       else s.state == Going
  }

  /** A load of the project store settles every run, and gives the document its own time exactly
      when it has cut one off; the workspace store cuts none off. Neither changes the data. */
  lemma LoadedMeans(d: Disk, now: int, boot: int, flavour: Flavour)
    requires View(d).Some?
    ensures Loaded(d, now, boot, flavour).Some?
    ensures var x, y := View(d).value, Loaded(d, now, boot, flavour).value;
      && y.data == x.data && y.tidy && |y.runs| == |x.runs|
      && (flavour == WorkspaceFlavour ==> y.runs == x.runs)
      && (flavour == ProjectFlavour ==> forall k | 0 <= k < |x.runs| :: RunSettled(x.runs[k], now, boot, y.runs[k]))
      && y.stamp == if y.runs == x.runs then x.stamp else Some(now)
  {
    var x := View(d).value;
    if Recovers(x, now, boot, flavour) {
      var i :| 0 <= i < |x.runs| && Interrupted(x.runs[i], now, boot);
      assert Recovered(x.runs, now, boot)[i] != x.runs[i];
    }
  }

  /** The backup is written between the log entry and the document. */
  lemma {:induction false} BackupSteps(d: Disk, x: Snapshot, n: nat)
    requires n <= |SaveScript(MainOf(d), x)|
    ensures var after := SaveCut(d, x, n);
      && (Main in d.files && 6 <= n ==> Backup in after.files && after.files[Backup] == d.files[Main])
      && (Main !in d.files || n < 6 ==>
           (Backup in after.files <==> Backup in d.files)
             && (Backup in d.files ==> after.files[Backup] == d.files[Backup]))
      && (Main in d.files && n == 5 ==> Backup in after.temps && after.temps[Backup] == Full(d.files[Main]))
  {
    if n > 0 {
      BackupSteps(d, x, n - 1);
      DoMore(d, SaveScript(MainOf(d), x), n - 1);
      StepAt(MainOf(d), x, n - 1);
      BackupStepAt(MainOf(d), x, n - 1);
    }
  }

  lemma BackupStepAt(main: Option<Snapshot>, x: Snapshot, k: nat)
    requires k < |SaveScript(main, x)|
    ensures main.Some? && 3 <= k < 6 ==> SaveScript(main, x)[k] == WriteScript(Backup, main.value)[k-3]
    ensures main.None? || k < 3 || k >= 6 ==> SaveScript(main, x)[k].file != Backup
  {
  }

  /** A complete save leaves the new document, the one before it as the backup, and no log
      entry; nothing else is touched. */
  lemma SaveMeans(d: Disk, x: Snapshot)
    ensures var after := SaveCut(d, x, |SaveScript(MainOf(d), x)|);
      && after.legacy == d.legacy && Log !in after.files
      && Main in after.files && after.files[Main] == x
      && (Main in d.files ==> Backup in after.files && after.files[Backup] == d.files[Main])
      && (Main !in d.files ==>
           (Backup in after.files <==> Backup in d.files)
             && (Backup in d.files ==> after.files[Backup] == d.files[Backup]))
  {
    var n := |SaveScript(MainOf(d), x)|;
    CutFiles(d, x, n);
    BackupSteps(d, x, n);
  }

  predicate AllSettled(runs: seq<Run>, now: int, boot: int) {
    forall k | 0 <= k < |runs| :: RunSettled(runs[k], now, boot, runs[k])
  }

  /** A complete load of the project store leaves the document it returns in the file, and no log
      entry; where nothing has to be written it changes nothing. */
  lemma LoadMeans(d: Disk, now: int, boot: int)
    requires View(d).Some?
    ensures var after := Settled(d, now, boot, ProjectFlavour);
      && Log !in after.files && Main in after.files
      && Some(after.files[Main]) == Loaded(d, now, boot, ProjectFlavour)
    ensures Log !in d.files && Main in d.files && d.files[Main].tidy && AllSettled(d.files[Main].runs, now, boot) ==>
            Settled(d, now, boot, ProjectFlavour) == d
  {
    var script := LoadScript(d, now, boot, ProjectFlavour);
    assert script[..|script|] == script;
    if NeedsSave(d, now, boot, ProjectFlavour) {
      SaveMeans(d, Settle(View(d).value, now, boot, ProjectFlavour));
    } else if Log in d.files {
      assert [Remove(Log)][..0] == [];
      assert DoAll(d, [Remove(Log)]) == Do(DoAll(d, []), Remove(Log));
    }
  }
}
