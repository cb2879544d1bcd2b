/** What every run of the offline maintenance commands guarantees: one holder of the lock, nothing committed lost, and
    how each command can end. */
module MaintenanceSafety {

  import opened Wrappers
  import opened OfflineMaintenance

  /* ---------------------------------------------------------------- what every run guarantees */

  /** At most one process is between acquiring and releasing, and it holds the lock. */
  lemma MutualExclusion(run: seq<System>, i: nat, p: Pid, q: Pid)
    requires IsRun(run) && i < |run|
    requires p in run[i].procs && Critical(run[i].procs[p].pc)
    requires q in run[i].procs && Critical(run[i].procs[q].pc)
    ensures p == q && run[i].lock == Some(p)
  {
    InvAlways(run, i);
  }

  /** No file of the database set is ever created, replaced, moved or written except by the process that
      holds the lock at that moment. */
  lemma FilesChangeOnlyUnderLock(run: seq<System>, i: nat, pid: Pid)
    requires IsRun(run) && i + 1 < |run| && NextBy(run[i], run[i + 1], pid)
    requires run[i].files != run[i + 1].files
    ensures run[i].lock == Some(pid) && Critical(run[i].procs[pid].pc)
  {
    InvAlways(run, i);
    StepRespectsLock(pid, run[i].procs[pid], run[i].files, run[i].lock, run[i + 1].procs[pid], run[i + 1].files, run[i + 1].lock);
  }

  /** When every process has ended, however it ended, the lock is free. */
  lemma LockIsNeverLeaked(run: seq<System>, i: nat)
    requires IsRun(run) && i < |run|
    requires forall pid :: pid in run[i].procs ==> Done(run[i].procs[pid].pc)
    ensures run[i].lock == None
  {
    InvAlways(run, i);
  }

  /** c is still on disk: the database begins with it, or a pre-restore copy does. */
  ghost predicate Held(f: Files, c: Content) {
    || (Live(f).Some? && c <= Live(f).value)
    || (exists d :: d in f.saved && SavedFrom(f, d, c))
  }

  predicate SavedFrom(f: Files, d: Dir, c: Content)
    requires d in f.saved
  {
    f.saved[d].main.Some? && c <= f.saved[d].main.value
  }

  /** Pre-restore copies are only ever added. */
  ghost predicate CopiesStay(f: Files, f': Files) {
    forall d :: d in f.saved ==> d in f'.saved && (f.saved[d].main.Some? ==> f'.saved[d].main == f.saved[d].main)
  }

  /** What the database contained is still there, longer or moved aside. */
  ghost predicate LiveStays(f: Files, f': Files) {
    Live(f).Some? ==> Held(f', Live(f).value)
  }

  lemma PreserveStepHolds(p: Proc, f: Files, p': Proc, f': Files)
    requires p.command.Restore? && PreserveStep(p, f, p', f') && Knows(p, f)
    ensures CopiesStay(f, f') && LiveStays(f, f')
  {
    if p.pc.RMove? && p.pc.k == 0 && f' != f {
      DryLive(f);
      assert SavedFrom(f', p.pc.aside.d, Live(f).value);
    }
  }

  lemma InstallStepHolds(p: Proc, f: Files, p': Proc, f': Files)
    requires p.command.Restore? && InstallStep(p, f, p', f') && Knows(p, f)
    ensures CopiesStay(f, f') && LiveStays(f, f')
  {
  }

  lemma CommitHolds(f: Files, f': Files)
    requires IsCommit(f, f') || IsFold(f, f') || IsOpened(f, f')
    ensures CopiesStay(f, f') && LiveStays(f, f')
  {
  }

  lemma StepHolds(s: System, s': System, pid: Pid)
    requires Inv(s) && NextBy(s, s', pid)
    ensures CopiesStay(s.files, s'.files) && LiveStays(s.files, s'.files)
  {
    var p, p', f, f' := s.procs[pid], s'.procs[pid], s.files, s'.files;
    if f' != f {
      StepRespectsLock(pid, p, f, s.lock, p', f', s'.lock);
      if p.command.Restore? && PreserveStep(p, f, p', f') {
        PreserveStepHolds(p, f, p', f');
      } else if p.command.Restore? && InstallStep(p, f, p', f') {
        InstallStepHolds(p, f, p', f');
      } else {
        CommitHolds(f, f');
      }
    }
  }

  lemma RunStepHolds(run: seq<System>, i: nat)
    requires IsRun(run) && i + 1 < |run|
    ensures CopiesStay(run[i].files, run[i + 1].files) && LiveStays(run[i].files, run[i + 1].files)
  {
    InvAlways(run, i);
    assert StepsAt(run, i);
    var pid :| NextBy(run[i], run[i + 1], pid);
    StepHolds(run[i], run[i + 1], pid);
  }

  lemma HeldStep(f: Files, f': Files, c: Content)
    requires CopiesStay(f, f') && LiveStays(f, f') && Held(f, c)
    ensures Held(f', c)
  {
    if Live(f).Some? && c <= Live(f).value {
      if !(Live(f').Some? && Live(f).value <= Live(f').value) {
        var d :| d in f'.saved && SavedFrom(f', d, Live(f).value);
        assert SavedFrom(f', d, c);
      }
    } else {
      var d :| d in f.saved && SavedFrom(f, d, c);
      assert SavedFrom(f', d, c);
    }
  }

  /** Nothing committed is ever lost.  Whatever the database contained at some moment is, at every later
      moment of every run, still at the start of the live database or of a pre-restore copy, through any
      interleaving of restores, recoveries and servers and through a crash at any step. */
  lemma {:induction false} NothingCommittedIsLost(run: seq<System>, i: nat, j: nat)
    requires IsRun(run) && i <= j < |run|
    requires Live(run[i].files).Some?
    ensures Held(run[j].files, Live(run[i].files).value)
    decreases j - i
  {
    if i < j {
      NothingCommittedIsLost(run, i, j - 1);
      RunStepHolds(run, j - 1);
      HeldStep(run[j - 1].files, run[j].files, Live(run[i].files).value);
    }
  }

  /** A pre-restore copy, once made, is never overwritten by a later restore. */
  lemma {:induction false} PreservedCopiesStay(run: seq<System>, i: nat, j: nat, d: Dir)
    requires IsRun(run) && i <= j < |run|
    requires d in run[i].files.saved && run[i].files.saved[d].main.Some?
    ensures d in run[j].files.saved && run[j].files.saved[d].main == run[i].files.saved[d].main
    decreases j - i
  {
    if i < j {
      PreservedCopiesStay(run, i, j - 1, d);
      RunStepHolds(run, j - 1);
    }
  }

  /** The report speaks of a restored database under the real name. */
  predicate SaysInstalled(report: Report) { report.InstalledButFailed? || report.Restored? }

  /** The sentence a restore prints, while it still owns the lock.  What it says about the database at its real path is
      true unless it speaks of a restored database whose backup was not one plain file; all of it is true unless,
      besides, it failed after installing where there was no database before: then, and only then, it names a directory
      with a previous database that never was. */
  lemma RestoreReportIsTrue(run: seq<System>, i: nat, pid: Pid)
    requires IsRun(run) && i < |run| && pid in run[i].procs && run[i].procs[pid].command.Restore?
    requires run[i].procs[pid].pc.Release?
    ensures run[i].lock == Some(pid)
    ensures var p := run[i].procs[pid];
            && (LiveClaim(p, run[i].files, p.pc.report) <==> (SaysInstalled(p.pc.report) ==> Plain(p.command.from)))
            && (ReportTrue(p, run[i].files, p.pc.report)
                <==> (SaysInstalled(p.pc.report) ==> Plain(p.command.from))
                     && (p.pc.report.InstalledButFailed? ==> p.found.Some?))
  {
    InvAlways(run, i);
    if HasVerified(run[i].procs[pid]) {
      CopiedIsVerifiedIffPlain(run[i].procs[pid]);
    }
  }

  /* ---------------------------------------------------------------- how the commands end */

  /** What the log, exit code and sentence of an owner recovery that ran to its end have to say. */
  ghost predicate RecoveryPromises(c: Command, log: seq<Event>, code: int, report: Report)
    requires c.RecoverOwner?
  {
    // a lock that was taken was given back, after the database was closed
    && (Acquired in log ==> log[|log| - 1].Released?)
    && (DbOpened in log ==> |log| >= 2 && log[|log| - 2] == DbClosed)
    // access is reset only after a verified backup, unless none was wanted, migration and permissions, in that order
    && (OwnerReset in log ==> |log| == |Recovery(c)| + 2 && log[..|Recovery(c)|] == Recovery(c))
    && (OwnerReset in log && !c.allowNoBackup ==> BackedUp in log)
    && (c.allowNoBackup ==> BackedUp !in log)
    // success is exactly: access was reset and the lock was released cleanly
    && (code == 0 <==> log == Recovery(c) + [DbClosed, Released(true)])
    // otherwise 1, or 2 for a request refused before the lock was tried
    && (code == 0 || code == 1 || (code == 2 && log == []))
    // completion is announced exactly when access was reset
    && (report.Recovered? <==> OwnerReset in log)
    // and names a verified backup that was written, or none, except for a path given along with --allow-no-backup
    && (report.Recovered? ==> ((report.named <==> BackedUp in log) <==> !(c.allowNoBackup && c.pathGiven)))
  }

  lemma RecoveryEvents(c: Command)
    requires c.RecoverOwner?
    ensures BackedUp in Recovery(c) <==> !c.allowNoBackup
    ensures OwnerReset in Recovery(c) && OwnerReset !in Recovery(c)[..|Recovery(c)| - 1]
    ensures forall k :: 0 <= k < |Recovery(c)| - 1 ==> Recovery(c)[k] != OwnerReset
  {
    assert Recovery(c)[|Recovery(c)| - 1] == OwnerReset;
    assert !c.allowNoBackup ==> Recovery(c)[2] == BackedUp;
  }

  lemma RecoveryWorkPromises(c: Command, work: seq<Event>, last: Event, code: int, report: Report)
    requires c.RecoverOwner? && last.Released?
    requires if last.ok then RecoveryWork(c, work, code) else code == 1 && (RecoveryWork(c, work, 0) || RecoveryWork(c, work, 1))
    requires report == if OwnerReset in work + [last] then Recovered(NamesPath(c)) else NoReport
    ensures RecoveryPromises(c, work + [last], code, report)
  {
    var log, all := work + [last], Recovery(c);
    RecoveryEvents(c);
    if |work| != 1 {
      assert work[..|work| - 1] == all[..|work| - 1];
      assert log[|work| - 1] == DbClosed;
      if |work| == |all| + 1 {
        assert log[..|all|] == all && log[|all| - 1] == OwnerReset;
        assert log == all + [DbClosed, last];
        assert !c.allowNoBackup ==> log[2] == BackedUp;
      }
    }
    assert forall e :: e in log ==> e in all || e == DbClosed || e == last;
    assert |work| <= |all| ==> forall e :: e in work ==> e in all[..|all| - 1] || e == DbClosed;
  }

  lemma FinishedRecoveryPromises(c: Command, log: seq<Event>, code: int, report: Report)
    requires c.RecoverOwner? && Finished(c, log, code)
    requires report == if OwnerReset in log then Recovered(NamesPath(c)) else NoReport
    ensures RecoveryPromises(c, log, code, report)
  {
    var work, last := log[..|log| - 1], log[|log| - 1];
    assert log == work + [last];
    RecoveryWorkPromises(c, work, last, code, report);
  }

  lemma RecoveryExitPromises(p: Proc)
    requires p.command.RecoverOwner? && p.pc.Exited? && LogFits(p) && CodeFits(p)
    ensures RecoveryPromises(p.command, p.log, p.pc.code, p.pc.report)
  {
    if p.log != [] {
      FinishedRecoveryPromises(p.command, p.log, p.pc.code, p.pc.report);
    }
  }

  ghost predicate Fits(s: System, pid: Pid) { pid in s.procs ==> LogFits(s.procs[pid]) && CodeFits(s.procs[pid]) }

  lemma FitsStep(s: System, s': System, pid: Pid)
    requires Next(s, s') && Fits(s, pid)
    ensures Fits(s', pid)
  {
    var mover :| NextBy(s, s', mover);
    if mover == pid {
      var p, p' := s.procs[pid], s'.procs[pid];
      if !Crash(pid, p, s.files, s.lock, p', s'.files, s'.lock) {
        StepLogs(pid, p, s.files, s.lock, p', s'.files, s'.lock);
      }
    }
  }

  /** Logs, codes and sentences do not depend on the files. */
  lemma {:induction false} FitsAlways(run: seq<System>, i: nat, pid: Pid)
    requires Steps(run) && Fresh(run[0]) && i < |run|
    ensures Fits(run[i], pid)
  {
    if i > 0 {
      FitsAlways(run, i - 1, pid);
      assert StepsAt(run, i - 1);
      FitsStep(run[i - 1], run[i], pid);
    }
  }

  /** Every way owner recovery can end, short of being killed. */
  lemma RecoveryEnds(run: seq<System>, i: nat, pid: Pid)
    requires Steps(run) && Fresh(run[0]) && i < |run| && pid in run[i].procs
    requires run[i].procs[pid].command.RecoverOwner? && run[i].procs[pid].pc.Exited?
    ensures RecoveryPromises(run[i].procs[pid].command, run[i].procs[pid].log, run[i].procs[pid].pc.code, run[i].procs[pid].pc.report)
  {
    FitsAlways(run, i, pid);
    RecoveryExitPromises(run[i].procs[pid]);
  }

  /** What the log, exit code and report of a restore that ran to its end have to say: success is exactly a backup
      put under the real name, every later step done, and the lock released cleanly; a report speaks of an installed backup
      exactly if there is one. */
  ghost predicate RestorePromises(log: seq<Event>, code: int, report: Report) {
    && (Acquired in log ==> log[|log| - 1].Released?)
    && (code == 0 <==> report.Restored? && log == [Acquired, Installed, Released(true)])
    && (code == 0 || code == 1 || (code == 2 && log == []))
    && (log != [] ==> log[0] == Acquired && (|log| == 2 || (|log| == 3 && log[1] == Installed)))
    && (Installed in log <==> report.Restored? || report.InstalledButFailed?)
  }

  lemma RestoreExitPromises(p: Proc)
    requires p.command.Restore? && p.pc.Exited? && LogFits(p) && CodeFits(p)
    ensures RestorePromises(p.log, p.pc.code, p.pc.report)
  {
    if p.log != [] {
      assert p.log == p.log[..|p.log| - 1] + [p.log[|p.log| - 1]];
    }
  }

  /** Every way a restore can end, short of being killed. */
  lemma RestoreEnds(run: seq<System>, i: nat, pid: Pid)
    requires Steps(run) && Fresh(run[0]) && i < |run| && pid in run[i].procs
    requires run[i].procs[pid].command.Restore? && run[i].procs[pid].pc.Exited?
    ensures RestorePromises(run[i].procs[pid].log, run[i].procs[pid].pc.code, run[i].procs[pid].pc.report)
  {
    FitsAlways(run, i, pid);
    RestoreExitPromises(run[i].procs[pid]);
  }
}
