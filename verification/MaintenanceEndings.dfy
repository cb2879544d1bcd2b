/** What the maintenance commands can achieve.  The safety results hold of a command that always gives up; here runs
    are built in which the commands do their work, and for owner recovery and the server the endings that occur are
    exactly the ones listed. */
module MaintenanceEndings {

  import opened Wrappers
  import opened OfflineMaintenance
  import opened MaintenanceSafety
  import opened MaintenanceReports

  /** In some run the process exits with this log, code and report. */
  ghost predicate CanEnd(s: System, pid: Pid, log: seq<Event>, code: int, report: Report) {
    exists t :: Reaches(s, t) && EndsIn(t, pid, log, code, report)
  }

  predicate EndsIn(t: System, pid: Pid, log: seq<Event>, code: int, report: Report) {
    pid in t.procs && t.procs[pid].pc == Exited(code, report) && t.procs[pid].log == log
  }

  /** Releasing the lock and leaving, or failing to release it. */
  lemma ReachesExit(s: System, t: System, pid: Pid, p: Proc, f: Files, ok: bool)
    requires Reaches(s, With(t, pid, p, f, Some(pid))) && p.pc.Release?
    ensures CanEnd(s, pid, p.log + [Released(ok)], if ok then p.pc.code else 1, p.pc.report)
    ensures Reaches(s, With(t, pid, p.(pc := Exited(if ok then p.pc.code else 1, p.pc.report), log := p.log + [Released(ok)]), f, None))
  {
    var code := if ok then p.pc.code else 1;
    var leaving := p.(pc := Leaving(code, p.pc.report), log := p.log + [Released(ok)]);
    ReachesNext(s, t, pid, p, f, Some(pid), leaving, f, if ok then None else Some(pid));
    ReachesNext(s, t, pid, leaving, f, if ok then None else Some(pid), leaving.(pc := Exited(code, p.pc.report)), f, None);
    assert EndsIn(With(t, pid, leaving.(pc := Exited(code, p.pc.report)), f, None), pid, leaving.log, code, p.pc.report);
  }

  /** Closing the database first. */
  lemma ReachesClosed(s: System, t: System, pid: Pid, p: Proc, f: Files, ok: bool)
    requires Reaches(s, With(t, pid, p, f, Some(pid))) && p.pc.CloseDb?
    ensures CanEnd(s, pid, p.log + [DbClosed, Released(ok)], if ok then p.pc.code else 1, p.pc.report)
  {
    var released := p.(pc := Release(p.pc.code, p.pc.report), log := p.log + [DbClosed]);
    ReachesNext(s, t, pid, p, f, Some(pid), released, f, Some(pid));
    ReachesExit(s, t, pid, released, f, ok);
    assert released.log + [Released(ok)] == p.log + [DbClosed, Released(ok)];
  }

  /** A command refused before it starts, or one that does not get the lock. */
  lemma ReachesNothing(s: System, pid: Pid)
    requires Fresh(s) && pid in s.procs
    ensures CanEnd(s, pid, [], 1, NoReport) && CanEnd(s, pid, [], 2, NoReport)
  {
    ReachesStart(s);
    var p, f := s.procs[pid], s.files;
    assert s == With(s, pid, p, f, None);
    ReachesNext(s, s, pid, p, f, None, p.(pc := Exited(2, NoReport)), f, None);
    assert EndsIn(With(s, pid, p.(pc := Exited(2, NoReport)), f, None), pid, [], 2, NoReport);
    ReachesNext(s, s, pid, p, f, None, p.(pc := TryLock), f, None);
    ReachesNext(s, s, pid, p.(pc := TryLock), f, None, p.(pc := Exited(1, NoReport)), f, None);
    assert EndsIn(With(s, pid, p.(pc := Exited(1, NoReport)), f, None), pid, [], 1, NoReport);
  }

  /* ---------------------------------------------------------------- owner recovery */

  /** All the work of an owner recovery. */
  function AllWork(c: Command): (work: seq<Event>)
    requires c.RecoverOwner?
    ensures |work| == if c.allowNoBackup then 5 else 6
  {
    BeforeMigrating(c) + [Migrated, Secured, OwnerReset]
  }

  /** The first k pieces of work are done, the database is closed if it was opened, and releasing the lock is tried.  The
      code is 0 exactly if all was done and the lock released; the owner is told of it as soon as all was done. */
  predicate EndsAfter(c: Command, k: nat, ok: bool, log: seq<Event>, code: int, report: Report)
    requires c.RecoverOwner?
  {
    var all := AllWork(c);
    && 1 <= k <= |all|
    && log == all[..k] + (if k == 1 then [Released(ok)] else [DbClosed, Released(ok)])
    && code == (if k == |all| && ok then 0 else 1)
    && report == if k == |all| then Recovered(!c.allowNoBackup || c.pathGiven) else NoReport
  }

  ghost predicate IsEnding(c: Command, log: seq<Event>, code: int, report: Report)
    requires c.RecoverOwner?
  {
    || (log == [] && (code == 1 || code == 2) && report == NoReport)
    || (exists k, ok :: EndsAfter(c, k, ok, log, code, report))
  }

  lemma AllWorkIsRecovery(c: Command)
    requires c.RecoverOwner?
    ensures AllWork(c) == Recovery(c)
  {
  }

  lemma WorkPrefixes(c: Command)
    requires c.RecoverOwner?
    ensures var all, b := AllWork(c), |BeforeMigrating(c)|;
      && all[..1] == [Acquired] && all[..2] == [Acquired, DbOpened] && all[..b] == BeforeMigrating(c)
      && all[..b + 1] == BeforeMigrating(c) + [Migrated] && all[..b + 2] == BeforeMigrating(c) + [Migrated, Secured]
  {
  }

  /** The recovery can give up after any piece of its work past opening the database. */
  lemma ReachesGivingUp(s: System, pid: Pid, k: nat) returns (q: Proc, f: Files)
    requires Fresh(s) && pid in s.procs && s.procs[pid].command.RecoverOwner? && 2 <= k < |AllWork(s.procs[pid].command)|
    ensures Recovering(s, pid, q, f) && q.log == AllWork(q.command)[..k] && q.pc == CloseDb(1, NoReport)
  {
    var c := s.procs[pid].command;
    WorkPrefixes(c);
    var p;
    if k == |BeforeMigrating(c)| {
      p, f := ReachesMigrate(s, pid);
    } else if k == 2 {
      p, f := ReachesOpened(s, pid);
    } else if k == |BeforeMigrating(c)| + 1 {
      p, f := ReachesSecure(s, pid);
    } else {
      p, f := ReachesReset(s, pid);
    }
    q := p.(pc := CloseDb(1, NoReport));
    MayGiveUp(p, f);
    RecoveryStep(s, pid, p, q, f);
  }

  lemma MayGiveUp(p: Proc, f: Files)
    requires p.command.RecoverOwner? && (p.pc.CMigrate? || p.pc.CSecure? || p.pc.CReset? || (p.pc.CBackup? && !p.command.allowNoBackup))
    ensures RecoverStep(p, f, p.(pc := CloseDb(1, NoReport)), f)
  {
  }

  lemma ReachesNoDatabase(s: System, pid: Pid, ok: bool)
    requires Fresh(s) && pid in s.procs && !s.procs[pid].command.Restore?
    ensures CanEnd(s, pid, [Acquired, Released(ok)], 1, NoReport)
  {
    ReachesStart(s);
    var p := ReachesLocked(s, s, pid);
    var gives := p.(pc := Release(1, NoReport));
    ReachesWork(s, s, pid, p, s.files, gives, s.files);
    ReachesExit(s, s, pid, gives, s.files, ok);
    assert p.log + [Released(ok)] == [Acquired, Released(ok)];
  }

  lemma ReachesEnding(s: System, pid: Pid, k: nat, ok: bool, log: seq<Event>, code: int, report: Report)
    requires Fresh(s) && pid in s.procs && s.procs[pid].command.RecoverOwner?
    requires EndsAfter(s.procs[pid].command, k, ok, log, code, report)
    ensures CanEnd(s, pid, log, code, report)
  {
    if k == 1 {
      WorkPrefixes(s.procs[pid].command);
      ReachesNoDatabase(s, pid, ok);
    } else {
      var q, f;
      if k == |AllWork(s.procs[pid].command)| {
        q, f := ReachesRecovered(s, pid);
      } else {
        q, f := ReachesGivingUp(s, pid, k);
      }
      ReachesClosed(s, s, pid, q, f, ok);
    }
  }

  lemma FinishedIsEnding(c: Command, log: seq<Event>, code: int, report: Report)
    requires c.RecoverOwner? && Finished(c, log, code)
    requires report == if OwnerReset in log then Recovered(NamesPath(c)) else NoReport
    ensures IsEnding(c, log, code, report)
  {
    var all, work, last := AllWork(c), log[..|log| - 1], log[|log| - 1];
    AllWorkIsRecovery(c);
    RecoveryEvents(c);
    assert log == work + [last];
    var k := if |work| == 1 then 1 else |work| - 1;
    assert work == all[..k] + if k == 1 then [] else [DbClosed];
    assert forall e :: e in log ==> e in all[..k] || e == DbClosed || e == last;
    assert k == |all| ==> log[k - 1] == OwnerReset;
    assert k < |all| ==> forall e :: e in all[..k] ==> e in all[..|all| - 1];
    assert EndsAfter(c, k, last.ok, log, code, report);
  }

  lemma EndsAsListed(s: System, pid: Pid, log: seq<Event>, code: int, report: Report)
    requires Fresh(s) && pid in s.procs && s.procs[pid].command.RecoverOwner? && CanEnd(s, pid, log, code, report)
    ensures IsEnding(s.procs[pid].command, log, code, report)
  {
    var t :| Reaches(s, t) && EndsIn(t, pid, log, code, report);
    var run: seq<System> :| Steps(run) && run[0] == s && run[|run| - 1] == t;
    GatedAlways(run, |run| - 1);
    FitsAlways(run, |run| - 1, pid);
    if log != [] || !(code == 1 || code == 2) {
      FinishedIsEnding(s.procs[pid].command, log, code, report);
    }
  }

  /** The endings of an owner recovery, short of being killed, are exactly these: whatever other processes do and
      whatever files there are, none but the listed ones occurs, and each of the listed ones does. */
  lemma RecoveryEndsExactly(s: System, pid: Pid, log: seq<Event>, code: int, report: Report)
    requires Fresh(s) && pid in s.procs && s.procs[pid].command.RecoverOwner?
    ensures CanEnd(s, pid, log, code, report) <==> IsEnding(s.procs[pid].command, log, code, report)
  {
    var c := s.procs[pid].command;
    if CanEnd(s, pid, log, code, report) {
      EndsAsListed(s, pid, log, code, report);
    }
    if IsEnding(c, log, code, report) {
      if log == [] {
        ReachesNothing(s, pid);
      } else {
        var k, ok :| EndsAfter(c, k, ok, log, code, report);
        ReachesEnding(s, pid, k, ok, log, code, report);
      }
    }
  }

  /** Whatever its flags, a recovery can reset access and exit with 0, and then it has made a backup if and only if it was
      not told to go without one. */
  lemma RecoveryCanSucceed(s: System, pid: Pid) returns (log: seq<Event>)
    requires Fresh(s) && pid in s.procs && s.procs[pid].command.RecoverOwner?
    ensures var c := s.procs[pid].command; CanEnd(s, pid, log, 0, Recovered(!c.allowNoBackup || c.pathGiven))
    ensures OwnerReset in log && (BackedUp in log <==> !s.procs[pid].command.allowNoBackup)
  {
    var c := s.procs[pid].command;
    var all := AllWork(c);
    log := all[..|all|] + [DbClosed, Released(true)];
    ReachesEnding(s, pid, |all|, true, log, 0, Recovered(!c.allowNoBackup || c.pathGiven));
    assert log[|all| - 1] == OwnerReset;
    assert !c.allowNoBackup ==> log[2] == BackedUp;
  }

  /* ---------------------------------------------------------------- the server */

  /** The server gets to serve and commits whatever it is given. */
  lemma ReachesServing(s: System, pid: Pid, more: Content) returns (q: Proc, f: Files)
    requires Fresh(s) && pid in s.procs && s.procs[pid].command == Serve
    ensures Reaches(s, With(s, pid, q, f, Some(pid))) && q.pc == SServe && q.log == [Acquired, DbOpened] && q.command == Serve
    ensures Live(f) == Some((if Live(s.files).Some? then Live(s.files).value else LogOf(s.files)) + more)
  {
    ReachesStart(s);
    var p := ReachesLocked(s, s, pid);
    var g := Created(s.files);
    q := p.(pc := SServe, log := p.log + [DbOpened]);
    ReachesWork(s, s, pid, p, s.files, q, g);
    f := g.(wal := Some(LogOf(g) + more));
    assert Live(f).value == Live(g).value + more;
    ReachesWork(s, s, pid, q, g, q, f);
    if s.files.main.None? {
      assert Live(g).value == LogOf(g);
    }
  }

  /** And ends with 0 or 1. */
  lemma ReachesServed(s: System, pid: Pid, code: int, ok: bool)
    requires Fresh(s) && pid in s.procs && s.procs[pid].command == Serve && (code == 0 || code == 1)
    ensures CanEnd(s, pid, [Acquired, DbOpened, DbClosed, Released(ok)], if ok then code else 1, NoReport)
  {
    var q, f := ReachesServing(s, pid, []);
    var closing := q.(pc := CloseDb(code, NoReport));
    ReachesWork(s, s, pid, q, f, closing, f);
    ReachesClosed(s, s, pid, closing, f, ok);
    assert q.log + [DbClosed, Released(ok)] == [Acquired, DbOpened, DbClosed, Released(ok)];
  }

  /** The server's endings, likewise. */
  ghost predicate IsServed(log: seq<Event>, code: int) {
    || (log == [] && (code == 1 || code == 2))
    || (exists ok :: ServedWith(log, code, ok))
  }

  predicate ServedWith(log: seq<Event>, code: int, ok: bool) {
    || (log == [Acquired, Released(ok)] && code == 1)
    || (log == [Acquired, DbOpened, DbClosed, Released(ok)] && (code == 1 || (code == 0 && ok)))
  }

  lemma FinishedIsServed(log: seq<Event>, code: int)
    requires Finished(Serve, log, code)
    ensures IsServed(log, code)
  {
    var work, last := log[..|log| - 1], log[|log| - 1];
    assert log == work + [last] && last == Released(last.ok);
    assert ServedWith(log, code, last.ok);
  }

  lemma ServesAsListed(s: System, pid: Pid, log: seq<Event>, code: int, report: Report)
    requires Fresh(s) && pid in s.procs && s.procs[pid].command == Serve && CanEnd(s, pid, log, code, report)
    ensures IsServed(log, code)
  {
    var t :| Reaches(s, t) && EndsIn(t, pid, log, code, report);
    var run: seq<System> :| Steps(run) && run[0] == s && run[|run| - 1] == t;
    GatedAlways(run, |run| - 1);
    FitsAlways(run, |run| - 1, pid);
    if log != [] || !(code == 1 || code == 2) {
      FinishedIsServed(log, code);
    }
  }

  lemma ServeEndsExactly(s: System, pid: Pid, log: seq<Event>, code: int)
    requires Fresh(s) && pid in s.procs && s.procs[pid].command == Serve
    ensures (exists report :: CanEnd(s, pid, log, code, report)) <==> IsServed(log, code)
  {
    if report :| CanEnd(s, pid, log, code, report) {
      ServesAsListed(s, pid, log, code, report);
    }
    if IsServed(log, code) {
      if log == [] {
        ReachesNothing(s, pid);
      } else {
        var ok :| ServedWith(log, code, ok);
        if |log| == 2 {
          ReachesNoDatabase(s, pid, ok);
        } else {
          ReachesServed(s, pid, code, ok);
        }
      }
      assert CanEnd(s, pid, log, code, NoReport);
    }
  }

  /* ---------------------------------------------------------------- restore */

  /** In some run the restore ends so, leaving the files f. */
  ghost predicate CanLeaveFiles(s: System, pid: Pid, log: seq<Event>, code: int, report: Report, f: Files) {
    exists t :: Reaches(s, t) && t.files == f && EndsIn(t, pid, log, code, report)
  }

  lemma ReleasesLeaving(s: System, pid: Pid, p: Proc, f: Files)
    requires Reaches(s, With(s, pid, p, f, Some(pid))) && p.pc.Release?
    ensures CanLeaveFiles(s, pid, p.log + [Released(true)], p.pc.code, p.pc.report, f)
  {
    ReachesExit(s, s, pid, p, f, true);
    var t := With(s, pid, p.(pc := Exited(p.pc.code, p.pc.report), log := p.log + [Released(true)]), f, None);
    assert EndsIn(t, pid, p.log + [Released(true)], p.pc.code, p.pc.report);
  }

  /** A backup that can be verified can be restored: what was copied is the database, with no log and no index beside
      it, and the database there was is whole in a new pre-restore directory, which the report names. */
  lemma RestoreCanSucceed(s: System, pid: Pid) returns (kept: Option<Aside>, f: Files)
    requires Fresh(s) && pid in s.procs && s.procs[pid].command.Restore? && Verifiable(s.procs[pid].command.from, s.files)
    ensures CanLeaveFiles(s, pid, [Acquired, Installed, Released(true)], 0, Restored(kept), f)
    ensures Live(f) == Some(Copied(s.procs[pid].command.from)) && f.wal == None && !f.shm && KeptFrom(s.files, kept, f)
  {
    ReachesStart(s);
    var q, g := ReachesSuccess(s, s, pid);
    kept, f := q.pc.report.kept, g;
    ReleasesLeaving(s, pid, q, f);
    assert q.log + [Released(true)] == [Acquired, Installed, Released(true)];
  }

  /** The sentence for a restore that fails in a step: the database is untouched until a file has been moved, then it is
      where it was moved to, and once the backup is under the real name it is the restored one. */
  predicate FailsSaying(pc: Pc, report: Report) {
    match pc
    case RInspect => report == Untouched
    case RCheckpoint => report == Untouched
    case RMkdir => report == Untouched
    case RMove(aside, _) => SaysMoved(Some(aside), report)
    case RSyncAside(aside) => SaysMoved(Some(aside), report)
    case RCopy(kept) => SaysMoved(kept, report)
    case RCopying(kept) => SaysMoved(kept, report)
    case RSyncCopy(kept) => SaysMoved(kept, report)
    case RInstall(kept) => SaysMoved(kept, report)
    case RSyncParent(kept) => report == InstalledButFailed(kept)
    case RSweep(kept, _) => report == InstalledButFailed(kept)
    case _ => false
  }

  predicate SaysMoved(kept: Option<Aside>, report: Report) {
    match kept
    case None => report == Untouched
    case Some(aside) => report == if aside.moved == 0 then Untouched else MovedTo(aside.d)
  }

  /** The files a restore leaves that fails in a step: as they were, except that a checkpoint may have folded the log
      and that a failing copy is removed, cut off or whole. */
  predicate FailsLeaving(p: Proc, f: Files, f': Files)
    requires p.command.Restore?
  {
    match p.pc
    case RCheckpoint => IsFold(f, f')
    case RMove(_, k) => f' == f && Exists(f, k)
    case RCopying(_) => f' == f || f' == f.(temp := NoTemp) || f' == f.(temp := Whole(Copied(p.command.from)))
    case _ => f' == f
  }

  /** A restore can give up in every step, with exactly that sentence, leaving exactly such files; only a file that is not
      there is never failed to be moved. */
  lemma RestoreGivesUpSaying(p: Proc, f: Files, f': Files, report: Report)
    requires p.command.Restore? && !Shared(p.pc)
    ensures WorkStep(p, f, p.(pc := Release(1, report)), f') <==> FailsSaying(p.pc, report) && FailsLeaving(p, f, f')
  {
  }

  /** Moving a file aside takes that file, if it is there, from beside the database into the directory, and leaves every
      other file, here and in all directories, where it is. */
  lemma MovesThatFile(f: Files, d: Dir, k: nat)
    requires d in f.saved && k <= 2
    ensures var g := MoveAside(f, d, k);
            && !Exists(g, k) && g.temp == f.temp && g.saved.Keys == f.saved.Keys
            && (forall e :: e in f.saved && e != d ==> g.saved[e] == f.saved[e])
            && (forall j: nat :: j <= 2 && j != k ==> (Exists(g, j) <==> Exists(f, j)))
            && (k != 0 ==> g.main == f.main && g.saved[d].main == f.saved[d].main)
            && (k != 1 ==> g.wal == f.wal && g.saved[d].wal == f.saved[d].wal)
            && (k != 2 ==> g.saved[d].shm == f.saved[d].shm)
            && (k == 0 ==> g.saved[d].main == if f.main.Some? then f.main else f.saved[d].main)
            && (k == 1 ==> g.saved[d].wal == if f.wal.Some? then f.wal else f.saved[d].wal)
            && (k == 2 ==> g.saved[d].shm == (f.shm || f.saved[d].shm))
  {
  }

  /** It can fail before it touches anything, whatever the backup is. */
  lemma RestoreCanFailUntouched(s: System, pid: Pid)
    requires Fresh(s) && pid in s.procs && s.procs[pid].command.Restore?
    ensures CanLeaveFiles(s, pid, [Acquired, Released(true)], 1, Untouched, s.files)
  {
    ReachesStart(s);
    var p := ReachesLocked(s, s, pid);
    var gives := p.(pc := Release(1, Untouched));
    ReachesWork(s, s, pid, p, s.files, gives, s.files);
    ReleasesLeaving(s, pid, gives, s.files);
    assert p.log + [Released(true)] == [Acquired, Released(true)];
  }

  /** It can fail with the database moved aside and nothing in its place, and names the directory. */
  lemma RestoreCanFailMoved(s: System, pid: Pid) returns (aside: Aside, f: Files)
    requires Fresh(s) && pid in s.procs && s.procs[pid].command.Restore? && Verifiable(s.procs[pid].command.from, s.files)
    requires s.files.main.Some?
    ensures CanLeaveFiles(s, pid, [Acquired, Released(true)], 1, MovedTo(aside.d), f)
    ensures f.main == None && f.wal == None && !f.shm && KeptFrom(s.files, Some(aside), f)
  {
    ReachesStart(s);
    var p, g := ReachesCopy(s, s, pid);
    aside, f := p.pc.kept.value, g;
    var gives := p.(pc := Release(1, MovedTo(aside.d)));
    ReachesWork(s, s, pid, p, f, gives, f);
    ReleasesLeaving(s, pid, gives, f);
    assert p.log + [Released(true)] == [Acquired, Released(true)];
  }

  /** It can fail after it installed the backup. */
  lemma RestoreCanFailInstalled(s: System, pid: Pid) returns (kept: Option<Aside>, f: Files)
    requires Fresh(s) && pid in s.procs && s.procs[pid].command.Restore? && Verifiable(s.procs[pid].command.from, s.files)
    ensures CanLeaveFiles(s, pid, [Acquired, Installed, Released(true)], 1, InstalledButFailed(kept), f)
    ensures f.main == Some(Copied(s.procs[pid].command.from)) && KeptFrom(s.files, kept, f)
  {
    ReachesStart(s);
    var p, g := ReachesCopy(s, s, pid);
    var installed, h := ReachesInstalled(s, s, pid, p, g);
    kept, f := p.pc.kept, h;
    var gives := installed.(pc := Release(1, InstalledButFailed(kept)));
    ReachesWork(s, s, pid, installed, h, gives, h);
    ReleasesLeaving(s, pid, gives, f);
    assert gives.log + [Released(true)] == [Acquired, Installed, Released(true)];
  }
}
