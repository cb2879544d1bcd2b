/** Which sentences of the maintenance commands can be false.  For every initial state the exact condition under which
    a command's sentences are true in all runs, and a run that ends in a false one wherever it does not hold. */
module MaintenanceReports {

  import opened Wrappers
  import opened OfflineMaintenance
  import opened MaintenanceSafety

  /* ---------------------------------------------------------------- building runs */

  /** Some run leads from s to t. */
  ghost predicate Reaches(s: System, t: System) {
    exists run: seq<System> :: Steps(run) && run[0] == s && run[|run| - 1] == t
  }

  /** The state t with process pid, the files and the lock replaced. */
  function With(t: System, pid: Pid, p: Proc, f: Files, lock: Option<Pid>): System {
    System(t.procs[pid := p], f, lock)
  }

  lemma ReachesNext(s: System, t: System, pid: Pid, p: Proc, f: Files, lock: Option<Pid>, p': Proc, f': Files, lock': Option<Pid>)
    requires Reaches(s, With(t, pid, p, f, lock))
    requires Step(pid, p, f, lock, p', f', lock') || Crash(pid, p, f, lock, p', f', lock')
    ensures Reaches(s, With(t, pid, p', f', lock'))
  {
    var last, next := With(t, pid, p, f, lock), With(t, pid, p', f', lock');
    var run: seq<System> :| Steps(run) && run[0] == s && run[|run| - 1] == last;
    var longer := run + [next];
    assert next.procs == last.procs[pid := next.procs[pid]];
    assert NextBy(last, next, pid);
    forall i: nat ensures StepsAt(longer, i) {
      assert StepsAt(run, i);
    }
    assert Steps(longer) && longer[0] == s && longer[|longer| - 1] == next;
  }

  /** A step of the lock holder at its work. */
  lemma ReachesWork(s: System, t: System, pid: Pid, p: Proc, f: Files, p': Proc, f': Files)
    requires Reaches(s, With(t, pid, p, f, Some(pid))) && !Shared(p.pc) && WorkStep(p, f, p', f')
    ensures Reaches(s, With(t, pid, p', f', Some(pid)))
  {
    ReachesNext(s, t, pid, p, f, Some(pid), p', f', Some(pid));
  }

  lemma ReachesStart(s: System)
    ensures Reaches(s, s)
  {
    assert Steps([s]) && [s][0] == s;
  }

  /** From t, where nobody holds the lock, process pid takes it. */
  lemma ReachesLocked(s: System, t: System, pid: Pid) returns (q: Proc)
    requires Reaches(s, t) && t.lock == None && pid in t.procs && t.procs[pid].pc == Prepare
    ensures q == t.procs[pid].(pc := First(q.command), log := t.procs[pid].log + [Acquired], found := Live(t.files))
    ensures Reaches(s, With(t, pid, q, t.files, Some(pid)))
  {
    var f, p := t.files, t.procs[pid];
    assert t == With(t, pid, p, f, None);
    var tries := p.(pc := TryLock);
    q := p.(pc := First(p.command), log := p.log + [Acquired], found := Live(f));
    ReachesNext(s, t, pid, p, f, None, tries, f, None);
    ReachesNext(s, t, pid, tries, f, None, q, f, Some(pid));
  }

  lemma {:induction false} UnusedDir(used: set<Dir>) returns (d: Dir)
    ensures forall u :: u in used ==> u < d
  {
    d := 0;
    if used != {} {
      var u :| u in used;
      var e := UnusedDir(used - {u});
      d := if u < e then e else u + 1;
      assert forall v :: v in used ==> v == u || v in used - {u};
    }
  }

  /** A restore at work in t: it holds the lock and has got as far as pc with files f. */
  ghost predicate Working(s: System, t: System, pid: Pid, p: Proc, f: Files) {
    p.command.Restore? && Reaches(s, With(t, pid, p, f, Some(pid)))
  }

  /** The database that was in the files before is whole in a new directory, or there was none. */
  predicate KeptFrom(was: Files, kept: Option<Aside>, f: Files) {
    if was.main.None? then kept == None
    else kept.Some? && kept.value.moved > 0 && kept.value.d !in was.saved && kept.value.d in f.saved && f.saved[kept.value.d].main == Live(was)
  }

  /** A restore that meets a database verifies its backup and begins to move the database aside. */
  lemma ReachesMove(s: System, t: System, pid: Pid, p: Proc, f: Files) returns (q: Proc, g: Files)
    requires Working(s, t, pid, p, f) && p.pc == RInspect && f.main.Some? && Verifiable(p.command.from, f)
    ensures Working(s, t, pid, q, g) && q.pc.RMove? && q.pc.k == 0 && q.pc.aside.d in g.saved && q.pc.aside.moved == 0
    ensures q == p.(pc := q.pc, verified := Readout(p.command.from, f)) && g.main == Live(f) && g.wal.None? && g.temp == f.temp
    ensures q.pc.aside.d !in f.saved
  {
    var folded := f.(main := Live(f), wal := None);
    DryLive(folded);
    var checks := p.(pc := RCheckpoint, verified := Readout(p.command.from, f));
    var d := UnusedDir(f.saved.Keys);
    q, g := checks.(pc := RMove(Aside(d, 0), 0)), folded.(saved := f.saved[d := Saved(None, None, false)]);
    ReachesWork(s, t, pid, p, f, checks, f);
    ReachesWork(s, t, pid, checks, f, checks.(pc := RMkdir), folded);
    ReachesWork(s, t, pid, checks.(pc := RMkdir), folded, q, g);
  }

  /** It moves the main file. */
  lemma ReachesMoved(s: System, t: System, pid: Pid, p: Proc, f: Files) returns (q: Proc, g: Files)
    requires Working(s, t, pid, p, f) && p.pc == RInspect && f.main.Some? && Verifiable(p.command.from, f)
    ensures Working(s, t, pid, q, g) && q.pc.RMove? && q.pc.k == 1 && q.pc.aside.d in g.saved
    ensures q == p.(pc := q.pc, verified := Readout(p.command.from, f)) && g.main.None? && g.wal.None? && g.temp == f.temp
    ensures KeptFrom(f, Some(q.pc.aside), g)
  {
    var moves, folded := ReachesMove(s, t, pid, p, f);
    var aside := moves.pc.aside;
    q, g := moves.(pc := RMove(Aside(aside.d, 1), 1)), MoveAside(folded, aside.d, 0);
    ReachesWork(s, t, pid, moves, folded, q, g);
  }

  /** It moves the rest. */
  lemma ReachesAside(s: System, t: System, pid: Pid, p: Proc, f: Files) returns (q: Proc, g: Files)
    requires Working(s, t, pid, p, f) && p.pc.RMove? && p.pc.k == 1 && p.pc.aside.d in f.saved && f.wal.None?
    ensures Working(s, t, pid, q, g) && q == p.(pc := q.pc) && q.pc.RCopy?
    ensures g.main == f.main && g.wal.None? && !g.shm && g.temp == f.temp
    ensures forall was: Files :: was.main.Some? && KeptFrom(was, Some(p.pc.aside), f) ==> KeptFrom(was, q.pc.kept, g)
  {
    var last := p.(pc := RMove(p.pc.aside, 2));
    ReachesWork(s, t, pid, p, f, last, f);
    g := MoveAside(f, p.pc.aside.d, 2);
    var after := if Exists(f, 2) then p.pc.aside.(moved := p.pc.aside.moved + 1) else p.pc.aside;
    var syncs := p.(pc := RSyncAside(after));
    ReachesWork(s, t, pid, last, f, syncs, g);
    q := p.(pc := RCopy(Some(after)));
    ReachesWork(s, t, pid, syncs, g, q, g);
  }

  /** A restore that can verify its backup gets to copy it, with nothing under the real name. */
  lemma ReachesCopy(s: System, t: System, pid: Pid) returns (q: Proc, g: Files)
    requires Reaches(s, t) && t.lock == None && pid in t.procs && t.procs[pid].pc == Prepare
    requires t.procs[pid].command.Restore? && Verifiable(t.procs[pid].command.from, t.files)
    ensures Working(s, t, pid, q, g) && q.pc.RCopy? && q.command == t.procs[pid].command && q.found == Live(t.files)
    ensures q.log == t.procs[pid].log + [Acquired] && KeptFrom(t.files, q.pc.kept, g)
    ensures q.verified == Readout(q.command.from, t.files) && g.main.None?
    ensures if t.files.main.Some? then g.wal.None? && !g.shm else g == t.files && q.pc == RCopy(None)
  {
    var p := ReachesLocked(s, t, pid);
    if t.files.main.Some? {
      var moved, f := ReachesMoved(s, t, pid, p, t.files);
      q, g := ReachesAside(s, t, pid, moved, f);
    } else {
      q, g := p.(pc := RCopy(None), verified := Readout(p.command.from, t.files)), t.files;
      ReachesWork(s, t, pid, p, t.files, q, g);
    }
  }

  /** It copies the backup. */
  lemma ReachesInstall(s: System, t: System, pid: Pid, p: Proc, f: Files) returns (q: Proc, g: Files)
    requires Working(s, t, pid, p, f) && p.pc.RCopy?
    ensures Working(s, t, pid, q, g) && q == p.(pc := RInstall(p.pc.kept)) && g == f.(temp := Whole(Copied(p.command.from)))
  {
    var copying, syncing := p.(pc := RCopying(p.pc.kept)), p.(pc := RSyncCopy(p.pc.kept));
    q, g := p.(pc := RInstall(p.pc.kept)), f.(temp := Whole(Copied(p.command.from)));
    ReachesWork(s, t, pid, p, f, copying, f.(temp := Torn));
    ReachesWork(s, t, pid, copying, f.(temp := Torn), syncing, g);
    ReachesWork(s, t, pid, syncing, g, q, g);
  }

  /** It puts the copy under the real name. */
  lemma ReachesInstalled(s: System, t: System, pid: Pid, p: Proc, f: Files) returns (q: Proc, g: Files)
    requires Working(s, t, pid, p, f) && p.pc.RCopy?
    ensures Working(s, t, pid, q, g) && q == p.(pc := RSyncParent(p.pc.kept), log := p.log + [Installed])
    ensures g == f.(main := Some(Copied(p.command.from)), temp := NoTemp)
  {
    var installs, copied := ReachesInstall(s, t, pid, p, f);
    q := p.(pc := RSyncParent(p.pc.kept), log := p.log + [Installed]);
    g := f.(main := Some(Copied(p.command.from)), temp := NoTemp);
    ReachesWork(s, t, pid, installs, copied, q, g);
  }

  /** It removes a leftover log and index. */
  lemma ReachesSwept(s: System, t: System, pid: Pid, p: Proc, f: Files) returns (q: Proc, g: Files)
    requires Working(s, t, pid, p, f) && p.pc.RSyncParent?
    ensures Working(s, t, pid, q, g) && q == p.(pc := Release(0, Restored(p.pc.kept))) && g == f.(wal := None, shm := false)
  {
    var first, second := p.(pc := RSweep(p.pc.kept, 0)), p.(pc := RSweep(p.pc.kept, 1));
    ReachesWork(s, t, pid, p, f, first, f);
    ReachesWork(s, t, pid, first, f, second, f.(wal := None));
    q, g := p.(pc := Release(0, Restored(p.pc.kept))), f.(wal := None, shm := false);
    ReachesWork(s, t, pid, second, f.(wal := None), q, g);
  }

  /** A restore that can verify its backup can succeed. */
  lemma ReachesSuccess(s: System, t: System, pid: Pid) returns (q: Proc, g: Files)
    requires Reaches(s, t) && t.lock == None && pid in t.procs && t.procs[pid].pc == Prepare
    requires t.procs[pid].command.Restore? && Verifiable(t.procs[pid].command.from, t.files)
    ensures Working(s, t, pid, q, g) && q.pc.Release? && q.pc.report.Restored? && q.command == t.procs[pid].command
    ensures q.pc.code == 0 && q.log == t.procs[pid].log + [Acquired] + [Installed] && KeptFrom(t.files, q.pc.report.kept, g)
    ensures q.verified == Readout(q.command.from, t.files) && Live(g) == Some(Copied(q.command.from)) && g.wal == None && !g.shm
  {
    var p, f := ReachesCopy(s, t, pid);
    var installed, h := ReachesInstalled(s, t, pid, p, f);
    q, g := ReachesSwept(s, t, pid, installed, h);
    DryLive(g);
  }

  /** Where no main file is, it can install its backup and fail right after that. */
  lemma ReachesFailure(s: System, t: System, pid: Pid) returns (q: Proc, g: Files)
    requires Reaches(s, t) && t.lock == None && pid in t.procs && t.procs[pid].pc == Prepare && t.files.main.None?
    requires t.procs[pid].command.Restore? && Verifiable(t.procs[pid].command.from, t.files)
    ensures Working(s, t, pid, q, g) && q.command == t.procs[pid].command && q.pc == Release(1, InstalledButFailed(None))
    ensures q.found == None && q.verified == Readout(q.command.from, t.files)
    ensures g == t.files.(main := Some(Copied(q.command.from)), temp := NoTemp)
  {
    var p, f := ReachesCopy(s, t, pid);
    var installed, h := ReachesInstalled(s, t, pid, p, f);
    q, g := installed.(pc := Release(1, InstalledButFailed(None))), h;
    ReachesWork(s, t, pid, installed, h, q, g);
  }

  /** A restore can be killed when it has moved the database aside and nothing is under the real name. */
  lemma ReachesNoMain(s: System, pid: Pid) returns (q: Proc, f: Files)
    requires Fresh(s) && pid in s.procs && s.procs[pid].command.Restore?
    requires s.files.main.Some? && Verifiable(s.procs[pid].command.from, s.files)
    ensures f.main.None? && Reaches(s, With(s, pid, q, f, None))
  {
    ReachesStart(s);
    var p := ReachesLocked(s, s, pid);
    var moved, g := ReachesMoved(s, s, pid, p, s.files);
    q, f := moved.(pc := Crashed), g;
    ReachesNext(s, s, pid, moved, g, Some(pid), q, f, None);
  }

  /** A restore can be killed when it has copied its backup to the temporary name. */
  lemma ReachesLeftover(s: System, pid: Pid) returns (q: Proc, f: Files)
    requires Fresh(s) && pid in s.procs && s.procs[pid].command.Restore? && s.procs[pid].command.from.Elsewhere?
    requires s.procs[pid].command.from.main != []
    ensures f.temp == Whole(s.procs[pid].command.from.main) && Reaches(s, With(s, pid, q, f, None))
  {
    ReachesStart(s);
    var p, g := ReachesCopy(s, s, pid);
    var installs, h := ReachesInstall(s, s, pid, p, g);
    q, f := installs.(pc := Crashed), h;
    ReachesNext(s, s, pid, installs, h, Some(pid), q, f, None);
  }

  /* ---------------------------------------------------------------- whether a backup can pass verification */

  /** The restore pid can leave a whole, non-empty copy of its backup under the temporary name. */
  ghost predicate CanLeave(s: System, pid: Pid) {
    && pid in s.procs && s.procs[pid].command.Restore?
    && s.procs[pid].command.from.Elsewhere? && s.procs[pid].command.from.main != []
  }

  /** In some run the restore pid gets past verification. */
  ghost predicate CanVerify(s: System, pid: Pid)
    requires pid in s.procs && s.procs[pid].command.Restore?
  {
    || Verifiable(s.procs[pid].command.from, s.files)
    || (s.procs[pid].command.from.Leftover? && exists other :: CanLeave(s, other))
  }

  /** The restore has verified its backup, and is at work or says so. */
  predicate Past(pc: Pc) {
    || pc.RCheckpoint? || pc.RMkdir? || pc.RMove? || pc.RSyncAside? || pc.RCopy? || pc.RCopying? || pc.RSyncCopy?
    || pc.RInstall? || pc.RSyncParent? || pc.RSweep?
    || ((pc.CloseDb? || pc.Release? || pc.Leaving? || pc.Exited?) && SpeaksOfMoving(pc.report))
  }

  predicate SpeaksOfMoving(report: Report) { report.MovedTo? || SaysInstalled(report) }

  /** What can be read under the temporary name was there or could be left there; nobody got past verification who
      could not. */
  ghost predicate Gated(s0: System, s: System) {
    && s.procs.Keys == s0.procs.Keys
    && (s.files.temp.Whole? && s.files.temp.content != [] ==> s.files.temp == s0.files.temp || exists other :: CanLeave(s0, other))
    && (forall pid :: pid in s.procs ==> s.procs[pid].command == s0.procs[pid].command)
    && (forall pid :: pid in s.procs && s.procs[pid].command.Restore? && Past(s.procs[pid].pc) ==> CanVerify(s0, pid))
  }

  lemma RestoreStepIsGated(p: Proc, f: Files, p': Proc, f': Files)
    requires p.command.Restore? && (PreserveStep(p, f, p', f') || InstallStep(p, f, p', f'))
    ensures p'.command == p.command && (Past(p.pc) || p.pc.RInspect?)
    ensures f'.temp == f.temp || !f'.temp.Whole? || f'.temp == Whole(Copied(p.command.from))
    ensures Past(p'.pc) && !Past(p.pc) ==> Verifiable(p.command.from, f)
    ensures !Past(p.pc) ==> f' == f
  {
  }

  /** How a step touches the temporary file, and how a process gets past verification. */
  lemma StepIsGated(pid: Pid, p: Proc, f: Files, lock: Option<Pid>, p': Proc, f': Files, lock': Option<Pid>)
    requires Step(pid, p, f, lock, p', f', lock') || Crash(pid, p, f, lock, p', f', lock')
    ensures p'.command == p.command
    ensures f'.temp == f.temp || !f'.temp.Whole? || (p.command.Restore? && f'.temp == Whole(Copied(p.command.from)))
    ensures !p.command.Restore? ==> f'.temp == f.temp
    ensures p.command.Restore? && Past(p'.pc) && !Past(p.pc) ==> Verifiable(p.command.from, f)
    ensures p.command.Restore? && !Past(p.pc) ==> f' == f || p.pc.CloseDb?
  {
    if p.command.Restore? && !Shared(p.pc) && !Crash(pid, p, f, lock, p', f', lock') {
      RestoreStepIsGated(p, f, p', f');
    }
  }

  lemma GatedStep(s0: System, s: System, s': System)
    requires Gated(s0, s) && Next(s, s')
    ensures Gated(s0, s')
  {
    var pid :| NextBy(s, s', pid);
    var p, p' := s.procs[pid], s'.procs[pid];
    StepIsGated(pid, p, s.files, s.lock, p', s'.files, s'.lock);
    if s'.files.temp != s.files.temp && s'.files.temp.Whole? && s'.files.temp.content != [] {
      assert CanLeave(s0, pid);
    }
  }

  lemma {:induction false} GatedAlways(run: seq<System>, i: nat)
    requires Steps(run) && Fresh(run[0]) && i < |run|
    ensures Gated(run[0], run[i])
  {
    if i > 0 {
      GatedAlways(run, i - 1);
      assert StepsAt(run, i - 1);
      GatedStep(run[0], run[i - 1], run[i]);
    }
  }

  /** A restore that can verify its backup in no run never gets to speak of moved or restored files. */
  lemma UnverifiableNeverInstalls(run: seq<System>, i: nat, pid: Pid)
    requires Steps(run) && Fresh(run[0]) && i < |run|
    requires pid in run[0].procs && run[0].procs[pid].command.Restore? && !CanVerify(run[0], pid)
    ensures pid in run[i].procs && !Past(run[i].procs[pid].pc)
  {
    GatedAlways(run, i);
  }

  /* ---------------------------------------------------------------- the live database */

  ghost predicate LiveClaimTrue(s: System, pid: Pid) {
    pid in s.procs && s.procs[pid].pc.Release? ==> LiveClaim(s.procs[pid], s.files, s.procs[pid].pc.report)
  }

  ghost predicate AllReportTrue(s: System, pid: Pid) {
    pid in s.procs && s.procs[pid].pc.Release? ==> ReportTrue(s.procs[pid], s.files, s.procs[pid].pc.report)
  }

  /** A backup that is not one plain file is verified and reported restored, and what is installed is something else. */
  lemma SuccessIsFalse(s: System, t: System, pid: Pid) returns (last: System)
    requires Reaches(s, t) && t.lock == None && pid in t.procs && t.procs[pid].pc == Prepare
    requires t.procs[pid].command.Restore? && !Plain(t.procs[pid].command.from) && Verifiable(t.procs[pid].command.from, t.files)
    ensures Reaches(s, last) && !LiveClaimTrue(last, pid)
  {
    var q, f := ReachesSuccess(s, t, pid);
    assert HasVerified(q);
    CopiedIsVerifiedIffPlain(q);
    last := With(t, pid, q, f, Some(pid));
    assert last.procs[pid] == q;
  }

  lemma NotPlainGoesWrong(s: System, pid: Pid) returns (last: System)
    requires Fresh(s) && pid in s.procs && s.procs[pid].command.Restore? && CanVerify(s, pid) && !Plain(s.procs[pid].command.from)
    ensures Reaches(s, last) && !LiveClaimTrue(last, pid)
  {
    if Verifiable(s.procs[pid].command.from, s.files) {
      ReachesStart(s);
      last := SuccessIsFalse(s, s, pid);
    } else {
      var other :| CanLeave(s, other);
      var q, f := ReachesLeftover(s, other);
      var t := With(s, other, q, f, None);
      assert t.procs[pid] == s.procs[pid];
      last := SuccessIsFalse(s, t, pid);
    }
  }

  /** A leftover log is read as part of the installed backup until the restore gets to remove it. */
  lemma StrayLogIsReplayed(s: System, pid: Pid) returns (last: System)
    requires Fresh(s) && !NoStrayLog(s.files) && pid in s.procs && s.procs[pid].command.Restore?
    requires Plain(s.procs[pid].command.from) && Verifiable(s.procs[pid].command.from, s.files)
    ensures Reaches(s, last) && !LiveClaimTrue(last, pid)
  {
    ReachesStart(s);
    var q, f := ReachesFailure(s, s, pid);
    last := With(s, pid, q, f, Some(pid));
    var main := q.command.from.main;
    assert main + q.command.from.log == main;
    assert Live(f).value[|main|..] == LogOf(s.files);
    assert last.procs[pid] == q;
  }

  lemma LiveClaimsHold(run: seq<System>, pid: Pid)
    requires IsRun(run) && pid in run[0].procs && run[0].procs[pid].command.Restore? && Plain(run[0].procs[pid].command.from)
    ensures LiveClaimTrue(run[|run| - 1], pid)
  {
    GatedAlways(run, |run| - 1);
    if run[|run| - 1].procs[pid].pc.Release? {
      RestoreReportIsTrue(run, |run| - 1, pid);
    }
  }

  /** What a restore says about the database at its real path is true in all runs if and only if its backup is one plain
      file, not the temporary file and without a log of its own, and no log with content lies where the main file is
      missing.  (A restore whose backup never passes verification says nothing of the kind.) */
  lemma LiveClaimsAreTrueIff(s: System, pid: Pid)
    requires Fresh(s) && pid in s.procs && s.procs[pid].command.Restore? && CanVerify(s, pid)
    ensures Plain(s.procs[pid].command.from) && NoStrayLog(s.files)
       <==> forall run :: Steps(run) && run[0] == s ==> LiveClaimTrue(run[|run| - 1], pid)
  {
    if !Plain(s.procs[pid].command.from) {
      var last := NotPlainGoesWrong(s, pid);
    } else if !NoStrayLog(s.files) {
      var last := StrayLogIsReplayed(s, pid);
    } else {
      forall run | Steps(run) && run[0] == s ensures LiveClaimTrue(run[|run| - 1], pid) {
        LiveClaimsHold(run, pid);
      }
    }
  }

  /* ---------------------------------------------------------------- the previous database */

  /** A false sentence: whoever restores where there is no database may be told of a previous one. */
  lemma EmptyDirectoryIsNamed(s: System, t: System, pid: Pid) returns (last: System)
    requires Reaches(s, t) && t.lock == None && t.files.main.None?
    requires pid in t.procs && t.procs[pid].pc == Prepare && t.procs[pid].command.Restore?
    requires Verifiable(t.procs[pid].command.from, t.files)
    ensures Reaches(s, last) && !AllReportTrue(last, pid)
  {
    var q, f := ReachesFailure(s, t, pid);
    last := With(t, pid, q, f, Some(pid));
    assert last.procs[pid] == q;
  }

  /** Another restore that is neither past verification nor can get there. */
  predicate Barred(p: Proc, f: Files) { p.command.Restore? ==> !Past(p.pc) && !Verifiable(p.command.from, f) }

  /** The restore still has a database to find, which nobody can move, or has found one. */
  ghost predicate Finds(s: System, pid: Pid) {
    && pid in s.procs && s.procs[pid].command.Restore?
    && (if Critical(s.procs[pid].pc) then s.procs[pid].found.Some?
        else s.procs[pid].pc.Prepare? || s.procs[pid].pc.TryLock? ==>
          s.files.main.Some? && forall other :: other in s.procs && other != pid ==> Barred(s.procs[other], s.files))
  }

  lemma BarredKeepsFiles(pid: Pid, p: Proc, f: Files, lock: Option<Pid>, p': Proc, f': Files, lock': Option<Pid>)
    requires Step(pid, p, f, lock, p', f', lock') || Crash(pid, p, f, lock, p', f', lock')
    requires Barred(p, f) && f.main.Some? && LogFits(p)
    ensures f'.main.Some? && f'.temp == f.temp && Barred(p', f')
  {
    StepIsGated(pid, p, f, lock, p', f', lock');
  }

  lemma CommandStays(pid: Pid, p: Proc, f: Files, lock: Option<Pid>, p': Proc, f': Files, lock': Option<Pid>)
    requires Step(pid, p, f, lock, p', f', lock') || Crash(pid, p, f, lock, p', f', lock')
    ensures p'.command == p.command
    ensures Critical(p.pc) ==> p'.found == p.found && !p'.pc.Prepare? && !p'.pc.TryLock?
    ensures !Critical(p.pc) && Critical(p'.pc) ==> p.pc.TryLock? && p'.found == Live(f)
    ensures !Critical(p.pc) && (p'.pc.Prepare? || p'.pc.TryLock?) ==> p.pc.Prepare? && f' == f
  {
    if !Shared(p.pc) && !Crash(pid, p, f, lock, p', f', lock') {
      WorkStepStaysInside(p, f, p', f');
    }
  }

  /** Readability depends on the temporary file alone. */
  lemma SameTempSameBarred(p: Proc, f: Files, f': Files)
    requires Barred(p, f) && f'.temp == f.temp
    ensures Barred(p, f')
  {
  }

  lemma FindsStep(s: System, s': System, mover: Pid, pid: Pid)
    requires Finds(s, pid) && NextBy(s, s', mover) && LogFits(s.procs[mover])
    ensures Finds(s', pid)
  {
    var p, p' := s.procs[mover], s'.procs[mover];
    CommandStays(mover, p, s.files, s.lock, p', s'.files, s'.lock);
    var q := s.procs[pid];
    if mover != pid && (q.pc.Prepare? || q.pc.TryLock?) {
      BarredKeepsFiles(mover, p, s.files, s.lock, p', s'.files, s'.lock);
      forall other | other in s'.procs && other != pid && other != mover ensures Barred(s'.procs[other], s'.files) {
        SameTempSameBarred(s.procs[other], s.files, s'.files);
      }
    }
  }

  lemma {:induction false} FindsAlways(run: seq<System>, i: nat, pid: Pid)
    requires Steps(run) && Fresh(run[0]) && i < |run| && Finds(run[0], pid)
    ensures Finds(run[i], pid)
  {
    if i > 0 {
      FindsAlways(run, i - 1, pid);
      assert StepsAt(run, i - 1);
      var mover :| NextBy(run[i - 1], run[i], mover);
      FitsAlways(run, i - 1, mover);
      FindsStep(run[i - 1], run[i], mover, pid);
    }
  }

  lemma FoundMeansTrue(run: seq<System>, pid: Pid)
    requires IsRun(run) && Finds(run[0], pid) && Plain(run[0].procs[pid].command.from)
    ensures AllReportTrue(run[|run| - 1], pid)
  {
    GatedAlways(run, |run| - 1);
    FindsAlways(run, |run| - 1, pid);
    if run[|run| - 1].procs[pid].pc.Release? {
      RestoreReportIsTrue(run, |run| - 1, pid);
    }
  }

  /** No other restore could verify its backup in the files as they are. */
  ghost predicate Alone(s: System, pid: Pid) {
    forall other :: other in s.procs && other != pid && s.procs[other].command.Restore? ==> !Verifiable(s.procs[other].command.from, s.files)
  }

  /** Every sentence of a restore is true in all runs if and only if its backup is one plain file, a database is there,
      and no other restore could verify a backup: such a one may be killed between moving the database aside and
      installing. */
  lemma ReportsAreTrueIff(s: System, pid: Pid)
    requires Fresh(s) && pid in s.procs && s.procs[pid].command.Restore? && CanVerify(s, pid)
    ensures Plain(s.procs[pid].command.from) && s.files.main.Some? && Alone(s, pid)
       <==> forall run :: Steps(run) && run[0] == s ==> AllReportTrue(run[|run| - 1], pid)
  {
    var from := s.procs[pid].command.from;
    if !Plain(from) {
      var last := NotPlainGoesWrong(s, pid);
      assert !AllReportTrue(last, pid);
    } else if s.files.main.None? {
      ReachesStart(s);
      var last := EmptyDirectoryIsNamed(s, s, pid);
    } else if !Alone(s, pid) {
      var other :| other in s.procs && other != pid && s.procs[other].command.Restore? && Verifiable(s.procs[other].command.from, s.files);
      var q, f := ReachesNoMain(s, other);
      var t := With(s, other, q, f, None);
      assert t.procs[pid] == s.procs[pid];
      var last := EmptyDirectoryIsNamed(s, t, pid);
    } else {
      forall run | Steps(run) && run[0] == s ensures AllReportTrue(run[|run| - 1], pid) {
        FoundMeansTrue(run, pid);
      }
    }
  }

  /* ---------------------------------------------------------------- owner recovery */

  /** "Verified backup written" is said exactly of a recovery that wrote one. */
  ghost predicate SentenceTrue(s: System, pid: Pid) {
    pid in s.procs && s.procs[pid].pc.CloseDb? && s.procs[pid].pc.report.Recovered? ==>
      (s.procs[pid].pc.report.named <==> BackedUp in s.procs[pid].log)
  }

  lemma SaysWhatIsLogged(p: Proc)
    requires p.pc.CloseDb? && p.pc.report.Recovered? && p.command.RecoverOwner? && LogFits(p) && CodeFits(p)
    ensures (p.pc.report.named <==> BackedUp in p.log) <==> !(p.command.allowNoBackup && p.command.pathGiven)
  {
    RecoveryEvents(p.command);
    var all := Recovery(p.command);
    var k :| 0 <= k < |p.log| && p.log[k] == OwnerReset;
    assert p.log[k] == all[k];
    assert p.log == all;
  }

  lemma SentencesHold(run: seq<System>, pid: Pid)
    requires Steps(run) && Fresh(run[0]) && pid in run[0].procs && run[0].procs[pid].command.RecoverOwner?
    requires !(run[0].procs[pid].command.allowNoBackup && run[0].procs[pid].command.pathGiven)
    ensures SentenceTrue(run[|run| - 1], pid)
  {
    GatedAlways(run, |run| - 1);
    FitsAlways(run, |run| - 1, pid);
    var p := run[|run| - 1].procs[pid];
    if p.pc.CloseDb? && p.pc.report.Recovered? {
      SaysWhatIsLogged(p);
    }
  }

  /** The work of an owner recovery up to its migrations: it makes a backup unless told to go without one. */
  function BeforeMigrating(c: Command): seq<Event>
    requires c.RecoverOwner?
  {
    if c.allowNoBackup then [Acquired, DbOpened] else [Acquired, DbOpened, BackedUp]
  }

  /** An owner recovery at work: it holds the lock, has a database and has logged what it did. */
  ghost predicate Recovering(s: System, pid: Pid, q: Proc, f: Files) {
    pid in s.procs && q.command == s.procs[pid].command && q.command.RecoverOwner? && f.main.Some? && Reaches(s, With(s, pid, q, f, Some(pid)))
  }

  lemma RecoveryStep(s: System, pid: Pid, p: Proc, q: Proc, f: Files)
    requires Recovering(s, pid, p, f) && RecoverStep(p, f, q, f) && !Shared(p.pc) && q.command == p.command
    ensures Recovering(s, pid, q, f)
  {
    ReachesWork(s, s, pid, p, f, q, f);
  }

  lemma ReachesOpened(s: System, pid: Pid) returns (q: Proc, f: Files)
    requires Fresh(s) && pid in s.procs && s.procs[pid].command.RecoverOwner?
    ensures Recovering(s, pid, q, f) && q.pc == CBackup && q.log == [Acquired, DbOpened] && f == Created(s.files)
  {
    ReachesStart(s);
    var p := ReachesLocked(s, s, pid);
    q, f := p.(pc := CBackup, log := p.log + [DbOpened]), Created(s.files);
    ReachesWork(s, s, pid, p, s.files, q, f);
  }

  /** It gets to migrate, with a backup unless none is wanted. */
  lemma ReachesMigrate(s: System, pid: Pid) returns (q: Proc, f: Files)
    requires Fresh(s) && pid in s.procs && s.procs[pid].command.RecoverOwner?
    ensures Recovering(s, pid, q, f) && q.pc == CMigrate && q.log == BeforeMigrating(q.command)
  {
    var p, g := ReachesOpened(s, pid);
    f := g;
    q := if p.command.allowNoBackup then p.(pc := CMigrate) else p.(pc := CMigrate, log := p.log + [BackedUp]);
    RecoveryStep(s, pid, p, q, f);
  }

  lemma ReachesSecure(s: System, pid: Pid) returns (q: Proc, f: Files)
    requires Fresh(s) && pid in s.procs && s.procs[pid].command.RecoverOwner?
    ensures Recovering(s, pid, q, f) && q.pc == CSecure && q.log == BeforeMigrating(q.command) + [Migrated]
  {
    var p, g := ReachesMigrate(s, pid);
    q, f := p.(pc := CSecure, log := p.log + [Migrated]), g;
    RecoveryStep(s, pid, p, q, f);
  }

  lemma ReachesReset(s: System, pid: Pid) returns (q: Proc, f: Files)
    requires Fresh(s) && pid in s.procs && s.procs[pid].command.RecoverOwner?
    ensures Recovering(s, pid, q, f) && q.pc == CReset && q.log == BeforeMigrating(q.command) + [Migrated, Secured]
  {
    var p, g := ReachesSecure(s, pid);
    q, f := p.(pc := CReset, log := p.log + [Secured]), g;
    RecoveryStep(s, pid, p, q, f);
  }

  /** And completes, naming a path where it was given one or made a backup. */
  lemma ReachesRecovered(s: System, pid: Pid) returns (q: Proc, f: Files)
    requires Fresh(s) && pid in s.procs && s.procs[pid].command.RecoverOwner?
    ensures Recovering(s, pid, q, f) && q.log == BeforeMigrating(q.command) + [Migrated, Secured, OwnerReset]
    ensures q.pc == CloseDb(0, Recovered(!q.command.allowNoBackup || q.command.pathGiven))
  {
    var p, g := ReachesReset(s, pid);
    f := g;
    q := p.(pc := CloseDb(0, Recovered(!p.command.allowNoBackup || p.command.pathGiven)), log := p.log + [OwnerReset]);
    RecoveryStep(s, pid, p, q, f);
  }

  /** The sentence an owner recovery completes with is true in all runs if and only if it was not given a path along with
      leave to go without a backup: then it names a backup that was never written. */
  lemma RecoverySentencesAreTrueIff(s: System, pid: Pid)
    requires Fresh(s) && pid in s.procs && s.procs[pid].command.RecoverOwner?
    ensures !(s.procs[pid].command.allowNoBackup && s.procs[pid].command.pathGiven)
       <==> forall run :: Steps(run) && run[0] == s ==> SentenceTrue(run[|run| - 1], pid)
  {
    if s.procs[pid].command == RecoverOwner(true, true) {
      var q, f := ReachesRecovered(s, pid);
      var last := With(s, pid, q, f, Some(pid));
      assert last.procs[pid] == q && !SentenceTrue(last, pid);
    } else {
      forall run | Steps(run) && run[0] == s ensures SentenceTrue(run[|run| - 1], pid) {
        SentencesHold(run, pid);
      }
    }
  }
}
