/** The offline maintenance commands and the server around one database lock.

    Any number of processes run `restore`, `recover-owner` or the server.  Each is a program counter
    over the steps of its command; every step may fail, any process may be killed at any point, and
    all of them interleave freely.  The operating system frees a lock when its process ends.

    A database is a set of files.  The main file and the write-ahead log each hold committed
    transactions; what the database contains is the main file followed by the log.  `restore`
    replaces that set, and the promise is that nothing committed is ever lost by doing so. */
module OfflineMaintenance {

  import opened Wrappers

  type Pid = nat
  type Dir = nat
  type Content = seq<nat>

  /* ---------------------------------------------------------------- files */

  /** A pre-restore directory: what was moved aside. */
  datatype Saved = Saved(main: Option<Content>, wal: Option<Content>, shm: bool)

  /** The file a backup is copied to before it is installed: absent, cut off somewhere, or a whole main file. */
  datatype Temp = NoTemp | Torn | Whole(content: Content)

  /** The files beside the database path: the set itself, the copy being installed, and every
      pre-restore directory so far. */
  datatype Files = Files(main: Option<Content>, wal: Option<Content>, shm: bool,
                         temp: Temp, saved: map<Dir, Saved>)

  function LogOf(f: Files): Content {
    if f.wal.Some? then f.wal.value else []
  }

  /** What the database at its real path contains, if there is one. */
  function Live(f: Files): Option<Content> {
    if f.main.Some? then Some(f.main.value + LogOf(f)) else None
  }

  /** Only the database set itself differs. */
  predicate SetOnly(f: Files, f': Files) { f' == f.(main := f'.main, wal := f'.wal, shm := f'.shm) }

  /** Opening, closing or checkpointing: the log is folded into the main file, wholly or in part, and side files come
      and go, but the database contains what it contained. */
  predicate IsFold(f: Files, f': Files) {
    SetOnly(f, f') && Live(f') == Live(f) && (f.main.None? ==> LogOf(f') == LogOf(f))
  }

  /** Transactions were committed: the database contains what it contained and possibly more. */
  predicate IsCommit(f: Files, f': Files) {
    if f.main.None? then f' == f
    else SetOnly(f, f') && Live(f').Some? && Live(f).value <= Live(f').value
  }

  /** Opening a database creates it when it is not there. */
  function Created(f: Files): Files {
    if f.main.None? then f.(main := Some([])) else f
  }

  predicate IsOpened(f: Files, f': Files) { IsFold(Created(f), f') }

  /** File k of the set: the main file, the log, the shared-memory index. */
  predicate Exists(f: Files, k: nat) {
    if k == 0 then f.main.Some? else if k == 1 then f.wal.Some? else f.shm
  }

  function MoveAside(f: Files, d: Dir, k: nat): Files
    requires d in f.saved
  {
    if !Exists(f, k) then f
    else if k == 0 then f.(main := None, saved := f.saved[d := f.saved[d].(main := f.main)])
    else if k == 1 then f.(wal := None, saved := f.saved[d := f.saved[d].(wal := f.wal)])
    else f.(shm := false, saved := f.saved[d := f.saved[d].(shm := true)])
  }

  /* ---------------------------------------------------------------- processes */

  /** The file a restore is told to restore from: a main file elsewhere, possibly with a log of its own beside it; the
      file an earlier restore left behind under the temporary name; or the database itself. */
  datatype Source = Elsewhere(main: Content, log: Content) | Leftover | Itself

  /** What verification reads.  It opens the backup as a database, so a log beside it counts. */
  function Readout(from: Source, f: Files): Option<Content> {
    match from
    case Elsewhere(main, log) => Some(main + log)
    case Leftover => if f.temp.Whole? then Some(f.temp.content) else None
    case Itself => None
  }

  /** Whether verification can succeed: an empty file has no schema and no baseline identity. */
  predicate Verifiable(from: Source, f: Files) { Readout(from, f).Some? && Readout(from, f).value != [] }

  /** What copying yields: the main file alone, and nothing of a file that opening the destination has just truncated. */
  function Copied(from: Source): Content { if from.Elsewhere? then from.main else [] }

  /** A backup that is one file, elsewhere. */
  predicate Plain(from: Source) { from.Elsewhere? && from.log == [] }

  /** Owner recovery may be told to go without a backup, and may be told where to put one. */
  datatype Command = Restore(from: Source) | RecoverOwner(allowNoBackup: bool, pathGiven: bool) | Serve

  /** Whether owner recovery ends up with a path to name: its own, or a default one when it makes a backup. */
  predicate NamesPath(c: Command) { c.RecoverOwner? && (!c.allowNoBackup || c.pathGiven) }

  /** What a finished command tells the operator: a restore, about the database and where the previous one is kept; a
      recovery, whether it names a verified backup. */
  datatype Report =
    | NoReport | Untouched | MovedTo(d: Dir) | InstalledButFailed(kept: Option<Aside>) | Restored(kept: Option<Aside>)
    | Recovered(named: bool)

  datatype Event = Acquired | DbOpened | BackedUp | Migrated | Secured | OwnerReset | Installed | DbClosed | Released(ok: bool)

  /** The pre-restore directory and how many files were moved into it. */
  datatype Aside = Aside(d: Dir, moved: nat)

  datatype Pc =
    | Prepare | TryLock
    | RInspect | RCheckpoint | RMkdir | RMove(aside: Aside, k: nat) | RSyncAside(aside: Aside)
    | RCopy(kept: Option<Aside>) | RCopying(kept: Option<Aside>) | RSyncCopy(kept: Option<Aside>)
    | RInstall(kept: Option<Aside>) | RSyncParent(kept: Option<Aside>) | RSweep(kept: Option<Aside>, k: nat)
    | COpen | CBackup | CMigrate | CSecure | CReset
    | SOpen | SServe
    | CloseDb(code: int, report: Report) | Release(code: int, report: Report)
    | Leaving(code: int, report: Report) | Exited(code: int, report: Report) | Crashed

  /** found is what the database contained when the process got the lock, verified what it read in its backup. */
  datatype Proc = Proc(command: Command, pc: Pc, log: seq<Event>, found: Option<Content>, verified: Option<Content>)

  predicate Done(pc: Pc) { pc.Exited? || pc.Crashed? }

  /** Between a successful acquire and the attempt to release. */
  predicate Critical(pc: Pc) {
    !pc.Prepare? && !pc.TryLock? && !pc.Leaving? && !Done(pc)
  }

  function First(c: Command): Pc {
    match c
    case Restore(_) => RInspect
    case RecoverOwner(_, _) => COpen
    case Serve => SOpen
  }

  /** The sentence chosen for a failed restore, from the result the restore returned. */
  function FailureReport(installed: bool, kept: Option<Aside>): Report {
    if installed then InstalledButFailed(kept)
    else if kept.Some? && kept.value.moved > 0 then MovedTo(kept.value.d)
    else Untouched
  }

  /** A restore step gives up: files as they are, exit code 1, lock released by the deferred call. */
  predicate Fails(p: Proc, f: Files, p': Proc, f': Files, installed: bool, kept: Option<Aside>) {
    f' == f && p' == p.(pc := Release(1, FailureReport(installed, kept)))
  }

  predicate Goes(p: Proc, p': Proc, pc: Pc) { p' == p.(pc := pc) }

  predicate GoesLogging(p: Proc, p': Proc, pc: Pc, e: Event) { p' == p.(pc := pc, log := p.log + [e]) }

  /** Verify the backup and move the present database aside, whole. */
  predicate PreserveStep(p: Proc, f: Files, p': Proc, f': Files)
    requires p.command.Restore?
  {
    match p.pc
    case RInspect =>
      || Fails(p, f, p', f', false, None)
      || (f' == f && Verifiable(p.command.from, f)
          && p' == p.(pc := if f.main.Some? then RCheckpoint else RCopy(None), verified := Readout(p.command.from, f)))
    case RCheckpoint =>
      // a checkpoint that fails may have folded the log before it did
      || (IsFold(f, f') && Goes(p, p', Release(1, FailureReport(false, None))))
      || (IsFold(f, f') && DryLog(f') && Goes(p, p', RMkdir))
    case RMkdir =>
      || Fails(p, f, p', f', false, None)
      || (p'.pc.RMove? && p'.pc.aside.d !in f.saved && Goes(p, p', RMove(Aside(p'.pc.aside.d, 0), 0))
          && f' == f.(saved := f.saved[p'.pc.aside.d := Saved(None, None, false)]))
    case RMove(aside, k) =>
      || (Exists(f, k) && Fails(p, f, p', f', false, Some(aside)))
      || (aside.d in f.saved && f' == MoveAside(f, aside.d, k)
          && var after := if Exists(f, k) then aside.(moved := aside.moved + 1) else aside;
             Goes(p, p', if k < 2 then RMove(after, k + 1) else RSyncAside(after)))
    case RSyncAside(aside) =>
      || Fails(p, f, p', f', false, Some(aside))
      || (f' == f && Goes(p, p', RCopy(Some(aside))))
    case _ => false
  }

  /** Copy the backup beside the database, make it durable, put it under the real name. */
  predicate InstallStep(p: Proc, f: Files, p': Proc, f': Files)
    requires p.command.Restore?
  {
    match p.pc
    case RCopy(kept) =>
      || Fails(p, f, p', f', false, kept)
      // opening the destination truncates it, also where it is the source
      || (f' == f.(temp := Torn) && Goes(p, p', RCopying(kept)))
    case RCopying(kept) =>
      || (f' == f.(temp := NoTemp) && Goes(p, p', Release(1, FailureReport(false, kept))))
      || (f' == f && Goes(p, p', Release(1, FailureReport(false, kept))))
      || (f' == f.(temp := Whole(Copied(p.command.from))) && Goes(p, p', Release(1, FailureReport(false, kept))))
      || (f' == f.(temp := Whole(Copied(p.command.from))) && Goes(p, p', RSyncCopy(kept)))
    case RSyncCopy(kept) =>
      || Fails(p, f, p', f', false, kept)
      || (f' == f && Goes(p, p', RInstall(kept)))
    case RInstall(kept) =>
      || Fails(p, f, p', f', false, kept)
      || (f.temp.Whole? && f' == f.(main := Some(f.temp.content), temp := NoTemp) && GoesLogging(p, p', RSyncParent(kept), Installed))
    case RSyncParent(kept) =>
      || Fails(p, f, p', f', true, kept)
      || (f' == f && Goes(p, p', RSweep(kept, 0)))
    case RSweep(kept, k) =>
      || Fails(p, f, p', f', true, kept)
      || (k == 0 && f' == f.(wal := None) && Goes(p, p', RSweep(kept, 1)))
      || (k != 0 && f' == f.(shm := false) && Goes(p, p', Release(0, Restored(kept))))
    case _ => false
  }

  predicate RecoverStep(p: Proc, f: Files, p': Proc, f': Files)
    requires p.command.RecoverOwner?
  {
    match p.pc
    case COpen =>
      // so may an open that fails, and it may have created the file
      || ((f' == f || IsFold(f, f') || IsOpened(f, f')) && Goes(p, p', Release(1, NoReport)))
      || (IsOpened(f, f') && GoesLogging(p, p', CBackup, DbOpened))
    case CBackup =>
      if p.command.allowNoBackup then f' == f && Goes(p, p', CMigrate)
      else IsFold(f, f') && (Goes(p, p', CloseDb(1, NoReport)) || GoesLogging(p, p', CMigrate, BackedUp))
    case CMigrate =>
      // a failing migration may already have committed earlier ones
      IsCommit(f, f') && (Goes(p, p', CloseDb(1, NoReport)) || GoesLogging(p, p', CSecure, Migrated))
    case CSecure =>
      IsFold(f, f') && (Goes(p, p', CloseDb(1, NoReport)) || GoesLogging(p, p', CReset, Secured))
    case CReset =>
      || (IsFold(f, f') && Goes(p, p', CloseDb(1, NoReport)))
      || (IsCommit(f, f') && GoesLogging(p, p', CloseDb(0, Recovered(NamesPath(p.command))), OwnerReset))
    case _ => false
  }

  /** The server as a lock client: it opens the database, commits, checkpoints, and stops. */
  predicate ServeStep(p: Proc, f: Files, p': Proc, f': Files) {
    match p.pc
    case SOpen =>
      || ((f' == f || IsFold(f, f') || IsOpened(f, f')) && Goes(p, p', Release(1, NoReport)))
      || (IsOpened(f, f') && GoesLogging(p, p', SServe, DbOpened))
    case SServe =>
      || (IsCommit(f, f') && p' == p)
      || (f' == f && (Goes(p, p', CloseDb(0, NoReport)) || Goes(p, p', CloseDb(1, NoReport))))
    case _ => false
  }

  function Free(lock: Option<Pid>, pid: Pid): Option<Pid> {
    if lock == Some(pid) then None else lock
  }

  /** The steps every command shares: taking the lock, and the deferred closing and releasing. */
  predicate Shared(pc: Pc) {
    pc.Prepare? || pc.TryLock? || pc.CloseDb? || pc.Release? || pc.Leaving? || Done(pc)
  }

  predicate SharedStep(pid: Pid, p: Proc, f: Files, lock: Option<Pid>, p': Proc, f': Files, lock': Option<Pid>) {
    match p.pc
    case Prepare =>
      f' == f && lock' == lock && (Goes(p, p', Exited(2, NoReport)) || Goes(p, p', TryLock))
    case TryLock =>
      && f' == f
      && (|| (lock' == lock && Goes(p, p', Exited(1, NoReport)))
          || (lock == None && lock' == Some(pid)
              && p' == p.(pc := First(p.command), log := p.log + [Acquired], found := Live(f))))
    case CloseDb(code, report) =>
      IsFold(f, f') && lock' == lock && GoesLogging(p, p', Release(code, report), DbClosed)
    case Release(code, report) =>
      && f' == f
      && (|| (lock' == Free(lock, pid) && GoesLogging(p, p', Leaving(code, report), Released(true)))
          || ((lock' == lock || lock' == Free(lock, pid)) && GoesLogging(p, p', Leaving(1, report), Released(false))))
    case Leaving(code, report) =>
      f' == f && lock' == Free(lock, pid) && Goes(p, p', Exited(code, report))
    case _ => false
  }

  predicate WorkStep(p: Proc, f: Files, p': Proc, f': Files) {
    match p.command
    case Restore(_) => PreserveStep(p, f, p', f') || InstallStep(p, f, p', f')
    case RecoverOwner(_, _) => RecoverStep(p, f, p', f')
    case Serve => ServeStep(p, f, p', f')
  }

  /** One step of process pid, whatever its command. */
  predicate Step(pid: Pid, p: Proc, f: Files, lock: Option<Pid>, p': Proc, f': Files, lock': Option<Pid>) {
    if Shared(p.pc) then SharedStep(pid, p, f, lock, p', f', lock')
    else lock' == lock && WorkStep(p, f, p', f')
  }

  predicate Crash(pid: Pid, p: Proc, f: Files, lock: Option<Pid>, p': Proc, f': Files, lock': Option<Pid>) {
    !Done(p.pc) && f' == f && lock' == Free(lock, pid) && Goes(p, p', Crashed)
  }

  /* ---------------------------------------------------------------- the whole system */

  datatype System = System(procs: map<Pid, Proc>, files: Files, lock: Option<Pid>)

  /** Nobody has done anything yet; the files are whatever they are. */
  ghost predicate Fresh(s: System) {
    && s.lock == None
    && (forall pid :: pid in s.procs ==> s.procs[pid].pc == Prepare && s.procs[pid].log == [])
  }

  ghost predicate Init(s: System) { Fresh(s) && NoStrayLog(s.files) }

  predicate NextBy(s: System, s': System, pid: Pid) {
    && pid in s.procs && pid in s'.procs
    && s'.procs == s.procs[pid := s'.procs[pid]]
    && (|| Step(pid, s.procs[pid], s.files, s.lock, s'.procs[pid], s'.files, s'.lock)
        || Crash(pid, s.procs[pid], s.files, s.lock, s'.procs[pid], s'.files, s'.lock))
  }

  ghost predicate Next(s: System, s': System) {
    exists pid :: NextBy(s, s', pid)
  }

  ghost predicate StepsAt(run: seq<System>, i: nat) {
    i + 1 < |run| ==> Next(run[i], run[i + 1])
  }

  ghost predicate Steps(run: seq<System>) {
    |run| > 0 && forall i: nat :: StepsAt(run, i)
  }

  ghost predicate IsRun(run: seq<System>) { Steps(run) && Init(run[0]) }

  /* ---------------------------------------------------------------- invariants */

  /** The log holds nothing the main file would be needed for. */
  predicate DryLog(f: Files) { LogOf(f) == [] }

  predicate NoStrayLog(f: Files) { f.main.None? ==> DryLog(f) }

  /** The set a restore met is whole in its pre-restore directory, or there was none. */
  predicate KeptWhole(p: Proc, f: Files, kept: Option<Aside>) {
    match kept
    case None => p.found == None
    case Some(aside) => aside.moved > 0 && IsPrevious(p, f, aside.d)
  }

  /** What a restore's report says about the database at its real path: where it speaks of the restored database, that
      what is there is what was verified. */
  predicate LiveClaim(p: Proc, f: Files, report: Report) {
    match report
    case Untouched => Live(f) == p.found
    case MovedTo(_) => f.main == None
    case InstalledButFailed(_) => Live(f) == p.verified
    case Restored(_) => Live(f) == p.verified && f.wal == None && !f.shm
    case _ => true
  }

  predicate IsPrevious(p: Proc, f: Files, d: Dir) { d in f.saved && p.found.Some? && f.saved[d].main == p.found }

  /** What it says about the previous database.  After a failure that follows the install it names the directory
      with the previous database whether or not there is one; after a success only if there is. */
  predicate KeptClaim(p: Proc, f: Files, report: Report) {
    match report
    case MovedTo(d) => IsPrevious(p, f, d)
    case InstalledButFailed(kept) => kept.Some? && IsPrevious(p, f, kept.value.d)
    case Restored(kept) => kept.Some? ==> IsPrevious(p, f, kept.value.d)
    case _ => true
  }

  predicate ReportTrue(p: Proc, f: Files, report: Report) { LiveClaim(p, f, report) && KeptClaim(p, f, report) }

  /** What a restore knows of the files when it reports. */
  predicate KnowsFiles(p: Proc, f: Files, report: Report) {
    match report
    case Untouched => Live(f) == p.found
    case MovedTo(d) => f.main == None && IsPrevious(p, f, d)
    case InstalledButFailed(kept) => HasVerified(p) && Live(f) == Some(Copied(p.command.from)) && KeptWhole(p, f, kept)
    case Restored(kept) =>
      HasVerified(p) && Live(f) == Some(Copied(p.command.from)) && f.wal == None && !f.shm && KeptWhole(p, f, kept)
    case _ => true
  }

  /** A restore that has verified its backup. */
  predicate HasVerified(p: Proc) {
    && p.command.Restore? && !p.command.from.Itself? && p.verified.Some? && p.verified.value != []
    && (p.command.from.Elsewhere? ==> p.verified.value == p.command.from.main + p.command.from.log)
  }

  /** What is copied is what was verified exactly for a plain backup. */
  lemma CopiedIsVerifiedIffPlain(p: Proc)
    requires HasVerified(p)
    ensures Some(Copied(p.command.from)) == p.verified <==> Plain(p.command.from)
  {
    if p.command.from.Elsewhere? {
      var main, log := p.command.from.main, p.command.from.log;
      assert (main + log)[|main|..] == log;
      assert log == [] ==> main + log == main;
    }
  }

  /** The set is aside, or there was none. */
  predicate Cleared(p: Proc, f: Files, kept: Option<Aside>) { DryLog(f) && f.main == None && KeptWhole(p, f, kept) && HasVerified(p) }

  /** What the lock holder knows about the files at each step of a restore. */
  predicate Knows(p: Proc, f: Files) {
    match p.pc
    case RInspect => Live(f) == p.found
    case RCheckpoint => f.main.Some? && Live(f) == p.found && HasVerified(p)
    case RMkdir => f.main.Some? && Live(f) == p.found && DryLog(f) && HasVerified(p)
    case RMove(aside, k) =>
      && DryLog(f) && aside.d in f.saved && k <= 2 && HasVerified(p)
      && (if k == 0 then f.main.Some? && Live(f) == p.found && f.saved[aside.d].main == None && aside.moved == 0
          else f.main == None && KeptWhole(p, f, Some(aside)))
    case RSyncAside(aside) => Cleared(p, f, Some(aside))
    case RCopy(kept) => Cleared(p, f, kept)
    case RCopying(kept) => Cleared(p, f, kept)
    case RSyncCopy(kept) => Cleared(p, f, kept) && f.temp == Whole(Copied(p.command.from))
    case RInstall(kept) => Cleared(p, f, kept) && f.temp == Whole(Copied(p.command.from))
    case RSyncParent(kept) => DryLog(f) && HasVerified(p) && f.main == Some(Copied(p.command.from)) && KeptWhole(p, f, kept)
    case RSweep(kept, k) =>
      && DryLog(f) && HasVerified(p) && f.main == Some(Copied(p.command.from)) && KeptWhole(p, f, kept)
      && (k != 0 ==> f.wal == None)
    case SServe => f.main.Some?
    case CBackup => f.main.Some?
    case CMigrate => f.main.Some?
    case CSecure => f.main.Some?
    case CReset => f.main.Some?
    case CloseDb(_, report) => f.main.Some? && (report.NoReport? || report.Recovered?)
    case Release(_, report) => KnowsFiles(p, f, report)
    case _ => true
  }

  ghost predicate Inv(s: System) {
    && NoStrayLog(s.files)
    && (forall pid :: pid in s.procs && Critical(s.procs[pid].pc) ==> s.lock == Some(pid) && Knows(s.procs[pid], s.files))
    && (forall pid :: s.lock == Some(pid) ==> pid in s.procs && !Done(s.procs[pid].pc))
    && (forall pid :: pid in s.procs && !Critical(s.procs[pid].pc) && s.lock == Some(pid) ==> s.procs[pid].pc.Leaving?)
    && (forall pid :: pid in s.procs ==> LogFits(s.procs[pid]) && CodeFits(s.procs[pid]))
  }

  /* ---------------------------------------------------------------- event logs */

  /** The work of owner recovery, in its only order; the backup is left out only on request. */
  function Recovery(c: Command): (work: seq<Event>)
    requires c.RecoverOwner?
    ensures |work| == if c.allowNoBackup then 5 else 6
  {
    [Acquired, DbOpened] + (if c.allowNoBackup then [] else [BackedUp]) + [Migrated, Secured, OwnerReset]
  }

  function Reached(c: Command, pc: Pc): nat {
    var backup := if c.RecoverOwner? && c.allowNoBackup then 0 else 1;
    match pc
    case COpen => 1
    case CBackup => 2
    case CMigrate => 2 + backup
    case CSecure => 3 + backup
    case CReset => 4 + backup
    case _ => 0
  }

  /** The log of an owner recovery that is about to release its lock. */
  predicate RecoveryWork(c: Command, log: seq<Event>, code: int)
    requires c.RecoverOwner?
  {
    var all := Recovery(c);
    || (log == all[..1] && code == 1)
    || (var k := |log| - 1;
        2 <= k <= |all| && log == all[..k] + [DbClosed] && code == if k == |all| then 0 else 1)
  }

  predicate RestoreWork(log: seq<Event>, code: int) {
    && (log == [Acquired] || log == [Acquired, Installed])
    && (code == 0 || code == 1) && (code == 0 ==> log == [Acquired, Installed])
  }

  predicate ServeWork(log: seq<Event>, code: int) {
    (log == [Acquired] && code == 1) || (log == [Acquired, DbOpened, DbClosed] && (code == 0 || code == 1))
  }

  predicate Worked(c: Command, log: seq<Event>, code: int) {
    match c
    case Restore(_) => RestoreWork(log, code)
    case RecoverOwner(_, _) => RecoveryWork(c, log, code)
    case Serve => ServeWork(log, code)
  }

  /** The log of a process that has attempted to release, with the code it will exit with. */
  predicate Finished(c: Command, log: seq<Event>, code: int) {
    && |log| > 0 && log[|log| - 1].Released?
    && (if log[|log| - 1].ok then Worked(c, log[..|log| - 1], code)
        else code == 1 && (Worked(c, log[..|log| - 1], 0) || Worked(c, log[..|log| - 1], 1)))
  }

  /** The log of a process about to close its database. */
  predicate Closing(c: Command, log: seq<Event>, code: int) {
    match c
    case Restore(_) => false
    case Serve => log == [Acquired, DbOpened] && (code == 0 || code == 1)
    case RecoverOwner(_, _) =>
      2 <= |log| <= |Recovery(c)| && log == Recovery(c)[..|log|] && code == if |log| == |Recovery(c)| then 0 else 1
  }

  predicate LogFits(p: Proc) {
    match p.pc
    case Prepare => p.log == []
    case TryLock => p.log == []
    case CloseDb(code, _) => Closing(p.command, p.log, code)
    case Release(code, _) => Worked(p.command, p.log, code)
    case Leaving(code, _) => Finished(p.command, p.log, code)
    case Exited(code, _) => (p.log == [] && (code == 1 || code == 2)) || Finished(p.command, p.log, code)
    case Crashed => true
    case SOpen => p.command == Serve && p.log == [Acquired]
    case SServe => p.command == Serve && p.log == [Acquired, DbOpened]
    case RSyncParent(_) => p.command.Restore? && p.log == [Acquired, Installed]
    case RSweep(_, _) => p.command.Restore? && p.log == [Acquired, Installed]
    case _ => WorkLogFits(p)
  }

  predicate WorkLogFits(p: Proc) {
    if Reached(p.command, p.pc) > 0 then p.command.RecoverOwner? && p.log == Recovery(p.command)[..Reached(p.command, p.pc)]
    else p.command.Restore? && p.log == [Acquired]
  }

  /** A restore's exit code is the report it ends with, unless the lock could not be released; a recovery says so once it
      has reset access, and not before. */
  predicate CodeFits(p: Proc) {
    match p.pc
    case CloseDb(code, report) => p.command.RecoverOwner? ==> Says(p, report)
    case Release(code, report) =>
      && (p.command.Restore? ==> (code == 0 <==> report.Restored?) && (Installed in p.log <==> report.Restored? || report.InstalledButFailed?))
      && (p.command.RecoverOwner? ==> Says(p, report))
    case Leaving(code, report) => EndsFitting(p, code, report)
    case Exited(code, report) => EndsFitting(p, code, report)
    case _ => true
  }

  predicate EndsFitting(p: Proc, code: int, report: Report) {
    && (p.command.Restore? ==> (code == 0 <==> report.Restored? && ReleasedCleanly(p.log)) && (Installed in p.log <==> report.Restored? || report.InstalledButFailed?))
    && (p.command.RecoverOwner? ==> Says(p, report))
  }

  predicate Says(p: Proc, report: Report)
    requires p.command.RecoverOwner?
  {
    report == if OwnerReset in p.log then Recovered(NamesPath(p.command)) else NoReport
  }

  predicate ReleasedCleanly(log: seq<Event>) { log != [] && log[|log| - 1] == Released(true) }

  /* ---------------------------------------------------------------- preservation */

  lemma DryLive(f: Files)
    requires f.main.Some? && DryLog(f)
    ensures Live(f) == f.main
  {
    assert f.main.value + [] == f.main.value;
  }

  lemma PreserveStepKeeps(p: Proc, f: Files, p': Proc, f': Files)
    requires p.command.Restore? && PreserveStep(p, f, p', f')
    requires NoStrayLog(f) && Knows(p, f)
    ensures NoStrayLog(f') && Knows(p', f')
  {
    if f.main.Some? && DryLog(f) {
      DryLive(f);
    }
  }

  lemma CopyStepKeeps(p: Proc, f: Files, p': Proc, f': Files)
    requires p.command.Restore? && InstallStep(p, f, p', f') && (p.pc.RCopy? || p.pc.RCopying? || p.pc.RSyncCopy?)
    requires Knows(p, f)
    ensures NoStrayLog(f') && Knows(p', f')
  {
  }

  lemma SweepStepKeeps(p: Proc, f: Files, p': Proc, f': Files)
    requires p.command.Restore? && InstallStep(p, f, p', f') && (p.pc.RSyncParent? || p.pc.RSweep?)
    requires Knows(p, f)
    ensures NoStrayLog(f') && Knows(p', f')
  {
    DryLive(f');
  }

  lemma InstallStepKeeps(p: Proc, f: Files, p': Proc, f': Files)
    requires p.command.Restore? && InstallStep(p, f, p', f')
    requires NoStrayLog(f) && Knows(p, f)
    ensures NoStrayLog(f') && Knows(p', f')
  {
    if p.pc.RCopy? || p.pc.RCopying? || p.pc.RSyncCopy? {
      CopyStepKeeps(p, f, p', f');
    } else if p.pc.RSyncParent? || p.pc.RSweep? {
      SweepStepKeeps(p, f, p', f');
    }
  }

  lemma RestoreStepLogs(p: Proc, f: Files, p': Proc, f': Files)
    requires p.command.Restore? && (PreserveStep(p, f, p', f') || InstallStep(p, f, p', f')) && LogFits(p)
    ensures LogFits(p')
  {
  }

  lemma RecoverStepKeeps(p: Proc, f: Files, p': Proc, f': Files)
    requires p.command.RecoverOwner? && RecoverStep(p, f, p', f')
    requires NoStrayLog(f) && Knows(p, f)
    ensures NoStrayLog(f') && Knows(p', f')
  {
  }

  lemma RecoverStepLogs(p: Proc, f: Files, p': Proc, f': Files)
    requires p.command.RecoverOwner? && RecoverStep(p, f, p', f') && LogFits(p)
    ensures LogFits(p')
  {
    var k, all := |p.log|, Recovery(p.command);
    assert k < |all| ==> all[..k + 1] == all[..k] + [all[k]];
  }

  lemma CloseStepLogs(c: Command, log: seq<Event>, code: int)
    requires Closing(c, log, code)
    ensures Worked(c, log + [DbClosed], code)
  {
  }

  lemma ReleaseStepLogs(c: Command, log: seq<Event>, code: int)
    requires Worked(c, log, code)
    ensures Finished(c, log + [Released(true)], code)
    ensures Finished(c, log + [Released(false)], 1)
  {
    assert (log + [Released(true)])[..|log|] == log;
    assert (log + [Released(false)])[..|log|] == log;
    assert code == 0 || code == 1;
  }

  lemma WorkStepKeeps(p: Proc, f: Files, p': Proc, f': Files)
    requires !Shared(p.pc) && WorkStep(p, f, p', f')
    requires NoStrayLog(f) && Knows(p, f)
    ensures NoStrayLog(f') && Knows(p', f')
  {
    match p.command
    case Restore(_) =>
      if PreserveStep(p, f, p', f') {
        PreserveStepKeeps(p, f, p', f');
      } else {
        InstallStepKeeps(p, f, p', f');
      }
    case RecoverOwner(_, _) => RecoverStepKeeps(p, f, p', f');
    case Serve =>
  }

  lemma WorkStepLogs(p: Proc, f: Files, p': Proc, f': Files)
    requires !Shared(p.pc) && WorkStep(p, f, p', f') && LogFits(p)
    ensures LogFits(p')
  {
    match p.command
    case Restore(_) => RestoreStepLogs(p, f, p', f');
    case RecoverOwner(_, _) => RecoverStepLogs(p, f, p', f');
    case Serve =>
  }

  lemma SharedStepKeeps(pid: Pid, p: Proc, f: Files, lock: Option<Pid>, p': Proc, f': Files, lock': Option<Pid>)
    requires SharedStep(pid, p, f, lock, p', f', lock')
    requires NoStrayLog(f) && (Critical(p.pc) ==> Knows(p, f))
    ensures NoStrayLog(f') && (Critical(p'.pc) ==> Knows(p', f'))
  {
  }

  lemma AcquireLogs(p: Proc, found: Option<Content>)
    requires p.pc == TryLock && p.log == []
    ensures LogFits(p.(pc := First(p.command), log := p.log + [Acquired], found := found))
  {
    if p.command.RecoverOwner? {
      assert Recovery(p.command)[..1] == [Acquired];
    }
  }

  lemma SharedStepLogs(pid: Pid, p: Proc, f: Files, lock: Option<Pid>, p': Proc, f': Files, lock': Option<Pid>)
    requires SharedStep(pid, p, f, lock, p', f', lock') && LogFits(p)
    ensures LogFits(p')
  {
    match p.pc
    case TryLock => AcquireLogs(p, Live(f));
    case CloseDb(code, _) => CloseStepLogs(p.command, p.log, code);
    case Release(code, _) => ReleaseStepLogs(p.command, p.log, code);
    case _ =>
  }

  lemma StepLogs(pid: Pid, p: Proc, f: Files, lock: Option<Pid>, p': Proc, f': Files, lock': Option<Pid>)
    requires Step(pid, p, f, lock, p', f', lock') && LogFits(p) && CodeFits(p)
    ensures LogFits(p') && CodeFits(p')
  {
    StepCodes(pid, p, f, lock, p', f', lock');
    if Shared(p.pc) {
      SharedStepLogs(pid, p, f, lock, p', f', lock');
    } else {
      WorkStepLogs(p, f, p', f');
    }
  }

  /** Work neither takes nor gives up the lock. */
  lemma WorkStepStaysInside(p: Proc, f: Files, p': Proc, f': Files)
    requires !Shared(p.pc) && WorkStep(p, f, p', f')
    ensures Critical(p.pc) && Critical(p'.pc)
  {
  }

  /** Only the lock holder is in a critical section, and only it touches the files. */
  lemma StepRespectsLock(pid: Pid, p: Proc, f: Files, lock: Option<Pid>, p': Proc, f': Files, lock': Option<Pid>)
    requires Step(pid, p, f, lock, p', f', lock') || Crash(pid, p, f, lock, p', f', lock')
    requires Critical(p.pc) ==> lock == Some(pid)
    requires !Critical(p.pc) && lock == Some(pid) ==> p.pc.Leaving?
    ensures Critical(p'.pc) ==> lock' == Some(pid)
    ensures !Critical(p'.pc) && lock' == Some(pid) ==> p'.pc.Leaving?
    ensures lock' == lock || lock' == Some(pid) || lock == Some(pid)
    ensures lock' == lock || lock' == Some(pid) || lock' == None
    ensures lock' == Some(pid) && lock != lock' ==> lock == None
    ensures lock != Some(pid) ==> f' == f
    ensures f' != f ==> Critical(p.pc)
    ensures Done(p'.pc) ==> lock' != Some(pid)
  {
    if !Shared(p.pc) && !Crash(pid, p, f, lock, p', f', lock') {
      WorkStepStaysInside(p, f, p', f');
    }
  }

  lemma StepCodes(pid: Pid, p: Proc, f: Files, lock: Option<Pid>, p': Proc, f': Files, lock': Option<Pid>)
    requires Step(pid, p, f, lock, p', f', lock') && CodeFits(p) && LogFits(p)
    ensures CodeFits(p')
  {
    if p.command.RecoverOwner? {
      RecoveryCodes(pid, p, f, lock, p', f', lock');
    }
  }

  lemma RecoveryCodes(pid: Pid, p: Proc, f: Files, lock: Option<Pid>, p': Proc, f': Files, lock': Option<Pid>)
    requires Step(pid, p, f, lock, p', f', lock') && CodeFits(p) && LogFits(p) && p.command.RecoverOwner?
    ensures CodeFits(p')
  {
    if !Shared(p.pc) {
      var all := Recovery(p.command);
      assert OwnerReset !in all[..|all| - 1];
      assert forall e :: e in p.log ==> e in all[..|all| - 1];
    }
  }

  /** The facts about one mover are enough for the whole system: every other process is unchanged and,
      not holding the lock, knows nothing about the files that could become wrong. */
  lemma InvFromMover(s: System, s': System, pid: Pid)
    requires Inv(s) && pid in s.procs && pid in s'.procs && s'.procs == s.procs[pid := s'.procs[pid]]
    requires NoStrayLog(s'.files) && LogFits(s'.procs[pid]) && CodeFits(s'.procs[pid])
    requires Critical(s'.procs[pid].pc) ==> s'.lock == Some(pid) && Knows(s'.procs[pid], s'.files)
    requires !Critical(s'.procs[pid].pc) && s'.lock == Some(pid) ==> s'.procs[pid].pc.Leaving?
    requires s'.lock == s.lock || s'.lock == Some(pid) || s.lock == Some(pid)
    requires s'.lock == Some(pid) && s.lock != s'.lock ==> s.lock == None
    requires s'.lock == s.lock || s'.lock == Some(pid) || s'.lock == None
    requires s.lock != Some(pid) ==> s'.files == s.files
    requires Done(s'.procs[pid].pc) ==> s'.lock != Some(pid)
    ensures Inv(s')
  {
  }

  lemma InvStep(s: System, s': System)
    requires Inv(s) && Next(s, s')
    ensures Inv(s')
  {
    var pid :| NextBy(s, s', pid);
    var p, p' := s.procs[pid], s'.procs[pid];
    StepRespectsLock(pid, p, s.files, s.lock, p', s'.files, s'.lock);
    if Step(pid, p, s.files, s.lock, p', s'.files, s'.lock) {
      StepLogs(pid, p, s.files, s.lock, p', s'.files, s'.lock);
      if Shared(p.pc) {
        SharedStepKeeps(pid, p, s.files, s.lock, p', s'.files, s'.lock);
      } else {
        WorkStepKeeps(p, s.files, p', s'.files);
      }
    }
    InvFromMover(s, s', pid);
  }

  lemma {:induction false} InvAlways(run: seq<System>, i: nat)
    requires IsRun(run) && i < |run|
    ensures Inv(run[i])
  {
    if i > 0 {
      InvAlways(run, i - 1);
      assert StepsAt(run, i - 1);
      InvStep(run[i - 1], run[i]);
    }
  }
}
