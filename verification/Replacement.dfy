/** Crash-safe replacement of the telemetry database as a machine over the files it moves.

    Every rename, removal, manifest write and validation is one step. A step's outcome is chosen by
    the environment, and the process may be gone after any step. The directory sync that follows a
    rename or a write belongs to that step: when it fails the step has taken effect and reports an
    error. */
module Replacement {

  datatype Option<+T> = None | Some(value: T)

  // A database is the original one or a rebuilt one, and passes validateInstalledDatabase or not.
  datatype Database = Database(original: bool, passes: bool)

  datatype Phase = Validated | SourcePreserved | Installed | Verified

  datatype Files = Files(source: Option<Database>, candidate: Option<Database>, backup: Option<Database>,
                         failed: Option<Database>, manifest: Option<Phase>)

  datatype Outcome =
    | Fine
    | Refused // an error, and nothing happened
    | Late    // an error, but the step took effect

  // failing: the call will return an error whatever the remaining steps do.
  datatype Pc =
      // installValidated
    | CheckBackup
    | WriteValidated
    | PreserveSource
    | WritePreserved
    | InstallCandidate
    | WriteInstalled
    | ValidateNew
    | WriteVerified
      // recoverOwned
    | ReadManifest(failing: bool)
    | RestorePreserved(failing: bool)
    | RestoreLost(failing: bool)
    | DropCandidate(failing: bool)
    | ValidateSource(failing: bool)
      // restoreBackup
    | ClearFailed
    | MoveAside
    | RestoreBackup
    | DropFailed
      // finalizeReplacement, and the end of recovery
    | RemoveBackup(failing: bool)
    | RemoveCandidate(failing: bool)
    | RemoveManifest(failing: bool)
      // returned, and whether with nil
    | Stopped(ok: bool)
      // no process
    | Down

  datatype Machine = Machine(files: Files, pc: Pc)

  predicate Trusted(db: Database) {
    db.original || db.passes
  }

  // A step that must succeed: its effect and where it leads, or the error path.
  function Must(m: Machine, o: Outcome, effect: Files, next: Pc, error: Pc): Machine {
    match o
    case Fine => Machine(effect, next)
    case Refused => Machine(m.files, error)
    case Late => Machine(effect, error)
  }

  // A step whose error is dropped.
  function Try(m: Machine, o: Outcome, effect: Files, next: Pc): Machine {
    if o.Refused? then Machine(m.files, next) else Machine(effect, next)
  }

  function Rename(m: Machine, o: Outcome, present: bool, effect: Files, next: Pc, error: Pc): Machine {
    if present then Must(m, o, effect, next, error) else Machine(m.files, error)
  }

  // validateInstalledDatabase; an error while reading is a failed validation.
  predicate Passes(db: Option<Database>, o: Outcome) {
    o.Fine? && db.Some? && db.value.passes
  }

  predicate IsInstall(pc: Pc) {
    pc.CheckBackup? || pc.WriteValidated? || pc.PreserveSource? || pc.WritePreserved?
    || pc.InstallCandidate? || pc.WriteInstalled? || pc.ValidateNew? || pc.WriteVerified?
  }

  predicate IsRecover(pc: Pc) {
    pc.ReadManifest? || pc.RestorePreserved? || pc.RestoreLost? || pc.DropCandidate? || pc.ValidateSource?
  }

  predicate IsRestore(pc: Pc) {
    pc.ClearFailed? || pc.MoveAside? || pc.RestoreBackup? || pc.DropFailed?
  }

  function InstallStep(m: Machine, o: Outcome): Machine
    requires IsInstall(m.pc)
  {
    var f := m.files;
    var recover := ReadManifest(true);
    match m.pc
    case CheckBackup => if f.backup.Some? || !o.Fine? then Machine(f, Stopped(false)) else Machine(f, WriteValidated)
    case WriteValidated => Must(m, o, f.(manifest := Some(Validated)), PreserveSource, Stopped(false))
    case PreserveSource =>
      Rename(m, o, f.source.Some?, f.(source := None, backup := f.source), WritePreserved, recover)
    case WritePreserved => Must(m, o, f.(manifest := Some(SourcePreserved)), InstallCandidate, recover)
    case InstallCandidate =>
      Rename(m, o, f.candidate.Some?, f.(candidate := None, source := f.candidate), WriteInstalled, recover)
    case WriteInstalled => Must(m, o, f.(manifest := Some(Installed)), ValidateNew, recover)
    case ValidateNew => Machine(f, if Passes(f.source, o) then WriteVerified else recover)
    case WriteVerified => Must(m, o, f.(manifest := Some(Verified)), Finalize(f, false), recover)
  }

  // finalizeReplacement begins: the backup is removed only if it is there.
  function Finalize(f: Files, failing: bool): Pc {
    if f.backup.Some? then RemoveBackup(failing) else RemoveCandidate(failing)
  }

  // recoverOwned's decision once the manifest is read.
  function Decide(f: Files, failing: bool): Pc {
    match f.manifest
    case None => Stopped(!failing)
    case Some(Validated) =>
      if f.source.Some? then RemoveCandidate(failing)
      else if f.backup.Some? then RestorePreserved(failing)
      else Stopped(false)
    case Some(_) =>
      if f.source.Some? then ValidateSource(failing)
      else if f.backup.Some? then RestoreLost(failing)
      else Stopped(false)
  }

  function RecoverStep(m: Machine, o: Outcome): Machine
    requires IsRecover(m.pc)
  {
    var f := m.files;
    match m.pc
    case ReadManifest(failing) => Machine(f, if o.Fine? then Decide(f, failing) else Stopped(false))
    case RestorePreserved(failing) =>
      Rename(m, o, f.backup.Some?, f.(backup := None, source := f.backup), RemoveCandidate(failing), Stopped(false))
    case RestoreLost(failing) =>
      Rename(m, o, f.backup.Some?, f.(backup := None, source := f.backup), DropCandidate(failing), Stopped(false))
    case DropCandidate(failing) => Try(m, o, f.(candidate := None), RemoveManifest(failing))
    case ValidateSource(failing) =>
      Machine(f, if Passes(f.source, o) then Finalize(f, failing)
                 else if f.backup.Some? then ClearFailed
                 else Stopped(false))
  }

  // restoreBackup returns its cause, an error, even when it succeeds.
  function RestoreStep(m: Machine, o: Outcome): Machine
    requires IsRestore(m.pc)
  {
    var f := m.files;
    match m.pc
    case ClearFailed => Try(m, o, f.(failed := None), MoveAside)
    case MoveAside => Rename(m, o, f.source.Some?, f.(source := None, failed := f.source), RestoreBackup, Stopped(false))
    case RestoreBackup => Rename(m, o, f.backup.Some?, f.(backup := None, source := f.backup), DropFailed, Stopped(false))
    case DropFailed => Try(m, o, f.(failed := None), DropCandidate(true))
  }

  function RemoveStep(m: Machine, o: Outcome): Machine
    requires m.pc.RemoveBackup? || m.pc.RemoveCandidate? || m.pc.RemoveManifest?
  {
    var f := m.files;
    match m.pc
    case RemoveBackup(failing) => Must(m, o, f.(backup := None), RemoveCandidate(failing), Stopped(false))
    case RemoveCandidate(failing) => Must(m, o, f.(candidate := None), RemoveManifest(failing), Stopped(false))
    case RemoveManifest(failing) => Must(m, o, f.(manifest := None), Stopped(!failing), Stopped(false))
  }

  predicate Running(m: Machine) {
    !m.pc.Stopped? && !m.pc.Down?
  }

  function Next(m: Machine, o: Outcome): Machine
    requires Running(m)
  {
    if IsRestore(m.pc) then RestoreStep(m, o)
    else if m.pc.RemoveBackup? || m.pc.RemoveCandidate? || m.pc.RemoveManifest? then RemoveStep(m, o)
    else if IsRecover(m.pc) then RecoverStep(m, o)
    else InstallStep(m, o)
  }

  // One call, driven by the outcomes of its steps; it is cut where the script ends.
  function Run(m: Machine, script: seq<Outcome>): Machine
    decreases |script|
  {
    if script == [] || !Running(m) then m else Run(Next(m, script[0]), script[1..])
  }

  // ---------- lives of the files ----------

  datatype Event =
    | Boot                    // the next process calls recoverOwned
    | Migrate(passes: bool)   // recovery returned nil; a candidate was built, install starts
    | Abandon(passes: bool)   // the process ends while building a candidate
    | Do(outcome: Outcome)    // the running call takes a step
    | Crash

  predicate Possible(m: Machine, e: Event) {
    match e
    case Boot => !Running(m)
    case Migrate(_) => m.pc == Stopped(true)
    case Abandon(_) => m.pc == Stopped(true)
    case Do(_) => Running(m)
    case Crash => true
  }

  function After(m: Machine, e: Event): Machine
    requires Possible(m, e)
  {
    match e
    case Boot => m.(pc := ReadManifest(false))
    case Migrate(passes) => Machine(m.files.(candidate := Some(Database(false, passes))), CheckBackup)
    case Abandon(passes) => Machine(m.files.(candidate := Some(Database(false, passes))), Down)
    case Do(outcome) => Next(m, outcome)
    case Crash => m.(pc := Down)
  }

  // The machine as it is before the first process: only the original database.
  function Start(passes: bool): Machine {
    Machine(Files(Some(Database(true, passes)), None, None, None, None), Down)
  }

  ghost predicate Life(passes: bool, lives: seq<Machine>, events: seq<Event>) {
    && |lives| == |events| + 1
    && lives[0] == Start(passes)
    && forall i :: 0 <= i < |events| ==> Possible(lives[i], events[i]) && lives[i + 1] == After(lives[i], events[i])
  }

  // ---------- the invariant ----------

  predicate Past(f: Files) {
    f.manifest.Some? && !f.manifest.value.Validated?
  }

  // What source and backup hold.
  predicate Kept(f: Files) {
    && (f.backup.Some? ==> Trusted(f.backup.value))
    && (f.backup.None? ==> f.source.Some? && Trusted(f.source.value))
    && (f.manifest.None? ==> f.backup.None?)
    && (f.manifest == Some(Validated) ==> f.source.None? || f.backup.None?)
  }

  predicate Settled(f: Files) {
    f.source.Some? && Trusted(f.source.value) && f.backup.None?
  }

  // What the next step relies on.
  predicate Placed(f: Files, pc: Pc) {
    match pc
    case CheckBackup => f.manifest.None?
    case WriteValidated => f.manifest.None?
    case PreserveSource => f.manifest == Some(Validated) && Settled(f)
    case WritePreserved => f.manifest == Some(Validated) && f.source.None?
    case InstallCandidate => Past(f) && f.source.None?
    case WriteInstalled => Past(f) && f.source.Some? && f.backup.Some?
    case ValidateNew => Past(f) && f.source.Some? && f.backup.Some?
    case WriteVerified => Past(f) && f.source.Some? && f.source.value.passes && f.backup.Some?
    case RestorePreserved(_) => f.manifest == Some(Validated) && f.source.None?
    case RestoreLost(_) => Past(f) && f.source.None?
    case DropCandidate(_) => f.manifest.Some? && Settled(f)
    case ValidateSource(_) => Past(f) && f.source.Some?
    case ClearFailed => Past(f) && f.source.Some? && f.backup.Some?
    case MoveAside => Past(f) && f.source.Some? && f.backup.Some?
    case RestoreBackup => Past(f) && f.source.None? && f.backup.Some?
    case DropFailed => Past(f) && Settled(f)
    case RemoveBackup(_) => Past(f) && f.source.Some? && f.source.value.passes
    case RemoveCandidate(_) => f.manifest.Some? && Settled(f)
    case RemoveManifest(_) => f.manifest.Some? && Settled(f)
    case Stopped(ok) => ok ==> f.manifest.None?
    case ReadManifest(_) => true
    case Down => true
  }

  predicate Inv(m: Machine) {
    Kept(m.files) && Placed(m.files, m.pc)
  }

  lemma InstallKeeps(m: Machine, o: Outcome)
    requires Inv(m) && IsInstall(m.pc)
    ensures Inv(InstallStep(m, o))
  {}

  lemma RecoverKeeps(m: Machine, o: Outcome)
    requires Inv(m) && IsRecover(m.pc)
    ensures Inv(RecoverStep(m, o))
  {}

  lemma RestoreKeeps(m: Machine, o: Outcome)
    requires Inv(m) && IsRestore(m.pc)
    ensures Inv(RestoreStep(m, o))
  {}

  lemma RemoveKeeps(m: Machine, o: Outcome)
    requires Inv(m) && (m.pc.RemoveBackup? || m.pc.RemoveCandidate? || m.pc.RemoveManifest?)
    ensures Inv(RemoveStep(m, o))
  {}

  lemma StepKeeps(m: Machine, o: Outcome)
    requires Inv(m) && Running(m)
    ensures Inv(Next(m, o))
  {
    if IsInstall(m.pc) {
      InstallKeeps(m, o);
    } else if IsRecover(m.pc) {
      RecoverKeeps(m, o);
    } else if IsRestore(m.pc) {
      RestoreKeeps(m, o);
    } else {
      RemoveKeeps(m, o);
    }
  }

  lemma EventKeeps(m: Machine, e: Event)
    requires Inv(m) && Possible(m, e)
    ensures Inv(After(m, e))
  {
    if e.Do? {
      StepKeeps(m, e.outcome);
    }
  }

  lemma {:induction false} Reachable(passes: bool, lives: seq<Machine>, events: seq<Event>, n: nat)
    requires Life(passes, lives, events) && n < |lives|
    ensures Inv(lives[n])
  {
    if n > 0 {
      Reachable(passes, lives, events, n - 1);
      EventKeeps(lives[n - 1], events[n - 1]);
    }
  }

  // ---------- nothing is lost ----------

  // At every moment of every life, source or backup holds the original database or one that passed.
  lemma DataIsNeverLost(passes: bool, lives: seq<Machine>, events: seq<Event>, n: nat)
    requires Life(passes, lives, events) && n < |lives|
    ensures var f := lives[n].files;
            || (f.source.Some? && Trusted(f.source.value))
            || (f.backup.Some? && Trusted(f.backup.value))
  {
    Reachable(passes, lives, events, n);
  }

  // A backup leaves its place only to become the source again, or behind a source that passes.
  lemma BackupLeavesSafely(passes: bool, lives: seq<Machine>, events: seq<Event>, n: nat)
    requires Life(passes, lives, events) && n < |events|
    requires lives[n].files.backup.Some? && lives[n + 1].files.backup != lives[n].files.backup
    ensures var before, after := lives[n].files, lives[n + 1].files;
            && after.backup.None? && after.source.Some?
            && (after.source == before.backup || (after.source == before.source && after.source.value.passes))
  {
    Reachable(passes, lives, events, n);
    if events[n].Do? {
      StepMovesBackup(lives[n], events[n].outcome);
    }
  }

  lemma StepMovesBackup(m: Machine, o: Outcome)
    requires Inv(m) && Running(m)
    requires m.files.backup.Some? && Next(m, o).files.backup != m.files.backup
    ensures var before, after := m.files, Next(m, o).files;
            && after.backup.None? && after.source.Some?
            && (after.source == before.backup || (after.source == before.source && after.source.value.passes))
  {
  }

  // ---------- uninterrupted recovery ----------

  /** The one state recovery cannot finish from: the backup went back to source, the manifest is
      still there and past its first phase, and what is at source does not pass. */
  predicate Stuck(f: Files) {
    Past(f) && f.backup.None? && f.source.Some? && !f.source.value.passes
  }

  // The database recovery leaves at source.
  function Survivor(f: Files): Option<Database> {
    if f.source.Some? && (f.backup.None? || (Past(f) && f.source.value.passes)) then f.source else f.backup
  }

  // An invalid installed database is replaced by its backup, and recovery reports that as an error.
  predicate Replaces(f: Files) {
    Past(f) && f.source.Some? && !f.source.value.passes && f.backup.Some?
  }

  predicate AllFine(script: seq<Outcome>) {
    forall i :: 0 <= i < |script| ==> script[i].Fine?
  }

  lemma FineStep(m: Machine, script: seq<Outcome>)
    requires Running(m) && script != [] && AllFine(script)
    ensures Run(m, script) == Run(Next(m, Fine), script[1..]) && AllFine(script[1..])
  {
  }

  // The three removals that end a call.
  lemma FinishRuns(f: Files, failing: bool, script: seq<Outcome>)
    requires AllFine(script) && |script| >= 2
    ensures Run(Machine(f, RemoveCandidate(failing)), script)
         == Machine(f.(candidate := None, manifest := None), Stopped(!failing))
  {
    var m0 := Machine(f, RemoveCandidate(failing));
    FineStep(m0, script);
    FineStep(Next(m0, Fine), script[1..]);
  }

  lemma FinalizeRuns(f: Files, failing: bool, script: seq<Outcome>)
    requires AllFine(script) && |script| >= 3
    ensures Run(Machine(f, Finalize(f, failing)), script)
         == Machine(f.(candidate := None, backup := None, manifest := None), Stopped(!failing))
  {
    if f.backup.Some? {
      FineStep(Machine(f, RemoveBackup(failing)), script);
      FinishRuns(f.(backup := None), failing, script[1..]);
    } else {
      FinishRuns(f, failing, script);
    }
  }

  lemma DropRuns(f: Files, failing: bool, script: seq<Outcome>)
    requires AllFine(script) && |script| >= 2
    ensures Run(Machine(f, DropCandidate(failing)), script)
         == Machine(f.(candidate := None, manifest := None), Stopped(!failing))
  {
    var m0 := Machine(f, DropCandidate(failing));
    FineStep(m0, script);
    FineStep(Next(m0, Fine), script[1..]);
  }

  lemma RestoreRuns(f: Files, script: seq<Outcome>)
    requires AllFine(script) && |script| >= 6 && f.source.Some? && f.backup.Some?
    ensures Run(Machine(f, ClearFailed), script)
         == Machine(Files(f.backup, None, None, None, None), Stopped(false))
  {
    var m0 := Machine(f, ClearFailed);
    var m1 := Machine(f.(failed := None), MoveAside);
    var m2 := Machine(f.(source := None, failed := f.source), RestoreBackup);
    var m3 := Machine(f.(source := f.backup, backup := None, failed := f.source), DropFailed);
    FineStep(m0, script);
    FineStep(m1, script[1..]);
    FineStep(m2, script[1..][1..]);
    FineStep(m3, script[1..][1..][1..]);
    DropRuns(Files(f.backup, f.candidate, None, None, f.manifest), true, script[1..][1..][1..][1..]);
  }

  lemma DecidedRuns(f: Files, script: seq<Outcome>)
    requires Kept(f) && f.manifest.Some? && AllFine(script) && |script| >= 7
    ensures var r := Run(Machine(f, Decide(f, false)), script);
            if Stuck(f) then r == Machine(f, Stopped(false))
            else && r.pc == Stopped(!Replaces(f))
                 && r.files.(failed := f.failed) == Files(Survivor(f), None, None, f.failed, None)
  {
    var m := Machine(f, Decide(f, false));
    match m.pc {
      case RemoveCandidate(_) => FinishRuns(f, false, script);
      case RestorePreserved(_) =>
        FineStep(m, script);
        FinishRuns(f.(backup := None, source := f.backup), false, script[1..]);
      case RestoreLost(_) =>
        FineStep(m, script);
        DropRuns(f.(backup := None, source := f.backup), false, script[1..]);
      case ValidateSource(_) =>
        FineStep(m, script);
        if f.source.value.passes {
          FinalizeRuns(f, false, script[1..]);
        } else if f.backup.Some? {
          RestoreRuns(f, script[1..]);
        }
      case _ =>
    }
  }

  /** Recovery that meets no error and no crash, from any state any life can leave. It completes,
      with the manifest, the candidate and the backup gone, exactly when the state is not Stuck; what
      it leaves at source is the original database or one that passed. It returns nil unless it had
      to put the backup in place of an invalid installed database. */
  lemma RecoveryCompletesUnlessStuck(f: Files, script: seq<Outcome>)
    requires Kept(f) && AllFine(script) && |script| >= 8
    ensures var r := Run(Machine(f, ReadManifest(false)), script);
            && r.pc.Stopped?
            && (r.files.manifest.None? <==> !Stuck(f))
            && (r.pc.ok <==> !Stuck(f) && !Replaces(f))
            && (f.manifest.None? || Stuck(f) ==> r.files == f)
            && (f.manifest.Some? && !Stuck(f) ==>
                  && r.files.(failed := f.failed) == Files(Survivor(f), None, None, f.failed, None)
                  && Survivor(f).Some? && Trusted(Survivor(f).value))
  {
    FineStep(Machine(f, ReadManifest(false)), script);
    if f.manifest.Some? {
      DecidedRuns(f, script[1..]);
    }
  }

  // ---------- a stuck replacement stays stuck ----------

  // Where the process can be once a replacement is stuck.
  predicate StuckCall(pc: Pc) {
    pc == Down || pc == Stopped(false) || pc == ReadManifest(false) || pc == ValidateSource(false)
  }

  // No event changes the files of a stuck replacement, and no call of recovery returns nil.
  lemma {:induction false} StuckForever(m: Machine, events: seq<Event>, lives: seq<Machine>)
    requires Stuck(m.files) && StuckCall(m.pc)
    requires |lives| == |events| + 1 && lives[0] == m
    requires forall i :: 0 <= i < |events| ==> Possible(lives[i], events[i]) && lives[i + 1] == After(lives[i], events[i])
    ensures forall n :: 0 <= n < |lives| ==> lives[n].files == m.files && StuckCall(lives[n].pc)
    decreases |events|
  {
    if events != [] {
      assert Possible(lives[0], events[0]) && lives[0 + 1] == After(lives[0], events[0]);
      StuckForever(lives[1], events[1..], lives[1..]);
      forall n | 0 <= n < |lives| ensures lives[n].files == m.files && StuckCall(lives[n].pc) {
        assert n > 0 ==> lives[n] == lives[1..][n - 1];
      }
    }
  }

  lemma Lives(passes: bool, lives: seq<Machine>, events: seq<Event>, m: Machine, e: Event, m': Machine)
    returns (lives': seq<Machine>, events': seq<Event>)
    requires Life(passes, lives, events) && lives[|events|] == m && Possible(m, e) && After(m, e) == m'
    ensures Life(passes, lives', events') && lives'[|events'|] == m'
  {
    lives', events' := lives + [m'], events + [e];
  }

  lemma InstallBegins(f0: Files, f1: Files) returns (lives: seq<Machine>, events: seq<Event>)
    requires f0 == Files(Some(Database(true, false)), None, None, None, None)
    requires f1 == f0.(candidate := Some(Database(false, true)))
    ensures Life(false, lives, events) && lives[|events|] == Machine(f1, CheckBackup)
  {
    lives, events := [Machine(f0, Down)], [];
    lives, events := Lives(false, lives, events, Machine(f0, Down), Boot, Machine(f0, ReadManifest(false)));
    lives, events := Lives(false, lives, events, Machine(f0, ReadManifest(false)), Do(Fine), Machine(f0, Stopped(true)));
    lives, events := Lives(false, lives, events, Machine(f0, Stopped(true)), Migrate(true), Machine(f1, CheckBackup));
  }

  /** A life that gets stuck: install is cut after preserving the source, and the recovery that puts it
      back is cut before it removes the manifest. The original database does not pass, so no later
      recovery ever completes. */
  lemma StuckIsReachable() returns (lives: seq<Machine>, events: seq<Event>)
    ensures Life(false, lives, events) && Stuck(lives[|events|].files)
  {
    var f0 := Files(Some(Database(true, false)), None, None, None, None);
    var f1 := f0.(candidate := Some(Database(false, true)));
    var f2 := f1.(manifest := Some(Validated));
    var f3 := f2.(source := None, backup := f0.source);
    var f4 := f3.(manifest := Some(SourcePreserved));
    lives, events := InstallBegins(f0, f1);
    lives, events := Lives(false, lives, events, Machine(f1, CheckBackup), Do(Fine), Machine(f1, WriteValidated));
    lives, events := Lives(false, lives, events, Machine(f1, WriteValidated), Do(Fine), Machine(f2, PreserveSource));
    lives, events := Lives(false, lives, events, Machine(f2, PreserveSource), Do(Fine), Machine(f3, WritePreserved));
    lives, events := Lives(false, lives, events, Machine(f3, WritePreserved), Do(Fine), Machine(f4, InstallCandidate));
    lives, events := StuckAfterCut(lives, events, f4);
  }

  lemma StuckAfterCut(lives0: seq<Machine>, events0: seq<Event>, f4: Files) returns (lives: seq<Machine>, events: seq<Event>)
    requires f4 == Files(None, Some(Database(false, true)), Some(Database(true, false)), None, Some(SourcePreserved))
    requires Life(false, lives0, events0) && lives0[|events0|] == Machine(f4, InstallCandidate)
    ensures Life(false, lives, events) && Stuck(lives[|events|].files)
  {
    var f5 := f4.(source := f4.backup, backup := None);
    lives, events := lives0, events0;
    lives, events := Lives(false, lives, events, Machine(f4, InstallCandidate), Crash, Machine(f4, Down));
    lives, events := Lives(false, lives, events, Machine(f4, Down), Boot, Machine(f4, ReadManifest(false)));
    lives, events := Lives(false, lives, events, Machine(f4, ReadManifest(false)), Do(Fine), Machine(f4, RestoreLost(false)));
    lives, events := Lives(false, lives, events, Machine(f4, RestoreLost(false)), Do(Fine), Machine(f5, DropCandidate(false)));
  }

  // ---------- only a recovery cut short can get stuck ----------

  predicate Restores(m: Machine, e: Event) {
    (m.pc.RestoreLost? || m.pc.RestoreBackup?) && e.Do? && !e.outcome.Refused?
  }

  predicate Unrestored(f: Files) {
    Past(f) ==> f.backup.Some? || (f.source.Some? && f.source.value.passes)
  }

  lemma OnlyRestoresMatter(m: Machine, e: Event)
    requires Inv(m) && Possible(m, e) && Unrestored(m.files) && !Restores(m, e)
    ensures Unrestored(After(m, e).files)
  {
  }

  // A stuck state goes back to a restoring step after which the manifest was never removed.
  lemma {:induction false} StuckComesFromRestoring(passes: bool, lives: seq<Machine>, events: seq<Event>, n: nat) returns (k: nat)
    requires Life(passes, lives, events) && n < |lives| && !Unrestored(lives[n].files)
    ensures k < n && Restores(lives[k], events[k]) && forall j :: k < j <= n ==> !Unrestored(lives[j].files)
  {
    Reachable(passes, lives, events, n - 1);
    if Unrestored(lives[n - 1].files) {
      if !Restores(lives[n - 1], events[n - 1]) {
        OnlyRestoresMatter(lives[n - 1], events[n - 1]);
      }
      k := n - 1;
    } else {
      k := StuckComesFromRestoring(passes, lives, events, n - 1);
    }
  }

  // ---------- one call of install ----------

  predicate Installing(pc: Pc) {
    match pc
    case RemoveBackup(failing) => !failing
    case RemoveCandidate(failing) => !failing
    case RemoveManifest(failing) => !failing
    case CheckBackup => true
    case WriteValidated => true
    case PreserveSource => true
    case WritePreserved => true
    case InstallCandidate => true
    case WriteInstalled => true
    case ValidateNew => true
    case WriteVerified => true
    case _ => false
  }

  predicate Failing(pc: Pc) {
    match pc
    case ReadManifest(failing) => failing
    case RestorePreserved(failing) => failing
    case RestoreLost(failing) => failing
    case DropCandidate(failing) => failing
    case ValidateSource(failing) => failing
    case RemoveBackup(failing) => failing
    case RemoveCandidate(failing) => failing
    case RemoveManifest(failing) => failing
    case ClearFailed => true
    case MoveAside => true
    case RestoreBackup => true
    case DropFailed => true
    case Stopped(ok) => !ok
    case _ => false
  }

  // Where the candidate is while install is on its way.
  predicate Carries(f: Files, pc: Pc, db: Database) {
    if pc.CheckBackup? || pc.WriteValidated? || pc.PreserveSource? || pc.WritePreserved? || pc.InstallCandidate?
    then f.candidate == Some(db)
    else f.source == Some(db)
  }

  predicate OnItsWay(m: Machine, db: Database) {
    || Failing(m.pc)
    || (Installing(m.pc) && Unrestored(m.files) && Carries(m.files, m.pc, db))
    || (m.pc == Stopped(true) && m.files.source == Some(db) && db.passes && m.files.backup.None? && m.files.candidate.None?)
  }

  // Install's final removals come after the new database has passed.
  predicate Finalizes(m: Machine, db: Database) {
    && (m.pc.RemoveManifest? && Installing(m.pc) ==> m.files.candidate.None? && db.passes)
    && (m.pc.RemoveCandidate? && Installing(m.pc) ==> db.passes)
  }

  // A call that is to fail fails.
  lemma FailingStays(m: Machine, o: Outcome)
    requires Failing(m.pc) && Running(m)
    ensures Failing(Next(m, o).pc)
  {
  }

  lemma InstallStays(m: Machine, o: Outcome, db: Database)
    requires Inv(m) && OnItsWay(m, db) && IsInstall(m.pc)
    ensures OnItsWay(InstallStep(m, o), db) && Finalizes(InstallStep(m, o), db)
  {
  }

  lemma RemovalStays(m: Machine, o: Outcome, db: Database)
    requires Inv(m) && OnItsWay(m, db) && Finalizes(m, db) && Installing(m.pc) && !IsInstall(m.pc)
    ensures OnItsWay(RemoveStep(m, o), db) && Finalizes(RemoveStep(m, o), db)
  {
  }

  lemma InstallSteps(m: Machine, o: Outcome, db: Database)
    requires Inv(m) && OnItsWay(m, db) && Finalizes(m, db) && Running(m)
    ensures OnItsWay(Next(m, o), db) && Finalizes(Next(m, o), db)
  {
    if Failing(m.pc) {
      FailingStays(m, o);
    } else if IsInstall(m.pc) {
      InstallStays(m, o, db);
    } else {
      RemovalStays(m, o, db);
    }
  }

  lemma {:induction false} InstallRuns(m: Machine, script: seq<Outcome>, db: Database)
    requires Inv(m) && OnItsWay(m, db) && Finalizes(m, db)
    ensures Inv(Run(m, script)) && OnItsWay(Run(m, script), db)
    decreases |script|
  {
    if script != [] && Running(m) {
      StepKeeps(m, script[0]);
      InstallSteps(m, script[0], db);
      InstallRuns(Next(m, script[0]), script[1..], db);
    }
  }

  // Install has not written its manifest yet.
  predicate Unwritten(pc: Pc) {
    pc.CheckBackup? || pc.WriteValidated?
  }

  /** One call of install, with any errors, cut anywhere. If it returns nil the candidate passed and is
      at source, alone. If it is cut before it turns to recovery, uninterrupted recovery completes. */
  lemma InstallIsRecoverable(m: Machine, passes: bool, script: seq<Outcome>)
    requires Inv(m) && m.pc == Stopped(true)
    ensures var r := Run(After(m, Migrate(passes)), script);
            && Kept(r.files)
            && (r.pc == Stopped(true) ==>
                  passes && r.files == Files(Some(Database(false, true)), None, None, r.files.failed, None))
            && (Installing(r.pc) ==> !Stuck(r.files))
            && (Installing(r.pc) ==> (Unwritten(r.pc) <==> r.files.manifest.None?))
            && (Unwritten(r.pc) ==> r.files.candidate == Some(Database(false, passes)))
  {
    var start := After(m, Migrate(passes));
    InstallRuns(start, script, Database(false, passes));
    var r := Run(start, script);
    if r.pc == Stopped(true) {
      assert r.files.manifest.None?;
    }
  }

  /** Cut install anywhere, its own recovery included; then recovery runs without interruption. It
      completes exactly when the files are not stuck, which they never are before install turns to its
      recovery. The candidate is then gone exactly when there was a manifest to act on, or none left. */
  lemma CutInstallRecovers(m: Machine, passes: bool, script: seq<Outcome>, recovery: seq<Outcome>)
    requires Inv(m) && m.pc == Stopped(true)
    requires AllFine(recovery) && |recovery| >= 8
    ensures var cut := Run(After(m, Migrate(passes)), script);
            var r := Run(Machine(cut.files, ReadManifest(false)), recovery).files;
            && (Installing(cut.pc) ==> !Stuck(cut.files))
            && (r.manifest.None? <==> !Stuck(cut.files))
            && (cut.files.manifest.None? ==> r == cut.files)
            && (!Stuck(cut.files) ==>
                  && r.source.Some? && Trusted(r.source.value) && r.backup.None?
                  && (r.candidate.None? <==> cut.files.manifest.Some? || cut.files.candidate.None?))
            && (Installing(cut.pc) ==> (r.candidate.None? <==> !Unwritten(cut.pc)))
  {
    InstallIsRecoverable(m, passes, script);
    RecoveryCompletesUnlessStuck(Run(After(m, Migrate(passes)), script).files, recovery);
  }

  // ---------- when install installs ----------

  // A step of install that reports an error fails the call.
  lemma NotFineFails(m: Machine, o: Outcome)
    requires Installing(m.pc) && !o.Fine?
    ensures Failing(Next(m, o).pc)
  {
  }

  lemma {:induction false} FailingRuns(m: Machine, script: seq<Outcome>)
    requires Failing(m.pc)
    ensures Failing(Run(m, script).pc)
    decreases |script|
  {
    if script != [] && Running(m) {
      FailingStays(m, script[0]);
      FailingRuns(Next(m, script[0]), script[1..]);
    }
  }

  // The steps an install still has to take.
  function StepsLeft(pc: Pc): nat
    requires Installing(pc)
  {
    match pc
    case CheckBackup => 11
    case WriteValidated => 10
    case PreserveSource => 9
    case WritePreserved => 8
    case InstallCandidate => 7
    case WriteInstalled => 6
    case ValidateNew => 5
    case WriteVerified => 4
    case RemoveBackup(_) => 3
    case RemoveCandidate(_) => 2
    case RemoveManifest(_) => 1
  }

  lemma FineGoesOn(m: Machine)
    requires Inv(m) && Installing(m.pc)
    ensures var t := Next(m, Fine);
            || Failing(t.pc)
            || (Installing(t.pc) && StepsLeft(t.pc) == StepsLeft(m.pc) - 1)
            || (t.pc == Stopped(true) && StepsLeft(m.pc) == 1)
  {
  }

  // Only an install all of whose steps succeed returns nil.
  lemma {:induction false} NilMeansFine(m: Machine, script: seq<Outcome>)
    requires Inv(m) && Installing(m.pc) && Run(m, script).pc == Stopped(true)
    ensures |script| >= StepsLeft(m.pc) && AllFine(script[..StepsLeft(m.pc)])
    decreases |script|
  {
    var t := Next(m, script[0]);
    if !script[0].Fine? {
      NotFineFails(m, script[0]);
      FailingRuns(t, script[1..]);
    } else {
      FineGoesOn(m);
      StepKeeps(m, Fine);
      if Failing(t.pc) {
        FailingRuns(t, script[1..]);
      } else if Installing(t.pc) {
        NilMeansFine(t, script[1..]);
        var n := StepsLeft(m.pc);
        assert script[..n] == [script[0]] + script[1..][..n - 1];
      }
    }
  }

  lemma FineAt(m: Machine, script: seq<Outcome>, k: nat)
    requires Running(m) && k < |script| && script[k].Fine?
    ensures Run(m, script[k..]) == Run(Next(m, Fine), script[k + 1..])
  {
    assert script[k..][1..] == script[k + 1..];
  }

  predicate FineFrom(script: seq<Outcome>, k: nat, n: nat) {
    k + n <= |script| && forall j :: k <= j < k + n ==> script[j].Fine?
  }

  // The source makes way for the candidate.
  lemma InstallPreserves(f: Files, script: seq<Outcome>)
    requires f.source.Some? && f.backup.None? && FineFrom(script, 0, 4)
    ensures Run(Machine(f, CheckBackup), script)
         == Run(Machine(Files(None, f.candidate, f.source, f.failed, Some(SourcePreserved)), InstallCandidate), script[4..])
  {
    assert script[0..] == script;
    var f2 := f.(manifest := Some(Validated));
    FineAt(Machine(f, CheckBackup), script, 0);
    FineAt(Machine(f, WriteValidated), script, 1);
    FineAt(Machine(f2, PreserveSource), script, 2);
    FineAt(Machine(f2.(source := None, backup := f.source), WritePreserved), script, 3);
  }

  // The candidate takes its place and is validated there.
  lemma InstallPlaces(f: Files, script: seq<Outcome>)
    requires f.candidate.Some? && FineFrom(script, 4, 3)
    ensures Run(Machine(f, InstallCandidate), script[4..])
         == Run(Machine(Files(f.candidate, None, f.backup, f.failed, Some(Installed)),
                        if f.candidate.value.passes then WriteVerified else ReadManifest(true)), script[7..])
  {
    var f1 := f.(candidate := None, source := f.candidate);
    FineAt(Machine(f, InstallCandidate), script, 4);
    FineAt(Machine(f1, WriteInstalled), script, 5);
    FineAt(Machine(f1.(manifest := Some(Installed)), ValidateNew), script, 6);
  }

  // The verdict is written down, and backup, candidate and manifest go.
  lemma InstallEnds(f: Files, script: seq<Outcome>)
    requires f.backup.Some? && FineFrom(script, 7, 4)
    ensures Run(Machine(f, WriteVerified), script[7..]) == Machine(Files(f.source, None, None, f.failed, None), Stopped(true))
  {
    var f1 := f.(manifest := Some(Verified));
    FineAt(Machine(f, WriteVerified), script, 7);
    FineAt(Machine(f1, RemoveBackup(false)), script, 8);
    FineAt(Machine(f1.(backup := None), RemoveCandidate(false)), script, 9);
    FineAt(Machine(f1.(backup := None, candidate := None), RemoveManifest(false)), script, 10);
  }

  /** Install, called after a recovery that returned nil, returns nil exactly when the candidate passes and its eleven
      steps succeed. The candidate is then at source and nothing else is left; what an earlier restore set aside stays. */
  lemma InstallInstalls(m: Machine, passes: bool, script: seq<Outcome>)
    requires Inv(m) && m.pc == Stopped(true)
    ensures var r := Run(After(m, Migrate(passes)), script);
            && (r.pc == Stopped(true) <==> passes && |script| >= 11 && AllFine(script[..11]))
            && (r.pc == Stopped(true) ==> r == Machine(Files(Some(Database(false, true)), None, None, m.files.failed, None), Stopped(true)))
  {
    var start := After(m, Migrate(passes));
    if Run(start, script).pc == Stopped(true) {
      InstallIsRecoverable(m, passes, script);
      NilMeansFine(start, script);
    }
    if passes && |script| >= 11 && AllFine(script[..11]) {
      assert forall k :: 0 <= k < 11 ==> script[k] == script[..11][k];
      InstallPreserves(start.files, script);
      InstallPlaces(Files(None, start.files.candidate, m.files.source, m.files.failed, Some(SourcePreserved)), script);
      InstallEnds(Files(Some(Database(false, true)), None, m.files.source, m.files.failed, Some(Installed)), script);
    }
  }

  lemma RejectedRuns(f: Files, script: seq<Outcome>)
    requires Past(f) && f.source.Some? && !f.source.value.passes && f.backup.Some? && AllFine(script) && |script| >= 15
    ensures Run(Machine(f, ReadManifest(true)), script[7..]) == Machine(Files(f.backup, None, None, None, None), Stopped(false))
  {
    FineAt(Machine(f, ReadManifest(true)), script, 7);
    FineAt(Machine(f, ValidateSource(true)), script, 8);
    RestoreRuns(f, script[9..]);
  }

  /** A candidate that does not pass is never kept: when every step succeeds, install puts the old database back, alone,
      and returns an error. */
  lemma RejectedInstallRestores(m: Machine, script: seq<Outcome>)
    requires Inv(m) && m.pc == Stopped(true) && |script| >= 15 && AllFine(script)
    ensures Run(After(m, Migrate(false)), script) == Machine(Files(m.files.source, None, None, None, None), Stopped(false))
  {
    var start := After(m, Migrate(false)).files;
    var f := Files(Some(Database(false, false)), None, m.files.source, m.files.failed, Some(Installed));
    InstallPreserves(start, script);
    InstallPlaces(Files(None, start.candidate, m.files.source, m.files.failed, Some(SourcePreserved)), script);
    RejectedRuns(f, script);
  }

  /** Before the manifest is written the candidate belongs to no migration recovery knows of: cut there,
      and recovery returns nil with the candidate still on disk. */
  lemma EarlyCutKeepsCandidate(original: bool, passes: bool, recovery: seq<Outcome>)
    requires AllFine(recovery) && |recovery| >= 8
    ensures var cut := After(Machine(Start(original).files, Stopped(true)), Migrate(passes));
            var r := Run(Machine(cut.files, ReadManifest(false)), recovery);
            r.pc == Stopped(true) && r.files.candidate == Some(Database(false, passes))
  {
    var m := Machine(Start(original).files, Stopped(true));
    assert Inv(m);
    assert Run(After(m, Migrate(passes)), []) == After(m, Migrate(passes));
    RecoveryCompletesUnlessStuck(After(m, Migrate(passes)).files, recovery);
  }
}
