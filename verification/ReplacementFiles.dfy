/** The code of install and recovery over the files themselves. The script says what the environment
    does to the coming steps; when it is used up the process is gone, and the method returns where it
    was cut. Every method moves the files exactly as the machine does. */
module ReplacementFiles {
  import opened Replacement

  class MigrationFiles {
    var source: Option<Database>
    var candidate: Option<Database>
    var backup: Option<Database>
    var failed: Option<Database>
    var manifest: Option<Phase>
    var script: seq<Outcome>

    function Contents(): Files
      reads this
    {
      Files(source, candidate, backup, failed, manifest)
    }

    // From here on, what the call at pc does with the rest of the script is what m does with s.
    ghost predicate Follows(m: Machine, s: seq<Outcome>, pc: Pc)
      reads this
    {
      Run(Machine(Contents(), pc), script) == Run(m, s)
    }

    // The outcome of the next step, or the process is gone.
    method NextOutcome(ghost m: Machine, ghost s: seq<Outcome>, ghost pc: Pc) returns (cut: bool, o: Outcome)
      requires Follows(m, s, pc) && Running(Machine(Contents(), pc))
      modifies `script
      ensures cut ==> Machine(Contents(), pc) == Run(m, s)
      ensures !cut ==> Run(Next(Machine(Contents(), pc), o), script) == Run(m, s)
    {
      if script == [] {
        return true, Refused;
      }
      cut, o := false, script[0];
      script := script[1..];
    }

    method InstallValidated() returns (pc: Pc)
      modifies this
      ensures Machine(Contents(), pc) == Run(old(Machine(Contents(), CheckBackup)), old(script))
    {
      ghost var m, s := Machine(Contents(), CheckBackup), script;
      var cut, o := NextOutcome(m, s, CheckBackup);
      if cut { return CheckBackup; }
      if backup.Some? || !o.Fine? { return Stopped(false); }
      cut, o := NextOutcome(m, s, WriteValidated);
      if cut { return WriteValidated; }
      if !o.Refused? { manifest := Some(Validated); }
      if !o.Fine? { return Stopped(false); }
      assert Follows(m, s, PreserveSource);
      pc := InstallPreserved(m, s);
    }

    // installValidated from its first rename on.
    method InstallPreserved(ghost m: Machine, ghost s: seq<Outcome>) returns (pc: Pc)
      requires Follows(m, s, PreserveSource)
      modifies this
      ensures Machine(Contents(), pc) == Run(m, s)
    {
      var cut, o := NextOutcome(m, s, PreserveSource);
      if cut { return PreserveSource; }
      if source.None? || !o.Fine? {
        if source.Some? && o.Late? { source, backup := None, source; }
        pc := RecoverOwned(m, s, true);
        return;
      }
      source, backup := None, source;
      pc := InstallPlaced(m, s);
    }

    // installValidated once the source is preserved.
    method InstallPlaced(ghost m: Machine, ghost s: seq<Outcome>) returns (pc: Pc)
      requires Follows(m, s, WritePreserved)
      modifies this
      ensures Machine(Contents(), pc) == Run(m, s)
    {
      var cut, o := NextOutcome(m, s, WritePreserved);
      if cut { return WritePreserved; }
      if !o.Refused? { manifest := Some(SourcePreserved); }
      if !o.Fine? {
        pc := RecoverOwned(m, s, true);
        return;
      }
      cut, o := NextOutcome(m, s, InstallCandidate);
      if cut { return InstallCandidate; }
      if candidate.None? || !o.Fine? {
        if candidate.Some? && o.Late? { candidate, source := None, candidate; }
        pc := RecoverOwned(m, s, true);
        return;
      }
      candidate, source := None, candidate;
      pc := VerifyInstalled(m, s);
    }

    // installValidated once the candidate is at source.
    method VerifyInstalled(ghost m: Machine, ghost s: seq<Outcome>) returns (pc: Pc)
      requires Follows(m, s, WriteInstalled)
      modifies this
      ensures Machine(Contents(), pc) == Run(m, s)
    {
      var cut, o := NextOutcome(m, s, WriteInstalled);
      if cut { return WriteInstalled; }
      if !o.Refused? { manifest := Some(Installed); }
      if !o.Fine? {
        pc := RecoverOwned(m, s, true);
        return;
      }
      cut, o := NextOutcome(m, s, ValidateNew);
      if cut { return ValidateNew; }
      if !Passes(source, o) {
        pc := RecoverOwned(m, s, true);
        return;
      }
      pc := MarkVerified(m, s);
    }

    // installValidated once the installed database passed.
    method MarkVerified(ghost m: Machine, ghost s: seq<Outcome>) returns (pc: Pc)
      requires Follows(m, s, WriteVerified)
      modifies this
      ensures Machine(Contents(), pc) == Run(m, s)
    {
      var cut, o := NextOutcome(m, s, WriteVerified);
      if cut { return WriteVerified; }
      if !o.Refused? { manifest := Some(Verified); }
      if !o.Fine? {
        pc := RecoverOwned(m, s, true);
        return;
      }
      pc := FinalizeReplacement(m, s, false);
    }

    method RecoverOwned(ghost m: Machine, ghost s: seq<Outcome>, failing: bool) returns (pc: Pc)
      requires Follows(m, s, ReadManifest(failing))
      modifies this
      ensures Machine(Contents(), pc) == Run(m, s)
    {
      var cut, o := NextOutcome(m, s, ReadManifest(failing));
      if cut { return ReadManifest(failing); }
      if !o.Fine? { return Stopped(false); }
      if manifest.None? { return Stopped(!failing); }
      if manifest == Some(Validated) {
        if source.None? && backup.Some? {
          cut, o := NextOutcome(m, s, RestorePreserved(failing));
          if cut { return RestorePreserved(failing); }
          if !o.Refused? { backup, source := None, backup; }
          if !o.Fine? { return Stopped(false); }
        }
        if source.None? { return Stopped(false); }
        pc := RemoveTemporaries(m, s, failing);
        return;
      }
      pc := RecoverInstalled(m, s, failing);
    }

    // recoverOwned past the first phase.
    method RecoverInstalled(ghost m: Machine, ghost s: seq<Outcome>, failing: bool) returns (pc: Pc)
      requires Past(Contents()) && Follows(m, s, Decide(Contents(), failing))
      modifies this
      ensures Machine(Contents(), pc) == Run(m, s)
    {
      var cut, o;
      if source.None? {
        if backup.None? { return Stopped(false); }
        cut, o := NextOutcome(m, s, RestoreLost(failing));
        if cut { return RestoreLost(failing); }
        if !o.Refused? { backup, source := None, backup; }
        if !o.Fine? { return Stopped(false); }
        pc := DropAndRemoveManifest(m, s, failing);
        return;
      }
      cut, o := NextOutcome(m, s, ValidateSource(failing));
      if cut { return ValidateSource(failing); }
      if !Passes(source, o) {
        if backup.None? { return Stopped(false); }
        pc := RestoreBackup(m, s);
        return;
      }
      pc := FinalizeReplacement(m, s, failing);
    }

    method RestoreBackup(ghost m: Machine, ghost s: seq<Outcome>) returns (pc: Pc)
      requires Follows(m, s, ClearFailed)
      modifies this
      ensures Machine(Contents(), pc) == Run(m, s)
    {
      var cut, o := NextOutcome(m, s, ClearFailed);
      if cut { return ClearFailed; }
      if !o.Refused? { failed := None; }
      cut, o := NextOutcome(m, s, MoveAside);
      if cut { return MoveAside; }
      if source.None? { return Stopped(false); }
      if !o.Refused? { source, failed := None, source; }
      if !o.Fine? { return Stopped(false); }
      cut, o := NextOutcome(m, s, Pc.RestoreBackup);
      if cut { return Pc.RestoreBackup; }
      if backup.None? { return Stopped(false); }
      if !o.Refused? { backup, source := None, backup; }
      if !o.Fine? { return Stopped(false); }
      cut, o := NextOutcome(m, s, DropFailed);
      if cut { return DropFailed; }
      if !o.Refused? { failed := None; }
      pc := DropAndRemoveManifest(m, s, true);
    }

    method DropAndRemoveManifest(ghost m: Machine, ghost s: seq<Outcome>, failing: bool) returns (pc: Pc)
      requires Follows(m, s, DropCandidate(failing))
      modifies this
      ensures Machine(Contents(), pc) == Run(m, s)
    {
      var cut, o := NextOutcome(m, s, DropCandidate(failing));
      if cut { return DropCandidate(failing); }
      if !o.Refused? { candidate := None; }
      pc := RemoveManifestFile(m, s, failing);
    }

    method FinalizeReplacement(ghost m: Machine, ghost s: seq<Outcome>, failing: bool) returns (pc: Pc)
      requires Follows(m, s, Finalize(Contents(), failing))
      modifies this
      ensures Machine(Contents(), pc) == Run(m, s)
    {
      if backup.Some? {
        var cut, o := NextOutcome(m, s, RemoveBackup(failing));
        if cut { return RemoveBackup(failing); }
        if !o.Refused? { backup := None; }
        if !o.Fine? { return Stopped(false); }
      }
      pc := RemoveTemporaries(m, s, failing);
    }

    method RemoveTemporaries(ghost m: Machine, ghost s: seq<Outcome>, failing: bool) returns (pc: Pc)
      requires Follows(m, s, RemoveCandidate(failing))
      modifies this
      ensures Machine(Contents(), pc) == Run(m, s)
    {
      var cut, o := NextOutcome(m, s, RemoveCandidate(failing));
      if cut { return RemoveCandidate(failing); }
      if !o.Refused? { candidate := None; }
      if !o.Fine? { return Stopped(false); }
      pc := RemoveManifestFile(m, s, failing);
    }

    method RemoveManifestFile(ghost m: Machine, ghost s: seq<Outcome>, failing: bool) returns (pc: Pc)
      requires Follows(m, s, RemoveManifest(failing))
      modifies this
      ensures Machine(Contents(), pc) == Run(m, s)
    {
      var cut, o := NextOutcome(m, s, RemoveManifest(failing));
      if cut { return RemoveManifest(failing); }
      if !o.Refused? { manifest := None; }
      if !o.Fine? { return Stopped(false); }
      pc := Stopped(!failing);
    }
  }
}
