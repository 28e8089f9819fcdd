// Saving and repairing the user settings: a final file, a temp file and a backup, with any
// operation allowed to fail and the process allowed to die after any step or mid-write.
//
// A file's content is the number of the save that wrote it; later saves have larger numbers.
module SettingsFiles {
  import opened ActorValues

  datatype File = Whole(save: nat) | Torn

  datatype Disk = Disk(final: Option<File>, tmp: Option<File>, bak: Option<File>)

  predicate IsValidJson(file: Option<File>) { file.Some? && file.value.Whole? }

  // ---- Single operations -------------------------------------------------------------------

  function RemoveTmp(d: Disk, works: bool): Disk { if works then d.(tmp := None) else d }

  function RemoveBak(d: Disk, works: bool): Disk { if works then d.(bak := None) else d }

  /** Renaming replaces the target, or fails and changes nothing. */
  function FinalToBak(d: Disk, works: bool): Disk {
    if works && d.final.Some? then d.(final := None, bak := d.final) else d
  }

  function TmpToFinal(d: Disk, works: bool): Disk {
    if works && d.tmp.Some? then d.(tmp := None, final := d.tmp) else d
  }

  function BakToFinal(d: Disk, works: bool): Disk {
    if works && d.bak.Some? then d.(bak := None, final := d.bak) else d
  }

  // ---- Saving ------------------------------------------------------------------------------

  /** Which operations of one save succeed; an existence probe that fails reads as "missing". */
  datatype SaveFaults = SaveFaults(
    prepares: bool, opens: bool, flushes: bool, written: bool, cleansUp: bool,
    probes: bool, removesBak: bool, rotates: bool, commits: bool,
    removesTmp: bool, probesAgain: bool, restores: bool)

  function Rotated(d: Disk, f: SaveFaults): seq<Disk> {
    if d.final.Some? && f.probes then
      var removed := RemoveBak(d, f.removesBak);
      [removed, FinalToBak(removed, f.rotates)]
    else []
  }

  function LastOr(states: seq<Disk>, d: Disk): Disk { if states == [] then d else states[|states| - 1] }

  function Uncommitted(d: Disk, f: SaveFaults): seq<Disk> {
    var removed := RemoveTmp(d, f.removesTmp);
    if removed.final.Some? && f.probesAgain then [removed] else [removed, BakToFinal(removed, f.restores)]
  }

  function Committed(d: Disk, f: SaveFaults): seq<Disk> {
    var rotated := Rotated(d, f);
    var ready := LastOr(rotated, d);
    var done := TmpToFinal(ready, f.commits);
    rotated + [done] + if f.commits then [] else Uncommitted(done, f)
  }

  /** Writing the temp file: truncated first, then whole, or left as it may be and removed again. */
  function Written(d: Disk, save: nat, f: SaveFaults): (trace: seq<Disk>)
    ensures trace != []
  {
    var truncated := d.(tmp := Some(Torn));
    if f.flushes then [truncated, d.(tmp := Some(Whole(save)))]
    else
      var broken := d.(tmp := Some(if f.written then Whole(save) else Torn));
      [truncated, broken, RemoveTmp(broken, f.cleansUp)]
  }

  /** Every state the disk goes through during a save, the one before it included. */
  function SaveTrace(d: Disk, save: nat, f: SaveFaults): (trace: seq<Disk>)
    ensures trace != []
  {
    if !f.prepares || !f.opens then [d]
    else if !f.flushes then [d] + Written(d, save, f)
    else [d] + Written(d, save, f) + Committed(d.(tmp := Some(Whole(save))), f)
  }

  predicate Succeeds(f: SaveFaults) { f.prepares && f.opens && f.flushes && f.commits }

  // ---- Repairing ---------------------------------------------------------------------------

  datatype RepairFaults = RepairFaults(
    probesFinal: bool, probesTmp: bool, probesBak: bool, readsTmp: bool, recovers: bool,
    removesTmp: bool, probesAgain: bool, readsBak: bool, restores: bool)

  const NO_FAULTS := RepairFaults(true, true, true, true, true, true, true, true, true)

  function RecoverTmp(d: Disk, f: RepairFaults): Disk {
    if !(d.final.Some? && f.probesFinal) && f.probesTmp && IsValidJson(d.tmp) && f.readsTmp then
      TmpToFinal(d, f.recovers)
    else d
  }

  function DropTmp(d: Disk, recovered: Disk, f: RepairFaults): Disk {
    if d.tmp.Some? && f.probesTmp then RemoveTmp(recovered, f.removesTmp) else recovered
  }

  function RestoreBak(d: Disk, f: RepairFaults): Disk {
    if !(d.final.Some? && f.probesAgain) && f.probesBak && IsValidJson(d.bak) && f.readsBak then
      BakToFinal(d, f.restores)
    else d
  }

  function RepairTrace(d: Disk, f: RepairFaults): (trace: seq<Disk>)
    ensures trace != []
  {
    var recovered := RecoverTmp(d, f);
    var dropped := DropTmp(d, recovered, f);
    [d, recovered, dropped, RestoreBak(dropped, f)]
  }

  // ---- In place ----------------------------------------------------------------------------

  /** The three files; `trace` is the history of the disk, one entry per completed operation. */
  class UserSettingsFiles {
    var final: Option<File>
    var tmp: Option<File>
    var bak: Option<File>
    ghost var trace: seq<Disk>

    function Value(): Disk
      reads this
    {
      Disk(final, tmp, bak)
    }

    constructor (disk: Disk)
      ensures Value() == disk && trace == []
    {
      final, tmp, bak := disk.final, disk.tmp, disk.bak;
      trace := [];
    }

    method Record()
      modifies `trace
      ensures trace == old(trace) + [Value()]
    {
      trace := trace + [Value()];
    }

    method DeleteTmp(works: bool)
      modifies this
      ensures Value() == RemoveTmp(old(Value()), works) && trace == old(trace) + [Value()]
    {
      if works {
        tmp := None;
      }
      Record();
    }

    method DeleteBak(works: bool)
      modifies this
      ensures Value() == RemoveBak(old(Value()), works) && trace == old(trace) + [Value()]
    {
      if works {
        bak := None;
      }
      Record();
    }

    method RenameFinalToBak(works: bool)
      modifies this
      ensures Value() == FinalToBak(old(Value()), works) && trace == old(trace) + [Value()]
    {
      if works && final.Some? {
        final, bak := None, final;
      }
      Record();
    }

    method RenameTmpToFinal(works: bool)
      modifies this
      ensures Value() == TmpToFinal(old(Value()), works) && trace == old(trace) + [Value()]
    {
      if works && tmp.Some? {
        tmp, final := None, tmp;
      }
      Record();
    }

    method RenameBakToFinal(works: bool)
      modifies this
      ensures Value() == BakToFinal(old(Value()), works) && trace == old(trace) + [Value()]
    {
      if works && bak.Some? {
        bak, final := None, bak;
      }
      Record();
    }

    method WriteTmp(content: File)
      modifies this
      ensures Value() == old(Value()).(tmp := Some(content)) && trace == old(trace) + [Value()]
    {
      tmp := Some(content);
      Record();
    }

    method Rotate(f: SaveFaults)
      modifies this
      ensures trace == old(trace) + Rotated(old(Value()), f)
      ensures Value() == LastOr(Rotated(old(Value()), f), old(Value()))
    {
      hide RemoveBak, FinalToBak;
      if final.Some? && f.probes {
        DeleteBak(f.removesBak);
        RenameFinalToBak(f.rotates);
      }
    }

    method UndoRotation(f: SaveFaults)
      modifies this
      ensures trace == old(trace) + Uncommitted(old(Value()), f)
      ensures Value() == LastOr(Uncommitted(old(Value()), f), old(Value()))
    {
      hide RemoveTmp, BakToFinal;
      DeleteTmp(f.removesTmp);
      if !(final.Some? && f.probesAgain) {
        RenameBakToFinal(f.restores);
      }
    }

    method Commit(f: SaveFaults) returns (saved: bool)
      modifies this
      ensures saved == f.commits
      ensures trace == old(trace) + Committed(old(Value()), f)
      ensures Value() == LastOr(Committed(old(Value()), f), old(Value()))
    {
      hide Rotated, Uncommitted, TmpToFinal;
      ghost var before, start := trace, Value();
      Rotate(f);
      RenameTmpToFinal(f.commits);
      ghost var done := Value();
      assert trace == before + (Rotated(start, f) + [done]);
      if f.commits {
        return true;
      }
      UndoRotation(f);
      assert trace == before + (Rotated(start, f) + [done] + Uncommitted(done, f));
      return false;
    }

    method WriteContent(save: nat, f: SaveFaults)
      modifies this
      ensures trace == old(trace) + Written(old(Value()), save, f)
      ensures Value() == LastOr(Written(old(Value()), save, f), old(Value()))
    {
      hide RemoveTmp;
      WriteTmp(Torn);
      if f.flushes {
        WriteTmp(Whole(save));
      } else {
        WriteTmp(if f.written then Whole(save) else Torn);
        DeleteTmp(f.cleansUp);
      }
    }

    method SaveToDisk(save: nat, f: SaveFaults) returns (saved: bool)
      modifies this
      ensures saved == Succeeds(f)
      ensures trace == old(trace) + SaveTrace(old(Value()), save, f)
      ensures Value() == LastOr(SaveTrace(old(Value()), save, f), old(Value()))
    {
      hide Committed;
      ghost var before, start := trace, Value();
      Record();
      if !f.prepares || !f.opens {
        return false;
      }
      WriteContent(save, f);
      assert f.flushes ==> Value() == start.(tmp := Some(Whole(save)));
      hide Written;
      assert trace == before + ([start] + Written(start, save, f));
      if !f.flushes {
        return false;
      }
      ghost var written := Value();
      saved := Commit(f);
      assert trace == before + ([start] + Written(start, save, f) + Committed(written, f));
    }

    method RecoverFromTmp(finalExists: bool, tmpExists: bool, f: RepairFaults)
      requires finalExists == (final.Some? && f.probesFinal) && tmpExists == (tmp.Some? && f.probesTmp)
      modifies this
      ensures Value() == RecoverTmp(old(Value()), f) && trace == old(trace) + [Value()]
    {
      if !finalExists && tmpExists && IsValidJson(tmp) && f.readsTmp {
        RenameTmpToFinal(f.recovers);
      } else {
        Record();
      }
    }

    method RestoreFromBak(bakExists: bool, f: RepairFaults)
      requires bakExists == (bak.Some? && f.probesBak)
      modifies this
      ensures Value() == RestoreBak(old(Value()), f) && trace == old(trace) + [Value()]
    {
      if !(final.Some? && f.probesAgain) && bakExists && IsValidJson(bak) && f.readsBak {
        RenameBakToFinal(f.restores);
      } else {
        Record();
      }
    }

    method RepairUserSettingsFiles(f: RepairFaults)
      modifies this
      ensures trace == old(trace) + RepairTrace(old(Value()), f)
      ensures Value() == LastOr(RepairTrace(old(Value()), f), old(Value()))
    {
      hide RestoreBak;
      ghost var before, start := trace, Value();
      Record();
      var finalExists := final.Some? && f.probesFinal;
      var tmpExists := tmp.Some? && f.probesTmp;
      var bakExists := bak.Some? && f.probesBak;
      RecoverFromTmp(finalExists, tmpExists, f);
      ghost var recovered := Value();
      assert bak == start.bak;
      hide RecoverTmp;
      if tmpExists {
        DeleteTmp(f.removesTmp);
      } else {
        Record();
      }
      ghost var dropped := Value();
      assert dropped == DropTmp(start, recovered, f);
      RestoreFromBak(bakExists, f);
      assert trace == before + [start, recovered, dropped, Value()];
    }
  }

  // ---- A recoverable copy, never older than the last successful save -----------------------

  predicate NotOlder(file: Option<File>, last: nat) { IsValidJson(file) && file.value.save >= last }

  /** What a repair without faults makes the final file. */
  function Recoverable(d: Disk): Option<File> {
    if d.final.Some? then d.final
    else if IsValidJson(d.tmp) then d.tmp
    else if IsValidJson(d.bak) then d.bak
    else None
  }

  predicate Safe(d: Disk, last: nat) {
    && NotOlder(if d.final.Some? then d.final else d.bak, last)
    && (IsValidJson(d.tmp) ==> d.tmp.value.save >= last)
  }

  predicate AllSafe(trace: seq<Disk>, last: nat) { forall i | 0 <= i < |trace| :: Safe(trace[i], last) }

  lemma SafeIsRecoverable(d: Disk, last: nat)
    requires Safe(d, last)
    ensures NotOlder(Recoverable(d), last)
  {
  }

  /** A repair without faults makes the recoverable copy final and leaves no temp file behind. */
  lemma RepairRecovers(d: Disk)
    ensures var repaired := LastOr(RepairTrace(d, NO_FAULTS), d);
      repaired.final == Recoverable(d) && repaired.tmp == None
  {
  }

  /** A save that returns true has made its content final. */
  lemma SuccessMeansFinal(d: Disk, save: nat, f: SaveFaults)
    requires Succeeds(f)
    ensures var after := LastOr(SaveTrace(d, save, f), d);
      after.final == Some(Whole(save)) && after.tmp == None && Safe(after, save)
  {
  }

  /** The final file is still there when a failed commit reaches its restore step. */
  predicate KeepsFinal(d: Disk, f: SaveFaults) { d.final.Some? && !(f.probes && f.rotates) }

  /** The backup the restore step would find: none if the rotation's removal worked. */
  predicate BackupLeft(d: Disk, f: SaveFaults) { d.bak.Some? && !(d.final.Some? && f.probes && f.removesBak) }

  /** The restore step moves an outdated backup over a final file it failed to see. */
  predicate SaveMisfires(d: Disk, f: SaveFaults, last: nat) {
    && f.prepares && f.opens && f.flushes && !f.commits
    && KeepsFinal(d, f) && !f.probesAgain && f.restores
    && BackupLeft(d, f) && !NotOlder(d.bak, last)
  }

  lemma CommitSafeExactlyWhen(d: Disk, f: SaveFaults, last: nat)
    requires Safe(d, last) && d.tmp.Some? && IsValidJson(d.tmp)
    ensures AllSafe(Committed(d, f), last) <==>
      !(!f.commits && KeepsFinal(d, f) && !f.probesAgain && f.restores && BackupLeft(d, f) && !NotOlder(d.bak, last))
  {
    var rotated := Rotated(d, f);
    var ready := LastOr(rotated, d);
    var done := TmpToFinal(ready, f.commits);
    var all := Committed(d, f);
    assert forall i | 0 <= i < |rotated| :: Safe(rotated[i], last);
    assert all[|rotated|] == done && Safe(done, last);
    if !f.commits {
      var tail := Uncommitted(done, f);
      assert forall i | 0 <= i < |tail| :: all[|rotated| + 1 + i] == tail[i];
      assert Safe(tail[0], last);
      if |tail| == 2 {
        assert all[|rotated| + 2] == tail[1];
      }
    }
  }

  /**
   * Through a whole save, a valid copy no older than the last successful save stays recoverable,
   * exactly when the save does not misfire.
   */
  lemma SaveIsSafeExactlyWhen(d: Disk, save: nat, f: SaveFaults, last: nat)
    requires Safe(d, last) && save >= last
    ensures AllSafe(SaveTrace(d, save, f), last) <==> !SaveMisfires(d, f, last)
  {
    hide Committed;
    if f.prepares && f.opens {
      WritingIsSafe(d, save, f, last);
      if f.flushes {
        var full := d.(tmp := Some(Whole(save)));
        CommitSafeExactlyWhen(full, f, last);
        AllSafeConcat([d], Written(d, save, f), last);
        AllSafeConcat([d] + Written(d, save, f), Committed(full, f), last);
      } else {
        AllSafeConcat([d], Written(d, save, f), last);
      }
    }
  }

  lemma AllSafeConcat(a: seq<Disk>, b: seq<Disk>, last: nat)
    ensures AllSafe(a + b, last) <==> AllSafe(a, last) && AllSafe(b, last)
  {
    hide Safe;
    forall i | 0 <= i < |a| ensures (a + b)[i] == a[i] {}
    assert forall i | 0 <= i < |b| :: (a + b)[|a| + i] == b[i];
  }

  /** While only the temp file is written, the copy that counts is not touched. */
  lemma WritingIsSafe(d: Disk, save: nat, f: SaveFaults, last: nat)
    requires Safe(d, last) && save >= last
    ensures AllSafe(Written(d, save, f), last)
  {
  }

  predicate RepairMisfires(d: Disk, f: RepairFaults, last: nat) {
    var dropped := DropTmp(d, RecoverTmp(d, f), f);
    && dropped.final.Some? && !f.probesAgain && f.probesBak && f.readsBak && f.restores
    && IsValidJson(dropped.bak) && !NotOlder(dropped.bak, last)
  }

  lemma RepairIsSafeExactlyWhen(d: Disk, f: RepairFaults, last: nat)
    requires Safe(d, last)
    ensures AllSafe(RepairTrace(d, f), last) <==> !RepairMisfires(d, f, last)
  {
    var trace := RepairTrace(d, f);
    assert Safe(trace[0], last) && Safe(trace[1], last) && Safe(trace[2], last);
    assert Safe(trace[3], last) <==> !RepairMisfires(d, f, last);
  }

  /** The guarantee fails for this input: an unreadable final file is replaced by an older backup. */
  lemma FailedProbeLosesASave()
    ensures var d := Disk(Some(Whole(2)), None, Some(Whole(1)));
      var f := SaveFaults(true, true, true, true, true, false, true, true, false, true, false, true);
      && Safe(d, 2) && !Succeeds(f)
      && LastOr(SaveTrace(d, 3, f), d) == Disk(Some(Whole(1)), None, None)
  {
  }

  // ---- What is on the disk afterwards --------------------------------------------------------

  /** A save that is not cut off: what it leaves in each of the three files. */
  lemma SaveLeavesExactly(d: Disk, save: nat, f: SaveFaults)
    ensures var after := LastOr(SaveTrace(d, save, f), d);
      var rotates := d.final.Some? && f.probes;
      var bak := if rotates && f.rotates then d.final else if rotates && f.removesBak then None else d.bak;
      var final := if rotates && f.rotates then None else d.final;
      var restores := !(final.Some? && f.probesAgain) && f.restores && bak.Some?;
      after ==
        if !f.prepares || !f.opens then d
        else if !f.flushes then
          d.(tmp := if f.cleansUp then None else if f.written then Some(Whole(save)) else Some(Torn))
        else if f.commits then Disk(Some(Whole(save)), None, bak)
        else Disk(if restores then bak else final, if f.removesTmp then None else Some(Whole(save)),
                  if restores then None else bak)
  {
  }

  /** A save reports success exactly when its content is the final file afterwards. */
  lemma SucceedsExactlyWhenFinal(d: Disk, save: nat, f: SaveFaults)
    requires d.final != Some(Whole(save)) && d.bak != Some(Whole(save))
    ensures Succeeds(f) <==> LastOr(SaveTrace(d, save, f), d).final == Some(Whole(save))
    ensures f.prepares && f.opens && f.flushes && f.commits ==> Succeeds(f)
  {
    SaveLeavesExactly(d, save, f);
    hide SaveTrace;
  }

  /** A repair that is not cut off: the temp file is used only for want of a final one, the backup only after it. */
  lemma RepairLeavesExactly(d: Disk, f: RepairFaults)
    ensures var after := LastOr(RepairTrace(d, f), d);
      var sees := d.final.Some? && f.probesFinal;
      var recovers := !sees && f.probesTmp && IsValidJson(d.tmp) && f.readsTmp && f.recovers;
      var final := if recovers then d.tmp else d.final;
      var restores :=
        !(final.Some? && f.probesAgain) && f.probesBak && IsValidJson(d.bak) && f.readsBak && f.restores;
      after == Disk(
        if restores then d.bak else final,
        if recovers || (f.probesTmp && f.removesTmp) then None else d.tmp,
        if restores then None else d.bak)
  {
  }

  // ---- Runs with crashes -------------------------------------------------------------------

  /** One call, cut off after any of its operations, or carried through. */
  datatype Call =
    | Save(faults: SaveFaults, upTo: nat)
    | Repair(repairFaults: RepairFaults, upTo: nat)

  /** `last`: the latest save that was reported successful; `next`: the number the next save gets. */
  datatype World = World(disk: Disk, last: nat, next: nat)

  function TraceOf(w: World, c: Call): seq<Disk> {
    match c
    case Save(f, _) => SaveTrace(w.disk, w.next, f)
    case Repair(f, _) => RepairTrace(w.disk, f)
  }

  function After(w: World, c: Call): World {
    var trace := TraceOf(w, c);
    if c.upTo < |trace| then World(trace[c.upTo], w.last, w.next + 1)
    else World(LastOr(trace, w.disk), if c.Save? && Succeeds(c.faults) then w.next else w.last, w.next + 1)
  }

  predicate Misfires(w: World, c: Call) {
    match c
    case Save(f, _) => SaveMisfires(w.disk, f, w.last)
    case Repair(f, _) => RepairMisfires(w.disk, f, w.last)
  }

  function Run(w: World, calls: seq<Call>): World
    decreases |calls|
  {
    if calls == [] then w else Run(After(w, calls[0]), calls[1..])
  }

  predicate NoneMisfires(w: World, calls: seq<Call>)
    decreases |calls|
  {
    calls == [] || (!Misfires(w, calls[0]) && NoneMisfires(After(w, calls[0]), calls[1..]))
  }

  lemma CallKeepsSafe(w: World, c: Call)
    requires Safe(w.disk, w.last) && w.last < w.next && !Misfires(w, c)
    ensures Safe(After(w, c).disk, After(w, c).last) && After(w, c).last < After(w, c).next
    ensures AllSafe(TraceOf(w, c), w.last)
  {
    hide SaveTrace, RepairTrace, SaveMisfires, RepairMisfires, Safe;
    match c
    case Save(f, _) =>
      SaveIsSafeExactlyWhen(w.disk, w.next, f, w.last);
      if Succeeds(f) {
        SuccessMeansFinal(w.disk, w.next, f);
      }
    case Repair(f, _) => RepairIsSafeExactlyWhen(w.disk, f, w.last);
  }

  /** After any sequence of saves, repairs and crashes, a copy no older than the last reported save is recoverable. */
  lemma {:induction false} NothingSavedIsLost(w: World, calls: seq<Call>)
    requires Safe(w.disk, w.last) && w.last < w.next && NoneMisfires(w, calls)
    ensures var end := Run(w, calls);
      && Safe(end.disk, end.last) && NotOlder(Recoverable(end.disk), end.last)
      && end.last >= w.last
      && LastOr(RepairTrace(end.disk, NO_FAULTS), end.disk).final == Recoverable(end.disk)
    decreases |calls|
  {
    hide Misfires, After, Safe, NotOlder, Recoverable, RepairTrace;
    if calls == [] {
      SafeIsRecoverable(w.disk, w.last);
      RepairRecovers(w.disk);
    } else {
      CallKeepsSafe(w, calls[0]);
      LastGrows(w, calls[0]);
      NothingSavedIsLost(After(w, calls[0]), calls[1..]);
    }
  }

  lemma LastGrows(w: World, c: Call)
    requires w.last < w.next
    ensures After(w, c).last >= w.last
  {
  }
}
