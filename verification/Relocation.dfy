/** One relocation: guard, stop gate, copy, verify, swap the original to a backup, link, verify the
    link, drop the backup. Every answer the system can give during one attempt is a field of
    `Answers`, so a claim for all `Answers` is a claim for every failure at every call. */
module Relocation {
  import opened Options
  import opened FileSystem

  datatype Class = NativeConfig | Relocatable | ManualMove

  datatype Gate = ProcessGate | PathGate

  datatype Playbook = Playbook(assetId: string, path: Path, class_: Class, gate: Gate, stopGate: string)

  datatype Config = Config(destRoot: Path, destVolumeUUID: string)

  /** The offload module: fixed once built. */
  datatype Mover = Mover(playbooks: seq<Playbook>, cfg: Config)

  datatype Op = OpRelocate | OpDelete | OpOther

  datatype Action = Action(op: Op, target: Path, destination: Path)

  datatype Process = Idle | Running | Unknown

  datatype Answers = Answers(
    guardOk: bool, live: bool, process: Process,
    destStatErr: bool, mkdirOk: bool,
    copy: Copying, sourceWalkOk: bool, copyWalkOk: bool,
    freed: nat, bakStatErr: bool, swapOk: bool,
    linkOk: bool, evalLinkOk: bool, evalDestOk: bool,
    unlinkOk: bool, restoreOk: bool,
    cleanup: Removal, dropBak: Removal)

  datatype Failure =
    | DeleteForbidden | UnsupportedOp | UnknownAsset | WrongClass
    | DestRefused | StopGate | GateUnknown | DestEscapes | DestExists | MkdirFailed
    | CopyFailed | SourceWalkFailed | CopyWalkFailed | VerifyMismatch | LeftoverBackup | SwapFailed
    | OriginalRestored | RestoreFailed | StaleBackup

  datatype Result = Moved(freed: nat) | Failed(why: Failure)

  /** One attempt: its result, the states it passed through, and how many of them precede the
      removal of the backup. */
  datatype Run = Run(result: Result, states: seq<Snapshot>, untilDrop: nat)

  const BAK_SUFFIX := ".noo-noo-bak"

  function Bak(target: Path): Path {
    target + BAK_SUFFIX
  }

  // ---- Gates ----

  function PlaybookFor(playbooks: seq<Playbook>, target: Path): Option<Playbook> {
    if playbooks == [] then None
    else if playbooks[0].path != "" && playbooks[0].path == target then Some(playbooks[0])
    else PlaybookFor(playbooks[1..], target)
  }

  /** The liveness gate of one asset, or the failure it stops with. */
  function GateFailure(pb: Playbook, live: bool, process: Process): Option<Failure> {
    if pb.gate == PathGate then
      (if live then Some(StopGate) else None)
    else if pb.stopGate == "" || process == Idle then None
    else if process == Running then Some(StopGate)
    else Some(GateUnknown)
  }

  predicate StartsWith(s: string, prefix: string) {
    |prefix| <= |s| && s[..|prefix|] == prefix
  }

  /** The destination, seen from the root, starts with "..": both paths absolute and clean. */
  predicate Escapes(root: Path, dest: Path) {
    var below := if root == "/" then root else root + "/";
    dest != root && (!StartsWith(dest, below) || StartsWith(dest[|below|..], ".."))
  }

  /** What refuses an action whatever the disk and the system look like. */
  function StructuralRefusal(m: Mover, a: Action): Option<Failure> {
    if a.op == OpDelete then Some(DeleteForbidden)
    else if a.op == OpOther then Some(UnsupportedOp)
    else match PlaybookFor(m.playbooks, a.target)
      case None => Some(UnknownAsset)
      case Some(pb) => if pb.class_ != Relocatable then Some(WrongClass) else None
  }

  /** The first check that stops an attempt before it writes anything. */
  function Refusal(m: Mover, a: Action, os: Answers, st: Snapshot): Option<Failure> {
    match StructuralRefusal(m, a)
    case Some(why) => Some(why)
    case None =>
      var pb := PlaybookFor(m.playbooks, a.target).value;
      if !os.guardOk then Some(DestRefused)
      else match GateFailure(pb, os.live, os.process)
        case Some(why) => Some(why)
        case None =>
          if Escapes(m.cfg.destRoot, a.destination) then Some(DestEscapes)
          else if a.destination in st && !os.destStatErr then Some(DestExists)
          else if !os.mkdirOk then Some(MkdirFailed)
          else None
  }

  // ---- One attempt as a function of the answers ----

  /** Why an attempt stops between the copy and the swap, `st` being the disk after the copy. */
  function CopyProblem(target: Path, dest: Path, os: Answers, st: Snapshot): Option<Failure> {
    var source, copy := Measured(st, target, os.sourceWalkOk), Measured(st, dest, os.copyWalkOk);
    if !os.copy.ok then Some(CopyFailed)
    else if source.None? then Some(SourceWalkFailed)
    else if copy.None? then Some(CopyWalkFailed)
    else if source != copy then Some(VerifyMismatch)
    else if Bak(target) in st && !os.bakStatErr then Some(LeftoverBackup)
    else if !(os.swapOk && CanRename(st, target, Bak(target))) then Some(SwapFailed)
    else None
  }

  predicate LinkVerified(target: Path, dest: Path, os: Answers, st: Snapshot) {
    var viaLink, direct := Resolve(st, target, MAX_LINKS), Resolve(st, dest, MAX_LINKS);
    os.evalLinkOk && os.evalDestOk && viaLink.Some? && direct.Some? && viaLink == direct
  }

  function Relocate(m: Mover, a: Action, os: Answers, st: Snapshot): Run {
    match Refusal(m, a, os, st)
    case Some(why) => Run(Failed(why), [], 0)
    case None => CopyThenSwap(a.target, a.destination, os, st)
  }

  /** A run that passes through `states` first. */
  function Prefixed(states: seq<Snapshot>, run: Run): Run {
    Run(run.result, states + run.states, |states| + run.untilDrop)
  }

  function CopyThenSwap(target: Path, dest: Path, os: Answers, st: Snapshot): Run {
    var copied := CopySteps(st, dest, os.copy);
    Prefixed(copied, SwapThenLink(target, dest, os, Last(st, copied)))
  }

  function SwapThenLink(target: Path, dest: Path, os: Answers, st: Snapshot): Run {
    match CopyProblem(target, dest, os, st)
    case Some(why) =>
      var cleaned := RemoveAllSteps(st, dest, os.cleanup);
      Run(Failed(why), cleaned, |cleaned|)
    case None =>
      var swapped := Renamed(st, target, Bak(target));
      Prefixed([swapped], LinkThenDrop(target, dest, os, swapped))
  }

  function LinkThenDrop(target: Path, dest: Path, os: Answers, st: Snapshot): Run {
    if !(os.linkOk && target !in st) then
      Restore(target, dest, os, st)
    else
      var linked := st[target := Link(dest)];
      Prefixed([linked],
               if LinkVerified(target, dest, os, linked) then Drop(target, os, linked)
               else Restore(target, dest, os, linked))
  }

  /** The relocation stands; only the backup is still to go. */
  function Drop(target: Path, os: Answers, st: Snapshot): Run {
    var done := Bak(target) !in st || os.dropBak.done;
    Run(if done then Moved(os.freed) else Failed(StaleBackup), RemoveAllSteps(st, Bak(target), os.dropBak), 0)
  }

  function Restore(target: Path, dest: Path, os: Answers, st: Snapshot): Run {
    var unlinked := if os.unlinkOk && CanRemove(st, target) then [st - {target}] else [];
    var st1 := Last(st, unlinked);
    if os.restoreOk && CanRename(st1, Bak(target), target) then
      var st2 := Renamed(st1, Bak(target), target);
      var states := unlinked + [st2] + RemoveAllSteps(st2, dest, os.cleanup);
      Run(Failed(OriginalRestored), states, |states|)
    else
      Run(Failed(RestoreFailed), unlinked, |unlinked|)
  }

  // ---- The attempt itself, call by call ----

  /** Going through `states` and then through `rest` is going through the prefixed run. */
  lemma Continued(st: Snapshot, trail: seq<Snapshot>, states: seq<Snapshot>, rest: Run)
    ensures trail + Prefixed(states, rest).states == trail + states + rest.states
    ensures Last(st, Prefixed(states, rest).states) == Last(Last(st, states), rest.states)
  {
    LastAppend(st, states, rest.states);
  }

  method FindPlaybook(m: Mover, target: Path) returns (pb: Option<Playbook>)
    ensures pb == PlaybookFor(m.playbooks, target)
  {
    for i := 0 to |m.playbooks|
      invariant PlaybookFor(m.playbooks, target) == PlaybookFor(m.playbooks[i..], target)
    {
      if m.playbooks[i].path != "" && m.playbooks[i].path == target {
        return Some(m.playbooks[i]);
      }
    }
    return None;
  }

  method Apply(m: Mover, a: Action, os: Answers, disk: Disk) returns (r: Result)
    modifies disk
    ensures r == Relocate(m, a, os, old(disk.entries)).result
    ensures disk.trail == old(disk.trail) + Relocate(m, a, os, old(disk.entries)).states
    ensures disk.entries == Last(old(disk.entries), Relocate(m, a, os, old(disk.entries)).states)
  {
    match a.op {
      case OpDelete => return Failed(DeleteForbidden);
      case OpOther => return Failed(UnsupportedOp);
      case OpRelocate =>
    }
    var found := FindPlaybook(m, a.target);
    if found.None? {
      return Failed(UnknownAsset);
    }
    var pb := found.value;
    if pb.class_ != Relocatable {
      return Failed(WrongClass);
    }
    if !os.guardOk {
      return Failed(DestRefused);
    }
    if pb.gate == PathGate {
      if os.live {
        return Failed(StopGate);
      }
    } else if pb.stopGate != "" {
      if os.process == Unknown {
        return Failed(GateUnknown);
      }
      if os.process == Running {
        return Failed(StopGate);
      }
    }
    if Escapes(m.cfg.destRoot, a.destination) {
      return Failed(DestEscapes);
    }
    if disk.Lstat(a.destination, os.destStatErr) {
      return Failed(DestExists);
    }
    if !os.mkdirOk {
      return Failed(MkdirFailed);
    }
    r := CopyAndSwap(a.target, a.destination, os, disk);
  }

  method CopyAndSwap(target: Path, dest: Path, os: Answers, disk: Disk) returns (r: Result)
    modifies disk
    ensures r == CopyThenSwap(target, dest, os, old(disk.entries)).result
    ensures disk.trail == old(disk.trail) + CopyThenSwap(target, dest, os, old(disk.entries)).states
    ensures disk.entries == Last(old(disk.entries), CopyThenSwap(target, dest, os, old(disk.entries)).states)
  {
    ghost var before, was := disk.entries, disk.trail;
    ghost var copied := CopySteps(before, dest, os.copy);
    var problem := CopyAndVerify(target, dest, os, disk);
    ghost var rest := SwapThenLink(target, dest, os, disk.entries);
    assert CopyThenSwap(target, dest, os, before) == Prefixed(copied, rest);
    Continued(before, was, copied, rest);
    if problem.Some? {
      var _ := disk.RemoveAll(dest, os.cleanup);
      return Failed(problem.value);
    }
    r := SwapAndLink(target, dest, os, disk);
  }

  /** Copies, then checks file count and bytes. */
  method CopyAndVerify(target: Path, dest: Path, os: Answers, disk: Disk) returns (problem: Option<Failure>)
    modifies disk
    ensures disk.trail == old(disk.trail) + CopySteps(old(disk.entries), dest, os.copy)
    ensures disk.entries == Last(old(disk.entries), CopySteps(old(disk.entries), dest, os.copy))
    ensures problem.Some? ==> problem == CopyProblem(target, dest, os, disk.entries)
    ensures problem.None? ==> CopyProblem(target, dest, os, disk.entries) in {None, Some(LeftoverBackup), Some(SwapFailed)}
  {
    var ok := disk.Copy(dest, os.copy);
    if !ok {
      return Some(CopyFailed);
    }
    var source := Measured(disk.entries, target, os.sourceWalkOk);
    if source.None? {
      return Some(SourceWalkFailed);
    }
    var copy := Measured(disk.entries, dest, os.copyWalkOk);
    if copy.None? {
      return Some(CopyWalkFailed);
    }
    return if source != copy then Some(VerifyMismatch) else None;
  }

  /** Moves the verified original aside and puts the link in its place. */
  method SwapAndLink(target: Path, dest: Path, os: Answers, disk: Disk) returns (r: Result)
    requires CopyProblem(target, dest, os, disk.entries) in {None, Some(LeftoverBackup), Some(SwapFailed)}
    modifies disk
    ensures r == SwapThenLink(target, dest, os, old(disk.entries)).result
    ensures disk.trail == old(disk.trail) + SwapThenLink(target, dest, os, old(disk.entries)).states
    ensures disk.entries == Last(old(disk.entries), SwapThenLink(target, dest, os, old(disk.entries)).states)
  {
    ghost var before, was := disk.entries, disk.trail;
    var bak := target + BAK_SUFFIX;
    if disk.Lstat(bak, os.bakStatErr) {
      var _ := disk.RemoveAll(dest, os.cleanup);
      return Failed(LeftoverBackup);
    }
    var swapped := disk.Rename(target, bak, os.swapOk);
    if !swapped {
      var _ := disk.RemoveAll(dest, os.cleanup);
      return Failed(SwapFailed);
    }
    ghost var rest := LinkThenDrop(target, dest, os, disk.entries);
    assert SwapThenLink(target, dest, os, before) == Prefixed([disk.entries], rest);
    Continued(before, was, [disk.entries], rest);
    r := LinkOrRestore(target, dest, os, disk);
  }

  method LinkOrRestore(target: Path, dest: Path, os: Answers, disk: Disk) returns (r: Result)
    modifies disk
    ensures r == LinkThenDrop(target, dest, os, old(disk.entries)).result
    ensures disk.trail == old(disk.trail) + LinkThenDrop(target, dest, os, old(disk.entries)).states
    ensures disk.entries == Last(old(disk.entries), LinkThenDrop(target, dest, os, old(disk.entries)).states)
  {
    ghost var before, was := disk.entries, disk.trail;
    var linked := disk.Symlink(dest, target, os.linkOk);
    if linked && LinkVerified(target, dest, os, disk.entries) {
      Continued(before, was, [disk.entries], Drop(target, os, disk.entries));
      var dropped := disk.RemoveAll(Bak(target), os.dropBak);
      return if dropped then Moved(os.freed) else Failed(StaleBackup);
    }
    if linked {
      Continued(before, was, [disk.entries], Restore(target, dest, os, disk.entries));
    }
    r := PutBack(target, dest, os, disk);
  }

  /** Drops a half-made link and undoes the swap; the copy goes only once the original is back. */
  method PutBack(target: Path, dest: Path, os: Answers, disk: Disk) returns (r: Result)
    modifies disk
    ensures r == Restore(target, dest, os, old(disk.entries)).result
    ensures disk.trail == old(disk.trail) + Restore(target, dest, os, old(disk.entries)).states
    ensures disk.entries == Last(old(disk.entries), Restore(target, dest, os, old(disk.entries)).states)
  {
    ghost var before := disk.entries;
    ghost var unlinked := if os.unlinkOk && CanRemove(before, target) then [before - {target}] else [];
    disk.Remove(target, os.unlinkOk);
    var restored := disk.Rename(Bak(target), target, os.restoreOk);
    if !restored {
      return Failed(RestoreFailed);
    }
    LastAppend(before, unlinked + [disk.entries], RemoveAllSteps(disk.entries, dest, os.cleanup));
    var _ := disk.RemoveAll(dest, os.cleanup);
    return Failed(OriginalRestored);
  }
}
