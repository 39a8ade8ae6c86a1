/** What a relocation promises about the data, whatever fails and wherever it is cut short. */
module RelocationSafety {
  import opened Options
  import opened FileSystem
  import opened Relocation

  /** The destination is neither the target nor its backup. */
  predicate Disjoint(a: Action) {
    a.destination != a.target && a.destination != Bak(a.target)
  }

  /** The whole original is at the target or at its backup. */
  predicate Intact(st: Snapshot, target: Path, original: Entry) {
    (target in st && st[target] == original) || (Bak(target) in st && st[Bak(target)] == original)
  }

  /** The target is a link to the destination, which has the file count and the bytes of the
      original; with any file in the original, following the link ends there. */
  predicate Linked(st: Snapshot, target: Path, dest: Path, original: Entry) {
    && target in st && st[target] == Link(dest)
    && dest in st && Size(st[dest]) == Size(original)
    && (Size(original).0 > 0 ==> Resolve(st, target, MAX_LINKS) == Some(dest))
  }

  /** The original survives somewhere. */
  predicate Held(st: Snapshot, target: Path, dest: Path, original: Entry) {
    Intact(st, target, original) || Linked(st, target, dest, original)
  }

  /** A run keeps the whole original until it starts to remove the backup, and from then on the
      link leads to a verified copy. */
  ghost predicate Keeps(run: Run, target: Path, dest: Path, original: Entry) {
    && run.untilDrop <= |run.states|
    && (forall i :: 0 <= i < run.untilDrop ==> Intact(run.states[i], target, original))
    && (forall i :: run.untilDrop <= i < |run.states| ==> Linked(run.states[i], target, dest, original))
    && (run.untilDrop < |run.states| ==> run.result.Moved? || run.result == Failed(StaleBackup))
  }

  lemma PrefixedKeeps(states: seq<Snapshot>, rest: Run, target: Path, dest: Path, original: Entry)
    requires forall s :: s in states ==> Intact(s, target, original)
    requires Keeps(rest, target, dest, original)
    ensures Keeps(Prefixed(states, rest), target, dest, original)
  {
  }

  lemma DropKeeps(target: Path, dest: Path, os: Answers, st: Snapshot, original: Entry)
    requires dest != target && dest != Bak(target)
    requires Linked(st, target, dest, original)
    ensures Keeps(Drop(target, os, st), target, dest, original)
  {
  }

  lemma RestoreKeeps(target: Path, dest: Path, os: Answers, st: Snapshot, original: Entry)
    requires dest != target && dest != Bak(target)
    requires Bak(target) in st && st[Bak(target)] == original
    ensures Keeps(Restore(target, dest, os, st), target, dest, original)
  {
    assert |Bak(target)| > |target|;
    var st1 := if os.unlinkOk && CanRemove(st, target) then st - {target} else st;
    assert Intact(st1, target, original);
    if os.restoreOk && CanRename(st1, Bak(target), target) {
      var st2 := Renamed(st1, Bak(target), target);
      assert st2[target] == original;
    }
  }

  lemma LinkThenDropKeeps(target: Path, dest: Path, os: Answers, st: Snapshot, original: Entry)
    requires dest != target && dest != Bak(target)
    requires Bak(target) in st && st[Bak(target)] == original
    requires dest in st && Size(st[dest]) == Size(original)
    ensures Keeps(LinkThenDrop(target, dest, os, st), target, dest, original)
  {
    assert |Bak(target)| > |target|;
    if os.linkOk && target !in st {
      var linked := st[target := Link(dest)];
      if LinkVerified(target, dest, os, linked) {
        assert Linked(linked, target, dest, original);
        DropKeeps(target, dest, os, linked, original);
        PrefixedKeeps([linked], Drop(target, os, linked), target, dest, original);
      } else {
        RestoreKeeps(target, dest, os, linked, original);
        PrefixedKeeps([linked], Restore(target, dest, os, linked), target, dest, original);
      }
    } else {
      RestoreKeeps(target, dest, os, st, original);
    }
  }

  /** At every point of a relocation the whole original is at the target or at its backup, except
      once removal of the backup has begun; then the target is a link to a checked copy. */
  lemma NoLoss(m: Mover, a: Action, os: Answers, st: Snapshot)
    requires Disjoint(a) && a.target in st
    ensures Keeps(Relocate(m, a, os, st), a.target, a.destination, st[a.target])
  {
    var target, dest, original := a.target, a.destination, st[a.target];
    assert |Bak(target)| > |target|;
    if Refusal(m, a, os, st).None? {
      var copied := CopySteps(st, dest, os.copy);
      var st1 := Last(st, copied);
      assert st1[target] == original;
      if CopyProblem(target, dest, os, st1).None? {
        var swapped := Renamed(st1, target, Bak(target));
        LinkThenDropKeeps(target, dest, os, swapped, original);
        PrefixedKeeps([swapped], LinkThenDrop(target, dest, os, swapped), target, dest, original);
      }
      PrefixedKeeps(copied, SwapThenLink(target, dest, os, st1), target, dest, original);
    }
  }

  // ---- Outcomes ----

  /** Failures that come before the first write. */
  predicate Early(why: Failure) {
    why in {DeleteForbidden, UnsupportedOp, UnknownAsset, WrongClass,
            DestRefused, StopGate, GateUnknown, DestEscapes, DestExists, MkdirFailed}
  }

  /** Where everything is once an attempt that started in `st` ends in `end` with `result`. */
  ghost predicate Outcome(result: Result, st: Snapshot, end: Snapshot, target: Path, dest: Path)
    requires target in st
  {
    match result
    case Moved(_) => Linked(end, target, dest, st[target]) && Bak(target) !in end
    case Failed(why) =>
      if Early(why) then end == st
      else if why == StaleBackup then Linked(end, target, dest, st[target]) && Bak(target) in end
      else if why == RestoreFailed then
        && Bak(target) in end && end[Bak(target)] == st[target]
        && dest in end && Size(end[dest]) == Size(st[target])
        && (target in end ==> end[target] == Link(dest))
      else if why == OriginalRestored then
        target in end && end[target] == st[target] && Bak(target) !in end
      else SameElsewhere(end, st, {dest})
  }

  lemma RestoreOutcome(target: Path, dest: Path, os: Answers, st: Snapshot, before: Snapshot)
    requires dest != target && dest != Bak(target)
    requires target in st && (target in before ==> before[target] == Link(dest))
    requires Bak(target) in before && before[Bak(target)] == st[target]
    requires dest in before && Size(before[dest]) == Size(st[target])
    ensures var run := Restore(target, dest, os, before);
            && Outcome(run.result, st, Last(before, run.states), target, dest)
            && run.result in {Failed(OriginalRestored), Failed(RestoreFailed)}
  {
    assert |Bak(target)| > |target|;
  }

  lemma LinkThenDropOutcome(target: Path, dest: Path, os: Answers, st: Snapshot, swapped: Snapshot)
    requires dest != target && dest != Bak(target)
    requires target in st && target !in swapped
    requires Bak(target) in swapped && swapped[Bak(target)] == st[target]
    requires dest in swapped && Size(swapped[dest]) == Size(st[target])
    ensures var run := LinkThenDrop(target, dest, os, swapped);
            && Outcome(run.result, st, Last(swapped, run.states), target, dest)
            && !(run.result.Failed? && Early(run.result.why))
  {
    assert |Bak(target)| > |target|;
    if !os.linkOk {
      RestoreOutcome(target, dest, os, st, swapped);
    } else {
      var linked := swapped[target := Link(dest)];
      if LinkVerified(target, dest, os, linked) {
        LastAppend(swapped, [linked], Drop(target, os, linked).states);
        DropOutcome(target, dest, os, st, linked);
      } else {
        LastAppend(swapped, [linked], Restore(target, dest, os, linked).states);
        RestoreOutcome(target, dest, os, st, linked);
      }
    }
  }

  lemma DropOutcome(target: Path, dest: Path, os: Answers, st: Snapshot, linked: Snapshot)
    requires dest != target && dest != Bak(target)
    requires target in st && Bak(target) in linked && Linked(linked, target, dest, st[target])
    ensures var run := Drop(target, os, linked);
            && Outcome(run.result, st, Last(linked, run.states), target, dest)
            && (run.result.Moved? || run.result == Failed(StaleBackup))
  {
    DropKeeps(target, dest, os, linked, st[target]);
  }

  lemma SwapThenLinkOutcome(target: Path, dest: Path, os: Answers, st: Snapshot, st1: Snapshot)
    requires dest != target && dest != Bak(target)
    requires target in st && target in st1 && st1[target] == st[target]
    requires SameElsewhere(st1, st, {dest})
    ensures var run := SwapThenLink(target, dest, os, st1);
            && Outcome(run.result, st, Last(st1, run.states), target, dest)
            && !(run.result.Failed? && Early(run.result.why))
  {
    assert |Bak(target)| > |target|;
    if CopyProblem(target, dest, os, st1).None? {
      var swapped := Renamed(st1, target, Bak(target));
      LastAppend(st1, [swapped], LinkThenDrop(target, dest, os, swapped).states);
      LinkThenDropOutcome(target, dest, os, st, swapped);
    } else {
      RemovalTouches(st1, dest, os.cleanup, {dest});
      Via(RemoveAllSteps(st1, dest, os.cleanup), st1, st, {dest});
    }
  }

  /** Every attempt ends in one of these ways and no other. */
  lemma Outcomes(m: Mover, a: Action, os: Answers, st: Snapshot)
    requires Disjoint(a) && a.target in st
    ensures var run := Relocate(m, a, os, st);
            Outcome(run.result, st, Last(st, run.states), a.target, a.destination)
  {
    var target, dest := a.target, a.destination;
    if Refusal(m, a, os, st).None? {
      var copied := CopySteps(st, dest, os.copy);
      var st1 := Last(st, copied);
      LastAppend(st, copied, SwapThenLink(target, dest, os, st1).states);
      SwapThenLinkOutcome(target, dest, os, st, st1);
    }
  }

  ghost predicate AllSameElsewhere(states: seq<Snapshot>, st: Snapshot, paths: set<Path>) {
    forall s :: s in states ==> SameElsewhere(s, st, paths)
  }

  lemma Via(states: seq<Snapshot>, mid: Snapshot, st: Snapshot, paths: set<Path>)
    requires SameElsewhere(mid, st, paths) && AllSameElsewhere(states, mid, paths)
    ensures AllSameElsewhere([mid] + states, st, paths)
    ensures AllSameElsewhere(states, st, paths)
  {
    forall s | s in states ensures SameElsewhere(s, st, paths) {
      assert SameElsewhere(s, mid, paths);
    }
  }

  lemma RemovalTouches(st: Snapshot, p: Path, how: Removal, paths: set<Path>)
    requires p in paths
    ensures AllSameElsewhere(RemoveAllSteps(st, p, how), st, paths)
  {
  }

  lemma RestoreTouches(target: Path, dest: Path, os: Answers, st: Snapshot)
    ensures AllSameElsewhere(Restore(target, dest, os, st).states, st, {target, Bak(target), dest})
  {
    var paths := {target, Bak(target), dest};
    var st1 := if os.unlinkOk && CanRemove(st, target) then st - {target} else st;
    assert SameElsewhere(st1, st, paths);
    if os.restoreOk && CanRename(st1, Bak(target), target) {
      var st2 := Renamed(st1, Bak(target), target);
      assert SameElsewhere(st2, st, paths);
      RemovalTouches(st2, dest, os.cleanup, paths);
      Via(RemoveAllSteps(st2, dest, os.cleanup), st2, st, paths);
    }
  }

  lemma LinkThenDropTouches(target: Path, dest: Path, os: Answers, st: Snapshot)
    ensures AllSameElsewhere(LinkThenDrop(target, dest, os, st).states, st, {target, Bak(target), dest})
  {
    var paths := {target, Bak(target), dest};
    if os.linkOk && target !in st {
      var linked := st[target := Link(dest)];
      assert SameElsewhere(linked, st, paths);
      if LinkVerified(target, dest, os, linked) {
        RemovalTouches(linked, Bak(target), os.dropBak, paths);
        Via(Drop(target, os, linked).states, linked, st, paths);
      } else {
        RestoreTouches(target, dest, os, linked);
        Via(Restore(target, dest, os, linked).states, linked, st, paths);
      }
    } else {
      RestoreTouches(target, dest, os, st);
    }
  }

  /** Nothing but the target, its backup and the destination is touched, at any point. */
  lemma OnlyThreePaths(m: Mover, a: Action, os: Answers, st: Snapshot)
    ensures AllSameElsewhere(Relocate(m, a, os, st).states, st, {a.target, Bak(a.target), a.destination})
  {
    var target, dest := a.target, a.destination;
    var paths := {target, Bak(target), dest};
    if Refusal(m, a, os, st).None? {
      var copied := CopySteps(st, dest, os.copy);
      var st1 := Last(st, copied);
      assert SameElsewhere(copied[0], st, paths) && SameElsewhere(st1, st, paths);
      if CopyProblem(target, dest, os, st1).None? {
        var swapped := Renamed(st1, target, Bak(target));
        assert SameElsewhere(swapped, st, paths);
        LinkThenDropTouches(target, dest, os, swapped);
        Via(LinkThenDrop(target, dest, os, swapped).states, swapped, st, paths);
      } else {
        RemovalTouches(st1, dest, os.cleanup, paths);
        Via(RemoveAllSteps(st1, dest, os.cleanup), st1, st, paths);
      }
    }
  }

  lemma LinkThenDropCleansUp(target: Path, dest: Path, os: Answers, st: Snapshot)
    requires dest != target && dest != Bak(target) && os.cleanup.done
    ensures var run := LinkThenDrop(target, dest, os, st);
            run.result == Failed(OriginalRestored) ==> dest !in Last(st, run.states)
    ensures LinkThenDrop(target, dest, os, st).result.Failed? ==>
              LinkThenDrop(target, dest, os, st).result.why in {StaleBackup, RestoreFailed, OriginalRestored}
  {
    if os.linkOk && target !in st {
      var linked := st[target := Link(dest)];
      LastAppend(st, [linked], if LinkVerified(target, dest, os, linked) then Drop(target, os, linked).states
                               else Restore(target, dest, os, linked).states);
    }
  }

  /** A failed attempt whose clean-up went through leaves no copy behind, so the next attempt is
      not refused for a destination that already exists. */
  lemma NoCopyLeftBehind(m: Mover, a: Action, os: Answers, st: Snapshot)
    requires Disjoint(a) && os.cleanup.done
    ensures var run := Relocate(m, a, os, st);
            run.result.Failed? && !Early(run.result.why) && run.result.why !in {StaleBackup, RestoreFailed} ==>
              a.destination !in Last(st, run.states)
  {
    var target, dest := a.target, a.destination;
    if Refusal(m, a, os, st).None? {
      var copied := CopySteps(st, dest, os.copy);
      var st1 := Last(st, copied);
      LastAppend(st, copied, SwapThenLink(target, dest, os, st1).states);
      if CopyProblem(target, dest, os, st1).None? {
        var swapped := Renamed(st1, target, Bak(target));
        LastAppend(st1, [swapped], LinkThenDrop(target, dest, os, swapped).states);
        LinkThenDropCleansUp(target, dest, os, swapped);
      }
    }
  }

  // ---- When an attempt may write ----

  /** Position `i` of the playbook is the first entry for the target. */
  predicate FirstFor(playbooks: seq<Playbook>, target: Path, i: int) {
    && 0 <= i < |playbooks| && target != "" && playbooks[i].path == target
    && forall j :: 0 <= j < i ==> playbooks[j].path != target
  }

  predicate Known(playbooks: seq<Playbook>, target: Path) {
    exists i :: 0 <= i < |playbooks| && playbooks[i].path == target && target != ""
  }

  lemma {:induction false} PlaybookForIs(playbooks: seq<Playbook>, target: Path)
    ensures PlaybookFor(playbooks, target).Some? <==> Known(playbooks, target)
    ensures forall i :: FirstFor(playbooks, target, i) ==> PlaybookFor(playbooks, target) == Some(playbooks[i])
    ensures Known(playbooks, target) ==> exists i :: FirstFor(playbooks, target, i)
  {
    if playbooks != [] {
      var rest := playbooks[1..];
      PlaybookForIs(rest, target);
      if playbooks[0].path == target && target != "" {
        assert FirstFor(playbooks, target, 0);
      } else {
        forall i | FirstFor(playbooks, target, i) ensures PlaybookFor(playbooks, target) == Some(playbooks[i]) {
          assert i > 0 && rest[i - 1] == playbooks[i];
          assert forall j :: 0 <= j < i - 1 ==> rest[j] == playbooks[j + 1];
          assert FirstFor(rest, target, i - 1);
        }
        if Known(playbooks, target) {
          var k :| 0 <= k < |playbooks| && playbooks[k].path == target && target != "";
          assert rest[k - 1].path == target;
          var i :| FirstFor(rest, target, i);
          assert forall j :: 1 <= j < |playbooks| ==> playbooks[j] == rest[j - 1];
          assert FirstFor(playbooks, target, i + 1);
        }
      }
    }
  }

  /** Below the root a path goes on after the root's slash, and not with two dots. */
  predicate LiesWithin(root: Path, dest: Path) {
    var n := if root == "/" then 1 else |root| + 1;
    || dest == root
    || (|dest| >= n && dest[..n] == (if root == "/" then "/" else root + "/")
        && !(|dest| >= n + 2 && dest[n] == '.' && dest[n + 1] == '.'))
  }

  lemma WithinIff(root: Path, dest: Path)
    ensures LiesWithin(root, dest) <==> !Escapes(root, dest)
  {
    var below := if root == "/" then root else root + "/";
    if |dest| >= |below| && dest[..|below|] == below {
      var rest := dest[|below|..];
      assert |rest| >= 2 ==> (rest[..2] == ".." <==> rest[0] == '.' && rest[1] == '.');
      assert StartsWith(rest, "..") <==> |dest| >= |below| + 2 && dest[|below|] == '.' && dest[|below| + 1] == '.';
    }
  }

  /** Nothing uses the asset, as its gate asks. */
  predicate Quiet(pb: Playbook, os: Answers) {
    && (pb.gate == PathGate ==> !os.live)
    && (pb.gate == ProcessGate && pb.stopGate != "" ==> os.process == Idle)
  }

  /** What has to hold before an attempt writes anything. */
  ghost predicate MayStart(m: Mover, a: Action, os: Answers, st: Snapshot) {
    && a.op == OpRelocate
    && (exists i :: FirstFor(m.playbooks, a.target, i) && m.playbooks[i].class_ == Relocatable && Quiet(m.playbooks[i], os))
    && os.guardOk
    && LiesWithin(m.cfg.destRoot, a.destination)
    && (a.destination in st ==> os.destStatErr)
    && os.mkdirOk
  }

  /** The failure for the first condition that does not hold. `i` is the first playbook entry for the
      target, if there is one. */
  ghost predicate RefusedFor(m: Mover, a: Action, os: Answers, st: Snapshot, i: int, why: Failure)
    requires 0 <= i < |m.playbooks|
  {
    var pb := m.playbooks[i];
    why ==
    if pb.class_ != Relocatable then WrongClass
    else if !os.guardOk then DestRefused
    else if pb.gate == PathGate && os.live then StopGate
    else if pb.gate == ProcessGate && pb.stopGate != "" && os.process == Unknown then GateUnknown
    else if pb.gate == ProcessGate && pb.stopGate != "" && os.process == Running then StopGate
    else if !LiesWithin(m.cfg.destRoot, a.destination) then DestEscapes
    else if a.destination in st && !os.destStatErr then DestExists
    else MkdirFailed
  }

  lemma RefusalIff(m: Mover, a: Action, os: Answers, st: Snapshot)
    ensures Refusal(m, a, os, st).None? <==> MayStart(m, a, os, st)
  {
    hide LiesWithin, Escapes;
    PlaybookForIs(m.playbooks, a.target);
    WithinIff(m.cfg.destRoot, a.destination);
    if Refusal(m, a, os, st).None? {
      var i :| FirstFor(m.playbooks, a.target, i);
    }
  }

  /** An attempt passes through some state of the disk if and only if every condition holds; otherwise
      it fails for the first that does not, and the disk stays as it is. */
  lemma WritesIff(m: Mover, a: Action, os: Answers, st: Snapshot)
    ensures Relocate(m, a, os, st).states != [] <==> MayStart(m, a, os, st)
    ensures !MayStart(m, a, os, st) ==>
              var result := Relocate(m, a, os, st).result;
              && (a.op == OpDelete ==> result == Failed(DeleteForbidden))
              && (a.op == OpOther ==> result == Failed(UnsupportedOp))
              && (a.op == OpRelocate && !Known(m.playbooks, a.target) ==> result == Failed(UnknownAsset))
              && (a.op == OpRelocate ==> forall i :: FirstFor(m.playbooks, a.target, i) ==>
                    result.Failed? && RefusedFor(m, a, os, st, i, result.why))
  {
    hide LiesWithin, Escapes, SwapThenLink;
    RefusalIff(m, a, os, st);
    PlaybookForIs(m.playbooks, a.target);
    WithinIff(m.cfg.destRoot, a.destination);
    forall i | !MayStart(m, a, os, st) && a.op == OpRelocate && FirstFor(m.playbooks, a.target, i)
      ensures var result := Relocate(m, a, os, st).result; result.Failed? && RefusedFor(m, a, os, st, i, result.why)
    {
      assert PlaybookFor(m.playbooks, a.target) == Some(m.playbooks[i]);
    }
  }

  // ---- File count and bytes ----

  /** The contents of the files, end to end. */
  function Contents(files: seq<File>): string {
    if files == [] then "" else Contents(files[..|files| - 1]) + files[|files| - 1].data
  }

  lemma {:induction false} BytesAppend(a: seq<File>, b: seq<File>)
    ensures TotalBytes(a + b) == TotalBytes(a) + TotalBytes(b)
  {
    if a == [] {
      assert a + b == b;
    } else {
      BytesAppend(a[1..], b);
      assert (a + b)[1..] == a[1..] + b;
    }
  }

  /** Two directories count as the same size exactly when they have as many files and as many bytes. */
  lemma {:induction false} SizeIs(e: Entry)
    ensures e.Tree? ==> Size(e) == (|e.files|, |Contents(e.files)|)
    ensures e.Link? ==> Size(e) == (0, 0)
    decreases if e.Tree? then |e.files| else 0
  {
    if e.Tree? && e.files != [] {
      var n := |e.files| - 1;
      SizeIs(Tree(e.files[..n]));
      BytesAppend(e.files[..n], [e.files[n]]);
      assert e.files == e.files[..n] + [e.files[n]];
      assert TotalBytes([e.files[n]]) == |e.files[n].data|;
    }
  }

  /** The backup is beside the target. */
  lemma BackupName(target: Path)
    ensures Bak(target) == target + ".noo-noo-bak" && |Bak(target)| == |target| + 12
  {
  }

  /** The files a recursive delete has not reached are those it was asked to leave. */
  lemma {:induction false} SurvivorsIff(files: seq<File>, left: set<File>, f: File)
    ensures f in Survivors(files, left) <==> f in files && f in left
  {
    if files != [] {
      SurvivorsIff(files[1..], left, f);
    }
  }

  // ---- Every result ----

  /** Nothing keeps the verified copy from taking the target's place. */
  predicate BackupFree(target: Path, os: Answers, st: Snapshot) {
    Bak(target) in st ==> os.bakStatErr && st[Bak(target)] == Tree([])
  }

  /** The copy arrived with as many files and bytes. */
  ghost predicate Arrived(a: Action, os: Answers, st: Snapshot)
    requires a.target in st
  {
    var copied := Last(st, CopySteps(st, a.destination, os.copy));
    && a.destination in copied && copied[a.destination].Tree? && st[a.target].Tree?
    && |copied[a.destination].files| == |st[a.target].files|
    && |Contents(copied[a.destination].files)| == |Contents(st[a.target].files)|
  }

  /** How an attempt that may start ends: the failure for the first thing that goes wrong, and the move
      if nothing does. */
  lemma EndsAs(m: Mover, a: Action, os: Answers, st: Snapshot)
    requires Disjoint(a) && a.target in st && st[a.target].Tree? && st[a.target].files != [] && MayStart(m, a, os, st)
    ensures var result := Relocate(m, a, os, st).result;
            var copied := Last(st, CopySteps(st, a.destination, os.copy));
            if !os.copy.ok then result == Failed(CopyFailed)
            else if !os.sourceWalkOk then result == Failed(SourceWalkFailed)
            else if !os.copyWalkOk || a.destination !in copied then result == Failed(CopyWalkFailed)
            else if !Arrived(a, os, st) then result == Failed(VerifyMismatch)
            else if Bak(a.target) in st && !os.bakStatErr then result == Failed(LeftoverBackup)
            else if !os.swapOk || !BackupFree(a.target, os, st) then result == Failed(SwapFailed)
            else if !(os.linkOk && os.evalLinkOk && os.evalDestOk) then
              result == Failed(if os.restoreOk && (os.linkOk ==> os.unlinkOk) then OriginalRestored else RestoreFailed)
            else result == if os.dropBak.done then Moved(os.freed) else Failed(StaleBackup)
  {
    hide MayStart, Refusal, Contents, LinkThenDrop;
    var target, dest := a.target, a.destination;
    RefusalIff(m, a, os, st);
    BackupName(target);
    SizeIs(st[target]);
    var st1 := Last(st, CopySteps(st, dest, os.copy));
    if dest in st1 {
      SizeIs(st1[dest]);
    }
    if CopyProblem(target, dest, os, st1).None? {
      SwapEnds(target, dest, os, st1);
    }
  }

  lemma SwapEnds(target: Path, dest: Path, os: Answers, st: Snapshot)
    requires dest != target && dest != Bak(target) && target in st && st[target].Tree? && st[target].files != []
    requires dest in st && st[dest].Tree?
    ensures LinkThenDrop(target, dest, os, Renamed(st, target, Bak(target))).result ==
            if !(os.linkOk && os.evalLinkOk && os.evalDestOk) then
              Failed(if os.restoreOk && (os.linkOk ==> os.unlinkOk) then OriginalRestored else RestoreFailed)
            else if os.dropBak.done then Moved(os.freed) else Failed(StaleBackup)
  {
    BackupName(target);
    var swapped := Renamed(st, target, Bak(target));
    var linked := swapped[target := Link(dest)];
    assert linked[dest].Tree?;
    assert Resolve(linked, target, MAX_LINKS) == Resolve(linked, dest, MAX_LINKS - 1) == Some(dest);
    assert LinkVerified(target, dest, os, linked) <==> os.evalLinkOk && os.evalDestOk;
  }

  /** A tree of at least one file is moved exactly when nothing refuses the attempt, every call on the
      way succeeds, the copy has its file count and bytes, and nothing sits at the backup. */
  lemma MovedIff(m: Mover, a: Action, os: Answers, st: Snapshot)
    requires Disjoint(a) && a.target in st && st[a.target].Tree? && st[a.target].files != []
    ensures Relocate(m, a, os, st).result == Moved(os.freed) <==>
            && MayStart(m, a, os, st)
            && os.copy.ok && os.sourceWalkOk && os.copyWalkOk && Arrived(a, os, st)
            && BackupFree(a.target, os, st)
            && os.swapOk && os.linkOk && os.evalLinkOk && os.evalDestOk && os.dropBak.done
    ensures Relocate(m, a, os, st).result.Moved? ==> Relocate(m, a, os, st).result == Moved(os.freed)
  {
    hide MayStart, Relocate, Refusal, Contents;
    if MayStart(m, a, os, st) {
      EndsAs(m, a, os, st);
    } else {
      NotStarted(m, a, os, st);
    }
  }

  lemma NotStarted(m: Mover, a: Action, os: Answers, st: Snapshot)
    requires !MayStart(m, a, os, st)
    ensures Relocate(m, a, os, st).result.Failed?
  {
    hide MayStart, Refusal;
    RefusalIff(m, a, os, st);
  }

  // ---- A destination that was there before ----

  ghost predicate SparesDestination(run: Run, st: Snapshot, dest: Path)
    requires dest in st
  {
    forall s :: s in run.states ==> dest in s && s[dest] == st[dest]
  }

  /** Answers that let an attempt through to a copy that replaces what it finds and then fails. */
  function Overwriting(there: Entry, statErr: bool): Answers {
    var files := if there == Tree([]) then [File("stray", "")] else [];
    Answers(true, false, Idle, statErr, true, Copying(Some(files), None, false), true, true,
            0, false, true, true, true, true, true, true, Removal({}, true), Removal({}, true))
  }

  /** A destination that existed beforehand is safe from every failure exactly when lstat reports
      it. A failing lstat is read as "nothing there", and the copy then goes over it. */
  lemma DestinationSparedIff(m: Mover, a: Action, st: Snapshot, statErr: bool)
    requires a.destination in st
    ensures (forall os: Answers :: os.destStatErr == statErr ==>
               SparesDestination(Relocate(m, a, os, st), st, a.destination))
            <==>
            !statErr || StructuralRefusal(m, a).Some? || Escapes(m.cfg.destRoot, a.destination)
  {
    if statErr && StructuralRefusal(m, a).None? && !Escapes(m.cfg.destRoot, a.destination) {
      var os := Overwriting(st[a.destination], statErr);
      var run := Relocate(m, a, os, st);
      assert Refusal(m, a, os, st).None?;
      assert run.states[0] == Put(st, a.destination, os.copy.halfway);
      assert !SparesDestination(run, st, a.destination);
    }
  }

  // ---- Attempt after attempt ----

  /** One attempt, cut short by a crash after `states` of its states (or run to its end). */
  datatype Attempt = Attempt(os: Answers, states: nat)

  function Cut(steps: seq<Snapshot>, k: nat): seq<Snapshot> {
    if k <= |steps| then steps[..k] else steps
  }

  function AfterAttempts(m: Mover, a: Action, st: Snapshot, attempts: seq<Attempt>): Snapshot
    decreases |attempts|
  {
    if attempts == [] then st
    else
      var states := Cut(Relocate(m, a, attempts[0].os, st).states, attempts[0].states);
      AfterAttempts(m, a, Last(st, states), attempts[1..])
  }

  /** A tree with something in it: no rename can replace it. */
  predicate Irreplaceable(original: Entry) {
    original.Tree? && original.files != []
  }

  lemma RerunKeepsHeld(m: Mover, a: Action, os: Answers, st: Snapshot, original: Entry)
    requires Disjoint(a) && !os.destStatErr && (os.bakStatErr ==> Irreplaceable(original))
    requires Held(st, a.target, a.destination, original)
    ensures forall s :: s in Relocate(m, a, os, st).states ==> Held(s, a.target, a.destination, original)
  {
    var target, dest := a.target, a.destination;
    assert |Bak(target)| > |target|;
    if a.destination !in st {
      if target in st && st[target] == original {
        NoLoss(m, a, os, st);
      } else if Refusal(m, a, os, st).None? {
        var st1 := Last(st, CopySteps(st, dest, os.copy));
        assert Bak(target) in st1 && CopyProblem(target, dest, os, st1).Some?;
      }
    }
  }

  /** Retrying never loses the original: any number of attempts at the same move, each with any
      failures and a crash at any point, leaves it held, as long as lstat reports the destination
      (and, for an original with nothing in it, the backup). */
  lemma {:induction false} RetriesNeverLose(m: Mover, a: Action, st: Snapshot, attempts: seq<Attempt>, original: Entry)
    requires Disjoint(a) && Held(st, a.target, a.destination, original)
    requires forall t :: t in attempts ==> !t.os.destStatErr && (t.os.bakStatErr ==> Irreplaceable(original))
    ensures Held(AfterAttempts(m, a, st, attempts), a.target, a.destination, original)
    decreases |attempts|
  {
    if attempts != [] {
      var all := Relocate(m, a, attempts[0].os, st).states;
      var states := Cut(all, attempts[0].states);
      RerunKeepsHeld(m, a, attempts[0].os, st, original);
      assert forall s :: s in states ==> s in all;
      RetriesNeverLose(m, a, Last(st, states), attempts[1..], original);
    }
  }

  /** What another attempt could do to an original that only the backup holds: a target that a
      rename puts in its place, and a copy of that target. */
  function InTheWay(original: Entry): (Entry, seq<File>) {
    if original.Tree? then (Tree([File("new", "")]), [File("new", "")])
    else (Link(original.to + "!"), [])
  }

  /** A failing lstat of the backup is harmless exactly for an original with something in it: the
      rename refuses to replace that, and replaces an empty directory or a link. */
  lemma BackupSparedIff(m: Mover, a: Action, original: Entry)
    requires Disjoint(a) && StructuralRefusal(m, a).None? && !Escapes(m.cfg.destRoot, a.destination)
    ensures (forall st: Snapshot, os: Answers ::
               Held(st, a.target, a.destination, original) && !os.destStatErr ==>
                 forall s :: s in Relocate(m, a, os, st).states ==> Held(s, a.target, a.destination, original))
            <==> Irreplaceable(original)
  {
    var target, dest := a.target, a.destination;
    assert |Bak(target)| > |target|;
    if Irreplaceable(original) {
      forall st: Snapshot, os: Answers | Held(st, target, dest, original) && !os.destStatErr
        ensures forall s :: s in Relocate(m, a, os, st).states ==> Held(s, target, dest, original)
      {
        RerunKeepsHeld(m, a, os, st, original);
      }
    } else {
      var (new_, copy) := InTheWay(original);
      var st: Snapshot := map[target := new_, Bak(target) := original];
      var os := Answers(true, false, Idle, false, true, Copying(None, Some(copy), true), true, true,
                        0, true, true, true, true, true, true, true, Removal({}, true), Removal({}, true));
      ReplacesBackup(m, a, os, st, original);
    }
  }

  lemma ReplacesBackup(m: Mover, a: Action, os: Answers, st: Snapshot, original: Entry)
    requires Disjoint(a) && Refusal(m, a, os, st).None?
    requires a.target in st && st[a.target] != original && Replaceable(st[a.target], original) && Size(original).0 == 0
    requires Bak(a.target) in st && st[Bak(a.target)] == original && os.bakStatErr && os.swapOk
    requires os.copy.ok && os.sourceWalkOk && os.copyWalkOk && os.copy.halfway.None? && os.copy.result.Some?
    requires Size(Tree(os.copy.result.value)) == Size(st[a.target])
    ensures exists s :: s in Relocate(m, a, os, st).states && !Held(s, a.target, a.destination, original)
  {
    var target, dest := a.target, a.destination;
    assert |Bak(target)| > |target|;
    var st1 := Last(st, CopySteps(st, dest, os.copy));
    assert st1 == st[dest := Tree(os.copy.result.value)];
    assert CopyProblem(target, dest, os, st1).None?;
    var swapped := Renamed(st1, target, Bak(target));
    var states := Relocate(m, a, os, st).states;
    assert states[2] == swapped;
    assert states[2] in states && !Held(swapped, target, dest, original);
  }

  /** Once a move is complete the destination is the only copy, and a retry of the same move is
      safe from every failure exactly when lstat reports the destination. */
  lemma RetryOfAMoveIff(m: Mover, a: Action, st: Snapshot, statErr: bool, original: Entry)
    requires Disjoint(a) && StructuralRefusal(m, a).None? && !Escapes(m.cfg.destRoot, a.destination)
    requires Linked(st, a.target, a.destination, original) && !Intact(st, a.target, original)
    ensures (forall os: Answers :: os.destStatErr == statErr ==>
               forall s :: s in Relocate(m, a, os, st).states ==> Held(s, a.target, a.destination, original))
            <==> !statErr
  {
    var target, dest := a.target, a.destination;
    if statErr {
      var os := Overwriting(st[dest], statErr);
      var run := Relocate(m, a, os, st);
      var copied := CopySteps(st, dest, os.copy);
      assert Refusal(m, a, os, st).None?;
      var end := run.states[|run.states| - 1];
      assert end == Last(st, copied) - {dest};
      assert end in run.states && !Held(end, target, dest, original);
    }
  }
}
