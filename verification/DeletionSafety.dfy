/** Deletion excludes mutation, and a stateless run leaves no checkpoints. */
module DeletionSafety {
  import opened ServerProtocol
  import opened LeaseSafety

  /** While a delete stands between its two deletions, the thread has no checkpoint. */
  predicate Cleaned(p: Proc) {
    p.pc == DeleteRecord
  }

  ghost predicate CleanedInv(s: State) {
    forall q :: q in s.procs && Cleaned(s.procs[q]) ==> s.procs[q].thread !in s.marks
  }

  lemma {:induction false} RunKeepsCleaned(capacity: nat, marks: Marks, labels: seq<Label>)
    ensures CleanedInv(Run(capacity, marks, labels))
  {
    if labels != [] {
      RunKeepsLeases(capacity, marks, labels[..|labels| - 1]);
      RunKeepsCleaned(capacity, marks, labels[..|labels| - 1]);
      StepKeepsCleaned(capacity, Run(capacity, marks, labels[..|labels| - 1]), labels[|labels| - 1]);
    }
  }

  lemma StepKeepsCleaned(capacity: nat, s: State, l: Label)
    requires LeaseInv(capacity, s) && CleanedInv(s)
    ensures CleanedInv(Step(capacity, s, l))
  {
    match l
    case Next(pid) =>
      if pid in s.procs {
        NextCleans(capacity, s, pid);
      }
    case Fail(pid) =>
      if pid in s.procs {
        FailCleans(capacity, s, pid);
      }
    case WriteCheckpoint(pid, root) => WriteClean(capacity, s, pid, root);
    case _ => OthersClean(capacity, s, l);
  }

  lemma WriteClean(capacity: nat, s: State, pid: nat, root: bool)
    requires LeaseInv(capacity, s) && CleanedInv(s)
    ensures CleanedInv(Step(capacity, s, WriteCheckpoint(pid, root)))
  {
    WriteStep(capacity, s, pid, root);
    if pid in s.procs && s.procs[pid].pc == Work {
      WriterIsAlone(capacity, s, pid);
    }
  }

  lemma WriteStep(capacity: nat, s: State, pid: nat, root: bool)
    ensures var s' := Step(capacity, s, WriteCheckpoint(pid, root));
            && s'.procs == s.procs
            && s'.marks.Keys ==
                 s.marks.Keys + if pid in s.procs && s.procs[pid].pc == Work then {s.procs[pid].thread} else {}
  {
  }

  lemma OthersClean(capacity: nat, s: State, l: Label)
    requires CleanedInv(s) && (l.Start? || l.Background? || l.LoseRecord? || l.LoseCheckpoints?)
    ensures CleanedInv(Step(capacity, s, l))
  {
    var s' := Step(capacity, s, l);
    assert s'.marks.Keys <= s.marks.Keys;
    forall q | q in s'.procs && Cleaned(s'.procs[q])
      ensures q in s.procs && s'.procs[q] == s.procs[q]
    {
    }
  }

  lemma NextCleans(capacity: nat, s: State, pid: nat)
    requires LeaseInv(capacity, s) && CleanedInv(s) && pid in s.procs
    ensures CleanedInv(Advance(capacity, s, pid))
  {
    var p := s.procs[pid];
    assert WellPlaced(p);
    SectionCleans(capacity, s, p);
    forall q | q in Advance(capacity, s, pid).procs && Cleaned(Advance(capacity, s, pid).procs[q])
      ensures Advance(capacity, s, pid).procs[q].thread !in NextMarks(s.marks, p)
    {
      if q != pid {
        assert s.procs[q].thread !in s.marks;
      }
    }
  }

  /** A section that ends clean has just removed the checkpoints. */
  lemma SectionCleans(capacity: nat, s: State, p: Proc)
    requires WellPlaced(p)
    ensures Cleaned(NextProc(capacity, s, p)) ==> NextProc(capacity, s, p).thread !in NextMarks(s.marks, p)
    ensures NextMarks(s.marks, p).Keys <= s.marks.Keys
  {
  }

  lemma FailCleans(capacity: nat, s: State, pid: nat)
    requires LeaseInv(capacity, s) && CleanedInv(s) && pid in s.procs
    ensures CleanedInv(Goto(s, pid, AfterFailure(s.procs[pid])))
  {
    assert WellPlaced(s.procs[pid]);
    FailureCleans(s.procs[pid]);
  }

  lemma FailureCleans(p: Proc)
    requires WellPlaced(p)
    ensures Cleaned(AfterFailure(p)) ==> Cleaned(p)
    ensures AfterFailure(p).thread == p.thread
  {
  }

  /** The writer holds the lease, so no request that has cleaned its thread is still there. */
  lemma WriterIsAlone(capacity: nat, s: State, pid: nat)
    requires LeaseInv(capacity, s) && pid in s.procs && s.procs[pid].pc == Work
    ensures forall q :: q in s.procs && Cleaned(s.procs[q]) ==> s.procs[q].thread != s.procs[pid].thread
  {
    assert WellPlaced(s.procs[pid]);
    forall q | q in s.procs && Cleaned(s.procs[q])
      ensures s.procs[q].thread != s.procs[pid].thread
    {
      assert WellPlaced(s.procs[q]);
    }
  }

  /**
   At the moment a delete request commits, its thread has neither a record nor a
   checkpoint and is still reserved, however other requests interleave.
   */
  lemma DeleteCommits(capacity: nat, marks: Marks, labels: seq<Label>, pid: nat)
    requires pid in Run(capacity, marks, labels).procs
    requires Run(capacity, marks, labels).procs[pid].pc == DeleteRecord
    ensures var t := Run(capacity, marks, labels).procs[pid].thread;
            var s' := Step(capacity, Run(capacity, marks, labels), Next(pid));
            t !in s'.records && t !in s'.marks && t in s'.active && s'.active[t] == pid
  {
    RunKeepsLeases(capacity, marks, labels);
    RunKeepsCleaned(capacity, marks, labels);
    assert WellPlaced(Run(capacity, marks, labels).procs[pid]);
  }

  /** The delete holds its thread, and nothing of the thread is left. */
  ghost predicate Gone(s: State, pid: nat) {
    && pid in s.procs && s.procs[pid].thread !in s.records && s.procs[pid].thread !in s.marks
    && s.procs[pid].thread in s.active && s.active[s.procs[pid].thread] == pid
  }

  predicate DeleteEnds(s: State, pid: nat) {
    pid in s.procs && s.procs[pid].kind == DeleteThread && s.procs[pid].pc == Releasing
  }

  lemma ReachesDeleteEnd(capacity: nat, s: State, l: Label, pid: nat)
    requires LeaseInv(capacity, s) && CleanedInv(s) && l != Fail(pid)
    requires DeleteEnds(Step(capacity, s, l), pid) && !DeleteEnds(s, pid)
    ensures Gone(Step(capacity, s, l), pid)
  {
    OnlyOwnNextEnds(capacity, s, l, pid);
    assert WellPlaced(s.procs[pid]);
    DeleteSection(capacity, s, pid);
  }

  lemma OnlyOwnNextEnds(capacity: nat, s: State, l: Label, pid: nat)
    requires l != Fail(pid) && DeleteEnds(Step(capacity, s, l), pid) && !DeleteEnds(s, pid)
    ensures l == Next(pid) && pid in s.procs && Step(capacity, s, l) == Advance(capacity, s, pid)
    ensures s.procs[pid].kind == DeleteThread
  {
    if l == Next(pid) && pid in s.procs {
      NextKind(capacity, s, s.procs[pid]);
    }
  }

  lemma NextKind(capacity: nat, s: State, p: Proc)
    ensures NextProc(capacity, s, p).kind == p.kind
  {
  }

  lemma DeleteSection(capacity: nat, s: State, pid: nat)
    requires LeaseInv(capacity, s) && CleanedInv(s) && pid in s.procs && s.procs[pid].kind == DeleteThread
    requires WellPlaced(s.procs[pid]) && s.procs[pid].pc != Releasing
    requires NextProc(capacity, s, s.procs[pid]).pc == Releasing
    ensures Gone(Advance(capacity, s, pid), pid)
  {
    assert s.procs[pid].pc == DeleteRecord;
    assert Holds(s.procs[pid]);
  }

  /**
   In every run, a delete that is about to give its thread back, and has not failed,
   has held the thread with neither a record nor a checkpoint of it left.
   */
  lemma {:induction false} DeleteHasDeleted(capacity: nat, marks: Marks, labels: seq<Label>, pid: nat)
    requires DeleteEnds(Run(capacity, marks, labels), pid) && Fail(pid) !in labels
    ensures exists i :: 0 <= i <= |labels| && Gone(Run(capacity, marks, labels[..i]), pid)
  {
    assert labels != [];
    var earlier, l := labels[..|labels| - 1], labels[|labels| - 1];
    var s := Run(capacity, marks, earlier);
    if DeleteEnds(s, pid) {
      DeleteHasDeleted(capacity, marks, earlier, pid);
      var i :| 0 <= i <= |earlier| && Gone(Run(capacity, marks, earlier[..i]), pid);
      assert earlier[..i] == labels[..i];
    } else {
      RunKeepsLeases(capacity, marks, earlier);
      RunKeepsCleaned(capacity, marks, earlier);
      ReachesDeleteEnd(capacity, s, l, pid);
      assert labels[..|labels|] == labels;
    }
  }

  /** The cleanup of a stateless run has failed at some step of the run. */
  ghost predicate CleanupFailed(capacity: nat, marks: Marks, labels: seq<Label>, pid: nat) {
    exists i :: 0 <= i < |labels| && FailsCleanup(Run(capacity, marks, labels[..i]), labels[i], pid)
  }

  predicate FailsCleanup(s: State, l: Label, pid: nat) {
    l == Fail(pid) && pid in s.procs && s.procs[pid].pc == CleanUp
  }

  /** The stateless run is about to give its generated thread back. */
  predicate LeavesStateless(s: State, pid: nat) {
    pid in s.procs && s.procs[pid].kind == StatelessRun && s.procs[pid].pc == Releasing
  }

  lemma StatelessStep(capacity: nat, s: State, l: Label, pid: nat)
    requires LeaseInv(capacity, s) && !FailsCleanup(s, l, pid)
    requires LeavesStateless(s, pid) ==> s.procs[pid].thread !in s.marks
    requires LeavesStateless(Step(capacity, s, l), pid)
    ensures Step(capacity, s, l).procs[pid].thread !in Step(capacity, s, l).marks
  {
    if LeavesStateless(s, pid) {
      StatelessStays(capacity, s, l, pid);
    } else {
      ReachesRelease(capacity, s, l, pid);
      assert WellPlaced(s.procs[pid]);
      CleanedUp(capacity, s, s.procs[pid]);
    }
  }

  lemma ReachesRelease(capacity: nat, s: State, l: Label, pid: nat)
    requires LeaseInv(capacity, s) && !FailsCleanup(s, l, pid)
    requires !LeavesStateless(s, pid) && LeavesStateless(Step(capacity, s, l), pid)
    ensures l == Next(pid) && pid in s.procs && Step(capacity, s, l) == Advance(capacity, s, pid)
  {
    if pid in s.procs {
      assert WellPlaced(s.procs[pid]);
    }
    match l
    case Fail(q) =>
      if q == pid && pid in s.procs {
        NoReleaseByFailure(s.procs[pid]);
      }
    case _ =>
  }

  lemma NoReleaseByFailure(p: Proc)
    requires WellPlaced(p) && p.kind == StatelessRun && p.pc != CleanUp && p.pc != Releasing
    ensures AfterFailure(p).pc != Releasing
  {
  }

  /** A stateless run reaches its release through its cleanup. */
  lemma CleanedUp(capacity: nat, s: State, p: Proc)
    requires WellPlaced(p) && p.pc != Releasing
    requires NextProc(capacity, s, p).kind == StatelessRun && NextProc(capacity, s, p).pc == Releasing
    ensures NextProc(capacity, s, p).thread !in NextMarks(s.marks, p)
  {
  }

  /** Nobody else writes to the thread while it is still reserved. */
  lemma StatelessStays(capacity: nat, s: State, l: Label, pid: nat)
    requires LeaseInv(capacity, s) && LeavesStateless(s, pid) && s.procs[pid].thread !in s.marks
    requires LeavesStateless(Step(capacity, s, l), pid)
    ensures Step(capacity, s, l).procs[pid].thread == s.procs[pid].thread
    ensures s.procs[pid].thread !in Step(capacity, s, l).marks
  {
    var t := s.procs[pid].thread;
    assert WellPlaced(s.procs[pid]) && Holds(s.procs[pid]);
    ThreadFixed(capacity, s, l, pid);
    if l.WriteCheckpoint? {
      if l.pid in s.procs && s.procs[l.pid].pc == Work {
        assert WellPlaced(s.procs[l.pid]) && Holds(s.procs[l.pid]);
      }
    } else {
      OnlyWritesCreate(capacity, s, l, t);
    }
  }

  lemma ThreadFixed(capacity: nat, s: State, l: Label, pid: nat)
    requires pid in s.procs
    ensures pid in Step(capacity, s, l).procs && Step(capacity, s, l).procs[pid].thread == s.procs[pid].thread
  {
    match l
    case Next(q) =>
      if q in s.procs {
        NextThread(capacity, s, s.procs[q]);
      }
    case _ =>
  }

  lemma NextThread(capacity: nat, s: State, p: Proc)
    ensures NextProc(capacity, s, p).thread == p.thread
  {
  }

  lemma OnlyWritesCreate(capacity: nat, s: State, l: Label, t: string)
    requires !l.WriteCheckpoint? && t !in s.marks
    ensures t !in Step(capacity, s, l).marks
  {
  }

  /** Unless its cleanup failed, a stateless run leaves no checkpoint of its generated thread at its release. */
  lemma {:induction false} StatelessLeavesNothing(capacity: nat, marks: Marks, labels: seq<Label>, pid: nat)
    requires LeavesStateless(Run(capacity, marks, labels), pid)
    requires !CleanupFailed(capacity, marks, labels, pid)
    ensures Run(capacity, marks, labels).procs[pid].thread !in Run(capacity, marks, labels).marks
  {
    var earlier, l := labels[..|labels| - 1], labels[|labels| - 1];
    assert forall i :: 0 <= i < |earlier| ==> earlier[..i] == labels[..i];
    assert labels[..|labels| - 1] == earlier;
    if LeavesStateless(Run(capacity, marks, earlier), pid) {
      StatelessLeavesNothing(capacity, marks, earlier, pid);
    }
    RunKeepsLeases(capacity, marks, earlier);
    StatelessStep(capacity, Run(capacity, marks, earlier), l, pid);
  }

  /** Checkpoints are written only by the holder of the thread's reservation. */
  lemma WritesUnderLease(capacity: nat, marks: Marks, labels: seq<Label>, l: Label, thread: string)
    requires |MarksOf(Step(capacity, Run(capacity, marks, labels), l), thread)|
             > |MarksOf(Run(capacity, marks, labels), thread)|
    ensures l.WriteCheckpoint? && thread in Run(capacity, marks, labels).active
    ensures Run(capacity, marks, labels).active[thread] == l.pid
  {
    var s := Run(capacity, marks, labels);
    RunKeepsLeases(capacity, marks, labels);
    if l.WriteCheckpoint? {
      assert l.pid in s.procs && WellPlaced(s.procs[l.pid]);
    } else {
      OnlyWritesAdd(capacity, s, l, thread);
    }
  }

  lemma OnlyWritesAdd(capacity: nat, s: State, l: Label, thread: string)
    requires !l.WriteCheckpoint?
    ensures |MarksOf(Step(capacity, s, l), thread)| <= |MarksOf(s, thread)|
  {
  }
}
