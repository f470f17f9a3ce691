/** The busy status of a thread. */
module StatusSafety {
  import opened Coordination
  import opened ThreadStore
  import opened ServerProtocol
  import opened LeaseSafety

  predicate IsBusy(records: Records, t: string) {
    t in records && records[t].thread.status == Busy
  }

  /** The part of a stream in which the stored status may be busy. */
  predicate Streaming(p: Proc) {
    p.kind == StreamRun && (p.pc == Work || p.pc == IdleRead || p.pc.IdleWrite?)
  }

  /** Copies read from the store are written back under their own key, with the status meant. */
  predicate CopySound(p: Proc) {
    match p.pc
    case BusyWrite(copy) => copy.threadId == p.thread && copy.status == Busy
    case IdleWrite(copy) => copy.threadId == p.thread && copy.status == Idle
    case _ => true
  }

  ghost predicate CopiesSound(s: State) {
    && (forall t :: t in s.records ==> s.records[t].thread.threadId == t)
    && (forall q :: q in s.procs ==> CopySound(s.procs[q]))
  }

  /** A busy thread is reserved, by a stream that will still restore its status. */
  ghost predicate BusyMeansHeld(s: State) {
    forall t :: IsBusy(s.records, t) ==>
      t in s.active && s.active[t] in s.procs && Streaming(s.procs[s.active[t]])
  }

  /** The background task gives up the lease of a stream that has not restored the status yet. */
  predicate Abandons(s: State, l: Label) {
    l.Background? && l.pid in s.procs && Streaming(s.procs[l.pid])
  }

  // ---------- one step ----------

  lemma NextCopies(capacity: nat, s: State, pid: nat)
    requires CopiesSound(s) && pid in s.procs
    ensures CopiesSound(Advance(capacity, s, pid))
  {
    var p := s.procs[pid];
    assert CopySound(p);
    NextCopy(capacity, s, p);
    StoredCopies(s.records, p);
  }

  lemma NextCopy(capacity: nat, s: State, p: Proc)
    requires p.thread in s.records ==> s.records[p.thread].thread.threadId == p.thread
    ensures CopySound(NextProc(capacity, s, p))
  {
  }

  lemma StoredCopies(records: Records, p: Proc)
    requires CopySound(p) && forall t :: t in records ==> records[t].thread.threadId == t
    ensures forall t :: t in NextRecords(records, p) ==> NextRecords(records, p)[t].thread.threadId == t
  {
  }

  lemma StepCopies(capacity: nat, s: State, l: Label)
    requires CopiesSound(s)
    ensures CopiesSound(Step(capacity, s, l))
  {
    match l
    case Next(pid) =>
      if pid in s.procs {
        NextCopies(capacity, s, pid);
      }
    case Fail(pid) =>
      if pid in s.procs {
        assert CopySound(s.procs[pid]);
        assert CopySound(AfterFailure(s.procs[pid]));
      }
    case _ =>
  }

  /** Which sections change the status, and to what. */
  lemma StatusAfter(records: Records, p: Proc, t: string)
    requires CopySound(p)
    ensures IsBusy(NextRecords(records, p), t)
       <==> if t == p.thread && p.pc.BusyWrite? then true
            else if t == p.thread && (p.pc == Record || p.pc.IdleWrite? || p.pc == DeleteRecord) then false
            else IsBusy(records, t)
  {
  }

  lemma NextStatus(capacity: nat, s: State, pid: nat)
    requires LeaseInv(capacity, s) && CopiesSound(s) && BusyMeansHeld(s) && pid in s.procs
    ensures BusyMeansHeld(Advance(capacity, s, pid))
  {
    var p, s' := s.procs[pid], Advance(capacity, s, pid);
    assert WellPlaced(p) && CopySound(p);
    forall t | IsBusy(s'.records, t)
      ensures t in s'.active && s'.active[t] in s'.procs && Streaming(s'.procs[s'.active[t]])
    {
      StatusAfter(s.records, p, t);
      if t == p.thread && p.pc.BusyWrite? {
        assert Holds(p);
      } else if s.active[t] == pid {
        HolderStays(capacity, s, p, t);
      }
    }
  }

  /** A streaming holder leaves the stream only through a state without a busy record. */
  lemma HolderStays(capacity: nat, s: State, p: Proc, t: string)
    requires p.thread == t && Streaming(p) && CopySound(p) && IsBusy(NextRecords(s.records, p), t)
    ensures Streaming(NextProc(capacity, s, p)) && p.pc != Releasing
  {
    StatusAfter(s.records, p, t);
  }

  lemma FailStatus(capacity: nat, s: State, pid: nat)
    requires LeaseInv(capacity, s) && BusyMeansHeld(s) && pid in s.procs
    ensures BusyMeansHeld(Goto(s, pid, AfterFailure(s.procs[pid])))
  {
    assert Streaming(s.procs[pid]) ==> Streaming(AfterFailure(s.procs[pid]));
  }

  /** A step breaks the status protocol exactly when it abandons a stream that is recorded as busy. */
  lemma StatusKeptIff(capacity: nat, s: State, l: Label)
    requires LeaseInv(capacity, s) && CopiesSound(s) && BusyMeansHeld(s)
    ensures BusyMeansHeld(Step(capacity, s, l))
       <==> !(Abandons(s, l) && IsBusy(s.records, s.procs[l.pid].thread))
  {
    match l
    case Next(pid) =>
      if pid in s.procs {
        NextStatus(capacity, s, pid);
      }
    case Fail(pid) =>
      if pid in s.procs {
        FailStatus(capacity, s, pid);
      }
    case Background(pid) =>
      if pid in s.procs && s.procs[pid].leased {
        BackgroundStatus(capacity, s, pid);
      }
    case _ => OtherStatus(capacity, s, l);
  }

  lemma OtherStatus(capacity: nat, s: State, l: Label)
    requires LeaseInv(capacity, s) && BusyMeansHeld(s)
    requires l.Start? || l.WriteCheckpoint? || l.LoseRecord? || l.LoseCheckpoints?
    ensures BusyMeansHeld(Step(capacity, s, l))
  {
    var s' := Step(capacity, s, l);
    OtherTables(capacity, s, l);
    forall t | IsBusy(s'.records, t)
      ensures t in s'.active && s'.active[t] in s'.procs && Streaming(s'.procs[s'.active[t]])
    {
      assert IsBusy(s.records, t);
    }
  }

  lemma OtherTables(capacity: nat, s: State, l: Label)
    requires l.Start? || l.WriteCheckpoint? || l.LoseRecord? || l.LoseCheckpoints?
    ensures var s' := Step(capacity, s, l);
            && s'.active == s.active
            && (s'.records == s.records || (l.LoseRecord? && s'.records == s.records - {l.thread}))
            && forall q :: q in s.procs ==> q in s'.procs && s'.procs[q] == s.procs[q]
  {
  }

  lemma BackgroundStatus(capacity: nat, s: State, pid: nat)
    requires LeaseInv(capacity, s) && BusyMeansHeld(s) && pid in s.procs && s.procs[pid].leased
    ensures BusyMeansHeld(Step(capacity, s, Background(pid)))
       <==> !(Abandons(s, Background(pid)) && IsBusy(s.records, s.procs[pid].thread))
  {
    var p := s.procs[pid];
    if Abandons(s, Background(pid)) && IsBusy(s.records, p.thread) {
      AbandonedStatus(capacity, s, pid);
    } else {
      NotHeldBy(capacity, s, pid);
      ReleaseStatus(s, pid, p.(pc := Done));
    }
  }

  lemma AbandonedStatus(capacity: nat, s: State, pid: nat)
    requires LeaseInv(capacity, s) && Abandons(s, Background(pid)) && IsBusy(s.records, s.procs[pid].thread)
    ensures !BusyMeansHeld(Step(capacity, s, Background(pid)))
  {
    var p := s.procs[pid];
    assert WellPlaced(p) && Holds(p);
    assert p.thread !in ReleaseStep(s.active, p.thread, pid);
    assert IsBusy(Step(capacity, s, Background(pid)).records, p.thread);
  }

  lemma NotHeldBy(capacity: nat, s: State, pid: nat)
    requires LeaseInv(capacity, s) && BusyMeansHeld(s) && pid in s.procs
    requires !(Streaming(s.procs[pid]) && IsBusy(s.records, s.procs[pid].thread))
    ensures forall t :: IsBusy(s.records, t) ==> s.active[t] != pid
  {
  }

  /** A release by a request that holds no busy thread. */
  lemma ReleaseStatus(s: State, pid: nat, p: Proc)
    requires BusyMeansHeld(s)
    requires forall t :: IsBusy(s.records, t) ==> s.active[t] != pid
    ensures BusyMeansHeld(Goto(s, pid, p).(active := ReleaseStep(s.active, p.thread, pid)))
  {
    var s' := Goto(s, pid, p).(active := ReleaseStep(s.active, p.thread, pid));
    forall t | IsBusy(s'.records, t)
      ensures t in s'.active && s'.active[t] in s'.procs && Streaming(s'.procs[s'.active[t]])
    {
      assert IsBusy(s.records, t);
    }
  }

  // ---------- whole runs ----------

  /** No stream is abandoned: each is driven to completion or failure, or never started. */
  ghost predicate Driven(capacity: nat, marks: Marks, labels: seq<Label>) {
    forall i :: 0 <= i < |labels| ==> !Abandons(Run(capacity, marks, labels[..i]), labels[i])
  }

  /** If every stream is driven to its end, a busy status always means a held lease. */
  lemma {:induction false} BusyImpliesLease(capacity: nat, marks: Marks, labels: seq<Label>)
    requires Driven(capacity, marks, labels)
    ensures BusyMeansHeld(Run(capacity, marks, labels))
  {
    if labels != [] {
      var earlier, l := labels[..|labels| - 1], labels[|labels| - 1];
      assert forall i :: 0 <= i < |earlier| ==> earlier[..i] == labels[..i];
      assert labels[..|labels| - 1] == earlier;
      BusyImpliesLease(capacity, marks, earlier);
      RunKeepsLeases(capacity, marks, earlier);
      RunCopies(capacity, marks, earlier);
      StatusKeptIff(capacity, Run(capacity, marks, earlier), l);
    }
  }

  lemma {:induction false} RunCopies(capacity: nat, marks: Marks, labels: seq<Label>)
    ensures CopiesSound(Run(capacity, marks, labels))
  {
    if labels != [] {
      RunCopies(capacity, marks, labels[..|labels| - 1]);
      StepCopies(capacity, Run(capacity, marks, labels[..|labels| - 1]), labels[|labels| - 1]);
    }
  }

  /** The stream found no record to mark, or the record was busy when the stream reached its graph. */
  ghost predicate Marked(s: State, pid: nat) {
    pid in s.procs
    && ((s.procs[pid].pc == BusyRead && s.procs[pid].thread !in s.records)
        || (s.procs[pid].pc == Work && IsBusy(s.records, s.procs[pid].thread)))
  }

  lemma ReachesWork(capacity: nat, s: State, l: Label, pid: nat)
    requires CopiesSound(s) && LeaseInv(capacity, s)
    requires var s' := Step(capacity, s, l);
             pid in s'.procs && s'.procs[pid].kind == StreamRun && s'.procs[pid].pc == Work
    requires !(pid in s.procs && s.procs[pid].kind == StreamRun && s.procs[pid].pc == Work)
    ensures Marked(s, pid) || Marked(Step(capacity, s, l), pid)
  {
    assert l == Next(pid) && pid in s.procs by {
      OnlyOwnNextReachesWork(capacity, s, l, pid);
    }
    assert CopySound(s.procs[pid]) && WellPlaced(s.procs[pid]);
    StatusAfter(s.records, s.procs[pid], s.procs[pid].thread);
  }

  lemma OnlyOwnNextReachesWork(capacity: nat, s: State, l: Label, pid: nat)
    requires var s' := Step(capacity, s, l);
             pid in s'.procs && s'.procs[pid].kind == StreamRun && s'.procs[pid].pc == Work
    requires !(pid in s.procs && s.procs[pid].kind == StreamRun && s.procs[pid].pc == Work)
    ensures l == Next(pid) && pid in s.procs
  {
  }

  /** In every run a stream at its graph has marked its thread busy before, unless the record was absent then. */
  lemma {:induction false} WorkWasMarked(capacity: nat, marks: Marks, labels: seq<Label>, pid: nat)
    requires pid in Run(capacity, marks, labels).procs
    requires var p := Run(capacity, marks, labels).procs[pid]; p.kind == StreamRun && p.pc == Work
    ensures exists i :: 0 <= i <= |labels| && Marked(Run(capacity, marks, labels[..i]), pid)
  {
    assert labels != [];
    var earlier, l := labels[..|labels| - 1], labels[|labels| - 1];
    var s := Run(capacity, marks, earlier);
    if pid in s.procs && s.procs[pid].kind == StreamRun && s.procs[pid].pc == Work {
      WorkWasMarked(capacity, marks, earlier, pid);
      var i :| 0 <= i <= |earlier| && Marked(Run(capacity, marks, earlier[..i]), pid);
      assert earlier[..i] == labels[..i];
    } else {
      RunCopies(capacity, marks, earlier);
      RunKeepsLeases(capacity, marks, earlier);
      ReachesWork(capacity, s, l, pid);
      assert labels[..|labels| - 1] == earlier && labels[..|labels|] == labels;
    }
  }

  /** If every stream is driven to its end, no request gives back a thread that is recorded as busy. */
  lemma ReleaseLeavesIdle(capacity: nat, marks: Marks, labels: seq<Label>, pid: nat)
    requires Driven(capacity, marks, labels)
    requires pid in Run(capacity, marks, labels).procs && Run(capacity, marks, labels).procs[pid].pc == Releasing
    ensures var t := Run(capacity, marks, labels).procs[pid].thread;
            var s' := Step(capacity, Run(capacity, marks, labels), Next(pid));
            t !in s'.active && !IsBusy(s'.records, t)
  {
    var s := Run(capacity, marks, labels);
    BusyImpliesLease(capacity, marks, labels);
    RunKeepsLeases(capacity, marks, labels);
    assert WellPlaced(s.procs[pid]) && Holds(s.procs[pid]);
  }

  /** Only the holder of a thread's lease ever turns its status to busy. */
  lemma OnlyHolderWritesBusy(capacity: nat, marks: Marks, labels: seq<Label>, l: Label, t: string)
    requires !IsBusy(Run(capacity, marks, labels).records, t)
    requires IsBusy(Step(capacity, Run(capacity, marks, labels), l).records, t)
    ensures l.Next? && t in Run(capacity, marks, labels).active
    ensures Run(capacity, marks, labels).active[t] == l.pid
  {
    var s := Run(capacity, marks, labels);
    RunKeepsLeases(capacity, marks, labels);
    RunCopies(capacity, marks, labels);
    assert l.Next? && l.pid in s.procs;
    assert CopySound(s.procs[l.pid]) && WellPlaced(s.procs[l.pid]);
    StatusAfter(s.records, s.procs[l.pid], t);
  }
}
