/** Who owns a thread, over all interleavings. */
module OwnershipSafety {
  import opened Items
  import opened Coordination
  import opened ThreadStore
  import opened ServerProtocol
  import opened LeaseSafety
  import opened RequestCompletion
  import opened DeletionSafety

  // ---------- one owner ----------

  lemma RecordsKeepOwner(records: Records, p: Proc, thread: string)
    requires OwnerOf(records, thread).Some? && thread in NextRecords(records, p)
    ensures OwnerOf(NextRecords(records, p), thread) == OwnerOf(records, thread)
  {
  }

  /** No step replaces the owner of a thread whose record it leaves in place. */
  lemma StepKeepsOwner(capacity: nat, s: State, l: Label, thread: string)
    requires OwnerOf(s.records, thread).Some? && thread in Step(capacity, s, l).records
    ensures OwnerOf(Step(capacity, s, l).records, thread) == OwnerOf(s.records, thread)
  {
    if l.Next? && l.pid in s.procs {
      RecordsKeepOwner(s.records, s.procs[l.pid], thread);
    }
  }

  /** Between two different owners of a thread lies a state in which its record is absent. */
  lemma {:induction false} OwnerChangesOnlyThroughAbsence(
    capacity: nat, marks: Marks, labels: seq<Label>, more: seq<Label>, thread: string)
    requires OwnerOf(Run(capacity, marks, labels).records, thread).Some?
    requires forall k :: 0 <= k <= |more| ==> thread in Run(capacity, marks, labels + more[..k]).records
    ensures OwnerOf(Run(capacity, marks, labels + more).records, thread)
         == OwnerOf(Run(capacity, marks, labels).records, thread)
  {
    if more == [] {
      assert labels + more == labels;
    } else {
      var earlier := more[..|more| - 1];
      assert forall k :: 0 <= k <= |earlier| ==> earlier[..k] == more[..k];
      OwnerChangesOnlyThroughAbsence(capacity, marks, labels, earlier, thread);
      RunMore(capacity, marks, labels, more);
      assert more[..|more|] == more;
      StepKeepsOwner(capacity, Run(capacity, marks, labels + earlier), more[|more| - 1], thread);
    }
  }

  // ---------- durable ownership ----------

  /** All checkpoints carry one assistant's marker, and one of them is in the root namespace. */
  ghost predicate OneMarker(marks: seq<Mark>, assistant: string) {
    && (forall i :: 0 <= i < |marks| ==> marks[i].assistant == Some(assistant))
    && LatestRoot(marks).Some?
  }

  /** The checkpoints a server may find when it starts. */
  ghost predicate Consistent(marks: Marks) {
    forall t :: t in marks ==> exists a :: OneMarker(marks[t], a)
  }

  /** An owned thread has only its owner's checkpoints; an unowned one has none, or those of one assistant. */
  ghost predicate MarkersAgree(marks: seq<Mark>, owner: Option<string>) {
    match owner
    case Some(a) => forall i :: 0 <= i < |marks| ==> marks[i].assistant == Some(a)
    case None => marks == [] || exists a :: OneMarker(marks, a)
  }

  /** Owning the thread would agree with its checkpoints. */
  ghost predicate Fits(marks: seq<Mark>, assistant: string) {
    marks == [] || OneMarker(marks, assistant)
  }

  /** What a request may rely on for the claims it has read or made. */
  ghost predicate ClaimSound(p: Proc, marks: seq<Mark>, owner: Option<string>) {
    match p.pc
    case Adopt(m) => owner == None ==> Fits(marks, m)
    case Claim(existing) =>
      (existing.Some? ==> existing.value == p.assistant) && owner == None ==> Fits(marks, p.assistant)
    case Acquire => p.kind in {StreamRun, PlainRun} ==> owner == Some(p.assistant)
    case BusyRead => owner == Some(p.assistant)
    case BusyWrite(_) => owner == Some(p.assistant)
    case Work => p.kind != StatelessRun ==> owner == Some(p.assistant)
    case _ => true
  }

  ghost predicate ProcSound(s: State, p: Proc) {
    && (p.kind == StatelessRun <==> p.thread in s.generated)
    && WellPlaced(p)
    && ClaimSound(p, MarksOf(s, p.thread), OwnerOf(s.records, p.thread))
  }

  ghost predicate ThreadSound(s: State, t: string) {
    t in s.generated || MarkersAgree(MarksOf(s, t), OwnerOf(s.records, t))
  }

  /** Markers and owners agree, and every request may rely on its claims. */
  ghost predicate DurableInv(s: State) {
    && (forall t :: ThreadSound(s, t))
    && (forall q :: q in s.procs ==> ProcSound(s, s.procs[q]))
  }

  // ---------- which removals of a record are safe ----------

  /** The thread whose record the step takes away: a loss, or the commit of a delete. */
  function Forgotten(s: State, l: Label): Option<string> {
    match l
    case LoseRecord(t) => if t in s.records && t !in s.generated then Some(t) else None
    case Next(pid) =>
      if pid in s.procs && s.procs[pid].pc == DeleteRecord && s.procs[pid].thread in s.records
      then Some(s.procs[pid].thread) else None
    case _ => None
  }

  /** Some checkpoint is not the assistant's. */
  ghost predicate Foreign(marks: seq<Mark>, assistant: string) {
    exists i :: 0 <= i < |marks| && marks[i].assistant != Some(assistant)
  }

  /**
   The request has claimed the thread and not finished its work, or is about to
   record an owner that the checkpoints contradict.
   */
  ghost predicate Relies(p: Proc, marks: seq<Mark>) {
    match p.pc
    case Adopt(m) => Foreign(marks, m)
    case Claim(existing) => (existing.Some? ==> existing.value == p.assistant) && Foreign(marks, p.assistant)
    case Acquire => p.kind in {StreamRun, PlainRun}
    case BusyRead => true
    case BusyWrite(_) => true
    case Work => p.kind != StatelessRun
    case _ => false
  }

  /** A lookup would still find the owner, and no request relies on the record. */
  ghost predicate SafeToForget(s: State, t: string) {
    && (MarksOf(s, t) == [] || LatestRoot(MarksOf(s, t)).Some?)
    && forall q :: q in s.procs && s.procs[q].thread == t ==> !Relies(s.procs[q], MarksOf(s, t))
  }

  ghost predicate ForgetsSafely(s: State, l: Label) {
    Forgotten(s, l).Some? ==> SafeToForget(s, Forgotten(s, l).value)
  }

  function WithoutRecord(s: State, t: string): State {
    s.(records := s.records - {t})
  }

  lemma AgreeWithoutOwner(marks: seq<Mark>, owner: Option<string>)
    requires MarkersAgree(marks, owner)
    ensures MarkersAgree(marks, None) <==> marks == [] || LatestRoot(marks).Some?
  {
    if owner.Some? && marks != [] && LatestRoot(marks).Some? {
      assert OneMarker(marks, owner.value);
    }
  }

  /** A request's claim survives the removal exactly when the request does not rely on the record. */
  lemma SoundWithoutOwner(p: Proc, marks: seq<Mark>, owner: Option<string>)
    requires ClaimSound(p, marks, owner) && MarkersAgree(marks, owner)
    requires marks == [] || LatestRoot(marks).Some?
    ensures ClaimSound(p, marks, None) <==> !Relies(p, marks)
  {
  }

  lemma OthersUnforgotten(s: State, t: string, u: string)
    requires u != t
    ensures OwnerOf(WithoutRecord(s, t).records, u) == OwnerOf(s.records, u)
  {
  }

  lemma ForgetThreads(s: State, t: string)
    requires DurableInv(s) && t !in s.generated
    ensures (forall u :: ThreadSound(WithoutRecord(s, t), u))
       <==> MarksOf(s, t) == [] || LatestRoot(MarksOf(s, t)).Some?
  {
    var s' := WithoutRecord(s, t);
    assert ThreadSound(s, t);
    AgreeWithoutOwner(MarksOf(s, t), OwnerOf(s.records, t));
    assert ThreadSound(s', t) <==> MarkersAgree(MarksOf(s, t), None);
    forall u | u != t
      ensures ThreadSound(s', u)
    {
      assert ThreadSound(s, u);
      OthersUnforgotten(s, t, u);
    }
  }

  lemma ForgetProc(s: State, t: string, p: Proc)
    requires ProcSound(s, p) && ThreadSound(s, t) && t !in s.generated
    requires MarksOf(s, t) == [] || LatestRoot(MarksOf(s, t)).Some?
    ensures ProcSound(WithoutRecord(s, t), p) <==> !(p.thread == t && Relies(p, MarksOf(s, t)))
  {
    if p.thread == t {
      SoundWithoutOwner(p, MarksOf(s, t), OwnerOf(s.records, t));
    } else {
      OthersUnforgotten(s, t, p.thread);
    }
  }

  lemma ForgetIff(s: State, t: string)
    requires DurableInv(s) && t !in s.generated
    ensures DurableInv(WithoutRecord(s, t)) <==> SafeToForget(s, t)
  {
    ForgetThreads(s, t);
    if MarksOf(s, t) == [] || LatestRoot(MarksOf(s, t)).Some? {
      assert ThreadSound(s, t);
      forall q | q in s.procs
        ensures ProcSound(WithoutRecord(s, t), s.procs[q])
           <==> !(s.procs[q].thread == t && Relies(s.procs[q], MarksOf(s, t)))
      {
        ForgetProc(s, t, s.procs[q]);
      }
    }
  }

  // ---------- all other steps ----------

  /** How one thread may change: its owner stays, and without an owner no checkpoint is added. */
  ghost predicate Later(marks: seq<Mark>, owner: Option<string>, marks': seq<Mark>, owner': Option<string>) {
    && (owner.Some? ==> owner' == owner)
    && (marks' == marks || marks' == [] || owner.Some?)
  }

  lemma SoundLater(p: Proc, marks: seq<Mark>, owner: Option<string>, marks': seq<Mark>, owner': Option<string>)
    requires ClaimSound(p, marks, owner) && Later(marks, owner, marks', owner')
    ensures ClaimSound(p, marks', owner')
  {
  }

  lemma {:induction false} LatestIsMember(marks: seq<Mark>)
    ensures LatestRoot(marks).Some? ==> LatestRoot(marks).value in marks
  {
    if marks != [] && !marks[|marks| - 1].root {
      LatestIsMember(marks[..|marks| - 1]);
    }
  }

  /** The claim a section makes, when it makes one. */
  function ClaimMade(records: Records, p: Proc): Option<string> {
    match p.pc
    case Adopt(m) => if ClaimVerdict(records, p.thread, m) == Claimed then Some(m) else None
    case Claim(existing) =>
      if (existing.Some? ==> existing.value == p.assistant) && ClaimVerdict(records, p.thread, p.assistant) == Claimed
      then Some(p.assistant) else None
    case _ => None
  }

  lemma OwnerAfter(records: Records, p: Proc, thread: string)
    requires p.pc != DeleteRecord
    ensures OwnerOf(NextRecords(records, p), thread)
         == if thread == p.thread && ClaimMade(records, p).Some? then ClaimMade(records, p)
            else OwnerOf(records, thread)
    ensures ClaimMade(records, p).Some? && OwnerOf(records, p.thread).Some? ==>
              OwnerOf(records, p.thread) == ClaimMade(records, p)
  {
  }

  /** A claim never contradicts the checkpoints of its thread. */
  lemma ClaimAgrees(marks: seq<Mark>, records: Records, p: Proc)
    requires MarkersAgree(marks, OwnerOf(records, p.thread))
    requires ClaimSound(p, marks, OwnerOf(records, p.thread))
    requires ClaimMade(records, p).Some?
    ensures MarkersAgree(marks, ClaimMade(records, p))
  {
  }

  /** A lookup finds the one marker of an unowned thread. */
  lemma LookupFits(marks: seq<Mark>)
    requires MarkersAgree(marks, None)
    ensures var latest := LatestRoot(marks);
            if latest.Some? && latest.value.assistant.Some? then Fits(marks, latest.value.assistant.value)
            else marks == []
  {
    LatestIsMember(marks);
  }

  /** The request may rely on its own claims after its next section. */
  lemma NextSound(capacity: nat, s: State, p: Proc)
    requires ProcSound(s, p) && ThreadSound(s, p.thread) && p.pc != DeleteRecord
    ensures ClaimSound(NextProc(capacity, s, p), MarksOf(s, p.thread), OwnerOf(NextRecords(s.records, p), p.thread))
  {
    OwnerAfter(s.records, p, p.thread);
    if p.thread !in s.generated && OwnerOf(s.records, p.thread) == None {
      LookupFits(MarksOf(s, p.thread));
    }
  }

  lemma AdvanceLater(capacity: nat, s: State, pid: nat, t: string)
    requires pid in s.procs && s.procs[pid].pc != DeleteRecord
    ensures var s', p := Advance(capacity, s, pid), s.procs[pid];
            && OwnerOf(s'.records, t) == (if t == p.thread && ClaimMade(s.records, p).Some? then ClaimMade(s.records, p)
                                          else OwnerOf(s.records, t))
            && Later(MarksOf(s, t), OwnerOf(s.records, t), MarksOf(s', t), OwnerOf(s'.records, t))
            && (MarksOf(s', t) == MarksOf(s, t) || MarksOf(s', t) == [])
  {
    OwnerAfter(s.records, s.procs[pid], t);
  }

  lemma AdvanceThread(capacity: nat, s: State, pid: nat, t: string)
    requires DurableInv(s) && pid in s.procs && s.procs[pid].pc != DeleteRecord
    ensures ThreadSound(Advance(capacity, s, pid), t)
  {
    var p := s.procs[pid];
    assert ThreadSound(s, t) && ProcSound(s, p);
    AdvanceLater(capacity, s, pid, t);
    if t !in s.generated && t == p.thread && ClaimMade(s.records, p).Some? {
      ClaimAgrees(MarksOf(s, t), s.records, p);
    }
  }

  lemma AdvanceProc(capacity: nat, s: State, pid: nat, q: nat)
    requires DurableInv(s) && pid in s.procs && s.procs[pid].pc != DeleteRecord && q in s.procs
    ensures var s' := Advance(capacity, s, pid); ProcSound(s', s'.procs[q])
  {
    var s', p, t := Advance(capacity, s, pid), s.procs[pid], s.procs[q].thread;
    assert ProcSound(s, p) && ProcSound(s, s.procs[q]);
    AdvanceLater(capacity, s, pid, t);
    if q == pid {
      assert ThreadSound(s, t);
      NextProcPlaced(capacity, s, p);
      NextSound(capacity, s, p);
      SoundLater(NextProc(capacity, s, p), MarksOf(s, t), OwnerOf(s'.records, t),
                 MarksOf(s', t), OwnerOf(s'.records, t));
    } else {
      SoundLater(s.procs[q], MarksOf(s, t), OwnerOf(s.records, t), MarksOf(s', t), OwnerOf(s'.records, t));
    }
  }

  lemma AdvanceDurable(capacity: nat, s: State, pid: nat)
    requires DurableInv(s) && pid in s.procs && s.procs[pid].pc != DeleteRecord
    ensures DurableInv(Advance(capacity, s, pid))
  {
    forall t
      ensures ThreadSound(Advance(capacity, s, pid), t)
    {
      AdvanceThread(capacity, s, pid, t);
    }
    forall q | q in s.procs
      ensures ProcSound(Advance(capacity, s, pid), Advance(capacity, s, pid).procs[q])
    {
      AdvanceProc(capacity, s, pid, q);
    }
  }

  /** A delete commits exactly as safely as the record could be lost. */
  lemma CommitIff(capacity: nat, s: State, pid: nat)
    requires DurableInv(s) && pid in s.procs && s.procs[pid].pc == DeleteRecord
    ensures DurableInv(Advance(capacity, s, pid)) <==> SafeToForget(s, s.procs[pid].thread)
  {
    var p := s.procs[pid];
    assert ProcSound(s, p);
    var moved := Goto(s, pid, p.(pc := Releasing)).(active := s.active);
    ProcMoveDurable(s, pid, p.(pc := Releasing), s.active);
    ForgetIff(moved, p.thread);
    assert Advance(capacity, s, pid) == WithoutRecord(moved, p.thread);
    SameReliance(s, pid, moved);
  }

  lemma SameReliance(s: State, pid: nat, moved: State)
    requires pid in s.procs && s.procs[pid].pc == DeleteRecord
    requires moved == Goto(s, pid, s.procs[pid].(pc := Releasing)).(active := s.active)
    ensures SafeToForget(moved, s.procs[pid].thread) <==> SafeToForget(s, s.procs[pid].thread)
  {
    var t := s.procs[pid].thread;
    assert MarksOf(moved, t) == MarksOf(s, t);
    forall q | q in s.procs
      ensures Relies(moved.procs[q], MarksOf(s, t)) <==> Relies(s.procs[q], MarksOf(s, t))
      ensures moved.procs[q].thread == s.procs[q].thread
    {
    }
    assert moved.procs.Keys == s.procs.Keys;
  }

  lemma WriteDurable(capacity: nat, s: State, l: Label)
    requires DurableInv(s) && l.WriteCheckpoint?
    ensures DurableInv(Step(capacity, s, l))
  {
    if l.pid in s.procs && s.procs[l.pid].pc == Work {
      var p, s' := s.procs[l.pid], Step(capacity, s, l);
      assert ProcSound(s, p);
      assert MarksOf(s', p.thread) == MarksOf(s, p.thread) + [Mark(l.root, Some(p.assistant))];
      forall t
        ensures ThreadSound(s', t)
      {
        assert ThreadSound(s, t);
        assert t != p.thread ==> MarksOf(s', t) == MarksOf(s, t);
      }
      forall q | q in s.procs
        ensures ProcSound(s', s.procs[q])
      {
        assert ProcSound(s, s.procs[q]);
        WrittenLater(s, s', p, s.procs[q]);
      }
    }
  }

  lemma WrittenLater(s: State, s': State, p: Proc, other: Proc)
    requires ProcSound(s, p) && p.pc == Work && ProcSound(s, other)
    requires s'.records == s.records && s'.generated == s.generated
    requires forall t :: t != p.thread ==> MarksOf(s', t) == MarksOf(s, t)
    ensures ProcSound(s', other)
  {
    var t := other.thread;
    if t == p.thread && p.kind != StatelessRun {
      SoundLater(other, MarksOf(s, t), OwnerOf(s.records, t), MarksOf(s', t), OwnerOf(s'.records, t));
    } else {
      assert t == p.thread ==> other.kind == StatelessRun;
    }
  }

  lemma StartDurable(capacity: nat, s: State, l: Label)
    requires DurableInv(s) && l.Start?
    ensures DurableInv(Step(capacity, s, l))
  {
    if MayStart(s, l) {
      var s' := Step(capacity, s, l);
      var p := Proc(l.kind, l.thread, l.assistant, false, FirstPc(l.kind, l.mustExist));
      StartPlaced(p, l.mustExist);
      assert ProcSound(s', p);
      forall t
        ensures ThreadSound(s', t)
      {
        assert ThreadSound(s, t);
      }
      forall q | q in s.procs
        ensures ProcSound(s', s.procs[q])
      {
        assert ProcSound(s, s.procs[q]);
      }
    }
  }

  lemma LoseDurable(capacity: nat, s: State, l: Label)
    requires DurableInv(s) && l.LoseCheckpoints?
    ensures DurableInv(Step(capacity, s, l))
  {
    var s' := Step(capacity, s, l);
    forall t
      ensures MarksOf(s', t) == if t == l.thread then [] else MarksOf(s, t)
      ensures ThreadSound(s', t)
    {
      assert ThreadSound(s, t);
    }
    forall q | q in s.procs
      ensures ProcSound(s', s.procs[q])
    {
      assert ProcSound(s, s.procs[q]);
      var t := s.procs[q].thread;
      SoundLater(s.procs[q], MarksOf(s, t), OwnerOf(s.records, t), MarksOf(s', t), OwnerOf(s'.records, t));
    }
  }

  /** A request that only moves on keeps what it relies on. */
  lemma ProcMoveDurable(s: State, pid: nat, p: Proc, active: map<string, nat>)
    requires DurableInv(s) && pid in s.procs && p.thread == s.procs[pid].thread && p.kind == s.procs[pid].kind
    requires (WellPlaced(p) && p.pc in {IdleRead, CleanUp, Releasing, Done}) || p == s.procs[pid]
    ensures DurableInv(Goto(s, pid, p).(active := active))
  {
    var s' := Goto(s, pid, p).(active := active);
    assert ProcSound(s, s.procs[pid]);
    forall t
      ensures ThreadSound(s', t)
    {
      assert ThreadSound(s, t);
    }
    forall q | q in s'.procs
      ensures ProcSound(s', s'.procs[q])
    {
      if q != pid {
        assert ProcSound(s, s.procs[q]);
      }
    }
  }

  lemma FailDurable(s: State, pid: nat)
    requires DurableInv(s) && pid in s.procs
    ensures DurableInv(Goto(s, pid, AfterFailure(s.procs[pid])))
  {
    var p := s.procs[pid];
    assert ProcSound(s, p);
    FailurePlaced(p);
    ProcMoveDurable(s, pid, AfterFailure(p), s.active);
    assert Goto(s, pid, AfterFailure(p)).(active := s.active) == Goto(s, pid, AfterFailure(p));
  }

  lemma BackgroundDurable(capacity: nat, s: State, pid: nat)
    requires DurableInv(s)
    ensures DurableInv(Step(capacity, s, Background(pid)))
  {
    if pid in s.procs && s.procs[pid].leased {
      var p := s.procs[pid];
      assert ProcSound(s, p);
      BackgroundPlaced(p);
      ProcMoveDurable(s, pid, p.(pc := Done), ReleaseStep(s.active, p.thread, pid));
    }
  }

  lemma LoseRecordIff(capacity: nat, s: State, t: string)
    requires DurableInv(s)
    ensures DurableInv(Step(capacity, s, LoseRecord(t))) <==> ForgetsSafely(s, LoseRecord(t))
  {
    if t !in s.records {
      assert s.records - {t} == s.records;
    } else if t !in s.generated {
      ForgetIff(s, t);
    } else {
      ForgetGenerated(s, t);
    }
  }

  lemma ForgetGenerated(s: State, t: string)
    requires DurableInv(s) && t in s.generated
    ensures DurableInv(WithoutRecord(s, t))
  {
    var s' := WithoutRecord(s, t);
    forall u
      ensures ThreadSound(s', u)
    {
      assert ThreadSound(s, u);
    }
    forall q | q in s.procs
      ensures ProcSound(s', s.procs[q])
    {
      assert ProcSound(s, s.procs[q]);
    }
  }

  lemma DeleteForgetsIff(capacity: nat, s: State, pid: nat)
    requires DurableInv(s) && pid in s.procs && s.procs[pid].pc == DeleteRecord
    ensures DurableInv(Advance(capacity, s, pid)) <==> ForgetsSafely(s, Next(pid))
  {
    var p := s.procs[pid];
    CommitIff(capacity, s, pid);
    if p.thread !in s.records {
      NothingToForget(capacity, s, pid);
    }
  }

  lemma NothingToForget(capacity: nat, s: State, pid: nat)
    requires DurableInv(s) && pid in s.procs && s.procs[pid].pc == DeleteRecord && s.procs[pid].thread !in s.records
    ensures DurableInv(Advance(capacity, s, pid))
  {
    var p := s.procs[pid];
    assert ProcSound(s, p);
    ProcMoveDurable(s, pid, p.(pc := Releasing), s.active);
    assert s.records - {p.thread} == s.records;
    assert Advance(capacity, s, pid) == Goto(s, pid, p.(pc := Releasing)).(active := s.active);
  }

  /**
   A step breaks the agreement of markers, owners and claims exactly when it takes
   away a record that a request still relies on, or whose owner no lookup would find.
   */
  lemma OwnershipKeptIff(capacity: nat, s: State, l: Label)
    requires DurableInv(s)
    ensures DurableInv(Step(capacity, s, l)) <==> ForgetsSafely(s, l)
  {
    match l
    case Start(_, _, _, _, _) => StartDurable(capacity, s, l);
    case Next(pid) =>
      if pid in s.procs {
        if s.procs[pid].pc == DeleteRecord {
          DeleteForgetsIff(capacity, s, pid);
        } else {
          AdvanceDurable(capacity, s, pid);
        }
      }
    case Fail(pid) =>
      if pid in s.procs {
        FailDurable(s, pid);
      }
    case WriteCheckpoint(_, _) => WriteDurable(capacity, s, l);
    case Background(pid) => BackgroundDurable(capacity, s, pid);
    case LoseRecord(t) => LoseRecordIff(capacity, s, t);
    case LoseCheckpoints(_) => LoseDurable(capacity, s, l);
  }

  // ---------- whole runs ----------

  /** Every record that the run takes away may be forgotten at that moment. */
  ghost predicate ForgetsOnlySafely(capacity: nat, initial: Marks, labels: seq<Label>) {
    forall i :: 0 <= i < |labels| ==> ForgetsSafely(Run(capacity, initial, labels[..i]), labels[i])
  }

  lemma {:induction false} RunDurable(capacity: nat, initial: Marks, labels: seq<Label>)
    requires Consistent(initial) && ForgetsOnlySafely(capacity, initial, labels)
    ensures DurableInv(Run(capacity, initial, labels))
  {
    if labels != [] {
      var earlier, l := labels[..|labels| - 1], labels[|labels| - 1];
      assert forall i :: 0 <= i < |earlier| ==> earlier[..i] == labels[..i];
      assert labels[..|labels| - 1] == earlier;
      RunDurable(capacity, initial, earlier);
      OwnershipKeptIff(capacity, Run(capacity, initial, earlier), l);
    }
  }

  /**
   In every run, with any deletions and losses that forget records only safely, all
   checkpoints of a thread carry the marker of one assistant. It is the recorded
   owner, or, when none is recorded, one that a lookup finds.
   */
  lemma DurableOwnership(capacity: nat, initial: Marks, labels: seq<Label>, thread: string)
    requires Consistent(initial) && ForgetsOnlySafely(capacity, initial, labels)
    requires thread !in Run(capacity, initial, labels).generated
    ensures var s := Run(capacity, initial, labels);
            var owner, marks := OwnerOf(s.records, thread), MarksOf(s, thread);
            if owner.Some? then forall i :: 0 <= i < |marks| ==> marks[i].assistant == owner
            else marks == [] || exists a :: OneMarker(marks, a)
  {
    RunDurable(capacity, initial, labels);
    assert ThreadSound(Run(capacity, initial, labels), thread);
  }

  /** In such a run a graph works only for the recorded owner of its thread. */
  lemma WorksForOwner(capacity: nat, initial: Marks, labels: seq<Label>, pid: nat)
    requires Consistent(initial) && ForgetsOnlySafely(capacity, initial, labels)
    requires pid in Run(capacity, initial, labels).procs
    requires var p := Run(capacity, initial, labels).procs[pid]; p.pc == Work && p.kind != StatelessRun
    ensures var s := Run(capacity, initial, labels);
            OwnerOf(s.records, s.procs[pid].thread) == Some(s.procs[pid].assistant)
  {
    RunDurable(capacity, initial, labels);
    assert ProcSound(Run(capacity, initial, labels), Run(capacity, initial, labels).procs[pid]);
  }

  /** A run of the thread that stands between its claim and its lease. */
  predicate AwaitsLease(p: Proc, t: string) {
    p.thread == t && p.pc == Acquire && p.kind in {StreamRun, PlainRun}
  }

  /** In every reachable state a delete commits safely exactly when no run waits for the lease with its claim made. */
  lemma DeletionSafeIff(capacity: nat, initial: Marks, labels: seq<Label>, pid: nat)
    requires pid in Run(capacity, initial, labels).procs
    requires Run(capacity, initial, labels).procs[pid].pc == DeleteRecord
    ensures var s := Run(capacity, initial, labels);
            var t := s.procs[pid].thread;
            SafeToForget(s, t) <==> forall q :: q in s.procs ==> !AwaitsLease(s.procs[q], t)
  {
    var s := Run(capacity, initial, labels);
    RunKeepsLeases(capacity, initial, labels);
    RunKeepsCleaned(capacity, initial, labels);
    assert WellPlaced(s.procs[pid]);
    forall q | q in s.procs && s.procs[q].thread == s.procs[pid].thread
      ensures Relies(s.procs[q], MarksOf(s, s.procs[pid].thread)) <==> AwaitsLease(s.procs[q], s.procs[pid].thread)
    {
      assert WellPlaced(s.procs[q]);
      assert q != pid ==> !Holds(s.procs[q]);
    }
  }

  // ---------- claiming a thread that has no recorded owner ----------

  /** The assistant marker of the newest root checkpoint, if there is one. */
  function DurableMarker(marks: seq<Mark>): Option<string> {
    var latest := LatestRoot(marks);
    if latest.Some? then latest.value.assistant else None
  }

  /** Other requests leave the request and the ownership of its thread alone. */
  ghost predicate Quiet(capacity: nat, s: State, l: Label, pid: nat)
    requires pid in s.procs
  {
    var s', t := Step(capacity, s, l), s.procs[pid].thread;
    l == Next(pid) ||
    (&& pid in s'.procs && s'.procs[pid] == s.procs[pid]
     && (t in s'.records <==> t in s.records) && OwnerOf(s'.records, t) == OwnerOf(s.records, t)
     && MarksOf(s', t) == MarksOf(s, t))
  }

  /** How far a claim has come, given the marker it will find. */
  ghost predicate Claiming(s: State, p: Proc, marker: Option<string>) {
    && p.kind in {StreamRun, PlainRun} && !p.leased && p.thread in s.records
    && DurableMarker(MarksOf(s, p.thread)) == marker
    && match p.pc
       case AskStore => OwnerOf(s.records, p.thread) == None
       case AskDurable => OwnerOf(s.records, p.thread) == None
       case Adopt(m) => OwnerOf(s.records, p.thread) == None && marker == Some(m)
       case Claim(existing) => existing == marker && OwnerOf(s.records, p.thread) == marker
       case Acquire =>
         (marker == None || marker == Some(p.assistant)) && OwnerOf(s.records, p.thread) == Some(p.assistant)
       case Done => marker.Some? && marker.value != p.assistant && OwnerOf(s.records, p.thread) == marker
       case _ => false
  }

  /** How many sections a claim still needs at most. */
  function ClaimLeft(pc: Pc): nat {
    match pc
    case AskStore => 4
    case AskDurable => 3
    case Adopt(_) => 2
    case Claim(_) => 1
    case _ => 0
  }

  lemma NextClaiming(capacity: nat, s: State, pid: nat, marker: Option<string>)
    requires pid in s.procs && s.procs[pid].pc != Acquire && Claiming(s, s.procs[pid], marker)
    ensures var s' := Advance(capacity, s, pid);
            && Claiming(s', s'.procs[pid], marker)
            && ClaimLeft(s'.procs[pid].pc) <= (if s.procs[pid].pc == Done then 0 else ClaimLeft(s.procs[pid].pc) - 1)
  {
    OwnerAfter(s.records, s.procs[pid], s.procs[pid].thread);
  }

  lemma QuietClaiming(capacity: nat, s: State, l: Label, pid: nat, marker: Option<string>)
    requires pid in s.procs && s.procs[pid].pc != Acquire && Quiet(capacity, s, l, pid)
    requires Claiming(s, s.procs[pid], marker)
    ensures var s' := Step(capacity, s, l);
            && pid in s'.procs && Claiming(s', s'.procs[pid], marker)
            && s'.procs[pid].assistant == s.procs[pid].assistant && s'.procs[pid].thread == s.procs[pid].thread
            && ClaimLeft(s'.procs[pid].pc) <= ClaimLeft(s.procs[pid].pc)
            && (l == Next(pid) && s.procs[pid].pc != Done ==>
                  ClaimLeft(s'.procs[pid].pc) < ClaimLeft(s.procs[pid].pc))
  {
    if l == Next(pid) {
      NextClaiming(capacity, s, pid, marker);
    }
  }

  function RunFrom(capacity: nat, s: State, labels: seq<Label>): State
    decreases |labels|
  {
    if labels == [] then s else RunFrom(capacity, Step(capacity, s, labels[0]), labels[1..])
  }

  /** The request does not reach the lease before the last step, and nobody interferes with its claim. */
  ghost predicate QuietRun(capacity: nat, s: State, labels: seq<Label>, pid: nat)
    decreases |labels|
  {
    labels == [] ||
    (&& pid in s.procs && s.procs[pid].pc != Acquire && Quiet(capacity, s, labels[0], pid)
     && QuietRun(capacity, Step(capacity, s, labels[0]), labels[1..], pid))
  }

  lemma {:induction false} OwnSectionsFront(labels: seq<Label>, pid: nat)
    requires labels != []
    ensures OwnSections(labels, pid) == (if labels[0] == Next(pid) then 1 else 0) + OwnSections(labels[1..], pid)
  {
    if |labels| > 1 {
      OwnSectionsFront(labels[..|labels| - 1], pid);
      assert labels[..|labels| - 1][1..] == labels[1..][..|labels[1..]| - 1];
    }
  }

  lemma {:induction false} QuietRunClaiming(
    capacity: nat, s: State, labels: seq<Label>, pid: nat, marker: Option<string>)
    requires pid in s.procs && Claiming(s, s.procs[pid], marker) && QuietRun(capacity, s, labels, pid)
    ensures var s' := RunFrom(capacity, s, labels);
            && pid in s'.procs && Claiming(s', s'.procs[pid], marker)
            && s'.procs[pid].assistant == s.procs[pid].assistant && s'.procs[pid].thread == s.procs[pid].thread
            && (Decided(s'.procs[pid])
                || ClaimLeft(s'.procs[pid].pc) + OwnSections(labels, pid) <= ClaimLeft(s.procs[pid].pc))
    decreases |labels|
  {
    if labels != [] {
      QuietClaiming(capacity, s, labels[0], pid, marker);
      QuietRunClaiming(capacity, Step(capacity, s, labels[0]), labels[1..], pid, marker);
      OwnSectionsFront(labels, pid);
      if s.procs[pid].pc == Done {
        QuietRunStaysDone(capacity, s, labels, pid);
      }
    }
  }

  lemma {:induction false} QuietRunStaysDone(capacity: nat, s: State, labels: seq<Label>, pid: nat)
    requires pid in s.procs && s.procs[pid].pc == Done
    ensures var s' := RunFrom(capacity, s, labels); pid in s'.procs && s'.procs[pid] == s.procs[pid]
    decreases |labels|
  {
    if labels != [] {
      DoneStaysDone(capacity, s, labels[0], pid);
      QuietRunStaysDone(capacity, Step(capacity, s, labels[0]), labels[1..], pid);
    }
  }

  /** The claim has been accepted, and the lease is next, or it has been turned away. */
  predicate Decided(p: Proc) {
    p.pc == Acquire || p.pc == Done
  }

  /** What the checkpoints of an unowned thread decide about a claim, by the newest of the root namespace. */
  ghost predicate ClaimDecision(marks: seq<Mark>, assistant: string, accepted: bool, owner: Option<string>) {
    && (forall i: nat :: NewestRoot(marks, i) ==>
          && (accepted <==> marks[i].assistant == None || marks[i].assistant == Some(assistant))
          && owner == if marks[i].assistant == None then Some(assistant) else marks[i].assistant)
    && ((forall i :: 0 <= i < |marks| ==> !marks[i].root) ==> accepted && owner == Some(assistant))
  }

  lemma MarkerDecides(marks: seq<Mark>, assistant: string, accepted: bool, owner: Option<string>)
    requires var marker := DurableMarker(marks);
             && (accepted <==> marker == None || marker == Some(assistant))
             && owner == if marker == None then Some(assistant) else marker
    ensures ClaimDecision(marks, assistant, accepted, owner)
  {
    forall i: nat | NewestRoot(marks, i)
      ensures LatestRoot(marks) == Some(marks[i])
    {
      LatestRootIff(marks, marks[i]);
    }
    LatestRootIff(marks, Mark(true, None));
  }

  /**
   A run that starts to claim a recorded but unowned thread, with no competing
   claim in flight, from any state: after at most four of its own sections it is
   decided, and it is accepted exactly when the newest root checkpoint's marker is
   its own assistant or absent. Either way the durable owner is recorded.
   */
  lemma FreshClaim(capacity: nat, s: State, labels: seq<Label>, pid: nat)
    requires pid in s.procs && s.procs[pid].kind in {StreamRun, PlainRun} && !s.procs[pid].leased
    requires s.procs[pid].pc == AskStore
    requires s.procs[pid].thread in s.records && OwnerOf(s.records, s.procs[pid].thread) == None
    requires QuietRun(capacity, s, labels, pid)
    ensures var p, s' := s.procs[pid], RunFrom(capacity, s, labels);
            && pid in s'.procs
            && (OwnSections(labels, pid) >= 4 ==> Decided(s'.procs[pid]))
            && (Decided(s'.procs[pid]) ==>
                  ClaimDecision(MarksOf(s, p.thread), p.assistant, s'.procs[pid].pc == Acquire,
                                OwnerOf(s'.records, p.thread)))
  {
    var p, s' := s.procs[pid], RunFrom(capacity, s, labels);
    QuietRunClaiming(capacity, s, labels, pid, DurableMarker(MarksOf(s, p.thread)));
    if Decided(s'.procs[pid]) {
      MarkerDecides(MarksOf(s, p.thread), p.assistant, s'.procs[pid].pc == Acquire, OwnerOf(s'.records, p.thread));
    }
  }
}
