/**
 The condition under which a record may be forgotten is not only that of an
 invariant. A removal that violates it, in any state that respects it so far, can
 be continued to a state in which one thread has checkpoints of two assistants.
 */
module OwnershipCondition {
  import opened Items
  import opened ThreadStore
  import opened ServerProtocol
  import opened LeaseSafety
  import opened OwnershipSafety
  import opened Scenarios

  // ---------- continuing from a state ----------

  /** The labels lead to the state, from one in which all reservations are in order. */
  ghost predicate Stands(capacity: nat, from: State, labels: seq<Label>, s: State) {
    LeaseInv(capacity, from) && LeadsTo(capacity, Anything, from, labels, s)
  }

  lemma {:induction false} ReachKeepsLeases(capacity: nat, from: State, labels: seq<Label>)
    requires LeaseInv(capacity, from)
    ensures LeaseInv(capacity, Reach(capacity, from, labels))
  {
    if labels != [] {
      ReachKeepsLeases(capacity, from, labels[..|labels| - 1]);
      StepKeepsLeases(capacity, Reach(capacity, from, labels[..|labels| - 1]), labels[|labels| - 1]);
    }
  }

  lemma Take(capacity: nat, from: State, labels: seq<Label>, s: State, l: Label)
    returns (longer: seq<Label>, s': State)
    requires Stands(capacity, from, labels, s)
    ensures Stands(capacity, from, longer, s') && s' == Step(capacity, s, l)
  {
    longer := Then(capacity, Anything, from, labels, s, l);
    s' := Step(capacity, s, l);
  }

  lemma {:induction false} PidBound(pids: set<nat>) returns (bound: nat)
    ensures forall pid :: pid in pids ==> pid < bound
  {
    if pids == {} {
      bound := 0;
    } else {
      var pid :| pid in pids;
      var others := PidBound(pids - {pid});
      bound := if pid < others then others else pid + 1;
      assert forall other :: other in pids ==> other == pid || other in pids - {pid};
    }
  }

  /** There is a place in the coordinator's table for the thread, or the thread itself takes one. */
  predicate Room(capacity: nat, s: State, t: string) {
    |s.active| < capacity || t in s.active
  }

  /** A request other than the thread's holder is as it was. */
  ghost predicate KeepsOthers(s: State, s': State, t: string) {
    forall q :: q in s.procs && !(t in s.active && s.active[t] == q) ==> q in s'.procs && s'.procs[q] == s.procs[q]
  }

  // ---------- the holder of a thread gives it back ----------

  lemma ReleasingFrees(capacity: nat, s: State, q: nat)
    requires LeaseInv(capacity, s) && q in s.procs && Holds(s.procs[q]) && s.procs[q].pc == Releasing
    ensures Step(capacity, s, Next(q))
         == Goto(s, q, s.procs[q].(pc := Done)).(active := s.active - {s.procs[q].thread})
  {
  }

  lemma BackgroundFrees(capacity: nat, s: State, q: nat)
    requires LeaseInv(capacity, s) && q in s.procs && Holds(s.procs[q])
    requires s.procs[q].kind in {StreamRun, StatelessRun}
    ensures Step(capacity, s, Background(q))
         == Goto(s, q, s.procs[q].(pc := Done)).(active := s.active - {s.procs[q].thread})
  {
  }

  lemma FailureReleases(capacity: nat, s: State, q: nat)
    requires LeaseInv(capacity, s) && q in s.procs && Holds(s.procs[q]) && s.procs[q].pc != Releasing
    requires s.procs[q].kind !in {StreamRun, StatelessRun}
    ensures Step(capacity, s, Fail(q)) == Goto(s, q, s.procs[q].(pc := Releasing))
  {
    assert WellPlaced(s.procs[q]);
  }

  lemma Freed(capacity: nat, s: State, t: string, p: Proc, s': State)
    requires LeaseInv(capacity, s) && t in s.active
    requires s' == Goto(s, s.active[t], p).(active := s.active - {t})
    ensures t !in s'.active && |s'.active| < |s.active| && KeepsOthers(s, s', t)
  {
    assert s'.active.Keys == s.active.Keys - {t};
  }

  lemma ReachRelease(capacity: nat, from: State, labels: seq<Label>, s: State, q: nat)
    returns (longer: seq<Label>, s': State)
    requires Stands(capacity, from, labels, s) && LeaseInv(capacity, s) && q in s.procs && Holds(s.procs[q])
    requires s.procs[q].kind !in {StreamRun, StatelessRun}
    ensures Stands(capacity, from, longer, s') && LeaseInv(capacity, s')
    ensures s' == Goto(s, q, s.procs[q].(pc := Releasing))
  {
    if s.procs[q].pc == Releasing {
      longer, s' := labels, s;
      assert s.procs[q := s.procs[q]] == s.procs;
    } else {
      FailureReleases(capacity, s, q);
      longer, s' := Take(capacity, from, labels, s, Fail(q));
      StepKeepsLeases(capacity, s, Fail(q));
    }
  }

  lemma ReleaseHeld(capacity: nat, from: State, labels: seq<Label>, s: State, q: nat)
    returns (longer: seq<Label>, s': State)
    requires Stands(capacity, from, labels, s) && LeaseInv(capacity, s) && q in s.procs && Holds(s.procs[q])
    requires s.procs[q].kind !in {StreamRun, StatelessRun}
    ensures Stands(capacity, from, longer, s')
    ensures s' == Goto(s, q, s.procs[q].(pc := Done)).(active := s.active - {s.procs[q].thread})
  {
    var released;
    longer, released := ReachRelease(capacity, from, labels, s, q);
    ReleasedFrees(capacity, s, q, released);
    longer, s' := Take(capacity, from, longer, released, Next(q));
  }

  lemma ReleasedFrees(capacity: nat, s: State, q: nat, released: State)
    requires LeaseInv(capacity, released) && q in s.procs && Holds(s.procs[q])
    requires released == Goto(s, q, s.procs[q].(pc := Releasing))
    ensures Step(capacity, released, Next(q))
         == Goto(s, q, s.procs[q].(pc := Done)).(active := s.active - {s.procs[q].thread})
  {
    ReleasingFrees(capacity, released, q);
    assert s.procs[q := s.procs[q].(pc := Releasing)][q := s.procs[q].(pc := Done)]
        == s.procs[q := s.procs[q].(pc := Done)];
  }

  lemma FreeHeld(capacity: nat, from: State, labels: seq<Label>, s: State, q: nat)
    returns (longer: seq<Label>, s': State)
    requires Stands(capacity, from, labels, s) && LeaseInv(capacity, s) && q in s.procs && Holds(s.procs[q])
    ensures Stands(capacity, from, longer, s')
    ensures s' == Goto(s, q, s.procs[q].(pc := Done)).(active := s.active - {s.procs[q].thread})
  {
    if s.procs[q].kind in {StreamRun, StatelessRun} {
      BackgroundFrees(capacity, s, q);
      longer, s' := Take(capacity, from, labels, s, Background(q));
    } else {
      longer, s' := ReleaseHeld(capacity, from, labels, s, q);
    }
  }

  /** The thread can be freed without a change to records, checkpoints or other requests. */
  lemma FreeThread(capacity: nat, from: State, labels: seq<Label>, s: State, t: string)
    returns (longer: seq<Label>, s': State)
    requires Stands(capacity, from, labels, s) && Room(capacity, s, t)
    ensures Stands(capacity, from, longer, s')
    ensures s'.records == s.records && s'.marks == s.marks && s'.generated == s.generated
    ensures t !in s'.active && |s'.active| < capacity && KeepsOthers(s, s', t)
  {
    ReachKeepsLeases(capacity, from, labels);
    longer, s' := labels, s;
    if t in s.active {
      longer, s' := FreeHeld(capacity, from, labels, s, s.active[t]);
      Freed(capacity, s, t, s.procs[s.active[t]].(pc := Done), s');
    }
  }

  // ---------- what a fresh request can do ----------

  /** A fresh run claims an unrecorded thread for any assistant when no lookup finds a checkpoint. */
  lemma ClaimFresh(capacity: nat, from: State, labels: seq<Label>, s: State, t: string, b: string)
    returns (longer: seq<Label>, s': State)
    requires Stands(capacity, from, labels, s) && t !in s.records && t !in s.generated
    requires LatestRoot(MarksOf(s, t)) == None
    ensures Stands(capacity, from, longer, s') && OwnerOf(s'.records, t) == Some(b)
    ensures s'.marks == s.marks && s'.active == s.active && s'.generated == s.generated
    ensures forall q :: q in s.procs ==> q in s'.procs && s'.procs[q] == s.procs[q]
  {
    var pid := PidBound(s.procs.Keys);
    var p := Proc(PlainRun, t, b, false, Look);
    longer := ClaimAlone(capacity, Anything, from, labels, s, pid, p);
    s' := At(s, pid, p.(pc := Acquire), s.active, s.records[t := Owned(t, Some(b))], s.marks);
  }

  /** A fresh request records a thread without an owner. */
  lemma RecordFresh(capacity: nat, from: State, labels: seq<Label>, s: State, t: string)
    returns (longer: seq<Label>, s': State)
    requires Stands(capacity, from, labels, s) && t !in s.records && t !in s.generated
    ensures Stands(capacity, from, longer, s') && t in s'.records && OwnerOf(s'.records, t) == None
    ensures s'.marks == s.marks && s'.active == s.active && s'.generated == s.generated
    ensures forall q :: q in s.procs ==> q in s'.procs && s'.procs[q] == s.procs[q]
  {
    var pid := PidBound(s.procs.Keys);
    var p := Proc(ResolveThread, t, "", false, Look);
    longer := ResolveAlone(capacity, Anything, from, labels, s, pid, p);
    s' := At(s, pid, p.(pc := Done), s.active, s.records[t := Owned(t, None)], s.marks);
  }

  lemma OwnerStarts(capacity: nat, from: State, labels: seq<Label>, s: State, pid: nat, p: Proc)
    returns (longer: seq<Label>)
    requires Stands(capacity, from, labels, s) && pid !in s.procs && p.thread !in s.generated
    requires p == Proc(PlainRun, p.thread, p.assistant, false, Look) && p.thread in s.records
    ensures Stands(capacity, from, longer, At(s, pid, p.(pc := AskStore), s.active, s.records, s.marks))
  {
    longer := Then(capacity, Anything, from, labels, s, Start(pid, PlainRun, p.thread, p.assistant, false));
    assert s.generated + {} == s.generated;
    longer := ThenNext(capacity, Anything, from, longer, s, pid, p, s.active, s.records, s.marks);
  }

  /** A fresh run of the recorded owner gets as far as the lease. */
  lemma OwnerAsks(capacity: nat, from: State, labels: seq<Label>, s: State, pid: nat, p: Proc)
    returns (longer: seq<Label>)
    requires Stands(capacity, from, labels, s) && pid !in s.procs && p.thread !in s.generated
    requires p == Proc(PlainRun, p.thread, p.assistant, false, Look)
    requires OwnerOf(s.records, p.thread) == Some(p.assistant)
    ensures Stands(capacity, from, longer, At(s, pid, p.(pc := Acquire), s.active, s.records, s.marks))
  {
    var claiming := p.(pc := Claim(Some(p.assistant)));
    longer := OwnerStarts(capacity, from, labels, s, pid, p);
    longer := ThenNext(capacity, Anything, from, longer, s, pid, p.(pc := AskStore), s.active, s.records, s.marks);
    longer := ThenNext(capacity, Anything, from, longer, s, pid, claiming, s.active, s.records, s.marks);
    assert ClaimStep(s.records, p.thread, p.assistant) == s.records;
  }

  /** It gets a free lease and writes. */
  lemma OwnerWrites(capacity: nat, from: State, labels: seq<Label>, s: State, t: string, m: string)
    returns (longer: seq<Label>, s': State)
    requires Stands(capacity, from, labels, s) && t !in s.generated && OwnerOf(s.records, t) == Some(m)
    requires t !in s.active && |s.active| < capacity
    ensures Stands(capacity, from, longer, s')
    ensures MarksOf(s', t) == MarksOf(s, t) + [Mark(true, Some(m))]
  {
    var pid := PidBound(s.procs.Keys);
    var p := Proc(PlainRun, t, m, false, Look);
    longer := OwnerAsks(capacity, from, labels, s, pid, p);
    longer := ThenNext(capacity, Anything, from, longer, s, pid, p.(pc := Acquire), s.active, s.records, s.marks);
    var working := At(s, pid, p.(leased := true, pc := Work), s.active[t := pid], s.records, s.marks);
    longer, s' := Take(capacity, from, longer, working, WriteCheckpoint(pid, true));
  }

  // ---------- from a contradicting owner to two assistants ----------

  ghost predicate TwoAssistants(marks: seq<Mark>) {
    exists i, j :: 0 <= i < |marks| && 0 <= j < |marks| && Differ(marks[i].assistant, marks[j].assistant)
  }

  predicate Differ(a: Option<string>, b: Option<string>) {
    a.Some? && b.Some? && a != b
  }

  /** The recorded owner is `m`, and a checkpoint is `a`'s. */
  ghost predicate Contradicts(s: State, t: string, a: string, m: string) {
    a != m && t !in s.generated && OwnerOf(s.records, t) == Some(m)
    && exists i :: 0 <= i < |MarksOf(s, t)| && MarksOf(s, t)[i].assistant == Some(a)
  }

  lemma ContradictionSpreads(capacity: nat, from: State, labels: seq<Label>, s: State, t: string, a: string, m: string)
    returns (longer: seq<Label>)
    requires Stands(capacity, from, labels, s) && Room(capacity, s, t) && Contradicts(s, t, a, m)
    ensures TwoAssistants(MarksOf(Reach(capacity, from, longer), t))
  {
    var free, s';
    longer, free := FreeThread(capacity, from, labels, s, t);
    longer, s' := OwnerWrites(capacity, from, longer, free, t, m);
    var marks := MarksOf(s, t);
    var i :| 0 <= i < |marks| && marks[i].assistant == Some(a);
    assert MarksOf(free, t) == marks;
    assert Differ(MarksOf(s', t)[i].assistant, MarksOf(s', t)[|marks|].assistant);
  }

  // ---------- the three ways to rely on a record ----------

  /** No lookup finds the owner: a fresh run claims the thread for another assistant. */
  lemma UnfoundOwner(capacity: nat, s: State, t: string, a: string, b: string) returns (labels: seq<Label>)
    requires LeaseInv(capacity, s) && Room(capacity, s, t) && t !in s.records && t !in s.generated
    requires MarksOf(s, t) != [] && MarksOf(s, t)[0].assistant == Some(a) && LatestRoot(MarksOf(s, t)) == None
    requires a != b
    ensures TwoAssistants(MarksOf(Reach(capacity, s, labels), t))
  {
    var s' := s;
    assert Stands(capacity, s, [], s);
    labels, s' := ClaimFresh(capacity, s, [], s, t, b);
    assert MarksOf(s', t)[0].assistant == Some(a);
    labels := ContradictionSpreads(capacity, s, labels, s', t, a, b);
  }

  /** The assistant for which the request is about to claim the thread. */
  function Claimant(p: Proc): Option<string> {
    match p.pc
    case Adopt(m) => Some(m)
    case Claim(existing) => if existing.Some? && existing.value != p.assistant then None else Some(p.assistant)
    case _ => None
  }

  lemma ClaimTakes(capacity: nat, s: State, q: nat)
    requires q in s.procs && Claimant(s.procs[q]).Some?
    requires s.procs[q].thread in s.records && OwnerOf(s.records, s.procs[q].thread) == None
    ensures var s' := Step(capacity, s, Next(q));
            && OwnerOf(s'.records, s.procs[q].thread) == Claimant(s.procs[q])
            && s'.marks == s.marks && s'.active == s.active && s'.generated == s.generated
  {
  }

  /** A claim that the checkpoints contradict: the thread is recorded again, and the claim goes through. */
  lemma LateClaim(capacity: nat, s: State, t: string, q: nat, a: string, i: nat) returns (labels: seq<Label>)
    requires LeaseInv(capacity, s) && Room(capacity, s, t) && t !in s.records && t !in s.generated
    requires q in s.procs && s.procs[q].thread == t && Claimant(s.procs[q]).Some? && Claimant(s.procs[q]) != Some(a)
    requires i < |MarksOf(s, t)| && MarksOf(s, t)[i].assistant == Some(a)
    ensures TwoAssistants(MarksOf(Reach(capacity, s, labels), t))
  {
    var recorded, claimed := s, s;
    var m := Claimant(s.procs[q]).value;
    assert Stands(capacity, s, [], s);
    labels, recorded := RecordFresh(capacity, s, [], s, t);
    ClaimTakes(capacity, recorded, q);
    labels, claimed := Take(capacity, s, labels, recorded, Next(q));
    assert MarksOf(claimed, t) == MarksOf(s, t);
    labels := ContradictionSpreads(capacity, s, labels, claimed, t, a, m);
  }

  /** On its way from the lease to its work. */
  predicate Working(p: Proc) {
    p.pc == BusyRead || p.pc.BusyWrite? || p.pc == Work
  }

  lemma BusyStep(capacity: nat, s: State, q: nat, t: string)
    requires q in s.procs && Working(s.procs[q]) && s.procs[q].pc != Work
    ensures var p, s' := s.procs[q], Step(capacity, s, Next(q));
            && q in s'.procs && Working(s'.procs[q]) && s'.procs[q].pc != BusyRead
            && (p.pc.BusyWrite? ==> s'.procs[q].pc == Work)
            && s'.procs[q].thread == p.thread && s'.procs[q].assistant == p.assistant
            && OwnerOf(s'.records, t) == OwnerOf(s.records, t)
            && s'.generated == s.generated
  {
    OwnerAfter(s.records, s.procs[q], t);
  }

  lemma ToWork(capacity: nat, from: State, labels: seq<Label>, s: State, q: nat, t: string)
    returns (longer: seq<Label>, s': State)
    requires Stands(capacity, from, labels, s) && q in s.procs && Working(s.procs[q])
    ensures Stands(capacity, from, longer, s') && q in s'.procs && s'.procs[q].pc == Work
    ensures s'.procs[q].thread == s.procs[q].thread && s'.procs[q].assistant == s.procs[q].assistant
    ensures OwnerOf(s'.records, t) == OwnerOf(s.records, t) && s'.generated == s.generated
  {
    longer, s' := labels, s;
    if s'.procs[q].pc == BusyRead {
      BusyStep(capacity, s', q, t);
      longer, s' := Take(capacity, from, longer, s', Next(q));
    }
    if s'.procs[q].pc != Work {
      BusyStep(capacity, s', q, t);
      longer, s' := Take(capacity, from, longer, s', Next(q));
    }
  }

  /** A request at work writes for its assistant under another owner. */
  lemma WorkContradicts(capacity: nat, from: State, labels: seq<Label>, s: State, q: nat, t: string, b: string)
    returns (longer: seq<Label>)
    requires Stands(capacity, from, labels, s) && q in s.procs && Working(s.procs[q]) && s.procs[q].thread == t
    requires OwnerOf(s.records, t) == Some(b) && s.procs[q].assistant != b && t !in s.generated
    ensures TwoAssistants(MarksOf(Reach(capacity, from, longer), t))
  {
    var working, written := s, s;
    longer, working := ToWork(capacity, from, labels, s, q, t);
    var a := working.procs[q].assistant;
    longer, written := Take(capacity, from, longer, working, WriteCheckpoint(q, true));
    assert MarksOf(written, t)[|MarksOf(working, t)|].assistant == Some(a);
    ReachKeepsLeases(capacity, from, longer);
    assert WellPlaced(written.procs[q]) && Holds(written.procs[q]);
    longer := ContradictionSpreads(capacity, from, longer, written, t, a, b);
  }

  lemma LeaseTaken(capacity: nat, s: State, q: nat)
    requires q in s.procs && s.procs[q].pc == Acquire && s.procs[q].kind in {StreamRun, PlainRun}
    requires s.procs[q].thread !in s.active && |s.active| < capacity
    ensures var p, s' := s.procs[q], Step(capacity, s, Next(q));
            && q in s'.procs && Working(s'.procs[q])
            && s'.procs[q].thread == p.thread && s'.procs[q].assistant == p.assistant
            && s'.records == s.records && s'.generated == s.generated
  {
  }

  /** A claim made or a lease taken, and the checkpoints lost: another assistant claims the thread meanwhile. */
  lemma LateWork(capacity: nat, s: State, t: string, q: nat, b: string) returns (labels: seq<Label>)
    requires LeaseInv(capacity, s) && Room(capacity, s, t) && t !in s.records && t !in s.generated
    requires q in s.procs && s.procs[q].thread == t && s.procs[q].assistant != b
    requires Working(s.procs[q]) || (s.procs[q].pc == Acquire && s.procs[q].kind in {StreamRun, PlainRun})
    ensures TwoAssistants(MarksOf(Reach(capacity, s, labels), t))
  {
    var lost, owned := s, s;
    assert Stands(capacity, s, [], s);
    labels, lost := Take(capacity, s, [], s, LoseCheckpoints(t));
    labels, owned := ClaimFresh(capacity, s, labels, lost, t, b);
    if s.procs[q].pc == Acquire {
      assert WellPlaced(s.procs[q]);
      labels, owned := FreeThread(capacity, s, labels, owned, t);
      LeaseTaken(capacity, owned, q);
      labels, owned := Take(capacity, s, labels, owned, Next(q));
    }
    labels := WorkContradicts(capacity, s, labels, owned, q, t, b);
  }

  // ---------- every unsafe removal ----------

  /** Only an owned thread can be forgotten unsafely. */
  lemma UnsafeMeansOwned(s: State, t: string)
    requires DurableInv(s) && t !in s.generated && !SafeToForget(s, t)
    ensures OwnerOf(s.records, t).Some?
  {
    assert ThreadSound(s, t);
    AgreeWithoutOwner(MarksOf(s, t), OwnerOf(s.records, t));
    if OwnerOf(s.records, t) == None {
      var q :| q in s.procs && s.procs[q].thread == t && Relies(s.procs[q], MarksOf(s, t));
      assert ProcSound(s, s.procs[q]);
      SoundWithoutOwner(s.procs[q], MarksOf(s, t), None);
    }
  }

  lemma RecordGone(capacity: nat, s: State, l: Label)
    requires DurableInv(s) && Forgotten(s, l).Some?
    ensures var t, s' := Forgotten(s, l).value, Step(capacity, s, l);
            && t !in s'.records && t !in s.generated && s'.generated == s.generated
            && s'.marks == s.marks && s'.active == s.active
            && forall q :: q in s.procs && s.procs[q].pc != DeleteRecord ==> q in s'.procs && s'.procs[q] == s.procs[q]
  {
    if l.Next? {
      assert ProcSound(s, s.procs[l.pid]);
    }
  }

  /** In the state after the removal, by what relied on the record. */
  lemma ReliedUpon(capacity: nat, s: State, t: string, q: nat, a: string, b: string) returns (labels: seq<Label>)
    requires LeaseInv(capacity, s) && Room(capacity, s, t) && t !in s.records && t !in s.generated
    requires forall i :: 0 <= i < |MarksOf(s, t)| ==> MarksOf(s, t)[i].assistant == Some(a)
    requires q in s.procs && s.procs[q].thread == t && Relies(s.procs[q], MarksOf(s, t))
    requires Claimant(s.procs[q]) == None ==> s.procs[q].assistant == a
    requires a != b
    ensures TwoAssistants(MarksOf(Reach(capacity, s, labels), t))
  {
    if Claimant(s.procs[q]).Some? {
      var i :| 0 <= i < |MarksOf(s, t)| && MarksOf(s, t)[i].assistant != Claimant(s.procs[q]);
      labels := LateClaim(capacity, s, t, q, a, i);
    } else {
      labels := LateWork(capacity, s, t, q, b);
    }
  }

  lemma UnsafeRemoval(capacity: nat, s: State, l: Label, b: string) returns (more: seq<Label>)
    requires LeaseInv(capacity, s) && DurableInv(s) && !ForgetsSafely(s, l)
    requires Room(capacity, s, Forgotten(s, l).value) && OwnerOf(s.records, Forgotten(s, l).value) != Some(b)
    ensures TwoAssistants(MarksOf(Reach(capacity, Step(capacity, s, l), more), Forgotten(s, l).value))
  {
    var t, s' := Forgotten(s, l).value, Step(capacity, s, l);
    RecordGone(capacity, s, l);
    StepKeepsLeases(capacity, s, l);
    UnsafeMeansOwned(s, t);
    assert ThreadSound(s, t) && MarksOf(s', t) == MarksOf(s, t);
    var a := OwnerOf(s.records, t).value;
    if MarksOf(s, t) != [] && LatestRoot(MarksOf(s, t)) == None {
      more := UnfoundOwner(capacity, s', t, a, b);
    } else {
      var q :| q in s.procs && s.procs[q].thread == t && Relies(s.procs[q], MarksOf(s, t));
      assert ProcSound(s, s.procs[q]) && s'.procs[q] == s.procs[q];
      more := ReliedUpon(capacity, s', t, q, a, b);
    }
  }

  /**
   After any run that forgets records only safely, and with room for the thread in
   the coordinator's table: the first unsafe removal can be continued so that the
   thread ends up with checkpoints of two assistants. Any assistant but its owner
   will do as the second one where a new run is needed.
   */
  lemma UnsafeForgettingCanBreak(capacity: nat, initial: Marks, labels: seq<Label>, l: Label, other: string)
    returns (more: seq<Label>)
    requires Consistent(initial) && ForgetsOnlySafely(capacity, initial, labels)
    requires !ForgetsSafely(Run(capacity, initial, labels), l)
    requires Room(capacity, Run(capacity, initial, labels), Forgotten(Run(capacity, initial, labels), l).value)
    requires var s := Run(capacity, initial, labels); OwnerOf(s.records, Forgotten(s, l).value) != Some(other)
    ensures var t := Forgotten(Run(capacity, initial, labels), l).value;
            TwoAssistants(MarksOf(Run(capacity, initial, labels + [l] + more), t))
  {
    RunKeepsLeases(capacity, initial, labels);
    RunDurable(capacity, initial, labels);
    more := UnsafeRemoval(capacity, Run(capacity, initial, labels), l, other);
    assert (labels + [l])[..|labels|] == labels;
    RunThenReach(capacity, initial, labels + [l], more);
  }
}
