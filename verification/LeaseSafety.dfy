/** Reservations: exclusive, bounded, and given back by every request. */
module LeaseSafety {
  import opened Coordination
  import opened ServerProtocol

  predicate Holds(p: Proc) {
    p.leased && p.pc != Done
  }

  /** These sections run only under the lease. */
  predicate UnderLease(pc: Pc) {
    match pc
    case BusyRead => true
    case BusyWrite(_) => true
    case Work => true
    case IdleRead => true
    case IdleWrite(_) => true
    case CleanUp => true
    case DeleteDurable => true
    case DeleteRecord => true
    case Releasing => true
    case _ => false
  }

  ghost predicate WellPlaced(p: Proc) {
    && (UnderLease(p.pc) ==> p.leased)
    && (p.leased ==> p.pc != Acquire)
    && (p.kind == ResolveThread ==> !p.leased && p.pc in {Exists, ExistsDurable, Look, Probe, Record, Done})
    && (p.pc in {Exists, ExistsDurable} ==> !p.leased)
    && (p.pc.Claim? ==> p.kind in {StreamRun, PlainRun} && !p.leased)
    && (p.pc.DeleteDurable? || p.pc.DeleteRecord? ==> p.kind == DeleteThread)
    && (p.pc in {BusyRead, IdleRead} || p.pc.BusyWrite? || p.pc.IdleWrite? ==> p.kind == StreamRun)
    && (p.kind == DeleteThread ==> p.pc in {Acquire, DeleteDurable, DeleteRecord, Releasing, Done})
    && (p.kind == StatelessRun ==> p.pc in {Acquire, Work, CleanUp, Releasing, Done})
    && (p.kind in {StreamRun, PlainRun} && p.leased ==> UnderLease(p.pc) || p.pc == Done)
    && (p.pc == CleanUp ==> p.kind == StatelessRun)
    && (p.kind == UpdateState ==> p.leased || p.pc in {Exists, ExistsDurable, Acquire, Done})
  }

  /** The reservations are exactly those of the requests that hold a lease. */
  ghost predicate LeasesMatch(capacity: nat, active: map<string, nat>, procs: map<nat, Proc>) {
    && |active| <= capacity
    && (forall t :: t in active ==> active[t] in procs && Holds(procs[active[t]]) && procs[active[t]].thread == t)
    && (forall q :: q in procs && Holds(procs[q]) ==> procs[q].thread in active && active[procs[q].thread] == q)
    && (forall q :: q in procs ==> WellPlaced(procs[q]))
  }

  ghost predicate LeaseInv(capacity: nat, s: State) {
    LeasesMatch(capacity, s.active, s.procs)
  }

  lemma {:induction false} RunKeepsLeases(capacity: nat, marks: Marks, labels: seq<Label>)
    ensures LeaseInv(capacity, Run(capacity, marks, labels))
  {
    if labels != [] {
      RunKeepsLeases(capacity, marks, labels[..|labels| - 1]);
      StepKeepsLeases(capacity, Run(capacity, marks, labels[..|labels| - 1]), labels[|labels| - 1]);
    }
  }

  lemma StepKeepsLeases(capacity: nat, s: State, l: Label)
    requires LeaseInv(capacity, s)
    ensures LeaseInv(capacity, Step(capacity, s, l))
  {
    match l
    case Start(_, _, _, _, _) => StepStart(capacity, s, l);
    case Next(pid) =>
      if pid in s.procs {
        AdvanceKeepsLeases(capacity, s, pid);
      }
    case Fail(pid) =>
      if pid in s.procs {
        FailurePlaced(s.procs[pid]);
        MoveKeepsLeases(capacity, s.active, s.procs, pid, AfterFailure(s.procs[pid]));
      }
    case Background(pid) => StepBackground(capacity, s, pid);
    case _ => OthersKeepTables(capacity, s, l);
  }

  lemma StepStart(capacity: nat, s: State, l: Label)
    requires LeaseInv(capacity, s) && l.Start?
    ensures LeaseInv(capacity, Step(capacity, s, l))
  {
    var p := Proc(l.kind, l.thread, l.assistant, false, FirstPc(l.kind, l.mustExist));
    StartPlaced(p, l.mustExist);
    if MayStart(s, l) {
      StartKeepsLeases(capacity, s.active, s.procs, l.pid, p);
    }
  }

  lemma StepBackground(capacity: nat, s: State, pid: nat)
    requires LeaseInv(capacity, s)
    ensures LeaseInv(capacity, Step(capacity, s, Background(pid)))
  {
    if pid in s.procs && s.procs[pid].leased {
      assert WellPlaced(s.procs[pid]);
      BackgroundPlaced(s.procs[pid]);
      ReleaseKeepsLeases(capacity, s.active, s.procs, pid, s.procs[pid].(pc := Done));
    }
  }

  lemma OthersKeepTables(capacity: nat, s: State, l: Label)
    requires l.WriteCheckpoint? || l.LoseRecord? || l.LoseCheckpoints?
    ensures Step(capacity, s, l).active == s.active && Step(capacity, s, l).procs == s.procs
  {
  }

  lemma StartPlaced(p: Proc, mustExist: bool)
    requires p.pc == FirstPc(p.kind, mustExist) && !p.leased
    ensures WellPlaced(p)
  {
  }

  lemma FailurePlaced(p: Proc)
    requires WellPlaced(p)
    ensures WellPlaced(AfterFailure(p)) && AfterFailure(p).thread == p.thread && (Holds(AfterFailure(p)) <==> Holds(p))
  {
  }

  lemma BackgroundPlaced(p: Proc)
    requires WellPlaced(p)
    ensures WellPlaced(p.(pc := Done))
  {
  }

  lemma StartKeepsLeases(capacity: nat, active: map<string, nat>, procs: map<nat, Proc>, pid: nat, p: Proc)
    requires LeasesMatch(capacity, active, procs)
    requires pid !in procs && !p.leased && WellPlaced(p)
    ensures LeasesMatch(capacity, active, procs[pid := p])
  {
  }

  /** A move within a program that neither takes nor gives back a lease. */
  lemma MoveKeepsLeases(capacity: nat, active: map<string, nat>, procs: map<nat, Proc>, pid: nat, p: Proc)
    requires LeasesMatch(capacity, active, procs)
    requires pid in procs && p.thread == procs[pid].thread && WellPlaced(p)
    requires Holds(p) <==> Holds(procs[pid])
    ensures LeasesMatch(capacity, active, procs[pid := p])
  {
  }

  lemma AcquireKeepsLeases(capacity: nat, active: map<string, nat>, procs: map<nat, Proc>, pid: nat, p: Proc)
    requires LeasesMatch(capacity, active, procs)
    requires pid in procs && p.thread == procs[pid].thread && WellPlaced(p) && Holds(p) && !Holds(procs[pid])
    requires Decide(active, capacity, p.thread) == Granted
    ensures LeasesMatch(capacity, AcquireStep(active, capacity, p.thread, pid), procs[pid := p])
  {
  }

  lemma ReleaseKeepsLeases(capacity: nat, active: map<string, nat>, procs: map<nat, Proc>, pid: nat, p: Proc)
    requires LeasesMatch(capacity, active, procs)
    requires pid in procs && p.thread == procs[pid].thread && WellPlaced(p) && !Holds(p)
    ensures LeasesMatch(capacity, ReleaseStep(active, p.thread, pid), procs[pid := p])
  {
    if Holds(procs[pid]) {
      RemovalKeepsLeases(capacity, active, procs, pid, p, active - {p.thread});
    } else {
      MoveKeepsLeases(capacity, active, procs, pid, p);
    }
  }

  /** The holder gives its reservation back; all others stay. */
  lemma RemovalKeepsLeases(capacity: nat, active: map<string, nat>, procs: map<nat, Proc>, pid: nat, p: Proc,
                           rest: map<string, nat>)
    requires LeasesMatch(capacity, active, procs)
    requires pid in procs && p.thread == procs[pid].thread && WellPlaced(p) && !Holds(p) && Holds(procs[pid])
    requires rest == active - {p.thread}
    ensures LeasesMatch(capacity, rest, procs[pid := p])
  {
    assert rest.Keys == active.Keys - {p.thread};
    assert |rest.Keys| <= |active.Keys|;
    assert forall t :: t in rest ==> rest[t] == active[t] && active[t] != pid;
  }

  /** Where a request stands after its next section. */
  lemma NextProcPlaced(capacity: nat, s: State, p: Proc)
    requires WellPlaced(p)
    ensures var p' := NextProc(capacity, s, p);
            && WellPlaced(p') && p'.thread == p.thread && p'.kind == p.kind
            && (p.pc != Acquire && p.pc != Releasing ==> (Holds(p') <==> Holds(p)))
            && (p.pc == Acquire ==> !Holds(p) && (Holds(p') <==> Decide(s.active, capacity, p.thread) == Granted))
            && (p.pc == Releasing ==> !Holds(p'))
  {
  }

  lemma ActiveAfter(capacity: nat, s: State, pid: nat, p: Proc)
    ensures NextActive(capacity, s.active, pid, p) ==
              if p.pc == Acquire then AcquireStep(s.active, capacity, p.thread, pid)
              else if p.pc == Releasing then ReleaseStep(s.active, p.thread, pid)
              else s.active
  {
  }

  lemma AdvanceKeepsLeases(capacity: nat, s: State, pid: nat)
    requires LeaseInv(capacity, s) && pid in s.procs
    ensures LeaseInv(capacity, Advance(capacity, s, pid))
  {
    var p := s.procs[pid];
    var p' := NextProc(capacity, s, p);
    assert WellPlaced(p);
    NextProcPlaced(capacity, s, p);
    ActiveAfter(capacity, s, pid, p);
    if p.pc == Acquire && Decide(s.active, capacity, p.thread) == Granted {
      AcquireKeepsLeases(capacity, s.active, s.procs, pid, p');
    } else if p.pc == Releasing {
      ReleaseKeepsLeases(capacity, s.active, s.procs, pid, p');
    } else {
      MoveKeepsLeases(capacity, s.active, s.procs, pid, p');
    }
  }

  // ---------- what follows for requests ----------

  /** Two requests never hold the same thread at the same time. */
  lemma Exclusive(capacity: nat, marks: Marks, labels: seq<Label>, p: nat, q: nat)
    requires var s := Run(capacity, marks, labels);
             && p in s.procs && Holds(s.procs[p]) && q in s.procs && Holds(s.procs[q])
             && s.procs[p].thread == s.procs[q].thread
    ensures p == q
  {
    RunKeepsLeases(capacity, marks, labels);
  }

  ghost function Holders(s: State): set<nat> {
    set q | q in s.procs && Holds(s.procs[q])
  }

  /** The coordinator's table is the set of unfinished leaseholders, never more than the capacity. */
  lemma ActiveIsHolders(capacity: nat, marks: Marks, labels: seq<Label>)
    ensures var s := Run(capacity, marks, labels);
            && s.active.Values == Holders(s)
            && |Holders(s)| == |s.active| <= capacity
            && ((forall q :: q in s.procs ==> s.procs[q].pc == Done) ==> s.active == map[])
  {
    var s := Run(capacity, marks, labels);
    RunKeepsLeases(capacity, marks, labels);
    InjectiveSize(s.active);
  }

  lemma {:induction false} InjectiveSize(m: map<string, nat>)
    requires forall t, u :: t in m && u in m && m[t] == m[u] ==> t == u
    ensures |m.Values| == |m|
    decreases |m|
  {
    if m == map[] {
      assert m.Values == {};
    } else {
      var t :| t in m;
      var rest := m - {t};
      assert rest.Keys == m.Keys - {t};
      InjectiveSize(rest);
      forall v | v in m.Values
        ensures v in rest.Values + {m[t]}
      {
        var u :| u in m && m[u] == v;
        assert u == t || u in rest;
      }
      assert m.Values == rest.Values + {m[t]};
    }
  }

  /** The holder's own release: the last section of its program, or its background task. */
  predicate OwnRelease(s: State, l: Label, pid: nat) {
    l == Background(pid) || (l == Next(pid) && pid in s.procs && s.procs[pid].pc == Releasing)
  }

  /** No other step ends a reservation. */
  lemma EndsByOwnRelease(capacity: nat, marks: Marks, labels: seq<Label>, l: Label, pid: nat)
    requires pid in Run(capacity, marks, labels).active.Values
    requires !OwnRelease(Run(capacity, marks, labels), l, pid)
    ensures pid in Step(capacity, Run(capacity, marks, labels), l).active.Values
  {
    var s := Run(capacity, marks, labels);
    RunKeepsLeases(capacity, marks, labels);
    var t :| t in s.active && s.active[t] == pid;
    OthersKeepReservations(capacity, s, l, t);
  }

  lemma OthersKeepReservations(capacity: nat, s: State, l: Label, t: string)
    requires LeaseInv(capacity, s) && t in s.active && !OwnRelease(s, l, s.active[t])
    ensures var s' := Step(capacity, s, l);
            t in s'.active && s'.active[t] == s.active[t]
  {
    match l
    case Next(pid) =>
      if pid in s.procs {
        NextKeepsReservations(capacity, s, pid, t);
      }
    case Background(pid) => BackgroundKeepsReservations(capacity, s, pid, t);
    case _ =>
  }

  lemma NextKeepsReservations(capacity: nat, s: State, pid: nat, t: string)
    requires pid in s.procs && t in s.active && !(s.active[t] == pid && s.procs[pid].pc == Releasing)
    ensures var active := NextActive(capacity, s.active, pid, s.procs[pid]);
            t in active && active[t] == s.active[t]
  {
  }

  lemma BackgroundKeepsReservations(capacity: nat, s: State, pid: nat, t: string)
    requires t in s.active && s.active[t] != pid
    ensures var s' := Step(capacity, s, Background(pid));
            t in s'.active && s'.active[t] == s.active[t]
  {
  }

  lemma RunMore(capacity: nat, marks: Marks, labels: seq<Label>, more: seq<Label>)
    requires more != []
    ensures Run(capacity, marks, labels + more)
         == Step(capacity, Run(capacity, marks, labels + more[..|more| - 1]), more[|more| - 1])
  {
    assert (labels + more)[..|labels + more| - 1] == labels + more[..|more| - 1];
  }

  /** A request that gave its lease back never has a reservation again, whatever releases follow. */
  lemma GivenBackForGood(capacity: nat, marks: Marks, labels: seq<Label>, more: seq<Label>, pid: nat)
    requires pid in Run(capacity, marks, labels).procs
    requires Run(capacity, marks, labels).procs[pid].leased && !Holds(Run(capacity, marks, labels).procs[pid])
    ensures var s := Run(capacity, marks, labels + more);
            && pid in s.procs && s.procs[pid].leased && !Holds(s.procs[pid])
            && pid !in s.active.Values
  {
    DoneForGood(capacity, marks, labels, more, pid);
    NotHolding(capacity, marks, labels + more, pid);
  }

  lemma {:induction false} DoneForGood(capacity: nat, marks: Marks, labels: seq<Label>, more: seq<Label>, pid: nat)
    requires pid in Run(capacity, marks, labels).procs && Run(capacity, marks, labels).procs[pid].pc == Done
    ensures pid in Run(capacity, marks, labels + more).procs
    ensures Run(capacity, marks, labels + more).procs[pid] == Run(capacity, marks, labels).procs[pid]
  {
    if more == [] {
      assert labels + more == labels;
    } else {
      DoneForGood(capacity, marks, labels, more[..|more| - 1], pid);
      RunMore(capacity, marks, labels, more);
      DoneStaysDone(capacity, Run(capacity, marks, labels + more[..|more| - 1]), more[|more| - 1], pid);
    }
  }

  lemma NotHolding(capacity: nat, marks: Marks, labels: seq<Label>, pid: nat)
    requires pid in Run(capacity, marks, labels).procs && !Holds(Run(capacity, marks, labels).procs[pid])
    ensures pid !in Run(capacity, marks, labels).active.Values
  {
    RunKeepsLeases(capacity, marks, labels);
  }

  lemma DoneStaysDone(capacity: nat, s: State, l: Label, pid: nat)
    requires pid in s.procs && s.procs[pid].pc == Done
    ensures pid in Step(capacity, s, l).procs && Step(capacity, s, l).procs[pid] == s.procs[pid]
  {
  }
}
