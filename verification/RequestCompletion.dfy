/** Every request finishes after a bounded number of its own sections, and then holds nothing. */
module RequestCompletion {
  import opened Items
  import opened ServerProtocol
  import opened LeaseSafety

  const MAX_SECTIONS: nat := 24

  function Position(pc: Pc): nat {
    match pc
    case Exists => 16
    case ExistsDurable => 15
    case Look => 14
    case Probe => 13
    case Record => 12
    case AskStore => 11
    case AskDurable => 10
    case Adopt(_) => 9
    case Claim(_) => 8
    case Acquire => 7
    case BusyRead => 6
    case BusyWrite(_) => 5
    case Work => 4
    case IdleRead => 3
    case IdleWrite(_) => 2
    case CleanUp => 2
    case DeleteDurable => 3
    case DeleteRecord => 2
    case Releasing => 1
    case Done => 0
  }

  /** How many sections are still to come at most. A state update resolves its thread after it got the lease. */
  function Remaining(p: Proc): (n: nat)
    ensures n <= MAX_SECTIONS
    ensures n == 0 <==> p.pc == Done
  {
    if p.pc == Done then 0 else Position(p.pc) + if p.leased then 0 else 8
  }

  /** The sections of one request in a run. */
  function OwnSections(labels: seq<Label>, pid: nat): nat {
    if labels == [] then 0
    else OwnSections(labels[..|labels| - 1], pid) + if labels[|labels| - 1] == Next(pid) then 1 else 0
  }

  lemma SectionShortens(capacity: nat, s: State, p: Proc)
    requires WellPlaced(p) && p.pc != Done
    ensures Remaining(NextProc(capacity, s, p)) < Remaining(p)
  {
  }

  lemma FailureShortens(p: Proc)
    requires WellPlaced(p)
    ensures Remaining(AfterFailure(p)) <= Remaining(p)
  {
  }

  /** Its own sections bring a request closer to its end, and nothing takes it further away. */
  lemma StepShortens(capacity: nat, s: State, l: Label, pid: nat)
    requires LeaseInv(capacity, s) && pid in s.procs
    ensures var s' := Step(capacity, s, l);
            && pid in s'.procs && Remaining(s'.procs[pid]) <= Remaining(s.procs[pid])
            && (l == Next(pid) && s.procs[pid].pc != Done ==> Remaining(s'.procs[pid]) < Remaining(s.procs[pid]))
  {
    var p := s.procs[pid];
    assert WellPlaced(p);
    if l == Next(pid) {
      if p.pc != Done {
        SectionShortens(capacity, s, p);
      }
    } else if l == Fail(pid) {
      FailureShortens(p);
    } else if l != Background(pid) {
      OthersKeepProc(capacity, s, l, pid);
    }
  }

  lemma OthersKeepProc(capacity: nat, s: State, l: Label, pid: nat)
    requires pid in s.procs && l != Next(pid) && l != Fail(pid) && l != Background(pid)
    ensures pid in Step(capacity, s, l).procs && Step(capacity, s, l).procs[pid] == s.procs[pid]
  {
  }

  lemma {:induction false} RunShortens(capacity: nat, marks: Marks, labels: seq<Label>, more: seq<Label>, pid: nat)
    requires pid in Run(capacity, marks, labels).procs
    ensures var before, s := Run(capacity, marks, labels), Run(capacity, marks, labels + more);
            && pid in s.procs
            && (s.procs[pid].pc == Done
                || Remaining(s.procs[pid]) + OwnSections(more, pid) <= Remaining(before.procs[pid]))
  {
    if more == [] {
      assert labels + more == labels;
    } else {
      var earlier := more[..|more| - 1];
      RunShortens(capacity, marks, labels, earlier, pid);
      RunKeepsLeases(capacity, marks, labels + earlier);
      RunMore(capacity, marks, labels, more);
      StepShortens(capacity, Run(capacity, marks, labels + earlier), more[|more| - 1], pid);
    }
  }

  /**
   On every path, through success, rejection, failure or early release, a request
   is done after a bounded number of its own sections, and its reservation is gone.
   */
  lemma EveryRequestFinishes(capacity: nat, marks: Marks, labels: seq<Label>, more: seq<Label>, pid: nat)
    requires pid in Run(capacity, marks, labels).procs
    requires OwnSections(more, pid) >= MAX_SECTIONS
    ensures var s := Run(capacity, marks, labels + more);
            pid in s.procs && s.procs[pid].pc == Done && pid !in s.active.Values
  {
    RunShortens(capacity, marks, labels, more, pid);
    NotHolding(capacity, marks, labels + more, pid);
  }

  // ---------- the existence check ----------

  /** The thread has neither a record nor a checkpoint in the root namespace. */
  ghost predicate Unknown(s: State, t: string) {
    t !in s.records && forall i :: 0 <= i < |MarksOf(s, t)| ==> !MarksOf(s, t)[i].root
  }

  /** The request asks for a thread that exists: a state update, or a request that says so. */
  predicate AsksForExisting(l: Label) {
    l.Start? && (l.kind == UpdateState || (l.mustExist && l.kind in {StreamRun, PlainRun, ResolveThread}))
  }

  /** It is still at the check, or has been turned away by it. */
  predicate NotPast(p: Proc) {
    !p.leased && (p.pc == Exists || p.pc == ExistsDurable || p.pc == Done)
  }

  lemma CheckFails(capacity: nat, s: State, pid: nat)
    requires pid in s.procs && NotPast(s.procs[pid]) && Unknown(s, s.procs[pid].thread)
    ensures var p' := NextProc(capacity, s, s.procs[pid]); NotPast(p') && p'.thread == s.procs[pid].thread
  {
    LatestRootIff(MarksOf(s, s.procs[pid].thread), Mark(true, None));
  }

  lemma UnknownStep(capacity: nat, s: State, l: Label, pid: nat)
    requires pid in s.procs && NotPast(s.procs[pid]) && Unknown(s, s.procs[pid].thread)
    ensures var s' := Step(capacity, s, l);
            pid in s'.procs && NotPast(s'.procs[pid]) && s'.procs[pid].thread == s.procs[pid].thread
  {
    if l == Next(pid) {
      CheckFails(capacity, s, pid);
    } else if l != Fail(pid) && l != Background(pid) {
      OthersKeepProc(capacity, s, l, pid);
    }
  }

  /**
   As long as its thread stays unknown, such a request never gets past the check: it
   takes no lease, records, claims, writes and deletes nothing, and only reads.
   */
  lemma {:induction false} UnknownThreadEnds(
    capacity: nat, marks: Marks, labels: seq<Label>, start: Label, more: seq<Label>)
    requires AsksForExisting(start) && MayStart(Run(capacity, marks, labels), start)
    requires forall i :: 0 <= i <= |more| ==> Unknown(Run(capacity, marks, labels + [start] + more[..i]), start.thread)
    ensures var s := Run(capacity, marks, labels + [start] + more);
            start.pid in s.procs && NotPast(s.procs[start.pid]) && s.procs[start.pid].thread == start.thread
  {
    if more == [] {
      assert labels + [start] + more == labels + [start];
      assert (labels + [start])[..|labels|] == labels;
    } else {
      var earlier := more[..|more| - 1];
      assert forall i :: 0 <= i <= |earlier| ==> earlier[..i] == more[..i];
      UnknownThreadEnds(capacity, marks, labels, start, earlier);
      assert more[..|earlier|] == earlier;
      RunMore(capacity, marks, labels + [start], more);
      UnknownStep(capacity, Run(capacity, marks, labels + [start] + earlier), more[|more| - 1], start.pid);
    }
  }

  /** At the check nothing is taken or changed. */
  lemma NotPastChangesNothing(capacity: nat, s: State, pid: nat)
    requires pid in s.procs && NotPast(s.procs[pid])
    ensures var s' := Step(capacity, s, Next(pid));
            s'.active == s.active && s'.records == s.records && s'.marks == s.marks
    ensures Step(capacity, s, WriteCheckpoint(pid, true)) == s && Step(capacity, s, WriteCheckpoint(pid, false)) == s
  {
  }

  lemma StartedAtCheck(capacity: nat, s: State, start: Label)
    requires AsksForExisting(start) && MayStart(s, start)
    ensures var s' := Step(capacity, s, start);
            && start.pid in s'.procs && s'.records == s.records
            && s'.procs[start.pid] == Proc(start.kind, start.thread, start.assistant, false, Exists)
  {
  }

  lemma PassesCheck(capacity: nat, s: State, pid: nat)
    requires pid in s.procs && s.procs[pid].pc == Exists && s.procs[pid].thread in s.records
    ensures var s' := Step(capacity, s, Next(pid));
            && pid in s'.procs
            && s'.procs[pid] == s.procs[pid].(pc := if s.procs[pid].kind == UpdateState then Acquire else Look)
  {
  }

  /** A request for a recorded thread passes the check: an update goes on to the lease, all others to the record. */
  lemma KnownThreadPasses(capacity: nat, marks: Marks, labels: seq<Label>, start: Label)
    requires AsksForExisting(start) && MayStart(Run(capacity, marks, labels), start)
    requires start.thread in Run(capacity, marks, labels).records
    ensures var s := Run(capacity, marks, labels + [start] + [Next(start.pid)]);
            && start.pid in s.procs
            && s.procs[start.pid].pc == (if start.kind == UpdateState then Acquire else Look)
  {
    var s := Run(capacity, marks, labels);
    StartedAtCheck(capacity, s, start);
    PassesCheck(capacity, Step(capacity, s, start), start.pid);
    assert (labels + [start])[..|labels|] == labels;
    assert (labels + [start] + [Next(start.pid)])[..|labels| + 1] == labels + [start];
  }
}
