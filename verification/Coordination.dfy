/** Reservations of threads for runs and state mutations. */
module Coordination {

  datatype Grant = Granted | ThreadConflict | CapacityFull

  /** What `acquire` decides under its lock. */
  function Decide<T>(active: map<string, T>, capacity: nat, thread: string): Grant {
    if thread in active then ThreadConflict
    else if |active| >= capacity then CapacityFull
    else Granted
  }

  function AcquireStep<T>(active: map<string, T>, capacity: nat, thread: string, token: T): map<string, T> {
    if Decide(active, capacity, thread) == Granted then active[thread := token] else active
  }

  /** What `_release` does under its lock: only the matching reservation goes. */
  function ReleaseStep<T(==)>(active: map<string, T>, thread: string, token: T): map<string, T> {
    if thread in active && active[thread] == token then active - {thread} else active
  }

  class Token {
    constructor () {
    }
  }

  class RunLease {
    const coordinator: RunCoordinator
    const thread: string
    const token: Token
    var released: bool

    /** The flag is set only after the reservation is gone. */
    ghost predicate Valid()
      reads this, coordinator
    {
      && coordinator.Valid()
      && token in coordinator.issued
      && (released ==> token !in coordinator.active.Values)
      && (token in coordinator.active.Values ==> thread in coordinator.active && coordinator.active[thread] == token)
    }

    constructor (coordinator: RunCoordinator, thread: string, token: Token)
      ensures this.coordinator == coordinator && this.thread == thread && this.token == token && !released
    {
      this.coordinator, this.thread, this.token, released := coordinator, thread, token, false;
    }

    /** Removes this lease's reservation if it is still there, and never another. */
    method Release()
      requires Valid()
      modifies this, coordinator`active
      ensures Valid() && released
      ensures token !in coordinator.active.Values
      ensures forall t :: t in old(coordinator.active) && old(coordinator.active)[t] != token ==>
                t in coordinator.active && coordinator.active[t] == old(coordinator.active)[t]
      ensures coordinator.active.Keys <= old(coordinator.active).Keys
    {
      if released {
        return;
      }
      coordinator.ReleaseLocked(thread, token);
      released := true;
    }
  }

  class RunCoordinator {
    const maxConcurrentRuns: nat
    var active: map<string, Token>
    /** Every token ever handed out. */
    ghost var issued: set<Token>

    ghost predicate Valid()
      reads this
    {
      && 0 < maxConcurrentRuns
      && |active| <= maxConcurrentRuns
      && active.Values <= issued
      && forall t, u :: t in active && u in active && active[t] == active[u] ==> t == u
    }

    constructor (maxConcurrentRuns: nat)
      requires 0 < maxConcurrentRuns
      ensures Valid() && active == map[] && this.maxConcurrentRuns == maxConcurrentRuns
    {
      this.maxConcurrentRuns := maxConcurrentRuns;
      active, issued := map[], {};
    }

    method Acquire(thread: string) returns (grant: Grant, lease: RunLease?)
      requires Valid()
      modifies this
      ensures Valid()
      ensures grant == Decide(old(active), maxConcurrentRuns, thread)
      ensures grant == ThreadConflict <==> thread in old(active)
      ensures grant == CapacityFull <==> thread !in old(active) && |old(active)| >= maxConcurrentRuns
      ensures grant != Granted ==> lease == null && active == old(active) && issued == old(issued)
      ensures grant == Granted ==>
                && lease != null && fresh(lease) && fresh(lease.token)
                && lease.coordinator == this && lease.thread == thread && !lease.released && lease.Valid()
                && active == AcquireStep(old(active), maxConcurrentRuns, thread, lease.token)
                && active == old(active)[thread := lease.token]
                && issued == old(issued) + {lease.token}
    {
      if thread in active {
        return ThreadConflict, null;
      }
      if |active| >= maxConcurrentRuns {
        return CapacityFull, null;
      }
      var token := new Token();
      active := active[thread := token];
      issued := issued + {token};
      grant := Granted;
      lease := new RunLease(this, thread, token);
    }

    method ReleaseLocked(thread: string, token: Token)
      requires Valid()
      modifies this`active
      ensures Valid() && active == ReleaseStep(old(active), thread, token)
      ensures thread in active <==> thread in old(active) && old(active)[thread] != token
      ensures forall t :: t != thread ==>
                (t in active <==> t in old(active)) && (t in active ==> active[t] == old(active)[t])
    {
      if thread in active && active[thread] == token {
        active := active - {thread};
      }
    }

    method ActiveRuns() returns (count: nat)
      requires Valid()
      ensures count == |active| && count <= maxConcurrentRuns
    {
      count := |active|;
    }
  }
}

/**
 Leases under arbitrary interleaving. A release consists of a flag check, a
 shielded locked section, and the setting of the flag; the caller may be
 cancelled in between, and any number of releases may be under way.
 */
module LeaseProtocol {
  import opened Coordination

  /** A lease is identified by its number, which also stands for its token. */
  datatype Lease = Lease(thread: string, released: bool)

  /** A release under way: whether its locked section is still to come and its caller still waits. */
  datatype Call = Call(lease: nat, pending: bool, waiting: bool)

  datatype State = State(active: map<string, nat>, leases: seq<Lease>, calls: seq<Call>)

  datatype Label =
    | Acquire(thread: string)
    | CallRelease(lease: nat)
    | RunLocked(call: nat)
    | Cancel(call: nat)
    | Resume(call: nat)

  const START := State(map[], [], [])

  /** One step; a step that is not possible changes nothing. */
  function Step(capacity: nat, s: State, l: Label): State {
    match l
    case Acquire(thread) =>
      if Decide(s.active, capacity, thread) == Granted
      then s.(active := AcquireStep(s.active, capacity, thread, |s.leases|),
              leases := s.leases + [Lease(thread, false)])
      else s
    case CallRelease(id) =>
      if id < |s.leases| && !s.leases[id].released then s.(calls := s.calls + [Call(id, true, true)]) else s
    case RunLocked(c) =>
      if c < |s.calls| && s.calls[c].pending && s.calls[c].lease < |s.leases|
      then s.(active := ReleaseStep(s.active, s.leases[s.calls[c].lease].thread, s.calls[c].lease),
              calls := s.calls[c := s.calls[c].(pending := false)])
      else s
    case Cancel(c) =>
      if c < |s.calls| then s.(calls := s.calls[c := s.calls[c].(waiting := false)]) else s
    case Resume(c) =>
      if c < |s.calls| && !s.calls[c].pending && s.calls[c].waiting && s.calls[c].lease < |s.leases|
      then s.(leases := s.leases[s.calls[c].lease := s.leases[s.calls[c].lease].(released := true)],
              calls := s.calls[c := s.calls[c].(waiting := false)])
      else s
  }

  function Run(capacity: nat, labels: seq<Label>): State {
    if labels == [] then START else Step(capacity, Run(capacity, labels[..|labels| - 1]), labels[|labels| - 1])
  }

  /** The lease has been granted and its reservation is still in place. */
  predicate Live(s: State, id: nat) {
    id < |s.leases| && s.leases[id].thread in s.active && s.active[s.leases[id].thread] == id
  }

  ghost predicate Inv(capacity: nat, s: State) {
    && |s.active| <= capacity
    && (forall t :: t in s.active ==> Live(s, s.active[t]) && s.leases[s.active[t]].thread == t)
    && (forall id :: 0 <= id < |s.leases| && s.leases[id].released ==> !Live(s, id))
    && (forall c :: 0 <= c < |s.calls| ==> s.calls[c].lease < |s.leases|)
    && (forall c :: 0 <= c < |s.calls| && !s.calls[c].pending ==> !Live(s, s.calls[c].lease))
  }

  lemma StepKeepsInv(capacity: nat, s: State, l: Label)
    requires Inv(capacity, s)
    ensures Inv(capacity, Step(capacity, s, l))
  {
    match l
    case Acquire(thread) => AcquireKeepsInv(capacity, s, thread);
    case RunLocked(c) => LockedKeepsInv(capacity, s, c);
    case _ => FlagsKeepInv(capacity, s, l);
  }

  lemma AcquireKeepsInv(capacity: nat, s: State, thread: string)
    requires Inv(capacity, s)
    ensures Inv(capacity, Step(capacity, s, Acquire(thread)))
  {
    var s' := Step(capacity, s, Acquire(thread));
    assert forall id :: 0 <= id < |s.leases| ==> s'.leases[id] == s.leases[id];
    assert forall id :: 0 <= id < |s.leases| && Live(s', id) ==> Live(s, id);
  }

  lemma LockedKeepsInv(capacity: nat, s: State, c: nat)
    requires Inv(capacity, s)
    ensures Inv(capacity, Step(capacity, s, RunLocked(c)))
  {
    var s' := Step(capacity, s, RunLocked(c));
    assert s'.active.Keys <= s.active.Keys;
    assert |s'.active.Keys| <= |s.active.Keys|;
    assert forall id :: Live(s', id) ==> Live(s, id);
  }

  lemma FlagsKeepInv(capacity: nat, s: State, l: Label)
    requires Inv(capacity, s) && (l.CallRelease? || l.Cancel? || l.Resume?)
    ensures Inv(capacity, Step(capacity, s, l))
  {
    var s' := Step(capacity, s, l);
    assert s'.active == s.active && |s'.leases| == |s.leases|;
    assert forall id :: 0 <= id < |s.leases| ==> s'.leases[id].thread == s.leases[id].thread;
    assert forall id :: Live(s', id) <==> Live(s, id);
  }

  /** In every reachable state at most `capacity` reservations stand, and a released flag never lies. */
  lemma {:induction false} RunKeepsInv(capacity: nat, labels: seq<Label>)
    ensures Inv(capacity, Run(capacity, labels))
  {
    if labels != [] {
      RunKeepsInv(capacity, labels[..|labels| - 1]);
      StepKeepsInv(capacity, Run(capacity, labels[..|labels| - 1]), labels[|labels| - 1]);
    }
  }

  /** No step ends a lease but the locked section of one of that lease's own releases. */
  lemma OnlyOwnReleaseEnds(capacity: nat, labels: seq<Label>, l: Label, id: nat)
    requires Live(Run(capacity, labels), id) && !Live(Step(capacity, Run(capacity, labels), l), id)
    ensures var s := Run(capacity, labels);
            l.RunLocked? && l.call < |s.calls| && s.calls[l.call].pending && s.calls[l.call].lease == id
  {
    RunKeepsInv(capacity, labels);
  }

  /**
   A release that reaches its locked section, however late and whatever became of
   its caller, leaves its own lease dead and every other reservation in place.
   */
  lemma ReleaseIsExact(capacity: nat, labels: seq<Label>, c: nat, other: nat)
    requires c < |Run(capacity, labels).calls| && Run(capacity, labels).calls[c].pending
    ensures var s, s' := Run(capacity, labels), Step(capacity, Run(capacity, labels), RunLocked(c));
            && !Live(s', s.calls[c].lease)
            && (other != s.calls[c].lease ==> (Live(s', other) <==> Live(s, other)))
  {
    RunKeepsInv(capacity, labels);
    ReleaseExactIn(capacity, Run(capacity, labels), c, other);
  }

  lemma ReleaseExactIn(capacity: nat, s: State, c: nat, other: nat)
    requires Inv(capacity, s) && c < |s.calls| && s.calls[c].pending
    ensures var s' := Step(capacity, s, RunLocked(c));
            && !Live(s', s.calls[c].lease)
            && (other != s.calls[c].lease ==> (Live(s', other) <==> Live(s, other)))
  {
  }

  lemma DeadStep(capacity: nat, s: State, l: Label, id: nat)
    requires Inv(capacity, s) && id < |s.leases| && !Live(s, id)
    ensures id < |Step(capacity, s, l).leases| && !Live(Step(capacity, s, l), id)
  {
  }

  lemma RunMore(capacity: nat, labels: seq<Label>, more: seq<Label>)
    requires more != []
    ensures Run(capacity, labels + more)
         == Step(capacity, Run(capacity, labels + more[..|more| - 1]), more[|more| - 1])
  {
    assert (labels + more)[..|labels + more| - 1] == labels + more[..|more| - 1];
  }

  /** A dead lease stays dead: a reservation is removed at most once. */
  lemma {:induction false} DeadStaysDead(capacity: nat, labels: seq<Label>, more: seq<Label>, id: nat)
    requires id < |Run(capacity, labels).leases| && !Live(Run(capacity, labels), id)
    ensures id < |Run(capacity, labels + more).leases| && !Live(Run(capacity, labels + more), id)
  {
    if more == [] {
      assert labels + more == labels;
    } else {
      var earlier := more[..|more| - 1];
      DeadStaysDead(capacity, labels, earlier, id);
      RunKeepsInv(capacity, labels + earlier);
      RunMore(capacity, labels, more);
      DeadStep(capacity, Run(capacity, labels + earlier), more[|more| - 1], id);
    }
  }

  // ---------- what the labels of a run say about its leases ----------

  /** The step is the locked section of one of the lease's own releases. */
  predicate Releases(s: State, l: Label, id: nat) {
    l.RunLocked? && l.call < |s.calls| && s.calls[l.call].pending && s.calls[l.call].lease == id
  }

  /** The run has granted the lease, and none of its releases has reached the lock. */
  ghost predicate GrantedUnreleased(capacity: nat, labels: seq<Label>, id: nat) {
    && id < |Run(capacity, labels).leases|
    && forall i :: 0 <= i < |labels| ==> !Releases(Run(capacity, labels[..i]), labels[i], id)
  }

  lemma LiveStep(capacity: nat, s: State, l: Label, id: nat)
    requires Inv(capacity, s)
    ensures var s' := Step(capacity, s, l);
            Live(s', id) <==> (Live(s, id) && !Releases(s, l, id)) || |s.leases| == id < |s'.leases|
  {
    if l.RunLocked? && l.call < |s.calls| && s.calls[l.call].pending {
      ReleaseExactIn(capacity, s, l.call, id);
    }
  }

  lemma GrantedStep(capacity: nat, labels: seq<Label>, l: Label, id: nat)
    ensures var s := Run(capacity, labels);
            GrantedUnreleased(capacity, labels + [l], id) <==>
              || (GrantedUnreleased(capacity, labels, id) && !Releases(s, l, id))
              || |s.leases| == id < |Step(capacity, s, l).leases|
  {
    var s, longer := Run(capacity, labels), labels + [l];
    RunKeepsInv(capacity, labels);
    assert longer[..|labels|] == labels;
    assert forall i :: 0 <= i < |labels| ==> longer[..i] == labels[..i] && longer[i] == labels[i];
    assert |s.leases| <= |Step(capacity, s, l).leases| <= |s.leases| + 1;
    if id == |s.leases| {
      forall i | 0 <= i < |labels|
        ensures !Releases(Run(capacity, labels[..i]), labels[i], id)
      {
        RunKeepsInv(capacity, labels[..i]);
        LeasesGrow(capacity, labels, i);
      }
    }
  }

  lemma {:induction false} LeasesGrow(capacity: nat, labels: seq<Label>, i: nat)
    requires i <= |labels|
    ensures |Run(capacity, labels[..i]).leases| <= |Run(capacity, labels).leases|
  {
    if i < |labels| {
      var earlier := labels[..|labels| - 1];
      assert earlier[..i] == labels[..i];
      LeasesGrow(capacity, earlier, i);
    } else {
      assert labels[..i] == labels;
    }
  }

  /** The table holds exactly the leases that the run has granted and not yet released. */
  lemma {:induction false} LiveIffUnreleased(capacity: nat, labels: seq<Label>, id: nat)
    ensures Live(Run(capacity, labels), id) <==> GrantedUnreleased(capacity, labels, id)
  {
    if labels != [] {
      var earlier, l := labels[..|labels| - 1], labels[|labels| - 1];
      assert labels == earlier + [l];
      LiveIffUnreleased(capacity, earlier, id);
      RunKeepsInv(capacity, earlier);
      LiveStep(capacity, Run(capacity, earlier), l, id);
      GrantedStep(capacity, earlier, l, id);
    }
  }

  /** In every run at most one lease of a thread has been granted without one of its releases having taken effect. */
  lemma OneReservationPerThread(capacity: nat, labels: seq<Label>, i: nat, j: nat)
    requires GrantedUnreleased(capacity, labels, i) && GrantedUnreleased(capacity, labels, j)
    requires Run(capacity, labels).leases[i].thread == Run(capacity, labels).leases[j].thread
    ensures i == j
  {
    LiveIffUnreleased(capacity, labels, i);
    LiveIffUnreleased(capacity, labels, j);
  }
}
