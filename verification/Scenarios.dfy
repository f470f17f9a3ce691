/** Concrete runs in which the server does not keep a promise that holds otherwise. */
module Scenarios {
  import opened Items
  import opened ThreadStore
  import opened ServerProtocol
  import opened StatusSafety

  /** What may happen in a run besides runs: delete requests, losses of records, early releases, or all of it. */
  datatype Allowed = Deletions | Losses | EarlyReleases | Anything

  predicate Permits(allowed: Allowed, l: Label) {
    match l
    case Start(_, kind, _, _, _) => kind == DeleteThread ==> allowed in {Deletions, Anything}
    case Next(_) => true
    case WriteCheckpoint(_, _) => true
    case LoseRecord(_) => allowed in {Losses, Anything}
    case Background(_) => allowed in {EarlyReleases, Anything}
    case _ => allowed == Anything
  }

  ghost predicate LeadsTo(capacity: nat, allowed: Allowed, from: State, labels: seq<Label>, s: State) {
    && Reach(capacity, from, labels) == s
    && forall i :: 0 <= i < |labels| ==> Permits(allowed, labels[i])
  }

  lemma Then(capacity: nat, allowed: Allowed, from: State, labels: seq<Label>, s: State, l: Label)
    returns (longer: seq<Label>)
    requires LeadsTo(capacity, allowed, from, labels, s) && Permits(allowed, l)
    ensures LeadsTo(capacity, allowed, from, longer, Step(capacity, s, l))
  {
    longer := labels + [l];
    assert longer[..|longer| - 1] == labels;
  }

  /** The state `base` with one request placed, and with the shared tables replaced. */
  function At(base: State, pid: nat, p: Proc, active: map<string, nat>, records: Records, marks: Marks): State {
    State(active, records, marks, base.procs[pid := p], base.generated)
  }

  /** One more section of a request. */
  lemma ThenNext(capacity: nat, allowed: Allowed, from: State, labels: seq<Label>, base: State, pid: nat, p: Proc,
                 active: map<string, nat>, records: Records, marks: Marks) returns (longer: seq<Label>)
    requires LeadsTo(capacity, allowed, from, labels, At(base, pid, p, active, records, marks))
    ensures LeadsTo(capacity, allowed, from, longer,
                    At(base, pid, NextProc(capacity, At(base, pid, p, active, records, marks), p),
                       NextActive(capacity, active, pid, p), NextRecords(records, p), NextMarks(marks, p)))
  {
    longer := Then(capacity, allowed, from, labels, At(base, pid, p, active, records, marks), Next(pid));
    assert base.procs[pid := p][pid := NextProc(capacity, At(base, pid, p, active, records, marks), p)]
        == base.procs[pid := NextProc(capacity, At(base, pid, p, active, records, marks), p)];
  }

  function Owned(t: string, a: Option<string>): StoredThread {
    StoredThread(Thread(t, Idle, 0), a)
  }

  // ---------- one request at a time ----------

  /** A request alone creates the record of its thread. */
  lemma ResolveAlone(capacity: nat, allowed: Allowed, from: State, labels: seq<Label>, s: State, pid: nat, p: Proc)
    returns (longer: seq<Label>)
    requires LeadsTo(capacity, allowed, from, labels, s) && !p.leased && p.pc == Look
    requires p.kind in {StreamRun, PlainRun, ResolveThread}
    requires pid !in s.procs && p.thread !in s.records && p.thread !in s.generated
    ensures LeadsTo(capacity, allowed, from, longer,
                    At(s, pid, p.(pc := AfterResolve(p.kind)), s.active,
                       s.records[p.thread := Owned(p.thread, None)], s.marks))
  {
    longer := Then(capacity, allowed, from, labels, s, Start(pid, p.kind, p.thread, p.assistant, false));
    assert s.generated + {} == s.generated;
    longer := ThenNext(capacity, allowed, from, longer, s, pid, p, s.active, s.records, s.marks);
    longer := ThenNext(capacity, allowed, from, longer, s, pid, p.(pc := Probe), s.active, s.records, s.marks);
    longer := ThenNext(capacity, allowed, from, longer, s, pid, p.(pc := Record), s.active, s.records, s.marks);
  }

  /** It then finds no owner, when no lookup finds a checkpoint. */
  lemma AskAlone(capacity: nat, allowed: Allowed, from: State, labels: seq<Label>, s: State, pid: nat, p: Proc)
    returns (longer: seq<Label>)
    requires p.kind in {StreamRun, PlainRun} && !p.leased && p.pc == AskStore
    requires p.thread in s.records && OwnerOf(s.records, p.thread) == None
    requires LatestRoot(MarksOf(s, p.thread)) == None
    requires LeadsTo(capacity, allowed, from, labels, At(s, pid, p, s.active, s.records, s.marks))
    ensures LeadsTo(capacity, allowed, from, longer, At(s, pid, p.(pc := Claim(None)), s.active, s.records, s.marks))
  {
    longer := ThenNext(capacity, allowed, from, labels, s, pid, p, s.active, s.records, s.marks);
    longer := ThenNext(capacity, allowed, from, longer, s, pid, p.(pc := AskDurable), s.active, s.records, s.marks);
  }

  /** And claims the thread. */
  lemma ClaimAlone(capacity: nat, allowed: Allowed, from: State, labels: seq<Label>, s: State, pid: nat, p: Proc)
    returns (longer: seq<Label>)
    requires LeadsTo(capacity, allowed, from, labels, s) && p.kind in {StreamRun, PlainRun} && !p.leased && p.pc == Look
    requires pid !in s.procs && p.thread !in s.records && p.thread !in s.generated
    requires LatestRoot(MarksOf(s, p.thread)) == None
    ensures LeadsTo(capacity, allowed, from, longer,
                    At(s, pid, p.(pc := Acquire), s.active, s.records[p.thread := Owned(p.thread, Some(p.assistant))],
                       s.marks))
  {
    var created := s.records[p.thread := Owned(p.thread, None)];
    longer := ResolveAlone(capacity, allowed, from, labels, s, pid, p);
    longer := AskAlone(capacity, allowed, from, longer, s.(records := created), pid, p.(pc := AskStore));
    longer := ThenNext(capacity, allowed, from, longer, s, pid, p.(pc := Claim(None)), s.active, created, s.marks);
    assert ClaimStep(created, p.thread, p.assistant) == s.records[p.thread := Owned(p.thread, Some(p.assistant))];
  }

  /** A plain run whose lease is granted, and which writes one checkpoint. */
  lemma WriteAlone(capacity: nat, allowed: Allowed, from: State, labels: seq<Label>, s: State, pid: nat, p: Proc,
                   root: bool)
    returns (longer: seq<Label>)
    requires 0 < capacity && p.kind == PlainRun && !p.leased && p.pc == Acquire
    requires LeadsTo(capacity, allowed, from, labels, At(s, pid, p, map[], s.records, s.marks))
    ensures LeadsTo(capacity, allowed, from, longer,
                    At(s, pid, p.(leased := true, pc := Work), map[p.thread := pid], s.records,
                       s.marks[p.thread := MarksOf(s, p.thread) + [Mark(root, Some(p.assistant))]]))
  {
    var working := p.(leased := true, pc := Work);
    longer := ThenNext(capacity, allowed, from, labels, s, pid, p, map[], s.records, s.marks);
    longer := Then(capacity, allowed, from, longer, At(s, pid, working, map[p.thread := pid], s.records, s.marks),
                   WriteCheckpoint(pid, root));
  }

  /** A plain run that acquires the lease, writes one checkpoint and finishes. */
  lemma RunAlone(capacity: nat, allowed: Allowed, from: State, labels: seq<Label>, s: State, pid: nat, p: Proc,
                 root: bool)
    returns (longer: seq<Label>)
    requires 0 < capacity && p.kind == PlainRun && !p.leased && p.pc == Acquire
    requires LeadsTo(capacity, allowed, from, labels, At(s, pid, p, map[], s.records, s.marks))
    ensures LeadsTo(capacity, allowed, from, longer,
                    At(s, pid, p.(leased := true, pc := Done), map[], s.records,
                       s.marks[p.thread := MarksOf(s, p.thread) + [Mark(root, Some(p.assistant))]]))
  {
    var marks' := s.marks[p.thread := MarksOf(s, p.thread) + [Mark(root, Some(p.assistant))]];
    var leased := p.(leased := true, pc := Work);
    longer := WriteAlone(capacity, allowed, from, labels, s, pid, p, root);
    longer := ThenNext(capacity, allowed, from, longer, s, pid, leased, map[p.thread := pid], s.records, marks');
    longer := ReleaseAlone(capacity, allowed, from, longer, s, pid, leased.(pc := Releasing), s.records, marks');
  }

  lemma ReleaseAlone(capacity: nat, allowed: Allowed, from: State, labels: seq<Label>, s: State, pid: nat, p: Proc,
                     records: Records, marks: Marks) returns (longer: seq<Label>)
    requires p.pc == Releasing
    requires LeadsTo(capacity, allowed, from, labels, At(s, pid, p, map[p.thread := pid], records, marks))
    ensures LeadsTo(capacity, allowed, from, longer, At(s, pid, p.(pc := Done), map[], records, marks))
  {
    longer := ThenNext(capacity, allowed, from, labels, s, pid, p, map[p.thread := pid], records, marks);
    assert map[p.thread := pid] - {p.thread} == map[];
  }

  function Deleting(t: string, leased: bool, pc: Pc): Proc {
    Proc(DeleteThread, t, "", leased, pc)
  }

  lemma ReserveDelete(capacity: nat, from: State, labels: seq<Label>, s: State, pid: nat, t: string)
    returns (longer: seq<Label>)
    requires 0 < capacity && LeadsTo(capacity, Deletions, from, labels, s) && s.active == map[]
    requires pid !in s.procs && t !in s.generated
    ensures LeadsTo(capacity, Deletions, from, longer,
                    At(s, pid, Deleting(t, true, DeleteDurable), map[t := pid], s.records, s.marks))
  {
    longer := Then(capacity, Deletions, from, labels, s, Start(pid, DeleteThread, t, "", false));
    assert s.generated + {} == s.generated;
    longer := ThenNext(capacity, Deletions, from, longer, s, pid, Deleting(t, false, Acquire), map[], s.records,
                       s.marks);
  }

  /** A delete request from start to end. */
  lemma DeleteAlone(capacity: nat, from: State, labels: seq<Label>, s: State, pid: nat, t: string)
    returns (longer: seq<Label>)
    requires 0 < capacity && LeadsTo(capacity, Deletions, from, labels, s) && s.active == map[]
    requires pid !in s.procs && t !in s.generated
    ensures LeadsTo(capacity, Deletions, from, longer,
                    At(s, pid, Deleting(t, true, Done), map[], s.records - {t}, s.marks - {t}))
  {
    longer := ReserveDelete(capacity, from, labels, s, pid, t);
    var held := map[t := pid];
    longer := ThenNext(capacity, Deletions, from, longer, s, pid, Deleting(t, true, DeleteDurable), held, s.records,
                       s.marks);
    longer := ThenNext(capacity, Deletions, from, longer, s, pid, Deleting(t, true, DeleteRecord), held, s.records,
                       s.marks - {t});
    longer := ReleaseAlone(capacity, Deletions, from, longer, s, pid, Deleting(t, true, Releasing), s.records - {t},
                           s.marks - {t});
  }

  /** A stream alone acquires the lease and records its thread as busy. */
  lemma BusyAlone(capacity: nat, from: State, labels: seq<Label>, s: State, pid: nat, p: Proc)
    returns (longer: seq<Label>)
    requires 0 < capacity && p.kind == StreamRun && !p.leased && p.pc == Acquire
    requires p.thread in s.records && s.records[p.thread].thread.threadId == p.thread
    requires LeadsTo(capacity, EarlyReleases, from, labels, At(s, pid, p, map[], s.records, s.marks))
    ensures LeadsTo(capacity, EarlyReleases, from, longer,
                    At(s, pid, p.(leased := true, pc := Work), map[p.thread := pid],
                       PutStep(s.records, s.records[p.thread].thread.(status := Busy)), s.marks))
  {
    var held, leased := map[p.thread := pid], p.(leased := true, pc := BusyRead);
    var busy := s.records[p.thread].thread.(status := Busy);
    longer := ThenNext(capacity, EarlyReleases, from, labels, s, pid, p, map[], s.records, s.marks);
    longer := ThenNext(capacity, EarlyReleases, from, longer, s, pid, leased, held, s.records, s.marks);
    longer := ThenNext(capacity, EarlyReleases, from, longer, s, pid, leased.(pc := BusyWrite(busy)), held, s.records,
                       s.marks);
  }

  // ---------- the runs ----------

  const START := Boot(map[])

  lemma FromStart(capacity: nat, labels: seq<Label>)
    ensures Run(capacity, map[], labels) == Reach(capacity, START, labels)
  {
    RunThenReach(capacity, map[], [], labels);
    assert [] + labels == labels;
  }

  function Request(kind: Kind, assistant: string): Proc {
    Proc(kind, "t", assistant, false, Look)
  }

  const WAITING := Request(PlainRun, "a").(pc := Acquire)

  /** A run claims the thread for "a" and waits for the lease; the thread is deleted. */
  lemma ClaimedAndDeleted(capacity: nat) returns (labels: seq<Label>)
    requires 0 < capacity
    ensures LeadsTo(capacity, Deletions, START, labels,
                    State(map[], map[], map[], map[1 := WAITING, 2 := Deleting("t", true, Done)], {}))
  {
    labels := ClaimAlone(capacity, Deletions, START, [], START, 1, Request(PlainRun, "a"));
    var waiting := At(START, 1, WAITING, map[], map["t" := Owned("t", Some("a"))], map[]);
    labels := DeleteAlone(capacity, START, labels, waiting, 2, "t");
    assert waiting.records - {"t"} == map[] && waiting.marks - {"t"} == map[];
    assert map[][1 := WAITING][2 := Deleting("t", true, Done)] == map[1 := WAITING, 2 := Deleting("t", true, Done)];
  }

  /**
   A delete that commits between a claim and its lease, with a thread store whose
   claim suspends after it has committed: a second run claims the thread for "b" and
   writes; then the first run acquires the lease and writes as "a".
   */
  lemma DeletionBreaksDurableOwnership(capacity: nat) returns (labels: seq<Label>)
    requires 0 < capacity
    ensures forall i :: 0 <= i < |labels| ==> Permits(Deletions, labels[i])
    ensures MarksOf(Run(capacity, map[], labels), "t") == [Mark(true, Some("b")), Mark(true, Some("a"))]
    ensures OwnerOf(Run(capacity, map[], labels).records, "t") == Some("b")
  {
    labels := ClaimedAndDeleted(capacity);
    var deleted := State(map[], map[], map[], map[1 := WAITING, 2 := Deleting("t", true, Done)], {});
    var second, owned := Request(PlainRun, "b"), map["t" := Owned("t", Some("b"))];
    labels := ClaimAlone(capacity, Deletions, START, labels, deleted, 3, second);
    labels := RunAlone(capacity, Deletions, START, labels, deleted.(records := owned), 3, second.(pc := Acquire), true);
    var finished := second.(leased := true, pc := Done);
    var procs := map[2 := Deleting("t", true, Done), 3 := finished];
    assert deleted.procs[3 := finished] == procs[1 := WAITING];
    assert [] + [Mark(true, Some("b"))] == [Mark(true, Some("b"))];
    var byB := map["t" := [Mark(true, Some("b"))]];
    labels := RunAlone(capacity, Deletions, START, labels, State(map[], owned, byB, procs, {}), 1, WAITING, true);
    FromStart(capacity, labels);
  }

  /** The state after a finished run of "a" that wrote outside the root namespace only, and the loss of the record. */
  const LOST := State(map[], map[], map["t" := [Mark(false, Some("a"))]],
                      map[1 := Request(PlainRun, "a").(leased := true, pc := Done)], {})

  lemma WrittenAndLost(capacity: nat) returns (labels: seq<Label>)
    requires 0 < capacity
    ensures LeadsTo(capacity, Losses, START, labels, LOST)
  {
    var first, owned := Request(PlainRun, "a"), map["t" := Owned("t", Some("a"))];
    labels := ClaimAlone(capacity, Losses, START, [], START, 1, first);
    labels := RunAlone(capacity, Losses, START, labels, START.(records := owned), 1, first.(pc := Acquire), false);
    assert [] + [Mark(false, Some("a"))] == [Mark(false, Some("a"))];
    labels := Then(capacity, Losses, START, labels, LOST.(records := owned), LoseRecord("t"));
    assert owned - {"t"} == map[];
  }

  /** A record lost while no lookup finds the owner: a second run claims the thread for "b" and writes. */
  lemma LossBreaksDurableOwnership(capacity: nat) returns (labels: seq<Label>)
    requires 0 < capacity
    ensures forall i :: 0 <= i < |labels| ==> Permits(Losses, labels[i])
    ensures MarksOf(Run(capacity, map[], labels), "t") == [Mark(false, Some("a")), Mark(true, Some("b"))]
    ensures OwnerOf(Run(capacity, map[], labels).records, "t") == Some("b")
  {
    var second := Request(PlainRun, "b");
    labels := WrittenAndLost(capacity);
    assert LatestRoot([Mark(false, Some("a"))][..0]) == None;
    labels := ClaimAlone(capacity, Losses, START, labels, LOST, 2, second);
    labels := RunAlone(capacity, Losses, START, labels, LOST.(records := map["t" := Owned("t", Some("b"))]), 2,
                       second.(pc := Acquire), true);
    FromStart(capacity, labels);
  }

  /** A stream that is given up by its background task leaves its thread busy, and nobody holds it. */
  lemma BusyWithoutLease(capacity: nat) returns (labels: seq<Label>)
    requires 0 < capacity
    ensures forall i :: 0 <= i < |labels| ==> Permits(EarlyReleases, labels[i])
    ensures IsBusy(Run(capacity, map[], labels).records, "t") && "t" !in Run(capacity, map[], labels).active
  {
    var s0, stream := START, Request(StreamRun, "a");
    var idle := map["t" := Owned("t", Some("a"))];
    labels := ClaimAlone(capacity, EarlyReleases, START, [], s0, 1, stream);
    labels := BusyAlone(capacity, START, labels, s0.(records := idle), 1, stream.(pc := Acquire));
    var working := At(s0, 1, stream.(leased := true, pc := Work), map["t" := 1],
                      PutStep(idle, Thread("t", Busy, 0)), map[]);
    labels := Then(capacity, EarlyReleases, START, labels, working, Background(1));
    FromStart(capacity, labels);
  }
}
