/**
 All requests at once. Each request is a program whose steps are the sections
 between two awaits: one locked section of the coordinator, of the thread store
 or of the checkpointer. Steps of different requests interleave freely, and the
 thread store and the checkpointer may lose threads at any time.
 */
module ServerProtocol {
  import opened Items
  import opened Coordination
  import opened ThreadStore

  datatype Kind =
    | StreamRun      // POST /threads/{id}/runs/stream
    | PlainRun       // POST /threads/{id}/runs
    | UpdateState    // POST /threads/{id}/state
    | DeleteThread   // DELETE /threads/{id}
    | ResolveThread  // POST /threads, GET /threads/{id}
    | StatelessRun   // POST /runs/stream, on a generated thread

  /** Where a request stands, with what it has read on the way. The comments name the awaited call. */
  datatype Pc =
    | Exists                           // thread_exists: store.get_thread, routes/threads.py:141
    | ExistsDurable                    // thread_exists: aget_tuple, routes/threads.py:143
    | Look                             // get_or_create_thread: store.get_thread, routes/threads.py:113
    | Probe                            // get_or_create_thread: aget_tuple, routes/threads.py:116
    | Record                           // get_or_create_thread: store.put_thread, routes/threads.py:119, 131
    | AskStore                         // get_thread_assistant_id: store.get_assistant_id, routes/threads.py:152
    | AskDurable                       // get_thread_assistant_id: aget_tuple, routes/threads.py:155
    | Adopt(marker: string)            // get_thread_assistant_id: store.claim_assistant, routes/threads.py:160
    | Claim(existing: Option<string>)  // claim_thread_assistant: store.claim_assistant, routes/threads.py:178
    | Acquire                          // run_coordinator.acquire, routes/runs.py:142, routes/threads.py:185
    | BusyRead                         // _set_thread_status("busy"): store.get_thread, streaming.py:131
    | BusyWrite(busy: Thread)          // _set_thread_status("busy"): store.put_thread, streaming.py:136
    | Work                             // the graph, streaming.py:166, routes/runs.py:316, routes/threads.py:338
    | IdleRead                         // _set_thread_status("idle"): store.get_thread, streaming.py:131
    | IdleWrite(idle: Thread)          // _set_thread_status("idle"): store.put_thread, streaming.py:136
    | CleanUp                          // _delete_stateless_checkpoints: adelete_thread, routes/runs.py:162
    | DeleteDurable                    // delete_thread: adelete_thread, routes/threads.py:405
    | DeleteRecord                     // delete_thread: store.delete_thread, routes/threads.py:415
    | Releasing                        // lease.release, routes/runs.py:136, 338, routes/threads.py:357, 417
    | Done

  datatype Proc = Proc(kind: Kind, thread: string, assistant: string, leased: bool, pc: Pc)

  /** A checkpoint: whether it is in the root namespace, and its assistant marker. */
  datatype Mark = Mark(root: bool, assistant: Option<string>)

  type Marks = map<string, seq<Mark>>

  /** A reservation is identified by the request that holds it: a request acquires once. */
  datatype State = State(
    active: map<string, nat>, records: Records, marks: Marks,
    procs: map<nat, Proc>, generated: set<string>)

  datatype Label =
    | Start(pid: nat, kind: Kind, thread: string, assistant: string, mustExist: bool)
    | Next(pid: nat)
    | Fail(pid: nat)
    | WriteCheckpoint(pid: nat, root: bool)
    | Background(pid: nat)
    | LoseRecord(thread: string)
    | LoseCheckpoints(thread: string)

  // ---------- the programs ----------

  /** The checkpoint an ownership lookup finds: the newest one of the root namespace. */
  function LatestRoot(marks: seq<Mark>): Option<Mark> {
    if marks == [] then None
    else if marks[|marks| - 1].root then Some(marks[|marks| - 1])
    else LatestRoot(marks[..|marks| - 1])
  }

  /** The position of the newest checkpoint of the root namespace. Checkpoints are listed oldest first. */
  ghost predicate NewestRoot(marks: seq<Mark>, i: nat) {
    i < |marks| && marks[i].root && forall j :: i < j < |marks| ==> !marks[j].root
  }

  lemma {:induction false} LatestRootIff(marks: seq<Mark>, m: Mark)
    ensures LatestRoot(marks) == Some(m) <==> exists i: nat :: NewestRoot(marks, i) && marks[i] == m
    ensures LatestRoot(marks) == None <==> forall i :: 0 <= i < |marks| ==> !marks[i].root
  {
    if marks != [] {
      var last, earlier := |marks| - 1, marks[..|marks| - 1];
      if marks[last].root {
        assert NewestRoot(marks, last);
      } else {
        LatestRootIff(earlier, m);
        forall i: nat
          ensures NewestRoot(marks, i) <==> NewestRoot(earlier, i)
        {
        }
      }
    }
  }

  function MarksOf(s: State, thread: string): seq<Mark> {
    if thread in s.marks then s.marks[thread] else []
  }

  function FirstPc(kind: Kind, mustExist: bool): Pc {
    match kind
    case StreamRun => if mustExist then Exists else Look
    case PlainRun => if mustExist then Exists else Look
    case UpdateState => Exists
    case DeleteThread => Acquire
    case ResolveThread => if mustExist then Exists else Look
    case StatelessRun => Acquire
  }

  function AfterExists(kind: Kind): Pc {
    if kind == UpdateState then Acquire else Look
  }

  function AfterResolve(kind: Kind): Pc {
    if kind == ResolveThread then Done else AskStore
  }

  function AfterGrant(kind: Kind): Pc {
    match kind
    case StreamRun => BusyRead
    case PlainRun => Work
    case UpdateState => Look
    case DeleteThread => DeleteDurable
    case ResolveThread => Done
    case StatelessRun => Work
  }

  function AfterWork(kind: Kind): Pc {
    match kind
    case StreamRun => IdleRead
    case StatelessRun => CleanUp
    case _ => Releasing
  }

  /** Every way out passes the release when a lease is held. */
  function Exit(p: Proc): Proc {
    p.(pc := if p.leased then Releasing else Done)
  }

  /** A run goes on to claim the thread; a state update adopts the owner it found. */
  function AfterOwner(p: Proc, owner: Option<string>): Proc {
    if p.kind != UpdateState then p.(pc := Claim(owner))
    else if owner.Some? then p.(assistant := owner.value, pc := Work)
    else Exit(p)
  }

  function Goto(s: State, pid: nat, p: Proc): State {
    s.(procs := s.procs[pid := p])
  }

  /** Where a request goes with its next section. */
  function NextProc(capacity: nat, s: State, p: Proc): Proc {
    match p.pc
    case Exists => p.(pc := if p.thread in s.records then AfterExists(p.kind) else ExistsDurable)
    case ExistsDurable =>
      if LatestRoot(MarksOf(s, p.thread)).Some? then p.(pc := AfterExists(p.kind)) else Exit(p)
    case Look => p.(pc := if p.thread in s.records then AfterResolve(p.kind) else Probe)
    case Probe => p.(pc := Record)
    case Record => p.(pc := AfterResolve(p.kind))
    case AskStore =>
      var owner := OwnerOf(s.records, p.thread);
      if owner.Some? then AfterOwner(p, owner) else p.(pc := AskDurable)
    case AskDurable =>
      var latest := LatestRoot(MarksOf(s, p.thread));
      if latest.Some? && latest.value.assistant.Some? then p.(pc := Adopt(latest.value.assistant.value))
      else AfterOwner(p, None)
    case Adopt(marker) =>
      if ClaimVerdict(s.records, p.thread, marker) == Claimed then AfterOwner(p, Some(marker)) else Exit(p)
    case Claim(existing) =>
      if existing.Some? && existing.value != p.assistant then Exit(p)
      else if ClaimVerdict(s.records, p.thread, p.assistant) == Claimed then p.(pc := Acquire)
      else Exit(p)
    case Acquire =>
      if Decide(s.active, capacity, p.thread) == Granted then p.(leased := true, pc := AfterGrant(p.kind))
      else p.(pc := Done)
    case BusyRead =>
      p.(pc := if p.thread in s.records then BusyWrite(s.records[p.thread].thread.(status := Busy)) else Work)
    case BusyWrite(_) => p.(pc := Work)
    case Work => p.(pc := AfterWork(p.kind))
    case IdleRead =>
      p.(pc := if p.thread in s.records then IdleWrite(s.records[p.thread].thread.(status := Idle)) else Releasing)
    case IdleWrite(_) => p.(pc := Releasing)
    case CleanUp => p.(pc := Releasing)
    case DeleteDurable => p.(pc := DeleteRecord)
    case DeleteRecord => p.(pc := Releasing)
    case Releasing => p.(pc := Done)
    case Done => p
  }

  /** What the section does to the coordinator. */
  function NextActive(capacity: nat, active: map<string, nat>, pid: nat, p: Proc): map<string, nat> {
    match p.pc
    case Acquire => AcquireStep(active, capacity, p.thread, pid)
    case Releasing => ReleaseStep(active, p.thread, pid)
    case _ => active
  }

  /** What the section does to the thread store. */
  function NextRecords(records: Records, p: Proc): Records {
    match p.pc
    case Record => PutStep(records, Thread(p.thread, Idle, 0))
    case Adopt(marker) => ClaimStep(records, p.thread, marker)
    case Claim(existing) =>
      if existing.Some? && existing.value != p.assistant then records else ClaimStep(records, p.thread, p.assistant)
    case BusyWrite(copy) => PutStep(records, copy)
    case IdleWrite(copy) => PutStep(records, copy)
    case DeleteRecord => records - {p.thread}
    case _ => records
  }

  /** What the section does to the checkpointer. */
  function NextMarks(marks: Marks, p: Proc): Marks {
    match p.pc
    case CleanUp => marks - {p.thread}
    case DeleteDurable => marks - {p.thread}
    case _ => marks
  }

  /** The next section of a request's program. */
  function Advance(capacity: nat, s: State, pid: nat): State
    requires pid in s.procs
  {
    var p := s.procs[pid];
    s.(procs := s.procs[pid := NextProc(capacity, s, p)],
       active := NextActive(capacity, s.active, pid, p),
       records := NextRecords(s.records, p),
       marks := NextMarks(s.marks, p))
  }

  /**
   An error or a timeout. A graph that fails or times out still leaves by the
   stream's cleanup; a cleanup that fails is logged, and the release still follows.
   */
  function AfterFailure(p: Proc): Proc {
    match p.pc
    case Work => p.(pc := AfterWork(p.kind))
    case IdleRead => p
    case IdleWrite(_) => p
    case CleanUp => p.(pc := Releasing)
    case Done => p
    case _ => Exit(p)
  }

  predicate Unused(s: State, thread: string) {
    && thread !in s.records && thread !in s.marks && thread !in s.generated
    && forall q :: q in s.procs ==> s.procs[q].thread != thread
  }

  /** A stateless run has a fresh thread of its own; other requests do not name generated threads. */
  predicate MayStart(s: State, l: Label)
    requires l.Start?
  {
    && l.pid !in s.procs
    && (if l.kind == StatelessRun then Unused(s, l.thread) else l.thread !in s.generated)
  }

  /** One step of the server; a step that is not possible changes nothing. */
  function Step(capacity: nat, s: State, l: Label): State {
    match l
    case Start(pid, kind, thread, assistant, mustExist) =>
      if MayStart(s, l)
      then Goto(s, pid, Proc(kind, thread, assistant, false, FirstPc(kind, mustExist)))
             .(generated := s.generated + if kind == StatelessRun then {thread} else {})
      else s
    case Next(pid) => if pid in s.procs then Advance(capacity, s, pid) else s
    case Fail(pid) => if pid in s.procs then Goto(s, pid, AfterFailure(s.procs[pid])) else s
    case WriteCheckpoint(pid, root) =>
      if pid in s.procs && s.procs[pid].pc == Work
      then
        var p := s.procs[pid];
        s.(marks := s.marks[p.thread := MarksOf(s, p.thread) + [Mark(root, Some(p.assistant))]])
      else s
    case Background(pid) =>
      // The background task releases the lease, possibly before the stream has finished.
      if pid in s.procs && s.procs[pid].leased && s.procs[pid].kind in {StreamRun, StatelessRun}
      then Goto(s, pid, s.procs[pid].(pc := Done)).(active := ReleaseStep(s.active, s.procs[pid].thread, pid))
      else s
    case LoseRecord(thread) => s.(records := s.records - {thread})
    case LoseCheckpoints(thread) => s.(marks := s.marks - {thread})
  }

  /** A checkpoint that is written becomes the newest of its thread, after all others, with its writer's marker. */
  lemma WrittenIsNewest(capacity: nat, s: State, pid: nat, root: bool)
    requires pid in s.procs && s.procs[pid].pc == Work
    ensures var p, s' := s.procs[pid], Step(capacity, s, WriteCheckpoint(pid, root));
            && |MarksOf(s', p.thread)| == |MarksOf(s, p.thread)| + 1
            && (forall i :: 0 <= i < |MarksOf(s, p.thread)| ==> MarksOf(s', p.thread)[i] == MarksOf(s, p.thread)[i])
            && MarksOf(s', p.thread)[|MarksOf(s, p.thread)|] == Mark(root, Some(p.assistant))
            && (root ==> NewestRoot(MarksOf(s', p.thread), |MarksOf(s, p.thread)|))
            && forall t :: t != p.thread ==> MarksOf(s', t) == MarksOf(s, t)
  {
  }

  /** A server that starts with the checkpoints an earlier process left behind. */
  function Boot(marks: Marks): State {
    State(map[], map[], marks, map[], {})
  }

  function Run(capacity: nat, marks: Marks, labels: seq<Label>): State {
    if labels == [] then Boot(marks)
    else Step(capacity, Run(capacity, marks, labels[..|labels| - 1]), labels[|labels| - 1])
  }

  /** The state after some steps from any state. */
  function Reach(capacity: nat, from: State, labels: seq<Label>): State {
    if labels == [] then from
    else Step(capacity, Reach(capacity, from, labels[..|labels| - 1]), labels[|labels| - 1])
  }

  lemma {:induction false} RunThenReach(capacity: nat, marks: Marks, labels: seq<Label>, more: seq<Label>)
    ensures Run(capacity, marks, labels + more) == Reach(capacity, Run(capacity, marks, labels), more)
  {
    if more == [] {
      assert labels + more == labels;
    } else {
      RunThenReach(capacity, marks, labels, more[..|more| - 1]);
      assert (labels + more)[..|labels + more| - 1] == labels + more[..|more| - 1];
    }
  }
}
