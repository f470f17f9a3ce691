/**
 Which writes the bounded saver accepts, what it evicts for them, how far the
 byte budget can be missed, and what a rejected write leaves behind.
 */
module SaverAdmission {
  import opened ByteSizes
  import opened Items
  import opened SaverSpec
  import opened SaverInvariant
  import opened SaverSteps

  // ---------- exact admission ----------

  /** The serialized bytes of one thread. */
  ghost function OwnBytes(s: State, thread: string): nat {
    Bytes(Of(s.items, thread))
  }

  /** Eviction makes the request fit exactly when the thread's own bytes leave room for it. */
  lemma BytesFitIff(cfg: Config, s: State, size: nat, thread: string)
    requires Distinct(s.order) && Owned(s)
    ensures Bytes(EvictForBytes(cfg, s, size, thread).items) + size <= cfg.maxTotalBytes
       <==> OwnBytes(s, thread) + size <= cfg.maxTotalBytes
  {
    var n := EvictCount(cfg, s, size, thread, 0);
    var evicted := EvictForBytes(cfg, s, size, thread);
    EvictionSpares(s, thread, n);
    BytesMonotone(evicted.items, Of(evicted.items, thread));
    if n == |Others(s, thread)| {
      AllOthersGone(s, thread);
      assert Others(s, thread)[..n] == Others(s, thread);
    }
  }

  lemma AllOthersGone(s: State, thread: string)
    requires Owned(s)
    ensures Without(s.items, Threads(Others(s, thread))) == Of(s.items, thread)
  {
    ThreadsKeep(s.order, {thread});
  }

  /** The verdict on a write, from its own size and the contents of its own thread. */
  ghost function Verdict(cfg: Config, s: State, thread: string, ns: string, id: string,
                         size: nat, cap: nat, now: real): Outcome
  {
    if size > cap then PayloadTooLarge
    else if thread !in Threads(s.order) || thread in Expired(s.order, now - cfg.idleTtl) then Accepted
    else if !NamespaceFits(cfg, s.items, thread, ns) then TooManyNamespaces
    else if !CheckpointFits(cfg, s.items, thread, ns, id) then TooManyCheckpoints
    else if OwnBytes(s, thread) + size > cfg.maxTotalBytes then OverByteBudget
    else Accepted
  }

  /** Making a place keeps a live thread as it is, and leaves nothing of a new or expired one. */
  lemma RoomyThread(cfg: Config, s: State, thread: string, now: real)
    requires cfg.Valid() && Owned(s)
    ensures Of(Roomy(cfg, s, thread, now).items, thread)
         == if thread in Threads(s.order) && thread !in Expired(s.order, now - cfg.idleTtl) then Of(s.items, thread)
            else map[]
  {
    RoomyDrops(cfg, s, thread, now);
    OfWithout(s.items, thread, RoomyGone(cfg, s, thread, now));
    if thread !in Threads(s.order) {
      assert Of(s.items, thread) == map[];
    }
  }

  lemma EmptyThread(items: Store, thread: string)
    requires Of(items, thread) == map[]
    ensures Bytes(Of(items, thread)) == 0
    ensures Namespaces(items, thread) == {} && Checkpoints(items, thread) == {}
  {
    assert Sizes(map[]) == map[];
    assert forall k :: k in items && k.thread == thread ==> k in Of(items, thread);
  }

  /** The outcome of admission once a place was made. */
  lemma AdmitOutcome(cfg: Config, s: State, thread: string, ns: string, id: string, size: nat, now: real)
    requires cfg.Valid() && Inv(cfg, s)
    ensures var roomy := Roomy(cfg, s, thread, now);
            Admit(cfg, s, thread, ns, id, size, now).outcome ==
              if !NamespaceFits(cfg, roomy.items, thread, ns) then TooManyNamespaces
              else if !CheckpointFits(cfg, roomy.items, thread, ns, id) then TooManyCheckpoints
              else if OwnBytes(roomy, thread) + size > cfg.maxTotalBytes then OverByteBudget
              else Accepted
  {
    var roomy := Roomy(cfg, s, thread, now);
    RoomyDrops(cfg, s, thread, now);
    DropKeepsInvariant(cfg, s, RoomyGone(cfg, s, thread, now));
    BytesFitIff(cfg, roomy, size, thread);
  }

  /** Admission depends on nothing but the thread itself; a thread without a live entry is always admitted. */
  lemma AdmitVerdict(cfg: Config, s: State, thread: string, ns: string, id: string, size: nat, cap: nat, now: real)
    requires cfg.Valid() && Inv(cfg, s)
    requires size <= cap <= cfg.maxTotalBytes
    ensures Admit(cfg, s, thread, ns, id, size, now).outcome == Verdict(cfg, s, thread, ns, id, size, cap, now)
  {
    var roomy := Roomy(cfg, s, thread, now);
    AdmitOutcome(cfg, s, thread, ns, id, size, now);
    RoomyThread(cfg, s, thread, now);
    if thread in Threads(s.order) && thread !in Expired(s.order, now - cfg.idleTtl) {
      SameThread(s.items, roomy.items, thread);
    } else {
      EmptyThread(roomy.items, thread);
    }
  }

  /** In every reachable state `put` gives exactly the verdict on its own thread. */
  lemma PutVerdict(cfg: Config, ops: seq<Op>, p: Put, now: real, at: real)
    requires cfg.Valid()
    ensures PutResult(cfg, Run(cfg, ops), p, now, at).outcome
         == Verdict(cfg, Run(cfg, ops), p.thread, p.ns, p.id, PutEstimate(p), cfg.maxCheckpointBytes, now)
  {
    RunKeepsInvariant(cfg, ops);
    if PutEstimate(p) <= cfg.maxCheckpointBytes {
      AdmitVerdict(cfg, Run(cfg, ops), p.thread, p.ns, p.id, PutEstimate(p), cfg.maxCheckpointBytes, now);
    }
  }

  /** In every reachable state `put_writes` gives exactly the verdict on its own thread. */
  lemma PutWritesVerdict(cfg: Config, ops: seq<Op>, w: Writes, now: real, at: real)
    requires cfg.Valid()
    ensures PutWritesResult(cfg, Run(cfg, ops), w, now, at).outcome
         == Verdict(cfg, Run(cfg, ops), w.thread, w.ns, w.id, WritesEstimate(w), cfg.maxPendingBytes, now)
  {
    RunKeepsInvariant(cfg, ops);
    if WritesEstimate(w) <= cfg.maxPendingBytes {
      AdmitVerdict(cfg, Run(cfg, ops), w.thread, w.ns, w.id, WritesEstimate(w), cfg.maxPendingBytes, now);
    }
  }

  // ---------- minimal eviction ----------

  /** For a new thread exactly the oldest threads go, and one fewer would leave no place. */
  lemma ThreadEvictionMinimal(cfg: Config, s: State, thread: string)
    requires cfg.Valid() && Distinct(s.order) && thread !in Threads(s.order)
    ensures var n := |s.order| - |EvictForThread(cfg, s, thread).order|;
            && 0 <= n <= |s.order|
            && EvictForThread(cfg, s, thread).order == s.order[n..]
            && |s.order| - n < cfg.maxThreads
            && (n > 0 ==> |s.order| - (n - 1) >= cfg.maxThreads)
  {
    KeepSuffix(s.order, Surplus(cfg, s.order));
  }

  /**
   For bytes the victims are the oldest other threads: no shorter prefix of them
   makes the request fit, and all of them go only when nothing less suffices.
   */
  lemma ByteEvictionMinimal(cfg: Config, s: State, size: nat, thread: string, k: nat)
    requires Distinct(s.order) && k <= |Others(s, thread)|
    ensures var after := EvictForBytes(cfg, s, size, thread);
            var n := |Others(s, thread)| - |Others(after, thread)|;
            && 0 <= n <= |Others(s, thread)|
            && Others(after, thread) == Others(s, thread)[n..]
            && (k < n ==> Bytes(Drop(s, Threads(Others(s, thread)[..k])).items) + size > cfg.maxTotalBytes)
            && (n < |Others(s, thread)| ==> Bytes(after.items) + size <= cfg.maxTotalBytes)
  {
    var n := EvictCount(cfg, s, size, thread, 0);
    OthersAfter(s, thread, n);
    assert k < n ==> !FitsWithout(cfg, s, size, thread, k);
  }

  lemma FailedEviction(cfg: Config, s: State, size: nat, thread: string)
    requires Distinct(s.order) && Owned(s)
    requires Bytes(EvictForBytes(cfg, s, size, thread).items) + size > cfg.maxTotalBytes
    ensures var after := EvictForBytes(cfg, s, size, thread);
            after.items == Of(s.items, thread) && Others(after, thread) == []
  {
    var n := EvictCount(cfg, s, size, thread, 0);
    assert Others(s, thread)[..n] == Others(s, thread);
    AllOthersGone(s, thread);
    OthersAfter(s, thread, n);
  }

  /** A request that is too large for the budget costs every other thread its contents before it is rejected. */
  lemma OverBudgetEvictsAllOthers(cfg: Config, s: State, thread: string, ns: string, id: string, size: nat, now: real)
    requires cfg.Valid() && Inv(cfg, s) && size <= cfg.maxTotalBytes
    requires Admit(cfg, s, thread, ns, id, size, now).outcome == OverByteBudget
    ensures var after := Admit(cfg, s, thread, ns, id, size, now).state;
            after.items == Of(s.items, thread) && Others(after, thread) == []
  {
    var roomy := Roomy(cfg, s, thread, now);
    AdmitVerdict(cfg, s, thread, ns, id, size, cfg.maxTotalBytes, now);
    RoomyDrops(cfg, s, thread, now);
    DropKeepsInvariant(cfg, s, RoomyGone(cfg, s, thread, now));
    FailedEviction(cfg, roomy, size, thread);
    RoomyThread(cfg, s, thread, now);
  }

  // ---------- the byte budget ----------

  /** What an accepted put does to the total, exactly. */
  lemma PutBytes(cfg: Config, s: State, p: Put, now: real, at: real)
    requires cfg.Valid() && PutResult(cfg, s, p, now, at).outcome == Accepted
    ensures var evicted := Admit(cfg, s, p.thread, p.ns, p.id, PutEstimate(p), now).state;
            && Bytes(PutResult(cfg, s, p, now, at).state.items)
               == Bytes(evicted.items) - Bytes(Restrict(evicted.items, PutKeys(p)))
                  + PutEstimate(p) + AbsentBytes(p, cfg.marker)
            && Bytes(evicted.items) + PutEstimate(p) <= cfg.maxTotalBytes
    ensures Bytes(PutResult(cfg, s, p, now, at).state.items) <= cfg.maxTotalBytes + AbsentBytes(p, cfg.marker)
  {
    var evicted := Admit(cfg, s, p.thread, p.ns, p.id, PutEstimate(p), now).state;
    ApplyPutBytes(evicted.items, p, cfg.marker);
  }

  /** What task paths add beyond the announced size, after the task id has paid for some of it. */
  function PathSlack(w: Writes): nat {
    if |w.entries| == 0 || Times(|w.entries| - 1, Utf8Length(w.path)) <= Utf8Length(w.task) then 0
    else Times(|w.entries| - 1, Utf8Length(w.path)) - Utf8Length(w.task)
  }

  lemma AdmitFits(cfg: Config, s: State, thread: string, ns: string, id: string, size: nat, now: real)
    requires cfg.Valid() && Admit(cfg, s, thread, ns, id, size, now).outcome == Accepted
    ensures Bytes(Admit(cfg, s, thread, ns, id, size, now).state.items) + size <= cfg.maxTotalBytes
  {
  }

  lemma ChargedBytes(w: Writes)
    ensures EntriesSize(w, |w.entries|) + Times(|w.entries|, Utf8Length(w.path)) <= WritesEstimate(w) + PathSlack(w)
  {
  }

  /** An accepted batch exceeds the budget by no more than its path slack. */
  lemma PutWritesBytes(cfg: Config, s: State, w: Writes, now: real, at: real)
    requires cfg.Valid() && PutWritesResult(cfg, s, w, now, at).outcome == Accepted
    ensures Bytes(PutWritesResult(cfg, s, w, now, at).state.items) <= cfg.maxTotalBytes + PathSlack(w)
  {
    var evicted := Admit(cfg, s, w.thread, w.ns, w.id, WritesEstimate(w), now).state;
    AdmitFits(cfg, s, w.thread, w.ns, w.id, WritesEstimate(w), now);
    ApplyEntriesBytes(evicted.items, w, |w.entries|);
    ChargedBytes(w);
    assert PutWritesResult(cfg, s, w, now, at).state.items == ApplyWrites(evicted.items, w);
  }

  /** The slack is real: with fresh keys an accepted batch adds every byte it is charged with. */
  lemma PutWritesBytesExact(cfg: Config, s: State, w: Writes, now: real, at: real)
    requires cfg.Valid() && PutWritesResult(cfg, s, w, now, at).outcome == Accepted
    requires FreshEntries(Admit(cfg, s, w.thread, w.ns, w.id, WritesEstimate(w), now).state.items, w)
    ensures Bytes(PutWritesResult(cfg, s, w, now, at).state.items)
         == Bytes(Admit(cfg, s, w.thread, w.ns, w.id, WritesEstimate(w), now).state.items)
            + WritesEstimate(w) + |w.entries| * Utf8Length(w.path) - Utf8Length(w.path) - Utf8Length(w.task)
  {
    FreshEntriesBytes(Admit(cfg, s, w.thread, w.ns, w.id, WritesEstimate(w), now).state.items, w, |w.entries|);
    TimesIsProduct(|w.entries|, Utf8Length(w.path));
  }

  lemma DropBytes(s: State, gone: set<string>)
    ensures Bytes(Drop(s, gone).items) <= Bytes(s.items)
  {
    BytesMonotone(s.items, Without(s.items, gone));
  }

  /**
   The operation stores no more than it announces: a put without absent channels,
   or a batch that, alone in its thread, fits its own estimate. A write over its
   payload limit stores nothing.
   */
  ghost predicate Slackless(cfg: Config, op: Op) {
    match op
    case DoPut(p, _, _) => PutEstimate(p) > cfg.maxCheckpointBytes || AbsentBytes(p, cfg.marker) == 0
    case DoPutWrites(w, _, _) => WritesEstimate(w) > cfg.maxPendingBytes || AloneBytes(w) <= WritesEstimate(w)
    case _ => true
  }

  ghost predicate AllSlackless(cfg: Config, ops: seq<Op>) {
    forall i :: 0 <= i < |ops| ==> Slackless(cfg, ops[i])
  }

  /** A batch without path slack is slackless; with distinct indices only such a batch is. */
  lemma SlacklessBatchIff(w: Writes)
    ensures PathSlack(w) == 0 ==> AloneBytes(w) <= WritesEstimate(w)
    ensures FreshEntries(map[], w) ==> (AloneBytes(w) <= WritesEstimate(w) <==> PathSlack(w) == 0)
  {
    assert Sizes(map[]) == map[];
    ApplyEntriesBytes(map[], w, |w.entries|);
    ChargedBytes(w);
    if FreshEntries(map[], w) {
      FreshEntriesBytes(map[], w, |w.entries|);
    }
  }

  /** An operation that stores nothing, a rejected write above all, never raises the total. */
  lemma OtherStepBytes(cfg: Config, s: State, op: Op)
    requires cfg.Valid() && Owned(s) && !Stores(cfg, s, op)
    ensures Bytes(Step(cfg, s, op).items) <= Bytes(s.items)
  {
    StepForm(cfg, s, op);
    DropBytes(s, Gone(cfg, s, op));
  }

  lemma SlacklessStepBytes(cfg: Config, s: State, op: Op)
    requires cfg.Valid() && Slackless(cfg, op) && Stores(cfg, s, op)
    ensures Bytes(Step(cfg, s, op).items) <= cfg.maxTotalBytes
  {
    if op.DoPut? {
      PutBytes(cfg, s, op.put, op.now, op.at);
    } else {
      SlacklessBatchBytes(cfg, s, op.writes, op.now, op.at);
    }
  }

  lemma SlacklessBatchBytes(cfg: Config, s: State, w: Writes, now: real, at: real)
    requires cfg.Valid() && PutWritesResult(cfg, s, w, now, at).outcome == Accepted
    requires AloneBytes(w) <= WritesEstimate(w)
    ensures Bytes(PutWritesResult(cfg, s, w, now, at).state.items) <= cfg.maxTotalBytes
  {
    var evicted := Admit(cfg, s, w.thread, w.ns, w.id, WritesEstimate(w), now).state;
    AdmitFits(cfg, s, w.thread, w.ns, w.id, WritesEstimate(w), now);
    WritesAtMostAlone(evicted.items, w);
    assert PutWritesResult(cfg, s, w, now, at).state.items == ApplyWrites(evicted.items, w);
  }

  /** When every operation is slackless the byte budget holds in every reachable state. */
  lemma {:induction false} BudgetHolds(cfg: Config, ops: seq<Op>)
    requires cfg.Valid() && AllSlackless(cfg, ops)
    ensures Bytes(Run(cfg, ops).items) <= cfg.maxTotalBytes
  {
    if ops == [] {
      assert Sizes(EMPTY.items) == map[];
    } else {
      var before, op := Run(cfg, ops[..|ops| - 1]), ops[|ops| - 1];
      BudgetHolds(cfg, ops[..|ops| - 1]);
      if Stores(cfg, before, op) {
        SlacklessStepBytes(cfg, before, op);
      } else {
        RunKeepsInvariant(cfg, ops[..|ops| - 1]);
        OtherStepBytes(cfg, before, op);
      }
    }
  }

  /**
   From an empty saver: a first put within its payload limit breaks the total
   budget exactly when the markers of its absent channels no longer fit.
   */
  lemma FirstPutBreaksBudgetIff(cfg: Config, p: Put, now: real, at: real)
    requires cfg.Valid() && PutEstimate(p) <= cfg.maxCheckpointBytes
    ensures Bytes(Run(cfg, [DoPut(p, now, at)]).items) > cfg.maxTotalBytes
       <==> PutEstimate(p) + AbsentBytes(p, cfg.marker) > cfg.maxTotalBytes
  {
    PutVerdict(cfg, [], p, now, at);
    PutBytes(cfg, EMPTY, p, now, at);
    var evicted := Admit(cfg, EMPTY, p.thread, p.ns, p.id, PutEstimate(p), now).state;
    AdmitDrops(cfg, EMPTY, p.thread, p.ns, p.id, PutEstimate(p), now);
    assert evicted.items == map[];
    assert Sizes(map[]) == map[];
    assert Restrict(evicted.items, PutKeys(p)) == map[];
    RunOne(cfg, DoPut(p, now, at));
  }

  /** A first batch breaks it exactly when charging the task path to every entry no longer fits. */
  lemma FirstBatchBreaksBudgetIff(cfg: Config, w: Writes, now: real, at: real)
    requires cfg.Valid() && WritesEstimate(w) <= cfg.maxPendingBytes && FreshEntries(map[], w)
    ensures Bytes(Run(cfg, [DoPutWrites(w, now, at)]).items) > cfg.maxTotalBytes
       <==> EntriesSize(w, |w.entries|) + |w.entries| * Utf8Length(w.path) > cfg.maxTotalBytes
  {
    PutWritesVerdict(cfg, [], w, now, at);
    AdmitDrops(cfg, EMPTY, w.thread, w.ns, w.id, WritesEstimate(w), now);
    assert Admit(cfg, EMPTY, w.thread, w.ns, w.id, WritesEstimate(w), now).state.items == map[];
    assert Sizes(map[]) == map[];
    PutWritesBytesExact(cfg, EMPTY, w, now, at);
    RunOne(cfg, DoPutWrites(w, now, at));
  }

  lemma RunOne(cfg: Config, op: Op)
    requires cfg.Valid()
    ensures Run(cfg, [op]) == Step(cfg, EMPTY, op)
  {
    assert [op][..0] == [];
    assert Run(cfg, [op][..0]) == EMPTY;
  }

  /** A saver of one byte, and a put whose only channel has no value. */
  const TINY := Config(1.0, 1, 1, 1, 1, 1, 1, Serialized("empty", []))
  const ABSENT := Put("t", "", "1", Body(Serialized("", [0]), map["c" := "1"]), Serialized("", []), None,
                      map[], map["c" := "1"])

  /** The saver of one byte ends up holding more. */
  lemma BudgetBroken()
    ensures TINY.Valid() && Bytes(Run(TINY, [DoPut(ABSENT, 0.0, 0.0)]).items) > TINY.maxTotalBytes
  {
    assert ValueSizes(ABSENT) == map[];
    assert PutEstimate(ABSENT) == 1;
    assert "c" in ABSENT.newVersions && "c" !in ABSENT.values;
    assert "c" in AbsentChannels(ABSENT);
    assert SerializedSize(TINY.marker) >= 5;
    FirstPutBreaksBudgetIff(TINY, ABSENT, 0.0, 0.0);
  }

  /** A saver of three bytes, and a batch of two empty writes whose task path is announced once and charged twice. */
  const SMALL := Config(1.0, 1, 1, 1, 1, 3, 3, Serialized("empty", []))
  const PATHS := Writes("t", "", "1",
                        [Entry("", Serialized("", []), 0, false), Entry("", Serialized("", []), 1, false)], "k", "pp")

  /** The saver of three bytes ends up holding four. */
  lemma BudgetBrokenByPaths()
    ensures SMALL.Valid() && Bytes(Run(SMALL, [DoPutWrites(PATHS, 0.0, 0.0)]).items) > SMALL.maxTotalBytes
  {
    assert EntriesSize(PATHS, 2) == 0;
    assert Utf8Length(PATHS.path[1..]) == 1 && Utf8Length(PATHS.path) == 2;
    assert Utf8Length(PATHS.task) == 1;
    FirstBatchBreaksBudgetIff(SMALL, PATHS, 0.0, 0.0);
  }

  // ---------- what a write does to other threads, and a rejected write to its own ----------

  /** The thread has the same contents and the same last access in both states. */
  ghost predicate SameFor(s: State, s': State, thread: string) {
    && Of(s'.items, thread) == Of(s.items, thread)
    && forall x: Access :: x.thread == thread ==> (x in s'.order <==> x in s.order)
  }

  ghost predicate GoneFrom(s: State, thread: string) {
    Of(s.items, thread) == map[] && thread !in Threads(s.order)
  }

  lemma DropFrame(s: State, gone: set<string>, thread: string)
    ensures if thread in gone then GoneFrom(Drop(s, gone), thread) else SameFor(s, Drop(s, gone), thread)
  {
    OfWithout(s.items, thread, gone);
    ThreadsKeep(s.order, gone);
    KeepMembers(s.order, gone);
  }

  /**
   A rejected put leaves its own thread unchanged and in its place, and every
   other thread unchanged or completely removed.
   */
  lemma RejectedPutFrame(cfg: Config, ops: seq<Op>, p: Put, now: real, at: real, other: string)
    requires cfg.Valid() && PutResult(cfg, Run(cfg, ops), p, now, at).outcome != Accepted
    ensures var s, s' := Run(cfg, ops), PutResult(cfg, Run(cfg, ops), p, now, at).state;
            && SameFor(s, s', p.thread)
            && (SameFor(s, s', other) || GoneFrom(s', other))
            && (exists gone :: s'.order == Keep(s.order, gone))
  {
    var s := Run(cfg, ops);
    PutVerdict(cfg, ops, p, now, at);
    if PutEstimate(p) > cfg.maxCheckpointBytes {
      KeepAll(s.order, {});
    } else {
      var gone := AdmitGone(cfg, s, p.thread, p.ns, p.id, PutEstimate(p), now);
      AdmitDrops(cfg, s, p.thread, p.ns, p.id, PutEstimate(p), now);
      DropFrame(s, gone, p.thread);
      DropFrame(s, gone, other);
    }
  }

  /** The same for a rejected batch of pending writes. */
  lemma RejectedPutWritesFrame(cfg: Config, ops: seq<Op>, w: Writes, now: real, at: real, other: string)
    requires cfg.Valid() && PutWritesResult(cfg, Run(cfg, ops), w, now, at).outcome != Accepted
    ensures var s, s' := Run(cfg, ops), PutWritesResult(cfg, Run(cfg, ops), w, now, at).state;
            && SameFor(s, s', w.thread)
            && (SameFor(s, s', other) || GoneFrom(s', other))
            && (exists gone :: s'.order == Keep(s.order, gone))
  {
    var s := Run(cfg, ops);
    PutWritesVerdict(cfg, ops, w, now, at);
    if WritesEstimate(w) > cfg.maxPendingBytes {
      KeepAll(s.order, {});
    } else {
      var gone := AdmitGone(cfg, s, w.thread, w.ns, w.id, WritesEstimate(w), now);
      AdmitDrops(cfg, s, w.thread, w.ns, w.id, WritesEstimate(w), now);
      DropFrame(s, gone, w.thread);
      DropFrame(s, gone, other);
    }
  }
}
