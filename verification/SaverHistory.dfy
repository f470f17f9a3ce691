/**
 Whole runs. A thread's contents are what an unbounded store would hold after
 the thread's accepted writes since its last removal, its place in the recency
 order is that of its last touch, and no reference inside a thread ever breaks.
 */
module SaverHistory {
  import opened ByteSizes
  import opened Items
  import opened SaverSpec
  import opened SaverInvariant
  import opened SaverSteps

  // ---------- refinement of an unbounded store ----------

  /** The thread an accepted write stores into. */
  function Target(op: Op): Option<string> {
    match op
    case DoPut(p, _, _) => Some(p.thread)
    case DoPutWrites(w, _, _) => Some(w.thread)
    case _ => None
  }

  /** The accepted writes to a thread since it was last deleted, expired, evicted or cleared. */
  ghost function History(cfg: Config, ops: seq<Op>, thread: string): seq<Op>
    requires cfg.Valid()
  {
    if ops == [] then []
    else
      var before, op := Run(cfg, ops[..|ops| - 1]), ops[|ops| - 1];
      (if thread in Gone(cfg, before, op) then [] else History(cfg, ops[..|ops| - 1], thread))
      + if Stores(cfg, before, op) && Target(op) == Some(thread) then [op] else []
  }

  /** An unbounded store that replays some writes and never rejects or removes anything. */
  function Replay(writes: seq<Op>, marker: Serialized): Store {
    if writes == [] then map[]
    else Apply(Replay(writes[..|writes| - 1], marker), writes[|writes| - 1], marker)
  }

  lemma OfApply(items: Store, op: Op, marker: Serialized, thread: string)
    ensures Of(Apply(items, op, marker), thread)
         == if Target(op) == Some(thread) then Apply(Of(items, thread), op, marker) else Of(items, thread)
  {
    match op
    case DoPut(p, _, _) => OfApplyPut(items, p, marker, thread);
    case DoPutWrites(w, _, _) => OfApplyEntries(items, w, |w.entries|, thread);
    case _ =>
  }

  /** The contents of a thread after one operation. */
  lemma StepOfThread(cfg: Config, s: State, op: Op, thread: string)
    requires cfg.Valid() && Owned(s)
    ensures var rest := if thread in Gone(cfg, s, op) then map[] else Of(s.items, thread);
            Of(Step(cfg, s, op).items, thread) ==
              if Stores(cfg, s, op) && Target(op) == Some(thread) then Apply(rest, op, cfg.marker) else rest
  {
    StepForm(cfg, s, op);
    OfWithout(s.items, thread, Gone(cfg, s, op));
    OfApply(Without(s.items, Gone(cfg, s, op)), op, cfg.marker, thread);
  }

  /** The main refinement: never a partly pruned thread, never a stale write. */
  lemma {:induction false} ThreadIsReplay(cfg: Config, ops: seq<Op>, thread: string)
    requires cfg.Valid()
    ensures Of(Run(cfg, ops).items, thread) == Replay(History(cfg, ops, thread), cfg.marker)
  {
    if ops != [] {
      var before, op := Run(cfg, ops[..|ops| - 1]), ops[|ops| - 1];
      ThreadIsReplay(cfg, ops[..|ops| - 1], thread);
      RunKeepsInvariant(cfg, ops[..|ops| - 1]);
      StepOfThread(cfg, before, op, thread);
      var rest := if thread in Gone(cfg, before, op) then [] else History(cfg, ops[..|ops| - 1], thread);
      ReplayAppend(rest, op, cfg.marker);
      assert rest + [] == rest;
    }
  }

  lemma ReplayAppend(writes: seq<Op>, op: Op, marker: Serialized)
    ensures Replay(writes + [op], marker) == Apply(Replay(writes, marker), op, marker)
  {
    assert (writes + [op])[..|writes|] == writes;
  }

  // ---------- references ----------

  lemma {:induction false} ReplayGrows(writes: seq<Op>, more: seq<Op>, marker: Serialized)
    requires writes <= more
    ensures Replay(writes, marker).Keys <= Replay(more, marker).Keys
    decreases |more|
  {
    if |writes| < |more| {
      ReplayGrows(writes, more[..|more| - 1], marker);
      ApplyGrows(Replay(more[..|more| - 1], marker), more[|more| - 1], marker);
    } else {
      assert writes == more;
    }
  }

  lemma ApplyGrows(items: Store, op: Op, marker: Serialized)
    ensures items.Keys <= Apply(items, op, marker).Keys
  {
    if op.DoPutWrites? {
      EntriesGrow(items, op.writes, |op.writes.entries|);
    }
  }

  lemma {:induction false} EntriesGrow(items: Store, w: Writes, n: nat)
    requires n <= |w.entries|
    ensures items.Keys <= ApplyEntries(items, w, n).Keys
  {
    if n > 0 {
      EntriesGrow(items, w, n - 1);
    }
  }

  /** The items a checkpoint refers to: its parent and the blobs of its channels. */
  ghost predicate RefersTo(items: Store, k: ItemKey, target: ItemKey) {
    && k in items && items[k].CheckpointItem?
    && ((items[k].parent.Some? && target == CheckpointKey(k.thread, k.ns, items[k].parent.value))
        || (exists c :: c in items[k].body.channelVersions
              && target == BlobKey(k.thread, k.ns, c, items[k].body.channelVersions[c])))
  }

  /** An operation either removes a thread or lets its history grow. */
  lemma HistoryGrowsUnlessGone(cfg: Config, ops: seq<Op>, op: Op, thread: string)
    requires cfg.Valid()
    ensures thread !in Gone(cfg, Run(cfg, ops), op) ==> History(cfg, ops, thread) <= History(cfg, ops + [op], thread)
    ensures thread in Gone(cfg, Run(cfg, ops), op) ==> History(cfg, ops + [op], thread) <= [op]
  {
    assert (ops + [op])[..|ops|] == ops;
  }

  /** No operation of `more`, which follows `ops`, removes the thread. */
  ghost predicate Spares(cfg: Config, ops: seq<Op>, more: seq<Op>, thread: string)
    requires cfg.Valid()
  {
    forall i :: 0 <= i < |more| ==> thread !in Gone(cfg, Run(cfg, ops + more[..i]), more[i])
  }

  lemma SparesEarlier(cfg: Config, ops: seq<Op>, earlier: seq<Op>, last: Op, thread: string)
    requires cfg.Valid() && Spares(cfg, ops, earlier + [last], thread)
    ensures Spares(cfg, ops, earlier, thread) && thread !in Gone(cfg, Run(cfg, ops + earlier), last)
  {
    var more := earlier + [last];
    forall i | 0 <= i < |earlier|
      ensures thread !in Gone(cfg, Run(cfg, ops + earlier[..i]), earlier[i])
    {
      assert earlier[..i] == more[..i] && earlier[i] == more[i];
    }
    assert more[..|earlier|] == earlier;
  }

  lemma {:induction false} HistoryGrows(cfg: Config, ops: seq<Op>, more: seq<Op>, thread: string)
    requires cfg.Valid() && Spares(cfg, ops, more, thread)
    ensures History(cfg, ops, thread) <= History(cfg, ops + more, thread)
    decreases |more|
  {
    if more == [] {
      assert ops + more == ops;
    } else {
      var earlier, last := more[..|more| - 1], more[|more| - 1];
      assert more == earlier + [last];
      SparesEarlier(cfg, ops, earlier, last, thread);
      HistoryGrows(cfg, ops, earlier, thread);
      HistoryGrowsUnlessGone(cfg, ops + earlier, last, thread);
      assert ops + more == ops + earlier + [last];
    }
  }

  /** As long as a thread is not removed, none of its items disappears. */
  lemma ItemsKept(cfg: Config, ops: seq<Op>, more: seq<Op>, k: ItemKey)
    requires cfg.Valid() && Spares(cfg, ops, more, k.thread) && k in Run(cfg, ops).items
    ensures k in Run(cfg, ops + more).items
  {
    var t, longer := k.thread, ops + more;
    HistoryGrows(cfg, ops, more, t);
    ThreadIsReplay(cfg, ops, t);
    ThreadIsReplay(cfg, longer, t);
    ReplayGrows(History(cfg, ops, t), History(cfg, longer, t), cfg.marker);
    assert k in Of(Run(cfg, ops).items, t);
    assert k in Of(Run(cfg, longer).items, t);
  }

  /** Nor does any reference that could be resolved become dangling. */
  lemma AncestryKept(cfg: Config, ops: seq<Op>, more: seq<Op>, k: ItemKey, target: ItemKey)
    requires cfg.Valid() && Spares(cfg, ops, more, k.thread)
    requires RefersTo(Run(cfg, ops).items, k, target) && target in Run(cfg, ops).items
    ensures k in Run(cfg, ops + more).items && target in Run(cfg, ops + more).items
  {
    ItemsKept(cfg, ops, more, k);
    ItemsKept(cfg, ops, more, target);
  }

  /** The operation is an accepted put of this checkpoint. */
  ghost predicate Overwrites(cfg: Config, s: State, op: Op, k: ItemKey)
    requires cfg.Valid()
  {
    op.DoPut? && Stores(cfg, s, op) && k == CheckpointKey(op.put.thread, op.put.ns, op.put.id)
  }

  /**
   Whatever one call removes or stores, a checkpoint that it leaves in place and does
   not overwrite is unchanged and keeps every reference that could be resolved.
   */
  lemma ReferencesKept(cfg: Config, ops: seq<Op>, op: Op, k: ItemKey, target: ItemKey)
    requires cfg.Valid() && k in Step(cfg, Run(cfg, ops), op).items && !Overwrites(cfg, Run(cfg, ops), op, k)
    requires RefersTo(Run(cfg, ops).items, k, target) && target in Run(cfg, ops).items
    ensures RefersTo(Step(cfg, Run(cfg, ops), op).items, k, target)
    ensures target in Step(cfg, Run(cfg, ops), op).items
  {
    var s := Run(cfg, ops);
    RunKeepsInvariant(cfg, ops);
    StepForm(cfg, s, op);
    var rest := Without(s.items, Gone(cfg, s, op));
    SurvivorUnchanged(cfg, s, op, rest, k);
    ApplyGrows(rest, op, cfg.marker);
    assert k.thread == target.thread;
    assert target in rest;
  }

  lemma SurvivorUnchanged(cfg: Config, s: State, op: Op, rest: Store, k: ItemKey)
    requires cfg.Valid() && WellTyped(s.items) && k in s.items && k.CheckpointKey? && !Overwrites(cfg, s, op, k)
    requires rest == Without(s.items, Gone(cfg, s, op))
    requires k in if Stores(cfg, s, op) then Apply(rest, op, cfg.marker) else rest
    ensures k in rest
    ensures (if Stores(cfg, s, op) then Apply(rest, op, cfg.marker) else rest)[k] == s.items[k]
  {
    if Stores(cfg, s, op) && op.DoPutWrites? {
      EntriesSpareCheckpoints(rest, op.writes, |op.writes.entries|, k);
    }
  }

  lemma {:induction false} EntriesSpareCheckpoints(items: Store, w: Writes, n: nat, k: ItemKey)
    requires n <= |w.entries| && k.CheckpointKey?
    ensures k in ApplyEntries(items, w, n) <==> k in items
    ensures k in items ==> ApplyEntries(items, w, n)[k] == items[k]
  {
    if n > 0 {
      EntriesSpareCheckpoints(items, w, n - 1, k);
    }
  }

  // ---------- recency ----------

  /** The index of the operation that touched the thread last, or -1. */
  ghost function LastTouch(cfg: Config, ops: seq<Op>, thread: string): (i: int)
    requires cfg.Valid()
    ensures -1 <= i < |ops|
  {
    if ops == [] then -1
    else if Touched(cfg, Run(cfg, ops[..|ops| - 1]), ops[|ops| - 1]) == Some(thread) then |ops| - 1
    else LastTouch(cfg, ops[..|ops| - 1], thread)
  }

  function TouchTime(op: Op): real {
    match op
    case DoPut(_, _, at) => at
    case DoPutWrites(_, _, at) => at
    case DoGet(_, _, at) => at
    case DoList(_, _, _, at) => at
    case DoDelete(_) => 0.0
    case DoPurge(now) => now
    case DoStats(now) => now
    case DoClear => 0.0
  }

  /** The entry records the last touch of its thread. */
  ghost predicate Records(cfg: Config, ops: seq<Op>, x: Access)
    requires cfg.Valid()
  {
    var i := LastTouch(cfg, ops, x.thread);
    0 <= i && x.at == TouchTime(ops[i])
  }

  ghost predicate InTouchOrder(cfg: Config, ops: seq<Op>, order: seq<Access>)
    requires cfg.Valid()
  {
    && (forall i :: 0 <= i < |order| ==> Records(cfg, ops, order[i]))
    && (forall i, j :: 0 <= i < j < |order| ==>
          LastTouch(cfg, ops, order[i].thread) < LastTouch(cfg, ops, order[j].thread))
  }

  /** The recency order lists its threads by their last touch in the run. */
  lemma {:induction false} TouchOrder(cfg: Config, ops: seq<Op>)
    requires cfg.Valid()
    ensures InTouchOrder(cfg, ops, Run(cfg, ops).order)
  {
    if ops != [] {
      var earlier, op := ops[..|ops| - 1], ops[|ops| - 1];
      var s := Run(cfg, earlier);
      TouchOrder(cfg, earlier);
      RunKeepsInvariant(cfg, earlier);
      StepForm(cfg, s, op);
      var rest := Keep(s.order, Gone(cfg, s, op));
      KeepInTouchOrder(cfg, earlier, s.order, Gone(cfg, s, op));
      match Touched(cfg, s, op)
      case None => UntouchedOrder(cfg, ops, rest);
      case Some(t) =>
        KeepInTouchOrder(cfg, earlier, rest, {t});
        KeepMembers(rest, {t});
        TouchedOrder(cfg, ops, Keep(rest, {t}), t);
    }
  }

  lemma {:induction false} KeepInTouchOrder(cfg: Config, ops: seq<Op>, order: seq<Access>, gone: set<string>)
    requires cfg.Valid() && InTouchOrder(cfg, ops, order)
    ensures InTouchOrder(cfg, ops, Keep(order, gone))
  {
    if order != [] {
      KeepInTouchOrder(cfg, ops, order[1..], gone);
      var tail := Keep(order[1..], gone);
      forall j | 0 <= j < |tail|
        ensures LastTouch(cfg, ops, order[0].thread) < LastTouch(cfg, ops, tail[j].thread)
      {
        TouchedAfterFirst(cfg, ops, order, gone, tail[j]);
      }
      if order[0].thread !in gone {
        InTouchOrderCons(cfg, ops, order[0], tail);
      }
    }
  }

  lemma TouchedAfterFirst(cfg: Config, ops: seq<Op>, order: seq<Access>, gone: set<string>, x: Access)
    requires cfg.Valid() && order != [] && InTouchOrder(cfg, ops, order) && x in Keep(order[1..], gone)
    ensures LastTouch(cfg, ops, order[0].thread) < LastTouch(cfg, ops, x.thread)
  {
    KeepMembers(order[1..], gone);
    var i :| 0 <= i < |order[1..]| && order[1..][i] == x;
    assert order[i + 1] == x;
  }

  lemma InTouchOrderCons(cfg: Config, ops: seq<Op>, x: Access, tail: seq<Access>)
    requires cfg.Valid() && Records(cfg, ops, x) && InTouchOrder(cfg, ops, tail)
    requires forall j :: 0 <= j < |tail| ==> LastTouch(cfg, ops, x.thread) < LastTouch(cfg, ops, tail[j].thread)
    ensures InTouchOrder(cfg, ops, [x] + tail)
  {
  }

  lemma UntouchedOrder(cfg: Config, ops: seq<Op>, order: seq<Access>)
    requires cfg.Valid() && ops != [] && InTouchOrder(cfg, ops[..|ops| - 1], order)
    requires Touched(cfg, Run(cfg, ops[..|ops| - 1]), ops[|ops| - 1]) == None
    ensures InTouchOrder(cfg, ops, order)
  {
    forall i | 0 <= i < |order|
      ensures LastTouch(cfg, ops, order[i].thread) == LastTouch(cfg, ops[..|ops| - 1], order[i].thread)
      ensures Records(cfg, ops, order[i])
    {
      assert Records(cfg, ops[..|ops| - 1], order[i]);
    }
  }

  lemma TouchedOrder(cfg: Config, ops: seq<Op>, order: seq<Access>, thread: string)
    requires cfg.Valid() && ops != [] && InTouchOrder(cfg, ops[..|ops| - 1], order)
    requires Touched(cfg, Run(cfg, ops[..|ops| - 1]), ops[|ops| - 1]) == Some(thread)
    requires forall x :: x in order ==> x.thread != thread
    ensures InTouchOrder(cfg, ops, order + [Access(thread, TouchTime(ops[|ops| - 1]))])
  {
    var last := Access(thread, TouchTime(ops[|ops| - 1]));
    var longer := order + [last];
    forall i | 0 <= i < |longer|
      ensures Records(cfg, ops, longer[i])
      ensures i < |order| ==>
                LastTouch(cfg, ops, longer[i].thread) == LastTouch(cfg, ops[..|ops| - 1], order[i].thread) < |ops| - 1
    {
      if i < |order| {
        assert longer[i] == order[i] && order[i] in order;
        OlderRecord(cfg, ops, order[i]);
      } else {
        assert longer[i] == last;
      }
    }
  }

  lemma OlderRecord(cfg: Config, ops: seq<Op>, x: Access)
    requires cfg.Valid() && ops != [] && Records(cfg, ops[..|ops| - 1], x)
    requires Touched(cfg, Run(cfg, ops[..|ops| - 1]), ops[|ops| - 1]) != Some(x.thread)
    ensures Records(cfg, ops, x)
    ensures LastTouch(cfg, ops, x.thread) == LastTouch(cfg, ops[..|ops| - 1], x.thread) < |ops| - 1
  {
  }

  /** The index of the operation that removed the thread last, or -1. */
  ghost function LastGone(cfg: Config, ops: seq<Op>, thread: string): (i: int)
    requires cfg.Valid()
    ensures -1 <= i < |ops|
  {
    if ops == [] then -1
    else if thread in Gone(cfg, Run(cfg, ops[..|ops| - 1]), ops[|ops| - 1]) then |ops| - 1
    else LastGone(cfg, ops[..|ops| - 1], thread)
  }

  /** The thread was touched, and not removed since. An operation removes before it touches. */
  ghost predicate Alive(cfg: Config, ops: seq<Op>, thread: string)
    requires cfg.Valid()
  {
    0 <= LastTouch(cfg, ops, thread) && LastGone(cfg, ops, thread) <= LastTouch(cfg, ops, thread)
  }

  lemma ListedAfter(cfg: Config, s: State, op: Op, thread: string)
    requires cfg.Valid() && Owned(s)
    ensures thread in Threads(Step(cfg, s, op).order) <==>
              || Touched(cfg, s, op) == Some(thread)
              || (thread in Threads(s.order) && thread !in Gone(cfg, s, op))
  {
    StepForm(cfg, s, op);
    var rest := Keep(s.order, Gone(cfg, s, op));
    ThreadsKeep(s.order, Gone(cfg, s, op));
    match Touched(cfg, s, op)
    case None =>
    case Some(t) =>
      ThreadsKeep(rest, {t});
      ThreadsAppend(Keep(rest, {t}), Access(t, op.at));
  }

  lemma ThreadsAppend(order: seq<Access>, x: Access)
    ensures Threads(order + [x]) == Threads(order) + {x.thread}
  {
    assert (order + [x])[..|order|] == order;
    ThreadsPrefixStep(order + [x], |order|);
    assert (order + [x])[..|order| + 1] == order + [x];
  }

  lemma {:induction false} ListedIff(cfg: Config, ops: seq<Op>, thread: string)
    requires cfg.Valid()
    ensures thread in Threads(Run(cfg, ops).order) <==> Alive(cfg, ops, thread)
  {
    if ops != [] {
      var earlier, op := ops[..|ops| - 1], ops[|ops| - 1];
      ListedIff(cfg, earlier, thread);
      RunKeepsInvariant(cfg, earlier);
      ListedAfter(cfg, Run(cfg, earlier), op, thread);
    }
  }

  /**
   The recency order lists exactly the threads that were touched and not removed
   since, by their last touch in the run, each with the time of that touch.
   */
  lemma RecencyOrder(cfg: Config, ops: seq<Op>)
    requires cfg.Valid()
    ensures InTouchOrder(cfg, ops, Run(cfg, ops).order)
    ensures forall t :: t in Threads(Run(cfg, ops).order) <==> Alive(cfg, ops, t)
  {
    TouchOrder(cfg, ops);
    forall t
      ensures t in Threads(Run(cfg, ops).order) <==> Alive(cfg, ops, t)
    {
      ListedIff(cfg, ops, t);
    }
  }

  // ---------- time ----------

  predicate ReadsClock(op: Op) {
    !op.DoDelete? && !op.DoClear?
  }

  function StartTime(op: Op): real
    requires ReadsClock(op)
  {
    op.now
  }

  /** The clock never goes back, within an operation or between operations. */
  ghost predicate Timely(ops: seq<Op>) {
    && (forall i :: 0 <= i < |ops| && ReadsClock(ops[i]) ==> StartTime(ops[i]) <= TouchTime(ops[i]))
    && (forall i, j :: 0 <= i < j < |ops| && ReadsClock(ops[i]) && ReadsClock(ops[j]) ==>
          TouchTime(ops[i]) <= StartTime(ops[j]))
  }

  lemma {:induction false} TouchReadsClock(cfg: Config, ops: seq<Op>, thread: string)
    requires cfg.Valid() && 0 <= LastTouch(cfg, ops, thread)
    ensures ReadsClock(ops[LastTouch(cfg, ops, thread)])
  {
    if Touched(cfg, Run(cfg, ops[..|ops| - 1]), ops[|ops| - 1]) != Some(thread) {
      TouchReadsClock(cfg, ops[..|ops| - 1], thread);
    }
  }

  /** Under a clock that never goes back, the timestamps of the recency order are sorted. */
  lemma TimestampsSorted(cfg: Config, ops: seq<Op>, i: nat, j: nat)
    requires cfg.Valid() && Timely(ops) && i < j < |Run(cfg, ops).order|
    ensures Run(cfg, ops).order[i].at <= Run(cfg, ops).order[j].at
  {
    var order := Run(cfg, ops).order;
    TouchOrder(cfg, ops);
    assert Records(cfg, ops, order[i]) && Records(cfg, ops, order[j]);
    TouchReadsClock(cfg, ops, order[i].thread);
    TouchReadsClock(cfg, ops, order[j].thread);
  }

  /** A purge then removes exactly a prefix: the threads idle for at least the TTL. */
  lemma PurgeIsPrefix(cfg: Config, ops: seq<Op>, now: real) returns (n: nat)
    requires cfg.Valid() && Timely(ops)
    ensures n <= |Run(cfg, ops).order|
    ensures forall i :: 0 <= i < |Run(cfg, ops).order| ==>
              (i < n <==> Run(cfg, ops).order[i].at <= now - cfg.idleTtl)
    ensures Purge(cfg, Run(cfg, ops), now).order == Run(cfg, ops).order[n..]
  {
    var order, cutoff := Run(cfg, ops).order, now - cfg.idleTtl;
    n := 0;
    while n < |order| && order[n].at <= cutoff
      invariant n <= |order| && forall i :: 0 <= i < n ==> order[i].at <= cutoff
    {
      n := n + 1;
    }
    forall i | n <= i < |order|
      ensures order[i].at > cutoff
    {
      if i > n {
        TimestampsSorted(cfg, ops, n, i);
      }
    }
    RunKeepsInvariant(cfg, ops);
    ExpiredPrefix(order, cutoff, n);
    KeepSuffix(order, n);
  }

  lemma ExpiredPrefix(order: seq<Access>, cutoff: real, n: nat)
    requires n <= |order| && forall i :: 0 <= i < |order| ==> (i < n <==> order[i].at <= cutoff)
    ensures Expired(order, cutoff) == Threads(order[..n])
  {
    forall t | t in Threads(order[..n])
      ensures t in Expired(order, cutoff)
    {
      var i :| 0 <= i < n && order[..n][i].thread == t;
      assert order[i].thread == t && order[i].at <= cutoff;
    }
    forall t | t in Expired(order, cutoff)
      ensures t in Threads(order[..n])
    {
      var i :| 0 <= i < |order| && order[i].at <= cutoff && order[i].thread == t;
      assert order[..n][i].thread == t;
    }
  }

  // ---------- reads ----------

  /** What a thread may still answer from: its replayed history, or nothing once it expired. */
  ghost function Readable(cfg: Config, ops: seq<Op>, thread: string, now: real): Store
    requires cfg.Valid()
  {
    if LastTouch(cfg, ops, thread) >= 0 && TouchTime(ops[LastTouch(cfg, ops, thread)]) > now - cfg.idleTtl
    then Replay(History(cfg, ops, thread), cfg.marker)
    else map[]
  }

  /** A live thread is expired exactly when its last touch is at least the TTL ago. */
  lemma ExpiredIff(cfg: Config, ops: seq<Op>, thread: string, cutoff: real)
    requires cfg.Valid() && thread in Threads(Run(cfg, ops).order)
    ensures LastTouch(cfg, ops, thread) >= 0
    ensures thread in Expired(Run(cfg, ops).order, cutoff) <==> TouchTime(ops[LastTouch(cfg, ops, thread)]) <= cutoff
  {
    var order := Run(cfg, ops).order;
    TouchOrder(cfg, ops);
    var i :| 0 <= i < |order| && order[i].thread == thread;
    assert Records(cfg, ops, order[i]);
    forall j | 0 <= j < |order| && order[j].thread == thread
      ensures order[j].at == order[i].at
    {
      assert Records(cfg, ops, order[j]);
    }
  }

  lemma PurgedThread(cfg: Config, ops: seq<Op>, thread: string, now: real)
    requires cfg.Valid()
    ensures Of(Purge(cfg, Run(cfg, ops), now).items, thread) == Readable(cfg, ops, thread, now)
  {
    var s := Run(cfg, ops);
    ThreadIsReplay(cfg, ops, thread);
    OfWithout(s.items, thread, Expired(s.order, now - cfg.idleTtl));
    if thread in Threads(s.order) {
      ExpiredIff(cfg, ops, thread, now - cfg.idleTtl);
    } else {
      RunKeepsInvariant(cfg, ops);
      assert Of(s.items, thread) == map[];
    }
  }

  /** A lookup answers what the unbounded store would, or nothing once the thread was idle for the TTL. */
  lemma LookupIsUnboundedOrNothing(cfg: Config, ops: seq<Op>, q: Query, now: real)
    requires cfg.Valid()
    ensures Lookup(Purge(cfg, Run(cfg, ops), now).items, q) == Lookup(Readable(cfg, ops, q.thread, now), q)
  {
    var items := Purge(cfg, Run(cfg, ops), now).items;
    PurgedThread(cfg, ops, q.thread, now);
    LookupOwnThread(items, q);
  }

  lemma LookupOwnThread(items: Store, q: Query)
    ensures Lookup(items, q) == Lookup(Of(items, q.thread), q)
  {
    assert View(items, q.thread, q.ns) == View(Of(items, q.thread), q.thread, q.ns);
    if k :| k in items && Matches(q, k) {
      assert k in Of(items, q.thread);
    }
  }

  /** The same for a listing of one thread. */
  lemma ListIsUnboundedOrNothing(cfg: Config, ops: seq<Op>, thread: string, selected: set<ItemKey>, now: real)
    requires cfg.Valid()
    ensures Select(Purge(cfg, Run(cfg, ops), now).items, Some(thread), selected)
         == Select(Readable(cfg, ops, thread, now), Some(thread), selected)
  {
    var items := Purge(cfg, Run(cfg, ops), now).items;
    PurgedThread(cfg, ops, thread, now);
    assert Select(items, Some(thread), selected) == Select(Of(items, thread), Some(thread), selected);
  }
}
