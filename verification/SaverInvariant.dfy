/** What holds in every reachable state of the bounded saver. */
module SaverInvariant {
  import opened ByteSizes
  import opened Items
  import opened SaverSpec

  /** Every item belongs to a thread of the recency order. */
  ghost predicate Owned(s: State) {
    forall k :: k in s.items ==> k.thread in Threads(s.order)
  }

  ghost predicate WithinCaps(cfg: Config, items: Store, thread: string) {
    |Namespaces(items, thread)| <= cfg.maxNamespaces && |Checkpoints(items, thread)| <= cfg.maxCheckpoints
  }

  ghost predicate Inv(cfg: Config, s: State) {
    && Distinct(s.order)
    && |s.order| <= cfg.maxThreads
    && Owned(s)
    && WellTyped(s.items)
    && forall t :: WithinCaps(cfg, s.items, t)
  }

  /** The capacity caps and the ownership of all items hold after every run. */
  lemma {:induction false} RunKeepsInvariant(cfg: Config, ops: seq<Op>)
    requires cfg.Valid()
    ensures Inv(cfg, Run(cfg, ops))
  {
    if ops == [] {
      EmptyInvariant(cfg);
    } else {
      var before := Run(cfg, ops[..|ops| - 1]);
      RunKeepsInvariant(cfg, ops[..|ops| - 1]);
      StepKeepsInvariant(cfg, before, ops[|ops| - 1]);
    }
  }

  lemma EmptyInvariant(cfg: Config)
    ensures Inv(cfg, EMPTY)
  {
    forall t ensures WithinCaps(cfg, EMPTY.items, t) {
      assert Namespaces(EMPTY.items, t) == {} && Checkpoints(EMPTY.items, t) == {};
    }
  }

  lemma StepKeepsInvariant(cfg: Config, s: State, op: Op)
    requires cfg.Valid() && Inv(cfg, s)
    ensures Inv(cfg, Step(cfg, s, op))
  {
    match op
    case DoPut(p, now, at) => PutKeepsInvariant(cfg, s, p, now, at);
    case DoPutWrites(w, now, at) => PutWritesKeepsInvariant(cfg, s, w, now, at);
    case DoGet(q, now, at) => GetKeepsInvariant(cfg, s, q, now, at);
    case DoList(thread, selected, now, at) => ListKeepsInvariant(cfg, s, thread, selected, now, at);
    case DoDelete(target) => DropKeepsInvariant(cfg, s, {target});
    case DoPurge(now) => DropKeepsInvariant(cfg, s, Expired(s.order, now - cfg.idleTtl));
    case DoStats(now) => DropKeepsInvariant(cfg, s, Expired(s.order, now - cfg.idleTtl));
    case DoClear => EmptyInvariant(cfg);
  }

  lemma PutKeepsInvariant(cfg: Config, s: State, p: Put, now: real, at: real)
    requires cfg.Valid() && Inv(cfg, s)
    ensures Inv(cfg, PutResult(cfg, s, p, now, at).state)
  {
    var r := Admit(cfg, s, p.thread, p.ns, p.id, PutEstimate(p), now);
    AdmitKeepsInvariant(cfg, s, p.thread, p.ns, p.id, PutEstimate(p), now);
    if r.outcome == Accepted {
      PutCaps(cfg, r.state.items, p);
      StoreAndTouch(cfg, r.state, ApplyPut(r.state.items, p, cfg.marker), p.thread, at);
    }
  }

  lemma PutWritesKeepsInvariant(cfg: Config, s: State, w: Writes, now: real, at: real)
    requires cfg.Valid() && Inv(cfg, s)
    ensures Inv(cfg, PutWritesResult(cfg, s, w, now, at).state)
  {
    var r := Admit(cfg, s, w.thread, w.ns, w.id, WritesEstimate(w), now);
    AdmitKeepsInvariant(cfg, s, w.thread, w.ns, w.id, WritesEstimate(w), now);
    if r.outcome == Accepted {
      WritesCaps(cfg, r.state.items, w);
      StoreAndTouch(cfg, r.state, ApplyWrites(r.state.items, w), w.thread, at);
    }
  }

  lemma GetKeepsInvariant(cfg: Config, s: State, q: Query, now: real, at: real)
    requires Inv(cfg, s)
    ensures Inv(cfg, GetState(cfg, s, q, now, at))
  {
    var purged := Purge(cfg, s, now);
    DropKeepsInvariant(cfg, s, Expired(s.order, now - cfg.idleTtl));
    if k :| k in purged.items && Matches(q, k) {
      ReadKeepsInvariant(cfg, purged, k, at);
    }
  }

  lemma ListKeepsInvariant(cfg: Config, s: State, thread: Option<string>, selected: set<ItemKey>, now: real, at: real)
    requires Inv(cfg, s)
    ensures Inv(cfg, ListState(cfg, s, thread, selected, now, at))
  {
    var purged := Purge(cfg, s, now);
    DropKeepsInvariant(cfg, s, Expired(s.order, now - cfg.idleTtl));
    if thread.Some? && Select(purged.items, thread, selected) != map[] {
      var k :| k in Select(purged.items, thread, selected);
      ReadKeepsInvariant(cfg, purged, k, at);
    }
  }

  lemma ReadKeepsInvariant(cfg: Config, s: State, k: ItemKey, at: real)
    requires Inv(cfg, s) && k in s.items
    ensures Inv(cfg, Touch(s, k.thread, at))
  {
    StoreAndTouch(cfg, s, s.items, k.thread, at);
    assert s.(items := s.items) == s;
  }

  lemma SubsetCaps(cfg: Config, items: Store, fewer: Store, t: string)
    requires fewer.Keys <= items.Keys && WithinCaps(cfg, items, t)
    ensures WithinCaps(cfg, fewer, t)
  {
    assert Namespaces(fewer, t) <= Namespaces(items, t);
    assert Checkpoints(fewer, t) <= Checkpoints(items, t);
    SubsetSize(Namespaces(fewer, t), Namespaces(items, t));
    SubsetSize(Checkpoints(fewer, t), Checkpoints(items, t));
  }

  lemma SubsetSize<T>(a: set<T>, b: set<T>)
    requires a <= b
    ensures |a| <= |b|
  {
    assert b == a + (b - a);
  }

  lemma DropKeepsInvariant(cfg: Config, s: State, gone: set<string>)
    requires Inv(cfg, s)
    ensures Inv(cfg, Drop(s, gone))
  {
    KeepMembers(s.order, gone);
    ThreadsKeep(s.order, gone);
    KeepLength(s.order, gone);
    forall t ensures WithinCaps(cfg, Without(s.items, gone), t) {
      SubsetCaps(cfg, s.items, Without(s.items, gone), t);
    }
  }

  lemma {:induction false} KeepLength(order: seq<Access>, gone: set<string>)
    ensures |Keep(order, gone)| <= |order|
  {
    if order != [] {
      KeepLength(order[1..], gone);
    }
  }

  /** The threads removed before the caps are checked: expired ones, and the oldest for a place. */
  ghost function RoomyGone(cfg: Config, s: State, thread: string, now: real): set<string>
    requires cfg.Valid()
  {
    var purged := Purge(cfg, s, now);
    Expired(s.order, now - cfg.idleTtl)
    + if thread in Threads(purged.order) then {} else Threads(purged.order[..Surplus(cfg, purged.order)])
  }

  /** The threads evicted for bytes. */
  ghost function BytesGone(cfg: Config, s: State, thread: string, size: nat): set<string> {
    Threads(Others(s, thread)[..EvictCount(cfg, s, size, thread, 0)])
  }

  ghost predicate CapsFit(cfg: Config, items: Store, thread: string, ns: string, id: string) {
    NamespaceFits(cfg, items, thread, ns) && CheckpointFits(cfg, items, thread, ns, id)
  }

  /** All threads that admission removes. */
  ghost function AdmitGone(cfg: Config, s: State, thread: string, ns: string, id: string, size: nat, now: real)
    : set<string>
    requires cfg.Valid()
  {
    var roomy := Roomy(cfg, s, thread, now);
    RoomyGone(cfg, s, thread, now)
    + if CapsFit(cfg, roomy.items, thread, ns, id) then BytesGone(cfg, roomy, thread, size) else {}
  }

  /** Admission only removes complete threads; its own thread goes only by expiry. */
  lemma AdmitDrops(cfg: Config, s: State, thread: string, ns: string, id: string, size: nat, now: real)
    requires cfg.Valid()
    ensures Admit(cfg, s, thread, ns, id, size, now).state == Drop(s, AdmitGone(cfg, s, thread, ns, id, size, now))
    ensures thread in AdmitGone(cfg, s, thread, ns, id, size, now) <==> thread in Expired(s.order, now - cfg.idleTtl)
  {
    var roomy := Roomy(cfg, s, thread, now);
    RoomyDrops(cfg, s, thread, now);
    BytesGoneSpares(cfg, roomy, thread, size);
    if CapsFit(cfg, roomy.items, thread, ns, id) {
      DropDrop(s, RoomyGone(cfg, s, thread, now), BytesGone(cfg, roomy, thread, size));
    } else {
      assert RoomyGone(cfg, s, thread, now) + {} == RoomyGone(cfg, s, thread, now);
    }
  }

  lemma RoomyDrops(cfg: Config, s: State, thread: string, now: real)
    requires cfg.Valid()
    ensures Roomy(cfg, s, thread, now) == Drop(s, RoomyGone(cfg, s, thread, now))
    ensures thread in RoomyGone(cfg, s, thread, now) <==> thread in Expired(s.order, now - cfg.idleTtl)
  {
    var expired := Expired(s.order, now - cfg.idleTtl);
    var purged := Purge(cfg, s, now);
    if thread in Threads(purged.order) {
      assert expired + {} == expired;
    } else {
      DropDrop(s, expired, Threads(purged.order[..Surplus(cfg, purged.order)]));
      ThreadsPrefix(purged.order, Surplus(cfg, purged.order));
    }
  }

  lemma BytesGoneSpares(cfg: Config, s: State, thread: string, size: nat)
    ensures thread !in BytesGone(cfg, s, thread, size)
  {
    ThreadsKeep(s.order, {thread});
    ThreadsPrefix(Others(s, thread), EvictCount(cfg, s, size, thread, 0));
  }

  /** After admission there is a place for the thread in the recency order. */
  lemma AdmitKeepsInvariant(cfg: Config, s: State, thread: string, ns: string, id: string, size: nat, now: real)
    requires cfg.Valid() && Inv(cfg, s)
    ensures var r := Admit(cfg, s, thread, ns, id, size, now);
            && Inv(cfg, r.state)
            && (thread in Threads(r.state.order) || |r.state.order| < cfg.maxThreads)
            && (r.outcome == Accepted ==> CapsFit(cfg, r.state.items, thread, ns, id))
  {
    AdmitDrops(cfg, s, thread, ns, id, size, now);
    DropKeepsInvariant(cfg, s, AdmitGone(cfg, s, thread, ns, id, size, now));
    PlaceForThread(cfg, s, thread, now);
    var roomy := Roomy(cfg, s, thread, now);
    EvictionSpares(roomy, thread, EvictCount(cfg, roomy, size, thread, 0));
  }

  lemma PlaceForThread(cfg: Config, s: State, thread: string, now: real)
    requires cfg.Valid() && Inv(cfg, s)
    ensures var roomy := Roomy(cfg, s, thread, now);
            thread in Threads(roomy.order) || |roomy.order| < cfg.maxThreads
  {
    var purged := Purge(cfg, s, now);
    DropKeepsInvariant(cfg, s, Expired(s.order, now - cfg.idleTtl));
    if thread !in Threads(purged.order) {
      KeepSuffix(purged.order, Surplus(cfg, purged.order));
    }
  }

  /** Evicting candidates leaves the protected thread's contents and place alone. */
  lemma EvictionSpares(s: State, thread: string, n: nat)
    requires n <= |Others(s, thread)|
    ensures var after := Drop(s, Threads(Others(s, thread)[..n]));
            && Of(after.items, thread) == Of(s.items, thread)
            && Namespaces(after.items, thread) == Namespaces(s.items, thread)
            && Checkpoints(after.items, thread) == Checkpoints(s.items, thread)
            && (thread in Threads(after.order) <==> thread in Threads(s.order))
            && |after.order| <= |s.order|
  {
    var victims := Threads(Others(s, thread)[..n]);
    ThreadsKeep(s.order, {thread});
    ThreadsPrefix(Others(s, thread), n);
    OfWithout(s.items, thread, victims);
    ThreadsKeep(s.order, victims);
    KeepLength(s.order, victims);
    SameThread(s.items, Without(s.items, victims), thread);
  }

  lemma SameThread(items: Store, items': Store, thread: string)
    requires Of(items, thread) == Of(items', thread)
    ensures Namespaces(items, thread) == Namespaces(items', thread)
    ensures Checkpoints(items, thread) == Checkpoints(items', thread)
  {
    forall k
      ensures k in items && k.thread == thread <==> k in items' && k.thread == thread
    {
      assert k in Of(items, thread) <==> k in Of(items', thread);
    }
  }

  /** Storing items of one thread and touching it. */
  lemma StoreAndTouch(cfg: Config, s: State, items: Store, thread: string, at: real)
    requires Inv(cfg, s)
    requires thread in Threads(s.order) || |s.order| < cfg.maxThreads
    requires forall k :: k in items ==> k in s.items || k.thread == thread
    requires WellTyped(items)
    requires forall t :: WithinCaps(cfg, items, t)
    ensures Inv(cfg, Touch(s.(items := items), thread, at))
  {
    KeepMembers(s.order, {thread});
    ThreadsKeep(s.order, {thread});
    KeepLength(s.order, {thread});
    if thread in Threads(s.order) {
      KeepShorter(s.order, thread);
    }
    var order := Keep(s.order, {thread}) + [Access(thread, at)];
    forall t | t in Threads(s.order) || t == thread
      ensures t in Threads(order)
    {
      if t == thread {
        assert order[|order| - 1].thread == thread;
      } else {
        var i :| 0 <= i < |Keep(s.order, {thread})| && Keep(s.order, {thread})[i].thread == t;
        assert order[i].thread == t;
      }
    }
  }

  lemma {:induction false} KeepShorter(order: seq<Access>, thread: string)
    requires thread in Threads(order)
    ensures |Keep(order, {thread})| < |order|
  {
    if order[0].thread != thread {
      var i :| 0 <= i < |order| && order[i].thread == thread;
      assert order[1..][i - 1].thread == thread;
      KeepShorter(order[1..], thread);
    } else {
      KeepLength(order[1..], {thread});
    }
  }

  lemma AddOne<T>(s: set<T>, more: set<T>, x: T, cap: nat)
    requires |s| <= cap && (x in s || |s| < cap) && more <= s + {x}
    ensures |more| <= cap
  {
    assert x in s ==> s + {x} == s;
    SubsetSize(more, s + {x});
  }

  /** A write adds at most its own namespace and checkpoint, which admission has checked. */
  lemma WriteKeepsCaps(cfg: Config, items: Store, items': Store, thread: string, ns: string, id: string)
    requires forall t :: WithinCaps(cfg, items, t)
    requires NamespaceFits(cfg, items, thread, ns) && CheckpointFits(cfg, items, thread, ns, id)
    requires forall k :: k in items' && k !in items ==>
               k.thread == thread && (k.BlobKey? || (k.ns == ns && k.id == id))
    ensures forall t :: WithinCaps(cfg, items', t)
  {
    forall t ensures WithinCaps(cfg, items', t) {
      assert WithinCaps(cfg, items, t);
      if t == thread {
        AddOne(Namespaces(items, t), Namespaces(items', t), ns, cfg.maxNamespaces);
        AddOne(Checkpoints(items, t), Checkpoints(items', t), (ns, id), cfg.maxCheckpoints);
      } else {
        SubsetSize(Namespaces(items', t), Namespaces(items, t));
        SubsetSize(Checkpoints(items', t), Checkpoints(items, t));
      }
    }
  }

  lemma PutCaps(cfg: Config, items: Store, p: Put)
    requires WellTyped(items) && forall t :: WithinCaps(cfg, items, t)
    requires CapsFit(cfg, items, p.thread, p.ns, p.id)
    ensures WellTyped(ApplyPut(items, p, cfg.marker))
    ensures forall t :: WithinCaps(cfg, ApplyPut(items, p, cfg.marker), t)
  {
    WriteKeepsCaps(cfg, items, ApplyPut(items, p, cfg.marker), p.thread, p.ns, p.id);
  }

  lemma WritesCaps(cfg: Config, items: Store, w: Writes)
    requires WellTyped(items) && forall t :: WithinCaps(cfg, items, t)
    requires CapsFit(cfg, items, w.thread, w.ns, w.id)
    ensures WellTyped(ApplyWrites(items, w))
    ensures forall k :: k in ApplyWrites(items, w) ==> k in items || k.thread == w.thread
    ensures forall t :: WithinCaps(cfg, ApplyWrites(items, w), t)
  {
    EntriesKeys(items, w, |w.entries|);
    WriteKeepsCaps(cfg, items, ApplyWrites(items, w), w.thread, w.ns, w.id);
  }

  lemma {:induction false} EntriesKeys(items: Store, w: Writes, n: nat)
    requires n <= |w.entries| && WellTyped(items)
    ensures WellTyped(ApplyEntries(items, w, n))
    ensures items.Keys <= ApplyEntries(items, w, n).Keys
    ensures forall k :: k in ApplyEntries(items, w, n) && k !in items ==>
              k.WriteKey? && k.thread == w.thread && k.ns == w.ns && k.id == w.id
  {
    if n > 0 {
      EntriesKeys(items, w, n - 1);
    }
  }

  // ---------- the number of stored checkpoints ----------

  /** `stats()` never reports more checkpoints than threads times checkpoints per thread. */
  lemma StatsBound(cfg: Config, ops: seq<Op>)
    requires cfg.Valid()
    ensures |CheckpointKeys(Run(cfg, ops).items)| <= cfg.maxThreads * cfg.maxCheckpoints
  {
    var s := Run(cfg, ops);
    RunKeepsInvariant(cfg, ops);
    CheckpointsUpTo(cfg, s, |s.order|);
    assert CheckpointKeys(s.items) == KeysOfThreads(s, |s.order|);
    TimesMonotone(|s.order|, cfg.maxThreads, cfg.maxCheckpoints);
    TimesIsProduct(cfg.maxThreads, cfg.maxCheckpoints);
  }

  lemma {:induction false} TimesMonotone(m: nat, n: nat, size: nat)
    requires m <= n
    ensures Times(m, size) <= Times(n, size)
  {
    if m < n {
      TimesMonotone(m, n - 1, size);
    }
  }

  ghost function KeysOfThreads(s: State, n: nat): set<ItemKey>
    requires n <= |s.order|
  {
    set k | k in s.items && k.CheckpointKey? && exists i :: 0 <= i < n && s.order[i].thread == k.thread
  }

  lemma {:induction false} CheckpointsUpTo(cfg: Config, s: State, n: nat)
    requires Inv(cfg, s) && n <= |s.order|
    ensures |KeysOfThreads(s, n)| <= Times(n, cfg.maxCheckpoints)
  {
    if n == 0 {
      assert KeysOfThreads(s, 0) == {};
    } else {
      CheckpointsUpTo(cfg, s, n - 1);
      var t := s.order[n - 1].thread;
      var mine := set k | k in s.items && k.CheckpointKey? && k.thread == t;
      KeysOfOneThread(s.items, t, mine);
      assert WithinCaps(cfg, s.items, t);
      KeysOfThreadsStep(s, n, mine);
    }
  }

  lemma KeysOfThreadsStep(s: State, n: nat, mine: set<ItemKey>)
    requires 0 < n <= |s.order|
    requires mine == set k | k in s.items && k.CheckpointKey? && k.thread == s.order[n - 1].thread
    ensures |KeysOfThreads(s, n)| <= |KeysOfThreads(s, n - 1)| + |mine|
  {
    assert KeysOfThreads(s, n) <= KeysOfThreads(s, n - 1) + mine;
    SubsetSize(KeysOfThreads(s, n), KeysOfThreads(s, n - 1) + mine);
  }

  lemma KeysOfOneThread(items: Store, t: string, keys: set<ItemKey>)
    requires forall k :: k in keys ==> k in items && k.CheckpointKey? && k.thread == t
    ensures |keys| <= |Checkpoints(items, t)|
  {
    var pairs := set k | k in keys :: (k.ns, k.id);
    PairsOfKeys(t, keys, pairs);
    assert pairs <= Checkpoints(items, t);
    SubsetSize(pairs, Checkpoints(items, t));
  }

  lemma {:induction false} PairsOfKeys(t: string, keys: set<ItemKey>, pairs: set<(string, string)>)
    requires forall k :: k in keys ==> k.CheckpointKey? && k.thread == t
    requires pairs == set k | k in keys :: (k.ns, k.id)
    ensures |keys| == |pairs|
  {
    if keys != {} {
      var k :| k in keys;
      PairsOfKeys(t, keys - {k}, pairs - {(k.ns, k.id)});
    }
  }
}
