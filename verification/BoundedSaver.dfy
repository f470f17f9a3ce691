/**
 The bounded saver. Its methods update the recency list and the size ledger in
 place, and each leaves exactly the state its specification demands.
 */
module BoundedSaver {
  import opened ByteSizes
  import opened Items
  import opened Dictionaries
  import opened InMemorySaverModel
  import opened SaverSpec
  import opened SaverInvariant
  import opened SaverAdmission
  import opened SaverHistory
  import opened SaverMeaning
  import opened StoredBytes

  datatype Stats = Stats(threads: nat, checkpoints: nat, pendingWrites: nat, serializedBytes: int)

  class BoundedInMemorySaver {
    const config: Config
    const parent: InMemorySaver
    var lastAccess: seq<Access>
    var sizes: map<ItemKey, nat>
    var serializedBytes: int
    /** The calls made so far. */
    ghost var trace: seq<Op>

    /** The ledger is what a full recount of the store would find. */
    ghost predicate Valid()
      reads this, parent
    {
      && config.Valid()
      && parent.Valid()
      && Distinct(lastAccess)
      && LedgerAdds()
      && sizes == Sizes(parent.items)
    }

    /** Valid, and in the state that the calls made so far lead to. */
    ghost predicate Ready()
      reads this, parent
    {
      Valid() && Current() == Run(config, trace)
    }

    ghost predicate LedgerAdds()
      reads this
    {
      serializedBytes == Sum(sizes)
    }

    ghost function Current(): State
      reads this, parent
    {
      State(parent.items, lastAccess)
    }

    constructor (config: Config)
      requires config.Valid()
      ensures Ready() && fresh(parent) && this.config == config && trace == []
    {
      this.config := config;
      parent := new InMemorySaver();
      lastAccess, sizes, serializedBytes, trace := [], map[], 0, [];
    }

    // ---------- the public operations ----------

    /** Answers from the thread's replayed history, or not at all once the thread expired. */
    method GetTuple(q: Query, now: real, at: real) returns (answer: Option<Store>)
      requires Ready()
      modifies this, parent
      ensures Ready() && trace == old(trace) + [DoGet(q, now, at)]
      ensures answer == Lookup(Readable(config, old(trace), q.thread, now), q)
      ensures Answers(answer, Readable(config, old(trace), q.thread, now), q)
      ensures Touches(old(lastAccess), lastAccess, now - config.idleTtl,
                      if answer.Some? then Some(Access(q.thread, at)) else None)
    {
      LookupAnswers(Readable(config, trace, q.thread, now), q);
      GetTouches(config, Current(), q, now, at);
      LookupIsUnboundedOrNothing(config, trace, q, now);
      RunAppend(config, trace, DoGet(q, now, at));
      answer := GetTupleLocked(q, now, at);
      trace := trace + [DoGet(q, now, at)];
    }

    method List(thread: Option<string>, selected: set<ItemKey>, now: real, at: real) returns (found: Store)
      requires Ready()
      modifies this, parent
      ensures Ready() && trace == old(trace) + [DoList(thread, selected, now, at)]
      ensures found == Select(Purge(config, Run(config, old(trace)), now).items, thread, selected)
      ensures thread.Some? ==> found == Select(Readable(config, old(trace), thread.value, now), thread, selected)
      ensures ListsFrom(config, old(trace), now, thread, selected, found)
      ensures ListingTouches(config, old(lastAccess), lastAccess, now, thread, at, found)
    {
      ListMeaning(config, trace, thread, selected, now, at);
      RunAppend(config, trace, DoList(thread, selected, now, at));
      found := ListLocked(thread, selected, now, at);
      trace := trace + [DoList(thread, selected, now, at)];
    }

    /** Stores a checkpoint, or rejects it for reasons that concern its own thread only. */
    method Put(p: Put, now: real, at: real) returns (outcome: Outcome)
      requires Ready()
      modifies this, parent
      ensures Ready() && trace == old(trace) + [DoPut(p, now, at)]
      ensures outcome == PutResult(config, Run(config, old(trace)), p, now, at).outcome
      ensures outcome == Verdict(config, Run(config, old(trace)), p.thread, p.ns, p.id,
                                 PutEstimate(p), config.maxCheckpointBytes, now)
      ensures forall namespaces, checkpoints, own ::
                && AreNamespaces(Run(config, old(trace)).items, p.thread, namespaces)
                && AreCheckpoints(Run(config, old(trace)).items, p.thread, checkpoints)
                && AreItems(Run(config, old(trace)).items, p.thread, own) ==>
                  OutcomeIs(config, Run(config, old(trace)), p.thread, p.ns, p.id, PutEstimate(p),
                            config.maxCheckpointBytes, now, namespaces, checkpoints, own, outcome)
      ensures outcome == Accepted ==> lastAccess != [] && lastAccess[|lastAccess| - 1] == Access(p.thread, at)
    {
      forall namespaces, checkpoints, own
        | && AreNamespaces(Run(config, trace).items, p.thread, namespaces)
          && AreCheckpoints(Run(config, trace).items, p.thread, checkpoints)
          && AreItems(Run(config, trace).items, p.thread, own)
        ensures OutcomeIs(config, Run(config, trace), p.thread, p.ns, p.id, PutEstimate(p),
                          config.maxCheckpointBytes, now, namespaces, checkpoints, own,
                          PutResult(config, Run(config, trace), p, now, at).outcome)
      {
        PutOutcome(config, trace, p, now, at, namespaces, checkpoints, own);
      }
      PutVerdict(config, trace, p, now, at);
      RunAppend(config, trace, DoPut(p, now, at));
      outcome := PutLocked(p, now, at);
      trace := trace + [DoPut(p, now, at)];
    }

    /** Stores a batch of pending writes, or rejects it for reasons that concern its own thread only. */
    method PutWrites(w: Writes, now: real, at: real) returns (outcome: Outcome)
      requires Ready()
      modifies this, parent
      ensures Ready() && trace == old(trace) + [DoPutWrites(w, now, at)]
      ensures outcome == PutWritesResult(config, Run(config, old(trace)), w, now, at).outcome
      ensures outcome == Verdict(config, Run(config, old(trace)), w.thread, w.ns, w.id,
                                 WritesEstimate(w), config.maxPendingBytes, now)
      ensures forall namespaces, checkpoints, own ::
                && AreNamespaces(Run(config, old(trace)).items, w.thread, namespaces)
                && AreCheckpoints(Run(config, old(trace)).items, w.thread, checkpoints)
                && AreItems(Run(config, old(trace)).items, w.thread, own) ==>
                  OutcomeIs(config, Run(config, old(trace)), w.thread, w.ns, w.id, WritesEstimate(w),
                            config.maxPendingBytes, now, namespaces, checkpoints, own, outcome)
      ensures outcome == Accepted ==> lastAccess != [] && lastAccess[|lastAccess| - 1] == Access(w.thread, at)
    {
      forall namespaces, checkpoints, own
        | && AreNamespaces(Run(config, trace).items, w.thread, namespaces)
          && AreCheckpoints(Run(config, trace).items, w.thread, checkpoints)
          && AreItems(Run(config, trace).items, w.thread, own)
        ensures OutcomeIs(config, Run(config, trace), w.thread, w.ns, w.id, WritesEstimate(w),
                          config.maxPendingBytes, now, namespaces, checkpoints, own,
                          PutWritesResult(config, Run(config, trace), w, now, at).outcome)
      {
        PutWritesOutcome(config, trace, w, now, at, namespaces, checkpoints, own);
      }
      PutWritesVerdict(config, trace, w, now, at);
      RunAppend(config, trace, DoPutWrites(w, now, at));
      outcome := PutWritesLocked(w, now, at);
      trace := trace + [DoPutWrites(w, now, at)];
    }

    method DeleteThread(thread: string)
      requires Ready()
      modifies this, parent
      ensures Ready() && trace == old(trace) + [DoDelete(thread)]
      ensures LosesThread(old(parent.items), parent.items, thread)
      ensures forall x :: x in lastAccess <==> x in old(lastAccess) && x.thread != thread
    {
      KeepMembers(lastAccess, {thread});
      RunAppend(config, trace, DoDelete(thread));
      DeleteThreadLocked(thread);
      trace := trace + [DoDelete(thread)];
    }

    method PurgeExpired(now: real) returns (count: nat)
      requires Ready()
      modifies this, parent
      ensures Ready() && trace == old(trace) + [DoPurge(now)]
      ensures count == |Expired(old(lastAccess), now - config.idleTtl)|
      ensures LosesIdle(old(parent.items), parent.items, old(lastAccess), now - config.idleTtl)
      ensures Touches(old(lastAccess), lastAccess, now - config.idleTtl, None)
      ensures forall threads :: AreIdle(old(lastAccess), now - config.idleTtl, threads) ==> count == |threads|
    {
      PurgeOnKeys(config, trace, now);
      PurgeTouches(config, Current(), now);
      IdleSets(lastAccess, now - config.idleTtl);
      RunAppend(config, trace, DoPurge(now));
      count := PurgeExpiredLocked(now);
      trace := trace + [DoPurge(now)];
    }

    method Clear()
      requires Ready()
      modifies this, parent
      ensures Ready() && trace == old(trace) + [DoClear]
      ensures parent.items == map[] && lastAccess == [] && sizes == map[] && serializedBytes == 0
    {
      RunAppend(config, trace, DoClear);
      parent.Clear();
      lastAccess, sizes, serializedBytes := [], map[], 0;
      trace := trace + [DoClear];
    }

    method ReadStats(now: real) returns (stats: Stats)
      requires Ready()
      modifies this, parent
      ensures Ready() && trace == old(trace) + [DoStats(now)]
      ensures stats == Stats(|lastAccess|, |CheckpointKeys(parent.items)|, |PendingKeys(parent.items)|,
                             Bytes(parent.items))
      ensures forall keys :: AreStoredCheckpoints(parent.items, keys) ==> stats.checkpoints == |keys|
      ensures forall keys :: ArePendingWrites(parent.items, keys) ==> stats.pendingWrites == |keys|
      ensures forall keys :: Lists(keys, parent.items.Keys) ==>
                stats.serializedBytes == |StoreBytes(parent.items, keys)|
      ensures LosesIdle(old(parent.items), parent.items, old(lastAccess), now - config.idleTtl)
      ensures stats.threads <= config.maxThreads
      ensures stats.checkpoints <= config.maxThreads * config.maxCheckpoints
    {
      RunAppend(config, trace, DoStats(now));
      PurgeOnKeys(config, trace, now);
      RunKeepsInvariant(config, trace + [DoStats(now)]);
      StatsBound(config, trace + [DoStats(now)]);
      var _ := PurgeExpiredLocked(now);
      var checkpoints := CountCheckpoints(parent.storage, parent.items);
      var pending := CountPending(parent.writes, parent.items);
      stats := Stats(|lastAccess|, checkpoints, pending, serializedBytes);
      CountsOf(parent.items);
      trace := trace + [DoStats(now)];
    }

    // ---------- one call under the lock ----------

    method GetTupleLocked(q: Query, now: real, at: real) returns (answer: Option<Store>)
      requires Valid()
      modifies this`lastAccess, this`sizes, this`serializedBytes, parent
      ensures Valid() && Current() == GetState(config, old(Current()), q, now, at)
      ensures answer == Lookup(Purge(config, old(Current()), now).items, q)
    {
      var _ := PurgeExpiredLocked(now);
      if q.thread !in parent.storage {
        NothingFound(parent.storage, parent.items, q);
        return None;
      }
      answer := parent.GetTuple(q);
      if answer.Some? {
        TouchLocked(q.thread, at);
      }
    }

    method ListLocked(thread: Option<string>, selected: set<ItemKey>, now: real, at: real) returns (found: Store)
      requires Valid()
      modifies this`lastAccess, this`sizes, this`serializedBytes, parent
      ensures Valid() && Current() == ListState(config, old(Current()), thread, selected, now, at)
      ensures found == Select(Purge(config, old(Current()), now).items, thread, selected)
    {
      var _ := PurgeExpiredLocked(now);
      if thread.Some? && thread.value !in parent.storage {
        NothingSelected(parent.storage, parent.items, thread.value, selected);
        return map[];
      }
      found := parent.List(thread, selected);
      if thread.Some? && found != map[] {
        TouchLocked(thread.value, at);
      }
    }

    method PutLocked(p: Put, now: real, at: real) returns (outcome: Outcome)
      requires Valid()
      modifies this`lastAccess, this`sizes, this`serializedBytes, parent
      ensures Valid() && Result(Current(), outcome) == PutResult(config, old(Current()), p, now, at)
    {
      var estimate := EstimateCheckpointSize(p);
      if estimate > config.maxCheckpointBytes {
        return PayloadTooLarge;
      }
      outcome := AdmitLocked(p.thread, p.ns, p.id, estimate, now);
      if outcome == Accepted {
        StoreCheckpointLocked(p);
        TouchLocked(p.thread, at);
      }
    }

    method PutWritesLocked(w: Writes, now: real, at: real) returns (outcome: Outcome)
      requires Valid()
      modifies this`lastAccess, this`sizes, this`serializedBytes, parent
      ensures Valid() && Result(Current(), outcome) == PutWritesResult(config, old(Current()), w, now, at)
    {
      var size := EstimateWriteSize(w);
      if size > config.maxPendingBytes {
        return PayloadTooLarge;
      }
      outcome := AdmitLocked(w.thread, w.ns, w.id, size, now);
      if outcome == Accepted {
        StoreWritesLocked(w);
        TouchLocked(w.thread, at);
      }
    }

    // ---------- admission ----------

    /** The checks and evictions that both writes make before they store anything. */
    method AdmitLocked(thread: string, ns: string, id: string, size: nat, now: real) returns (outcome: Outcome)
      requires Valid()
      modifies this`lastAccess, this`sizes, this`serializedBytes, parent
      ensures Valid() && Result(Current(), outcome) == Admit(config, old(Current()), thread, ns, id, size, now)
      ensures forall namespaces, checkpoints ::
                AreNamespaces(parent.items, thread, namespaces) && AreCheckpoints(parent.items, thread, checkpoints) ==>
                  CapsDecide(config, ns, id, namespaces, checkpoints, outcome)
    {
      AdmissionCaps(config, Current(), thread, ns, id, size, now);
      var _ := PurgeExpiredLocked(now);
      MakeRoomForThreadLocked(thread);
      var namespaces := KnownNamespacesLocked(thread);
      if ns !in namespaces && |namespaces| >= config.maxNamespaces {
        return TooManyNamespaces;
      }
      var checkpoints := KnownCheckpointsLocked(thread);
      if (ns, id) !in checkpoints && |checkpoints| >= config.maxCheckpoints {
        return TooManyCheckpoints;
      }
      var fits := MakeRoomForBytesLocked(size, thread);
      outcome := if fits then Accepted else OverByteBudget;
    }

    method KnownNamespacesLocked(thread: string) returns (namespaces: set<string>)
      requires Valid()
      ensures namespaces == Namespaces(parent.items, thread) && AreNamespaces(parent.items, thread, namespaces)
    {
      namespaces := KnownNamespaces(parent.storage, parent.writes, thread);
      NamespacesAgree(parent.storage, parent.writes, parent.items, thread);
      NamespacesKnown(parent.items, thread, namespaces);
    }

    method KnownCheckpointsLocked(thread: string) returns (checkpoints: set<(string, string)>)
      requires Valid()
      ensures checkpoints == Checkpoints(parent.items, thread) && AreCheckpoints(parent.items, thread, checkpoints)
    {
      checkpoints := KnownCheckpoints(parent.storage, parent.writes, thread);
      CheckpointsAgree(parent.storage, parent.writes, parent.items, thread);
      CheckpointsKnown(parent.items, thread, checkpoints);
    }

    method MakeRoomForThreadLocked(thread: string)
      requires Valid()
      modifies this`lastAccess, this`sizes, this`serializedBytes, parent
      ensures Valid() && Current() == EvictForThread(config, old(Current()), thread)
    {
      if exists i :: 0 <= i < |lastAccess| && lastAccess[i].thread == thread {
        return;
      }
      ghost var start, k := Current(), 0;
      DropNothing(start);
      while |lastAccess| >= config.maxThreads
        invariant Valid() && k <= |start.order| && lastAccess == start.order[k..]
        invariant Current() == Drop(start, Threads(start.order[..k]))
        invariant k <= Surplus(config, start.order)
        decreases |lastAccess|
      {
        DropOldest(start, k);
        DeleteThreadLocked(lastAccess[0].thread);
        k := k + 1;
      }
    }

    /** Evicts the oldest other threads until the request fits; fails when none is left. */
    method MakeRoomForBytesLocked(size: nat, thread: string) returns (fits: bool)
      requires Valid()
      modifies this`lastAccess, this`sizes, this`serializedBytes, parent
      ensures Valid() && Current() == EvictForBytes(config, old(Current()), size, thread)
      ensures fits <==> Bytes(parent.items) + size <= config.maxTotalBytes
    {
      ghost var start, k := Current(), 0;
      DropNothing(start);
      while serializedBytes + size > config.maxTotalBytes
        invariant Valid() && k <= |Others(start, thread)|
        invariant Current() == Drop(start, Threads(Others(start, thread)[..k]))
        invariant Others(Current(), thread) == Others(start, thread)[k..]
        invariant EvictCount(config, start, size, thread, k) == EvictCount(config, start, size, thread, 0)
        decreases |Others(Current(), thread)|
      {
        var evictable := FirstOther(thread);
        if evictable.None? {
          return false;
        }
        EvictOldest(start, thread, k);
        DeleteThreadLocked(evictable.value);
        k := k + 1;
      }
      return true;
    }

    /** The least recently used thread besides the protected one. */
    method FirstOther(thread: string) returns (first: Option<string>)
      ensures var others := Keep(lastAccess, {thread});
              first == if others == [] then None else Some(others[0].thread)
    {
      var i := 0;
      while i < |lastAccess|
        invariant 0 <= i <= |lastAccess|
        invariant Keep(lastAccess, {thread}) == Keep(lastAccess[i..], {thread})
      {
        if lastAccess[i].thread != thread {
          return Some(lastAccess[i].thread);
        }
        assert lastAccess[i..][1..] == lastAccess[i + 1..];
        i := i + 1;
      }
      return None;
    }

    // ---------- time ----------

    method TouchLocked(thread: string, at: real)
      requires Valid()
      modifies this`lastAccess
      ensures Valid() && Current() == Touch(old(Current()), thread, at)
    {
      KeepMembers(lastAccess, {thread});
      lastAccess := Keep(lastAccess, {thread}) + [Access(thread, at)];
    }

    method PurgeExpiredLocked(now: real) returns (count: nat)
      requires Valid()
      modifies this`lastAccess, this`sizes, this`serializedBytes, parent
      ensures Valid() && Current() == Purge(config, old(Current()), now)
      ensures count == |Expired(old(lastAccess), now - config.idleTtl)|
    {
      var expired := ExpiredThreads(now - config.idleTtl);
      ghost var start := Current();
      DropNothing(start);
      assert ToSet(expired[..0]) == {};
      for i := 0 to |expired|
        invariant Valid() && Current() == Drop(start, ToSet(expired[..i]))
      {
        DropNext(start, expired, i);
        DeleteThreadLocked(expired[i]);
      }
      assert expired[..|expired|] == expired;
      count := |expired|;
    }

    method ExpiredThreads(cutoff: real) returns (expired: seq<string>)
      requires Distinct(lastAccess)
      ensures ToSet(expired) == Expired(lastAccess, cutoff) && |expired| == |ToSet(expired)|
    {
      expired := [];
      for i := 0 to |lastAccess|
        invariant ToSet(expired) == Expired(lastAccess[..i], cutoff) && |expired| == |ToSet(expired)|
      {
        ExpiredStep(lastAccess, i, cutoff);
        if lastAccess[i].at <= cutoff {
          ToSetAppend(expired, lastAccess[i].thread);
          expired := expired + [lastAccess[i].thread];
        }
      }
      assert lastAccess[..|lastAccess|] == lastAccess;
    }

    // ---------- storing ----------

    method StoreCheckpointLocked(p: Put)
      requires Valid()
      modifies this`lastAccess, this`sizes, this`serializedBytes, parent
      ensures Valid() && Current() == old(Current()).(items := ApplyPut(old(parent.items), p, config.marker))
    {
      ghost var before := parent.items;
      parent.Put(p, config.marker);
      RecordCheckpointSizesLocked(p, before);
      SizesUnion(before, PutItems(p, config.marker));
    }

    method StoreWritesLocked(w: Writes)
      requires Valid()
      modifies this`lastAccess, this`sizes, this`serializedBytes, parent
      ensures Valid() && Current() == old(Current()).(items := ApplyWrites(old(parent.items), w))
    {
      ghost var before := parent.items;
      parent.PutWrites(w);
      RecordWriteSizesLocked(w.thread, w.ns, w.id);
      ApplyWritesSizes(before, w);
    }

    // ---------- the size ledger ----------

    method DeleteThreadLocked(thread: string)
      requires Valid()
      modifies this`lastAccess, this`sizes, this`serializedBytes, parent
      ensures Valid() && Current() == Drop(old(Current()), {thread})
    {
      ghost var before := parent.items;
      parent.DeleteThread(thread);
      KeepMembers(lastAccess, {thread});
      lastAccess := Keep(lastAccess, {thread});
      SizesWithout(before, thread);
      RemoveSizesLocked(thread);
    }

    /** Forgets every size recorded for a thread. */
    method RemoveSizesLocked(thread: string)
      requires LedgerAdds()
      modifies this`sizes, this`serializedBytes
      ensures LedgerAdds() && sizes == WithoutThread(old(sizes), thread, old(sizes).Keys)
    {
      var todo := sizes.Keys;
      ghost var done: set<ItemKey> := {};
      while todo != {}
        invariant LedgerAdds() && todo <= old(sizes).Keys && done == old(sizes).Keys - todo
        invariant sizes == WithoutThread(old(sizes), thread, done)
      {
        var k :| k in todo;
        if k.thread == thread {
          RemoveSizeLocked(k);
        }
        todo := todo - {k};
        done := done + {k};
      }
    }

    method RecordCheckpointSizesLocked(p: Put, ghost before: Store)
      requires parent.Valid() && LedgerAdds()
      requires parent.items == ApplyPut(before, p, config.marker)
      modifies this`sizes, this`serializedBytes
      ensures LedgerAdds() && sizes == old(sizes) + Sizes(PutItems(p, config.marker))
    {
      PutStored(parent.storage, parent.blobs, before, parent.items, p, config.marker);
      var stored := parent.storage[p.thread][p.ns][p.id];
      var size := SerializedSize(stored.body.encoded) + SerializedSize(stored.metadata);
      SetSizeLocked(CheckpointKey(p.thread, p.ns, p.id), size);
      PutItemsExceptAll(old(sizes), p, config.marker, size, sizes);
      var todo := p.newVersions.Keys;
      while todo != {}
        invariant LedgerAdds() && todo <= p.newVersions.Keys
        invariant sizes == old(sizes) + Sizes(PutItemsExcept(p, config.marker, todo))
      {
        var c :| c in todo;
        var blobId := (p.thread, p.ns, c, p.newVersions[c]);
        ghost var earlier := sizes;
        if blobId in parent.blobs {
          size := SerializedSize(parent.blobs[blobId]);
          SetSizeLocked(BlobKeyOf(p, c), size);
          PutItemsExceptStep(old(sizes), p, config.marker, todo, c, size, earlier, sizes);
        }
        todo := todo - {c};
      }
    }

    /** Records every pending write of one checkpoint, old ones included. */
    method RecordWriteSizesLocked(thread: string, ns: string, id: string)
      requires parent.Valid() && LedgerAdds()
      modifies this`sizes, this`serializedBytes
      ensures LedgerAdds() && sizes == old(sizes) + Sizes(WritesAt(parent.items, thread, ns, id))
    {
      var outer := (thread, ns, id);
      var stored := if outer in parent.writes then parent.writes[outer] else map[];
      var todo := stored.Keys;
      NoWritesYet(parent.writes, parent.items, thread, ns, id, todo);
      TaskWritesStored(parent.writes, parent.items, thread, ns, id);
      while todo != {}
        invariant LedgerAdds() && todo <= stored.Keys
        invariant sizes == old(sizes) + Sizes(WritesExcept(parent.items, thread, ns, id, todo))
      {
        var inner :| inner in todo;
        var w := stored[inner];
        var size := WriteSize(w);
        ghost var earlier := sizes;
        SetSizeLocked(WriteKey(thread, ns, id, inner.0, inner.1), size);
        WritesExceptStep(old(sizes), parent.items, thread, ns, id, todo, inner, size, earlier, sizes);
        todo := todo - {inner};
      }
    }

    method SetSizeLocked(key: ItemKey, size: nat)
      requires LedgerAdds()
      modifies this`sizes, this`serializedBytes
      ensures LedgerAdds() && sizes == old(sizes)[key := size]
    {
      SumPut(sizes, key, size);
      var previous := if key in sizes then sizes[key] else 0;
      sizes := sizes[key := size];
      serializedBytes := serializedBytes + size - previous;
    }

    method RemoveSizeLocked(key: ItemKey)
      requires LedgerAdds()
      modifies this`sizes, this`serializedBytes
      ensures LedgerAdds() && sizes == old(sizes) - {key}
    {
      if key in sizes {
        SumRemove(sizes, key);
        serializedBytes := serializedBytes - sizes[key];
        sizes := sizes - {key};
      } else {
        assert sizes - {key} == sizes;
      }
    }

    // ---------- estimates ----------

    method EstimateCheckpointSize(p: Put) returns (total: nat)
      ensures total == PutEstimate(p)
    {
      total := SerializedSize(p.body.encoded) + SerializedSize(p.metadata);
      var todo := p.newVersions.Keys;
      ghost var seen: map<string, nat> := map[];
      while todo != {}
        invariant todo <= p.newVersions.Keys
        invariant seen == map c | c in ValueSizes(p) && c !in todo :: ValueSizes(p)[c]
        invariant total == SerializedSize(p.body.encoded) + SerializedSize(p.metadata) + Sum(seen)
      {
        var c :| c in todo;
        if c in p.values {
          SumPut(seen, c, SerializedSize(p.values[c]));
          seen := seen[c := SerializedSize(p.values[c])];
          total := total + SerializedSize(p.values[c]);
        }
        todo := todo - {c};
      }
      assert seen == ValueSizes(p);
    }

    method EstimateWriteSize(w: Writes) returns (total: nat)
      ensures total == WritesEstimate(w)
    {
      total := 0;
      for i := 0 to |w.entries|
        invariant total == EntriesSize(w, i)
      {
        total := total + SerializedSize(w.entries[i].value) + Utf8Length(w.entries[i].channel);
      }
      total := total + Utf8Length(w.task) + Utf8Length(w.path);
    }
  }

  // ---------- the ledger follows the store ----------

  /** The sizes without those entries of a thread that are among `keys`. */
  function WithoutThread(sizes: map<ItemKey, nat>, thread: string, keys: set<ItemKey>): map<ItemKey, nat> {
    map k | k in sizes && !(k.thread == thread && k in keys) :: sizes[k]
  }

  lemma SizesWithout(items: Store, thread: string)
    ensures Sizes(Without(items, {thread})) == WithoutThread(Sizes(items), thread, Sizes(items).Keys)
  {
  }

  lemma SizesPut(base: map<ItemKey, nat>, part: Store, k: ItemKey, item: Item)
    ensures base + Sizes(part[k := item]) == (base + Sizes(part))[k := ItemSize(item)]
  {
    assert Sizes(part[k := item]) == Sizes(part)[k := ItemSize(item)];
    UnionPut(base, Sizes(part), k, ItemSize(item));
  }

  lemma SizesUnion(a: Store, b: Store)
    ensures Sizes(a + b) == Sizes(a) + Sizes(b)
  {
  }

  function PutItemsExcept(p: Put, marker: Serialized, channels: set<string>): Store {
    map k | k in PutKeys(p) && !(k.BlobKey? && k.channel in channels) :: PutItem(p, marker, k)
  }

  lemma PutItemsExceptStep(base: map<ItemKey, nat>, p: Put, marker: Serialized, channels: set<string>, c: string,
                           size: nat, before: map<ItemKey, nat>, after: map<ItemKey, nat>)
    requires c in p.newVersions && c in channels
    requires size == ItemSize(PutItem(p, marker, BlobKeyOf(p, c)))
    requires before == base + Sizes(PutItemsExcept(p, marker, channels))
    requires after == before[BlobKeyOf(p, c) := size]
    ensures after == base + Sizes(PutItemsExcept(p, marker, channels - {c}))
  {
    var k := BlobKeyOf(p, c);
    PutItemsExceptPut(p, marker, channels, c);
    SizesPut(base, PutItemsExcept(p, marker, channels), k, PutItem(p, marker, k));
  }

  lemma PutItemsExceptPut(p: Put, marker: Serialized, channels: set<string>, c: string)
    requires c in p.newVersions && c in channels
    ensures var k := BlobKeyOf(p, c);
            PutItemsExcept(p, marker, channels - {c}) == PutItemsExcept(p, marker, channels)[k := PutItem(p, marker, k)]
  {
  }

  lemma PutItemsExceptAll(base: map<ItemKey, nat>, p: Put, marker: Serialized, size: nat, after: map<ItemKey, nat>)
    requires size == ItemSize(CheckpointItem(p.body, p.metadata, p.parent))
    requires after == base[CheckpointKey(p.thread, p.ns, p.id) := size]
    ensures after == base + Sizes(PutItemsExcept(p, marker, p.newVersions.Keys))
    ensures PutItemsExcept(p, marker, {}) == PutItems(p, marker)
  {
    var k := CheckpointKey(p.thread, p.ns, p.id);
    assert PutItemsExcept(p, marker, p.newVersions.Keys) == map[k := PutItem(p, marker, k)];
  }

  /** The pending writes of one checkpoint. */
  function WritesAt(items: Store, thread: string, ns: string, id: string): Store {
    map k | k in items && k.WriteKey? && k.thread == thread && k.ns == ns && k.id == id :: items[k]
  }

  function WritesExcept(items: Store, thread: string, ns: string, id: string, todo: set<(string, int)>): Store {
    map k | k in WritesAt(items, thread, ns, id) && (k.task, k.index) !in todo :: items[k]
  }

  lemma WritesExceptStep(base: map<ItemKey, nat>, items: Store, thread: string, ns: string, id: string,
                         todo: set<(string, int)>, i: (string, int),
                         size: nat, before: map<ItemKey, nat>, after: map<ItemKey, nat>)
    requires i in todo && WriteKey(thread, ns, id, i.0, i.1) in items
    requires size == ItemSize(items[WriteKey(thread, ns, id, i.0, i.1)])
    requires before == base + Sizes(WritesExcept(items, thread, ns, id, todo))
    requires after == before[WriteKey(thread, ns, id, i.0, i.1) := size]
    ensures after == base + Sizes(WritesExcept(items, thread, ns, id, todo - {i}))
  {
    var k := WriteKey(thread, ns, id, i.0, i.1);
    assert WritesExcept(items, thread, ns, id, todo - {i}) == WritesExcept(items, thread, ns, id, todo)[k := items[k]];
    SizesPut(base, WritesExcept(items, thread, ns, id, todo), k, items[k]);
  }

  lemma NoWritesYet(writes: PendingWrites, items: Store, thread: string, ns: string, id: string,
                    todo: set<(string, int)>)
    requires WritesAgree(writes, items)
    requires todo == if (thread, ns, id) in writes then writes[(thread, ns, id)].Keys else {}
    ensures WritesExcept(items, thread, ns, id, todo) == map[]
    ensures WritesExcept(items, thread, ns, id, {}) == WritesAt(items, thread, ns, id)
  {
    forall k | k in WritesAt(items, thread, ns, id)
      ensures (k.task, k.index) in todo
    {
      assert WriteAgrees(writes, items, thread, ns, id, k.task, k.index);
    }
  }

  lemma {:induction false} ApplyEntriesApart(items: Store, w: Writes, n: nat)
    requires n <= |w.entries|
    ensures ApplyEntries(items, w, n) == items + WritesAt(ApplyEntries(items, w, n), w.thread, w.ns, w.id)
  {
    if n > 0 {
      ApplyEntriesApart(items, w, n - 1);
    }
  }

  lemma ApplyWritesSizes(items: Store, w: Writes)
    ensures Sizes(ApplyWrites(items, w))
         == Sizes(items) + Sizes(WritesAt(ApplyWrites(items, w), w.thread, w.ns, w.id))
  {
    ApplyEntriesApart(items, w, |w.entries|);
    SizesUnion(items, WritesAt(ApplyWrites(items, w), w.thread, w.ns, w.id));
  }

  // ---------- sequences of threads ----------

  function ToSet(threads: seq<string>): set<string> {
    set t | t in threads
  }

  lemma ToSetAppend(threads: seq<string>, t: string)
    ensures ToSet(threads + [t]) == ToSet(threads) + {t}
  {
  }

  lemma DropNext(s: State, threads: seq<string>, i: nat)
    requires i < |threads|
    ensures Drop(Drop(s, ToSet(threads[..i])), {threads[i]}) == Drop(s, ToSet(threads[..i + 1]))
  {
    assert threads[..i + 1] == threads[..i] + [threads[i]];
    ToSetAppend(threads[..i], threads[i]);
    DropDrop(s, ToSet(threads[..i]), {threads[i]});
  }

  lemma ExpiredStep(order: seq<Access>, i: nat, cutoff: real)
    requires Distinct(order) && i < |order|
    ensures Expired(order[..i + 1], cutoff)
         == Expired(order[..i], cutoff) + if order[i].at <= cutoff then {order[i].thread} else {}
    ensures order[i].thread !in Expired(order[..i], cutoff)
  {
    var longer, shorter := order[..i + 1], order[..i];
    forall t | t in Expired(longer, cutoff)
      ensures t in Expired(shorter, cutoff) + if order[i].at <= cutoff then {order[i].thread} else {}
    {
      var j :| 0 <= j < i + 1 && longer[j].at <= cutoff && longer[j].thread == t;
      if j < i {
        assert shorter[j].at <= cutoff && shorter[j].thread == t;
      }
    }
    forall t | t in Expired(shorter, cutoff)
      ensures t in Expired(longer, cutoff)
    {
      var j :| 0 <= j < i && shorter[j].at <= cutoff && shorter[j].thread == t;
      assert longer[j].at <= cutoff && longer[j].thread == t;
    }
    assert longer[i] == order[i];
  }

  // ---------- counting ----------

  method CountCheckpoints(storage: Storage, ghost items: Store) returns (count: nat)
    requires StorageAgrees(storage, items)
    ensures count == |CheckpointKeys(items)|
  {
    count := 0;
    var todo := Pairs(storage);
    NoCheckpointsYet(storage, items);
    while todo != {}
      invariant todo <= Pairs(storage)
      invariant count == |CheckpointsOutside(items, todo)|
    {
      var p :| p in todo;
      assert p in Pairs(storage);
      count := count + |storage[p.0][p.1]|;
      CheckpointsOutsideStep(storage, items, todo, p);
      todo := todo - {p};
    }
    assert CheckpointsOutside(items, {}) == CheckpointKeys(items);
  }

  method CountPending(writes: PendingWrites, ghost items: Store) returns (count: nat)
    requires WritesAgree(writes, items)
    ensures count == |PendingKeys(items)|
  {
    count := 0;
    var todo := writes.Keys;
    NoPendingYet(writes, items);
    while todo != {}
      invariant todo <= writes.Keys
      invariant count == |PendingOutside(items, todo)|
    {
      var o :| o in todo;
      count := count + |writes[o]|;
      PendingOutsideStep(writes, items, todo, o);
      todo := todo - {o};
    }
    assert PendingOutside(items, {}) == PendingKeys(items);
  }

  lemma CountsOf(items: Store)
    ensures forall keys :: AreStoredCheckpoints(items, keys) ==> keys == CheckpointKeys(items)
    ensures forall keys :: ArePendingWrites(items, keys) ==> keys == PendingKeys(items)
    ensures forall keys :: Lists(keys, items.Keys) ==> Bytes(items) == |StoreBytes(items, keys)|
  {
    forall keys | AreStoredCheckpoints(items, keys)
      ensures keys == CheckpointKeys(items)
    {
      StoredCheckpointKeys(items, keys);
    }
    forall keys | ArePendingWrites(items, keys)
      ensures keys == PendingKeys(items)
    {
      PendingWriteKeys(items, keys);
    }
    forall keys | Lists(keys, items.Keys)
      ensures Bytes(items) == |StoreBytes(items, keys)|
    {
      TotalIsLength(items, keys);
    }
  }

  lemma AdmissionCaps(cfg: Config, s: State, t: string, ns: string, id: string, size: nat, now: real)
    requires cfg.Valid()
    ensures forall namespaces, checkpoints ::
              && AreNamespaces(Admit(cfg, s, t, ns, id, size, now).state.items, t, namespaces)
              && AreCheckpoints(Admit(cfg, s, t, ns, id, size, now).state.items, t, checkpoints) ==>
                CapsDecide(cfg, ns, id, namespaces, checkpoints, Admit(cfg, s, t, ns, id, size, now).outcome)
  {
    forall namespaces, checkpoints
      | && AreNamespaces(Admit(cfg, s, t, ns, id, size, now).state.items, t, namespaces)
        && AreCheckpoints(Admit(cfg, s, t, ns, id, size, now).state.items, t, checkpoints)
      ensures CapsDecide(cfg, ns, id, namespaces, checkpoints, Admit(cfg, s, t, ns, id, size, now).outcome)
    {
      AdmitCaps(cfg, s, t, ns, id, size, now, namespaces, checkpoints);
    }
  }

  lemma RunAppend(cfg: Config, ops: seq<Op>, op: Op)
    requires cfg.Valid()
    ensures Run(cfg, ops + [op]) == Step(cfg, Run(cfg, ops), op)
  {
    assert (ops + [op])[..|ops|] == ops;
  }
}
