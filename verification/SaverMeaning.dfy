/**
 What calls answer and leave behind, said on the keys and items of the store, on
 the entries of the recency order and on nothing else.
 */
module SaverMeaning {
  import opened Items
  import opened SaverSpec
  import opened SaverInvariant
  import opened SaverSteps
  import opened SaverAdmission
  import opened SaverHistory

  // ---------- what a thread holds ----------

  /** The checkpoint is stored, or a pending write refers to it. */
  ghost predicate Known(items: Store, t: string, ns: string, id: string) {
    || CheckpointKey(t, ns, id) in items
    || exists task, i :: WriteKey(t, ns, id, task, i) in items
  }

  ghost predicate AreCheckpoints(items: Store, t: string, checkpoints: set<(string, string)>) {
    forall ns, id :: (ns, id) in checkpoints <==> Known(items, t, ns, id)
  }

  ghost predicate AreNamespaces(items: Store, t: string, namespaces: set<string>) {
    forall ns :: ns in namespaces <==> exists id :: Known(items, t, ns, id)
  }

  lemma KeyOfKnown(items: Store, t: string, ns: string, id: string)
    ensures Known(items, t, ns, id) <==>
              exists k :: k in items && k.thread == t && !k.BlobKey? && k.ns == ns && k.id == id
  {
    if k :| k in items && k.thread == t && !k.BlobKey? && k.ns == ns && k.id == id {
      assert k == CheckpointKey(t, ns, id) || k == WriteKey(t, ns, id, k.task, k.index);
    }
    if Known(items, t, ns, id) && CheckpointKey(t, ns, id) !in items {
      var task, i :| WriteKey(t, ns, id, task, i) in items;
      assert WriteKey(t, ns, id, task, i).thread == t;
    }
  }

  /** The two sets that the caps are about exist, and are those the saver computes. */
  lemma CheckpointsKnown(items: Store, t: string, checkpoints: set<(string, string)>)
    ensures AreCheckpoints(items, t, checkpoints) <==> checkpoints == Checkpoints(items, t)
  {
    forall ns, id
      ensures (ns, id) in Checkpoints(items, t) <==> Known(items, t, ns, id)
    {
      KeyOfKnown(items, t, ns, id);
    }
    if AreCheckpoints(items, t, checkpoints) {
      forall c
        ensures c in checkpoints <==> c in Checkpoints(items, t)
      {
        assert c == (c.0, c.1);
      }
    }
  }

  lemma NamespacesKnown(items: Store, t: string, namespaces: set<string>)
    ensures AreNamespaces(items, t, namespaces) <==> namespaces == Namespaces(items, t)
  {
    forall ns
      ensures ns in Namespaces(items, t) <==> exists id :: Known(items, t, ns, id)
    {
      if k :| k in items && k.thread == t && !k.BlobKey? && k.ns == ns {
        KeyOfKnown(items, t, ns, k.id);
      }
      if id :| Known(items, t, ns, id) {
        KeyOfKnown(items, t, ns, id);
      }
    }
    if AreNamespaces(items, t, namespaces) {
      assert forall ns :: ns in namespaces <==> ns in Namespaces(items, t);
    }
  }

  // ---------- the caps ----------

  /** In every reachable state the namespaces with a checkpoint or a pending write stay within their cap. */
  lemma NamespaceCap(cfg: Config, ops: seq<Op>, t: string, namespaces: set<string>)
    requires cfg.Valid()
    requires forall ns :: ns in namespaces ==>
               exists k :: k in Run(cfg, ops).items && k.thread == t && !k.BlobKey? && k.ns == ns
    ensures |namespaces| <= cfg.maxNamespaces
  {
    RunKeepsInvariant(cfg, ops);
    assert WithinCaps(cfg, Run(cfg, ops).items, t);
    SubsetSize(namespaces, Namespaces(Run(cfg, ops).items, t));
  }

  /** So do the checkpoints, stored or only referred to by pending writes. */
  lemma CheckpointCap(cfg: Config, ops: seq<Op>, t: string, checkpoints: set<(string, string)>)
    requires cfg.Valid()
    requires forall c :: c in checkpoints ==>
               exists k :: k in Run(cfg, ops).items && k.thread == t && !k.BlobKey? && (k.ns, k.id) == c
    ensures |checkpoints| <= cfg.maxCheckpoints
  {
    RunKeepsInvariant(cfg, ops);
    assert WithinCaps(cfg, Run(cfg, ops).items, t);
    SubsetSize(checkpoints, Checkpoints(Run(cfg, ops).items, t));
  }

  /** And the threads that hold anything at all. */
  lemma ThreadCap(cfg: Config, ops: seq<Op>, threads: set<string>)
    requires cfg.Valid()
    requires forall t :: t in threads ==> exists k :: k in Run(cfg, ops).items && k.thread == t
    ensures |threads| <= cfg.maxThreads
  {
    var s := Run(cfg, ops);
    RunKeepsInvariant(cfg, ops);
    SubsetSize(threads, Threads(s.order));
    ThreadsSize(s.order);
  }

  lemma {:induction false} ThreadsSize(order: seq<Access>)
    ensures |Threads(order)| <= |order|
  {
    if order != [] {
      ThreadsSize(order[..|order| - 1]);
      ThreadsPrefixStep(order, |order| - 1);
      assert order[..|order| - 1 + 1] == order;
    }
  }

  // ---------- the outcome of a write ----------

  /** The thread was touched after the cutoff. */
  ghost predicate LiveAt(order: seq<Access>, t: string, cutoff: real) {
    exists x :: x in order && x.thread == t && x.at > cutoff
  }

  lemma LiveIff(order: seq<Access>, t: string, cutoff: real)
    requires Distinct(order)
    ensures LiveAt(order, t, cutoff) <==> t in Threads(order) && t !in Expired(order, cutoff)
  {
    if x :| x in order && x.thread == t && x.at > cutoff {
      var i :| 0 <= i < |order| && order[i] == x;
      assert order[i].thread in Threads(order);
    }
    if t in Threads(order) && t !in Expired(order, cutoff) {
      var i :| 0 <= i < |order| && order[i].thread == t;
      assert order[i] in order;
    }
  }

  /** The contents of one thread, and nothing else. */
  ghost predicate AreItems(items: Store, t: string, own: Store) {
    forall k :: (k in own <==> k in items && k.thread == t) && (k in own ==> own[k] == items[k])
  }

  /** The outcome that a write of `size` bytes with payload limit `cap` must have. */
  ghost predicate OutcomeIs(cfg: Config, s: State, t: string, ns: string, id: string, size: nat, cap: nat, now: real,
                            namespaces: set<string>, checkpoints: set<(string, string)>, own: Store, outcome: Outcome)
  {
    if size > cap then outcome == PayloadTooLarge
    else if !LiveAt(s.order, t, now - cfg.idleTtl) then outcome == Accepted
    else if ns !in namespaces && |namespaces| >= cfg.maxNamespaces then outcome == TooManyNamespaces
    else if (ns, id) !in checkpoints && |checkpoints| >= cfg.maxCheckpoints then outcome == TooManyCheckpoints
    else if Bytes(own) + size > cfg.maxTotalBytes then outcome == OverByteBudget
    else outcome == Accepted
  }

  lemma VerdictIs(cfg: Config, s: State, t: string, ns: string, id: string, size: nat, cap: nat, now: real,
                  namespaces: set<string>, checkpoints: set<(string, string)>, own: Store)
    requires Distinct(s.order)
    requires AreNamespaces(s.items, t, namespaces) && AreCheckpoints(s.items, t, checkpoints)
    requires AreItems(s.items, t, own)
    ensures OutcomeIs(cfg, s, t, ns, id, size, cap, now, namespaces, checkpoints, own,
                      Verdict(cfg, s, t, ns, id, size, cap, now))
  {
    LiveIff(s.order, t, now - cfg.idleTtl);
    NamespacesKnown(s.items, t, namespaces);
    CheckpointsKnown(s.items, t, checkpoints);
    assert own == Of(s.items, t);
  }

  /** In every reachable state, with the limits as the configuration names them. */
  lemma PutOutcome(cfg: Config, ops: seq<Op>, p: Put, now: real, at: real,
                   namespaces: set<string>, checkpoints: set<(string, string)>, own: Store)
    requires cfg.Valid() && AreNamespaces(Run(cfg, ops).items, p.thread, namespaces)
    requires AreCheckpoints(Run(cfg, ops).items, p.thread, checkpoints) && AreItems(Run(cfg, ops).items, p.thread, own)
    ensures OutcomeIs(cfg, Run(cfg, ops), p.thread, p.ns, p.id, PutEstimate(p), cfg.maxCheckpointBytes, now,
                      namespaces, checkpoints, own, PutResult(cfg, Run(cfg, ops), p, now, at).outcome)
  {
    RunKeepsInvariant(cfg, ops);
    PutVerdict(cfg, ops, p, now, at);
    VerdictIs(cfg, Run(cfg, ops), p.thread, p.ns, p.id, PutEstimate(p), cfg.maxCheckpointBytes, now,
              namespaces, checkpoints, own);
  }

  lemma PutWritesOutcome(cfg: Config, ops: seq<Op>, w: Writes, now: real, at: real,
                         namespaces: set<string>, checkpoints: set<(string, string)>, own: Store)
    requires cfg.Valid() && AreNamespaces(Run(cfg, ops).items, w.thread, namespaces)
    requires AreCheckpoints(Run(cfg, ops).items, w.thread, checkpoints) && AreItems(Run(cfg, ops).items, w.thread, own)
    ensures OutcomeIs(cfg, Run(cfg, ops), w.thread, w.ns, w.id, WritesEstimate(w), cfg.maxPendingBytes, now,
                      namespaces, checkpoints, own, PutWritesResult(cfg, Run(cfg, ops), w, now, at).outcome)
  {
    RunKeepsInvariant(cfg, ops);
    PutWritesVerdict(cfg, ops, w, now, at);
    VerdictIs(cfg, Run(cfg, ops), w.thread, w.ns, w.id, WritesEstimate(w), cfg.maxPendingBytes, now,
              namespaces, checkpoints, own);
  }

  /** Which of the two caps an admission has found exceeded. */
  ghost predicate CapsDecide(cfg: Config, ns: string, id: string,
                             namespaces: set<string>, checkpoints: set<(string, string)>, outcome: Outcome)
  {
    && (outcome == TooManyNamespaces <==> ns !in namespaces && |namespaces| >= cfg.maxNamespaces)
    && (outcome == TooManyCheckpoints <==>
          && outcome != TooManyNamespaces
          && (ns, id) !in checkpoints && |checkpoints| >= cfg.maxCheckpoints)
  }

  /** The same for admission alone, on the state it leaves behind. */
  lemma AdmitCaps(cfg: Config, s: State, t: string, ns: string, id: string, size: nat, now: real,
                  namespaces: set<string>, checkpoints: set<(string, string)>)
    requires cfg.Valid()
    requires var after := Admit(cfg, s, t, ns, id, size, now).state.items;
             AreNamespaces(after, t, namespaces) && AreCheckpoints(after, t, checkpoints)
    ensures CapsDecide(cfg, ns, id, namespaces, checkpoints, Admit(cfg, s, t, ns, id, size, now).outcome)
  {
    var roomy := Roomy(cfg, s, t, now);
    EvictionSpares(roomy, t, EvictCount(cfg, roomy, size, t, 0));
    NamespacesKnown(Admit(cfg, s, t, ns, id, size, now).state.items, t, namespaces);
    CheckpointsKnown(Admit(cfg, s, t, ns, id, size, now).state.items, t, checkpoints);
  }

  // ---------- least recently used first ----------

  lemma {:induction false} KeepFinds(order: seq<Access>, gone: set<string>, x: Access) returns (a: nat)
    requires x in order && x.thread !in gone
    ensures a < |Keep(order, gone)| && Keep(order, gone)[a] == x
  {
    if order[0] == x {
      a := 0;
    } else {
      assert x in order[1..];
      a := KeepFinds(order[1..], gone, x);
      a := if order[0].thread in gone then a else a + 1;
    }
  }

  /** Entries that stay keep their order. */
  lemma {:induction false} KeepInOrder(order: seq<Access>, gone: set<string>, i: nat, j: nat) returns (a: nat, b: nat)
    requires i < j < |order| && order[i].thread !in gone && order[j].thread !in gone
    ensures a < b < |Keep(order, gone)| && Keep(order, gone)[a] == order[i] && Keep(order, gone)[b] == order[j]
  {
    if i == 0 {
      a := 0;
      assert order[1..][j - 1] == order[j];
      b := KeepFinds(order[1..], gone, order[j]);
      b := b + 1;
    } else {
      a, b := KeepInOrder(order[1..], gone, i - 1, j - 1);
      if order[0].thread !in gone {
        a, b := a + 1, b + 1;
      }
    }
  }

  lemma KeepMonotone(order: seq<Access>, gone: set<string>, i: nat, j: nat, a: nat, b: nat)
    requires Distinct(order) && i < j < |order| && a < |Keep(order, gone)| && b < |Keep(order, gone)|
    requires Keep(order, gone)[a] == order[i] && Keep(order, gone)[b] == order[j]
    ensures a < b
  {
    KeepMembers(order, gone);
    assert Keep(order, gone)[a] in Keep(order, gone) && Keep(order, gone)[b] in Keep(order, gone);
    var c, d := KeepInOrder(order, gone, i, j);
  }

  lemma PrefixMember(order: seq<Access>, n: nat, b: nat)
    requires Distinct(order) && n <= |order| && b < |order|
    ensures order[b].thread in Threads(order[..n]) <==> b < n
  {
    if b < n {
      assert order[..n][b] == order[b];
    } else {
      forall c | 0 <= c < n
        ensures order[..n][c].thread != order[b].thread
      {
      }
    }
  }

  /** The entry's thread is evicted exactly when it is among the first candidates. */
  lemma EvictedIff(cfg: Config, s: State, size: nat, thread: string, b: nat)
    requires Distinct(s.order) && b < |Others(s, thread)|
    ensures Others(s, thread)[b] !in EvictForBytes(cfg, s, size, thread).order
       <==> b < EvictCount(cfg, s, size, thread, 0)
  {
    var others, n := Others(s, thread), EvictCount(cfg, s, size, thread, 0);
    KeepMembers(s.order, {thread});
    KeepMembers(s.order, Threads(others[..n]));
    PrefixMember(others, n, b);
    assert others[b] in others;
  }

  /** The protected thread stays, and of the others nobody is evicted before one that was touched earlier. */
  lemma EvictionIsLru(cfg: Config, s: State, size: nat, thread: string, i: nat, j: nat)
    requires Distinct(s.order) && i < j < |s.order|
    ensures var after := EvictForBytes(cfg, s, size, thread);
            && (s.order[i].thread == thread ==> s.order[i] in after.order)
            && (s.order[j].thread == thread ==> s.order[j] in after.order)
            && (s.order[i].thread != thread && s.order[j].thread != thread && s.order[j] !in after.order ==>
                  s.order[i] !in after.order)
  {
    var n := EvictCount(cfg, s, size, thread, 0);
    BytesGoneSpares(cfg, s, thread, size);
    KeepMembers(s.order, BytesGone(cfg, s, thread, size));
    if s.order[i].thread != thread && s.order[j].thread != thread {
      var a, b := KeepInOrder(s.order, {thread}, i, j);
      EvictedIff(cfg, s, size, thread, a);
      EvictedIff(cfg, s, size, thread, b);
    }
  }

  /** The items that would be left had the thread at `j` been spared. */
  ghost predicate LeftWithout(s: State, after: State, j: nat, kept: Store)
    requires j < |s.order|
  {
    forall k :: (k in kept <==> k in s.items && (k.thread == s.order[j].thread || k in after.items))
                && (k in kept && k in s.items ==> kept[k] == s.items[k])
  }

  /** Had the last victim been spared, the request would not have fitted. */
  lemma EvictionStops(cfg: Config, s: State, size: nat, thread: string, j: nat, kept: Store)
    requires Distinct(s.order) && Owned(s) && j < |s.order|
    requires var after := EvictForBytes(cfg, s, size, thread);
             && s.order[j] !in after.order && LeftWithout(s, after, j, kept)
             && forall l :: j < l < |s.order| ==> s.order[l] in after.order
    ensures Bytes(kept) + size > cfg.maxTotalBytes
  {
    var n := EvictCount(cfg, s, size, thread, 0);
    KeepMembers(s.order, {thread});
    LastEvicted(cfg, s, size, thread, j);
    SparedItems(s, EvictForBytes(cfg, s, size, thread), Others(s, thread), n, j, kept);
    assert !FitsWithout(cfg, s, size, thread, n - 1);
  }

  lemma LastEvicted(cfg: Config, s: State, size: nat, thread: string, j: nat)
    requires Distinct(s.order) && j < |s.order| && s.order[j] !in EvictForBytes(cfg, s, size, thread).order
    requires forall l :: j < l < |s.order| ==> s.order[l] in EvictForBytes(cfg, s, size, thread).order
    ensures var n := EvictCount(cfg, s, size, thread, 0); n > 0 && Others(s, thread)[n - 1] == s.order[j]
  {
    var n := EvictCount(cfg, s, size, thread, 0);
    NotProtected(cfg, s, size, thread, j);
    var b := KeepFinds(s.order, {thread}, s.order[j]);
    EvictedIff(cfg, s, size, thread, b);
    EvictedIff(cfg, s, size, thread, n - 1);
    LastVictim(s.order, EvictForBytes(cfg, s, size, thread).order, thread, j, b, n - 1);
  }

  lemma NotProtected(cfg: Config, s: State, size: nat, thread: string, j: nat)
    requires j < |s.order| && s.order[j] !in EvictForBytes(cfg, s, size, thread).order
    ensures s.order[j].thread != thread
  {
    BytesGoneSpares(cfg, s, thread, size);
    KeepMembers(s.order, BytesGone(cfg, s, thread, size));
  }

  /** The last candidate that goes is the one behind which everybody stays. */
  lemma LastVictim(order: seq<Access>, after: seq<Access>, thread: string, j: nat, b: nat, last: nat)
    requires Distinct(order) && j < |order| && b <= last < |Keep(order, {thread})|
    requires Keep(order, {thread})[b] == order[j] && Keep(order, {thread})[last] !in after
    requires forall l :: j < l < |order| ==> order[l] in after
    ensures b == last
  {
    var others := Keep(order, {thread});
    KeepMembers(order, {thread});
    assert others[last] in others;
    var l :| 0 <= l < |order| && order[l] == others[last];
    if l < j {
      KeepMonotone(order, {thread}, l, j, last, b);
    }
  }

  lemma SparedItems(s: State, after: State, others: seq<Access>, n: nat, j: nat, kept: Store)
    requires Distinct(others) && 0 < n <= |others| && j < |s.order| && others[n - 1] == s.order[j]
    requires after.items == Without(s.items, Threads(others[..n])) && LeftWithout(s, after, j, kept)
    ensures kept == Without(s.items, Threads(others[..n - 1]))
  {
    ThreadsPrefixStep(others, n - 1);
    PrefixMember(others, n - 1, n - 1);
  }

  // ---------- what is left of a store ----------

  /** A purge keeps exactly the items of the threads touched after the cutoff. */
  lemma PurgeOnKeys(cfg: Config, ops: seq<Op>, now: real)
    requires cfg.Valid()
    ensures var s, s' := Run(cfg, ops), Purge(cfg, Run(cfg, ops), now);
            && LosesIdle(s.items, s'.items, s.order, now - cfg.idleTtl)
            && (forall x :: x in s'.order <==> x in s.order && x.at > now - cfg.idleTtl)
  {
    RunKeepsInvariant(cfg, ops);
    PurgeItems(cfg, Run(cfg, ops), now);
    PurgeTouches(cfg, Run(cfg, ops), now);
  }

  lemma PurgeItems(cfg: Config, s: State, now: real)
    requires Distinct(s.order) && Owned(s)
    ensures LosesIdle(s.items, Purge(cfg, s, now).items, s.order, now - cfg.idleTtl)
  {
    var cutoff := now - cfg.idleTtl;
    forall k | k in s.items
      ensures LiveAt(s.order, k.thread, cutoff) <==> k.thread !in Expired(s.order, cutoff)
    {
      LiveIff(s.order, k.thread, cutoff);
    }
  }

  lemma ExpiredEntry(order: seq<Access>, x: Access, cutoff: real)
    requires Distinct(order) && x in order
    ensures x.thread in Expired(order, cutoff) <==> x.at <= cutoff
  {
    var i :| 0 <= i < |order| && order[i] == x;
    if x.thread in Expired(order, cutoff) {
      var j :| 0 <= j < |order| && order[j].at <= cutoff && order[j].thread == x.thread;
      assert i == j;
    }
  }

  /** The items of all threads but one. */
  ghost predicate LosesThread(before: Store, after: Store, t: string) {
    forall k :: (k in after <==> k in before && k.thread != t) && (k in after && k in before ==> after[k] == before[k])
  }

  /** The items of the threads touched after the cutoff. */
  ghost predicate LosesIdle(before: Store, after: Store, order: seq<Access>, cutoff: real) {
    forall k :: (k in after <==> k in before && LiveAt(order, k.thread, cutoff))
                && (k in after && k in before ==> after[k] == before[k])
  }

  /** The listed threads that were not touched after the cutoff. */
  ghost predicate AreIdle(order: seq<Access>, cutoff: real, threads: set<string>) {
    forall t :: t in threads <==> exists x :: x in order && x.thread == t && x.at <= cutoff
  }

  lemma IdleAreExpired(order: seq<Access>, cutoff: real, threads: set<string>)
    requires AreIdle(order, cutoff, threads)
    ensures threads == Expired(order, cutoff)
  {
    forall t | t in Expired(order, cutoff)
      ensures t in threads
    {
      var i :| 0 <= i < |order| && order[i].at <= cutoff && order[i].thread == t;
      assert order[i] in order;
    }
  }

  lemma IdleSets(order: seq<Access>, cutoff: real)
    ensures forall threads :: AreIdle(order, cutoff, threads) ==> |threads| == |Expired(order, cutoff)|
  {
    forall threads | AreIdle(order, cutoff, threads)
      ensures |threads| == |Expired(order, cutoff)|
    {
      IdleAreExpired(order, cutoff, threads);
    }
  }

  // ---------- counts ----------

  ghost predicate AreStoredCheckpoints(items: Store, keys: set<ItemKey>) {
    forall k :: k in keys <==> k in items && k.CheckpointKey?
  }

  ghost predicate ArePendingWrites(items: Store, keys: set<ItemKey>) {
    forall k :: k in keys <==> k in items && k.WriteKey?
  }

  lemma StoredCheckpointKeys(items: Store, keys: set<ItemKey>)
    requires AreStoredCheckpoints(items, keys)
    ensures keys == CheckpointKeys(items)
  {
  }

  lemma PendingWriteKeys(items: Store, keys: set<ItemKey>)
    requires ArePendingWrites(items, keys)
    ensures keys == PendingKeys(items)
  {
  }

  // ---------- reads ----------

  /** The answer to a lookup over these items: the items of the namespace, if a checkpoint matches. */
  ghost predicate Answers(answer: Option<Store>, items: Store, q: Query) {
    && (answer.Some? <==> exists id :: CheckpointKey(q.thread, q.ns, id) in items && (q.id == None || q.id == Some(id)))
    && (answer.Some? ==>
          && (forall k :: k in answer.value <==> k in items && k.thread == q.thread && k.ns == q.ns)
          && (forall k :: k in answer.value ==> answer.value[k] == items[k]))
  }

  lemma LookupAnswers(items: Store, q: Query)
    ensures Answers(Lookup(items, q), items, q)
  {
    if k :| k in items && Matches(q, k) {
      assert k == CheckpointKey(q.thread, q.ns, k.id);
    }
    if id :| CheckpointKey(q.thread, q.ns, id) in items && (q.id == None || q.id == Some(id)) {
      assert Matches(q, CheckpointKey(q.thread, q.ns, id));
    }
  }

  /** The listing over these items: the selected checkpoints, of one thread or of all. */
  ghost predicate ListsFrom(cfg: Config, ops: seq<Op>, now: real, thread: Option<string>, selected: set<ItemKey>,
                            found: Store)
    requires cfg.Valid()
  {
    && (forall k :: k in found <==>
          && k.CheckpointKey? && k in selected && (thread == None || thread == Some(k.thread))
          && k in Readable(cfg, ops, k.thread, now))
    && (forall k :: k in found ==> found[k] == Readable(cfg, ops, k.thread, now)[k])
  }

  /** What a purge leaves of a thread is what may still be read of it. */
  lemma PurgedReadable(cfg: Config, ops: seq<Op>, now: real, k: ItemKey)
    requires cfg.Valid()
    ensures var items, readable := Purge(cfg, Run(cfg, ops), now).items, Readable(cfg, ops, k.thread, now);
            (k in items <==> k in readable) && (k in items ==> items[k] == readable[k])
  {
    PurgedThread(cfg, ops, k.thread, now);
    assert k in Of(Purge(cfg, Run(cfg, ops), now).items, k.thread) <==> k in Purge(cfg, Run(cfg, ops), now).items;
  }

  lemma SelectLists(cfg: Config, ops: seq<Op>, now: real, thread: Option<string>, selected: set<ItemKey>)
    requires cfg.Valid()
    ensures ListsFrom(cfg, ops, now, thread, selected, Select(Purge(cfg, Run(cfg, ops), now).items, thread, selected))
  {
    forall k: ItemKey
      ensures var items, readable := Purge(cfg, Run(cfg, ops), now).items, Readable(cfg, ops, k.thread, now);
              (k in items <==> k in readable) && (k in items ==> items[k] == readable[k])
    {
      PurgedReadable(cfg, ops, now, k);
    }
  }

  /** A read that finds something puts its thread last; it changes the order in no other way. */
  ghost predicate Touches(before: seq<Access>, after: seq<Access>, cutoff: real, touched: Option<Access>) {
    && (touched.Some? ==> after != [] && after[|after| - 1] == touched.value)
    && (forall x :: x in after <==>
          || touched == Some(x)
          || (x in before && x.at > cutoff && (touched.Some? ==> x.thread != touched.value.thread)))
  }

  lemma PurgeTouches(cfg: Config, s: State, now: real)
    requires Distinct(s.order)
    ensures Touches(s.order, Purge(cfg, s, now).order, now - cfg.idleTtl, None)
  {
    KeepMembers(s.order, Expired(s.order, now - cfg.idleTtl));
    forall x | x in s.order
      ensures x.thread in Expired(s.order, now - cfg.idleTtl) <==> x.at <= now - cfg.idleTtl
    {
      ExpiredEntry(s.order, x, now - cfg.idleTtl);
    }
  }

  lemma TouchTouches(cfg: Config, s: State, now: real, thread: string, at: real)
    requires Distinct(s.order)
    ensures Touches(s.order, Touch(Purge(cfg, s, now), thread, at).order, now - cfg.idleTtl, Some(Access(thread, at)))
  {
    PurgeTouches(cfg, s, now);
    KeepMembers(Purge(cfg, s, now).order, {thread});
  }

  lemma GetTouches(cfg: Config, s: State, q: Query, now: real, at: real)
    requires Distinct(s.order)
    ensures Touches(s.order, GetState(cfg, s, q, now, at).order, now - cfg.idleTtl,
                    if Lookup(Purge(cfg, s, now).items, q).Some? then Some(Access(q.thread, at)) else None)
  {
    PurgeTouches(cfg, s, now);
    TouchTouches(cfg, s, now, q.thread, at);
  }

  /** A listing of one thread touches it when it finds something. */
  ghost predicate ListingTouches(cfg: Config, before: seq<Access>, after: seq<Access>, now: real,
                                 thread: Option<string>, at: real, found: Store)
  {
    Touches(before, after, now - cfg.idleTtl,
            if thread.Some? && found != map[] then Some(Access(thread.value, at)) else None)
  }

  /** What a listing answers and how it changes the recency order. */
  lemma ListMeaning(cfg: Config, ops: seq<Op>, thread: Option<string>, selected: set<ItemKey>, now: real, at: real)
    requires cfg.Valid()
    ensures var s := Run(cfg, ops);
            var found := Select(Purge(cfg, s, now).items, thread, selected);
            && ListsFrom(cfg, ops, now, thread, selected, found)
            && ListingTouches(cfg, s.order, ListState(cfg, s, thread, selected, now, at).order, now, thread, at, found)
            && (thread.Some? ==> found == Select(Readable(cfg, ops, thread.value, now), thread, selected))
  {
    RunKeepsInvariant(cfg, ops);
    SelectLists(cfg, ops, now, thread, selected);
    ListTouches(cfg, Run(cfg, ops), thread, selected, now, at);
    if thread.Some? {
      ListIsUnboundedOrNothing(cfg, ops, thread.value, selected, now);
    }
  }

  lemma ListTouches(cfg: Config, s: State, thread: Option<string>, selected: set<ItemKey>, now: real, at: real)
    requires Distinct(s.order)
    ensures ListingTouches(cfg, s.order, ListState(cfg, s, thread, selected, now, at).order, now, thread, at,
                           Select(Purge(cfg, s, now).items, thread, selected))
  {
    PurgeTouches(cfg, s, now);
    if thread.Some? {
      TouchTouches(cfg, s, now, thread.value, at);
    }
  }

  // ---------- writing and reading back ----------

  /** The items that a put must leave under its keys. */
  ghost predicate PutUnder(cfg: Config, p: Put, items: Store) {
    && CheckpointKey(p.thread, p.ns, p.id) in items
    && items[CheckpointKey(p.thread, p.ns, p.id)] == CheckpointItem(p.body, p.metadata, p.parent)
    && forall c :: c in p.newVersions ==>
         var k := BlobKey(p.thread, p.ns, c, p.newVersions[c]);
         k in items && items[k] == BlobItem(if c in p.values then p.values[c] else cfg.marker)
  }

  /** The key is the put's checkpoint, or the blob of one of its new channel versions. */
  ghost predicate UnderPut(p: Put, k: ItemKey) {
    || k == CheckpointKey(p.thread, p.ns, p.id)
    || exists c :: c in p.newVersions && k == BlobKey(p.thread, p.ns, c, p.newVersions[c])
  }

  /** What an accepted write left unexpired in the thread before it. */
  ghost predicate WasThere(cfg: Config, s: State, t: string, now: real, k: ItemKey) {
    k in s.items && k.thread == t && LiveAt(s.order, t, now - cfg.idleTtl)
  }

  ghost predicate IsWhatWas(cfg: Config, s: State, t: string, now: real, was: Store) {
    forall k :: (k in was <==> WasThere(cfg, s, t, now, k)) && (k in was && k in s.items ==> was[k] == s.items[k])
  }

  /** An accepted write finds its thread as it was, or empty when it was not live any more. */
  lemma BeforeWrite(cfg: Config, ops: seq<Op>, op: Op, t: string, now: real, rest: Store)
    requires cfg.Valid() && Stores(cfg, Run(cfg, ops), op) && op.now == now && Target(op) == Some(t)
    requires rest == if t in Gone(cfg, Run(cfg, ops), op) then map[] else Of(Run(cfg, ops).items, t)
    ensures IsWhatWas(cfg, Run(cfg, ops), t, now, rest)
  {
    var s := Run(cfg, ops);
    RunKeepsInvariant(cfg, ops);
    LiveIff(s.order, t, now - cfg.idleTtl);
    match op
    case DoPut(p, _, _) => AdmitDrops(cfg, s, p.thread, p.ns, p.id, PutEstimate(p), now);
    case DoPutWrites(w, _, _) => AdmitDrops(cfg, s, w.thread, w.ns, w.id, WritesEstimate(w), now);
  }

  lemma StoresTouches(cfg: Config, s: State, op: Op)
    requires cfg.Valid() && Stores(cfg, s, op)
    ensures Touched(cfg, s, op) == Target(op)
  {
  }

  lemma TouchedLast(cfg: Config, ops: seq<Op>, op: Op, t: string)
    requires cfg.Valid() && Touched(cfg, Run(cfg, ops), op) == Some(t)
    ensures LastTouch(cfg, ops + [op], t) == |ops| && (ops + [op])[|ops|] == op
  {
    assert (ops + [op])[..|ops|] == ops;
  }

  lemma RunOneMore(cfg: Config, ops: seq<Op>, op: Op)
    requires cfg.Valid()
    ensures Run(cfg, ops + [op]) == Step(cfg, Run(cfg, ops), op)
  {
    assert (ops + [op])[..|ops|] == ops;
  }

  /** Until the thread is idle for the TTL, a read after an accepted write sees what the write left. */
  lemma ReadableAfterWrite(cfg: Config, ops: seq<Op>, op: Op, t: string, later: real)
    requires cfg.Valid() && Stores(cfg, Run(cfg, ops), op) && Target(op) == Some(t) && op.at > later - cfg.idleTtl
    ensures Readable(cfg, ops + [op], t, later) == Of(Step(cfg, Run(cfg, ops), op).items, t)
  {
    StoresTouches(cfg, Run(cfg, ops), op);
    TouchedLast(cfg, ops, op, t);
    RunOneMore(cfg, ops, op);
    ThreadIsReplay(cfg, ops + [op], t);
    assert TouchTime(op) == op.at;
  }

  /**
   After an accepted put and before expiry, a read of the thread sees the checkpoint
   as it was put, every new channel version with its value or the marker, and of the
   rest exactly what was there before.
   */
  lemma PutRoundTrip(cfg: Config, ops: seq<Op>, p: Put, now: real, at: real, later: real)
    requires cfg.Valid() && PutResult(cfg, Run(cfg, ops), p, now, at).outcome == Accepted
    requires at > later - cfg.idleTtl
    ensures var s, seen := Run(cfg, ops), Readable(cfg, ops + [DoPut(p, now, at)], p.thread, later);
            && PutUnder(cfg, p, seen)
            && (forall k :: !UnderPut(p, k) ==> (k in seen <==> WasThere(cfg, s, p.thread, now, k)))
            && (forall k :: !UnderPut(p, k) && k in seen ==> seen[k] == s.items[k])
  {
    var s, op := Run(cfg, ops), DoPut(p, now, at);
    var rest := if p.thread in Gone(cfg, s, op) then map[] else Of(s.items, p.thread);
    RunKeepsInvariant(cfg, ops);
    StepOfThread(cfg, s, op, p.thread);
    ReadableAfterWrite(cfg, ops, op, p.thread, later);
    BeforeWrite(cfg, ops, op, p.thread, now, rest);
    AppliedPut(cfg, rest, p);
  }

  lemma AppliedPut(cfg: Config, items: Store, p: Put)
    ensures PutUnder(cfg, p, ApplyPut(items, p, cfg.marker))
    ensures forall k :: !UnderPut(p, k) ==>
              && (k in ApplyPut(items, p, cfg.marker) <==> k in items)
              && (k in items ==> ApplyPut(items, p, cfg.marker)[k] == items[k])
  {
    assert CheckpointKey(p.thread, p.ns, p.id) in PutKeys(p);
    forall c | c in p.newVersions
      ensures BlobKey(p.thread, p.ns, c, p.newVersions[c]) in PutKeys(p)
    {
    }
    forall k
      ensures k in PutKeys(p) <==> UnderPut(p, k)
    {
    }
  }

  /** A lookup of the checkpoint that was put, or of its namespace, then returns it with its channel values. */
  lemma GetAfterPut(cfg: Config, ops: seq<Op>, p: Put, now: real, at: real, later: real,
                    q: Query, answer: Option<Store>)
    requires cfg.Valid() && PutResult(cfg, Run(cfg, ops), p, now, at).outcome == Accepted
    requires at > later - cfg.idleTtl
    requires q == Query(p.thread, p.ns, None) || q == Query(p.thread, p.ns, Some(p.id))
    requires Answers(answer, Readable(cfg, ops + [DoPut(p, now, at)], q.thread, later), q)
    ensures answer.Some? && PutUnder(cfg, p, answer.value)
  {
    PutRoundTrip(cfg, ops, p, now, at, later);
  }

  // ---------- pending writes ----------

  /** The pending write that an entry stores. */
  ghost predicate WrittenBy(w: Writes, e: Entry, item: Item) {
    item.WriteItem? && item.channel == e.channel && item.value == e.value && item.path == w.path
  }

  /** The entry settles its key: the last that overwrites, or the first of a new key when none does. */
  ghost predicate Settles(before: Store, w: Writes, n: nat, j: nat)
    requires n <= |w.entries|
  {
    && j < n
    && (if w.entries[j].overwrites then forall i :: j < i < n && w.entries[i].index == w.entries[j].index ==>
                                          !w.entries[i].overwrites
        else
          && WriteKey(w.thread, w.ns, w.id, w.task, w.entries[j].index) !in before
          && (forall i :: 0 <= i < n && w.entries[i].index == w.entries[j].index ==>
                !w.entries[i].overwrites && j <= i))
  }

  /** The key of an entry's pending write. */
  function WrittenKey(w: Writes, index: int): ItemKey {
    WriteKey(w.thread, w.ns, w.id, w.task, index)
  }

  /** What the first `n` entries leave under one key: the settling entry's write, or what was there before. */
  ghost predicate LeftUnder(before: Store, after: Store, w: Writes, n: nat, k: ItemKey)
    requires n <= |w.entries|
  {
    && (forall j :: 0 <= j < n && k == WrittenKey(w, w.entries[j].index) && Settles(before, w, n, j) ==>
          k in after && WrittenBy(w, w.entries[j], after[k]))
    && ((forall j :: 0 <= j < n && k == WrittenKey(w, w.entries[j].index) ==> !Settles(before, w, n, j)) ==>
          (k in after <==> k in before) && (k in before ==> after[k] == before[k]))
  }

  /** What becomes of one index with one more entry. */
  lemma SettlesStep(before: Store, w: Writes, n: nat, j: nat)
    requires 0 < n <= |w.entries| && j < n - 1
    ensures var e := w.entries[n - 1];
            Settles(before, w, n, j) <==>
              Settles(before, w, n - 1, j) && !(e.index == w.entries[j].index && e.overwrites)
  {
  }

  /** An index that has been stored, or was there before, is settled by some entry or was there before. */
  lemma {:induction false} StoredIsSettled(before: Store, w: Writes, n: nat, index: int) returns (j: int)
    requires n <= |w.entries|
    requires exists i :: 0 <= i < n && w.entries[i].index == index
    requires WriteKey(w.thread, w.ns, w.id, w.task, index) !in before
             || exists i :: 0 <= i < n && w.entries[i].index == index && w.entries[i].overwrites
    ensures 0 <= j < n && w.entries[j].index == index && Settles(before, w, n, j)
  {
    var e := w.entries[n - 1];
    if e.index == index && e.overwrites {
      j := n - 1;
    } else if exists i :: 0 <= i < n - 1 && w.entries[i].index == index {
      j := StoredIsSettled(before, w, n - 1, index);
      SettlesStep(before, w, n, j);
    } else {
      j := n - 1;
    }
  }

  lemma EntryElsewhere(before: Store, items: Store, w: Writes, n: nat, k: ItemKey)
    requires 0 < n <= |w.entries| && LeftUnder(before, items, w, n - 1, k)
    requires k != WrittenKey(w, w.entries[n - 1].index)
    ensures LeftUnder(before, ApplyEntry(items, w, w.entries[n - 1]), w, n, k)
  {
    forall j | 0 <= j < n && k == WrittenKey(w, w.entries[j].index)
      ensures j < n - 1 && (Settles(before, w, n, j) <==> Settles(before, w, n - 1, j))
    {
      SettlesStep(before, w, n, j);
    }
  }

  lemma EntryOverwrites(before: Store, items: Store, w: Writes, n: nat)
    requires 0 < n <= |w.entries| && w.entries[n - 1].overwrites
    ensures LeftUnder(before, ApplyEntry(items, w, w.entries[n - 1]), w, n, WrittenKey(w, w.entries[n - 1].index))
  {
    var e := w.entries[n - 1];
    assert Settles(before, w, n, n - 1);
    forall j | 0 <= j < n - 1 && w.entries[j].index == e.index
      ensures !Settles(before, w, n, j)
    {
      SettlesStep(before, w, n, j);
    }
  }

  /** An entry that does not overwrite is stored exactly when it is the first of a new key. */
  lemma EntryKeeps(before: Store, items: Store, w: Writes, n: nat)
    requires 0 < n <= |w.entries| && !w.entries[n - 1].overwrites
    requires LeftUnder(before, items, w, n - 1, WrittenKey(w, w.entries[n - 1].index))
    ensures LeftUnder(before, ApplyEntry(items, w, w.entries[n - 1]), w, n, WrittenKey(w, w.entries[n - 1].index))
  {
    var e := w.entries[n - 1];
    var k := WrittenKey(w, e.index);
    forall j | 0 <= j < n - 1 && w.entries[j].index == e.index
      ensures Settles(before, w, n, j) <==> Settles(before, w, n - 1, j)
    {
      SettlesStep(before, w, n, j);
    }
    if k !in before && exists i :: 0 <= i < n - 1 && w.entries[i].index == e.index {
      var j := StoredIsSettled(before, w, n - 1, e.index);
      assert !Settles(before, w, n, n - 1);
    } else if k !in before {
      assert Settles(before, w, n, n - 1);
    } else {
      KeptIsThere(before, items, w, n - 1, e.index);
    }
  }

  /** A key that was there before is still there. */
  lemma KeptIsThere(before: Store, items: Store, w: Writes, n: nat, index: int)
    requires n <= |w.entries| && LeftUnder(before, items, w, n, WrittenKey(w, index)) && WrittenKey(w, index) in before
    ensures WrittenKey(w, index) in items
  {
  }

  lemma {:induction false} EntriesUnder(before: Store, w: Writes, n: nat, k: ItemKey)
    requires n <= |w.entries|
    ensures LeftUnder(before, ApplyEntries(before, w, n), w, n, k)
  {
    if n > 0 {
      var items := ApplyEntries(before, w, n - 1);
      EntriesUnder(before, w, n - 1, k);
      if k != WrittenKey(w, w.entries[n - 1].index) {
        EntryElsewhere(before, items, w, n, k);
      } else if w.entries[n - 1].overwrites {
        EntryOverwrites(before, items, w, n);
      } else {
        EntryKeeps(before, items, w, n);
      }
    }
  }

  /**
   After an accepted batch and before expiry, a read of the thread sees under each
   key the write of the entry that settles it, with its channel, value and task path,
   and under all other keys exactly what was there before.
   */
  lemma PutWritesRoundTrip(cfg: Config, ops: seq<Op>, w: Writes, now: real, at: real, later: real,
                           was: Store, k: ItemKey)
    requires cfg.Valid() && PutWritesResult(cfg, Run(cfg, ops), w, now, at).outcome == Accepted
    requires at > later - cfg.idleTtl && k.thread == w.thread
    requires IsWhatWas(cfg, Run(cfg, ops), w.thread, now, was)
    ensures LeftUnder(was, Readable(cfg, ops + [DoPutWrites(w, now, at)], w.thread, later), w, |w.entries|, k)
  {
    var s, op := Run(cfg, ops), DoPutWrites(w, now, at);
    var rest := if w.thread in Gone(cfg, s, op) then map[] else Of(s.items, w.thread);
    RunKeepsInvariant(cfg, ops);
    StepOfThread(cfg, s, op, w.thread);
    ReadableAfterWrite(cfg, ops, op, w.thread, later);
    BeforeWrite(cfg, ops, op, w.thread, now, rest);
    assert was == rest;
    EntriesUnder(was, w, |w.entries|, k);
  }
}
