/**
 What the bounded saver promises, operation by operation, on a state without a
 size ledger: sizes are recounted from the store wherever they matter.
 */
module SaverSpec {
  import opened ByteSizes
  import opened Items

  /** The limits, and the marker the parent stores for a channel without a value. */
  datatype Config = Config(
    idleTtl: real, maxThreads: nat, maxNamespaces: nat, maxCheckpoints: nat,
    maxCheckpointBytes: nat, maxPendingBytes: nat, maxTotalBytes: nat,
    marker: Serialized)
  {
    predicate Valid() {
      && 0.0 < idleTtl
      && 0 < maxThreads && 0 < maxNamespaces && 0 < maxCheckpoints
      && 0 < maxCheckpointBytes <= maxTotalBytes
      && 0 < maxPendingBytes <= maxTotalBytes
    }
  }

  /** The last access of a thread. The recency order lists the oldest first. */
  datatype Access = Access(thread: string, at: real)

  datatype State = State(items: Store, order: seq<Access>)

  const EMPTY := State(map[], [])

  function Threads(order: seq<Access>): set<string> {
    set i | 0 <= i < |order| :: order[i].thread
  }

  ghost predicate Distinct(order: seq<Access>) {
    forall i, j :: 0 <= i < j < |order| ==> order[i].thread != order[j].thread
  }

  /** The recency order without some threads. */
  function Keep(order: seq<Access>, gone: set<string>): seq<Access> {
    if order == [] then []
    else (if order[0].thread in gone then [] else [order[0]]) + Keep(order[1..], gone)
  }

  /** Removes complete threads. */
  function Drop(s: State, gone: set<string>): State {
    State(Without(s.items, gone), Keep(s.order, gone))
  }

  function Touch(s: State, thread: string, at: real): State {
    s.(order := Keep(s.order, {thread}) + [Access(thread, at)])
  }

  // ---------- expiry and eviction ----------

  function Expired(order: seq<Access>, cutoff: real): set<string> {
    set i | 0 <= i < |order| && order[i].at <= cutoff :: order[i].thread
  }

  function Purge(cfg: Config, s: State, now: real): State {
    Drop(s, Expired(s.order, now - cfg.idleTtl))
  }

  /** How many of the oldest threads make room for one more. */
  function Surplus(cfg: Config, order: seq<Access>): (n: nat)
    requires cfg.Valid()
    ensures n <= |order|
  {
    if |order| < cfg.maxThreads then 0 else |order| - cfg.maxThreads + 1
  }

  function EvictForThread(cfg: Config, s: State, thread: string): State
    requires cfg.Valid()
  {
    if thread in Threads(s.order) then s
    else Drop(s, Threads(s.order[..Surplus(cfg, s.order)]))
  }

  /** The candidates for eviction, oldest first. */
  function Others(s: State, thread: string): seq<Access> {
    Keep(s.order, {thread})
  }

  /** The request fits once the `k` oldest candidates are gone. */
  ghost predicate FitsWithout(cfg: Config, s: State, size: nat, thread: string, k: nat)
    requires k <= |Others(s, thread)|
  {
    Bytes(Without(s.items, Threads(Others(s, thread)[..k]))) + size <= cfg.maxTotalBytes
  }

  /** The fewest candidates to evict, at least `from`; all of them when nothing suffices. */
  ghost function EvictCount(cfg: Config, s: State, size: nat, thread: string, from: nat): (n: nat)
    requires from <= |Others(s, thread)|
    ensures from <= n <= |Others(s, thread)|
    ensures forall k :: from <= k < n ==> !FitsWithout(cfg, s, size, thread, k)
    ensures n < |Others(s, thread)| ==> FitsWithout(cfg, s, size, thread, n)
    decreases |Others(s, thread)| - from
  {
    if from == |Others(s, thread)| || FitsWithout(cfg, s, size, thread, from) then from
    else EvictCount(cfg, s, size, thread, from + 1)
  }

  ghost function EvictForBytes(cfg: Config, s: State, size: nat, thread: string): State {
    Drop(s, Threads(Others(s, thread)[..EvictCount(cfg, s, size, thread, 0)]))
  }

  // ---------- writes ----------

  datatype Outcome =
    | Accepted
    | PayloadTooLarge
    | TooManyNamespaces
    | TooManyCheckpoints
    | OverByteBudget

  datatype Result = Result(state: State, outcome: Outcome)

  predicate NamespaceFits(cfg: Config, items: Store, thread: string, ns: string) {
    ns in Namespaces(items, thread) || |Namespaces(items, thread)| < cfg.maxNamespaces
  }

  predicate CheckpointFits(cfg: Config, items: Store, thread: string, ns: string, id: string) {
    (ns, id) in Checkpoints(items, thread) || |Checkpoints(items, thread)| < cfg.maxCheckpoints
  }

  /** After expiry, and with a place for the thread. */
  function Roomy(cfg: Config, s: State, thread: string, now: real): State
    requires cfg.Valid()
  {
    EvictForThread(cfg, Purge(cfg, s, now), thread)
  }

  /** Expiry, the thread, namespace and checkpoint caps, and room for `size` bytes. */
  ghost function Admit(cfg: Config, s: State, thread: string, ns: string, id: string, size: nat, now: real): Result
    requires cfg.Valid()
  {
    var roomy := Roomy(cfg, s, thread, now);
    if !NamespaceFits(cfg, roomy.items, thread, ns) then Result(roomy, TooManyNamespaces)
    else if !CheckpointFits(cfg, roomy.items, thread, ns, id) then Result(roomy, TooManyCheckpoints)
    else
      var evicted := EvictForBytes(cfg, roomy, size, thread);
      if Bytes(evicted.items) + size <= cfg.maxTotalBytes then Result(evicted, Accepted)
      else Result(evicted, OverByteBudget)
  }

  ghost function PutResult(cfg: Config, s: State, p: Put, now: real, at: real): Result
    requires cfg.Valid()
  {
    if PutEstimate(p) > cfg.maxCheckpointBytes then Result(s, PayloadTooLarge)
    else
      var r := Admit(cfg, s, p.thread, p.ns, p.id, PutEstimate(p), now);
      if r.outcome != Accepted then r
      else Result(Touch(r.state.(items := ApplyPut(r.state.items, p, cfg.marker)), p.thread, at), Accepted)
  }

  ghost function PutWritesResult(cfg: Config, s: State, w: Writes, now: real, at: real): Result
    requires cfg.Valid()
  {
    if WritesEstimate(w) > cfg.maxPendingBytes then Result(s, PayloadTooLarge)
    else
      var r := Admit(cfg, s, w.thread, w.ns, w.id, WritesEstimate(w), now);
      if r.outcome != Accepted then r
      else Result(Touch(r.state.(items := ApplyWrites(r.state.items, w)), w.thread, at), Accepted)
  }

  ghost function GetState(cfg: Config, s: State, q: Query, now: real, at: real): State {
    var purged := Purge(cfg, s, now);
    if Lookup(purged.items, q).Some? then Touch(purged, q.thread, at) else purged
  }

  function ListState(cfg: Config, s: State, thread: Option<string>, selected: set<ItemKey>, now: real, at: real)
    : State
  {
    var purged := Purge(cfg, s, now);
    if thread.Some? && Select(purged.items, thread, selected) != map[] then Touch(purged, thread.value, at) else purged
  }

  // ---------- runs ----------

  /** One call under the lock, with the clock readings at its start and at its touch. */
  datatype Op =
    | DoPut(put: Put, now: real, at: real)
    | DoPutWrites(writes: Writes, now: real, at: real)
    | DoGet(query: Query, now: real, at: real)
    | DoList(thread: Option<string>, selected: set<ItemKey>, now: real, at: real)
    | DoDelete(target: string)
    | DoPurge(now: real)
    | DoStats(now: real)
    | DoClear

  ghost function Step(cfg: Config, s: State, op: Op): State
    requires cfg.Valid()
  {
    match op
    case DoPut(p, now, at) => PutResult(cfg, s, p, now, at).state
    case DoPutWrites(w, now, at) => PutWritesResult(cfg, s, w, now, at).state
    case DoGet(q, now, at) => GetState(cfg, s, q, now, at)
    case DoList(thread, selected, now, at) => ListState(cfg, s, thread, selected, now, at)
    case DoDelete(target) => Drop(s, {target})
    case DoPurge(now) => Purge(cfg, s, now)
    case DoStats(now) => Purge(cfg, s, now)
    case DoClear => EMPTY
  }

  /** The state after a run from the empty saver. */
  ghost function Run(cfg: Config, ops: seq<Op>): State
    requires cfg.Valid()
  {
    if ops == [] then EMPTY else Step(cfg, Run(cfg, ops[..|ops| - 1]), ops[|ops| - 1])
  }

  // ---------- the recency order ----------

  lemma {:induction false} KeepConcat(a: seq<Access>, b: seq<Access>, gone: set<string>)
    ensures Keep(a + b, gone) == Keep(a, gone) + Keep(b, gone)
  {
    if a == [] {
      assert a + b == b;
    } else {
      assert (a + b)[0] == a[0] && (a + b)[1..] == a[1..] + b;
      KeepConcat(a[1..], b, gone);
    }
  }

  lemma {:induction false} KeepKeep(order: seq<Access>, a: set<string>, b: set<string>)
    ensures Keep(Keep(order, a), b) == Keep(order, a + b)
  {
    if order != [] {
      KeepKeep(order[1..], a, b);
      var head := if order[0].thread in a then [] else [order[0]];
      KeepConcat(head, Keep(order[1..], a), b);
    }
  }

  lemma {:induction false} KeepMembers(order: seq<Access>, gone: set<string>)
    ensures forall x :: x in Keep(order, gone) <==> x in order && x.thread !in gone
    ensures Distinct(order) ==> Distinct(Keep(order, gone))
  {
    if order != [] {
      KeepMembers(order[1..], gone);
      assert order == [order[0]] + order[1..];
      if Distinct(order) {
        assert forall x :: x in Keep(order[1..], gone) ==> x in order[1..];
      }
    }
  }

  lemma ThreadsMembers(order: seq<Access>)
    ensures forall t :: t in Threads(order) <==> exists x :: x in order && x.thread == t
  {
  }

  lemma ThreadsKeep(order: seq<Access>, gone: set<string>)
    ensures Threads(Keep(order, gone)) == Threads(order) - gone
  {
    KeepMembers(order, gone);
    ThreadsMembers(order);
    ThreadsMembers(Keep(order, gone));
  }

  /** Keeping everything changes nothing. */
  lemma {:induction false} KeepAll(order: seq<Access>, gone: set<string>)
    requires Threads(order) !! gone
    ensures Keep(order, gone) == order
  {
    if order != [] {
      assert order[0].thread in Threads(order);
      forall t | t in Threads(order[1..]) ensures t in Threads(order) {
        var i :| 0 <= i < |order[1..]| && order[1..][i].thread == t;
        assert order[i + 1].thread == t;
      }
      KeepAll(order[1..], gone);
    }
  }

  /** Dropping the threads of a prefix leaves the suffix. */
  lemma KeepSuffix(order: seq<Access>, k: nat)
    requires Distinct(order) && k <= |order|
    ensures Keep(order, Threads(order[..k])) == order[k..]
  {
    var gone := Threads(order[..k]);
    assert order == order[..k] + order[k..];
    KeepConcat(order[..k], order[k..], gone);
    KeepNone(order[..k], gone);
    assert Threads(order[k..]) !! gone;
    KeepAll(order[k..], gone);
  }

  lemma {:induction false} KeepNone(order: seq<Access>, gone: set<string>)
    requires Threads(order) <= gone
    ensures Keep(order, gone) == []
  {
    if order != [] {
      assert order[0].thread in Threads(order);
      forall t | t in Threads(order[1..]) ensures t in Threads(order) {
        var i :| 0 <= i < |order[1..]| && order[1..][i].thread == t;
        assert order[i + 1].thread == t;
      }
      KeepNone(order[1..], gone);
    }
  }

  lemma DropDrop(s: State, a: set<string>, b: set<string>)
    ensures Drop(Drop(s, a), b) == Drop(s, a + b)
  {
    WithoutWithout(s.items, a, b);
    KeepKeep(s.order, a, b);
  }

  lemma ThreadsPrefixStep(order: seq<Access>, k: nat)
    requires k < |order|
    ensures Threads(order[..k + 1]) == Threads(order[..k]) + {order[k].thread}
  {
    forall t | t in Threads(order[..k + 1]) ensures t in Threads(order[..k]) + {order[k].thread} {
      var i :| 0 <= i < k + 1 && order[..k + 1][i].thread == t;
      if i < k {
        assert order[..k][i].thread == t;
      }
    }
    forall t | t in Threads(order[..k]) ensures t in Threads(order[..k + 1]) {
      var i :| 0 <= i < k && order[..k][i].thread == t;
      assert order[..k + 1][i].thread == t;
    }
    assert order[..k + 1][k].thread == order[k].thread;
  }

  lemma ThreadsPrefix(order: seq<Access>, k: nat)
    requires k <= |order|
    ensures Threads(order[..k]) <= Threads(order)
  {
    forall t | t in Threads(order[..k]) ensures t in Threads(order) {
      var i :| 0 <= i < k && order[..k][i].thread == t;
      assert order[i].thread == t;
    }
  }

  // ---------- eviction steps ----------

  lemma DropNothing(s: State)
    ensures Drop(s, {}) == s
    ensures forall order: seq<Access> :: Threads(order[..0]) == {}
  {
    KeepAll(s.order, {});
  }

  lemma DropOldest(s: State, k: nat)
    requires Distinct(s.order) && k < |s.order|
    ensures Drop(Drop(s, Threads(s.order[..k])), {s.order[k].thread}) == Drop(s, Threads(s.order[..k + 1]))
    ensures Keep(s.order[k..], {s.order[k].thread}) == s.order[k + 1..]
  {
    DropDrop(s, Threads(s.order[..k]), {s.order[k].thread});
    ThreadsPrefixStep(s.order, k);
    KeepSuffix(s.order, k);
    KeepSuffix(s.order, k + 1);
  }

  lemma EvictOldest(s: State, thread: string, k: nat)
    requires Distinct(s.order) && k < |Others(s, thread)|
    ensures var others := Others(s, thread);
            && Drop(Drop(s, Threads(others[..k])), {others[k].thread}) == Drop(s, Threads(others[..k + 1]))
            && Others(Drop(s, Threads(others[..k + 1])), thread) == others[k + 1..]
  {
    var others := Others(s, thread);
    DropDrop(s, Threads(others[..k]), {others[k].thread});
    ThreadsPrefixStep(others, k);
    KeepMembers(s.order, {thread});
    OthersAfter(s, thread, k + 1);
  }

  lemma OthersAfter(s: State, thread: string, k: nat)
    requires Distinct(s.order) && k <= |Others(s, thread)|
    ensures Others(Drop(s, Threads(Others(s, thread)[..k])), thread) == Others(s, thread)[k..]
  {
    var gone := Threads(Others(s, thread)[..k]);
    KeepMembers(s.order, {thread});
    KeepKeep(s.order, gone, {thread});
    KeepKeep(s.order, {thread}, gone);
    assert gone + {thread} == {thread} + gone;
    KeepSuffix(Others(s, thread), k);
  }
}
