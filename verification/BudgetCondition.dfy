/**
 Exactly which operations can exceed the byte budget. An operation that stores
 more than it announces does so once its own thread is filled up to the point at
 which the announced size still fits.
 */
module BudgetCondition {
  import opened ByteSizes
  import opened Items
  import opened SaverSpec
  import opened SaverInvariant
  import opened SaverAdmission

  // ---------- filling a thread byte by byte ----------

  /** The checkpoint that is put again and again, and the channel that gets a new version each time. */
  datatype Target = Target(thread: string, ns: string, id: string, channel: string)

  const NOTHING := Serialized("", [])
  const ONE_BYTE := Serialized("", [0])

  function Version(i: nat): string {
    seq(i, _ => 'v')
  }

  /** A put of one new blob of one byte. */
  function Filler(target: Target, i: nat): Put {
    var version := map[target.channel := Version(i)];
    Put(target.thread, target.ns, target.id, Body(NOTHING, version), NOTHING, None,
        map[target.channel := ONE_BYTE], version)
  }

  /** The checkpoint, which costs nothing, or a blob of an earlier version. */
  predicate FilledKey(target: Target, n: nat, k: ItemKey, item: Item) {
    || (k == CheckpointKey(target.thread, target.ns, target.id) && ItemSize(item) == 0)
    || (k.BlobKey? && k.thread == target.thread && k.ns == target.ns && k.channel == target.channel && |k.version| < n)
  }

  /** Nothing but the first `n` fillers is stored, and they cost `n` bytes. */
  ghost predicate FilledTo(target: Target, n: nat, items: Store) {
    && (forall k :: k in items ==> FilledKey(target, n, k, items[k]))
    && (if n == 0 then items == map[] else CheckpointKey(target.thread, target.ns, target.id) in items)
    && Bytes(items) == n
  }

  function Filled(target: Target, n: nat, items: Store, now: real): State {
    State(items, if n == 0 then [] else [Access(target.thread, now)])
  }

  /** Every operation is a put of the target's own checkpoint. */
  ghost predicate OwnPuts(target: Target, ops: seq<Op>) {
    forall i :: 0 <= i < |ops| ==>
      ops[i].DoPut? && (ops[i].put.thread, ops[i].put.ns, ops[i].put.id) == (target.thread, target.ns, target.id)
  }

  lemma FillerKeys(target: Target, i: nat)
    ensures PutKeys(Filler(target, i)) == {CheckpointKey(target.thread, target.ns, target.id),
                                           BlobKey(target.thread, target.ns, target.channel, Version(i))}
  {
    var p := Filler(target, i);
    var k := BlobKey(target.thread, target.ns, target.channel, Version(i));
    assert target.channel in p.newVersions && k == BlobKeyOf(p, target.channel);
    assert k in PutKeys(p);
  }

  lemma FillerEstimate(target: Target, marker: Serialized, i: nat)
    ensures PutEstimate(Filler(target, i)) == 1 && AbsentBytes(Filler(target, i), marker) == 0
  {
    var p := Filler(target, i);
    assert ValueSizes(p) == map[][target.channel := 1];
    SumPut(map[], target.channel, 1);
    assert AbsentChannels(p) == {};
  }

  /** A put that meets no version of the channel overwrites at most the checkpoint, which costs nothing. */
  lemma NothingOverwritten(target: Target, n: nat, items: Store, p: Put)
    requires FilledTo(target, n, items)
    requires target.channel in p.newVersions ==> n <= |p.newVersions[target.channel]|
    ensures Bytes(Restrict(items, PutKeys(p))) == 0
  {
    var own, common := CheckpointKey(target.thread, target.ns, target.id), Restrict(items, PutKeys(p));
    assert Sizes(map[]) == map[];
    forall k | k in common
      ensures k == own && ItemSize(common[k]) == 0
    {
      assert FilledKey(target, n, k, items[k]);
    }
    if own in common {
      assert common == map[][own := common[own]];
      BytesPutItem(map[], own, common[own]);
    } else {
      assert common == map[];
    }
  }

  lemma FillerKey(target: Target, marker: Serialized, i: nat, items: Store, k: ItemKey)
    requires k in ApplyPut(items, Filler(target, i), marker)
    requires k in items ==> FilledKey(target, i, k, items[k])
    ensures FilledKey(target, i + 1, k, ApplyPut(items, Filler(target, i), marker)[k])
  {
    FillerKeys(target, i);
  }

  lemma FillerBytes(target: Target, marker: Serialized, i: nat, items: Store)
    requires FilledTo(target, i, items)
    ensures Bytes(ApplyPut(items, Filler(target, i), marker)) == i + 1
  {
    ApplyPutBytes(items, Filler(target, i), marker);
    NothingOverwritten(target, i, items, Filler(target, i));
    FillerEstimate(target, marker, i);
  }

  lemma FillerFills(target: Target, marker: Serialized, i: nat, items: Store)
    requires FilledTo(target, i, items)
    ensures FilledTo(target, i + 1, ApplyPut(items, Filler(target, i), marker))
  {
    var after := ApplyPut(items, Filler(target, i), marker);
    forall k | k in after
      ensures FilledKey(target, i + 1, k, after[k])
    {
      FillerKey(target, marker, i, items, k);
    }
    FillerKeys(target, i);
    FillerBytes(target, marker, i, items);
  }

  lemma FilledOwn(target: Target, n: nat, items: Store)
    requires FilledTo(target, n, items)
    ensures Of(items, target.thread) == items
  {
    forall k | k in items
      ensures k.thread == target.thread
    {
      assert FilledKey(target, n, k, items[k]);
    }
  }

  /** The filled thread accepts a write that still fits the budget. */
  lemma FilledVerdict(cfg: Config, target: Target, n: nat, items: Store, size: nat, cap: nat, now: real)
    requires cfg.Valid() && size <= cap && n + size <= cfg.maxTotalBytes && FilledTo(target, n, items)
    ensures Verdict(cfg, Filled(target, n, items, now), target.thread, target.ns, target.id, size, cap, now) == Accepted
  {
    FilledOwn(target, n, items);
  }

  /** Nothing is removed for it. */
  lemma FilledUntouched(cfg: Config, target: Target, n: nat, items: Store, size: nat, now: real)
    requires cfg.Valid() && FilledTo(target, n, items)
    ensures Admit(cfg, Filled(target, n, items, now), target.thread, target.ns, target.id, size, now).state
         == Filled(target, n, items, now)
  {
    var s := Filled(target, n, items, now);
    var gone := AdmitGone(cfg, s, target.thread, target.ns, target.id, size, now);
    AdmitDrops(cfg, s, target.thread, target.ns, target.id, size, now);
    FilledOwn(target, n, items);
    assert target.thread !in gone;
    KeepAll(s.order, gone);
    OwnUntouched(items, target.thread, gone);
  }

  lemma OwnUntouched(items: Store, thread: string, gone: set<string>)
    requires Of(items, thread) == items && thread !in gone
    ensures Without(items, gone) == items
  {
    assert forall k :: k in items ==> k in Of(items, thread);
  }

  /** The run has filled the thread with `n` bytes. */
  ghost predicate Fills(cfg: Config, target: Target, n: nat, ops: seq<Op>, items: Store, now: real)
    requires cfg.Valid()
  {
    && AllSlackless(cfg, ops) && OwnPuts(target, ops)
    && Run(cfg, ops) == Filled(target, n, items, now) && FilledTo(target, n, items)
  }

  lemma FillerAccepted(cfg: Config, target: Target, i: nat, ops: seq<Op>, items: Store, now: real)
    requires cfg.Valid() && i < cfg.maxTotalBytes && Fills(cfg, target, i, ops, items, now)
    ensures PutResult(cfg, Filled(target, i, items, now), Filler(target, i), now, now).outcome == Accepted
  {
    FillerEstimate(target, cfg.marker, i);
    FilledVerdict(cfg, target, i, items, 1, cfg.maxCheckpointBytes, now);
    PutVerdict(cfg, ops, Filler(target, i), now, now);
  }

  lemma FillerStep(cfg: Config, target: Target, i: nat, items: Store, now: real)
    requires cfg.Valid() && FilledTo(target, i, items)
    requires PutResult(cfg, Filled(target, i, items, now), Filler(target, i), now, now).outcome == Accepted
    ensures Step(cfg, Filled(target, i, items, now), DoPut(Filler(target, i), now, now))
         == Filled(target, i + 1, ApplyPut(items, Filler(target, i), cfg.marker), now)
  {
    FilledUntouched(cfg, target, i, items, PutEstimate(Filler(target, i)), now);
    assert Keep(Filled(target, i, items, now).order, {target.thread}) == [];
  }

  lemma FillerAppended(cfg: Config, target: Target, i: nat, ops: seq<Op>, now: real)
    requires AllSlackless(cfg, ops) && OwnPuts(target, ops)
    ensures var longer := ops + [DoPut(Filler(target, i), now, now)];
            AllSlackless(cfg, longer) && OwnPuts(target, longer)
  {
    FillerEstimate(target, cfg.marker, i);
  }

  lemma FillOne(cfg: Config, target: Target, i: nat, ops: seq<Op>, items: Store, now: real)
    returns (ops': seq<Op>, items': Store)
    requires cfg.Valid() && i < cfg.maxTotalBytes && Fills(cfg, target, i, ops, items, now)
    ensures Fills(cfg, target, i + 1, ops', items', now)
  {
    ops', items' := ops + [DoPut(Filler(target, i), now, now)], ApplyPut(items, Filler(target, i), cfg.marker);
    FillerAccepted(cfg, target, i, ops, items, now);
    FillerStep(cfg, target, i, items, now);
    FillerFills(target, cfg.marker, i, items);
    FillerAppended(cfg, target, i, ops, now);
    RunLast(cfg, ops, DoPut(Filler(target, i), now, now));
  }

  lemma FillNone(cfg: Config, target: Target, now: real)
    requires cfg.Valid()
    ensures Fills(cfg, target, 0, [], map[], now)
  {
    assert Sizes(map[]) == map[];
  }

  /** A thread can be filled up to the limit, byte by byte. */
  lemma {:induction false} Fill(cfg: Config, target: Target, n: nat, now: real) returns (ops: seq<Op>, items: Store)
    requires cfg.Valid() && n <= cfg.maxTotalBytes
    ensures Fills(cfg, target, n, ops, items, now)
  {
    if n == 0 {
      ops, items := [], map[];
      FillNone(cfg, target, now);
    } else {
      ops, items := Fill(cfg, target, n - 1, now);
      ops, items := FillOne(cfg, target, n - 1, ops, items, now);
    }
  }

  lemma RunLast(cfg: Config, ops: seq<Op>, op: Op)
    requires cfg.Valid()
    ensures Run(cfg, ops + [op]) == Step(cfg, Run(cfg, ops), op)
  {
    assert (ops + [op])[..|ops|] == ops;
  }

  // ---------- what is stored on top ----------

  /** A put that does not use the filled channel overwrites none of the blobs. */
  lemma PutOnTop(cfg: Config, target: Target, p: Put, n: nat, items: Store, now: real, at: real)
    requires cfg.Valid() && FilledTo(target, n, items)
    requires PutResult(cfg, Filled(target, n, items, now), p, now, at).outcome == Accepted
    requires (target.thread, target.ns, target.id) == (p.thread, p.ns, p.id) && target.channel !in p.newVersions
    ensures Bytes(PutResult(cfg, Filled(target, n, items, now), p, now, at).state.items)
         == n + PutEstimate(p) + AbsentBytes(p, cfg.marker)
  {
    FilledUntouched(cfg, target, n, items, PutEstimate(p), now);
    PutBytes(cfg, Filled(target, n, items, now), p, now, at);
    NothingOverwritten(target, n, items, p);
  }

  /** The filled thread has no pending write that a batch could meet. */
  lemma BatchOnTop(cfg: Config, target: Target, w: Writes, n: nat, items: Store, now: real, at: real)
    requires cfg.Valid() && FilledTo(target, n, items)
    requires PutWritesResult(cfg, Filled(target, n, items, now), w, now, at).outcome == Accepted
    requires (target.thread, target.ns, target.id) == (w.thread, w.ns, w.id)
    ensures Bytes(PutWritesResult(cfg, Filled(target, n, items, now), w, now, at).state.items) == n + AloneBytes(w)
  {
    FilledUntouched(cfg, target, n, items, WritesEstimate(w), now);
    WritesApartBytes(items, w);
  }

  /** A channel name longer than all others. */
  lemma {:induction false} FreshChannel(names: set<string>) returns (name: string)
    ensures forall other :: other in names ==> |other| < |name|
  {
    if names == {} {
      name := "";
    } else {
      var first :| first in names;
      var rest := FreshChannel(names - {first});
      name := rest + first + "c";
    }
  }

  // ---------- the condition ----------

  /** After every run of slackless operations the operation leaves the total within the budget. */
  ghost predicate KeepsBudget(cfg: Config, op: Op)
    requires cfg.Valid()
  {
    forall ops :: AllSlackless(cfg, ops) ==> Bytes(Run(cfg, ops + [op]).items) <= cfg.maxTotalBytes
  }

  lemma SlackPutBreaksBudget(cfg: Config, p: Put, now: real, at: real) returns (target: Target, ops: seq<Op>)
    requires cfg.Valid() && !Slackless(cfg, DoPut(p, now, at))
    ensures (target.thread, target.ns, target.id) == (p.thread, p.ns, p.id) && OwnPuts(target, ops)
    ensures AllSlackless(cfg, ops) && Bytes(Run(cfg, ops + [DoPut(p, now, at)]).items) > cfg.maxTotalBytes
  {
    var n := cfg.maxTotalBytes - PutEstimate(p);
    var channel := FreshChannel(p.newVersions.Keys);
    var items;
    target := Target(p.thread, p.ns, p.id, channel);
    ops, items := Fill(cfg, target, n, now);
    FilledVerdict(cfg, target, n, items, PutEstimate(p), cfg.maxCheckpointBytes, now);
    PutVerdict(cfg, ops, p, now, at);
    PutOnTop(cfg, target, p, n, items, now, at);
    RunLast(cfg, ops, DoPut(p, now, at));
  }

  lemma SlackBatchBreaksBudget(cfg: Config, w: Writes, now: real, at: real) returns (target: Target, ops: seq<Op>)
    requires cfg.Valid() && !Slackless(cfg, DoPutWrites(w, now, at))
    ensures (target.thread, target.ns, target.id) == (w.thread, w.ns, w.id) && OwnPuts(target, ops)
    ensures AllSlackless(cfg, ops) && Bytes(Run(cfg, ops + [DoPutWrites(w, now, at)]).items) > cfg.maxTotalBytes
  {
    var n := cfg.maxTotalBytes - WritesEstimate(w);
    var items;
    target := Target(w.thread, w.ns, w.id, "c");
    ops, items := Fill(cfg, target, n, now);
    FilledVerdict(cfg, target, n, items, WritesEstimate(w), cfg.maxPendingBytes, now);
    PutWritesVerdict(cfg, ops, w, now, at);
    BatchOnTop(cfg, target, w, n, items, now, at);
    RunLast(cfg, ops, DoPutWrites(w, now, at));
  }

  /** The operation writes to this checkpoint. */
  predicate WritesTo(op: Op, thread: string, ns: string, id: string) {
    match op
    case DoPut(p, _, _) => (thread, ns, id) == (p.thread, p.ns, p.id)
    case DoPutWrites(w, _, _) => (thread, ns, id) == (w.thread, w.ns, w.id)
    case _ => false
  }

  /**
   A run of slackless operations after which the operation exceeds the budget: puts
   of the operation's own checkpoint, with no identifier but its own.
   */
  lemma SlackBreaksBudget(cfg: Config, op: Op) returns (target: Target, ops: seq<Op>)
    requires cfg.Valid() && !Slackless(cfg, op)
    ensures WritesTo(op, target.thread, target.ns, target.id) && OwnPuts(target, ops)
    ensures AllSlackless(cfg, ops) && Bytes(Run(cfg, ops + [op]).items) > cfg.maxTotalBytes
  {
    match op
    case DoPut(p, now, at) => target, ops := SlackPutBreaksBudget(cfg, p, now, at);
    case DoPutWrites(w, now, at) => target, ops := SlackBatchBreaksBudget(cfg, w, now, at);
  }

  /**
   An operation respects the documented limit after every such run exactly when it
   is slackless, which depends on nothing but the configuration and the operation.
   */
  lemma KeepsBudgetIff(cfg: Config, op: Op)
    requires cfg.Valid()
    ensures KeepsBudget(cfg, op) <==> Slackless(cfg, op)
  {
    if Slackless(cfg, op) {
      forall ops | AllSlackless(cfg, ops)
        ensures Bytes(Run(cfg, ops + [op]).items) <= cfg.maxTotalBytes
      {
        assert AllSlackless(cfg, ops + [op]);
        BudgetHolds(cfg, ops + [op]);
      }
    } else {
      var _, ops := SlackBreaksBudget(cfg, op);
    }
  }

  /** For a put within its payload limit: exactly when no new channel without a value costs a byte. */
  lemma PutKeepsBudgetIff(cfg: Config, p: Put, now: real, at: real)
    requires cfg.Valid() && PutEstimate(p) <= cfg.maxCheckpointBytes
    ensures KeepsBudget(cfg, DoPut(p, now, at)) <==> AbsentBytes(p, cfg.marker) == 0
  {
    KeepsBudgetIff(cfg, DoPut(p, now, at));
  }

  /** For a batch with distinct indices within its payload limit: exactly when it has no path slack. */
  lemma BatchKeepsBudgetIff(cfg: Config, w: Writes, now: real, at: real)
    requires cfg.Valid() && WritesEstimate(w) <= cfg.maxPendingBytes && FreshEntries(map[], w)
    ensures KeepsBudget(cfg, DoPutWrites(w, now, at)) <==> PathSlack(w) == 0
  {
    KeepsBudgetIff(cfg, DoPutWrites(w, now, at));
    SlacklessBatchIff(w);
  }
}
