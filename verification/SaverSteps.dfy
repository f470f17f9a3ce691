/**
 The common form of all operations: an operation removes some complete threads,
 may then store items of one thread, and may finally touch that thread.
 */
module SaverSteps {
  import opened ByteSizes
  import opened Items
  import opened SaverSpec
  import opened SaverInvariant

  /** The operation is a write that was accepted. */
  ghost predicate Stores(cfg: Config, s: State, op: Op)
    requires cfg.Valid()
  {
    || (op.DoPut? && PutResult(cfg, s, op.put, op.now, op.at).outcome == Accepted)
    || (op.DoPutWrites? && PutWritesResult(cfg, s, op.writes, op.now, op.at).outcome == Accepted)
  }

  /** The threads the operation removes. */
  ghost function Gone(cfg: Config, s: State, op: Op): set<string>
    requires cfg.Valid()
  {
    match op
    case DoPut(p, now, _) =>
      if PutEstimate(p) > cfg.maxCheckpointBytes then {}
      else AdmitGone(cfg, s, p.thread, p.ns, p.id, PutEstimate(p), now)
    case DoPutWrites(w, now, _) =>
      if WritesEstimate(w) > cfg.maxPendingBytes then {}
      else AdmitGone(cfg, s, w.thread, w.ns, w.id, WritesEstimate(w), now)
    case DoGet(_, now, _) => Expired(s.order, now - cfg.idleTtl)
    case DoList(_, _, now, _) => Expired(s.order, now - cfg.idleTtl)
    case DoDelete(target) => {target}
    case DoPurge(now) => Expired(s.order, now - cfg.idleTtl)
    case DoStats(now) => Expired(s.order, now - cfg.idleTtl)
    case DoClear => Threads(s.order)
  }

  /** The thread the operation touches, if any: one it wrote to or found something in. */
  ghost function Touched(cfg: Config, s: State, op: Op): Option<string>
    requires cfg.Valid()
  {
    match op
    case DoPut(p, _, _) => if Stores(cfg, s, op) then Some(p.thread) else None
    case DoPutWrites(w, _, _) => if Stores(cfg, s, op) then Some(w.thread) else None
    case DoGet(q, now, _) => if Lookup(Purge(cfg, s, now).items, q).Some? then Some(q.thread) else None
    case DoList(thread, selected, now, _) =>
      if thread.Some? && Select(Purge(cfg, s, now).items, thread, selected) != map[] then thread else None
    case _ => None
  }

  /** What an accepted write does to a store without any limits. */
  function Apply(items: Store, op: Op, marker: Serialized): Store {
    match op
    case DoPut(p, _, _) => ApplyPut(items, p, marker)
    case DoPutWrites(w, _, _) => ApplyWrites(items, w)
    case _ => items
  }

  /** The state `after` that results from `s` by the common form. */
  ghost predicate HasForm(cfg: Config, s: State, op: Op, after: State)
    requires cfg.Valid()
  {
    var rest := Drop(s, Gone(cfg, s, op));
    && after.items == (if Stores(cfg, s, op) then Apply(rest.items, op, cfg.marker) else rest.items)
    && after.order ==
         match Touched(cfg, s, op)
         case None => rest.order
         case Some(t) => Keep(rest.order, {t}) + [Access(t, op.at)]
  }

  /** Every operation has the common form. */
  lemma StepForm(cfg: Config, s: State, op: Op)
    requires cfg.Valid() && Owned(s)
    ensures HasForm(cfg, s, op, Step(cfg, s, op))
  {
    match op
    case DoPut(_, _, _) => PutForm(cfg, s, op);
    case DoPutWrites(_, _, _) => PutWritesForm(cfg, s, op);
    case DoGet(_, _, _) => ReadForm(cfg, s, op);
    case DoList(_, _, _, _) => ReadForm(cfg, s, op);
    case DoClear =>
      KeepNone(s.order, Threads(s.order));
      assert Without(s.items, Threads(s.order)) == map[];
    case _ =>
  }

  lemma PutForm(cfg: Config, s: State, op: Op)
    requires cfg.Valid() && op.DoPut?
    ensures HasForm(cfg, s, op, Step(cfg, s, op))
  {
    var p := op.put;
    if PutEstimate(p) > cfg.maxCheckpointBytes {
      DropNothing(s);
    } else {
      var admitted := Admit(cfg, s, p.thread, p.ns, p.id, PutEstimate(p), op.now);
      AdmitDrops(cfg, s, p.thread, p.ns, p.id, PutEstimate(p), op.now);
      assert admitted.state == Drop(s, Gone(cfg, s, op));
      assert Stores(cfg, s, op) <==> admitted.outcome == Accepted;
    }
  }

  lemma PutWritesForm(cfg: Config, s: State, op: Op)
    requires cfg.Valid() && op.DoPutWrites?
    ensures HasForm(cfg, s, op, Step(cfg, s, op))
  {
    var w := op.writes;
    if WritesEstimate(w) > cfg.maxPendingBytes {
      DropNothing(s);
    } else {
      var admitted := Admit(cfg, s, w.thread, w.ns, w.id, WritesEstimate(w), op.now);
      AdmitDrops(cfg, s, w.thread, w.ns, w.id, WritesEstimate(w), op.now);
      assert admitted.state == Drop(s, Gone(cfg, s, op));
      assert Stores(cfg, s, op) <==> admitted.outcome == Accepted;
    }
  }

  lemma ReadForm(cfg: Config, s: State, op: Op)
    requires cfg.Valid() && (op.DoGet? || op.DoList?)
    ensures HasForm(cfg, s, op, Step(cfg, s, op))
  {
  }
}
