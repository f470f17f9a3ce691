/** Dictionaries of the parent saver, and how they agree with a flat store. */
module Dictionaries {
  import opened ByteSizes
  import opened Items

  datatype StoredCheckpoint = StoredCheckpoint(body: Body, metadata: Serialized, parent: Option<string>)

  datatype StoredWrite = StoredWrite(task: string, channel: string, value: Serialized, path: string)

  /** thread, namespace, checkpoint id */
  type Storage = map<string, map<string, map<string, StoredCheckpoint>>>

  /** (thread, namespace, channel, version) */
  type Blobs = map<(string, string, string, string), Serialized>

  /** (thread, namespace, checkpoint id), then (task, index) */
  type PendingWrites = map<(string, string, string), map<(string, int), StoredWrite>>

  predicate InStorage(storage: Storage, t: string, ns: string, id: string) {
    t in storage && ns in storage[t] && id in storage[t][ns]
  }

  predicate InWrites(writes: PendingWrites, t: string, ns: string, id: string, task: string, index: int) {
    (t, ns, id) in writes && (task, index) in writes[(t, ns, id)]
  }

  /** The dictionary and the store agree on one checkpoint. */
  ghost predicate CheckpointAgrees(storage: Storage, items: Store, t: string, ns: string, id: string) {
    && (CheckpointKey(t, ns, id) in items <==> InStorage(storage, t, ns, id))
    && (InStorage(storage, t, ns, id) ==> items[CheckpointKey(t, ns, id)] == CheckpointOf(storage[t][ns][id]))
  }

  ghost predicate BlobAgrees(blobs: Blobs, items: Store, t: string, ns: string, c: string, v: string) {
    && (BlobKey(t, ns, c, v) in items <==> (t, ns, c, v) in blobs)
    && ((t, ns, c, v) in blobs ==> items[BlobKey(t, ns, c, v)] == BlobItem(blobs[(t, ns, c, v)]))
  }

  ghost predicate WriteAgrees(writes: PendingWrites, items: Store,
                              t: string, ns: string, id: string, task: string, index: int) {
    && (WriteKey(t, ns, id, task, index) in items <==> InWrites(writes, t, ns, id, task, index))
    && (InWrites(writes, t, ns, id, task, index) ==>
          items[WriteKey(t, ns, id, task, index)] == WriteOf(writes[(t, ns, id)][(task, index)]))
  }

  /** No thread and no namespace of the dictionary is empty. */
  ghost predicate Filled(storage: Storage) {
    && (forall t :: t in storage ==> storage[t] != map[])
    && (forall t, ns :: t in storage && ns in storage[t] ==> storage[t][ns] != map[])
  }

  ghost predicate StorageAgrees(storage: Storage, items: Store) {
    Filled(storage) && forall t, ns, id :: CheckpointAgrees(storage, items, t, ns, id)
  }

  ghost predicate BlobsAgree(blobs: Blobs, items: Store) {
    forall t, ns, c, v :: BlobAgrees(blobs, items, t, ns, c, v)
  }

  ghost predicate WritesAgree(writes: PendingWrites, items: Store) {
    && (forall o :: o in writes ==> writes[o] != map[])
    && (forall t, ns, id, task, index :: WriteAgrees(writes, items, t, ns, id, task, index))
  }

  function CheckpointOf(c: StoredCheckpoint): Item {
    CheckpointItem(c.body, c.metadata, c.parent)
  }

  function WriteOf(w: StoredWrite): Item {
    WriteItem(w.channel, w.value, w.path)
  }

  // ---------- one checkpoint more ----------

  /** The storage after a checkpoint is put under its thread and namespace. */
  function WithCheckpoint(storage: Storage, t: string, ns: string, id: string, c: StoredCheckpoint): Storage {
    var namespaces := if t in storage then storage[t] else map[];
    var checkpoints := if ns in namespaces then namespaces[ns] else map[];
    storage[t := namespaces[ns := checkpoints[id := c]]]
  }

  lemma WithCheckpointAt(storage: Storage, t: string, ns: string, id: string, c: StoredCheckpoint,
                         t': string, ns': string, id': string)
    ensures var after := WithCheckpoint(storage, t, ns, id, c);
            && (InStorage(after, t', ns', id') <==>
                  (t', ns', id') == (t, ns, id) || InStorage(storage, t', ns', id'))
            && (InStorage(after, t', ns', id') ==>
                  after[t'][ns'][id'] ==
                    if (t', ns', id') == (t, ns, id) then c else storage[t'][ns'][id'])
  {
  }

  lemma StoragePut(storage: Storage, items: Store, t: string, ns: string, id: string, c: StoredCheckpoint)
    requires StorageAgrees(storage, items)
    ensures StorageAgrees(WithCheckpoint(storage, t, ns, id, c), items[CheckpointKey(t, ns, id) := CheckpointOf(c)])
  {
    var after, items' := WithCheckpoint(storage, t, ns, id, c), items[CheckpointKey(t, ns, id) := CheckpointOf(c)];
    forall t', ns', id'
      ensures CheckpointAgrees(after, items', t', ns', id')
    {
      assert CheckpointAgrees(storage, items, t', ns', id');
      WithCheckpointAt(storage, t, ns, id, c, t', ns', id');
    }
    StaysFilled(storage, t, ns, id, c);
  }

  lemma StaysFilled(storage: Storage, t: string, ns: string, id: string, c: StoredCheckpoint)
    requires Filled(storage)
    ensures Filled(WithCheckpoint(storage, t, ns, id, c))
  {
    var after := WithCheckpoint(storage, t, ns, id, c);
    assert ns in after[t];
    assert id in after[t][ns];
  }

  lemma WritesPut(before: PendingWrites, items: Store, after: PendingWrites, w: Writes, e: Entry, stored: StoredWrite)
    requires WritesAgree(before, items)
    requires var outer := (w.thread, w.ns, w.id);
             var taskWrites := if outer in before then before[outer] else map[];
             after == before[outer := taskWrites[(w.task, e.index) := stored]]
    ensures WritesAgree(after, items[EntryKey(w, e) := WriteOf(stored)])
  {
    var items' := items[EntryKey(w, e) := WriteOf(stored)];
    forall t, ns, id, task, index
      ensures WriteAgrees(after, items', t, ns, id, task, index)
    {
      assert WriteAgrees(before, items, t, ns, id, task, index);
    }
    assert (w.task, e.index) in after[(w.thread, w.ns, w.id)];
  }

  lemma BlobsPut(blobs: Blobs, items: Store, t: string, ns: string, c: string, v: string, blob: Serialized)
    requires BlobsAgree(blobs, items)
    ensures BlobsAgree(blobs[(t, ns, c, v) := blob], items[BlobKey(t, ns, c, v) := BlobItem(blob)])
  {
    var blobs', items' := blobs[(t, ns, c, v) := blob], items[BlobKey(t, ns, c, v) := BlobItem(blob)];
    forall t', ns', c', v'
      ensures BlobAgrees(blobs', items', t', ns', c', v')
    {
      assert BlobAgrees(blobs, items, t', ns', c', v');
    }
  }

  // ---------- one item concerns one dictionary ----------

  lemma StorageApart(storage: Storage, items: Store, k: ItemKey, item: Item)
    requires StorageAgrees(storage, items) && !k.CheckpointKey?
    ensures StorageAgrees(storage, items[k := item])
  {
    var items' := items[k := item];
    forall t, ns, id
      ensures CheckpointAgrees(storage, items', t, ns, id)
    {
      assert CheckpointAgrees(storage, items, t, ns, id);
    }
  }

  lemma BlobsApart(blobs: Blobs, items: Store, k: ItemKey, item: Item)
    requires BlobsAgree(blobs, items) && !k.BlobKey?
    ensures BlobsAgree(blobs, items[k := item])
  {
    var items' := items[k := item];
    forall t, ns, c, v
      ensures BlobAgrees(blobs, items', t, ns, c, v)
    {
      assert BlobAgrees(blobs, items, t, ns, c, v);
    }
  }

  lemma WritesApart(writes: PendingWrites, items: Store, k: ItemKey, item: Item)
    requires WritesAgree(writes, items) && !k.WriteKey?
    ensures WritesAgree(writes, items[k := item])
  {
    var items' := items[k := item];
    forall t, ns, id, task, index
      ensures WriteAgrees(writes, items', t, ns, id, task, index)
    {
      assert WriteAgrees(writes, items, t, ns, id, task, index);
    }
  }

  // ---------- one thread less ----------

  lemma ThreadRemoved(storage: Storage, items: Store, thread: string)
    requires StorageAgrees(storage, items)
    ensures StorageAgrees(storage - {thread}, Without(items, {thread}))
  {
    forall t, ns, id
      ensures CheckpointAgrees(storage - {thread}, Without(items, {thread}), t, ns, id)
    {
      assert CheckpointAgrees(storage, items, t, ns, id);
    }
  }

  function BlobsWithout(blobs: Blobs, thread: string): Blobs {
    map b | b in blobs && b.0 != thread :: blobs[b]
  }

  lemma BlobsRemoved(blobs: Blobs, items: Store, thread: string)
    requires BlobsAgree(blobs, items)
    ensures BlobsAgree(BlobsWithout(blobs, thread), Without(items, {thread}))
  {
    forall t, ns, c, v
      ensures BlobAgrees(BlobsWithout(blobs, thread), Without(items, {thread}), t, ns, c, v)
    {
      assert BlobAgrees(blobs, items, t, ns, c, v);
    }
  }

  function WritesWithout(writes: PendingWrites, thread: string): PendingWrites {
    map o | o in writes && o.0 != thread :: writes[o]
  }

  lemma WritesRemoved(writes: PendingWrites, items: Store, thread: string)
    requires WritesAgree(writes, items)
    ensures WritesAgree(WritesWithout(writes, thread), Without(items, {thread}))
  {
    forall t, ns, id, task, index
      ensures WriteAgrees(WritesWithout(writes, thread), Without(items, {thread}), t, ns, id, task, index)
    {
      assert WriteAgrees(writes, items, t, ns, id, task, index);
    }
  }

  // ---------- what a lookup reads ----------

  function CheckpointView(storage: Storage, t: string, ns: string): Store
    requires t in storage && ns in storage[t]
  {
    map id | id in storage[t][ns] :: CheckpointKey(t, ns, id) := CheckpointOf(storage[t][ns][id])
  }

  function BlobView(blobs: Blobs, t: string, ns: string): Store {
    map b | b in blobs && b.0 == t && b.1 == ns :: BlobKey(t, ns, b.2, b.3) := BlobItem(blobs[b])
  }

  function WriteView(writes: PendingWrites, t: string, ns: string): Store {
    map o, i | o in writes && o.0 == t && o.1 == ns && i in writes[o]
    :: WriteKey(t, ns, o.2, i.0, i.1) := WriteOf(writes[o][i])
  }

  lemma CheckpointViewAgrees(storage: Storage, items: Store, t: string, ns: string)
    requires t in storage && ns in storage[t]
    requires forall id :: CheckpointKey(t, ns, id) in items <==> id in storage[t][ns]
    requires forall id :: id in storage[t][ns] ==> items[CheckpointKey(t, ns, id)] == CheckpointOf(storage[t][ns][id])
    ensures CheckpointView(storage, t, ns) == CheckpointPart(View(items, t, ns))
  {
  }

  lemma NamespaceAgrees(storage: Storage, items: Store, t: string, ns: string)
    requires StorageAgrees(storage, items) && t in storage && ns in storage[t]
    ensures forall id :: CheckpointKey(t, ns, id) in items <==> id in storage[t][ns]
    ensures forall id :: id in storage[t][ns] ==> items[CheckpointKey(t, ns, id)] == CheckpointOf(storage[t][ns][id])
  {
    forall id
      ensures CheckpointKey(t, ns, id) in items <==> id in storage[t][ns]
      ensures id in storage[t][ns] ==> items[CheckpointKey(t, ns, id)] == CheckpointOf(storage[t][ns][id])
    {
      assert CheckpointAgrees(storage, items, t, ns, id);
    }
  }

  function CheckpointPart(items: Store): Store {
    map k | k in items && k.CheckpointKey? :: items[k]
  }

  function BlobPart(items: Store): Store {
    map k | k in items && k.BlobKey? :: items[k]
  }

  function WritePart(items: Store): Store {
    map k | k in items && k.WriteKey? :: items[k]
  }

  lemma PartsTogether(items: Store)
    ensures CheckpointPart(items) + BlobPart(items) + WritePart(items) == items
  {
  }

  lemma BlobViewAgrees(blobs: Blobs, items: Store, t: string, ns: string)
    requires BlobsAgree(blobs, items)
    ensures BlobView(blobs, t, ns) == BlobPart(View(items, t, ns))
  {
    forall c, v
      ensures (t, ns, c, v) in blobs <==> BlobKey(t, ns, c, v) in items
      ensures (t, ns, c, v) in blobs ==> items[BlobKey(t, ns, c, v)] == BlobItem(blobs[(t, ns, c, v)])
    {
      assert BlobAgrees(blobs, items, t, ns, c, v);
    }
  }

  lemma WriteViewAgrees(writes: PendingWrites, items: Store, t: string, ns: string)
    requires WritesAgree(writes, items)
    ensures WriteView(writes, t, ns) == WritePart(View(items, t, ns))
  {
    var expected := WritePart(View(items, t, ns));
    forall k | k in expected
      ensures k in WriteView(writes, t, ns) && WriteView(writes, t, ns)[k] == items[k]
    {
      assert WriteAgrees(writes, items, t, ns, k.id, k.task, k.index);
      var o, i := (t, ns, k.id), (k.task, k.index);
      assert o in writes && i in writes[o];
    }
    forall k | k in WriteView(writes, t, ns)
      ensures k in expected
    {
      var o, i :| o in writes && o.0 == t && o.1 == ns && i in writes[o] && k == WriteKey(t, ns, o.2, i.0, i.1);
      assert WriteAgrees(writes, items, t, ns, o.2, i.0, i.1);
    }
  }

  lemma NamespaceViews(storage: Storage, blobs: Blobs, writes: PendingWrites, items: Store, t: string, ns: string)
    requires StorageAgrees(storage, items) && BlobsAgree(blobs, items) && WritesAgree(writes, items)
    requires t in storage && ns in storage[t]
    ensures CheckpointView(storage, t, ns) + BlobView(blobs, t, ns) + WriteView(writes, t, ns)
         == View(items, t, ns)
  {
    NamespaceAgrees(storage, items, t, ns);
    CheckpointViewAgrees(storage, items, t, ns);
    BlobViewAgrees(blobs, items, t, ns);
    WriteViewAgrees(writes, items, t, ns);
    PartsTogether(View(items, t, ns));
  }

  lemma NothingFound(storage: Storage, items: Store, q: Query)
    requires StorageAgrees(storage, items)
    requires q.thread !in storage || q.ns !in storage[q.thread]
             || (q.id.Some? && q.id.value !in storage[q.thread][q.ns])
    ensures Lookup(items, q) == None
  {
    forall k | k in items
      ensures !Matches(q, k)
    {
      if k.CheckpointKey? {
        assert CheckpointAgrees(storage, items, k.thread, k.ns, k.id);
      }
    }
  }

  lemma SomethingFound(storage: Storage, items: Store, q: Query)
    requires StorageAgrees(storage, items)
    requires q.thread in storage && q.ns in storage[q.thread]
    requires q.id.Some? ==> q.id.value in storage[q.thread][q.ns]
    ensures Lookup(items, q) == Some(View(items, q.thread, q.ns))
  {
    var id :| id in storage[q.thread][q.ns] && (q.id.Some? ==> id == q.id.value);
    assert CheckpointAgrees(storage, items, q.thread, q.ns, id);
    assert Matches(q, CheckpointKey(q.thread, q.ns, id));
  }

  /** The selected checkpoints of one thread or of all threads, as the dictionary lists them. */
  function Listing(storage: Storage, thread: Option<string>, selected: set<ItemKey>): Store {
    map t, ns, id | t in storage && ns in storage[t] && id in storage[t][ns]
                    && CheckpointKey(t, ns, id) in selected && (thread.Some? ==> t == thread.value)
    :: CheckpointKey(t, ns, id) := CheckpointOf(storage[t][ns][id])
  }

  lemma ListingAgrees(storage: Storage, items: Store, thread: Option<string>, selected: set<ItemKey>)
    requires StorageAgrees(storage, items)
    ensures Listing(storage, thread, selected) == Select(items, thread, selected)
  {
    forall k | k in Select(items, thread, selected)
      ensures k in Listing(storage, thread, selected)
    {
      assert CheckpointAgrees(storage, items, k.thread, k.ns, k.id);
      assert CheckpointKey(k.thread, k.ns, k.id) == k;
    }
    forall k | k in Listing(storage, thread, selected)
      ensures k in Select(items, thread, selected) && items[k] == Listing(storage, thread, selected)[k]
    {
      assert CheckpointAgrees(storage, items, k.thread, k.ns, k.id);
    }
  }

  lemma NothingSelected(storage: Storage, items: Store, thread: string, selected: set<ItemKey>)
    requires StorageAgrees(storage, items) && thread !in storage
    ensures Select(items, Some(thread), selected) == map[]
  {
    forall k | k in items && k.CheckpointKey?
      ensures k.thread != thread
    {
      assert CheckpointAgrees(storage, items, k.thread, k.ns, k.id);
    }
  }

  function KnownNamespaces(storage: Storage, writes: PendingWrites, thread: string): set<string> {
    (if thread in storage then storage[thread].Keys else {})
    + set o | o in writes && o.0 == thread :: o.1
  }

  lemma NamespacesAgree(storage: Storage, writes: PendingWrites, items: Store, thread: string)
    requires StorageAgrees(storage, items) && WritesAgree(writes, items)
    ensures Namespaces(items, thread) == KnownNamespaces(storage, writes, thread)
    ensures forall ns :: ns in KnownNamespaces(storage, writes, thread) <==>
              exists k :: k in items && k.thread == thread && !k.BlobKey? && k.ns == ns
  {
    forall k | k in items && k.thread == thread && !k.BlobKey?
      ensures k.ns in KnownNamespaces(storage, writes, thread)
    {
      KeyKnown(storage, writes, items, k);
    }
    forall ns | ns in KnownNamespaces(storage, writes, thread)
      ensures ns in Namespaces(items, thread)
    {
      NamespaceKnown(storage, writes, items, thread, ns);
    }
  }

  lemma NamespaceKnown(storage: Storage, writes: PendingWrites, items: Store, thread: string, ns: string)
    requires StorageAgrees(storage, items) && WritesAgree(writes, items)
    requires ns in KnownNamespaces(storage, writes, thread)
    ensures ns in Namespaces(items, thread)
  {
    if thread in storage && ns in storage[thread] {
      StoredKnown(storage, items, thread, ns);
    } else {
      var o :| o in writes && o.0 == thread && o.1 == ns;
      PendingKnown(writes, items, o);
    }
  }

  lemma StoredKnown(storage: Storage, items: Store, thread: string, ns: string)
    requires StorageAgrees(storage, items) && thread in storage && ns in storage[thread]
    ensures exists k :: k in items && k.CheckpointKey? && k.thread == thread && k.ns == ns
  {
    var id :| id in storage[thread][ns];
    assert CheckpointAgrees(storage, items, thread, ns, id);
    assert CheckpointKey(thread, ns, id) in items;
  }

  lemma CheckpointsAgree(storage: Storage, writes: PendingWrites, items: Store, thread: string)
    requires StorageAgrees(storage, items) && WritesAgree(writes, items)
    ensures Checkpoints(items, thread) == KnownCheckpoints(storage, writes, thread)
    ensures forall c :: c in KnownCheckpoints(storage, writes, thread) <==>
              exists k :: k in items && k.thread == thread && !k.BlobKey? && (k.ns, k.id) == c
  {
    forall k | k in items && k.thread == thread && !k.BlobKey?
      ensures (k.ns, k.id) in KnownCheckpoints(storage, writes, thread)
    {
      KeyKnown(storage, writes, items, k);
    }
    forall c | c in KnownCheckpoints(storage, writes, thread)
      ensures c in Checkpoints(items, thread)
    {
      CheckpointKnown(storage, writes, items, thread, c.0, c.1);
    }
  }

  lemma CheckpointKnown(storage: Storage, writes: PendingWrites, items: Store, thread: string, ns: string, id: string)
    requires StorageAgrees(storage, items) && WritesAgree(writes, items)
    requires (ns, id) in KnownCheckpoints(storage, writes, thread)
    ensures (ns, id) in Checkpoints(items, thread)
  {
    if InStorage(storage, thread, ns, id) {
      assert CheckpointAgrees(storage, items, thread, ns, id);
      assert CheckpointKey(thread, ns, id) in items;
    } else {
      var o :| o in writes && o.0 == thread && (o.1, o.2) == (ns, id);
      PendingKnown(writes, items, o);
    }
  }

  function KnownCheckpoints(storage: Storage, writes: PendingWrites, thread: string): set<(string, string)> {
    (if thread in storage
     then set ns, id | ns in storage[thread] && id in storage[thread][ns] :: (ns, id)
     else {})
    + set o | o in writes && o.0 == thread :: (o.1, o.2)
  }

  lemma KeyKnown(storage: Storage, writes: PendingWrites, items: Store, k: ItemKey)
    requires StorageAgrees(storage, items) && WritesAgree(writes, items)
    requires k in items && !k.BlobKey?
    ensures InStorage(storage, k.thread, k.ns, k.id) || (k.thread, k.ns, k.id) in writes
  {
    if k.WriteKey? {
      assert WriteAgrees(writes, items, k.thread, k.ns, k.id, k.task, k.index);
    } else {
      assert CheckpointAgrees(storage, items, k.thread, k.ns, k.id);
    }
  }

  lemma PendingKnown(writes: PendingWrites, items: Store, o: (string, string, string))
    requires WritesAgree(writes, items) && o in writes
    ensures exists k :: k in items && k.WriteKey? && k.thread == o.0 && k.ns == o.1 && k.id == o.2
  {
    var i :| i in writes[o];
    assert WriteAgrees(writes, items, o.0, o.1, o.2, i.0, i.1);
    assert WriteKey(o.0, o.1, o.2, i.0, i.1) in items;
  }

  // ---------- what was stored ----------

  /** What the record loops find in the dictionaries after a put. */
  lemma PutStored(storage: Storage, blobs: Blobs, before: Store, items: Store, p: Put, marker: Serialized)
    requires StorageAgrees(storage, items) && BlobsAgree(blobs, items) && items == ApplyPut(before, p, marker)
    ensures InStorage(storage, p.thread, p.ns, p.id)
    ensures CheckpointOf(storage[p.thread][p.ns][p.id]) == CheckpointItem(p.body, p.metadata, p.parent)
    ensures forall c :: c in p.newVersions ==>
              var b := (p.thread, p.ns, c, p.newVersions[c]);
              b in blobs && BlobItem(blobs[b]) == PutItem(p, marker, BlobKeyOf(p, c))
  {
    var k := CheckpointKey(p.thread, p.ns, p.id);
    assert k in PutKeys(p);
    assert items[k] == PutItem(p, marker, k);
    assert CheckpointAgrees(storage, items, p.thread, p.ns, p.id);
    forall c | c in p.newVersions
      ensures var b := (p.thread, p.ns, c, p.newVersions[c]);
              b in blobs && BlobItem(blobs[b]) == PutItem(p, marker, BlobKeyOf(p, c))
    {
      assert BlobKeyOf(p, c) in PutKeys(p);
      assert items[BlobKeyOf(p, c)] == PutItem(p, marker, BlobKeyOf(p, c));
      assert BlobAgrees(blobs, items, p.thread, p.ns, c, p.newVersions[c]);
    }
  }

  lemma TaskWritesStored(writes: PendingWrites, items: Store, thread: string, ns: string, id: string)
    requires WritesAgree(writes, items)
    ensures (thread, ns, id) in writes ==>
              forall i :: i in writes[(thread, ns, id)] ==>
                var k := WriteKey(thread, ns, id, i.0, i.1);
                k in items && ItemSize(items[k]) == WriteSize(writes[(thread, ns, id)][i])
  {
    if (thread, ns, id) in writes {
      forall i | i in writes[(thread, ns, id)]
        ensures var k := WriteKey(thread, ns, id, i.0, i.1);
                k in items && ItemSize(items[k]) == WriteSize(writes[(thread, ns, id)][i])
      {
        assert WriteAgrees(writes, items, thread, ns, id, i.0, i.1);
      }
    }
  }

  function WriteSize(w: StoredWrite): nat {
    SerializedSize(w.value) + Utf8Length(w.channel) + Utf8Length(w.path)
  }

  // ---------- counting ----------

  function CheckpointsOutside(items: Store, todo: set<(string, string)>): set<ItemKey> {
    set k | k in items && k.CheckpointKey? && (k.thread, k.ns) !in todo
  }

  function PendingOutside(items: Store, todo: set<(string, string, string)>): set<ItemKey> {
    set k | k in items && k.WriteKey? && (k.thread, k.ns, k.id) !in todo
  }

  function Pairs(storage: Storage): set<(string, string)> {
    set t, ns | t in storage && ns in storage[t] :: (t, ns)
  }

  lemma NoCheckpointsYet(storage: Storage, items: Store)
    requires StorageAgrees(storage, items)
    ensures CheckpointsOutside(items, Pairs(storage)) == {}
  {
    forall k | k in items && k.CheckpointKey?
      ensures (k.thread, k.ns) in Pairs(storage)
    {
      assert CheckpointAgrees(storage, items, k.thread, k.ns, k.id);
    }
  }

  lemma NoPendingYet(writes: PendingWrites, items: Store)
    requires WritesAgree(writes, items)
    ensures PendingOutside(items, writes.Keys) == {}
  {
    forall k | k in items && k.WriteKey?
      ensures (k.thread, k.ns, k.id) in writes
    {
      assert WriteAgrees(writes, items, k.thread, k.ns, k.id, k.task, k.index);
    }
  }

  lemma CheckpointsOutsideStep(storage: Storage, items: Store, todo: set<(string, string)>, p: (string, string))
    requires StorageAgrees(storage, items) && p in todo && p.0 in storage && p.1 in storage[p.0]
    ensures |CheckpointsOutside(items, todo - {p})| == |CheckpointsOutside(items, todo)| + |storage[p.0][p.1]|
  {
    NamespaceAgrees(storage, items, p.0, p.1);
    NamespaceImage(items, todo, p, storage[p.0][p.1].Keys);
  }

  lemma NamespaceImage(items: Store, todo: set<(string, string)>, p: (string, string), ids: set<string>)
    requires p in todo
    requires forall id :: CheckpointKey(p.0, p.1, id) in items <==> id in ids
    ensures |CheckpointsOutside(items, todo - {p})| == |CheckpointsOutside(items, todo)| + |ids|
  {
    CheckpointImageSize(p.0, p.1, ids);
    assert CheckpointsOutside(items, todo - {p}) == CheckpointsOutside(items, todo) + CheckpointImage(p.0, p.1, ids);
  }

  lemma PendingOutsideStep(writes: PendingWrites, items: Store,
                           todo: set<(string, string, string)>, o: (string, string, string))
    requires WritesAgree(writes, items) && o in todo && o in writes
    ensures |PendingOutside(items, todo - {o})| == |PendingOutside(items, todo)| + |writes[o]|
  {
    var more := PendingImage(o, writes[o].Keys);
    PendingImageSize(o, writes[o].Keys);
    forall task, index
      ensures WriteKey(o.0, o.1, o.2, task, index) in items <==> (task, index) in writes[o]
    {
      assert WriteAgrees(writes, items, o.0, o.1, o.2, task, index);
    }
    assert PendingOutside(items, todo - {o}) == PendingOutside(items, todo) + more;
  }

  function CheckpointImage(t: string, ns: string, ids: set<string>): set<ItemKey> {
    set id | id in ids :: CheckpointKey(t, ns, id)
  }

  function PendingImage(o: (string, string, string), inner: set<(string, int)>): set<ItemKey> {
    set i | i in inner :: WriteKey(o.0, o.1, o.2, i.0, i.1)
  }

  lemma {:induction false} CheckpointImageSize(t: string, ns: string, ids: set<string>)
    ensures |CheckpointImage(t, ns, ids)| == |ids|
  {
    if ids != {} {
      var id :| id in ids;
      CheckpointImageSize(t, ns, ids - {id});
      assert CheckpointImage(t, ns, ids) == CheckpointImage(t, ns, ids - {id}) + {CheckpointKey(t, ns, id)};
    }
  }

  lemma {:induction false} PendingImageSize(o: (string, string, string), inner: set<(string, int)>)
    ensures |PendingImage(o, inner)| == |inner|
  {
    if inner != {} {
      var i :| i in inner;
      PendingImageSize(o, inner - {i});
      assert PendingImage(o, inner) == PendingImage(o, inner - {i}) + {WriteKey(o.0, o.1, o.2, i.0, i.1)};
    }
  }
}
