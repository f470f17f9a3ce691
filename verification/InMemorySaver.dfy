/**
 The parent saver: three dictionaries that its operations update in place. It
 stands for the upstream class, which is not part of the repository.
 */
module InMemorySaverModel {
  import opened ByteSizes
  import opened Items
  import opened Dictionaries

  class InMemorySaver {
    var storage: Storage
    var blobs: Blobs
    var writes: PendingWrites
    /** The contents of the three dictionaries as one store. */
    ghost var items: Store

    ghost predicate Valid()
      reads this
    {
      StorageAgrees(storage, items) && BlobsAgree(blobs, items) && WritesAgree(writes, items)
    }

    constructor ()
      ensures Valid() && items == map[]
    {
      storage, blobs, writes, items := map[], map[], map[], map[];
    }

    method Put(p: Put, marker: Serialized)
      requires Valid()
      modifies this
      ensures Valid() && items == ApplyPut(old(items), p, marker)
    {
      PutBlobs(p, marker);
      PutCheckpoint(p.thread, p.ns, p.id, StoredCheckpoint(p.body, p.metadata, p.parent));
      PutItemsBlobs(old(items), p, marker);
    }

    /** Stores a blob for every new channel version. */
    method PutBlobs(p: Put, marker: Serialized)
      requires Valid()
      modifies this`blobs, this`items
      ensures Valid() && items == old(items) + BlobItems(p, marker, p.newVersions.Keys)
    {
      var todo := p.newVersions.Keys;
      ghost var done: set<string> := {};
      while todo != {}
        invariant Valid() && todo <= p.newVersions.Keys && done == p.newVersions.Keys - todo
        invariant items == old(items) + BlobItems(p, marker, done)
      {
        var c :| c in todo;
        ghost var before := items;
        var blob := if c in p.values then p.values[c] else marker;
        PutBlob(p.thread, p.ns, c, p.newVersions[c], blob);
        BlobItemsStep(old(items), p, marker, done, c, blob, before, items);
        todo := todo - {c};
        done := done + {c};
      }
    }

    method PutBlob(t: string, ns: string, c: string, v: string, blob: Serialized)
      requires Valid()
      modifies this`blobs, this`items
      ensures Valid() && items == old(items)[BlobKey(t, ns, c, v) := BlobItem(blob)]
    {
      ghost var k := BlobKey(t, ns, c, v);
      BlobsPut(blobs, items, t, ns, c, v, blob);
      StorageApart(storage, items, k, BlobItem(blob));
      WritesApart(writes, items, k, BlobItem(blob));
      blobs := blobs[(t, ns, c, v) := blob];
      items := items[k := BlobItem(blob)];
    }

    method PutCheckpoint(t: string, ns: string, id: string, c: StoredCheckpoint)
      requires Valid()
      modifies this`storage, this`items
      ensures Valid() && items == old(items)[CheckpointKey(t, ns, id) := CheckpointOf(c)]
    {
      StoragePut(storage, items, t, ns, id, c);
      BlobsApart(blobs, items, CheckpointKey(t, ns, id), CheckpointOf(c));
      WritesApart(writes, items, CheckpointKey(t, ns, id), CheckpointOf(c));
      storage := WithCheckpoint(storage, t, ns, id, c);
      items := items[CheckpointKey(t, ns, id) := CheckpointOf(c)];
    }

    /** Stores pending writes one by one, keeping or replacing existing entries. */
    method PutWrites(w: Writes)
      requires Valid()
      modifies this
      ensures Valid() && items == ApplyWrites(old(items), w)
    {
      for i := 0 to |w.entries|
        invariant Valid() && items == ApplyEntries(old(items), w, i)
      {
        PutEntry(w, w.entries[i]);
      }
    }

    method PutEntry(w: Writes, e: Entry)
      requires Valid()
      modifies this`writes, this`items
      ensures Valid() && items == ApplyEntry(old(items), w, e)
    {
      var outer, inner := (w.thread, w.ns, w.id), (w.task, e.index);
      var taskWrites := if outer in writes then writes[outer] else map[];
      assert WriteAgrees(writes, items, w.thread, w.ns, w.id, w.task, e.index);
      if inner !in taskWrites || e.overwrites {
        var stored := StoredWrite(w.task, e.channel, e.value, w.path);
        ghost var before := writes;
        writes := writes[outer := taskWrites[inner := stored]];
        WritesPut(before, items, writes, w, e, stored);
        StorageApart(storage, items, EntryKey(w, e), WriteOf(stored));
        BlobsApart(blobs, items, EntryKey(w, e), WriteOf(stored));
        items := items[EntryKey(w, e) := WriteOf(stored)];
      }
    }

    /** Everything stored in the namespace of the query, when a checkpoint matches it. */
    method GetTuple(q: Query) returns (answer: Option<Store>)
      requires Valid()
      ensures answer == Lookup(items, q)
    {
      if q.thread !in storage || q.ns !in storage[q.thread]
         || (q.id.Some? && q.id.value !in storage[q.thread][q.ns]) {
        NothingFound(storage, items, q);
        return None;
      }
      SomethingFound(storage, items, q);
      NamespaceViews(storage, blobs, writes, items, q.thread, q.ns);
      return Some(CheckpointView(storage, q.thread, q.ns) + BlobView(blobs, q.thread, q.ns)
                  + WriteView(writes, q.thread, q.ns));
    }

    /** The selected checkpoints of one thread or of all threads. */
    method List(thread: Option<string>, selected: set<ItemKey>) returns (found: Store)
      requires Valid()
      ensures found == Select(items, thread, selected)
    {
      ListingAgrees(storage, items, thread, selected);
      found := Listing(storage, thread, selected);
    }

    method DeleteThread(thread: string)
      requires Valid()
      modifies this
      ensures Valid() && items == Without(old(items), {thread})
    {
      ThreadRemoved(storage, items, thread);
      BlobsRemoved(blobs, items, thread);
      WritesRemoved(writes, items, thread);
      storage := storage - {thread};
      writes := WritesWithout(writes, thread);
      blobs := BlobsWithout(blobs, thread);
      items := Without(items, {thread});
    }

    method Clear()
      modifies this
      ensures Valid() && items == map[]
    {
      storage, blobs, writes, items := map[], map[], map[], map[];
    }
  }

  function BlobItems(p: Put, marker: Serialized, channels: set<string>): Store
    requires channels <= p.newVersions.Keys
  {
    map k | k in BlobKeys(p, channels) :: PutItem(p, marker, k)
  }

  function BlobKeys(p: Put, channels: set<string>): set<ItemKey>
    requires channels <= p.newVersions.Keys
  {
    set c | c in channels :: BlobKeyOf(p, c)
  }

  lemma BlobKeysStep(p: Put, channels: set<string>, c: string)
    requires channels <= p.newVersions.Keys && c in p.newVersions
    ensures BlobKeys(p, channels + {c}) == BlobKeys(p, channels) + {BlobKeyOf(p, c)}
  {
  }

  lemma BlobItemsStep(items: Store, p: Put, marker: Serialized, channels: set<string>, c: string,
                      blob: Serialized, before: Store, after: Store)
    requires channels <= p.newVersions.Keys && c in p.newVersions
    requires blob == if c in p.values then p.values[c] else marker
    requires before == items + BlobItems(p, marker, channels)
    requires after == before[BlobKey(p.thread, p.ns, c, p.newVersions[c]) := BlobItem(blob)]
    ensures after == items + BlobItems(p, marker, channels + {c})
  {
    var k := BlobKeyOf(p, c);
    BlobKeysStep(p, channels, c);
    assert BlobItems(p, marker, channels + {c}) == BlobItems(p, marker, channels)[k := BlobItem(blob)];
    UnionPut(items, BlobItems(p, marker, channels), k, BlobItem(blob));
  }

  lemma PutItemsBlobs(items: Store, p: Put, marker: Serialized)
    ensures var k := CheckpointKey(p.thread, p.ns, p.id);
            (items + BlobItems(p, marker, p.newVersions.Keys))[k := PutItem(p, marker, k)] == ApplyPut(items, p, marker)
  {
    var k := CheckpointKey(p.thread, p.ns, p.id);
    assert PutItems(p, marker) == BlobItems(p, marker, p.newVersions.Keys)[k := PutItem(p, marker, k)];
  }
}
