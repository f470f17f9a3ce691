/**
 The unbounded checkpoint store: what the parent saver keeps and how its two
 write operations change it. A store is one flat map. Its keys are the keys
 under which the bounded saver also records sizes.
 */
module Items {
  import opened ByteSizes

  datatype Option<+T> = None | Some(value: T)

  datatype ItemKey =
    | CheckpointKey(thread: string, ns: string, id: string)
    | BlobKey(thread: string, ns: string, channel: string, version: string)
    | WriteKey(thread: string, ns: string, id: string, task: string, index: int)

  /** A checkpoint without its channel values, and the channel versions it refers to. */
  datatype Body = Body(encoded: Serialized, channelVersions: map<string, string>)

  datatype Item =
    | CheckpointItem(body: Body, metadata: Serialized, parent: Option<string>)
    | BlobItem(blob: Serialized)
    | WriteItem(channel: string, value: Serialized, path: string)

  type Store = map<ItemKey, Item>

  function ItemSize(item: Item): nat {
    match item
    case CheckpointItem(body, metadata, _) => SerializedSize(body.encoded) + SerializedSize(metadata)
    case BlobItem(blob) => SerializedSize(blob)
    case WriteItem(channel, value, path) => SerializedSize(value) + Utf8Length(channel) + Utf8Length(path)
  }

  /** The size index a full recount of the store would produce. */
  function Sizes(items: Store): map<ItemKey, nat> {
    map k | k in items :: ItemSize(items[k])
  }

  /** The serialized bytes a full recount of the store would find. */
  ghost function Bytes(items: Store): nat {
    Sum(Sizes(items))
  }

  /** Each key holds an item of its own kind. */
  ghost predicate WellTyped(items: Store) {
    forall k :: k in items ==>
      && (k.CheckpointKey? <==> items[k].CheckpointItem?)
      && (k.BlobKey? <==> items[k].BlobItem?)
  }

  /** The contents of one thread. */
  function Of(items: Store, thread: string): Store {
    map k | k in items && k.thread == thread :: items[k]
  }

  /** The store without some threads. */
  function Without(items: Store, threads: set<string>): Store {
    map k | k in items && k.thread !in threads :: items[k]
  }

  /** The namespaces of a thread that hold a checkpoint or a pending write. */
  function Namespaces(items: Store, thread: string): set<string> {
    set k | k in items && k.thread == thread && !k.BlobKey? :: k.ns
  }

  /** The checkpoints of a thread, stored or referred to by a pending write. */
  function Checkpoints(items: Store, thread: string): set<(string, string)> {
    set k | k in items && k.thread == thread && !k.BlobKey? :: (k.ns, k.id)
  }

  function CheckpointKeys(items: Store): set<ItemKey> {
    set k | k in items && k.CheckpointKey?
  }

  function PendingKeys(items: Store): set<ItemKey> {
    set k | k in items && k.WriteKey?
  }

  // ---------- put ----------

  datatype Put = Put(
    thread: string, ns: string, id: string,
    body: Body, metadata: Serialized, parent: Option<string>,
    values: map<string, Serialized>, newVersions: map<string, string>)

  function PutKeys(p: Put): set<ItemKey> {
    {CheckpointKey(p.thread, p.ns, p.id)}
    + set c | c in p.newVersions :: BlobKey(p.thread, p.ns, c, p.newVersions[c])
  }

  /** The item a put stores under one of its keys. A channel without a value stores `marker`. */
  function PutItem(p: Put, marker: Serialized, k: ItemKey): Item
    requires !k.WriteKey?
  {
    if k.CheckpointKey? then CheckpointItem(p.body, p.metadata, p.parent)
    else BlobItem(if k.channel in p.values then p.values[k.channel] else marker)
  }

  function PutItems(p: Put, marker: Serialized): Store {
    map k | k in PutKeys(p) :: PutItem(p, marker, k)
  }

  function ApplyPut(items: Store, p: Put, marker: Serialized): Store {
    items + PutItems(p, marker)
  }

  // ---------- put_writes ----------

  /**
   One pending write. The parent gives it an index, and when an entry already
   exists under the same key it either keeps that entry or replaces it.
   */
  datatype Entry = Entry(channel: string, value: Serialized, index: int, overwrites: bool)

  datatype Writes = Writes(
    thread: string, ns: string, id: string,
    entries: seq<Entry>, task: string, path: string)

  function EntryKey(w: Writes, e: Entry): ItemKey {
    WriteKey(w.thread, w.ns, w.id, w.task, e.index)
  }

  function ApplyEntry(items: Store, w: Writes, e: Entry): Store {
    if EntryKey(w, e) in items && !e.overwrites then items
    else items[EntryKey(w, e) := WriteItem(e.channel, e.value, w.path)]
  }

  /** The store after the first `n` entries. */
  function ApplyEntries(items: Store, w: Writes, n: nat): Store
    requires n <= |w.entries|
  {
    if n == 0 then items else ApplyEntry(ApplyEntries(items, w, n - 1), w, w.entries[n - 1])
  }

  function ApplyWrites(items: Store, w: Writes): Store {
    ApplyEntries(items, w, |w.entries|)
  }

  // ---------- reads ----------

  /** What a lookup addresses: one checkpoint, or the newest of a namespace. */
  datatype Query = Query(thread: string, ns: string, id: Option<string>)

  predicate Matches(q: Query, k: ItemKey) {
    k.CheckpointKey? && k.thread == q.thread && k.ns == q.ns && (q.id.Some? ==> k.id == q.id.value)
  }

  function View(items: Store, thread: string, ns: string): Store {
    map k | k in items && k.thread == thread && k.ns == ns :: items[k]
  }

  /** The part of the store a lookup reads, or nothing when no checkpoint matches. */
  ghost function Lookup(items: Store, q: Query): Option<Store> {
    if exists k :: k in items && Matches(q, k) then Some(View(items, q.thread, q.ns)) else None
  }

  /** The checkpoints of one thread, or of all threads, that a listing selects. */
  function Select(items: Store, thread: Option<string>, selected: set<ItemKey>): Store {
    map k | k in items && k.CheckpointKey? && k in selected && (thread.Some? ==> k.thread == thread.value) :: items[k]
  }

  // ---------- sizes announced before the write ----------

  /** The sizes of those new channels that have a value. */
  function ValueSizes(p: Put): map<string, nat> {
    map c | c in p.newVersions && c in p.values :: SerializedSize(p.values[c])
  }

  /** The new channels without a value. */
  function AbsentChannels(p: Put): set<string> {
    set c | c in p.newVersions && c !in p.values
  }

  ghost function PutEstimate(p: Put): nat {
    SerializedSize(p.body.encoded) + SerializedSize(p.metadata) + Sum(ValueSizes(p))
  }

  function EntrySize(e: Entry): nat {
    SerializedSize(e.value) + Utf8Length(e.channel)
  }

  function EntriesSize(w: Writes, n: nat): nat
    requires n <= |w.entries|
  {
    if n == 0 then 0 else EntriesSize(w, n - 1) + EntrySize(w.entries[n - 1])
  }

  function WritesEstimate(w: Writes): nat {
    EntriesSize(w, |w.entries|) + Utf8Length(w.task) + Utf8Length(w.path)
  }

  // ---------- threads do not interfere ----------

  lemma WithoutWithout(items: Store, a: set<string>, b: set<string>)
    ensures Without(Without(items, a), b) == Without(items, a + b)
  {
  }

  lemma OfWithout(items: Store, thread: string, threads: set<string>)
    ensures Of(Without(items, threads), thread) == if thread in threads then map[] else Of(items, thread)
  {
  }

  lemma OfApplyPut(items: Store, p: Put, marker: Serialized, thread: string)
    ensures Of(ApplyPut(items, p, marker), thread)
         == if thread == p.thread then ApplyPut(Of(items, thread), p, marker) else Of(items, thread)
  {
  }

  lemma {:induction false} OfApplyEntries(items: Store, w: Writes, n: nat, thread: string)
    requires n <= |w.entries|
    ensures Of(ApplyEntries(items, w, n), thread)
         == if thread == w.thread then ApplyEntries(Of(items, thread), w, n) else Of(items, thread)
  {
    if n > 0 {
      OfApplyEntries(items, w, n - 1, thread);
    }
  }

  // ---------- bytes ----------

  lemma BytesUnion(a: Store, b: Store)
    requires a.Keys !! b.Keys
    ensures Bytes(a + b) == Bytes(a) + Bytes(b)
  {
    assert Sizes(a + b) == Sizes(a) + Sizes(b);
    assert Sizes(a).Keys == a.Keys && Sizes(b).Keys == b.Keys;
    SumUnion(Sizes(a), Sizes(b));
  }

  /** Overwriting some keys replaces their sizes and leaves all others. */
  lemma BytesOverwrite(items: Store, batch: Store)
    ensures Bytes(items + batch) == Bytes(items) - Bytes(Restrict(items, batch.Keys)) + Bytes(batch)
  {
    var rest := items - batch.Keys;
    assert items + batch == rest + batch;
    BytesUnion(rest, batch);
    assert items == rest + Restrict(items, batch.Keys);
    BytesUnion(rest, Restrict(items, batch.Keys));
  }

  lemma BytesMonotone(items: Store, part: Store)
    requires part.Keys <= items.Keys
    requires forall k :: k in part ==> part[k] == items[k]
    ensures Bytes(part) <= Bytes(items)
  {
    assert items == part + (items - part.Keys);
    BytesUnion(part, items - part.Keys);
  }

  lemma BytesPutItem(items: Store, k: ItemKey, item: Item)
    ensures Bytes(items[k := item])
         == Bytes(items) - (if k in items then ItemSize(items[k]) else 0) + ItemSize(item)
  {
    assert Sizes(items[k := item]) == Sizes(items)[k := ItemSize(item)];
    SumPut(Sizes(items), k, ItemSize(item));
  }

  function BlobKeyOf(p: Put, c: string): ItemKey
    requires c in p.newVersions
  {
    BlobKey(p.thread, p.ns, c, p.newVersions[c])
  }

  function WithoutChannel(p: Put, c: string): Put {
    p.(newVersions := p.newVersions - {c})
  }

  /** What one new channel adds beyond the announced size. */
  function AbsentBytes(p: Put, marker: Serialized): nat {
    Times(|AbsentChannels(p)|, SerializedSize(marker))
  }

  /** A put stores what it announced plus one marker for every channel without a value. */
  lemma {:induction false} PutItemsBytes(p: Put, marker: Serialized)
    ensures Bytes(PutItems(p, marker)) == PutEstimate(p) + AbsentBytes(p, marker)
    decreases |p.newVersions|
  {
    if p.newVersions == map[] {
      var k := CheckpointKey(p.thread, p.ns, p.id);
      assert PutItems(p, marker) == map[][k := PutItem(p, marker, k)];
      BytesPutItem(map[], k, PutItem(p, marker, k));
      assert ValueSizes(p) == map[] && AbsentChannels(p) == {};
    } else {
      var c :| c in p.newVersions;
      assert WithoutChannel(p, c).newVersions.Keys == p.newVersions.Keys - {c};
      PutItemsBytes(WithoutChannel(p, c), marker);
      PutItemsStep(p, marker, c);
      AnnouncedStep(p, marker, c);
    }
  }

  /** A put replaces what it overwrites by what it stores. */
  lemma ApplyPutBytes(items: Store, p: Put, marker: Serialized)
    ensures Bytes(ApplyPut(items, p, marker))
         == Bytes(items) - Bytes(Restrict(items, PutKeys(p))) + PutEstimate(p) + AbsentBytes(p, marker)
  {
    BytesOverwrite(items, PutItems(p, marker));
    assert PutItems(p, marker).Keys == PutKeys(p);
    PutItemsBytes(p, marker);
  }

  lemma PutItemsStep(p: Put, marker: Serialized, c: string)
    requires c in p.newVersions
    ensures Bytes(PutItems(p, marker))
         == Bytes(PutItems(WithoutChannel(p, c), marker)) + ItemSize(PutItem(p, marker, BlobKeyOf(p, c)))
  {
    var k := BlobKeyOf(p, c);
    var fewer := WithoutChannel(p, c);
    PutKeysStep(p, c);
    assert PutItems(p, marker) == PutItems(fewer, marker)[k := PutItem(p, marker, k)];
    BytesPutItem(PutItems(fewer, marker), k, PutItem(p, marker, k));
  }

  lemma PutKeysStep(p: Put, c: string)
    requires c in p.newVersions
    ensures PutKeys(p) == PutKeys(WithoutChannel(p, c)) + {BlobKeyOf(p, c)}
    ensures BlobKeyOf(p, c) !in PutKeys(WithoutChannel(p, c))
  {
    forall k | k in PutKeys(p)
      ensures k in PutKeys(WithoutChannel(p, c)) + {BlobKeyOf(p, c)}
    {
      if k.BlobKey? && k.channel != c {
        assert k.channel in WithoutChannel(p, c).newVersions;
      }
    }
  }

  lemma AnnouncedStep(p: Put, marker: Serialized, c: string)
    requires c in p.newVersions
    ensures PutEstimate(p) + AbsentBytes(p, marker)
         == PutEstimate(WithoutChannel(p, c)) + AbsentBytes(WithoutChannel(p, c), marker)
            + ItemSize(PutItem(p, marker, BlobKeyOf(p, c)))
  {
    if c in p.values {
      ValueAnnounced(p, c);
    } else {
      AbsenceAnnounced(p, c);
    }
  }

  lemma ValueAnnounced(p: Put, c: string)
    requires c in p.newVersions && c in p.values
    ensures Sum(ValueSizes(p)) == Sum(ValueSizes(WithoutChannel(p, c))) + SerializedSize(p.values[c])
    ensures AbsentChannels(p) == AbsentChannels(WithoutChannel(p, c))
  {
    var fewer := ValueSizes(WithoutChannel(p, c));
    assert ValueSizes(p) == fewer[c := SerializedSize(p.values[c])];
    SumPut(fewer, c, SerializedSize(p.values[c]));
  }

  lemma AbsenceAnnounced(p: Put, c: string)
    requires c in p.newVersions && c !in p.values
    ensures ValueSizes(p) == ValueSizes(WithoutChannel(p, c))
    ensures |AbsentChannels(p)| == |AbsentChannels(WithoutChannel(p, c))| + 1
  {
    assert AbsentChannels(p) == AbsentChannels(WithoutChannel(p, c)) + {c};
  }

  /** No two entries of the batch share a key, and no key is in the store yet. */
  ghost predicate FreshEntries(items: Store, w: Writes) {
    && (forall i :: 0 <= i < |w.entries| ==> EntryKey(w, w.entries[i]) !in items)
    && (forall i, j :: 0 <= i < j < |w.entries| ==> w.entries[i].index != w.entries[j].index)
  }

  lemma ApplyEntryBytes(items: Store, w: Writes, e: Entry)
    ensures Bytes(ApplyEntry(items, w, e)) <= Bytes(items) + EntrySize(e) + Utf8Length(w.path)
    ensures EntryKey(w, e) !in items ==>
              Bytes(ApplyEntry(items, w, e)) == Bytes(items) + EntrySize(e) + Utf8Length(w.path)
  {
    BytesPutItem(items, EntryKey(w, e), WriteItem(e.channel, e.value, w.path));
  }

  /** Entries are charged with the task path one by one; the announced size charges it once. */
  lemma {:induction false} ApplyEntriesBytes(items: Store, w: Writes, n: nat)
    requires n <= |w.entries|
    ensures Bytes(ApplyEntries(items, w, n)) <= Bytes(items) + EntriesSize(w, n) + Times(n, Utf8Length(w.path))
  {
    if n > 0 {
      ApplyEntriesBytes(items, w, n - 1);
      ApplyEntryBytes(ApplyEntries(items, w, n - 1), w, w.entries[n - 1]);
    }
  }

  lemma {:induction false} FreshEntriesBytes(items: Store, w: Writes, n: nat)
    requires n <= |w.entries| && FreshEntries(items, w)
    ensures Bytes(ApplyEntries(items, w, n)) == Bytes(items) + EntriesSize(w, n) + Times(n, Utf8Length(w.path))
    ensures forall i :: n <= i < |w.entries| ==> EntryKey(w, w.entries[i]) !in ApplyEntries(items, w, n)
  {
    if n > 0 {
      FreshEntriesBytes(items, w, n - 1);
      ApplyEntryBytes(ApplyEntries(items, w, n - 1), w, w.entries[n - 1]);
    }
  }

  // ---------- a batch next to what is already stored ----------

  /** What the batch stores in a thread that holds nothing else. */
  ghost function AloneBytes(w: Writes): nat {
    Bytes(ApplyWrites(map[], w))
  }

  /** Every item comes from the earlier store or from the batch alone. */
  ghost predicate FromEither(items: Store, alone: Store, both: Store) {
    && alone.Keys <= both.Keys
    && forall k :: k in both ==> (k in items && both[k] == items[k]) || (k in alone && both[k] == alone[k])
  }

  lemma {:induction false} EntriesFromEither(items: Store, w: Writes, n: nat)
    requires n <= |w.entries|
    ensures FromEither(items, ApplyEntries(map[], w, n), ApplyEntries(items, w, n))
  {
    if n > 0 {
      EntriesFromEither(items, w, n - 1);
      EntryFromEither(items, ApplyEntries(map[], w, n - 1), ApplyEntries(items, w, n - 1), w, w.entries[n - 1]);
    }
  }

  lemma EntryFromEither(items: Store, alone: Store, both: Store, w: Writes, e: Entry)
    requires FromEither(items, alone, both)
    ensures FromEither(items, ApplyEntry(alone, w, e), ApplyEntry(both, w, e))
  {
  }

  lemma EitherBytes(items: Store, alone: Store, both: Store)
    requires FromEither(items, alone, both)
    ensures Bytes(both) <= Bytes(items) + Bytes(alone)
  {
    var kept := map k | k in both && k in items && both[k] == items[k] :: both[k];
    var added := both - kept.Keys;
    assert both == kept + added;
    BytesUnion(kept, added);
    BytesMonotone(items, kept);
    BytesMonotone(alone, added);
  }

  /** Next to other items a batch never adds more than it stores alone. */
  lemma WritesAtMostAlone(items: Store, w: Writes)
    ensures Bytes(ApplyWrites(items, w)) <= Bytes(items) + AloneBytes(w)
  {
    EntriesFromEither(items, w, |w.entries|);
    EitherBytes(items, ApplyWrites(map[], w), ApplyWrites(items, w));
  }

  lemma {:induction false} EntriesApart(items: Store, w: Writes, n: nat)
    requires n <= |w.entries| && forall i :: 0 <= i < |w.entries| ==> EntryKey(w, w.entries[i]) !in items
    ensures items.Keys !! ApplyEntries(map[], w, n).Keys
    ensures ApplyEntries(items, w, n) == items + ApplyEntries(map[], w, n)
  {
    if n > 0 {
      EntriesApart(items, w, n - 1);
      EntryApart(items, ApplyEntries(map[], w, n - 1), w, w.entries[n - 1]);
    }
  }

  lemma EntryApart(items: Store, alone: Store, w: Writes, e: Entry)
    requires EntryKey(w, e) !in items && items.Keys !! alone.Keys
    ensures items.Keys !! ApplyEntry(alone, w, e).Keys
    ensures ApplyEntry(items + alone, w, e) == items + ApplyEntry(alone, w, e)
  {
    if EntryKey(w, e) !in alone || e.overwrites {
      UnionPut(items, alone, EntryKey(w, e), WriteItem(e.channel, e.value, w.path));
    }
  }

  /** When none of its keys is taken it adds exactly that. */
  lemma WritesApartBytes(items: Store, w: Writes)
    requires forall i :: 0 <= i < |w.entries| ==> EntryKey(w, w.entries[i]) !in items
    ensures Bytes(ApplyWrites(items, w)) == Bytes(items) + AloneBytes(w)
  {
    EntriesApart(items, w, |w.entries|);
    BytesUnion(items, ApplyWrites(map[], w));
  }
}
