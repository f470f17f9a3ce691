/**
 Sizes as numbers of bytes: what the saver counts is the length of what it would
 take to write the strings, payloads and items one after the other.
 */
module StoredBytes {
  import opened ByteSizes
  import opened Items

  // ---------- UTF-8 ----------

  /** The encoding of one character, as in section 3 of RFC 3629. */
  function EncodeChar(c: char): seq<byte> {
    var code := c as int;
    if code < 0x80 then [code as byte]
    else if code < 0x800 then [(0xC0 + code / 0x40) as byte, (0x80 + code % 0x40) as byte]
    else if code < 0x1_0000 then
      [(0xE0 + code / 0x1000) as byte, (0x80 + code / 0x40 % 0x40) as byte, (0x80 + code % 0x40) as byte]
    else
      [(0xF0 + code / 0x4_0000) as byte, (0x80 + code / 0x1000 % 0x40) as byte,
       (0x80 + code / 0x40 % 0x40) as byte, (0x80 + code % 0x40) as byte]
  }

  /** How many bytes the character takes that starts with this byte. */
  function LeadLength(lead: byte): nat {
    if lead < 0x80 then 1 else if lead < 0xE0 then 2 else if lead < 0xF0 then 3 else 4
  }

  /** The character code that some bytes stand for. */
  function CodeOf(bytes: seq<byte>): int {
    match |bytes|
    case 1 => bytes[0] as int
    case 2 => (bytes[0] as int - 0xC0) * 0x40 + (bytes[1] as int - 0x80)
    case 3 => (bytes[0] as int - 0xE0) * 0x1000 + (bytes[1] as int - 0x80) * 0x40 + (bytes[2] as int - 0x80)
    case 4 => (bytes[0] as int - 0xF0) * 0x4_0000 + (bytes[1] as int - 0x80) * 0x1000
              + (bytes[2] as int - 0x80) * 0x40 + (bytes[3] as int - 0x80)
    case _ => 0
  }

  lemma ThreeDigits(code: nat)
    ensures code == code / 0x1000 * 0x1000 + code / 0x40 % 0x40 * 0x40 + code % 0x40
  {
    var upper := code / 0x40;
    assert code == upper * 0x40 + code % 0x40;
    assert upper == upper / 0x40 * 0x40 + upper % 0x40;
    assert upper / 0x40 == code / 0x1000;
  }

  lemma FourDigits(code: nat)
    ensures code == code / 0x4_0000 * 0x4_0000 + code / 0x1000 % 0x40 * 0x1000 + code / 0x40 % 0x40 * 0x40 + code % 0x40
  {
    var upper := code / 0x1000;
    ThreeDigits(code);
    assert upper == upper / 0x40 * 0x40 + upper % 0x40;
    assert upper / 0x40 == code / 0x4_0000;
  }

  lemma TwoBytes(c: char)
    requires 0x80 <= c as int < 0x800
    ensures |EncodeChar(c)| == 2 && 0xC0 <= EncodeChar(c)[0] < 0xE0 && CodeOf(EncodeChar(c)) == c as int
  {
  }

  lemma ThreeBytes(c: char)
    requires 0x800 <= c as int < 0x1_0000
    ensures |EncodeChar(c)| == 3 && 0xE0 <= EncodeChar(c)[0] < 0xF0 && CodeOf(EncodeChar(c)) == c as int
  {
    ThreeDigits(c as int);
  }

  lemma FourBytes(c: char)
    requires 0x1_0000 <= c as int
    ensures |EncodeChar(c)| == 4 && 0xF0 <= EncodeChar(c)[0] && CodeOf(EncodeChar(c)) == c as int
  {
    FourDigits(c as int);
  }

  /** The encoding can be read back, and its length is the one that is counted. */
  lemma CharRoundTrip(c: char)
    ensures var bytes := EncodeChar(c);
            |bytes| == CharLength(c) == LeadLength(bytes[0]) && CodeOf(bytes) == c as int
  {
    if c as int < 0x80 {
    } else if c as int < 0x800 {
      TwoBytes(c);
    } else if c as int < 0x1_0000 {
      ThreeBytes(c);
    } else {
      FourBytes(c);
    }
  }

  function Encode(s: string): seq<byte> {
    if s == [] then [] else EncodeChar(s[0]) + Encode(s[1..])
  }

  lemma {:induction false} EncodedLength(s: string)
    ensures |Encode(s)| == Utf8Length(s)
  {
    if s != [] {
      CharRoundTrip(s[0]);
      EncodedLength(s[1..]);
    }
  }

  /** No two strings share an encoding. */
  lemma {:induction false} EncodingInjective(a: string, b: string)
    requires Encode(a) == Encode(b)
    ensures a == b
  {
    if a != [] {
      CharRoundTrip(a[0]);
      assert b != [];
      CharRoundTrip(b[0]);
      assert Encode(a)[0] == EncodeChar(a[0])[0] && Encode(b)[0] == EncodeChar(b[0])[0];
      var n := CharLength(a[0]);
      assert Encode(a)[..n] == EncodeChar(a[0]) && Encode(b)[..n] == EncodeChar(b[0]);
      assert Encode(a)[n..] == Encode(a[1..]) && Encode(b)[n..] == Encode(b[1..]);
      EncodingInjective(a[1..], b[1..]);
      assert a == [a[0]] + a[1..] && b == [b[0]] + b[1..];
    }
  }

  // ---------- items ----------

  /** The type name and the payload. */
  function ValueBytes(value: Serialized): seq<byte> {
    Encode(value.kind) + value.payload
  }

  /** A checkpoint counts with its metadata, a pending write with its channel and task path. */
  function ItemBytes(item: Item): seq<byte> {
    match item
    case CheckpointItem(body, metadata, _) => ValueBytes(body.encoded) + ValueBytes(metadata)
    case BlobItem(blob) => ValueBytes(blob)
    case WriteItem(channel, value, path) => ValueBytes(value) + Encode(channel) + Encode(path)
  }

  lemma ValueLength(value: Serialized)
    ensures |ValueBytes(value)| == SerializedSize(value)
  {
    EncodedLength(value.kind);
  }

  lemma ItemLength(item: Item)
    ensures |ItemBytes(item)| == ItemSize(item)
  {
    match item
    case CheckpointItem(body, metadata, _) =>
      ValueLength(body.encoded);
      ValueLength(metadata);
    case BlobItem(blob) => ValueLength(blob);
    case WriteItem(channel, value, path) =>
      ValueLength(value);
      EncodedLength(channel);
      EncodedLength(path);
  }

  /** The sequence names each element of the set once. */
  ghost predicate Lists<T(!new)>(listing: seq<T>, elements: set<T>) {
    && (forall x :: x in listing <==> x in elements)
    && (forall i, j :: 0 <= i < j < |listing| ==> listing[i] != listing[j])
  }

  lemma ListsFewer<T(!new)>(listing: seq<T>, elements: set<T>)
    requires Lists(listing, elements) && listing != []
    ensures Lists(listing[..|listing| - 1], elements - {listing[|listing| - 1]})
  {
    var rest, last := listing[..|listing| - 1], listing[|listing| - 1];
    forall x | x in elements - {last}
      ensures x in rest
    {
      var i :| 0 <= i < |listing| && listing[i] == x;
      assert rest[i] == x;
    }
    forall x | x in rest
      ensures x in elements - {last}
    {
      var i :| 0 <= i < |rest| && rest[i] == x;
      assert listing[i] == x;
    }
  }

  /** The whole store, item after item. */
  function StoreBytes(items: Store, keys: seq<ItemKey>): seq<byte>
    requires forall k :: k in keys ==> k in items
  {
    if keys == [] then []
    else StoreBytes(items, keys[..|keys| - 1]) + ItemBytes(items[keys[|keys| - 1]])
  }

  lemma {:induction false} StoreBytesSame(items: Store, fewer: Store, keys: seq<ItemKey>)
    requires forall k :: k in keys ==> k in items && k in fewer && items[k] == fewer[k]
    ensures StoreBytes(items, keys) == StoreBytes(fewer, keys)
  {
    if keys != [] {
      StoreBytesSame(items, fewer, keys[..|keys| - 1]);
    }
  }

  lemma TotalStep(items: Store, last: ItemKey)
    requires last in items
    ensures Bytes(items) == Bytes(items - {last}) + |ItemBytes(items[last])|
  {
    assert Sizes(items) - {last} == Sizes(items - {last});
    SumRemove(Sizes(items), last);
    ItemLength(items[last]);
  }

  lemma StoreBytesLast(items: Store, keys: seq<ItemKey>)
    requires keys != [] && Lists(keys, items.Keys)
    ensures var last, rest := keys[|keys| - 1], keys[..|keys| - 1];
            && Lists(rest, (items - {last}).Keys)
            && StoreBytes(items, keys) == StoreBytes(items - {last}, rest) + ItemBytes(items[last])
  {
    var last, rest := keys[|keys| - 1], keys[..|keys| - 1];
    ListsFewer(keys, items.Keys);
    assert (items - {last}).Keys == items.Keys - {last};
    StoreBytesSame(items, items - {last}, rest);
  }

  /** The total that the saver keeps is the length of the store, whichever way its items are listed. */
  lemma {:induction false} TotalIsLength(items: Store, keys: seq<ItemKey>)
    requires Lists(keys, items.Keys)
    ensures Bytes(items) == |StoreBytes(items, keys)|
    decreases |keys|
  {
    if keys == [] {
      assert items == map[];
      assert Sizes(items) == map[];
    } else {
      var last, rest := keys[|keys| - 1], keys[..|keys| - 1];
      StoreBytesLast(items, keys);
      TotalIsLength(items - {last}, rest);
      TotalStep(items, last);
    }
  }

  // ---------- what a write announces ----------

  /** The values of the listed channels, one after the other. */
  function ChannelBytes(p: Put, channels: seq<string>): seq<byte> {
    if channels == [] then []
    else
      var c := channels[|channels| - 1];
      ChannelBytes(p, channels[..|channels| - 1]) + if c in p.values then ValueBytes(p.values[c]) else []
  }

  lemma {:induction false} ChannelLengths(p: Put, channels: seq<string>)
    requires Lists(channels, p.newVersions.Keys)
    ensures |ChannelBytes(p, channels)| == Sum(ValueSizes(p))
    decreases |channels|
  {
    if channels == [] {
      assert ValueSizes(p) == map[];
    } else {
      var c, rest := channels[|channels| - 1], channels[..|channels| - 1];
      var fewer := WithoutChannel(p, c);
      ListsFewer(channels, p.newVersions.Keys);
      assert fewer.newVersions.Keys == p.newVersions.Keys - {c};
      ChannelLengths(fewer, rest);
      SameChannelBytes(p, fewer, rest);
      if c in p.values {
        ValueAnnounced(p, c);
        ValueLength(p.values[c]);
      } else {
        AbsenceAnnounced(p, c);
      }
    }
  }

  lemma {:induction false} SameChannelBytes(p: Put, p': Put, channels: seq<string>)
    requires p.values == p'.values
    ensures ChannelBytes(p, channels) == ChannelBytes(p', channels)
  {
    if channels != [] {
      SameChannelBytes(p, p', channels[..|channels| - 1]);
    }
  }

  /** A put announces the bytes of its body, its metadata, and the values of its new channels. */
  lemma PutAnnounces(p: Put, channels: seq<string>)
    requires Lists(channels, p.newVersions.Keys)
    ensures PutEstimate(p) == |ValueBytes(p.body.encoded) + ValueBytes(p.metadata) + ChannelBytes(p, channels)|
  {
    ValueLength(p.body.encoded);
    ValueLength(p.metadata);
    ChannelLengths(p, channels);
  }

  /** The values and channel names of the first `n` entries, one after the other. */
  function EntryBytes(w: Writes, n: nat): seq<byte>
    requires n <= |w.entries|
  {
    if n == 0 then []
    else EntryBytes(w, n - 1) + ValueBytes(w.entries[n - 1].value) + Encode(w.entries[n - 1].channel)
  }

  lemma {:induction false} EntryLengths(w: Writes, n: nat)
    requires n <= |w.entries|
    ensures |EntryBytes(w, n)| == EntriesSize(w, n)
  {
    if n > 0 {
      EntryLengths(w, n - 1);
      ValueLength(w.entries[n - 1].value);
      EncodedLength(w.entries[n - 1].channel);
    }
  }

  /** A batch announces its values with their channel names, and task id and task path once. */
  lemma BatchAnnounces(w: Writes)
    ensures WritesEstimate(w) == |EntryBytes(w, |w.entries|) + Encode(w.task) + Encode(w.path)|
  {
    EntryLengths(w, |w.entries|);
    EncodedLength(w.task);
    EncodedLength(w.path);
  }
}
