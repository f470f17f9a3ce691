/** Sizes of serialized values, and sums of sizes over a map. */
module ByteSizes {

  newtype byte = x: int | 0 <= x < 256

  /** The number of bytes of the UTF-8 encoding of `s`. */
  function Utf8Length(s: string): (n: nat)
    ensures |s| <= n <= 4 * |s|
  {
    if s == [] then 0 else CharLength(s[0]) + Utf8Length(s[1..])
  }

  function CharLength(c: char): (n: nat)
    ensures 1 <= n <= 4
  {
    if c as int < 0x80 then 1
    else if c as int < 0x800 then 2
    else if c as int < 0x1_0000 then 3
    else 4
  }

  /** What the serializer returns: a type name and a payload. */
  datatype Serialized = Serialized(kind: string, payload: seq<byte>)

  function SerializedSize(value: Serialized): nat {
    Utf8Length(value.kind) + |value.payload|
  }

  /** `n` times `size`, by repeated addition: proofs about it stay linear. */
  function Times(n: nat, size: nat): nat {
    if n == 0 then 0 else Times(n - 1, size) + size
  }

  lemma {:induction false} TimesIsProduct(n: nat, size: nat)
    ensures Times(n, size) == n * size
  {
    if n > 0 {
      TimesIsProduct(n - 1, size);
    }
  }

  /** The sum of all values of a map. */
  ghost function Sum<K(!new)>(m: map<K, nat>): nat
    decreases |m|
  {
    if m == map[] then 0
    else
      var k :| k in m;
      assert (m - {k}).Keys == m.Keys - {k};
      m[k] + Sum(m - {k})
  }

  /** The order in which `Sum` visits the keys does not matter. */
  lemma {:induction false} SumRemove<K(!new)>(m: map<K, nat>, k: K)
    requires k in m
    ensures Sum(m) == m[k] + Sum(m - {k})
    decreases |m|
  {
    var first :| first in m && Sum(m) == m[first] + Sum(m - {first});
    if first != k {
      assert (m - {first}).Keys == m.Keys - {first};
      assert (m - {k}).Keys == m.Keys - {k};
      SumRemove(m - {first}, k);
      SumRemove(m - {k}, first);
      assert m - {first} - {k} == m - {k} - {first};
    }
  }

  function GetOrZero<K>(m: map<K, nat>, k: K): nat {
    if k in m then m[k] else 0
  }

  lemma SumPut<K(!new)>(m: map<K, nat>, k: K, v: nat)
    ensures Sum(m[k := v]) == Sum(m) - GetOrZero(m, k) + v
  {
    SumRemove(m[k := v], k);
    assert m[k := v] - {k} == m - {k};
    if k in m {
      SumRemove(m, k);
    } else {
      assert m - {k} == m;
    }
  }

  function Restrict<K, V>(m: map<K, V>, keys: set<K>): map<K, V> {
    map k | k in m && k in keys :: m[k]
  }

  lemma UnionPut<K, V>(a: map<K, V>, b: map<K, V>, k: K, v: V)
    ensures (a + b)[k := v] == a + b[k := v]
  {
  }

  lemma RemoveFromUnion<K, V>(a: map<K, V>, b: map<K, V>, k: K)
    requires a.Keys !! b.Keys && k in b
    ensures a + b - {k} == a + (b - {k})
    ensures (a + b)[k] == b[k]
    ensures a.Keys !! (b - {k}).Keys
  {
    assert k !in a;
    assert (a + b - {k}).Keys == (a + (b - {k})).Keys;
  }

  lemma {:induction false} SumUnion<K(!new)>(a: map<K, nat>, b: map<K, nat>)
    requires a.Keys !! b.Keys
    ensures Sum(a + b) == Sum(a) + Sum(b)
    decreases |b|
  {
    if b == map[] {
      assert a + b == a;
    } else {
      var k :| k in b;
      var rest := b - {k};
      assert rest.Keys == b.Keys - {k};
      RemoveFromUnion(a, b, k);
      SumRemove(b, k);
      SumUnion(a, rest);
      SumRemove(a + b, k);
    }
  }
}
