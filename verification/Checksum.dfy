// The byte stream a configuration checksum is the digest of.
module Checksum {
  import opened Text
  import opened Sorting

  const TAG := "pgtoolbox-checksum-v1"

  // binary.BigEndian: the low byte comes last.
  function BigEndian(n: nat, width: nat): string {
    if width == 0 then "" else BigEndian(n / 256, width - 1) + [(n % 256) as char]
  }

  function Uint64(n: nat): string { BigEndian(n, 8) }

  function Part(value: string): string { Uint64(|value|) + value }

  function Entry(m: map<string, string>, key: string): string
    requires key in m
  {
    Part(key) + Part(m[key])
  }

  function Entries(m: map<string, string>, keys: seq<string>): string
    requires forall k | k in keys :: k in m
  {
    if keys == [] then ""
    else Entries(m, keys[..|keys| - 1]) + Entry(m, keys[|keys| - 1])
  }

  function Identity(s: string): string { s }

  // An order in which the keys of m may be iterated.
  ghost predicate IsKeyOrder(m: map<string, string>, order: seq<string>) {
    && (forall k | k in order :: k in m)
    && (forall k | k in m :: k in order)
    && forall i, j | 0 <= i < j < |order| :: order[i] != order[j]
  }

  lemma KeyOrderIsSorted(m: map<string, string>, order: seq<string>)
    requires IsKeyOrder(m, order)
    ensures |Sort(order, Identity)| == |order|
    ensures forall k | k in Sort(order, Identity) :: k in m
    ensures forall k | k in m :: k in Sort(order, Identity)
  {
    SortPermutes(order, Identity);
    assert forall k :: k in Sort(order, Identity) <==> k in multiset(Sort(order, Identity));
    assert forall k :: k in order <==> k in multiset(order);
  }

  ghost function SortedEntries(m: map<string, string>, order: seq<string>): string
    requires IsKeyOrder(m, order)
  {
    KeyOrderIsSorted(m, order);
    Entries(m, Sort(order, Identity))
  }

  ghost function MapStream(m: map<string, string>, order: seq<string>): string
    requires IsKeyOrder(m, order)
  {
    Uint64(|order|) + SortedEntries(m, order)
  }

  ghost function TaggedStream(tag: string, m: map<string, string>, order: seq<string>): string
    requires IsKeyOrder(m, order)
  {
    Part(tag) + MapStream(m, order)
  }

  ghost function Stream(m: map<string, string>, order: seq<string>): string
    requires IsKeyOrder(m, order)
  {
    TaggedStream(TAG, m, order)
  }

  lemma EntriesNext(m: map<string, string>, keys: seq<string>, i: nat)
    requires i < |keys| && forall k | k in keys :: k in m
    ensures Entries(m, keys[..i + 1]) == Entries(m, keys[..i]) + Entry(m, keys[i])
  {
    assert keys[..i + 1][..i] == keys[..i];
  }

  lemma Append(a: string, b: string, c: string)
    ensures (a + b) + c == a + (b + c)
  {}

  // The running digest: what has been written to it is all that matters.
  class Digest {
    var written: string

    constructor ()
      ensures written == ""
    {
      written := "";
    }

    method WriteUint64(value: nat)
      modifies this
      ensures written == old(written) + Uint64(value)
    {
      var encoded := "";
      var rest := value;
      for i := 0 to 8
        invariant BigEndian(value, 8) == BigEndian(rest, 8 - i) + encoded
      {
        encoded := [(rest % 256) as char] + encoded;
        rest := rest / 256;
      }
      written := written + encoded;
    }

    method WritePart(value: string)
      modifies this
      ensures written == old(written) + Part(value)
    {
      WriteUint64(|value|);
      written := written + value;
    }

    // The loop of writeChecksumMap over the sorted keys.
    method WriteEntries(values: map<string, string>, keys: array<string>, ghost sorted: seq<string>)
      requires keys[..] == sorted && forall k | k in sorted :: k in values
      modifies this
      ensures written == old(written) + Entries(values, sorted)
    {
      for i := 0 to keys.Length
        invariant written == old(written) + Entries(values, sorted[..i])
      {
        EntriesNext(values, sorted, i);
        var key := keys[i];
        assert key == sorted[i];
        ghost var before := written;
        WritePart(key);
        WritePart(values[key]);
        Append(before, Part(key), Part(values[key]));
        Append(old(written), Entries(values, sorted[..i]), Entry(values, key));
      }
      assert sorted == sorted[..keys.Length];
    }

    // writeChecksumMap: `order` is the order the keys were collected in.
    method WriteMap(values: map<string, string>, order: seq<string>)
      requires IsKeyOrder(values, order)
      modifies this
      ensures written == old(written) + MapStream(values, order)
    {
      ghost var sorted := Sort(order, Identity);
      var keys := SortedCopy(order);
      assert keys.Length == |order| && forall k | k in sorted :: k in values by {
        KeyOrderIsSorted(values, order);
      }
      WriteUint64(keys.Length);
      WriteEntries(values, keys, sorted);
      Append(old(written), Uint64(|order|), SortedEntries(values, order));
    }
  }

  method SortedCopy(order: seq<string>) returns (keys: array<string>)
    ensures fresh(keys) && keys[..] == Sort(order, Identity)
  {
    keys := new string[|order|](i requires 0 <= i < |order| => order[i]);
    assert keys[..] == order;
    SortInPlace(keys, Identity);
  }

  method Tagged(tag: string, rendered: map<string, string>, order: seq<string>) returns (digest: Digest)
    requires IsKeyOrder(rendered, order)
    ensures fresh(digest) && digest.written == TaggedStream(tag, rendered, order)
  {
    digest := new Digest();
    digest.WritePart(tag);
    assert digest.written == Part(tag);
    digest.WriteMap(rendered, order);
  }

  // Checksum up to the hash: the bytes fed to SHA-256.
  method Checksum(rendered: map<string, string>, order: seq<string>) returns (digest: Digest)
    requires IsKeyOrder(rendered, order)
    ensures fresh(digest) && digest.written == Stream(rendered, order)
  {
    digest := Tagged(TAG, rendered, order);
  }

  // Map iteration order never reaches the digest.
  lemma StreamIgnoresIterationOrder(m: map<string, string>, order: seq<string>, other: seq<string>)
    requires IsKeyOrder(m, order) && IsKeyOrder(m, other)
    ensures Stream(m, order) == Stream(m, other)
  {
    SameElements(order, other);
    SortIsCanonical(order, other, Identity);
    assert |multiset(order)| == |order| && |multiset(other)| == |other|;
  }

  lemma SameElements(a: seq<string>, b: seq<string>)
    requires DistinctKeys(a, Identity) && DistinctKeys(b, Identity)
    requires forall k :: k in a <==> k in b
    ensures multiset(a) == multiset(b)
  {
    forall k ensures multiset(a)[k] == multiset(b)[k] {
      DistinctMultiplicity(a, k, Identity);
      DistinctMultiplicity(b, k, Identity);
    }
  }

  // ------------------------------------------------------------------
  // A decoder recovers the map.
  // ------------------------------------------------------------------

  function Value(s: string): nat {
    if s == "" then 0 else Value(s[..|s| - 1]) * 256 + s[|s| - 1] as int
  }

  function ReadPart(s: string): Option<(string, string)> {
    if |s| < 8 then None
    else
      var n := Value(s[..8]);
      if n > |s| - 8 then None else Some((s[8..8 + n], s[8 + n..]))
  }

  function ReadEntries(s: string, count: nat): Option<map<string, string>> {
    if count == 0 then (if s == "" then Some(map[]) else None)
    else
      match ReadPart(s)
      case None => None
      case Some((key, afterKey)) =>
      match ReadPart(afterKey)
      case None => None
      case Some((value, rest)) =>
      match ReadEntries(rest, count - 1)
      case None => None
      case Some(m) => Some(m[key := value])
  }

  function Decode(s: string): Option<map<string, string>> {
    match ReadPart(s)
    case None => None
    case Some((tag, rest)) => if tag != TAG || |rest| < 8 then None else ReadEntries(rest[8..], Value(rest[..8]))
  }

  const LIMIT: nat := 0x1_0000_0000_0000_0000

  function Range(width: nat): nat { if width == 0 then 1 else 256 * Range(width - 1) }

  lemma {:induction false} BigEndianRoundTrip(n: nat, width: nat)
    requires n < Range(width)
    ensures |BigEndian(n, width)| == width && Value(BigEndian(n, width)) == n
  {
    if width > 0 {
      BigEndianRoundTrip(n / 256, width - 1);
      var s := BigEndian(n, width);
      assert s[..|s| - 1] == BigEndian(n / 256, width - 1);
    }
  }

  lemma Uint64RoundTrip(n: nat)
    requires n < LIMIT
    ensures |Uint64(n)| == 8 && Value(Uint64(n)) == n
  {
    assert Range(8) == 256 * (256 * (256 * (256 * (256 * (256 * (256 * (256 * Range(0)))))))) == LIMIT;
    BigEndianRoundTrip(n, 8);
  }

  lemma PartReadsBack(value: string, rest: string)
    requires |value| < LIMIT
    ensures ReadPart(Part(value) + rest) == Some((value, rest))
  {
    Uint64RoundTrip(|value|);
    var s := Part(value) + rest;
    assert s[..8] == Uint64(|value|) && s[8..8 + |value|] == value && s[8 + |value|..] == rest;
  }

  ghost predicate Encodable(m: map<string, string>) {
    |m| < LIMIT && forall k | k in m :: |k| < LIMIT && |m[k]| < LIMIT
  }

  function Restrict(m: map<string, string>, keys: seq<string>): map<string, string> {
    map k | k in m && k in keys :: m[k]
  }

  // Entries from the front, as the decoder meets them.
  lemma {:induction false} EntriesFromFront(m: map<string, string>, keys: seq<string>)
    requires keys != [] && forall k | k in keys :: k in m
    ensures Entries(m, keys) == Entry(m, keys[0]) + Entries(m, keys[1..])
  {
    var last := |keys| - 1;
    if last > 0 {
      EntriesFromFront(m, keys[..last]);
      assert keys[..last][1..] == keys[1..][..last - 1];
      Append(Entry(m, keys[0]), Entries(m, keys[1..][..last - 1]), Entry(m, keys[last]));
    } else {
      assert keys[..0] == [] && keys[1..] == [];
    }
  }

  lemma FirstEntryReadsBack(key: string, value: string, rest: string, count: nat)
    requires |key| < LIMIT && |value| < LIMIT && count > 0
    ensures ReadEntries(Part(key) + (Part(value) + rest), count)
            == match ReadEntries(rest, count - 1)
               case None => None
               case Some(m) => Some(m[key := value])
  {
    PartReadsBack(key, Part(value) + rest);
    PartReadsBack(value, rest);
  }

  lemma {:induction false} EntriesReadBack(m: map<string, string>, keys: seq<string>)
    requires forall k | k in keys :: k in m && |k| < LIMIT && |m[k]| < LIMIT
    ensures ReadEntries(Entries(m, keys), |keys|) == Some(Restrict(m, keys))
  {
    if keys == [] {
      assert Restrict(m, keys) == map[];
    } else {
      var k := keys[0];
      EntriesFromFront(m, keys);
      Append(Part(k), Part(m[k]), Entries(m, keys[1..]));
      FirstEntryReadsBack(k, m[k], Entries(m, keys[1..]), |keys|);
      EntriesReadBack(m, keys[1..]);
      assert Restrict(m, keys) == Restrict(m, keys[1..])[k := m[k]];
    }
  }

  lemma OrderSize(m: map<string, string>, order: seq<string>)
    requires IsKeyOrder(m, order)
    ensures |order| == |m|
  {
    var keys := set k | k in order;
    assert keys == m.Keys;
    DistinctSize(order);
  }

  lemma {:induction false} DistinctSize(order: seq<string>)
    requires DistinctKeys(order, Identity)
    ensures |set k | k in order| == |order|
  {
    if order != [] {
      var last := |order| - 1;
      DistinctSize(order[..last]);
      assert forall i | 0 <= i < last :: Identity(order[i]) != Identity(order[last]);
      assert (set k | k in order) == (set k | k in order[..last]) + {order[last]};
    }
  }

  // The stream determines the map it was written from.
  lemma StreamDecodes(m: map<string, string>, order: seq<string>)
    requires IsKeyOrder(m, order) && Encodable(m)
    ensures Decode(Stream(m, order)) == Some(m)
  {
    KeyOrderIsSorted(m, order);
    var keys := Sort(order, Identity);
    OrderSize(m, order);
    var rest := Uint64(|order|) + Entries(m, keys);
    PartReadsBack(TAG, rest);
    Uint64RoundTrip(|order|);
    assert rest[..8] == Uint64(|order|) && rest[8..] == Entries(m, keys);
    EntriesReadBack(m, keys);
    assert Restrict(m, keys) == m;
  }

  // The tag comes first, behind its length in eight bytes, then the number of
  // entries, and then these in ascending order of their keys: any arrangement of
  // the keys that is in order is the one written.
  lemma StreamIsAscending(m: map<string, string>, order: seq<string>, keys: seq<string>)
    requires IsKeyOrder(m, order) && IsKeyOrder(m, keys) && |m| < LIMIT
    requires forall i, j | 0 <= i < j < |keys| :: Less(keys[i], keys[j])
    ensures IsFramed(Stream(m, order), "pgtoolbox-checksum-v1", |m|, Entries(m, keys))
  {
    SameElements(order, keys);
    KeyOrderIsSorted(m, order);
    AscendingIsSorted(keys);
    SortPermutes(order, Identity);
    SortSorts(order, Identity);
    DistinctKeysPermute(order, Sort(order, Identity), Identity);
    SortedIsUnique(Sort(order, Identity), keys, Identity);
    OrderSize(m, order);
    StreamParts(TAG, |order|, SortedEntries(m, order));
  }

  // A tag of 21 bytes behind its length, a count, and the entries.
  predicate IsFramed(s: string, tag: string, count: nat, entries: string) {
    && |s| >= 37 && Value(s[..8]) == 21 && s[8..29] == tag
    && Value(s[29..37]) == count && s[37..] == entries
  }

  lemma AscendingIsSorted(keys: seq<string>)
    requires forall i, j | 0 <= i < j < |keys| :: Less(keys[i], keys[j])
    ensures SortedBy(keys, Identity)
  {
    forall i, j | 0 <= i < j < |keys| ensures !Less(keys[j], keys[i]) {
      if Less(keys[j], keys[i]) {
        LessTransitive(keys[i], keys[j], keys[i]);
        LessIrreflexive(keys[i]);
      }
    }
  }

  lemma StreamParts(tag: string, count: nat, entries: string)
    requires |tag| == 21 && count < LIMIT
    ensures IsFramed(Part(tag) + (Uint64(count) + entries), tag, count, entries)
  {
    var s := Part(tag) + (Uint64(count) + entries);
    Uint64RoundTrip(21);
    Uint64RoundTrip(count);
    assert s[..8] == Uint64(21) && s[8..29] == tag && s[29..37] == Uint64(count) && s[37..] == entries;
  }

  lemma StreamIsInjective(m: map<string, string>, order: seq<string>, m': map<string, string>, order': seq<string>)
    requires IsKeyOrder(m, order) && IsKeyOrder(m', order') && Encodable(m) && Encodable(m')
    requires Stream(m, order) == Stream(m', order')
    ensures m == m'
  {
    StreamDecodes(m, order);
    StreamDecodes(m', order');
  }
}
