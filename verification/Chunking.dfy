/** How registered data is cut into chunks, and the keys the chunks are stored under. */
module Chunking {
  import opened Text
  import Cyclic

  type Bytes = seq<bv8>

  /** `-(-total_size // chunk_bytes)`: no bytes need no chunks. */
  function TotalChunks(totalSize: int, chunkBytes: int): int
    requires totalSize <= 0 || chunkBytes != 0
  {
    if totalSize <= 0 then 0 else -Cyclic.FloorDiv(-totalSize, chunkBytes)
  }

  function ExpectedLen(totalSize: int, chunkBytes: int, index: int): int
    requires totalSize <= 0 || chunkBytes != 0
  {
    if index == TotalChunks(totalSize, chunkBytes) - 1 then totalSize - index * chunkBytes else chunkBytes
  }

  /** The chunk count is the least that covers all bytes. */
  lemma TotalChunksCovers(totalSize: int, chunkBytes: int)
    requires totalSize > 0 && chunkBytes > 0
    ensures var n := TotalChunks(totalSize, chunkBytes);
            n >= 1 && (n - 1) * chunkBytes < totalSize <= n * chunkBytes
  {
    var q, k := (-totalSize) / chunkBytes, (-totalSize) % chunkBytes;
    assert -totalSize == q * chunkBytes + k;
    var n := -q;
    assert n * chunkBytes == -(q * chunkBytes);
    assert (n - 1) * chunkBytes == n * chunkBytes - chunkBytes;
    Cyclic.MultipleBound(n, chunkBytes);
  }

  lemma TotalChunksUnique(totalSize: int, chunkBytes: int, n: int)
    requires totalSize > 0 && chunkBytes > 0 && (n - 1) * chunkBytes < totalSize <= n * chunkBytes
    ensures n == TotalChunks(totalSize, chunkBytes)
  {
    var m := TotalChunks(totalSize, chunkBytes);
    TotalChunksCovers(totalSize, chunkBytes);
    assert (n - 1 - m) * chunkBytes == (n - 1) * chunkBytes - m * chunkBytes;
    assert (m - 1 - n) * chunkBytes == (m - 1) * chunkBytes - n * chunkBytes;
    Cyclic.MultipleBound(n - 1 - m, chunkBytes);
    Cyclic.MultipleBound(m - 1 - n, chunkBytes);
  }

  lemma OffsetInside(chunkBytes: nat, i: nat, n: nat)
    requires i < n
    ensures i * chunkBytes <= (n - 1) * chunkBytes
    ensures i < n - 1 ==> (i + 1) * chunkBytes <= (n - 1) * chunkBytes
  {
    assert (n - 1) * chunkBytes == i * chunkBytes + (n - 1 - i) * chunkBytes;
    assert (i + 1) * chunkBytes == i * chunkBytes + chunkBytes;
    if i < n - 1 {
      assert (n - 1 - i) * chunkBytes == chunkBytes + (n - 2 - i) * chunkBytes;
    }
  }

  /** Every chunk carries between one and chunk_bytes bytes, at its own offset inside the data. */
  lemma ExpectedLenBounds(totalSize: int, chunkBytes: int, index: int)
    requires totalSize > 0 && chunkBytes > 0 && 0 <= index < TotalChunks(totalSize, chunkBytes)
    ensures 1 <= ExpectedLen(totalSize, chunkBytes, index) <= chunkBytes
    ensures 0 <= index * chunkBytes
    ensures index * chunkBytes + ExpectedLen(totalSize, chunkBytes, index) <= totalSize
    ensures index < TotalChunks(totalSize, chunkBytes) - 1 ==>
              index * chunkBytes + ExpectedLen(totalSize, chunkBytes, index) == (index + 1) * chunkBytes
  {
    var n := TotalChunks(totalSize, chunkBytes);
    TotalChunksCovers(totalSize, chunkBytes);
    OffsetInside(chunkBytes, index, n);
    assert (index + 1) * chunkBytes == index * chunkBytes + chunkBytes;
    assert n * chunkBytes == (n - 1) * chunkBytes + chunkBytes;
    hide Cyclic.FloorDiv;
  }

  /** The lengths of the first i chunks together. */
  function LengthOfFirst(totalSize: int, chunkBytes: int, i: nat): int
    requires chunkBytes != 0
  {
    if i == 0 then 0 else LengthOfFirst(totalSize, chunkBytes, i - 1) + ExpectedLen(totalSize, chunkBytes, i - 1)
  }

  /** The expected lengths of all chunks add up to the total size. */
  lemma {:induction false} LengthsAddUp(totalSize: int, chunkBytes: int, i: nat)
    requires totalSize > 0 && chunkBytes > 0 && i <= TotalChunks(totalSize, chunkBytes)
    ensures LengthOfFirst(totalSize, chunkBytes, i) ==
            if i == TotalChunks(totalSize, chunkBytes) then totalSize else i * chunkBytes
  {
    TotalChunksCovers(totalSize, chunkBytes);
    if i > 0 {
      LengthsAddUp(totalSize, chunkBytes, i - 1);
      assert i * chunkBytes == (i - 1) * chunkBytes + chunkBytes;
    }
    hide TotalChunks;
  }

  // ---- slicing and joining

  /** `data[start:start + chunk_bytes]` for chunk i. */
  function Slice(data: Bytes, chunkBytes: int, index: nat): Bytes
    requires chunkBytes > 0
  {
    var start := index * chunkBytes;
    if start >= |data| then []
    else if start + chunkBytes <= |data| then data[start..start + chunkBytes]
    else data[start..]
  }

  lemma SliceIsExpected(data: Bytes, chunkBytes: int, index: nat)
    requires chunkBytes > 0 && index < TotalChunks(|data|, chunkBytes)
    ensures |Slice(data, chunkBytes, index)| == ExpectedLen(|data|, chunkBytes, index)
    ensures index * chunkBytes + |Slice(data, chunkBytes, index)| <= |data|
    ensures Slice(data, chunkBytes, index) ==
            data[index * chunkBytes..index * chunkBytes + |Slice(data, chunkBytes, index)|]
  {
    var n := TotalChunks(|data|, chunkBytes);
    ExpectedLenBounds(|data|, chunkBytes, index);
    TotalChunksCovers(|data|, chunkBytes);
    assert (index + 1) * chunkBytes == index * chunkBytes + chunkBytes;
    hide TotalChunks;
  }

  /** `b"".join(parts)`. */
  function Join(parts: seq<Bytes>): Bytes {
    if parts == [] then [] else Join(parts[..|parts| - 1]) + parts[|parts| - 1]
  }

  function Slices(data: Bytes, chunkBytes: int, n: nat): (parts: seq<Bytes>)
    requires chunkBytes > 0
    ensures |parts| == n && forall i :: 0 <= i < n ==> parts[i] == Slice(data, chunkBytes, i)
  {
    seq(n, i requires 0 <= i < n => Slice(data, chunkBytes, i))
  }

  /** Where chunk i - 1 ends. */
  lemma LastEnds(totalSize: int, chunkBytes: int, i: int)
    requires totalSize > 0 && chunkBytes > 0 && 0 < i <= TotalChunks(totalSize, chunkBytes)
    ensures (i - 1) * chunkBytes + ExpectedLen(totalSize, chunkBytes, i - 1) ==
            if i == TotalChunks(totalSize, chunkBytes) then totalSize else i * chunkBytes
  {
    assert i * chunkBytes == (i - 1) * chunkBytes + chunkBytes;
    hide TotalChunks;
  }

  lemma {:induction false} JoinOneMore(data: Bytes, parts: seq<Bytes>, start: nat)
    requires parts != [] && start + |parts[|parts| - 1]| <= |data|
    requires parts[|parts| - 1] == data[start..start + |parts[|parts| - 1]|]
    requires Join(parts[..|parts| - 1]) == data[..start]
    ensures Join(parts) == data[..start + |parts[|parts| - 1]|]
  {
    var end := start + |parts[|parts| - 1]|;
    assert data[..start] + data[start..end] == data[..end];
  }

  lemma {:induction false} JoinSlicesPrefix(data: Bytes, chunkBytes: int, i: nat)
    requires chunkBytes > 0 && i <= TotalChunks(|data|, chunkBytes)
    ensures var n := TotalChunks(|data|, chunkBytes);
            var end := if i == n then |data| else i * chunkBytes;
            0 <= end <= |data| && Join(Slices(data, chunkBytes, i)) == data[..end]
    decreases i
  {
    var n := TotalChunks(|data|, chunkBytes);
    if i == 0 {
      assert n == 0 ==> |data| == 0;
    } else {
      JoinSlicesPrefix(data, chunkBytes, i - 1);
      SliceIsExpected(data, chunkBytes, i - 1);
      ExpectedLenBounds(|data|, chunkBytes, i - 1);
      hide Slice;
      hide Join;
      hide TotalChunks;
      hide ExpectedLen;
      var parts := Slices(data, chunkBytes, i);
      assert parts[..i - 1] == Slices(data, chunkBytes, i - 1);
      JoinOneMore(data, parts, (i - 1) * chunkBytes);
      LastEnds(|data|, chunkBytes, i);
    }
  }

  /** Cutting data into chunks and joining them gives the data back. */
  lemma JoinSlices(data: Bytes, chunkBytes: int)
    requires chunkBytes > 0
    ensures TotalChunks(|data|, chunkBytes) >= 0
    ensures Join(Slices(data, chunkBytes, TotalChunks(|data|, chunkBytes))) == data
  {
    if |data| > 0 {
      TotalChunksCovers(|data|, chunkBytes);
    }
    JoinSlicesPrefix(data, chunkBytes, TotalChunks(|data|, chunkBytes));
    assert data[..|data|] == data;
  }

  // ---- chunk keys

  function ChunkKey(name: string, version: int, index: nat): string {
    name + "/" + Str(version) + "/" + ("chunk_" + ZeroPad(Digits(index), 8))
  }

  /** The last part of a chunk key: at least eight digits that read as the index, without needless zeros. */
  lemma ChunkKeyIs(name: string, version: int, index: nat) returns (padded: string)
    ensures ChunkKey(name, version, index) == name + "/" + Str(version) + "/" + ("chunk_" + padded)
    ensures AllDigits(padded) && NatValue(padded) == index && |padded| >= 8 && (|padded| > 8 ==> padded == Digits(index))
  {
    padded := ZeroPad(Digits(index), 8);
    NatValueOfDigits(index);
    ZeroPadKeepsValue(Digits(index), 8);
    ZeroPadLength(Digits(index), 8);
  }

  lemma ChunkKeyParts(name: string, version: int, index: nat)
    ensures RPartition(ChunkKey(name, version, index), '/') ==
            (name + "/" + Str(version), true, "chunk_" + ZeroPad(Digits(index), 8))
    ensures RPartition(name + "/" + Str(version), '/') == (name, true, Str(version))
  {
    StrHasNo(version, '/');
    var padded := ZeroPad(Digits(index), 8);
    var tail := "chunk_" + padded;
    hide ZeroPad;
    hide Str;
    assert AllDigits(padded);
    assert forall i :: 0 <= i < |padded| ==> IsDigit(padded[i]);
    assert '/' !in tail;
    RPartitionJoin(name + "/" + Str(version), '/', tail);
    RPartitionJoin(name, '/', Str(version));
  }

  /** Chunk keys are injective: a key belongs to one name, one version and one index. */
  lemma ChunkKeyInjective(n1: string, v1: int, i1: nat, n2: string, v2: int, i2: nat)
    ensures ChunkKey(n1, v1, i1) == ChunkKey(n2, v2, i2) ==> n1 == n2 && v1 == v2 && i1 == i2
  {
    if ChunkKey(n1, v1, i1) == ChunkKey(n2, v2, i2) {
      ChunkKeyParts(n1, v1, i1);
      ChunkKeyParts(n2, v2, i2);
      hide ChunkKey;
      hide RPartition;
      assert Str(v1) == Str(v2);
      ParseStr(v1);
      ParseStr(v2);
      var p1, p2 := ZeroPad(Digits(i1), 8), ZeroPad(Digits(i2), 8);
      assert ("chunk_" + p1)[6..] == p1 && ("chunk_" + p2)[6..] == p2;
      NatValueOfDigits(i1);
      NatValueOfDigits(i2);
      ZeroPadKeepsValue(Digits(i1), 8);
      ZeroPadKeepsValue(Digits(i2), 8);
    }
  }
}
