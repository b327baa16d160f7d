/**
 * The data registry: a catalog of records, the chunk blobs they name, open streams, and the
 * one-shot signal that an upload is complete.
 */
module DataRegistry {
  import opened Wrappers
  import opened Chunking
  import Cyclic

  datatype DataKey = DataKey(name: string, version: int)

  datatype BlobKey = BlobKey(kind: string, path: string)

  datatype Record = Record(
    kind: string, totalSize: int, chunkBytes: int, totalChunks: int, declaredHash: Option<string>, algo: string)

  /** A stream being written; `fed` is everything its hasher has seen. */
  datatype Stream = Stream(kind: string, chunkBytes: int, nextIndex: nat, totalSize: nat, fed: Bytes)

  datatype Event = Registered(key: DataKey) | Completed(key: DataKey) | Deleted(key: DataKey)

  datatype Error =
    | UnknownKind | NotRegistered | IndexOutOfRange | SizeMismatch | ChunkMissing | StreamNotOpen | StreamFinalized
    | ZeroDivision

  /** `hashlib` under a given algorithm name. */
  type Digest = (string, Bytes) -> string

  datatype Reg = Reg(
    kinds: set<string>,
    catalog: map<DataKey, Record>,
    blobs: map<BlobKey, Bytes>,
    completed: set<DataKey>,
    hashes: map<DataKey, (string, bool)>,
    streams: map<DataKey, Stream>,
    log: seq<Event>)

  datatype Status = Status(
    registered: bool, present: seq<nat>, complete: bool, totalChunks: int,
    computedHash: Option<string>, verified: Option<bool>)

  function At(key: DataKey, kind: string, index: nat): BlobKey {
    BlobKey(kind, ChunkKey(key.name, key.version, index))
  }

  lemma AtInjective(k1: DataKey, kind1: string, i1: nat, k2: DataKey, kind2: string, i2: nat)
    ensures At(k1, kind1, i1) == At(k2, kind2, i2) ==> k1 == k2 && kind1 == kind2 && i1 == i2
  {
    ChunkKeyInjective(k1.name, k1.version, i1, k2.name, k2.version, i2);
  }

  // ---- registration and deletion

  predicate FullyPresent(blobs: map<BlobKey, Bytes>, key: DataKey, rec: Record) {
    forall i :: 0 <= i < rec.totalChunks ==> At(key, rec.kind, i) in blobs
  }

  /** The upload-completed event, emitted the first time only. */
  function SignalOnce(r: Reg, key: DataKey): Reg {
    if key in r.completed then r
    else r.(completed := r.completed + {key}, log := r.log + [Completed(key)])
  }

  function Register(r: Reg, key: DataKey, kind: string, totalSize: int, chunkBytes: int,
                    declaredHash: Option<string>, algo: string): (Reg, Result<Record, Error>) {
    if kind !in r.kinds then (r, Err(UnknownKind))
    else if totalSize > 0 && chunkBytes == 0 then (r, Err(ZeroDivision))
    else
      var rec := Record(kind, totalSize, chunkBytes, TotalChunks(totalSize, chunkBytes), declaredHash, algo);
      var added := r.(catalog := r.catalog[key := rec], log := r.log + [Registered(key)]);
      (if rec.totalChunks == 0 then SignalOnce(added, key) else added, Ok(rec))
  }

  function ChunkKeys(key: DataKey, kind: string, n: nat): (keys: set<BlobKey>)
    ensures forall i :: 0 <= i < n ==> At(key, kind, i) in keys
    ensures forall k :: k in keys ==> exists i :: 0 <= i < n && k == At(key, kind, i)
  {
    if n == 0 then {} else ChunkKeys(key, kind, n - 1) + {At(key, kind, n - 1)}
  }

  function Delete(r: Reg, key: DataKey): (Reg, Result<(), Error>) {
    if key !in r.catalog then (r, Err(NotRegistered))
    else
      var rec := r.catalog[key];
      (r.(blobs := r.blobs - ChunkKeys(key, rec.kind, Max(0, rec.totalChunks)),
          catalog := r.catalog - {key}, completed := r.completed - {key}, hashes := r.hashes - {key},
          log := r.log + [Deleted(key)]), Ok(()))
  }

  // ---- chunks

  function StoreChunk(r: Reg, key: DataKey, index: int, data: Bytes): (Reg, Result<Record, Error>) {
    if key !in r.catalog then (r, Err(NotRegistered))
    else
      var rec := r.catalog[key];
      if index < 0 || index >= rec.totalChunks then (r, Err(IndexOutOfRange))
      else if rec.totalSize > 0 && rec.chunkBytes == 0 then (r, Err(ZeroDivision))
      else if |data| != ExpectedLen(rec.totalSize, rec.chunkBytes, index) then (r, Err(SizeMismatch))
      else
        var put := r.(blobs := r.blobs[At(key, rec.kind, index) := data]);
        (if FullyPresent(put.blobs, key, rec) then SignalOnce(put, key) else put, Ok(rec))
  }

  function ReadChunk(r: Reg, key: DataKey, index: nat): Result<Bytes, Error> {
    if key !in r.catalog then Err(NotRegistered)
    else
      var at := At(key, r.catalog[key].kind, index);
      if at in r.blobs then Ok(r.blobs[at]) else Err(ChunkMissing)
  }

  /** The first n chunks joined, or the first failure. */
  function ReadFirst(r: Reg, key: DataKey, n: nat): Result<Bytes, Error> {
    if n == 0 then Ok([])
    else
      var before := ReadFirst(r, key, n - 1);
      if before.Err? then before
      else
        var chunk := ReadChunk(r, key, n - 1);
        if chunk.Err? then chunk else Ok(before.value + chunk.value)
  }

  function ReadWhole(r: Reg, key: DataKey): Result<Bytes, Error> {
    if key !in r.catalog then Err(NotRegistered) else ReadFirst(r, key, Max(0, r.catalog[key].totalChunks))
  }

  // ---- status

  function PresentFirst(r: Reg, key: DataKey, kind: string, n: nat): (p: seq<nat>)
    ensures |p| <= n && forall i: nat :: i in p <==> i < n && At(key, kind, i) in r.blobs
  {
    if n == 0 then []
    else
      var before := PresentFirst(r, key, kind, n - 1);
      if At(key, kind, n - 1) in r.blobs then before + [n - 1] else before
  }

  /** Everything the hasher is fed for a record: its chunks in order, absent ones as nothing. */
  function HashInput(r: Reg, key: DataKey, kind: string, n: nat): Bytes {
    if n == 0 then []
    else
      var at := At(key, kind, n - 1);
      HashInput(r, key, kind, n - 1) + (if at in r.blobs then r.blobs[at] else [])
  }

  lemma {:induction false} AllPresentIff(r: Reg, key: DataKey, kind: string, n: nat)
    ensures |PresentFirst(r, key, kind, n)| == n <==> forall i :: 0 <= i < n ==> At(key, kind, i) in r.blobs
    decreases n
  {
    hide At;
    if n > 0 {
      AllPresentIff(r, key, kind, n - 1);
    }
  }

  /** A status lists exactly the stored chunks, and says complete exactly when the record is fully present. */
  lemma StatusIsExact(r: Reg, key: DataKey, digest: Digest)
    requires key in r.catalog && r.catalog[key].totalChunks >= 0
    ensures var rec, s := r.catalog[key], StatusOf(r, key, digest).1;
            && (s.complete <==> FullyPresent(r.blobs, key, rec))
            && forall i: nat :: i in s.present <==> i < rec.totalChunks && At(key, rec.kind, i) in r.blobs
  {
    AllPresentIff(r, key, r.catalog[key].kind, r.catalog[key].totalChunks);
    hide At;
    hide HashInput;
  }

  function StatusOf(r: Reg, key: DataKey, digest: Digest): (Reg, Status) {
    if key !in r.catalog then (r, Status(false, [], false, 0, None, None))
    else
      var rec := r.catalog[key];
      var n := Max(0, rec.totalChunks);
      var present := PresentFirst(r, key, rec.kind, n);
      if |present| != rec.totalChunks then (r, Status(true, present, false, rec.totalChunks, None, None))
      else
        var computed := digest(rec.algo, HashInput(r, key, rec.kind, n));
        var known := if key in r.hashes then r.hashes[key] else (computed, rec.declaredHash == Some(computed));
        (r.(hashes := r.hashes[key := known]),
         Status(true, present, true, rec.totalChunks, Some(known.0), Some(known.1)))
  }

  // ---- streams

  function OpenStream(r: Reg, key: DataKey, kind: string, chunkBytes: int): Reg {
    r.(streams := r.streams[key := Stream(kind, chunkBytes, 0, 0, [])])
  }

  function AppendChunk(r: Reg, key: DataKey, data: Bytes): (Reg, Result<nat, Error>) {
    if key !in r.streams then (r, Err(StreamNotOpen))
    else
      var s := r.streams[key];
      if s.kind !in r.kinds then (r, Err(UnknownKind))
      else
        (r.(blobs := r.blobs[At(key, s.kind, s.nextIndex) := data],
            streams := r.streams[key := s.(nextIndex := s.nextIndex + 1, totalSize := s.totalSize + |data|,
                                           fed := s.fed + data)]),
         Ok(s.nextIndex))
  }

  function FinalizeStream(r: Reg, key: DataKey, digest: Digest): (Reg, Result<Record, Error>) {
    if key !in r.streams then (r, Err(StreamFinalized))
    else
      var s := r.streams[key];
      var rec := Record(s.kind, s.totalSize, s.chunkBytes, s.nextIndex, Some(digest("sha256", s.fed)), "sha256");
      (SignalOnce(r.(streams := r.streams - {key}, catalog := r.catalog[key := rec],
                     log := r.log + [Registered(key)]), key),
       Ok(rec))
  }

  // ---- the registry object

  class Registry {
    const kinds: set<string>
    var catalog: map<DataKey, Record>
    var blobs: map<BlobKey, Bytes>
    var completed: set<DataKey>
    var hashes: map<DataKey, (string, bool)>
    var streams: map<DataKey, Stream>
    /** Everything emitted on the event bus so far. */
    var bus: seq<Event>

    ghost function View(): Reg
      reads this
    {
      Reg(kinds, catalog, blobs, completed, hashes, streams, bus)
    }

    constructor (kinds: set<string>)
      ensures View() == Reg(kinds, map[], map[], {}, map[], map[], [])
    {
      this.kinds := kinds;
      catalog, blobs, completed, hashes, streams, bus := map[], map[], {}, map[], map[], [];
    }

    method MarkCompleted(key: DataKey)
      modifies this`completed, this`bus
      ensures View() == SignalOnce(old(View()), key)
    {
      if key !in completed {
        completed := completed + {key};
        bus := bus + [Completed(key)];
      }
    }

    method RegisterData(key: DataKey, kind: string, totalSize: int, chunkBytes: int,
                        declaredHash: Option<string>, algo: string) returns (result: Result<Record, Error>)
      modifies this
      ensures (View(), result) == Register(old(View()), key, kind, totalSize, chunkBytes, declaredHash, algo)
    {
      if kind !in kinds {
        return Err(UnknownKind);
      }
      if totalSize > 0 && chunkBytes == 0 {
        return Err(ZeroDivision);
      }
      var rec := Record(kind, totalSize, chunkBytes, TotalChunks(totalSize, chunkBytes), declaredHash, algo);
      catalog := catalog[key := rec];
      bus := bus + [Registered(key)];
      if rec.totalChunks == 0 {
        MarkCompleted(key);
      }
      return Ok(rec);
    }

    method IsFullyPresent(key: DataKey, rec: Record) returns (full: bool)
      ensures full == FullyPresent(blobs, key, rec)
    {
      hide At;
      var i := 0;
      while i < rec.totalChunks
        invariant 0 <= i
        invariant forall j :: 0 <= j < i ==> At(key, rec.kind, j) in blobs
      {
        if At(key, rec.kind, i) !in blobs {
          return false;
        }
        i := i + 1;
      }
      return true;
    }

    method StoreOne(key: DataKey, index: int, data: Bytes) returns (result: Result<Record, Error>)
      modifies this
      ensures (View(), result) == StoreChunk(old(View()), key, index, data)
    {
      if key !in catalog {
        return Err(NotRegistered);
      }
      var rec := catalog[key];
      if index < 0 || index >= rec.totalChunks {
        return Err(IndexOutOfRange);
      }
      if rec.totalSize > 0 && rec.chunkBytes == 0 {
        return Err(ZeroDivision);
      }
      if |data| != ExpectedLen(rec.totalSize, rec.chunkBytes, index) {
        return Err(SizeMismatch);
      }
      blobs := blobs[At(key, rec.kind, index) := data];
      var full := IsFullyPresent(key, rec);
      if full {
        MarkCompleted(key);
      }
      return Ok(rec);
    }

    method DropChunks(key: DataKey, rec: Record)
      modifies this`blobs
      ensures blobs == old(blobs) - ChunkKeys(key, rec.kind, Max(0, rec.totalChunks))
    {
      hide At;
      var i: nat := 0;
      while i < rec.totalChunks
        invariant i <= Max(0, rec.totalChunks)
        invariant blobs == old(blobs) - ChunkKeys(key, rec.kind, i)
      {
        blobs := blobs - {At(key, rec.kind, i)};
        i := i + 1;
      }
    }

    method DeleteData(key: DataKey) returns (result: Result<(), Error>)
      modifies this
      ensures (View(), result) == Delete(old(View()), key)
    {
      if key !in catalog {
        return Err(NotRegistered);
      }
      hide ChunkKeys;
      DropChunks(key, catalog[key]);
      catalog := catalog - {key};
      completed := completed - {key};
      hashes := hashes - {key};
      bus := bus + [Deleted(key)];
      return Ok(());
    }

    method ReadAll(key: DataKey) returns (result: Result<Bytes, Error>)
      ensures result == ReadWhole(View(), key)
    {
      hide At;
      if key !in catalog {
        return Err(NotRegistered);
      }
      var rec := catalog[key];
      var parts: Bytes := [];
      var i: nat := 0;
      ghost var n := Max(0, rec.totalChunks);
      while i < rec.totalChunks
        invariant i <= n
        invariant ReadFirst(View(), key, i) == Ok(parts)
      {
        if At(key, rec.kind, i) !in blobs {
          ReadFails(View(), key, i + 1, n);
          return Err(ChunkMissing);
        }
        parts := parts + blobs[At(key, rec.kind, i)];
        i := i + 1;
      }
      return Ok(parts);
    }

    method QueryStatus(key: DataKey, digest: Digest) returns (s: Status)
      modifies this`hashes
      ensures (View(), s) == StatusOf(old(View()), key, digest)
    {
      hide At;
      if key !in catalog {
        return Status(false, [], false, 0, None, None);
      }
      var rec := catalog[key];
      var present: seq<nat> := [];
      var fed: Bytes := [];
      var i: nat := 0;
      while i < rec.totalChunks
        invariant i <= Max(0, rec.totalChunks)
        invariant present == PresentFirst(View(), key, rec.kind, i) && fed == HashInput(View(), key, rec.kind, i)
      {
        var at := At(key, rec.kind, i);
        if at in blobs {
          present := present + [i];
        }
        fed := fed + (if at in blobs then blobs[at] else []);
        i := i + 1;
      }
      if |present| != rec.totalChunks {
        return Status(true, present, false, rec.totalChunks, None, None);
      }
      if key !in hashes {
        var computed := digest(rec.algo, fed);
        hashes := hashes[key := (computed, rec.declaredHash == Some(computed))];
      }
      assert key in old(hashes) ==> old(hashes)[key := old(hashes)[key]] == old(hashes);
      return Status(true, present, true, rec.totalChunks, Some(hashes[key].0), Some(hashes[key].1));
    }

    method Open(key: DataKey, kind: string, chunkBytes: int)
      modifies this`streams
      ensures View() == OpenStream(old(View()), key, kind, chunkBytes)
    {
      streams := streams[key := Stream(kind, chunkBytes, 0, 0, [])];
    }

    method Append(key: DataKey, data: Bytes) returns (result: Result<nat, Error>)
      modifies this`blobs, this`streams
      ensures (View(), result) == AppendChunk(old(View()), key, data)
    {
      if key !in streams {
        return Err(StreamNotOpen);
      }
      var s := streams[key];
      if s.kind !in kinds {
        return Err(UnknownKind);
      }
      blobs := blobs[At(key, s.kind, s.nextIndex) := data];
      streams := streams[key := s.(nextIndex := s.nextIndex + 1, totalSize := s.totalSize + |data|, fed := s.fed + data)];
      return Ok(s.nextIndex);
    }

    method Finalize(key: DataKey, digest: Digest) returns (result: Result<Record, Error>)
      modifies this
      ensures (View(), result) == FinalizeStream(old(View()), key, digest)
    {
      if key !in streams {
        return Err(StreamFinalized);
      }
      var s := streams[key];
      streams := streams - {key};
      var rec := Record(s.kind, s.totalSize, s.chunkBytes, s.nextIndex, Some(digest("sha256", s.fed)), "sha256");
      catalog := catalog[key := rec];
      bus := bus + [Registered(key)];
      MarkCompleted(key);
      return Ok(rec);
    }
  }

  lemma {:induction false} ReadFails(r: Reg, key: DataKey, m: nat, n: nat)
    requires m <= n && ReadFirst(r, key, m).Err?
    ensures ReadFirst(r, key, n) == ReadFirst(r, key, m)
    decreases n
  {
    if m < n {
      ReadFails(r, key, m, n - 1);
    }
  }

  // ---- what each operation promises

  /** A registration is refused for an unknown kind or chunks of no bytes; otherwise only this key's record changes. */
  lemma RegistrationIs(r: Reg, key: DataKey, kind: string, totalSize: int, chunkBytes: int,
                       declaredHash: Option<string>, algo: string)
    ensures var (r', result) := Register(r, key, kind, totalSize, chunkBytes, declaredHash, algo);
            && (result == Err(UnknownKind) <==> kind !in r.kinds)
            && (result == Err(ZeroDivision) <==> kind in r.kinds && chunkBytes == 0 && totalSize > 0)
            && (result.Err? ==> r' == r && (result.error == UnknownKind || result.error == ZeroDivision))
            && (result.Ok? ==> key in r'.catalog && r'.catalog[key] == result.value && IsRecord(result.value, kind, totalSize,
                                                                                    chunkBytes, declaredHash, algo) &&
                               SameElsewhere(r, r', key) && r'.blobs == r.blobs && r'.hashes == r.hashes &&
                               r'.streams == r.streams)
  {
    if totalSize > 0 && chunkBytes > 0 {
      TotalChunksCovers(totalSize, chunkBytes);
    }
    hide Cyclic.FloorDiv;
  }

  /** The record asked for, with the least number of chunks that covers its bytes. */
  predicate IsRecord(rec: Record, kind: string, totalSize: int, chunkBytes: int, declaredHash: Option<string>, algo: string) {
    && rec.kind == kind && rec.totalSize == totalSize && rec.chunkBytes == chunkBytes
    && rec.declaredHash == declaredHash && rec.algo == algo
    && (totalSize <= 0 ==> rec.totalChunks == 0)
    && (totalSize > 0 && chunkBytes > 0 ==>
          (rec.totalChunks - 1) * chunkBytes < totalSize <= rec.totalChunks * chunkBytes)
  }

  /** Records, marks, cached hashes and streams of all other keys are the same. */
  ghost predicate SameElsewhere(r: Reg, r': Reg, key: DataKey) {
    && r'.kinds == r.kinds
    && forall k :: k != key ==>
         && (k in r'.catalog <==> k in r.catalog) && (k in r.catalog ==> r'.catalog[k] == r.catalog[k])
         && (k in r'.completed <==> k in r.completed)
         && (k in r'.hashes <==> k in r.hashes) && (k in r.hashes ==> r'.hashes[k] == r.hashes[k])
         && (k in r'.streams <==> k in r.streams) && (k in r.streams ==> r'.streams[k] == r.streams[k])
  }

  /** Every blob but one is the same. */
  ghost predicate SameBlobsBut(blobs: map<BlobKey, Bytes>, blobs': map<BlobKey, Bytes>, at: BlobKey) {
    forall b :: b != at ==> (b in blobs' <==> b in blobs) && (b in blobs ==> blobs'[b] == blobs[b])
  }

  /**
   * A chunk is stored exactly when its key is registered, its index in range and its length the
   * expected one; it is then read back, and nothing else changes but the completion mark. A refusal
   * names its reason and changes nothing.
   */
  lemma StoringIs(r: Reg, key: DataKey, index: int, data: Bytes)
    ensures var (r', result) := StoreChunk(r, key, index, data);
            && (result == Err(NotRegistered) <==> key !in r.catalog)
            && (result.Err? ==> r' == r)
            && (key in r.catalog ==>
                  var rec := r.catalog[key];
                  var inRange := 0 <= index < rec.totalChunks;
                  var divides := rec.totalSize <= 0 || rec.chunkBytes != 0;
                  && (result == Err(IndexOutOfRange) <==> !inRange)
                  && (result == Err(ZeroDivision) <==> inRange && !divides)
                  && (result == Err(SizeMismatch) <==>
                        inRange && divides && |data| != ExpectedLen(rec.totalSize, rec.chunkBytes, index))
                  && (result.Ok? <==>
                        inRange && divides && |data| == ExpectedLen(rec.totalSize, rec.chunkBytes, index))
                  && (result.Ok? ==>
                        result.value == rec && ReadChunk(r', key, index) == Ok(data) && SameElsewhere(r, r', key) &&
                        SameBlobsBut(r.blobs, r'.blobs, At(key, rec.kind, index)) &&
                        r'.catalog == r.catalog && r'.hashes == r.hashes && r'.streams == r.streams))
  {
    hide At;
    hide ExpectedLen;
    hide FullyPresent;
  }

  /** A deletion forgets everything about its key: record, mark, verdict and each of its chunks; nothing else. */
  lemma DeletionIs(r: Reg, key: DataKey)
    ensures var (r', result) := Delete(r, key);
            && (result.Ok? <==> key in r.catalog) && (result.Err? ==> r' == r && result.error == NotRegistered)
            && (result.Ok? ==>
                  var rec := r.catalog[key];
                  && key !in r'.catalog && key !in r'.completed && key !in r'.hashes
                  && SameElsewhere(r, r', key) && r'.streams == r.streams
                  && (forall i: nat :: i < rec.totalChunks ==> At(key, rec.kind, i) !in r'.blobs)
                  && (forall b :: b in r.blobs && (forall i: nat :: i < rec.totalChunks ==> b != At(key, rec.kind, i)) ==>
                        b in r'.blobs && r'.blobs[b] == r.blobs[b])
                  && r'.blobs.Keys <= r.blobs.Keys)
  {
    hide At;
  }

  /** The status of a key that is not registered, and of an upload with a chunk missing. */
  lemma IncompleteStatusIs(r: Reg, key: DataKey, digest: Digest)
    ensures var (r', s) := StatusOf(r, key, digest);
            && (s.registered <==> key in r.catalog)
            && (!s.complete ==> r' == r && s.computedHash.None? && s.verified.None?)
            && (key !in r.catalog ==> !s.complete && s.present == [] && s.totalChunks == 0)
            && (key in r.catalog ==> s.totalChunks == r.catalog[key].totalChunks)
  {
  }

  lemma {:induction false} HashedIsRead(r: Reg, key: DataKey, n: nat)
    requires key in r.catalog && ReadFirst(r, key, n).Ok?
    ensures ReadFirst(r, key, n) == Ok(HashInput(r, key, r.catalog[key].kind, n))
  {
    hide At;
    if n > 0 {
      HashedIsRead(r, key, n - 1);
    }
  }

  lemma {:induction false} StoredIsRead(r: Reg, key: DataKey, n: nat)
    requires key in r.catalog && forall i: nat :: i < n ==> At(key, r.catalog[key].kind, i) in r.blobs
    ensures ReadFirst(r, key, n).Ok?
  {
    hide At;
    if n > 0 {
      StoredIsRead(r, key, n - 1);
    }
  }

  /** Reading a whole record fails when it is not registered or a chunk is missing, and else joins all chunks. */
  lemma ReadingIs(r: Reg, key: DataKey)
    ensures var whole := ReadWhole(r, key);
            && (whole == Err(NotRegistered) <==> key !in r.catalog)
            && (whole == Err(ChunkMissing) <==> key in r.catalog && !FullyPresent(r.blobs, key, r.catalog[key]))
            && (whole.Ok? <==> key in r.catalog && FullyPresent(r.blobs, key, r.catalog[key]))
            && (whole.Ok? ==> whole.value == HashInput(r, key, r.catalog[key].kind, Max(0, r.catalog[key].totalChunks)))
  {
    if key in r.catalog {
      var n := Max(0, r.catalog[key].totalChunks);
      ReadsStored(r, key, n);
      if ReadFirst(r, key, n).Ok? {
        HashedIsRead(r, key, n);
      } else if FullyPresent(r.blobs, key, r.catalog[key]) {
        StoredIsRead(r, key, n);
      }
      hide ReadFirst;
      hide HashInput;
      hide At;
    }
  }

  lemma {:induction false} ReadsStored(r: Reg, key: DataKey, n: nat)
    requires key in r.catalog
    ensures var first := ReadFirst(r, key, n);
            && (first.Ok? ==> forall i: nat :: i < n ==> At(key, r.catalog[key].kind, i) in r.blobs)
            && (first.Err? ==> first.error == ChunkMissing)
  {
    hide At;
    if n > 0 {
      ReadsStored(r, key, n - 1);
    }
  }

  /**
   * The verdict on a complete upload, asked for the first time: verified exactly when the declared
   * hash is the digest, by the record's algorithm, of the bytes that reading it gives; a differing
   * or absent one is not verified.
   */
  lemma VerdictIs(r: Reg, key: DataKey, digest: Digest)
    requires key in r.catalog && r.catalog[key].totalChunks >= 0 && FullyPresent(r.blobs, key, r.catalog[key])
    ensures var (r', s) := StatusOf(r, key, digest);
            && s.complete && ReadWhole(r, key).Ok?
            && (key !in r.hashes ==>
                  var hash := digest(r.catalog[key].algo, ReadWhole(r, key).value);
                  s.computedHash == Some(hash) && s.verified == Some(r.catalog[key].declaredHash == Some(hash)))
            && r' == r.(hashes := r'.hashes) && SameElsewhere(r, r', key)
  {
    var rec := r.catalog[key];
    hide At;
    StoredIsRead(r, key, rec.totalChunks);
    HashedIsRead(r, key, rec.totalChunks);
    AllPresentIff(r, key, rec.kind, rec.totalChunks);
    hide PresentFirst;
    hide HashInput;
    hide ReadFirst;
  }

  /** Asked again, a status is the same, whatever the hasher would now say: the verdict is remembered. */
  lemma AskedAgainIsSame(r: Reg, key: DataKey, digest: Digest, again: Digest)
    ensures var (r', s) := StatusOf(r, key, digest); StatusOf(r', key, again) == (r', s)
  {
    if key in r.catalog {
      var rec := r.catalog[key];
      var r' := StatusOf(r, key, digest).0;
      SamePresent(r, r', key, rec.kind, Max(0, rec.totalChunks));
      hide At;
      hide PresentFirst;
      hide HashInput;
      assert r'.hashes != r.hashes ==> r'.hashes[key := r'.hashes[key]] == r'.hashes;
    }
  }

  lemma {:induction false} SamePresent(r: Reg, r': Reg, key: DataKey, kind: string, n: nat)
    requires r'.blobs == r.blobs
    ensures PresentFirst(r', key, kind, n) == PresentFirst(r, key, kind, n)
    decreases n
  {
    if n > 0 {
      SamePresent(r, r', key, kind, n - 1);
    }
  }

  /** An append fails, changing nothing, on a closed stream or an unknown kind; otherwise it stores the next chunk. */
  lemma AppendIs(r: Reg, key: DataKey, data: Bytes)
    ensures var (r', result) := AppendChunk(r, key, data);
            && (result == Err(StreamNotOpen) <==> key !in r.streams)
            && (result == Err(UnknownKind) <==> key in r.streams && r.streams[key].kind !in r.kinds)
            && (result.Err? ==> r' == r && (result.error == StreamNotOpen || result.error == UnknownKind))
            && (result.Ok? ==>
                  && result.value == r.streams[key].nextIndex && key in r'.streams
                  && r'.streams[key].nextIndex == result.value + 1
                  && At(key, r.streams[key].kind, result.value) in r'.blobs
                  && r'.blobs[At(key, r.streams[key].kind, result.value)] == data
                  && SameBlobsBut(r.blobs, r'.blobs, At(key, r.streams[key].kind, result.value))
                  && SameElsewhere(r, r', key) && r'.catalog == r.catalog && r'.completed == r.completed &&
                     r'.hashes == r.hashes && r'.log == r.log)
  {
    hide At;
  }

  /** A stream is finalized once: afterwards it is closed for appending and finalizing alike. */
  lemma FinalizingIs(r: Reg, key: DataKey, digest: Digest, more: Bytes)
    ensures var (r', result) := FinalizeStream(r, key, digest);
            && (result.Ok? <==> key in r.streams) && (result.Err? ==> r' == r && result.error == StreamFinalized)
            && FinalizeStream(r', key, digest).1 == Err(StreamFinalized)
            && AppendChunk(r', key, more).1 == Err(StreamNotOpen)
            && (result.Ok? ==> key in r'.catalog && r'.catalog[key] == result.value && key in r'.completed &&
                               r'.blobs == r.blobs && r'.hashes == r.hashes && SameElsewhere(r, r', key))
  {
  }

  /** Opening starts a stream over and touches nothing stored. */
  lemma OpeningIs(r: Reg, key: DataKey, kind: string, chunkBytes: int, first: Bytes)
    ensures var r' := OpenStream(r, key, kind, chunkBytes);
            && SameElsewhere(r, r', key) && r' == r.(streams := r'.streams)
            && (kind in r.kinds ==> AppendChunk(r', key, first).1 == Ok(0))
            && (kind !in r.kinds ==> AppendChunk(r', key, first).1 == Err(UnknownKind))
  {
    hide At;
  }
}
