/** What uploads, deletions and streams promise over whole runs of the data registry. */
module DataLifecycle {
  import opened Wrappers
  import opened Chunking
  import opened DataRegistry

  // ---- the completion signal

  datatype Phase = Absent | Pending | Done | Broken

  /** How a listener follows one key: registered, then at most once completed, then deleted. */
  function Hear(phase: Phase, e: Event): Phase {
    match e
    case Registered(_) => if phase == Absent then Pending else Broken
    case Completed(_) => if phase == Pending then Done else Broken
    case Deleted(_) => if phase == Pending || phase == Done then Absent else Broken
  }

  function PhaseOf(log: seq<Event>, key: DataKey): Phase {
    if log == [] then Absent
    else
      var before, last := PhaseOf(log[..|log| - 1], key), log[|log| - 1];
      if last.key == key then Hear(before, last) else before
  }

  /** What the registry itself knows about a key. */
  ghost function Actual(r: Reg, key: DataKey): Phase {
    if key !in r.catalog then Absent
    else if FullyPresent(r.blobs, key, r.catalog[key]) then Done
    else Pending
  }

  /** Log and completion mark say of a key what the registry holds. */
  ghost predicate Tracked(r: Reg, key: DataKey) {
    && (key in r.completed <==> Actual(r, key) == Done)
    && PhaseOf(r.log, key) == Actual(r, key)
  }

  ghost predicate Inv(r: Reg) {
    forall key :: Tracked(r, key)
  }

  lemma PhaseSnoc(log: seq<Event>, e: Event, key: DataKey)
    ensures PhaseOf(log + [e], key) == if e.key == key then Hear(PhaseOf(log, key), e) else PhaseOf(log, key)
  {
    assert (log + [e])[..|log|] == log;
  }

  /** Nothing about other keys changes when blobs and log change for one key only. */
  lemma OthersTracked(r: Reg, r': Reg, key: DataKey, other: DataKey)
    requires Tracked(r, other) && other != key
    requires other in r'.catalog <==> other in r.catalog
    requires other in r.catalog ==> r'.catalog[other] == r.catalog[other]
    requires other in r'.completed <==> other in r.completed
    requires PhaseOf(r'.log, other) == PhaseOf(r.log, other)
    requires forall kind, i: nat :: At(other, kind, i) in r'.blobs <==> At(other, kind, i) in r.blobs
    ensures Tracked(r', other)
  {
    hide At;
    hide PhaseOf;
    if other in r.catalog {
      assert FullyPresent(r'.blobs, other, r.catalog[other]) <==> FullyPresent(r.blobs, other, r.catalog[other]);
    }
  }

  lemma SignalPhases(r: Reg, key: DataKey, k: DataKey)
    ensures PhaseOf(SignalOnce(r, key).log, k) ==
            if k == key && key !in r.completed then Hear(PhaseOf(r.log, k), Completed(key)) else PhaseOf(r.log, k)
  {
    PhaseSnoc(r.log, Completed(key), k);
  }

  // ---- when each operation keeps log and marks right

  /** The record a registration writes. */
  function NewRecord(kind: string, totalSize: int, chunkBytes: int, declaredHash: Option<string>, algo: string): Record
    requires totalSize <= 0 || chunkBytes != 0
  {
    Record(kind, totalSize, chunkBytes, TotalChunks(totalSize, chunkBytes), declaredHash, algo)
  }

  /** Some chunk the record needs is not stored. */
  ghost predicate SomeMissing(blobs: map<BlobKey, Bytes>, key: DataKey, rec: Record) {
    exists i: nat :: i < rec.totalChunks && At(key, rec.kind, i) !in blobs
  }

  lemma PresentOrMissing(blobs: map<BlobKey, Bytes>, key: DataKey, rec: Record)
    ensures FullyPresent(blobs, key, rec) <==> !SomeMissing(blobs, key, rec)
  {
    hide At;
  }

  /**
   * From any state: a registration leaves the completion mark right exactly when it needs no
   * chunk, or finds all chunks it needs stored if the key was marked, and some missing if not.
   */
  lemma RegisterMarksIff(r: Reg, key: DataKey, kind: string, totalSize: int, chunkBytes: int,
                         declaredHash: Option<string>, algo: string)
    requires kind in r.kinds && (totalSize <= 0 || chunkBytes != 0)
    ensures var now := NewRecord(kind, totalSize, chunkBytes, declaredHash, algo);
            var r' := Register(r, key, kind, totalSize, chunkBytes, declaredHash, algo).0;
            (key in r'.completed <==> FullyPresent(r'.blobs, key, now)) <==>
            (now.totalChunks == 0 ||
             if key in r.completed then !SomeMissing(r.blobs, key, now) else SomeMissing(r.blobs, key, now))
  {
    PresentOrMissing(r.blobs, key, NewRecord(kind, totalSize, chunkBytes, declaredHash, algo));
    hide TotalChunks;
    hide At;
    hide SomeMissing;
  }

  /** Registering keeps log and marks right exactly when the key is absent and needs no chunk or finds one missing. */
  lemma RegisterKeepsInvIff(r: Reg, key: DataKey, kind: string, totalSize: int, chunkBytes: int,
                            declaredHash: Option<string>, algo: string)
    requires Inv(r) && kind in r.kinds && (totalSize <= 0 || chunkBytes != 0)
    ensures var now := NewRecord(kind, totalSize, chunkBytes, declaredHash, algo);
            Inv(Register(r, key, kind, totalSize, chunkBytes, declaredHash, algo).0) <==>
            key !in r.catalog && (now.totalChunks == 0 || SomeMissing(r.blobs, key, now))
  {
    RegisterMarksIff(r, key, kind, totalSize, chunkBytes, declaredHash, algo);
    hide TotalChunks;
    hide At;
    hide PhaseOf;
    hide FullyPresent;
    hide SomeMissing;
    var now := NewRecord(kind, totalSize, chunkBytes, declaredHash, algo);
    var r' := Register(r, key, kind, totalSize, chunkBytes, declaredHash, algo).0;
    var added := r.(catalog := r.catalog[key := now], log := r.log + [Registered(key)]);
    assert Tracked(r, key);
    forall k
      ensures k == key || Tracked(r', k)
      ensures PhaseOf(r'.log, k) ==
              if k == key && now.totalChunks == 0 && key !in r.completed
              then Hear(Hear(PhaseOf(r.log, k), Registered(key)), Completed(key))
              else if k == key then Hear(PhaseOf(r.log, k), Registered(key)) else PhaseOf(r.log, k)
    {
      assert Tracked(r, k);
      PhaseSnoc(r.log, Registered(key), k);
      SignalPhases(added, key, k);
      if k != key {
        OthersTracked(r, r', key, k);
      }
    }
    assert Tracked(r', key) <==> key !in r.catalog && (now.totalChunks == 0 || SomeMissing(r.blobs, key, now));
    hide Tracked;
  }

  lemma StoreOthers(r: Reg, key: DataKey, kind: string, index: nat, data: Bytes, other: DataKey, kind2: string, i: nat)
    requires other != key || i != index || kind != kind2
    ensures At(other, kind2, i) in r.blobs[At(key, kind, index) := data] <==> At(other, kind2, i) in r.blobs
  {
    AtInjective(key, kind, index, other, kind2, i);
    hide At;
  }

  lemma StoreKeepsInv(r: Reg, key: DataKey, index: int, data: Bytes)
    requires Inv(r)
    ensures Inv(StoreChunk(r, key, index, data).0)
  {
    assert Tracked(r, key);
    hide At;
    hide PhaseOf;
    hide TotalChunks;
    var (r', result) := StoreChunk(r, key, index, data);
    if result.Ok? {
      var rec := r.catalog[key];
      var put := r.(blobs := r.blobs[At(key, rec.kind, index) := data]);
      forall k
        ensures Tracked(r', k)
      {
        assert Tracked(r, k);
        SignalPhases(put, key, k);
        if k != key {
          forall kind, i: nat
            ensures At(k, kind, i) in r'.blobs <==> At(k, kind, i) in r.blobs
          {
            StoreOthers(r, key, rec.kind, index, data, k, kind, i);
          }
          OthersTracked(r, r', key, k);
        } else if FullyPresent(r.blobs, key, rec) {
          assert FullyPresent(put.blobs, key, rec);
        }
      }
    }
  }

  lemma DeleteOthers(r: Reg, key: DataKey, other: DataKey, kind: string, i: nat)
    requires key in r.catalog && other != key
    ensures At(other, kind, i) in Delete(r, key).0.blobs <==> At(other, kind, i) in r.blobs
  {
    var rec := r.catalog[key];
    var keys := ChunkKeys(key, rec.kind, Max(0, rec.totalChunks));
    if At(other, kind, i) in keys {
      var j :| 0 <= j < Max(0, rec.totalChunks) && At(other, kind, i) == At(key, rec.kind, j);
      AtInjective(key, rec.kind, j, other, kind, i);
    }
    hide At;
    hide ChunkKeys;
  }

  lemma DeleteKeepsInv(r: Reg, key: DataKey)
    requires Inv(r)
    ensures Inv(Delete(r, key).0)
  {
    if key in r.catalog {
      hide At;
      hide PhaseOf;
      hide ChunkKeys;
      var r' := Delete(r, key).0;
      forall k
        ensures Tracked(r', k)
      {
        assert Tracked(r, k);
        PhaseSnoc(r.log, Deleted(key), k);
        if k != key {
          forall kind, i: nat
            ensures At(k, kind, i) in r'.blobs <==> At(k, kind, i) in r.blobs
          {
            DeleteOthers(r, key, k, kind, i);
          }
          OthersTracked(r, r', key, k);
        }
      }
    }
  }

  /** An appended chunk may be the last one missing of a record registered under the same key: unsignalled. */
  ghost predicate AppendCompletes(r: Reg, key: DataKey, data: Bytes) {
    key in r.streams && r.streams[key].kind in r.kinds && key in r.catalog &&
    !FullyPresent(r.blobs, key, r.catalog[key]) &&
    FullyPresent(AppendChunk(r, key, data).0.blobs, key, r.catalog[key])
  }

  lemma AppendKeepsInvIff(r: Reg, key: DataKey, data: Bytes)
    requires Inv(r)
    ensures Inv(AppendChunk(r, key, data).0) <==> !AppendCompletes(r, key, data)
  {
    hide At;
    hide PhaseOf;
    var r' := AppendChunk(r, key, data).0;
    assert Tracked(r, key);
    if key in r.streams && r.streams[key].kind in r.kinds {
      var stream := r.streams[key];
      forall k | k != key
        ensures Tracked(r', k)
      {
        assert Tracked(r, k);
        forall kind, i: nat
          ensures At(k, kind, i) in r'.blobs <==> At(k, kind, i) in r.blobs
        {
          StoreOthers(r, key, stream.kind, stream.nextIndex, data, k, kind, i);
        }
        OthersTracked(r, r', key, k);
      }
      assert Tracked(r', key) <==> !AppendCompletes(r, key, data);
      hide Tracked;
    }
  }

  /** Everything the stream appended is still stored. */
  ghost predicate StreamWhole(r: Reg, key: DataKey)
    requires key in r.streams
  {
    forall i: nat :: i < r.streams[key].nextIndex ==> At(key, r.streams[key].kind, i) in r.blobs
  }

  lemma FinalizeKeepsInvIff(r: Reg, key: DataKey, digest: Digest)
    requires Inv(r) && key in r.streams
    ensures Inv(FinalizeStream(r, key, digest).0) <==> key !in r.catalog && StreamWhole(r, key)
  {
    hide At;
    hide PhaseOf;
    var r' := FinalizeStream(r, key, digest).0;
    var added := r.(streams := r'.streams, catalog := r'.catalog, log := r.log + [Registered(key)]);
    assert Tracked(r, key);
    forall k
      ensures k == key || Tracked(r', k)
      ensures PhaseOf(r'.log, k) ==
              if k == key && key !in r.completed then Hear(Hear(PhaseOf(r.log, k), Registered(key)), Completed(key))
              else if k == key then Hear(PhaseOf(r.log, k), Registered(key)) else PhaseOf(r.log, k)
    {
      assert Tracked(r, k);
      PhaseSnoc(r.log, Registered(key), k);
      SignalPhases(added, key, k);
      if k != key {
        OthersTracked(r, r', key, k);
      }
    }
    assert FullyPresent(r'.blobs, key, r'.catalog[key]) <==> StreamWhole(r, key);
    hide FullyPresent;
    hide StreamWhole;
    assert Tracked(r', key) <==> key !in r.catalog && StreamWhole(r, key);
    hide Tracked;
  }

  // ---- runs

  datatype Op =
    | RegisterOp(key: DataKey, kind: string, totalSize: int, chunkBytes: int, hash: Option<string>, algo: string)
    | StoreOp(key: DataKey, index: int, data: Bytes)
    | DeleteOp(key: DataKey)
    | OpenOp(key: DataKey, kind: string, chunkBytes: int)
    | AppendOp(key: DataKey, data: Bytes)
    | FinalizeOp(key: DataKey)

  predicate Refused(r: Reg, op: Op) {
    match op
    case RegisterOp(_, kind, totalSize, chunkBytes, _, _) => kind !in r.kinds || (totalSize > 0 && chunkBytes == 0)
    case FinalizeOp(key) => key !in r.streams
    case _ => false
  }

  /**
   * Only absent keys are registered, by a record that needs no chunk or finds one missing; an
   * appended chunk does not complete a registered record; and only an absent key's stream is
   * finalized, with everything it appended still stored.
   */
  ghost predicate Careful(r: Reg, op: Op) {
    Refused(r, op) ||
    match op
    case RegisterOp(key, kind, totalSize, chunkBytes, hash, algo) =>
      var now := NewRecord(kind, totalSize, chunkBytes, hash, algo);
      key !in r.catalog && (now.totalChunks == 0 || SomeMissing(r.blobs, key, now))
    case AppendOp(key, data) => !AppendCompletes(r, key, data)
    case FinalizeOp(key) => key !in r.catalog && StreamWhole(r, key)
    case _ => true
  }

  function Step(r: Reg, op: Op, digest: Digest): Reg {
    match op
    case RegisterOp(key, kind, totalSize, chunkBytes, hash, algo) =>
      Register(r, key, kind, totalSize, chunkBytes, hash, algo).0
    case StoreOp(key, index, data) => StoreChunk(r, key, index, data).0
    case DeleteOp(key) => Delete(r, key).0
    case OpenOp(key, kind, chunkBytes) => OpenStream(r, key, kind, chunkBytes)
    case AppendOp(key, data) => AppendChunk(r, key, data).0
    case FinalizeOp(key) => FinalizeStream(r, key, digest).0
  }

  /** Every operation keeps log and marks right exactly when it is careful. */
  lemma StepKeepsInvIff(r: Reg, op: Op, digest: Digest)
    requires Inv(r)
    ensures Inv(Step(r, op, digest)) <==> Careful(r, op)
  {
    match op
    case RegisterOp(key, kind, totalSize, chunkBytes, hash, algo) =>
      if !Refused(r, op) {
        RegisterKeepsInvIff(r, key, kind, totalSize, chunkBytes, hash, algo);
      }
      hide Inv;
    case StoreOp(key, index, data) => StoreKeepsInv(r, key, index, data); hide Inv;
    case DeleteOp(key) => DeleteKeepsInv(r, key); hide Inv;
    case OpenOp(key, kind, chunkBytes) =>
      hide At;
      assert forall k :: Tracked(r, k) ==> Tracked(OpenStream(r, key, kind, chunkBytes), k);
    case AppendOp(key, data) => AppendKeepsInvIff(r, key, data); hide Inv;
    case FinalizeOp(key) =>
      if !Refused(r, op) {
        FinalizeKeepsInvIff(r, key, digest);
      }
      hide Inv;
  }

  ghost predicate CarefulRun(r: Reg, ops: seq<Op>, digest: Digest)
    decreases |ops|
  {
    ops == [] || (Careful(r, ops[0]) && CarefulRun(Step(r, ops[0], digest), ops[1..], digest))
  }

  function Run(r: Reg, ops: seq<Op>, digest: Digest): Reg
    decreases |ops|
  {
    if ops == [] then r else Run(Step(r, ops[0], digest), ops[1..], digest)
  }

  function Fresh(kinds: set<string>): Reg {
    Reg(kinds, map[], map[], {}, map[], map[], [])
  }

  lemma {:induction false} RunKeepsInv(r: Reg, ops: seq<Op>, digest: Digest)
    requires Inv(r) && CarefulRun(r, ops, digest)
    ensures Inv(Run(r, ops, digest))
    decreases |ops|
  {
    hide Inv;
    hide Step;
    hide Careful;
    if ops != [] {
      StepKeepsInvIff(r, ops[0], digest);
      RunKeepsInv(Step(r, ops[0], digest), ops[1..], digest);
    }
  }

  /**
   * The events of every key tell its story exactly: after any careful run the log, read as
   * "registered, then at most once completed, then deleted", is well formed and ends in what
   * the registry holds. So an upload is signalled once per registration that becomes fully
   * present, on the step that makes it so.
   */
  lemma CompletionSignal(kinds: set<string>, ops: seq<Op>, digest: Digest, key: DataKey)
    requires CarefulRun(Fresh(kinds), ops, digest)
    ensures var r := Run(Fresh(kinds), ops, digest);
            PhaseOf(r.log, key) == Actual(r, key) && PhaseOf(r.log, key) != Broken
  {
    assert Inv(Fresh(kinds));
    RunKeepsInv(Fresh(kinds), ops, digest);
    assert Tracked(Run(Fresh(kinds), ops, digest), key);
    hide Run;
    hide PhaseOf;
  }

  // ---- without streams

  /** Every stored chunk belongs to a registered record. */
  ghost predicate NoOrphans(r: Reg) {
    forall key, kind, i: nat ::
      At(key, kind, i) in r.blobs ==>
        key in r.catalog && r.catalog[key].kind == kind && i < r.catalog[key].totalChunks
  }

  /** The chunk count is no negative number: it would be for a negative chunk size up to the data's own. */
  predicate Countable(totalSize: int, chunkBytes: int) {
    totalSize <= 0 || chunkBytes >= 0 || -chunkBytes > totalSize
  }

  lemma CountableIff(totalSize: int, chunkBytes: int)
    requires totalSize <= 0 || chunkBytes != 0
    ensures TotalChunks(totalSize, chunkBytes) >= 0 <==> Countable(totalSize, chunkBytes)
  {
    if totalSize > 0 && chunkBytes > 0 {
      TotalChunksCovers(totalSize, chunkBytes);
    } else if totalSize > 0 && chunkBytes < 0 {
      var q := totalSize / (-chunkBytes);
      assert totalSize == q * (-chunkBytes) + totalSize % (-chunkBytes);
      if q <= 0 {
        assert q * (-chunkBytes) <= 0;
      } else {
        assert q * (-chunkBytes) == (q - 1) * (-chunkBytes) + (-chunkBytes);
      }
    }
  }

  /** With no chunk left over, a new key may be registered exactly when its chunk count is not negative. */
  lemma AbsentKeyCarefulIff(r: Reg, op: Op)
    requires NoOrphans(r) && op.RegisterOp? && op.key !in r.catalog && !Refused(r, op)
    ensures Careful(r, op) <==> Countable(op.totalSize, op.chunkBytes)
  {
    CountableIff(op.totalSize, op.chunkBytes);
    hide TotalChunks;
    hide Countable;
    hide At;
    var now := NewRecord(op.kind, op.totalSize, op.chunkBytes, op.hash, op.algo);
    if now.totalChunks > 0 {
      assert At(op.key, op.kind, 0) !in r.blobs;
    }
  }

  lemma StoreKeepsOrphanFree(r: Reg, key: DataKey, index: nat, data: Bytes)
    requires NoOrphans(r) && key in r.catalog && index < r.catalog[key].totalChunks
    ensures NoOrphans(r.(blobs := r.blobs[At(key, r.catalog[key].kind, index) := data]))
  {
    var r' := r.(blobs := r.blobs[At(key, r.catalog[key].kind, index) := data]);
    forall k, kind, i: nat | At(k, kind, i) in r'.blobs
      ensures k in r.catalog && r.catalog[k].kind == kind && i < r.catalog[k].totalChunks
    {
      AtInjective(key, r.catalog[key].kind, index, k, kind, i);
      hide At;
    }
  }

  lemma DeleteClears(r: Reg, key: DataKey, kind: string, i: nat)
    requires NoOrphans(r) && key in r.catalog
    ensures At(key, kind, i) !in Delete(r, key).0.blobs
  {
    hide At;
    hide ChunkKeys;
    var rec := r.catalog[key];
    if At(key, kind, i) in r.blobs {
      assert At(key, rec.kind, i) in ChunkKeys(key, rec.kind, Max(0, rec.totalChunks));
    }
  }

  lemma DeleteKeepsOrphanFree(r: Reg, key: DataKey)
    requires NoOrphans(r) && key in r.catalog
    ensures NoOrphans(Delete(r, key).0)
  {
    hide At;
    hide ChunkKeys;
    forall k, kind, i: nat | At(k, kind, i) in Delete(r, key).0.blobs
      ensures k in Delete(r, key).0.catalog && r.catalog[k].kind == kind && i < r.catalog[k].totalChunks
    {
      if k == key {
        DeleteClears(r, key, kind, i);
      }
    }
  }

  /** Careful registrations, stored chunks and deletions leave no orphan chunk. */
  lemma StepKeepsOrphanFree(r: Reg, op: Op, digest: Digest)
    requires NoOrphans(r) && Careful(r, op) && (op.RegisterOp? || op.StoreOp? || op.DeleteOp?)
    ensures NoOrphans(Step(r, op, digest))
  {
    hide At;
    hide TotalChunks;
    hide ChunkKeys;
    match op
    case RegisterOp(key, kind, totalSize, chunkBytes, hash, algo) =>
    case StoreOp(key, index, data) =>
      if StoreChunk(r, key, index, data).1.Ok? {
        StoreKeepsOrphanFree(r, key, index, data);
      }
    case DeleteOp(key) =>
      if key in r.catalog {
        DeleteKeepsOrphanFree(r, key);
        hide NoOrphans;
      }
  }

  // ---- what registering again does

  /**
   * Old chunks count as the new record's. After registering a present key again, its completion
   * mark still says whether it is fully present exactly when the new record needs no chunk; or,
   * if the old upload was complete, is of the same kind and needs no more chunks than the old;
   * or, if it was not, finds some chunk it needs still missing.
   */
  lemma ReRegisterMarksIff(r: Reg, key: DataKey, kind: string, totalSize: int, chunkBytes: int,
                           declaredHash: Option<string>, algo: string)
    requires Inv(r) && NoOrphans(r) && key in r.catalog && kind in r.kinds
    requires (totalSize <= 0 || chunkBytes != 0) && Countable(totalSize, chunkBytes)
    ensures var was, now := r.catalog[key], NewRecord(kind, totalSize, chunkBytes, declaredHash, algo);
            var r' := Register(r, key, kind, totalSize, chunkBytes, declaredHash, algo).0;
            (key in r'.completed <==> FullyPresent(r'.blobs, key, now)) <==>
            (now.totalChunks == 0 ||
             if key in r.completed then kind == was.kind && now.totalChunks <= Max(0, was.totalChunks)
             else kind != was.kind || SomeMissing(r.blobs, key, now))
  {
    CountableIff(totalSize, chunkBytes);
    RegisterMarksIff(r, key, kind, totalSize, chunkBytes, declaredHash, algo);
    assert Tracked(r, key);
    hide TotalChunks;
    hide At;
    hide PhaseOf;
    hide Register;
    hide Countable;
    var was, now := r.catalog[key], NewRecord(kind, totalSize, chunkBytes, declaredHash, algo);
    if now.totalChunks > 0 {
      if kind != was.kind {
        assert At(key, kind, 0) !in r.blobs;
      } else if key in r.completed && now.totalChunks > Max(0, was.totalChunks) {
        assert At(key, kind, Max(0, was.totalChunks)) !in r.blobs;
      }
    }
  }

  /**
   * No chunk is orphaned by it exactly when every chunk stored so far is one the new record names;
   * over a complete upload, when there were none, or the kind is the same and there are no fewer.
   */
  lemma ReRegisterOrphansIff(r: Reg, key: DataKey, kind: string, totalSize: int, chunkBytes: int,
                             declaredHash: Option<string>, algo: string)
    requires Inv(r) && NoOrphans(r) && key in r.catalog && kind in r.kinds
    requires (totalSize <= 0 || chunkBytes != 0) && Countable(totalSize, chunkBytes)
    ensures var was, now := r.catalog[key], NewRecord(kind, totalSize, chunkBytes, declaredHash, algo);
            NoOrphans(Register(r, key, kind, totalSize, chunkBytes, declaredHash, algo).0) <==>
            if key in r.completed then was.totalChunks <= 0 || (kind == was.kind && was.totalChunks <= now.totalChunks)
            else forall i: nat :: At(key, was.kind, i) in r.blobs ==> kind == was.kind && i < now.totalChunks
  {
    assert Tracked(r, key);
    hide TotalChunks;
    hide At;
    hide PhaseOf;
    var was, now := r.catalog[key], NewRecord(kind, totalSize, chunkBytes, declaredHash, algo);
    var r' := Register(r, key, kind, totalSize, chunkBytes, declaredHash, algo).0;
    assert r'.blobs == r.blobs && r'.catalog == r.catalog[key := now];
    hide Register;
    if forall i: nat :: At(key, was.kind, i) in r.blobs ==> kind == was.kind && i < now.totalChunks {
      assert NoOrphans(r');
    }
    if key in r.completed && was.totalChunks > 0 {
      assert At(key, was.kind, was.totalChunks - 1) in r.blobs && At(key, was.kind, 0) in r.blobs;
    }
  }

  // ---- uploading in any order

  /** Of the n chunks of `data`, those in `seen` have their own slice, and the others are as in `base`. */
  ghost predicate Holds(r: Reg, base: map<BlobKey, Bytes>, key: DataKey, kind: string, data: Bytes, chunkBytes: int,
                        seen: set<int>)
    requires chunkBytes > 0
  {
    forall i: nat :: i < TotalChunks(|data|, chunkBytes) ==>
      (At(key, kind, i) in r.blobs <==> i in seen || At(key, kind, i) in base) &&
      (i in seen ==> r.blobs[At(key, kind, i)] == Slice(data, chunkBytes, i))
  }

  /** The record that a registration of `data` writes. */
  ghost predicate Registers(r: Reg, key: DataKey, kind: string, data: Bytes, chunkBytes: int)
    requires chunkBytes > 0
  {
    && key in r.catalog && r.catalog[key].kind == kind && r.catalog[key].totalSize == |data|
    && r.catalog[key].chunkBytes == chunkBytes && r.catalog[key].totalChunks == TotalChunks(|data|, chunkBytes)
  }

  ghost predicate Uploading(r: Reg, base: map<BlobKey, Bytes>, key: DataKey, kind: string, data: Bytes,
                            chunkBytes: int, seen: set<int>) {
    chunkBytes > 0 && Registers(r, key, kind, data, chunkBytes) && Holds(r, base, key, kind, data, chunkBytes, seen)
  }

  lemma StoreSlice(r: Reg, base: map<BlobKey, Bytes>, key: DataKey, kind: string, data: Bytes, chunkBytes: int,
                   seen: set<int>, index: nat)
    requires Uploading(r, base, key, kind, data, chunkBytes, seen) && index < TotalChunks(|data|, chunkBytes)
    ensures var (r', result) := StoreChunk(r, key, index, Slice(data, chunkBytes, index));
            result.Ok? && Uploading(r', base, key, kind, data, chunkBytes, seen + {index})
  {
    SliceIsExpected(data, chunkBytes, index);
    hide Slice;
    hide TotalChunks;
    hide ExpectedLen;
    var r' := StoreChunk(r, key, index, Slice(data, chunkBytes, index)).0;
    forall i: nat | i < TotalChunks(|data|, chunkBytes)
      ensures At(key, kind, i) in r'.blobs <==> i in seen + {index} || At(key, kind, i) in base
      ensures i in seen + {index} ==> r'.blobs[At(key, kind, i)] == Slice(data, chunkBytes, i)
    {
      AtInjective(key, kind, index, key, kind, i);
      hide At;
    }
    hide At;
    hide FullyPresent;
  }

  /** Stores the slices of `data` in the given order. */
  ghost function StoreAll(r: Reg, key: DataKey, data: Bytes, chunkBytes: int, order: seq<nat>): (r': Reg)
    requires chunkBytes > 0
    ensures r'.catalog == r.catalog && r'.kinds == r.kinds
    decreases |order|
  {
    if order == [] then r
    else
      var n := |order| - 1;
      var before := StoreAll(r, key, data, chunkBytes, order[..n]);
      StoreChunk(before, key, order[n], Slice(data, chunkBytes, order[n])).0
  }

  function Indices(order: seq<nat>): set<int> {
    set i | i in order
  }

  lemma {:induction false} StoreAllHolds(
      r: Reg, base: map<BlobKey, Bytes>, key: DataKey, kind: string, data: Bytes, chunkBytes: int, seen: set<int>,
      order: seq<nat>)
    requires Uploading(r, base, key, kind, data, chunkBytes, seen)
    requires forall j :: 0 <= j < |order| ==> order[j] < TotalChunks(|data|, chunkBytes)
    ensures Uploading(StoreAll(r, key, data, chunkBytes, order), base, key, kind, data, chunkBytes,
                      seen + Indices(order))
    decreases |order|
  {
    hide Holds;
    hide Registers;
    hide TotalChunks;
    hide Slice;
    if order == [] {
      assert seen + Indices(order) == seen;
    } else {
      var n := |order| - 1;
      StoreAllHolds(r, base, key, kind, data, chunkBytes, seen, order[..n]);
      var before := StoreAll(r, key, data, chunkBytes, order[..n]);
      var soFar := seen + Indices(order[..n]);
      StoreSlice(before, base, key, kind, data, chunkBytes, soFar, order[n]);
      assert order == order[..n] + [order[n]];
      assert seen + Indices(order) == soFar + {order[n]};
      hide StoreChunk;
    }
  }

  lemma {:induction false} ReadHeld(
      r: Reg, base: map<BlobKey, Bytes>, key: DataKey, kind: string, data: Bytes, chunkBytes: int, seen: set<int>, n: nat)
    requires Uploading(r, base, key, kind, data, chunkBytes, seen) && n <= TotalChunks(|data|, chunkBytes)
    requires forall i :: 0 <= i < n ==> i in seen
    ensures ReadFirst(r, key, n) == Ok(Join(Slices(data, chunkBytes, n)))
    decreases n
  {
    hide At;
    hide Slice;
    hide TotalChunks;
    if n > 0 {
      ReadHeld(r, base, key, kind, data, chunkBytes, seen, n - 1);
      assert At(key, kind, n - 1) in r.blobs;
      var parts := Slices(data, chunkBytes, n);
      assert parts[..n - 1] == Slices(data, chunkBytes, n - 1);
    }
  }

  lemma {:induction false} ReadPresent(r: Reg, key: DataKey, n: nat)
    requires key in r.catalog && forall j: nat :: j < n ==> At(key, r.catalog[key].kind, j) in r.blobs
    ensures ReadFirst(r, key, n).Ok?
    decreases n
  {
    hide At;
    if n > 0 {
      ReadPresent(r, key, n - 1);
    }
  }

  lemma {:induction false} ReadMissing(r: Reg, key: DataKey, n: nat, i: nat)
    requires key in r.catalog && i < n && At(key, r.catalog[key].kind, i) !in r.blobs
    ensures ReadFirst(r, key, n) == Err(ChunkMissing)
    decreases n
  {
    hide At;
    if j: nat :| j < n - 1 && At(key, r.catalog[key].kind, j) !in r.blobs {
      ReadMissing(r, key, n - 1, j);
    } else {
      ReadPresent(r, key, n - 1);
    }
  }

  lemma StartUpload(r: Reg, key: DataKey, kind: string, data: Bytes, chunkBytes: int,
                    declaredHash: Option<string>, algo: string)
    requires kind in r.kinds && chunkBytes > 0
    ensures Uploading(Register(r, key, kind, |data|, chunkBytes, declaredHash, algo).0,
                      r.blobs, key, kind, data, chunkBytes, {})
  {
    hide At;
    hide TotalChunks;
    hide Slice;
  }

  /** An upload is fully present when every index was stored or left over; all stored, it reads back as the data. */
  lemma HeldReads(r: Reg, base: map<BlobKey, Bytes>, key: DataKey, kind: string, data: Bytes, chunkBytes: int,
                  seen: set<int>)
    requires Uploading(r, base, key, kind, data, chunkBytes, seen)
    ensures var n := TotalChunks(|data|, chunkBytes);
            var full := forall i: nat :: i < n ==> i in seen || At(key, kind, i) in base;
            && (FullyPresent(r.blobs, key, r.catalog[key]) <==> full)
            && ((forall i :: 0 <= i < n ==> i in seen) ==> ReadWhole(r, key) == Ok(data))
            && (ReadWhole(r, key) == Err(ChunkMissing) <==> !full)
  {
    JoinSlices(data, chunkBytes);
    hide TotalChunks;
    hide At;
    hide Slice;
    hide Join;
    hide ReadFirst;
    var n := TotalChunks(|data|, chunkBytes);
    if forall i :: 0 <= i < n ==> i in seen {
      ReadHeld(r, base, key, kind, data, chunkBytes, seen, n);
    }
    if i: nat :| i < n && i !in seen && At(key, kind, i) !in base {
      assert At(key, kind, i) !in r.blobs;
      ReadMissing(r, key, n, i);
    } else {
      assert forall i: nat :: i < n ==> At(key, kind, i) in r.blobs;
      ReadPresent(r, key, n);
    }
  }

  /**
   * Chunk round trip, from any state: storing slices of any data in any order, with repeats, is
   * complete exactly when every index has been stored or was left over from before; once all are
   * stored, reading returns the original bytes, and it fails exactly while some index is neither.
   */
  lemma UploadRoundTrip(r: Reg, key: DataKey, kind: string, data: Bytes, chunkBytes: int,
                        declaredHash: Option<string>, algo: string, order: seq<nat>)
    requires kind in r.kinds && chunkBytes > 0
    requires forall j :: 0 <= j < |order| ==> order[j] < TotalChunks(|data|, chunkBytes)
    ensures var start := Register(r, key, kind, |data|, chunkBytes, declaredHash, algo).0;
            var end := StoreAll(start, key, data, chunkBytes, order);
            var n := TotalChunks(|data|, chunkBytes);
            var full := forall i: nat :: i < n ==> i in order || At(key, kind, i) in r.blobs;
            && key in end.catalog
            && (FullyPresent(end.blobs, key, end.catalog[key]) <==> full)
            && ((forall i :: 0 <= i < n ==> i in order) ==> ReadWhole(end, key) == Ok(data))
            && (ReadWhole(end, key) == Err(ChunkMissing) <==> !full)
  {
    var start := Register(r, key, kind, |data|, chunkBytes, declaredHash, algo).0;
    StartUpload(r, key, kind, data, chunkBytes, declaredHash, algo);
    hide Register;
    StoreAllHolds(start, r.blobs, key, kind, data, chunkBytes, {}, order);
    var end := StoreAll(start, key, data, chunkBytes, order);
    var seen := {} + Indices(order);
    hide StoreAll;
    HeldReads(end, r.blobs, key, kind, data, chunkBytes, seen);
    assert key in end.catalog;
    hide TotalChunks;
    hide FullyPresent;
    hide ReadWhole;
    hide Holds;
    hide Registers;
    hide At;
    assert forall i :: i in seen <==> i in order;
  }

  /**
   * A stream given up before it is finalized leaves its chunks: a registration of that size is
   * complete at once, never signalled, and reads the stream's bytes back.
   */
  lemma AbandonedStreamIsRead(kinds: set<string>, key: DataKey, kind: string, data: Bytes, algo: string)
    requires kind in kinds && data != []
    ensures var fed := AppendChunk(OpenStream(Fresh(kinds), key, kind, |data|), key, data).0;
            var r := Register(fed, key, kind, |data|, |data|, None, algo).0;
            && key !in fed.catalog && key in r.catalog
            && FullyPresent(r.blobs, key, r.catalog[key]) && ReadWhole(r, key) == Ok(data) && Signals(r.log, key) == 0
  {
    var fed := AppendChunk(OpenStream(Fresh(kinds), key, kind, |data|), key, data).0;
    assert fed.blobs == map[At(key, kind, 0) := data];
    var r := Register(fed, key, kind, |data|, |data|, None, algo).0;
    TotalChunksUnique(|data|, |data|, 1);
    hide TotalChunks;
    hide At;
    assert r.catalog[key].totalChunks == 1 && r.log == [] + [Registered(key)];
    SignalsSnoc([], Registered(key), key);
    assert ReadFirst(r, key, 0) == Ok([]) && [] + data == data;
  }

  // ---- the signal of an upload

  /** How often completion of a key has been signalled. */
  function Signals(log: seq<Event>, key: DataKey): nat {
    if log == [] then 0
    else Signals(log[..|log| - 1], key) + (if log[|log| - 1] == Completed(key) then 1 else 0)
  }

  lemma SignalsSnoc(log: seq<Event>, e: Event, key: DataKey)
    ensures Signals(log + [e], key) == Signals(log, key) + (if e == Completed(key) then 1 else 0)
  {
    assert (log + [e])[..|log|] == log;
  }

  /** A negative chunk size that counts below zero: fully present from the start, and no signal. */
  lemma NegativeChunkSizeIsSilent(kinds: set<string>, key: DataKey, kind: string, algo: string)
    requires kind in kinds
    ensures var r := Register(Fresh(kinds), key, kind, 1, -1, None, algo).0;
            key in r.catalog && FullyPresent(r.blobs, key, r.catalog[key]) && Signals(r.log, key) == 0
  {
    assert TotalChunks(1, -1) == -1;
    SignalsSnoc([], Registered(key), key);
    assert [] + [Registered(key)] == [Registered(key)];
    hide At;
  }

  /** From one state to a later one, a key was signalled exactly if it became marked completed. */
  ghost predicate SignalledOnce(r: Reg, r': Reg, key: DataKey) {
    && (key in r.completed ==> key in r'.completed)
    && Signals(r'.log, key) == Signals(r.log, key) + (if key in r'.completed && key !in r.completed then 1 else 0)
  }

  lemma StoreSignals(r: Reg, key: DataKey, index: int, data: Bytes)
    ensures SignalledOnce(r, StoreChunk(r, key, index, data).0, key)
  {
    SignalsSnoc(r.log, Completed(key), key);
    hide Signals;
    hide At;
    hide ExpectedLen;
  }

  lemma RegisterSignals(r: Reg, key: DataKey, kind: string, totalSize: int, chunkBytes: int,
                        declaredHash: Option<string>, algo: string)
    ensures SignalledOnce(r, Register(r, key, kind, totalSize, chunkBytes, declaredHash, algo).0, key)
  {
    SignalsSnoc(r.log, Registered(key), key);
    SignalsSnoc(r.log + [Registered(key)], Completed(key), key);
    hide Signals;
    hide TotalChunks;
  }

  /** What storing slices leaves, whatever chunks were there before. */
  lemma {:induction false} StoreAllSignals(
      r: Reg, key: DataKey, kind: string, data: Bytes, chunkBytes: int, order: seq<nat>)
    requires chunkBytes > 0 && Registers(r, key, kind, data, chunkBytes)
    requires forall j :: 0 <= j < |order| ==> order[j] < TotalChunks(|data|, chunkBytes)
    ensures var end := StoreAll(r, key, data, chunkBytes, order);
            && SignalledOnce(r, end, key)
            && (forall i :: i in order ==> At(key, kind, i) in end.blobs)
            && (order != [] && FullyPresent(end.blobs, key, r.catalog[key]) ==> key in end.completed)
    decreases |order|
  {
    hide TotalChunks;
    hide Slice;
    hide At;
    hide ExpectedLen;
    hide Signals;
    if order != [] {
      var n := |order| - 1;
      StoreAllSignals(r, key, kind, data, chunkBytes, order[..n]);
      var before := StoreAll(r, key, data, chunkBytes, order[..n]);
      SliceIsExpected(data, chunkBytes, order[n]);
      StoreSignals(before, key, order[n], Slice(data, chunkBytes, order[n]));
      hide FullyPresent;
    }
  }

  /**
   * A registration followed by a full upload is signalled exactly once if the key was not yet
   * marked completed, and never if it was - whatever the registry held before.
   */
  lemma FullUploadSignals(r: Reg, key: DataKey, kind: string, data: Bytes, chunkBytes: int,
                          declaredHash: Option<string>, algo: string, order: seq<nat>)
    requires kind in r.kinds && chunkBytes > 0
    requires forall j :: 0 <= j < |order| ==> order[j] < TotalChunks(|data|, chunkBytes)
    requires forall i :: 0 <= i < TotalChunks(|data|, chunkBytes) ==> i in order
    ensures var start := Register(r, key, kind, |data|, chunkBytes, declaredHash, algo).0;
            var end := StoreAll(start, key, data, chunkBytes, order);
            Signals(end.log, key) == Signals(r.log, key) + (if key in r.completed then 0 else 1)
  {
    hide Signals;
    hide At;
    var start := Register(r, key, kind, |data|, chunkBytes, declaredHash, algo).0;
    RegisterSignals(r, key, kind, |data|, chunkBytes, declaredHash, algo);
    CountableIff(|data|, chunkBytes);
    hide TotalChunks;
    assert Registers(start, key, kind, data, chunkBytes);
    assert TotalChunks(|data|, chunkBytes) == 0 ==> key in start.completed;
    hide Register;
    StoreAllSignals(start, key, kind, data, chunkBytes, order);
    UploadEnds(start, key, kind, data, chunkBytes, order);
    hide StoreAll;
    hide FullyPresent;
    hide Registers;
  }

  lemma UploadEnds(r: Reg, key: DataKey, kind: string, data: Bytes, chunkBytes: int, order: seq<nat>)
    requires chunkBytes > 0 && Registers(r, key, kind, data, chunkBytes)
    requires forall j :: 0 <= j < |order| ==> order[j] < TotalChunks(|data|, chunkBytes)
    requires forall i :: 0 <= i < TotalChunks(|data|, chunkBytes) ==> i in order
    requires TotalChunks(|data|, chunkBytes) == 0 ==> key in r.completed
    ensures key in StoreAll(r, key, data, chunkBytes, order).completed
  {
    hide At;
    hide Signals;
    CountableIff(|data|, chunkBytes);
    hide TotalChunks;
    StoreAllSignals(r, key, kind, data, chunkBytes, order);
    var end := StoreAll(r, key, data, chunkBytes, order);
    hide StoreAll;
    assert TotalChunks(|data|, chunkBytes) > 0 ==> 0 in order;
    if order != [] {
      assert FullyPresent(end.blobs, key, r.catalog[key]);
    }
  }

  /**
   * Registering again over a complete upload: the old bytes are read back as the new data at once,
   * and the full second upload is never signalled.
   */
  lemma SecondUploadIsSilent(kinds: set<string>, key: DataKey, kind: string, first: Bytes, second: Bytes,
                             chunkBytes: int, algo: string, order: seq<nat>)
    requires kind in kinds && chunkBytes > 0 && |first| == |second|
    requires forall j :: 0 <= j < |order| ==> order[j] < TotalChunks(|first|, chunkBytes)
    requires forall i :: 0 <= i < TotalChunks(|first|, chunkBytes) ==> i in order
    ensures var started := Register(Fresh(kinds), key, kind, |first|, chunkBytes, None, algo).0;
            var uploaded := StoreAll(started, key, first, chunkBytes, order);
            var again := Register(uploaded, key, kind, |second|, chunkBytes, None, algo).0;
            var end := StoreAll(again, key, second, chunkBytes, order);
            && ReadWhole(again, key) == Ok(first)
            && Signals(uploaded.log, key) == 1 && Signals(end.log, key) == 1
  {
    hide TotalChunks;
    hide StoreAll;
    hide Uploading;
    hide ReadWhole;
    hide Register;
    hide Signals;
    var started := Register(Fresh(kinds), key, kind, |first|, chunkBytes, None, algo).0;
    var uploaded := StoreAll(started, key, first, chunkBytes, order);
    FirstUpload(kinds, key, kind, first, chunkBytes, algo, order);
    FullUploadSignals(uploaded, key, kind, second, chunkBytes, None, algo, order);
    UploadedReadsBack(uploaded, key, kind, first, chunkBytes, {} + Indices(order), algo);
  }

  lemma FirstUpload(kinds: set<string>, key: DataKey, kind: string, data: Bytes, chunkBytes: int, algo: string,
                    order: seq<nat>)
    requires kind in kinds && chunkBytes > 0
    requires forall j :: 0 <= j < |order| ==> order[j] < TotalChunks(|data|, chunkBytes)
    requires forall i :: 0 <= i < TotalChunks(|data|, chunkBytes) ==> i in order
    ensures var started := Register(Fresh(kinds), key, kind, |data|, chunkBytes, None, algo).0;
            var uploaded := StoreAll(started, key, data, chunkBytes, order);
            && Signals(uploaded.log, key) == 1 && key in uploaded.completed && uploaded.kinds == kinds
            && Uploading(uploaded, map[], key, kind, data, chunkBytes, {} + Indices(order))
  {
    var started := Register(Fresh(kinds), key, kind, |data|, chunkBytes, None, algo).0;
    StartUpload(Fresh(kinds), key, kind, data, chunkBytes, None, algo);
    assert started.kinds == kinds;
    FullUploadSignals(Fresh(kinds), key, kind, data, chunkBytes, None, algo, order);
    RegisterSignals(Fresh(kinds), key, kind, |data|, chunkBytes, None, algo);
    hide Register;
    hide TotalChunks;
    StoreAllHolds(started, map[], key, kind, data, chunkBytes, {}, order);
    StoreAllSignals(started, key, kind, data, chunkBytes, order);
    hide StoreAll;
    hide Holds;
    hide FullyPresent;
    hide At;
  }

  /** Registering the same size again changes no chunk, so the old bytes are what is read. */
  lemma UploadedReadsBack(r: Reg, key: DataKey, kind: string, data: Bytes, chunkBytes: int, seen: set<int>, algo: string)
    requires Uploading(r, map[], key, kind, data, chunkBytes, seen) && kind in r.kinds
    requires forall i :: 0 <= i < TotalChunks(|data|, chunkBytes) ==> i in seen
    ensures ReadWhole(Register(r, key, kind, |data|, chunkBytes, None, algo).0, key) == Ok(data)
  {
    hide At;
    hide Slice;
    hide TotalChunks;
    hide ReadWhole;
    var again := Register(r, key, kind, |data|, chunkBytes, None, algo).0;
    assert Uploading(again, map[], key, kind, data, chunkBytes, seen);
    HeldReads(again, map[], key, kind, data, chunkBytes, seen);
  }

  // ---- streams

  /** A stream that has been fed these chunks. */
  ghost predicate Streaming(r: Reg, key: DataKey, kind: string, chunkBytes: int, chunks: seq<Bytes>) {
    && key in r.streams && kind in r.kinds
    && r.streams[key] == Stream(kind, chunkBytes, |chunks|, |Join(chunks)|, Join(chunks))
    && (forall i: nat :: i < |chunks| ==> At(key, kind, i) in r.blobs && r.blobs[At(key, kind, i)] == chunks[i])
  }

  lemma AppendStreams(r: Reg, key: DataKey, kind: string, chunkBytes: int, chunks: seq<Bytes>, data: Bytes)
    requires Streaming(r, key, kind, chunkBytes, chunks)
    ensures var (r', result) := AppendChunk(r, key, data);
            result == Ok(|chunks|) && Streaming(r', key, kind, chunkBytes, chunks + [data])
  {
    assert (chunks + [data])[..|chunks|] == chunks;
    assert Join(chunks + [data]) == Join(chunks) + data;
    hide Join;
    var r' := AppendChunk(r, key, data).0;
    forall i: nat | i < |chunks| + 1
      ensures At(key, kind, i) in r'.blobs && r'.blobs[At(key, kind, i)] == (chunks + [data])[i]
    {
      AtInjective(key, kind, |chunks|, key, kind, i);
      hide At;
    }
    hide At;
  }

  ghost function AppendAll(r: Reg, key: DataKey, chunks: seq<Bytes>): Reg {
    if chunks == [] then r
    else AppendChunk(AppendAll(r, key, chunks[..|chunks| - 1]), key, chunks[|chunks| - 1]).0
  }

  lemma {:induction false} AppendAllStreams(r: Reg, key: DataKey, kind: string, chunkBytes: int, chunks: seq<Bytes>)
    requires Streaming(r, key, kind, chunkBytes, [])
    ensures Streaming(AppendAll(r, key, chunks), key, kind, chunkBytes, chunks)
    ensures AppendAll(r, key, chunks).hashes == r.hashes
    decreases |chunks|
  {
    hide Streaming;
    if chunks != [] {
      var n := |chunks| - 1;
      AppendAllStreams(r, key, kind, chunkBytes, chunks[..n]);
      AppendStreams(AppendAll(r, key, chunks[..n]), key, kind, chunkBytes, chunks[..n], chunks[n]);
      assert chunks[..n] + [chunks[n]] == chunks;
    }
  }

  /** A finalized stream's record and blobs. */
  ghost predicate Written(r: Reg, key: DataKey, kind: string, chunks: seq<Bytes>) {
    && key in r.catalog && r.catalog[key].kind == kind && r.catalog[key].totalChunks == |chunks|
    && (forall i: nat :: i < |chunks| ==> At(key, kind, i) in r.blobs && r.blobs[At(key, kind, i)] == chunks[i])
  }

  lemma {:induction false} ReadWritten(r: Reg, key: DataKey, kind: string, chunks: seq<Bytes>, n: nat)
    requires Written(r, key, kind, chunks) && n <= |chunks|
    ensures ReadFirst(r, key, n) == Ok(Join(chunks[..n]))
    ensures HashInput(r, key, kind, n) == Join(chunks[..n])
    ensures |PresentFirst(r, key, kind, n)| == n
    decreases n
  {
    hide At;
    if n > 0 {
      ReadWritten(r, key, kind, chunks, n - 1);
      assert At(key, kind, n - 1) in r.blobs;
      assert chunks[..n][..n - 1] == chunks[..n - 1];
    }
  }

  lemma FinalizeWrites(r: Reg, key: DataKey, kind: string, chunkBytes: int, chunks: seq<Bytes>, digest: Digest)
    requires Streaming(r, key, kind, chunkBytes, chunks)
    ensures var (r', result) := FinalizeStream(r, key, digest);
            && Written(r', key, kind, chunks) && r'.hashes == r.hashes
            && r'.catalog[key] ==
               Record(kind, |Join(chunks)|, chunkBytes, |chunks|, Some(digest("sha256", Join(chunks))), "sha256")
            && result == Ok(r'.catalog[key]) && key in r'.completed
  {
    hide At;
    hide Join;
  }

  /**
   * Stream equivalence: after open, any appends and finalize, the record's size and contents are
   * those of the appended bytes and its declared hash verifies, unless an earlier verdict about
   * the same key is still remembered.
   */
  lemma StreamRoundTrip(r: Reg, key: DataKey, kind: string, chunkBytes: int, chunks: seq<Bytes>, digest: Digest)
    requires kind in r.kinds
    ensures var end := FinalizeStream(AppendAll(OpenStream(r, key, kind, chunkBytes), key, chunks), key, digest).0;
            && key in end.catalog && end.catalog[key].totalSize == |Join(chunks)|
            && ReadWhole(end, key) == Ok(Join(chunks))
            && StatusOf(end, key, digest).1.complete
            && StatusOf(end, key, digest).1.verified == Some(if key in r.hashes then r.hashes[key].1 else true)
  {
    var started := OpenStream(r, key, kind, chunkBytes);
    AppendAllStreams(started, key, kind, chunkBytes, chunks);
    var fed := AppendAll(started, key, chunks);
    FinalizeWrites(fed, key, kind, chunkBytes, chunks, digest);
    var end := FinalizeStream(fed, key, digest).0;
    ReadWritten(end, key, kind, chunks, |chunks|);
    assert chunks[..|chunks|] == chunks;
    hide FinalizeStream;
    hide AppendAll;
    hide At;
    hide Join;
  }

  /** A status asked for earlier is remembered, so a stream written over the key is reported as not verified. */
  lemma StaleVerdictIsReported(kinds: set<string>, key: DataKey, kind: string, chunkBytes: int,
                               chunks: seq<Bytes>, algo: string, digest: Digest)
    requires kind in kinds && chunkBytes > 0
    ensures var registered := Register(Fresh(kinds), key, kind, 0, chunkBytes, None, algo).0;
            var asked := StatusOf(registered, key, digest).0;
            var end := FinalizeStream(AppendAll(OpenStream(asked, key, kind, chunkBytes), key, chunks), key, digest).0;
            ReadWhole(end, key) == Ok(Join(chunks)) && StatusOf(end, key, digest).1.verified == Some(false)
  {
    var registered := Register(Fresh(kinds), key, kind, 0, chunkBytes, None, algo).0;
    var asked := StatusOf(registered, key, digest).0;
    assert key in asked.hashes && !asked.hashes[key].1;
    StreamRoundTrip(asked, key, kind, chunkBytes, chunks, digest);
    hide Register;
    hide StatusOf;
    hide ReadWhole;
    hide AppendAll;
  }

  /** All chunks are full but the last, which is neither empty nor too long. */
  predicate Regular(chunks: seq<Bytes>, chunkBytes: int) {
    forall i :: 0 <= i < |chunks| ==>
      if i < |chunks| - 1 then |chunks[i]| == chunkBytes else 1 <= |chunks[i]| <= chunkBytes
  }

  lemma {:induction false} FullChunksLength(chunks: seq<Bytes>, chunkBytes: int)
    requires forall i :: 0 <= i < |chunks| ==> |chunks[i]| == chunkBytes
    ensures |Join(chunks)| == |chunks| * chunkBytes
  {
    if chunks != [] {
      var n := |chunks| - 1;
      FullChunksLength(chunks[..n], chunkBytes);
      assert |chunks| * chunkBytes == n * chunkBytes + chunkBytes;
    }
  }

  /**
   * A stream has the chunk count `register` would compute, and every chunk passes a peer's size
   * check, exactly when it is regular.
   */
  lemma RegularStreamMatchesRegister(chunks: seq<Bytes>, chunkBytes: int)
    requires chunkBytes > 0
    ensures Regular(chunks, chunkBytes) <==>
            && TotalChunks(|Join(chunks)|, chunkBytes) == |chunks|
            && (forall i :: 0 <= i < |chunks| ==> |chunks[i]| == ExpectedLen(|Join(chunks)|, chunkBytes, i))
  {
    if Regular(chunks, chunkBytes) {
      RegularMatches(chunks, chunkBytes);
    } else if TotalChunks(|Join(chunks)|, chunkBytes) == |chunks| {
      var total := |Join(chunks)|;
      forall i | 0 <= i < |chunks|
        ensures 1 <= ExpectedLen(total, chunkBytes, i) <= chunkBytes
        ensures i < |chunks| - 1 ==> ExpectedLen(total, chunkBytes, i) == chunkBytes
      {
        ExpectedLenBounds(total, chunkBytes, i);
      }
      hide TotalChunks;
      hide Join;
      hide ExpectedLen;
    }
  }

  lemma {:induction false} RegularMatches(chunks: seq<Bytes>, chunkBytes: int)
    requires chunkBytes > 0 && Regular(chunks, chunkBytes)
    ensures TotalChunks(|Join(chunks)|, chunkBytes) == |chunks|
    ensures forall i :: 0 <= i < |chunks| ==> |chunks[i]| == ExpectedLen(|Join(chunks)|, chunkBytes, i)
  {
    if chunks != [] {
      var n := |chunks| - 1;
      FullChunksLength(chunks[..n], chunkBytes);
      assert |chunks| * chunkBytes == n * chunkBytes + chunkBytes;
      var total := |Join(chunks)|;
      assert total == n * chunkBytes + |chunks[n]|;
      TotalChunksUnique(total, chunkBytes, |chunks|);
      hide TotalChunks;
      hide Join;
    }
  }

  lemma {:induction false} JoinGrows(chunks: seq<Bytes>, k: nat)
    requires k <= |chunks|
    ensures |Join(chunks[..k])| <= |Join(chunks)|
    decreases |chunks|
  {
    if k == |chunks| {
      assert chunks[..k] == chunks;
    } else {
      var n := |chunks| - 1;
      assert chunks[..n][..k] == chunks[..k];
      JoinGrows(chunks[..n], k);
    }
  }

  /** The sizes alone decide: chunks that each have the expected length are as many as expected. */
  lemma {:induction false} SizesGiveCount(chunks: seq<Bytes>, chunkBytes: int)
    requires chunkBytes > 0
    requires forall i :: 0 <= i < |chunks| ==> |chunks[i]| == ExpectedLen(|Join(chunks)|, chunkBytes, i)
    ensures TotalChunks(|Join(chunks)|, chunkBytes) == |chunks|
  {
    var total := |Join(chunks)|;
    var n := TotalChunks(total, chunkBytes);
    if total > 0 {
      TotalChunksCovers(total, chunkBytes);
    }
    hide TotalChunks;
    if |chunks| < n {
      FullChunksLength(chunks, chunkBytes);
      OffsetInside(chunkBytes, |chunks|, n);
    } else if n < |chunks| {
      TooManyChunks(chunks, chunkBytes, n);
    }
    hide ExpectedLen;
    hide Join;
  }

  lemma {:induction false} TooManyChunks(chunks: seq<Bytes>, chunkBytes: int, n: nat)
    requires chunkBytes > 0 && n < |chunks| && n == TotalChunks(|Join(chunks)|, chunkBytes)
    ensures exists i :: 0 <= i < |chunks| && |chunks[i]| != ExpectedLen(|Join(chunks)|, chunkBytes, i)
  {
    var total := |Join(chunks)|;
    if total > 0 {
      TotalChunksCovers(total, chunkBytes);
    }
    hide TotalChunks;
    if forall i :: 0 <= i < |chunks| ==> |chunks[i]| == ExpectedLen(total, chunkBytes, i) {
      JoinGrows(chunks, n + 1);
      assert chunks[..n + 1][..n] == chunks[..n];
      assert |Join(chunks[..n + 1])| == |Join(chunks[..n])| + chunkBytes;
      if n > 0 {
        assert chunks[..n][..n - 1] == chunks[..n - 1];
        FullChunksLength(chunks[..n - 1], chunkBytes);
      }
    }
  }
}
