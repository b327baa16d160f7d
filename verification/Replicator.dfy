/**
 * The blob replicator: each tick the leader compares every complete, enabled dataset with what
 * each peer reports and pushes missing chunks, within a byte budget. Peers here answer and keep
 * chunks, and accept those of the size they expect.
 */
module Replicator {
  import opened Wrappers
  import Chunking
  import DataLifecycle
  import DataRegistry

  type DataKey = DataRegistry.DataKey

  /** A catalog record, the actual length of each chunk, and the chunks the leader has. */
  datatype Dataset = Dataset(
    key: DataKey, kind: string, totalSize: int, chunkBytes: int, lens: seq<nat>, held: set<nat>)

  /** The chunks each peer holds. */
  type World = map<(string, DataKey), set<nat>>

  datatype SyncInfo = SyncInfo(complete: bool, syncedAt: real)

  type PeerStatus = map<(string, DataKey), SyncInfo>

  datatype Push = Push(peer: string, key: DataKey, index: nat, size: nat)

  function Has(w: World, peer: string, key: DataKey): set<nat> {
    if (peer, key) in w then w[(peer, key)] else {}
  }

  function UpTo(n: nat): (r: set<nat>)
    ensures forall i: nat :: i in r <==> i < n
  {
    if n == 0 then {} else UpTo(n - 1) + {n - 1}
  }

  function Full(d: Dataset): set<nat> {
    UpTo(|d.lens|)
  }

  /** Datasets that are replicated at all: of an enabled kind and complete on the leader. */
  predicate Eligible(d: Dataset, enabled: set<string>) {
    d.kind in enabled && d.held == Full(d)
  }

  /** A peer stores a chunk only if it has the length the record makes it expect. */
  predicate Accepts(d: Dataset, i: nat) {
    && i < |d.lens| && (d.totalSize <= 0 || d.chunkBytes != 0)
    && d.lens[i] == Chunking.ExpectedLen(d.totalSize, d.chunkBytes, i)
  }

  function Lacking(w: World, d: Dataset, peer: string): set<nat> {
    Full(d) - Has(w, peer, d.key)
  }

  // ---- how much is missing in all

  function MissingAt(w: World, d: Dataset, members: seq<string>): nat {
    if members == [] then 0
    else MissingAt(w, d, members[..|members| - 1]) + |Lacking(w, d, members[|members| - 1])|
  }

  /** The number of (dataset, peer, chunk) triples still to be replicated. */
  function Missing(w: World, ds: seq<Dataset>, members: seq<string>, enabled: set<string>): nat {
    if ds == [] then 0
    else
      var last := ds[|ds| - 1];
      Missing(w, ds[..|ds| - 1], members, enabled) +
      (if Eligible(last, enabled) then MissingAt(w, last, members) else 0)
  }

  ghost predicate Grows(w: World, w': World) {
    forall peer, key :: Has(w, peer, key) <= Has(w', peer, key)
  }

  lemma GrowsTransitive(a: World, b: World, c: World)
    requires Grows(a, b) && Grows(b, c)
    ensures Grows(a, c)
  {
  }

  lemma LackingShrinks(w: World, w': World, d: Dataset, peer: string)
    requires Grows(w, w')
    ensures Lacking(w', d, peer) <= Lacking(w, d, peer) && |Lacking(w', d, peer)| <= |Lacking(w, d, peer)|
  {
    assert Has(w, peer, d.key) <= Has(w', peer, d.key);
    SubsetSize(Lacking(w', d, peer), Lacking(w, d, peer));
  }

  lemma {:induction false} MissingAtShrinks(w: World, w': World, d: Dataset, members: seq<string>)
    requires Grows(w, w')
    ensures MissingAt(w', d, members) <= MissingAt(w, d, members)
  {
    hide Lacking;
    hide Grows;
    if members != [] {
      MissingAtShrinks(w, w', d, members[..|members| - 1]);
      LackingShrinks(w, w', d, members[|members| - 1]);
    }
  }

  lemma {:induction false} MissingAtFalls(w: World, w': World, d: Dataset, members: seq<string>, j: nat)
    requires Grows(w, w') && j < |members| && Lacking(w', d, members[j]) != Lacking(w, d, members[j])
    ensures MissingAt(w', d, members) < MissingAt(w, d, members)
  {
    hide Lacking;
    hide Grows;
    var n := |members| - 1;
    LackingShrinks(w, w', d, members[n]);
    if j == n {
      MissingAtShrinks(w, w', d, members[..n]);
      SubsetSize(Lacking(w', d, members[n]), Lacking(w, d, members[n]));
    } else {
      MissingAtFalls(w, w', d, members[..n], j);
    }
  }

  /** What peers gain never adds to what is missing. */
  lemma {:induction false} MissingShrinks(
      w: World, w': World, ds: seq<Dataset>, members: seq<string>, enabled: set<string>)
    requires Grows(w, w')
    ensures Missing(w', ds, members, enabled) <= Missing(w, ds, members, enabled)
  {
    hide Grows;
    hide Eligible;
    hide MissingAt;
    if ds != [] {
      MissingShrinks(w, w', ds[..|ds| - 1], members, enabled);
      MissingAtShrinks(w, w', ds[|ds| - 1], members);
    }
  }

  /** Any gain that an eligible dataset needs takes something off. */
  lemma {:induction false} MissingFalls(
      w: World, w': World, ds: seq<Dataset>, members: seq<string>, enabled: set<string>, k: nat, j: nat)
    requires Grows(w, w') && k < |ds| && j < |members| && Eligible(ds[k], enabled)
    requires Lacking(w', ds[k], members[j]) != Lacking(w, ds[k], members[j])
    ensures Missing(w', ds, members, enabled) < Missing(w, ds, members, enabled)
  {
    hide Grows;
    hide Eligible;
    hide MissingAt;
    hide Lacking;
    var n := |ds| - 1;
    MissingAtShrinks(w, w', ds[n], members);
    if k == n {
      MissingShrinks(w, w', ds[..n], members, enabled);
      MissingAtFalls(w, w', ds[n], members, j);
    } else {
      MissingFalls(w, w', ds[..n], members, enabled, k, j);
    }
  }

  lemma {:induction false} NoneMissingAt(w: World, d: Dataset, members: seq<string>)
    requires forall j :: 0 <= j < |members| ==> Lacking(w, d, members[j]) == {}
    ensures MissingAt(w, d, members) == 0
  {
    if members != [] {
      NoneMissingAt(w, d, members[..|members| - 1]);
    }
  }

  lemma {:induction false} NoneMissing(w: World, ds: seq<Dataset>, members: seq<string>, enabled: set<string>)
    requires forall k, j :: 0 <= k < |ds| && 0 <= j < |members| && Eligible(ds[k], enabled) ==>
               Lacking(w, ds[k], members[j]) == {}
    ensures Missing(w, ds, members, enabled) == 0
  {
    if ds != [] {
      var n := |ds| - 1;
      NoneMissing(w, ds[..n], members, enabled);
      if Eligible(ds[n], enabled) {
        NoneMissingAt(w, ds[n], members);
      }
    }
  }

  lemma {:induction false} NoneMissingAtPeer(w: World, d: Dataset, members: seq<string>, j: nat)
    requires MissingAt(w, d, members) == 0 && j < |members|
    ensures Lacking(w, d, members[j]) == {}
  {
    hide Lacking;
    if j < |members| - 1 {
      NoneMissingAtPeer(w, d, members[..|members| - 1], j);
    }
  }

  /** Nothing missing means that every member holds every chunk of every eligible dataset. */
  lemma {:induction false} AllDelivered(
      w: World, ds: seq<Dataset>, members: seq<string>, enabled: set<string>, k: nat, j: nat)
    requires Missing(w, ds, members, enabled) == 0 && k < |ds| && j < |members| && Eligible(ds[k], enabled)
    ensures Full(ds[k]) <= Has(w, members[j], ds[k].key)
  {
    if k == |ds| - 1 {
      NoneMissingAtPeer(w, ds[k], members, j);
      assert Lacking(w, ds[k], members[j]) == {};
    } else {
      AllDelivered(w, ds[..|ds| - 1], members, enabled, k, j);
    }
  }

  // ---- refused chunks

  /** The peer would accept every chunk it lacks. */
  ghost predicate Fine(w: World, d: Dataset, peer: string) {
    forall i: nat :: i in Lacking(w, d, peer) ==> Accepts(d, i)
  }

  ghost predicate AllFine(w: World, ds: seq<Dataset>, members: seq<string>, enabled: set<string>) {
    forall k, j :: 0 <= k < |ds| && 0 <= j < |members| && Eligible(ds[k], enabled) ==> Fine(w, ds[k], members[j])
  }

  /** What peers gain of a dataset they accepted. */
  ghost predicate Honest(w: World, w': World, ds: seq<Dataset>) {
    forall k, peer, i: nat :: 0 <= k < |ds| && i in Has(w', peer, ds[k].key) && i !in Has(w, peer, ds[k].key) ==>
      Accepts(ds[k], i)
  }

  /** A peer that has the dataset's record accepts a chunk exactly when its own registry stores it. */
  lemma AcceptsIsStored(r: DataRegistry.Reg, d: Dataset, i: nat, data: Chunking.Bytes)
    requires d.key in r.catalog && i < |d.lens| && |data| == d.lens[i]
    requires var rec := r.catalog[d.key];
             rec.totalSize == d.totalSize && rec.chunkBytes == d.chunkBytes && rec.totalChunks == |d.lens|
    ensures Accepts(d, i) <==> DataRegistry.StoreChunk(r, d.key, i, data).1.Ok?
  {
    DataRegistry.StoringIs(r, d.key, i, data);
    hide DataRegistry.StoreChunk;
    hide Chunking.ExpectedLen;
  }

  /** Of a streamed dataset every chunk is accepted exactly when the stream was regular. */
  lemma StreamAcceptedIff(d: Dataset, chunks: seq<Chunking.Bytes>)
    requires d.chunkBytes > 0 && d.totalSize == |Chunking.Join(chunks)| && |d.lens| == |chunks|
    requires forall i :: 0 <= i < |chunks| ==> d.lens[i] == |chunks[i]|
    ensures (forall i: nat :: i < |d.lens| ==> Accepts(d, i)) <==> DataLifecycle.Regular(chunks, d.chunkBytes)
  {
    hide Chunking.ExpectedLen;
    hide Chunking.TotalChunks;
    hide Chunking.Join;
    DataLifecycle.RegularStreamMatchesRegister(chunks, d.chunkBytes);
    if forall i: nat :: i < |d.lens| ==> Accepts(d, i) {
      forall i | 0 <= i < |chunks|
        ensures |chunks[i]| == Chunking.ExpectedLen(|Chunking.Join(chunks)|, d.chunkBytes, i)
      {
        assert Accepts(d, i);
      }
      DataLifecycle.SizesGiveCount(chunks, d.chunkBytes);
    }
    hide DataLifecycle.Regular;
  }

  lemma FineGrows(w: World, w': World, d: Dataset, peer: string)
    requires Grows(w, w') && Fine(w, d, peer)
    ensures Fine(w', d, peer)
  {
    LackingShrinks(w, w', d, peer);
    hide Lacking;
    hide Accepts;
  }

  lemma AllFineGrows(w: World, w': World, ds: seq<Dataset>, members: seq<string>, enabled: set<string>)
    requires Grows(w, w') && AllFine(w, ds, members, enabled)
    ensures AllFine(w', ds, members, enabled)
  {
    hide Grows;
    hide Eligible;
    forall k, j | 0 <= k < |ds| && 0 <= j < |members| && Eligible(ds[k], enabled)
      ensures Fine(w', ds[k], members[j])
    {
      FineGrows(w, w', ds[k], members[j]);
    }
    hide Fine;
  }

  lemma HonestTransitive(a: World, b: World, c: World, ds: seq<Dataset>)
    requires Honest(a, b, ds) && Honest(b, c, ds)
    ensures Honest(a, c, ds)
  {
    hide Accepts;
  }

  /** A refused chunk that a member lacks stays missing however often it is pushed. */
  lemma RefusedStaysMissing(w: World, w': World, ds: seq<Dataset>, members: seq<string>, enabled: set<string>)
    requires Honest(w, w', ds) && !AllFine(w, ds, members, enabled)
    ensures Missing(w', ds, members, enabled) > 0
  {
    hide Accepts;
    hide Missing;
    var k, j :| 0 <= k < |ds| && 0 <= j < |members| && Eligible(ds[k], enabled) && !Fine(w, ds[k], members[j]);
    var i: nat :| i in Lacking(w, ds[k], members[j]) && !Accepts(ds[k], i);
    assert i in Lacking(w', ds[k], members[j]);
    if Missing(w', ds, members, enabled) == 0 {
      AllDelivered(w', ds, members, enabled, k, j);
    }
  }

  // ---- the budget

  /** The limits of one tick: unlimited unless the configured rate is positive. */
  datatype Budget = Budget(limited: bool, bytes: real)

  /** `rate_limit_bytes_per_second * elapsed_seconds`; a rate of zero or less means no limit. */
  function BudgetOf(rate: real, elapsed: real): (b: Budget)
    ensures (rate > 0.0 ==> elapsed > 0.0) ==> !Spent(b, 0)
  {
    Budget(rate > 0.0, rate * elapsed)
  }

  predicate Spent(b: Budget, sent: nat) {
    b.limited && sent as real >= b.bytes
  }

  /** At most the budget and one more chunk of at most `longest` bytes. */
  predicate Within(b: Budget, sent: nat, longest: nat) {
    b.limited ==> sent == 0 || sent as real < b.bytes + longest as real
  }

  predicate NoLonger(d: Dataset, longest: nat) {
    forall i :: 0 <= i < |d.lens| ==> d.lens[i] <= longest
  }

  function Give(w: World, peer: string, key: DataKey, index: nat): World {
    w[(peer, key) := Has(w, peer, key) + {index}]
  }

  /** The bytes of some pushes together. */
  function BytesOf(pushes: seq<Push>): nat {
    if pushes == [] then 0 else BytesOf(pushes[..|pushes| - 1]) + pushes[|pushes| - 1].size
  }

  lemma {:induction false} BytesConcat(a: seq<Push>, b: seq<Push>)
    ensures BytesOf(a + b) == BytesOf(a) + BytesOf(b)
    decreases |b|
  {
    if b == [] {
      assert a + b == a;
    } else {
      BytesConcat(a, b[..|b| - 1]);
      assert (a + b)[..|a + b| - 1] == a + b[..|b| - 1];
    }
  }

  function Indices(pushes: seq<Push>): set<nat> {
    set p | p in pushes :: p.index
  }

  /** Whole chunks the peer lacks, in increasing order of index. */
  ghost predicate InOrder(pushes: seq<Push>, d: Dataset, peer: string, w: World) {
    && (forall i :: 0 <= i < |pushes| ==>
          pushes[i].peer == peer && pushes[i].key == d.key && pushes[i].index in Lacking(w, d, peer) &&
          pushes[i].index < |d.lens| && pushes[i].size == d.lens[pushes[i].index])
    && (forall i, j :: 0 <= i < j < |pushes| ==> pushes[i].index < pushes[j].index)
  }

  /** Each push was still within the budget, of which `sent` was gone before. */
  ghost predicate Affordable(pushes: seq<Push>, b: Budget, sent: nat) {
    forall i :: 0 <= i < |pushes| ==> !Spent(b, sent + BytesOf(pushes[..i]))
  }

  lemma AffordableMore(pushes: seq<Push>, push: Push, b: Budget, sent: nat)
    requires Affordable(pushes, b, sent) && !Spent(b, sent + BytesOf(pushes))
    ensures Affordable(pushes + [push], b, sent)
    ensures BytesOf(pushes + [push]) == BytesOf(pushes) + push.size
  {
    hide Spent;
    var more := pushes + [push];
    assert more[..|pushes|] == pushes;
    forall i | 0 <= i < |more|
      ensures !Spent(b, sent + BytesOf(more[..i]))
    {
      if i < |pushes| {
        assert more[..i] == pushes[..i];
      }
    }
  }

  lemma OneMoreIndex(pushes: seq<Push>, push: Push)
    ensures Indices(pushes + [push]) == Indices(pushes) + {push.index}
  {
    assert push in pushes + [push];
    assert forall p :: p in pushes + [push] <==> p in pushes || p == push;
  }

  // ---- one dataset and one peer

  /** The peer has gained the pushed chunks it accepts, and nobody anything else. */
  ghost predicate Gained(w: World, w': World, d: Dataset, peer: string, pushes: seq<Push>) {
    && Grows(w, w')
    && (forall p, key :: (p != peer || key != d.key) ==> Has(w', p, key) == Has(w, p, key))
    && (forall i: nat :: i in Has(w', peer, d.key) && i !in Has(w, peer, d.key) ==> i in Indices(pushes) && Accepts(d, i))
    && (forall i: nat :: i in Indices(pushes) && Accepts(d, i) ==> i in Has(w', peer, d.key))
    && (pushes == [] ==> w' == w)
  }

  lemma GainedMore(w: World, w': World, d: Dataset, peer: string, pushes: seq<Push>, push: Push)
    requires Gained(w, w', d, peer, pushes)
    ensures Gained(w, if Accepts(d, push.index) then Give(w', peer, d.key, push.index) else w', d, peer, pushes + [push])
  {
    OneMoreIndex(pushes, push);
    hide Indices;
    hide Accepts;
  }

  /** All chunks below i that the peer lacked are pushed. */
  ghost predicate PushedBelow(pushes: seq<Push>, d: Dataset, peer: string, w: World, i: nat) {
    && (forall n: nat :: n in Lacking(w, d, peer) && n < i ==> n in Indices(pushes))
    && (forall k :: 0 <= k < |pushes| ==> pushes[k].index < i)
  }

  lemma OrderedMore(pushes: seq<Push>, push: Push, d: Dataset, peer: string, w: World)
    requires InOrder(pushes, d, peer, w) && push.peer == peer && push.key == d.key && push.index in Lacking(w, d, peer)
    requires push.index < |d.lens| && push.size == d.lens[push.index]
    requires PushedBelow(pushes, d, peer, w, push.index)
    ensures InOrder(pushes + [push], d, peer, w)
  {
    hide Lacking;
    hide Indices;
  }

  lemma BelowMore(pushes: seq<Push>, push: Push, d: Dataset, peer: string, w: World)
    requires PushedBelow(pushes, d, peer, w, push.index)
    ensures PushedBelow(pushes + [push], d, peer, w, push.index + 1)
  {
    OneMoreIndex(pushes, push);
    hide Indices;
    hide Lacking;
  }

  lemma BelowSkip(pushes: seq<Push>, d: Dataset, peer: string, w: World, i: nat)
    requires PushedBelow(pushes, d, peer, w, i) && i in Has(w, peer, d.key)
    ensures PushedBelow(pushes, d, peer, w, i + 1)
  {
    hide Indices;
  }

  /** What is left out comes after all that is pushed, and only when nothing is left of the budget. */
  ghost predicate LeavesOut(pushes: seq<Push>, d: Dataset, peer: string, w: World, b: Budget, sent': nat) {
    forall n: nat :: n in Lacking(w, d, peer) && n !in Indices(pushes) ==>
      Spent(b, sent') && forall i :: 0 <= i < |pushes| ==> pushes[i].index < n
  }

  lemma BelowAll(pushes: seq<Push>, d: Dataset, peer: string, w: World, b: Budget, sent': nat, i: nat)
    requires PushedBelow(pushes, d, peer, w, i) && (i >= |d.lens| || Spent(b, sent'))
    ensures LeavesOut(pushes, d, peer, w, b, sent')
  {
    hide Indices;
  }

  lemma NothingPushed(d: Dataset, peer: string, w: World, b: Budget, sent: nat)
    ensures Gained(w, w, d, peer, []) && InOrder([], d, peer, w) && Affordable([], b, sent) && BytesOf([]) == 0
    ensures PushedBelow([], d, peer, w, 0)
  {
  }

  /** Pushes the chunks the peer reported missing, in index order, until the budget is spent. */
  method PushMissing(d: Dataset, peer: string, w: World, b: Budget, sent: nat, longest: nat, enabled: set<string>)
    returns (w': World, sent': nat, pushes: seq<Push>)
    requires Eligible(d, enabled) && NoLonger(d, longest) && Within(b, sent, longest)
    ensures Gained(w, w', d, peer, pushes) && Within(b, sent', longest)
    ensures InOrder(pushes, d, peer, w) && Affordable(pushes, b, sent) && sent' == sent + BytesOf(pushes)
    ensures LeavesOut(pushes, d, peer, w, b, sent')
  {
    hide Accepts;
    hide Gained;
    hide BytesOf;
    hide InOrder;
    hide Affordable;
    hide Give;
    hide PushedBelow;
    hide LeavesOut;
    NothingPushed(d, peer, w, b, sent);
    w', sent', pushes := w, sent, [];
    var i: nat := 0;
    while i < |d.lens|
      invariant i <= |d.lens|
      invariant Gained(w, w', d, peer, pushes) && Within(b, sent', longest)
      invariant InOrder(pushes, d, peer, w) && Affordable(pushes, b, sent) && sent' == sent + BytesOf(pushes)
      invariant PushedBelow(pushes, d, peer, w, i)
    {
      if i in d.held && i !in Has(w, peer, d.key) {
        if b.limited && sent' as real >= b.bytes {
          break;
        }
        var push := Push(peer, d.key, i, d.lens[i]);
        OrderedMore(pushes, push, d, peer, w);
        AffordableMore(pushes, push, b, sent);
        BelowMore(pushes, push, d, peer, w);
        GainedMore(w, w', d, peer, pushes, push);
        pushes := pushes + [push];
        sent' := sent' + d.lens[i];
        if Accepts(d, i) {
          w' := Give(w', peer, d.key, i);
        }
      } else {
        BelowSkip(pushes, d, peer, w, i);
      }
      i := i + 1;
    }
    BelowAll(pushes, d, peer, w, b, sent', i);
  }

  /** The peer lacks nothing any more but chunks it refuses. */
  ghost predicate OnlyRefused(w: World, d: Dataset, peer: string) {
    forall i: nat :: i in Lacking(w, d, peer) ==> !Accepts(d, i)
  }

  // ---- the cache of peers known to be complete

  ghost predicate DistinctKeys(ds: seq<Dataset>) {
    forall k, l :: 0 <= k < l < |ds| ==> ds[k].key != ds[l].key
  }

  predicate KnownComplete(cache: PeerStatus, d: Dataset, peer: string) {
    (peer, d.key) in cache && cache[(peer, d.key)].complete
  }

  /** A peer cached as complete for a dataset has all of its chunks. */
  ghost predicate Sound(cache: PeerStatus, w: World, ds: seq<Dataset>) {
    forall k, peer :: 0 <= k < |ds| && KnownComplete(cache, ds[k], peer) ==> Lacking(w, ds[k], peer) == {}
  }

  lemma SoundGrows(cache: PeerStatus, w: World, w': World, ds: seq<Dataset>)
    requires Sound(cache, w, ds) && Grows(w, w')
    ensures Sound(cache, w', ds)
  {
    forall k, peer | 0 <= k < |ds| && KnownComplete(cache, ds[k], peer)
      ensures Lacking(w', ds[k], peer) == {}
    {
      LackingShrinks(w, w', ds[k], peer);
    }
  }

  lemma SoundNote(cache: PeerStatus, w: World, ds: seq<Dataset>, k: nat, peer: string, info: SyncInfo)
    requires Sound(cache, w, ds) && DistinctKeys(ds) && k < |ds|
    requires info.complete ==> Lacking(w, ds[k], peer) == {}
    ensures Sound(cache[(peer, ds[k].key) := info], w, ds)
  {
    hide Lacking;
  }

  /** Pushes go to members and carry chunks of eligible datasets that the member lacked. */
  ghost predicate Justified(pushes: seq<Push>, ds: seq<Dataset>, members: seq<string>, enabled: set<string>, w: World) {
    forall i :: 0 <= i < |pushes| ==>
      exists k, j :: 0 <= k < |ds| && 0 <= j < |members| && IsDue(pushes[i], ds[k], members[j], enabled, w)
  }

  predicate IsDue(p: Push, d: Dataset, peer: string, enabled: set<string>, w: World) {
    Eligible(d, enabled) && p.peer == peer && p.key == d.key && p.index in Lacking(w, d, peer) &&
    p.index < |d.lens| && p.size == d.lens[p.index]
  }

  /** What pushing in order until the budget is spent achieves at one peer. */
  lemma PushesHelp(d: Dataset, peer: string, w: World, w': World, b: Budget, sent: nat, pushes: seq<Push>)
    requires InOrder(pushes, d, peer, w) && Gained(w, w', d, peer, pushes)
    requires LeavesOut(pushes, d, peer, w, b, sent + BytesOf(pushes))
    ensures pushes == [] && !Spent(b, sent) ==> Lacking(w, d, peer) == {}
    ensures pushes != [] && Fine(w, d, peer) ==> Lacking(w', d, peer) != Lacking(w, d, peer)
    ensures !b.limited ==> OnlyRefused(w', d, peer)
  {
    hide Accepts;
    if pushes != [] && Fine(w, d, peer) {
      var i := pushes[0].index;
      assert i in Indices(pushes) && i in Lacking(w, d, peer) && i !in Lacking(w', d, peer);
    }
    LackingShrinks(w, w', d, peer);
  }

  /** The peer is not asked again while it was found complete less than the recheck time ago. */
  predicate Rests(cache: PeerStatus, d: Dataset, peer: string, now: real, recheck: real) {
    KnownComplete(cache, d, peer) && now - cache[(peer, d.key)].syncedAt < recheck
  }

  /**
   * One dataset and one peer: skipped while recently complete, otherwise queried, the answer noted,
   * and topped up.
   */
  method SyncPeer(ds: seq<Dataset>, k: nat, peer: string, w: World, cache: PeerStatus, b: Budget, sent: nat,
                  longest: nat, enabled: set<string>, now: real, recheck: real)
    returns (w': World, cache': PeerStatus, sent': nat, pushes: seq<Push>)
    requires k < |ds| && Eligible(ds[k], enabled) && NoLonger(ds[k], longest) && Within(b, sent, longest)
    requires DistinctKeys(ds) && Sound(cache, w, ds)
    ensures Grows(w, w') && Honest(w, w', ds) && Within(b, sent', longest) && Sound(cache', w', ds)
    ensures cache' == if Rests(cache, ds[k], peer, now, recheck) then cache
                      else cache[(peer, ds[k].key) := SyncInfo(Lacking(w, ds[k], peer) == {}, now)]
    ensures InOrder(pushes, ds[k], peer, w) && Affordable(pushes, b, sent) && sent' == sent + BytesOf(pushes)
    ensures pushes == [] ==> w' == w
    ensures pushes == [] && !Spent(b, sent) ==> Lacking(w, ds[k], peer) == {}
    ensures pushes != [] && Fine(w, ds[k], peer) ==> Lacking(w', ds[k], peer) != Lacking(w, ds[k], peer)
    ensures !b.limited ==> OnlyRefused(w', ds[k], peer)
  {
    hide Accepts;
    hide Honest;
    var d := ds[k];
    w', cache', sent', pushes := w, cache, sent, [];
    assert Honest(w, w, ds) by {
      NothingGained(w, ds);
    }
    if KnownComplete(cache, d, peer) && now - cache[(peer, d.key)].syncedAt < recheck {
      return;
    }
    var complete := Lacking(w, d, peer) == {};
    SoundNote(cache, w, ds, k, peer, SyncInfo(complete, now));
    cache' := cache[(peer, d.key) := SyncInfo(complete, now)];
    if complete {
      return;
    }
    hide Lacking;
    hide InOrder;
    hide Affordable;
    hide Sound;
    hide Indices;
    w', sent', pushes := PushMissing(d, peer, w, b, sent, longest, enabled);
    PushesHelp(d, peer, w, w', b, sent, pushes);
    SoundGrows(cache', w, w', ds);
    GainedHere(w, w', ds, k, peer);
  }

  lemma NothingGained(w: World, ds: seq<Dataset>)
    ensures Honest(w, w, ds)
  {
  }

  /** What one peer gains of one dataset, it gains of no other, their keys being distinct. */
  lemma GainedHere(w: World, w': World, ds: seq<Dataset>, k: nat, peer: string)
    requires k < |ds| && DistinctKeys(ds)
    requires forall p, key :: (p != peer || key != ds[k].key) ==> Has(w', p, key) == Has(w, p, key)
    requires forall i: nat :: i in Has(w', peer, ds[k].key) && i !in Has(w, peer, ds[k].key) ==> Accepts(ds[k], i)
    ensures Honest(w, w', ds)
  {
    hide Accepts;
    hide Has;
  }

  /** Everything between what a tick found and what it leaves so far. */
  ghost predicate Progress(w: World, w': World, pushes: seq<Push>, sent: nat,
                           ds: seq<Dataset>, members: seq<string>, enabled: set<string>) {
    && Grows(w, w') && Honest(w, w', ds)
    && (if pushes == [] then w' == w && sent == 0
        else AllFine(w, ds, members, enabled) ==>
               Missing(w', ds, members, enabled) < Missing(w, ds, members, enabled))
  }

  lemma ProgressStep(w: World, v: World, v': World, before: seq<Push>, more: seq<Push>, sent: nat, sent': nat,
                     ds: seq<Dataset>, members: seq<string>, enabled: set<string>, k: nat, j: nat)
    requires Progress(w, v, before, sent, ds, members, enabled) && Grows(v, v') && Honest(v, v', ds)
    requires k < |ds| && j < |members| && Eligible(ds[k], enabled)
    requires more == [] ==> v' == v && sent' == sent
    requires more != [] && Fine(v, ds[k], members[j]) ==> Lacking(v', ds[k], members[j]) != Lacking(v, ds[k], members[j])
    ensures Progress(w, v', before + more, sent', ds, members, enabled)
  {
    hide Lacking;
    hide Accepts;
    GrowsTransitive(w, v, v');
    HonestTransitive(w, v, v', ds);
    MissingShrinks(v, v', ds, members, enabled);
    MissingShrinks(w, v, ds, members, enabled);
    if AllFine(w, ds, members, enabled) && more != [] {
      AllFineGrows(w, v, ds, members, enabled);
      MissingFalls(v, v', ds, members, enabled, k, j);
    }
    hide Missing;
    hide Grows;
    hide Honest;
    hide AllFine;
  }

  lemma JustifiedMore(before: seq<Push>, more: seq<Push>, ds: seq<Dataset>, members: seq<string>,
                      enabled: set<string>, w: World, v: World, k: nat, j: nat)
    requires Justified(before, ds, members, enabled, w) && Grows(w, v) && k < |ds| && j < |members|
    requires forall i :: 0 <= i < |more| ==> IsDue(more[i], ds[k], members[j], enabled, v)
    ensures Justified(before + more, ds, members, enabled, w)
  {
    LackingShrinks(w, v, ds[k], members[j]);
    hide Lacking;
    hide Grows;
    forall i | 0 <= i < |before + more|
      ensures exists k', j' :: 0 <= k' < |ds| && 0 <= j' < |members| &&
                               IsDue((before + more)[i], ds[k'], members[j'], enabled, w)
    {
      if i < |before| {
        assert (before + more)[i] == before[i];
      } else {
        assert (before + more)[i] == more[i - |before|];
        assert IsDue(more[i - |before|], ds[k], members[j], enabled, w);
      }
    }
  }

  /** No eligible dataset before position (k, j) lacks anything at its peers. */
  ghost predicate NothingDue(w: World, ds: seq<Dataset>, members: seq<string>, enabled: set<string>, k: nat, j: nat) {
    forall k', j' ::
      0 <= k' < |ds| && 0 <= j' < |members| && (k' < k || (k' == k && j' < j)) && Eligible(ds[k'], enabled) ==>
        Lacking(w, ds[k'], members[j']) == {}
  }

  lemma DueRowDone(w: World, ds: seq<Dataset>, members: seq<string>, enabled: set<string>, k: nat)
    requires k < |ds|
    requires NothingDue(w, ds, members, enabled, k, if Eligible(ds[k], enabled) then |members| else 0)
    ensures NothingDue(w, ds, members, enabled, k + 1, 0)
  {
    hide Lacking;
  }

  /** No eligible dataset before position (k, j) lacks anything at its peers but what they refuse. */
  ghost predicate Served(w: World, ds: seq<Dataset>, members: seq<string>, enabled: set<string>, k: nat, j: nat) {
    forall k', j' ::
      0 <= k' < |ds| && 0 <= j' < |members| && (k' < k || (k' == k && j' < j)) && Eligible(ds[k'], enabled) ==>
        OnlyRefused(w, ds[k'], members[j'])
  }

  lemma ServedMore(w: World, w': World, ds: seq<Dataset>, members: seq<string>, enabled: set<string>, k: nat, j: nat)
    requires Served(w, ds, members, enabled, k, j) && Grows(w, w') && k < |ds| && j < |members|
    requires OnlyRefused(w', ds[k], members[j])
    ensures Served(w', ds, members, enabled, k, j + 1)
  {
    hide Grows;
    hide Eligible;
    hide Accepts;
    forall k', j' | 0 <= k' < |ds| && 0 <= j' < |members| && (k' < k || (k' == k && j' < j)) && Eligible(ds[k'], enabled)
      ensures OnlyRefused(w', ds[k'], members[j'])
    {
      LackingShrinks(w, w', ds[k'], members[j']);
      assert OnlyRefused(w, ds[k'], members[j']);
      hide Lacking;
    }
    hide OnlyRefused;
  }

  lemma ServedRowDone(w: World, ds: seq<Dataset>, members: seq<string>, enabled: set<string>, k: nat)
    requires k < |ds|
    requires Served(w, ds, members, enabled, k, if Eligible(ds[k], enabled) then |members| else 0)
    ensures Served(w, ds, members, enabled, k + 1, 0)
  {
    hide OnlyRefused;
  }

  /** One row of the tick: one dataset against all members. */
  method SyncMembers(ds: seq<Dataset>, k: nat, members: seq<string>, w0: World, w: World, cache: PeerStatus, b: Budget,
                     sent: nat, done: seq<Push>, longest: nat, enabled: set<string>, now: real, recheck: real)
    returns (w': World, cache': PeerStatus, sent': nat, pushes: seq<Push>)
    requires k < |ds| && Eligible(ds[k], enabled) && NoLonger(ds[k], longest) && Within(b, sent, longest)
    requires DistinctKeys(ds) && Sound(cache, w, ds)
    requires Progress(w0, w, done, sent, ds, members, enabled) && Justified(done, ds, members, enabled, w0)
    requires done == [] && !Spent(b, 0) ==> NothingDue(w0, ds, members, enabled, k, 0)
    requires sent == BytesOf(done) && (!b.limited ==> Served(w, ds, members, enabled, k, 0))
    ensures Within(b, sent', longest) && Sound(cache', w', ds)
    ensures Progress(w0, w', pushes, sent', ds, members, enabled) && Justified(pushes, ds, members, enabled, w0)
    ensures pushes == [] && !Spent(b, 0) ==> NothingDue(w0, ds, members, enabled, k, |members|)
    ensures sent' == BytesOf(pushes) && (!b.limited ==> Served(w', ds, members, enabled, k, |members|))
  {
    hide Grows;
    hide Honest;
    hide AllFine;
    hide Fine;
    hide Within;
    hide Sound;
    hide Missing;
    hide Lacking;
    hide Justified;
    hide DistinctKeys;
    hide Eligible;
    w', cache', sent', pushes := w, cache, sent, done;
    for j := 0 to |members|
      invariant Within(b, sent', longest) && Sound(cache', w', ds)
      invariant Progress(w0, w', pushes, sent', ds, members, enabled) && Justified(pushes, ds, members, enabled, w0)
      invariant pushes == [] && !Spent(b, 0) ==> NothingDue(w0, ds, members, enabled, k, j)
      invariant sent' == BytesOf(pushes) && (!b.limited ==> Served(w', ds, members, enabled, k, j))
    {
      var v, more;
      ghost var before, sentBefore, doneBefore := w', sent', pushes;
      v, cache', sent', more := SyncPeer(ds, k, members[j], w', cache', b, sent', longest, enabled, now, recheck);
      ProgressStep(w0, before, v, doneBefore, more, sentBefore, sent', ds, members, enabled, k, j);
      JustifiedMore(doneBefore, more, ds, members, enabled, w0, before, k, j);
      BytesConcat(doneBefore, more);
      if !b.limited {
        ServedMore(before, v, ds, members, enabled, k, j);
      }
      w', pushes := v, pushes + more;
    }
  }

  /**
   * One tick of the leader. It pushes only chunks of eligible datasets that a member lacks,
   * sends at most its budget and one chunk, and with any budget at all, and no chunk to be
   * refused, leaves strictly less missing until nothing is; without a rate limit nothing but what is
   * refused is missing after it.
   */
  method RunTick(isLeader: bool, ds: seq<Dataset>, members: seq<string>, w: World, cache: PeerStatus,
                 rate: real, elapsed: real, longest: nat, enabled: set<string>, now: real, recheck: real)
    returns (w': World, cache': PeerStatus, sent: nat, pushes: seq<Push>)
    requires DistinctKeys(ds) && Sound(cache, w, ds)
    requires forall k :: 0 <= k < |ds| ==> NoLonger(ds[k], longest)
    ensures !isLeader ==> w' == w && cache' == cache && sent == 0 && pushes == []
    ensures Grows(w, w') && Honest(w, w', ds) && Sound(cache', w', ds)
    ensures sent == BytesOf(pushes) && (rate > 0.0 ==> sent == 0 || sent as real < rate * elapsed + longest as real)
    ensures isLeader && rate <= 0.0 ==> Served(w', ds, members, enabled, |ds|, 0)
    ensures Justified(pushes, ds, members, enabled, w)
    ensures isLeader && members != [] && (rate > 0.0 ==> elapsed > 0.0) ==>
              (AllFine(w, ds, members, enabled) ==>
                 Missing(w', ds, members, enabled) < Missing(w, ds, members, enabled)) ||
              (Missing(w, ds, members, enabled) == 0 && w' == w)
  {
    assert Grows(w, w) && Honest(w, w, ds);
    hide Grows;
    hide Honest;
    hide AllFine;
    hide Missing;
    hide Lacking;
    hide Sound;
    var b := BudgetOf(rate, elapsed);
    w', cache', sent, pushes := w, cache, 0, [];
    if !isLeader || members == [] {
      return;
    }
    for k := 0 to |ds|
      invariant Within(b, sent, longest) && Sound(cache', w', ds)
      invariant Progress(w, w', pushes, sent, ds, members, enabled) && Justified(pushes, ds, members, enabled, w)
      invariant pushes == [] && !Spent(b, 0) ==> NothingDue(w, ds, members, enabled, k, 0)
      invariant sent == BytesOf(pushes) && (!b.limited ==> Served(w', ds, members, enabled, k, 0))
    {
      hide Justified;
      hide Served;
      hide DistinctKeys;
      hide Eligible;
      hide NothingDue;
      if Eligible(ds[k], enabled) {
        w', cache', sent, pushes :=
          SyncMembers(ds, k, members, w, w', cache', b, sent, pushes, longest, enabled, now, recheck);
      }
      if pushes == [] && !Spent(b, 0) {
        DueRowDone(w, ds, members, enabled, k);
      }
      if !b.limited {
        ServedRowDone(w', ds, members, enabled, k);
      }
    }
    hide Justified;
    if pushes == [] && !Spent(b, 0) {
      NoneMissing(w, ds, members, enabled);
    }
  }

  /**
   * Convergence: as many ticks as chunks are missing, at any times, leave nothing missing exactly
   * when no member lacks a chunk it would refuse.
   */
  method Converge(ds: seq<Dataset>, members: seq<string>, w: World, rate: real, elapsed: real,
                  longest: nat, enabled: set<string>, clock: nat -> real, recheck: real, ticks: nat)
    returns (w': World)
    requires DistinctKeys(ds) && (rate > 0.0 ==> elapsed > 0.0) && members != []
    requires forall k :: 0 <= k < |ds| ==> NoLonger(ds[k], longest)
    ensures Grows(w, w') && Honest(w, w', ds)
    ensures !AllFine(w, ds, members, enabled) ==> Missing(w', ds, members, enabled) > 0
    ensures ticks >= Missing(w, ds, members, enabled) ==>
              (Missing(w', ds, members, enabled) == 0 <==> AllFine(w, ds, members, enabled))
  {
    assert Grows(w, w) && Honest(w, w, ds);
    hide Grows;
    hide Honest;
    hide AllFine;
    hide Missing;
    hide Lacking;
    hide Justified;
    w' := w;
    var cache: PeerStatus := map[];
    for t := 0 to ticks
      invariant Sound(cache, w', ds) && Grows(w, w') && Honest(w, w', ds)
      invariant AllFine(w, ds, members, enabled) ==>
                  Missing(w', ds, members, enabled) == 0 ||
                  t + Missing(w', ds, members, enabled) <= Missing(w, ds, members, enabled)
    {
      hide Sound;
      hide DistinctKeys;
      ghost var before := w';
      var sent, pushes;
      w', cache, sent, pushes :=
        RunTick(true, ds, members, w', cache, rate, elapsed, longest, enabled, clock(t), recheck);
      GrowsTransitive(w, before, w');
      HonestTransitive(w, before, w', ds);
      if AllFine(w, ds, members, enabled) {
        AllFineGrows(w, before, ds, members, enabled);
      }
    }
    if !AllFine(w, ds, members, enabled) {
      RefusedStaysMissing(w, w', ds, members, enabled);
    }
  }
}
