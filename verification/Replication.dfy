/**
 * Replication during one leader's reign: writes are coalesced in a dirty tracker, flushed into
 * the leader's cluster state and pushed to a follower, which merges the push into its own state
 * and applies records and tombstones to its stores.
 */
module Replication {
  import opened Wrappers
  import opened Text

  /** A replicated value: a serialized record, or the mark that its key was deleted. */
  datatype Blob = Tombstone | Record(payload: string)

  /** One value per key and domain; used for whole states and for diffs alike. */
  datatype Maps = Maps(
    functions: map<string, Blob>, data: map<string, Blob>, buckets: map<string, string>)

  const NONE := Maps(map[], map[], map[])

  /** `dict.update` in all three domains. */
  function Overlay(a: Maps, b: Maps): Maps {
    Maps(a.functions + b.functions, a.data + b.data, a.buckets + b.buckets)
  }

  function Size(m: Maps): nat {
    |m.functions| + |m.data| + |m.buckets|
  }

  datatype LeaderView = LeaderView(leaders: set<string>, term: int)

  datatype Mutation = Mutation(changes: Maps, view: Option<LeaderView>)

  datatype ClusterState = ClusterState(
    term: int, leaders: set<string>, members: set<string>, maps: Maps, version: nat)

  /** `apply_local`. */
  function ApplyLocal(s: ClusterState, m: Mutation): ClusterState {
    var view := if m.view.Some? then m.view.value else LeaderView(s.leaders, s.term);
    ClusterState(view.term, view.leaders, s.members, Overlay(s.maps, m.changes), s.version + 1)
  }

  /** `apply_remote`: only a newer version replaces the state. */
  function ApplyRemote(s: ClusterState, incoming: ClusterState): (ClusterState, bool) {
    if incoming.version <= s.version then (s, false) else (incoming, true)
  }

  // ---- writes on the leader

  datatype Write =
    | FunctionWrite(id: string, version: int, blob: Blob)
    | DataWrite(id: string, version: int, blob: Blob)
    | BucketWrite(name: string, payload: string)

  function Diff(w: Write): Maps {
    match w
    case FunctionWrite(id, version, blob) => NONE.(functions := map[CombinedKey(id, version) := blob])
    case DataWrite(id, version, blob) => NONE.(data := map[CombinedKey(id, version) := blob])
    case BucketWrite(name, payload) => NONE.(buckets := map[name := payload])
  }

  /** The last write per key over a starting state. */
  function LastWrites(base: Maps, log: seq<Write>): Maps {
    if log == [] then base else Overlay(LastWrites(base, log[..|log| - 1]), Diff(log[|log| - 1]))
  }

  datatype Tracker = Tracker(
    pending: Maps, view: Option<LeaderView>, lastChange: real, maxDirty: int)

  function Mark(t: Tracker, w: Write, now: real): Tracker {
    t.(pending := Overlay(t.pending, Diff(w)), lastChange := now)
  }

  function PendingCount(t: Tracker): nat {
    Size(t.pending) + (if t.view.Some? then 1 else 0)
  }

  predicate ShouldFlush(t: Tracker, now: real, idle: real) {
    PendingCount(t) != 0 && (PendingCount(t) >= t.maxDirty || now - t.lastChange >= idle)
  }

  function Drain(t: Tracker): (Tracker, Mutation) {
    (t.(pending := NONE, view := None), Mutation(t.pending, t.view))
  }

  lemma MergeOne<V>(m: map<string, V>, key: string, value: V)
    ensures m + map[key := value] == m[key := value]
  {
  }

  lemma MergeNone<V>(m: map<string, V>)
    ensures m + map[] == m
  {
  }

  class DirtyTracker {
    var functions: map<string, Blob>
    var data: map<string, Blob>
    var buckets: map<string, string>
    var view: Option<LeaderView>
    var lastChange: real
    const maxDirty: int

    ghost function View(): Tracker
      reads this
    {
      Tracker(Maps(functions, data, buckets), view, lastChange, maxDirty)
    }

    constructor (maxDirty: int)
      ensures View() == Tracker(NONE, None, 0.0, maxDirty)
    {
      this.maxDirty := maxDirty;
      functions, data, buckets, view, lastChange := map[], map[], map[], None, 0.0;
    }

    method MarkFunctionDirty(id: string, version: int, blob: Blob, now: real)
      modifies this
      ensures View() == Mark(old(View()), FunctionWrite(id, version, blob), now)
    {
      hide CombinedKey;
      functions := functions[CombinedKey(id, version) := blob];
      lastChange := now;
      MergeOne(old(functions), CombinedKey(id, version), blob);
      MergeNone(data);
      MergeNone(buckets);
    }

    method MarkDataDirty(id: string, version: int, blob: Blob, now: real)
      modifies this
      ensures View() == Mark(old(View()), DataWrite(id, version, blob), now)
    {
      hide CombinedKey;
      data := data[CombinedKey(id, version) := blob];
      lastChange := now;
      MergeOne(old(data), CombinedKey(id, version), blob);
      MergeNone(functions);
      MergeNone(buckets);
    }

    method MarkBucketDirty(name: string, payload: string, now: real)
      modifies this
      ensures View() == Mark(old(View()), BucketWrite(name, payload), now)
    {
      buckets := buckets[name := payload];
      lastChange := now;
      MergeOne(old(buckets), name, payload);
      MergeNone(functions);
      MergeNone(data);
    }

    method MarkViewDirty(v: LeaderView, now: real)
      modifies this`view, this`lastChange
      ensures View() == old(View()).(view := Some(v), lastChange := now)
    {
      view, lastChange := Some(v), now;
    }

    method IsDue(now: real, idle: real) returns (due: bool)
      ensures due == ShouldFlush(View(), now, idle)
    {
      var count := |functions| + |data| + |buckets| + (if view.Some? then 1 else 0);
      if count == 0 {
        return false;
      }
      if count >= maxDirty {
        return true;
      }
      return now - lastChange >= idle;
    }

    method DrainAll() returns (m: Mutation)
      modifies this
      ensures (View(), m) == Drain(old(View()))
    {
      m := Mutation(Maps(functions, data, buckets), view);
      functions, data, buckets, view := map[], map[], map[], None;
    }
  }

  // ---- applying changes on the follower

  type Store = map<(string, int), string>

  /** A key of the `id:version` form that the bridges write. */
  predicate IsCanonical(c: string) {
    SplitKey(c).Some? && CombinedKey(SplitKey(c).value.0, SplitKey(c).value.1) == c
  }

  ghost predicate Canonical(m: map<string, Blob>) {
    forall c :: c in m ==> IsCanonical(c)
  }

  function Cell(store: Store, id: string, version: int): Option<string> {
    if (id, version) in store then Some(store[(id, version)]) else None
  }

  function Content(blob: Blob): Option<string> {
    if blob.Record? then Some(blob.payload) else None
  }

  /** What a replicated map says a store cell should hold. */
  function Wanted(m: map<string, Blob>, id: string, version: int): Option<string> {
    var c := CombinedKey(id, version);
    if c in m then Content(m[c]) else None
  }

  /** A store mirrors a replicated map when it holds exactly the entries that are not tombstones. */
  ghost predicate Mirrors(store: Store, m: map<string, Blob>) {
    forall id, version :: Cell(store, id, version) == Wanted(m, id, version)
  }

  /** One step of `apply_incoming`: split the key, then delete or put. */
  function ApplyOne(store: Store, c: string, blob: Blob): Store
    requires SplitKey(c).Some?
  {
    var key := SplitKey(c).value;
    if blob.Tombstone? then store - {key} else store[key := blob.payload]
  }

  lemma ApplyOneCell(store: Store, c: string, blob: Blob, id: string, version: int)
    requires IsCanonical(c)
    ensures Cell(ApplyOne(store, c, blob), id, version) ==
            if CombinedKey(id, version) == c then Content(blob) else Cell(store, id, version)
  {
    SplitCombined(id, version);
    hide SplitKey;
    hide CombinedKey;
  }

  /** What a cell holds after a batch of changes: theirs if they name its key, else its own. */
  function Fate(store: Store, changes: map<string, Blob>, id: string, version: int): Option<string> {
    if CombinedKey(id, version) in changes then Wanted(changes, id, version) else Cell(store, id, version)
  }

  function NamedCells(changes: map<string, Blob>): set<(string, int)> {
    set c | c in changes && SplitKey(c).Some? :: SplitKey(c).value
  }

  /** A store after a batch of changes, whatever order they are applied in. */
  function Absorb(store: Store, changes: map<string, Blob>): Store {
    map k | k in store.Keys + NamedCells(changes) && Fate(store, changes, k.0, k.1).Some?
          :: Fate(store, changes, k.0, k.1).value
  }

  lemma AbsorbCell(store: Store, changes: map<string, Blob>, id: string, version: int)
    ensures Cell(Absorb(store, changes), id, version) == Fate(store, changes, id, version)
  {
    SplitCombined(id, version);
    var c := CombinedKey(id, version);
    if c in changes {
      assert SplitKey(c).value in NamedCells(changes);
    }
    hide SplitKey;
    hide CombinedKey;
  }

  lemma SameCells(a: Store, b: Store)
    requires forall id, version :: Cell(a, id, version) == Cell(b, id, version)
    ensures a == b
  {
    forall k: (string, int)
      ensures k in a <==> k in b
      ensures k in a ==> a[k] == b[k]
    {
      assert k == (k.0, k.1);
      assert Cell(a, k.0, k.1) == Cell(b, k.0, k.1);
    }
  }

  /** A store that mirrored the old map mirrors the updated one. */
  lemma AbsorbMirrors(store: Store, m: map<string, Blob>, changes: map<string, Blob>)
    requires Mirrors(store, m)
    ensures Mirrors(Absorb(store, changes), m + changes)
  {
    forall id, version
      ensures Cell(Absorb(store, changes), id, version) == Wanted(m + changes, id, version)
    {
      AbsorbCell(store, changes, id, version);
      assert Cell(store, id, version) == Wanted(m, id, version);
      hide Absorb;
      hide CombinedKey;
      hide Cell;
    }
  }

  datatype Change = Change(key: string, blob: Blob)

  /** A dictionary of changes as it is iterated over. */
  type Listing = seq<Change>

  function MapOf(entries: Listing): map<string, Blob> {
    if entries == [] then map[]
    else
      var n := |entries| - 1;
      MapOf(entries[..n])[entries[n].key := entries[n].blob]
  }

  /** `apply_incoming` entry by entry; a key that does not parse raises, and what came before stays. */
  function ApplyAll(store: Store, entries: Listing): (Store, bool) {
    if entries == [] then (store, true)
    else
      var n := |entries| - 1;
      var before := ApplyAll(store, entries[..n]);
      if !before.1 then before
      else if SplitKey(entries[n].key).None? then (before.0, false)
      else (ApplyOne(before.0, entries[n].key, entries[n].blob), true)
  }

  lemma AbsorbOneMore(store: Store, changes: map<string, Blob>, c: string, blob: Blob)
    requires IsCanonical(c)
    ensures ApplyOne(Absorb(store, changes), c, blob) == Absorb(store, changes[c := blob])
  {
    hide Cell;
    hide CombinedKey;
    hide Absorb;
    forall id, version
      ensures Cell(ApplyOne(Absorb(store, changes), c, blob), id, version) ==
              Cell(Absorb(store, changes[c := blob]), id, version)
    {
      AbsorbCell(store, changes, id, version);
      AbsorbCell(store, changes[c := blob], id, version);
      ApplyOneCell(Absorb(store, changes), c, blob, id, version);
    }
    SameCells(ApplyOne(Absorb(store, changes), c, blob), Absorb(store, changes[c := blob]));
  }

  lemma AbsorbNothing(store: Store)
    ensures Absorb(store, map[]) == store
  {
    hide Cell;
    hide CombinedKey;
    forall id, version
      ensures Cell(Absorb(store, map[]), id, version) == Cell(store, id, version)
    {
      AbsorbCell(store, map[], id, version);
    }
    hide Absorb;
    SameCells(Absorb(store, map[]), store);
  }

  /** Keys the bridges write all apply, and in any order the result is the same. */
  lemma {:induction false} OrderDoesNotMatter(store: Store, entries: Listing)
    requires Canonical(MapOf(entries))
    ensures ApplyAll(store, entries) == (Absorb(store, MapOf(entries)), true)
  {
    hide Absorb;
    hide ApplyOne;
    hide CombinedKey;
    hide SplitKey;
    if entries == [] {
      AbsorbNothing(store);
    } else {
      var n := |entries| - 1;
      var changes := MapOf(entries[..n]);
      assert forall c :: c in changes ==> c in MapOf(entries);
      OrderDoesNotMatter(store, entries[..n]);
      assert IsCanonical(entries[n].key);
      AbsorbOneMore(store, changes, entries[n].key, entries[n].blob);
    }
  }

  lemma {:induction false} ApplyStops(store: Store, entries: Listing, m: nat)
    requires m <= |entries| && !ApplyAll(store, entries[..m]).1
    ensures ApplyAll(store, entries) == ApplyAll(store, entries[..m])
    decreases |entries|
  {
    hide ApplyOne;
    if m == |entries| {
      assert entries[..m] == entries;
    } else {
      var n := |entries| - 1;
      assert entries[..n][..m] == entries[..m];
      ApplyStops(store, entries[..n], m);
    }
  }

  /** One record or tombstone at a time, until a key does not parse. */
  method ApplyIncoming(store: Store, entries: Listing) returns (after: Store, ok: bool)
    ensures (after, ok) == ApplyAll(store, entries)
  {
    hide SplitKey;
    after := store;
    for i := 0 to |entries|
      invariant (after, true) == ApplyAll(store, entries[..i])
    {
      assert entries[..i + 1][..i] == entries[..i];
      var key := SplitKey(entries[i].key);
      if key.None? {
        ApplyStops(store, entries, i + 1);
        return after, false;
      }
      if entries[i].blob.Tombstone? {
        after := after - {key.value};
      } else {
        after := after[key.value := entries[i].blob.payload];
      }
    }
    assert entries[..|entries|] == entries;
    return after, true;
  }

  // ---- the push handler

  datatype Push = Push(term: int, leaders: set<string>, members: set<string>, changes: Maps)

  datatype Follower = Follower(state: ClusterState, functions: Store, catalog: Store, buckets: map<string, string>)

  /** A push of an older term is refused; any other is merged into state and stores. */
  function HandlePush(f: Follower, push: Push): (Follower, bool) {
    if push.term < f.state.term then (f, false)
    else
      var incoming :=
        ClusterState(push.term, push.leaders, push.members, Overlay(f.state.maps, push.changes), f.state.version + 1);
      (Follower(ApplyRemote(f.state, incoming).0,
                Absorb(f.functions, push.changes.functions),
                Absorb(f.catalog, push.changes.data),
                f.buckets + push.changes.buckets), true)
  }

  /** The same, entry by entry: a key that does not parse stops it half-way, after the state was replaced. */
  function HandleListed(f: Follower, push: Push, functions: Listing, data: Listing): (Follower, bool) {
    if push.term < f.state.term then (f, false)
    else
      var incoming :=
        ClusterState(push.term, push.leaders, push.members, Overlay(f.state.maps, push.changes), f.state.version + 1);
      var state := ApplyRemote(f.state, incoming).0;
      var (store, applied) := ApplyAll(f.functions, functions);
      if !applied then (f.(state := state, functions := store), false)
      else
        var (catalog, cataloged) := ApplyAll(f.catalog, data);
        if !cataloged then (f.(state := state, functions := store, catalog := catalog), false)
        else (Follower(state, store, catalog, f.buckets + push.changes.buckets), true)
  }

  /** For what a leader sends, the order of the entries makes no difference. */
  lemma ListedIsPush(f: Follower, push: Push, functions: Listing, data: Listing)
    requires MapOf(functions) == push.changes.functions && MapOf(data) == push.changes.data
    requires Canonical(push.changes.functions) && Canonical(push.changes.data)
    ensures HandleListed(f, push, functions, data) == HandlePush(f, push)
  {
    OrderDoesNotMatter(f.functions, functions);
    OrderDoesNotMatter(f.catalog, data);
    hide ApplyAll;
    hide Absorb;
    hide MapOf;
  }

  class FollowerNode {
    var state: ClusterState
    var functions: Store
    var catalog: Store
    var buckets: map<string, string>

    ghost function View(): Follower
      reads this
    {
      Follower(state, functions, catalog, buckets)
    }

    constructor ()
      ensures View() == Follower(ClusterState(0, {}, {}, NONE, 0), map[], map[], map[])
    {
      state, functions, catalog, buckets := ClusterState(0, {}, {}, NONE, 0), map[], map[], map[];
    }

    method Install(incoming: ClusterState) returns (changed: bool)
      modifies this`state
      ensures (state, changed) == ApplyRemote(old(state), incoming)
    {
      if incoming.version <= state.version {
        return false;
      }
      state := incoming;
      return true;
    }

    method MergeBuckets(changes: map<string, string>)
      modifies this`buckets
      ensures buckets == old(buckets) + changes
    {
      var todo := changes.Keys;
      while todo != {}
        invariant todo <= changes.Keys
        invariant buckets.Keys == old(buckets).Keys + (changes.Keys - todo)
        invariant forall name :: name in buckets ==>
                    buckets[name] == if name in changes && name !in todo then changes[name] else old(buckets)[name]
        decreases todo
      {
        var name :| name in todo;
        buckets := buckets[name := changes[name]];
        todo := todo - {name};
      }
    }

    method Handle(push: Push, functionChanges: Listing, dataChanges: Listing) returns (ok: bool)
      modifies this
      ensures (View(), ok) == HandleListed(old(View()), push, functionChanges, dataChanges)
    {
      hide ApplyAll;
      if push.term < state.term {
        return false;
      }
      var merged := Maps(state.maps.functions + push.changes.functions,
                         state.maps.data + push.changes.data,
                         state.maps.buckets + push.changes.buckets);
      var changed := Install(ClusterState(push.term, push.leaders, push.members, merged, state.version + 1));
      functions, ok := ApplyIncoming(functions, functionChanges);
      if !ok {
        return;
      }
      catalog, ok := ApplyIncoming(catalog, dataChanges);
      if !ok {
        return;
      }
      MergeBuckets(push.changes.buckets);
    }
  }

  // ---- the flush of the leader's tick

  datatype Leader = Leader(state: ClusterState, tracker: Tracker)

  /** Drains what is due into the leader's own state; the diff is pushed unless it is empty. */
  function Flush(l: Leader, now: real, idle: real): (Leader, Option<Maps>) {
    if !ShouldFlush(l.tracker, now, idle) then (l, None)
    else
      var (tracker, mutation) := Drain(l.tracker);
      (Leader(ApplyLocal(l.state, mutation), tracker),
       if Size(mutation.changes) == 0 then None else Some(mutation.changes))
  }

  class LeaderNode {
    var state: ClusterState
    const tracker: DirtyTracker

    ghost function View(): Leader
      reads this, tracker
    {
      Leader(state, tracker.View())
    }

    constructor (tracker: DirtyTracker)
      ensures View() == Leader(ClusterState(0, {}, {}, NONE, 0), tracker.View())
    {
      state := ClusterState(0, {}, {}, NONE, 0);
      this.tracker := tracker;
    }

    method ApplyMutation(m: Mutation)
      modifies this
      ensures state == ApplyLocal(old(state), m)
    {
      var merged := Maps(state.maps.functions + m.changes.functions,
                         state.maps.data + m.changes.data,
                         state.maps.buckets + m.changes.buckets);
      var view := if m.view.Some? then m.view.value else LeaderView(state.leaders, state.term);
      state := ClusterState(view.term, view.leaders, state.members, merged, state.version + 1);
    }

    method FlushDue(now: real, idle: real) returns (push: Option<Maps>)
      modifies this, tracker
      ensures (View(), push) == Flush(old(View()), now, idle)
    {
      hide ShouldFlush;
      hide ApplyLocal;
      var due := tracker.IsDue(now, idle);
      if !due {
        return None;
      }
      var m := tracker.DrainAll();
      ApplyMutation(m);
      if |m.changes.functions| == 0 && |m.changes.data| == 0 && |m.changes.buckets| == 0 {
        return None;
      }
      return Some(m.changes);
    }
  }

  // ---- the reign: leader, channel and follower together

  datatype System = System(leader: Leader, channel: seq<Push>, follower: Follower, log: seq<Write>)

  datatype Step =
    | DoWrite(write: Write, now: real)
    | DoTick(now: real, idle: real, members: set<string>)
    | Deliver

  /** Pushes arrive in the order they were sent. */
  function Next(s: System, step: Step, view: LeaderView): System {
    match step
    case DoWrite(write, now) =>
      s.(leader := s.leader.(tracker := Mark(s.leader.tracker, write, now)), log := s.log + [write])
    case DoTick(now, idle, members) =>
      var (leader, diff) := Flush(s.leader, now, idle);
      var sent := if diff.Some? then [Push(view.term, view.leaders, members, diff.value)] else [];
      s.(leader := leader, channel := s.channel + sent)
    case Deliver =>
      if s.channel == [] then s
      else s.(follower := HandlePush(s.follower, s.channel[0]).0, channel := s.channel[1..])
  }

  function Run(s: System, steps: seq<Step>, view: LeaderView): System
    decreases |steps|
  {
    if steps == [] then s else Run(Next(s, steps[0], view), steps[1..], view)
  }

  /** A state with the pushes still under way laid over it. */
  function Arriving(m: Maps, channel: seq<Push>): Maps {
    if channel == [] then m
    else Overlay(Arriving(m, channel[..|channel| - 1]), channel[|channel| - 1].changes)
  }

  ghost predicate InSync(f: Follower) {
    Mirrors(f.functions, f.state.maps.functions) && Mirrors(f.catalog, f.state.maps.data) &&
    f.buckets == f.state.maps.buckets
  }

  /** A diff whose keys a follower can split. */
  ghost predicate Sendable(m: Maps) {
    Canonical(m.functions) && Canonical(m.data)
  }

  lemma MarkedSendable(m: Maps, write: Write)
    requires Sendable(m)
    ensures Sendable(Overlay(m, Diff(write)))
  {
    if !write.BucketWrite? {
      SplitCombined(write.id, write.version);
    }
    hide SplitKey;
    hide CombinedKey;
  }

  /** Pushes under way carry the reign's leaders and term, and keys a follower can split. */
  ghost predicate OfReign(channel: seq<Push>, view: LeaderView) {
    forall i :: 0 <= i < |channel| ==> LeaderView(channel[i].leaders, channel[i].term) == view && Sendable(channel[i].changes)
  }

  ghost predicate Inv(s: System, base: Maps, view: LeaderView) {
    && Overlay(s.leader.state.maps, s.leader.tracker.pending) == LastWrites(base, s.log)
    && Arriving(s.follower.state.maps, s.channel) == s.leader.state.maps
    && InSync(s.follower)
    && s.follower.state.term <= view.term && OfReign(s.channel, view)
    && Sendable(s.leader.tracker.pending)
  }

  lemma OverlayAssociative(a: Maps, b: Maps, c: Maps)
    ensures Overlay(Overlay(a, b), c) == Overlay(a, Overlay(b, c))
  {
    assert (a.functions + b.functions) + c.functions == a.functions + (b.functions + c.functions);
    assert (a.data + b.data) + c.data == a.data + (b.data + c.data);
    assert (a.buckets + b.buckets) + c.buckets == a.buckets + (b.buckets + c.buckets);
  }

  lemma OverlayNone(a: Maps)
    ensures Overlay(a, NONE) == a
  {
    MergeNone(a.functions);
    MergeNone(a.data);
    MergeNone(a.buckets);
  }

  lemma EmptyDiff(m: Maps)
    requires Size(m) == 0
    ensures m == NONE
  {
    assert m.functions == map[] && m.data == map[] && m.buckets == map[];
  }

  lemma {:induction false} ArrivingFirst(m: Maps, channel: seq<Push>)
    requires channel != []
    ensures Arriving(m, channel) == Arriving(Overlay(m, channel[0].changes), channel[1..])
    decreases |channel|
  {
    hide Overlay;
    var n := |channel| - 1;
    if n == 0 {
      assert channel[..0] == [] && channel[1..] == [];
    } else {
      ArrivingFirst(m, channel[..n]);
      assert channel[..n][1..] == channel[1..][..n - 1];
      assert channel[1..][n - 1] == channel[n];
    }
  }

  lemma ArrivingLast(m: Maps, channel: seq<Push>, push: Push)
    ensures Arriving(m, channel + [push]) == Overlay(Arriving(m, channel), push.changes)
  {
    hide Overlay;
    assert (channel + [push])[..|channel|] == channel;
  }

  lemma WriteKeepsInv(s: System, base: Maps, view: LeaderView, write: Write, now: real)
    requires Inv(s, base, view)
    ensures Inv(Next(s, DoWrite(write, now), view), base, view)
  {
    OverlayAssociative(s.leader.state.maps, s.leader.tracker.pending, Diff(write));
    MarkedSendable(s.leader.tracker.pending, write);
    hide Sendable;
    hide Overlay;
    hide Arriving;
    hide Diff;
    hide InSync;
    assert (s.log + [write])[..|s.log|] == s.log;
  }

  lemma NothingSendable()
    ensures Sendable(NONE)
  {
  }

  lemma TickKeepsInv(s: System, base: Maps, view: LeaderView, now: real, idle: real, members: set<string>)
    requires Inv(s, base, view)
    ensures Inv(Next(s, DoTick(now, idle, members), view), base, view)
  {
    hide Sendable;
    hide Overlay;
    hide Arriving;
    hide InSync;
    hide LastWrites;
    hide Size;
    hide ShouldFlush;
    NothingSendable();
    var pending := s.leader.tracker.pending;
    if ShouldFlush(s.leader.tracker, now, idle) {
      OverlayNone(Overlay(s.leader.state.maps, pending));
      if Size(pending) == 0 {
        EmptyDiff(pending);
        OverlayNone(s.leader.state.maps);
      } else {
        ArrivingLast(s.follower.state.maps, s.channel, Push(view.term, view.leaders, members, pending));
      }
    }
    assert s.channel + [] == s.channel;
  }

  lemma DeliverKeepsInv(s: System, base: Maps, view: LeaderView)
    requires Inv(s, base, view)
    ensures Inv(Next(s, Deliver, view), base, view)
  {
    if s.channel != [] {
      var f, push := s.follower, s.channel[0];
      ArrivingFirst(f.state.maps, s.channel);
      AbsorbMirrors(f.functions, f.state.maps.functions, push.changes.functions);
      AbsorbMirrors(f.catalog, f.state.maps.data, push.changes.data);
      hide Arriving;
      hide Mirrors;
      hide Absorb;
      hide LastWrites;
    }
  }

  lemma {:induction false} RunKeepsInv(s: System, base: Maps, view: LeaderView, steps: seq<Step>)
    requires Inv(s, base, view)
    ensures Inv(Run(s, steps, view), base, view)
    decreases |steps|
  {
    if steps != [] {
      match steps[0] {
        case DoWrite(write, now) => WriteKeepsInv(s, base, view, write, now);
        case DoTick(now, idle, members) => TickKeepsInv(s, base, view, now, idle, members);
        case Deliver => DeliverKeepsInv(s, base, view);
      }
      hide Inv;
      hide Next;
      RunKeepsInv(Next(s, steps[0], view), base, view, steps[1..]);
    }
  }

  /**
   * Replication is lossless: from any synchronised start and after any interleaving of writes,
   * ticks and deliveries, the leader's state with its pending marks is the last write per key;
   * once nothing is pending or under way, the follower's maps are exactly that and its stores
   * hold exactly the entries that were not deleted.
   */
  lemma FollowerCatchesUp(s: System, view: LeaderView, steps: seq<Step>)
    requires s.channel == [] && s.log == [] && s.leader.tracker.pending == NONE
    requires s.follower.state.maps == s.leader.state.maps && InSync(s.follower) && s.follower.state.term <= view.term
    ensures var base, t := s.leader.state.maps, Run(s, steps, view);
            && Overlay(t.leader.state.maps, t.leader.tracker.pending) == LastWrites(base, t.log)
            && Arriving(t.follower.state.maps, t.channel) == t.leader.state.maps
            && InSync(t.follower)
            && OfReign(t.channel, view)
            && (t.channel == [] && t.leader.tracker.pending == NONE ==>
                  t.follower.state.maps == LastWrites(base, t.log))
  {
    NothingSendable();
    OverlayNone(s.leader.state.maps);
    RunKeepsInv(s, s.leader.state.maps, view, steps);
    var t := Run(s, steps, view);
    OverlayNone(t.leader.state.maps);
    hide Overlay;
    hide InSync;
    hide Run;
  }

  function Deliveries(n: nat): (steps: seq<Step>)
    ensures |steps| == n && forall i :: 0 <= i < n ==> steps[i] == Deliver
  {
    seq(n, i => Deliver)
  }

  lemma {:induction false} DeliveriesEmptyChannel(s: System, view: LeaderView, n: nat)
    requires n == |s.channel|
    ensures var t := Run(s, Deliveries(n), view);
            t.channel == [] && t.leader == s.leader && t.log == s.log
    decreases n
  {
    hide HandlePush;
    if n > 0 {
      var next := Next(s, Deliver, view);
      DeliveriesEmptyChannel(next, view, n - 1);
      assert Deliveries(n)[0] == Deliver;
      assert Deliveries(n)[1..] == Deliveries(n - 1);
    }
  }

  /** The tick of a leader that has been quiet for the idle time leaves nothing pending. */
  lemma QuietTickDrains(s: System, view: LeaderView, now: real, idle: real, members: set<string>)
    requires now - s.leader.tracker.lastChange >= idle
    ensures var t := Next(s, DoTick(now, idle, members), view);
            t.leader.tracker.pending == NONE && t.log == s.log
  {
    if !ShouldFlush(s.leader.tracker, now, idle) {
      EmptyDiff(s.leader.tracker.pending);
    }
  }

  /**
   * Convergence: after any run, one tick once writes have paused for the idle time, and delivery
   * of what is under way, bring the follower to exactly the last write per key.
   */
  lemma QuietSystemConverges(
      s: System, view: LeaderView, steps: seq<Step>, now: real, idle: real, members: set<string>)
    requires s.channel == [] && s.log == [] && s.leader.tracker.pending == NONE
    requires s.follower.state.maps == s.leader.state.maps && InSync(s.follower) && s.follower.state.term <= view.term
    requires now - Run(s, steps, view).leader.tracker.lastChange >= idle
    ensures var flushed := Next(Run(s, steps, view), DoTick(now, idle, members), view);
            var t := Run(flushed, Deliveries(|flushed.channel|), view);
            t.follower.state.maps == LastWrites(s.leader.state.maps, Run(s, steps, view).log) && InSync(t.follower)
  {
    var base := s.leader.state.maps;
    NothingSendable();
    OverlayNone(base);
    RunKeepsInv(s, base, view, steps);
    var ran := Run(s, steps, view);
    TickKeepsInv(ran, base, view, now, idle, members);
    QuietTickDrains(ran, view, now, idle, members);
    var flushed := Next(ran, DoTick(now, idle, members), view);
    hide Run;
    hide Next;
    hide InSync;
    hide Overlay;
    RunKeepsInv(flushed, base, view, Deliveries(|flushed.channel|));
    DeliveriesEmptyChannel(flushed, view, |flushed.channel|);
    OverlayNone(flushed.leader.state.maps);
  }

  /** A push of an earlier term changes nothing. */
  lemma StalePushIgnored(f: Follower, push: Push)
    ensures HandlePush(f, push).1 <==> push.term >= f.state.term
    ensures push.term < f.state.term ==> HandlePush(f, push).0 == f
    ensures push.term >= f.state.term ==> HandlePush(f, push).0.state.maps == Overlay(f.state.maps, push.changes)
  {
    hide Absorb;
  }

  // ---- what writes, flushes and pushes promise

  /** The domain and key a write is about. */
  function TargetOf(w: Write): (nat, string) {
    match w
    case FunctionWrite(id, version, _) => (0, CombinedKey(id, version))
    case DataWrite(id, version, _) => (1, CombinedKey(id, version))
    case BucketWrite(name, _) => (2, name)
  }

  /** What a state holds for a target: a bucket's payload counts as a record. */
  function Held(m: Maps, target: (nat, string)): Option<Blob> {
    var key := target.1;
    if target.0 == 0 then (if key in m.functions then Some(m.functions[key]) else None)
    else if target.0 == 1 then (if key in m.data then Some(m.data[key]) else None)
    else (if key in m.buckets then Some(Record(m.buckets[key])) else None)
  }

  function Written(w: Write): Blob {
    if w.BucketWrite? then Record(w.payload) else w.blob
  }

  /** The newer of two layers hides the older one, target by target. */
  lemma OverlayHolds(a: Maps, b: Maps, target: (nat, string))
    ensures Held(Overlay(a, b), target) == if Held(b, target).Some? then Held(b, target) else Held(a, target)
  {
  }

  lemma DiffHolds(w: Write, target: (nat, string))
    requires target.0 <= 2
    ensures Held(Diff(w), target) == if target == TargetOf(w) then Some(Written(w)) else None
  {
    hide CombinedKey;
  }

  /** The last write to a target is what is kept for it, and no other target is touched. */
  lemma LastWriteWins(base: Maps, log: seq<Write>, w: Write, target: (nat, string))
    requires target.0 <= 2
    ensures Held(LastWrites(base, log + [w]), target) ==
            if target == TargetOf(w) then Some(Written(w)) else Held(LastWrites(base, log), target)
  {
    assert (log + [w])[..|log|] == log;
    DiffHolds(w, target);
    OverlayHolds(LastWrites(base, log), Diff(w), target);
    hide Held;
    hide Diff;
    hide Overlay;
    hide TargetOf;
  }

  lemma AddedSize<V>(m: map<string, V>, key: string, value: V)
    ensures |m[key := value]| == |m| + (if key in m then 0 else 1)
  {
    assert m[key := value].Keys == m.Keys + {key};
  }

  lemma MarkGrows(m: Maps, w: Write)
    ensures Size(Overlay(m, Diff(w))) == Size(m) + (if Held(m, TargetOf(w)).Some? then 0 else 1)
  {
    hide CombinedKey;
    MergeNone(m.functions);
    MergeNone(m.data);
    MergeNone(m.buckets);
    match w {
      case FunctionWrite(id, version, blob) =>
        MergeOne(m.functions, CombinedKey(id, version), blob);
        AddedSize(m.functions, CombinedKey(id, version), blob);
      case DataWrite(id, version, blob) =>
        MergeOne(m.data, CombinedKey(id, version), blob);
        AddedSize(m.data, CombinedKey(id, version), blob);
      case BucketWrite(name, payload) =>
        MergeOne(m.buckets, name, payload);
        AddedSize(m.buckets, name, payload);
    }
  }

  /** A write to a target already pending replaces it; any other is one more to flush. */
  lemma MarkCounts(t: Tracker, w: Write, now: real, target: (nat, string))
    requires target.0 <= 2
    ensures var t' := Mark(t, w, now);
            && PendingCount(t') == PendingCount(t) + (if Held(t.pending, TargetOf(w)).Some? then 0 else 1)
            && t'.lastChange == now && t'.maxDirty == t.maxDirty && t'.view == t.view
            && Held(t'.pending, target) == (if target == TargetOf(w) then Some(Written(w)) else Held(t.pending, target))
  {
    MarkGrows(t.pending, w);
    DiffHolds(w, target);
    OverlayHolds(t.pending, Diff(w), target);
    hide Held;
    hide Diff;
    hide Overlay;
    hide TargetOf;
    hide Size;
  }

  /** Writes that all come at one time. */
  function MarkAll(t: Tracker, writes: seq<Write>, now: real): Tracker {
    if writes == [] then t else Mark(MarkAll(t, writes[..|writes| - 1], now), writes[|writes| - 1], now)
  }

  ghost predicate DistinctTargets(writes: seq<Write>) {
    forall i, j :: 0 <= i < j < |writes| ==> TargetOf(writes[i]) != TargetOf(writes[j])
  }

  lemma {:induction false} DistinctWritesCount(t: Tracker, writes: seq<Write>, now: real, next: Write)
    requires t.pending == NONE && t.view.None? && DistinctTargets(writes)
    ensures var t' := MarkAll(t, writes, now);
            && PendingCount(t') == |writes| && t'.maxDirty == t.maxDirty && (writes != [] ==> t'.lastChange == now)
            && (Held(t'.pending, TargetOf(next)).Some? ==>
                  exists i :: 0 <= i < |writes| && TargetOf(writes[i]) == TargetOf(next))
  {
    hide TargetOf;
    if writes != [] {
      var n := |writes| - 1;
      DistinctWritesCount(t, writes[..n], now, next);
      DistinctWritesCount(t, writes[..n], now, writes[n]);
      TargetDomain(next);
      MarkCounts(MarkAll(t, writes[..n], now), writes[n], now, TargetOf(next));
      hide PendingCount;
      hide Held;
      hide Mark;
    }
  }

  lemma TargetDomain(w: Write)
    ensures TargetOf(w).0 <= 2
  {
  }

  /**
   * When a flush is due after n writes to different targets: never for n = 0, always from the
   * limit up, and otherwise when the idle time has passed since the writes.
   */
  lemma WritesAreDue(t: Tracker, writes: seq<Write>, at: real, now: real, idle: real)
    requires t.pending == NONE && t.view.None? && DistinctTargets(writes)
    ensures ShouldFlush(MarkAll(t, writes, at), now, idle) <==>
            writes != [] && (|writes| >= t.maxDirty || now - at >= idle)
  {
    if writes != [] {
      DistinctWritesCount(t, writes, at, writes[0]);
    }
    hide PendingCount;
    hide MarkAll;
    hide DistinctTargets;
  }

  /** A change of leader alone is flushed like one write. */
  lemma ViewIsDue(t: Tracker, view: LeaderView, at: real, now: real, idle: real)
    requires t.pending == NONE
    ensures ShouldFlush(t.(view := Some(view), lastChange := at), now, idle) <==> 1 >= t.maxDirty || now - at >= idle
  {
  }

  /**
   * A flush that is due hands over everything pending, at once and for good: the leader's state
   * takes it in as one new version, with the pending view's leaders and term if there is one, and
   * it is pushed unless it is a view alone. Otherwise a flush does nothing.
   */
  lemma FlushIs(l: Leader, now: real, idle: real, later: real)
    ensures var (l', push) := Flush(l, now, idle);
            if !ShouldFlush(l.tracker, now, idle) then l' == l && push == None
            else
              && l'.state.version == l.state.version + 1 && l'.state.members == l.state.members
              && (forall target: (nat, string) :: Held(l'.state.maps, target) ==
                    if Held(l.tracker.pending, target).Some? then Held(l.tracker.pending, target)
                    else Held(l.state.maps, target))
              && LeaderView(l'.state.leaders, l'.state.term) ==
                 (if l.tracker.view.Some? then l.tracker.view.value else LeaderView(l.state.leaders, l.state.term))
              && l'.tracker.pending == NONE && l'.tracker.view == None && !ShouldFlush(l'.tracker, later, idle)
              && (push == None <==> l.tracker.pending == NONE) && (push.Some? ==> push.value == l.tracker.pending)
  {
    if Size(l.tracker.pending) == 0 {
      EmptyDiff(l.tracker.pending);
    }
    forall target: (nat, string)
      ensures Held(Overlay(l.state.maps, l.tracker.pending), target) ==
              if Held(l.tracker.pending, target).Some? then Held(l.tracker.pending, target)
              else Held(l.state.maps, target)
    {
      OverlayHolds(l.state.maps, l.tracker.pending, target);
    }
    DrainedIsNotDue(l.tracker, later, idle);
    hide Held;
    hide Overlay;
    hide ShouldFlush;
    assert l.tracker.pending == NONE ==> Size(l.tracker.pending) == 0;
    hide Size;
  }

  lemma DrainedIsNotDue(t: Tracker, now: real, idle: real)
    ensures !ShouldFlush(Drain(t).0, now, idle)
  {
  }

  /** A push as it arrives, with its maps in the order they are iterated over. */
  datatype Arrival = Arrival(push: Push, functions: Listing, data: Listing)

  predicate Parses(entries: Listing) {
    forall i :: 0 <= i < |entries| ==> SplitKey(entries[i].key).Some?
  }

  /** Changes apply up to the first key that does not parse. */
  lemma {:induction false} ListingApplies(store: Store, entries: Listing)
    ensures ApplyAll(store, entries).1 <==> Parses(entries)
    ensures forall k :: 0 <= k < |entries| && Parses(entries[..k]) && SplitKey(entries[k].key).None? ==>
              ApplyAll(store, entries).0 == ApplyAll(store, entries[..k]).0
  {
    hide SplitKey;
    hide ApplyOne;
    if entries != [] {
      var n := |entries| - 1;
      ListingApplies(store, entries[..n]);
      assert Parses(entries) <==> Parses(entries[..n]) && SplitKey(entries[n].key).Some?;
      forall k | 0 <= k < |entries| && Parses(entries[..k]) && SplitKey(entries[k].key).None?
        ensures ApplyAll(store, entries).0 == ApplyAll(store, entries[..k]).0
      {
        if k < n {
          assert entries[..n][..k] == entries[..k] && entries[..n][k] == entries[k];
        }
      }
    }
  }

  /**
   * A push is refused, changing nothing, exactly when its term is older; an accepted one makes its
   * term, leaders and members the follower's, under one new version. A key that does not parse
   * leaves the stores behind it as they were.
   */
  lemma PushIsAdopted(f: Follower, a: Arrival)
    ensures var (f', ok) := HandleListed(f, a.push, a.functions, a.data);
            var parses := Parses(a.functions) && Parses(a.data);
            && (ok <==> a.push.term >= f.state.term && parses)
            && (a.push.term < f.state.term ==> f' == f)
            && (a.push.term >= f.state.term ==>
                  && f'.state.term == a.push.term && f'.state.leaders == a.push.leaders
                  && f'.state.members == a.push.members && f'.state.version == f.state.version + 1
                  && f'.state.maps == Overlay(f.state.maps, a.push.changes)
                  && f'.functions == ApplyAll(f.functions, a.functions).0
                  && f'.catalog == (if Parses(a.functions) then ApplyAll(f.catalog, a.data).0 else f.catalog)
                  && f'.buckets == (if parses then f.buckets + a.push.changes.buckets else f.buckets))
  {
    ListingApplies(f.functions, a.functions);
    ListingApplies(f.catalog, a.data);
    hide ApplyAll;
    hide Overlay;
    hide Parses;
  }

  function HandleAll(f: Follower, arrivals: seq<Arrival>): Follower {
    if arrivals == [] then f
    else
      var last := arrivals[|arrivals| - 1];
      HandleListed(HandleAll(f, arrivals[..|arrivals| - 1]), last.push, last.functions, last.data).0
  }

  /** Whatever arrives, from however many leaders, a follower's term is the largest it was ever sent. */
  lemma {:induction false} TermIsLargest(f: Follower, arrivals: seq<Arrival>)
    ensures var term := HandleAll(f, arrivals).state.term;
            && f.state.term <= term && (forall i :: 0 <= i < |arrivals| ==> arrivals[i].push.term <= term)
            && (term == f.state.term || exists i :: 0 <= i < |arrivals| && arrivals[i].push.term == term)
  {
    if arrivals != [] {
      var n := |arrivals| - 1;
      TermIsLargest(f, arrivals[..n]);
      PushIsAdopted(HandleAll(f, arrivals[..n]), arrivals[n]);
      hide HandleListed;
    }
  }

  /** So once any push of a term has arrived, a push of an older one is refused for good. */
  lemma OlderTermsStayRefused(f: Follower, arrivals: seq<Arrival>, i: nat, late: Arrival)
    requires i < |arrivals| && late.push.term < arrivals[i].push.term
    ensures HandleListed(HandleAll(f, arrivals), late.push, late.functions, late.data) == (HandleAll(f, arrivals), false)
  {
    TermIsLargest(f, arrivals);
    hide HandleAll;
  }
}
