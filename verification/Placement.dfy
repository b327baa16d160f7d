/**
 * One endpoint's pool of containers for one function version, and how it decides where a job
 * runs: reuse a local container, or ask the leader's ledger and grow, queue or forward.
 */
module Placement {
  import opened Wrappers
  import opened Ledger
  import opened StringOrder

  datatype Status = Starting | Bootstrapping | Ready | Busy | Idle | Crashed | Dismissed

  datatype Handle = Handle(index: int, status: Status, invocations: nat)

  predicate IsLive(h: Handle) {
    !h.status.Crashed? && !h.status.Dismissed?
  }

  /** Available for a job right away. */
  predicate IsOpen(h: Handle) {
    IsLive(h) && !h.status.Busy? && !h.status.Starting?
  }

  /** The endpoint's pool together with the leader's ledger. */
  datatype Node = Node(me: string, key: FnKey, pool: seq<Handle>, ledger: State)

  // ---- teardown

  function Without(pool: seq<Handle>, p: nat): seq<Handle>
    requires p < |pool|
  {
    pool[..p] + pool[p + 1..]
  }

  function GiveBack(n: Node, index: int): Node {
    n.(ledger := Release(n.ledger, n.key, index, n.me))
  }

  /** `dismiss`: a stopped container leaves the pool and its slot is released; otherwise it is only marked. */
  function Dismiss(n: Node, p: nat, stops: bool): Node
    requires p < |n.pool|
  {
    if stops then GiveBack(n.(pool := Without(n.pool, p)), n.pool[p].index)
    else n.(pool := n.pool[p := n.pool[p].(status := Status.Dismissed)])
  }

  /** Cancel: dismiss, then release the slot directly as well. */
  function Teardown(n: Node, p: nat, stops: bool): Node
    requires p < |n.pool|
  {
    GiveBack(Dismiss(n, p, stops), n.pool[p].index)
  }

  /** Crash and timeout: the same, unless the container was already given up. */
  function Lose(n: Node, p: nat, stops: bool): Node
    requires p < |n.pool|
  {
    if IsLive(n.pool[p]) then Teardown(n, p, stops) else n
  }

  /** `_dismiss_stale` from position p on; the stop of a container whose index is in `broken` fails. */
  function DismissStale(n: Node, p: nat, broken: set<int>): (r: Node)
    requires p <= |n.pool|
    ensures r.me == n.me && r.key == n.key
    decreases |n.pool| - p
  {
    if p == |n.pool| then n
    else if IsLive(n.pool[p]) then DismissStale(n, p + 1, broken)
    else if n.pool[p].index in broken then DismissStale(Dismiss(n, p, false), p + 1, broken)
    else DismissStale(Dismiss(n, p, true), p, broken)
  }

  // ---- picking a container

  /** Where the first open container stands in the pool. */
  function FirstOpen(pool: seq<Handle>): (r: Option<nat>)
    ensures r.None? <==> forall h :: h in pool ==> !IsOpen(h)
    ensures r.Some? ==> r.value < |pool| && IsOpen(pool[r.value]) && forall q :: 0 <= q < r.value ==> !IsOpen(pool[q])
  {
    if pool == [] then None
    else
      var front, last := pool[..|pool| - 1], pool[|pool| - 1];
      assert pool == front + [last];
      var r := FirstOpen(front);
      if r.Some? then r else if IsOpen(last) then Some(|pool| - 1) else None
  }

  /** A live container with the fewest invocations, the first such in pool order. */
  ghost predicate IsLeastBusy(pool: seq<Handle>, p: nat) {
    && p < |pool| && IsLive(pool[p])
    && (forall q :: 0 <= q < |pool| && IsLive(pool[q]) ==> pool[p].invocations <= pool[q].invocations)
    && (forall q :: 0 <= q < p && IsLive(pool[q]) ==> pool[p].invocations < pool[q].invocations)
  }

  function LeastBusy(pool: seq<Handle>): (r: Option<nat>)
    ensures r.None? <==> forall h :: h in pool ==> !IsLive(h)
    ensures r.Some? ==> IsLeastBusy(pool, r.value)
  {
    if pool == [] then None
    else
      var front, last := pool[..|pool| - 1], pool[|pool| - 1];
      assert pool == front + [last];
      var r := LeastBusy(front);
      if IsLive(last) && (r.None? || last.invocations < front[r.value].invocations) then Some(|pool| - 1) else r
  }

  // ---- deciding where a job runs

  datatype Outcome =
    | Reuse(handle: Handle)
    | Grow(handle: Handle)
    | Queue(handle: Handle)
    | Forward(target: string)
    | RetryLater
    | NoLocalContainer

  function SummonAt(n: Node, index: int, broken: set<int>): Node {
    var swept := DismissStale(n, 0, broken);
    swept.(pool := swept.pool + [Handle(index, Starting, 0)])
  }

  /** `_resolve_placement`; the two sweeps it makes may see different stop failures. */
  function Resolve(n: Node, limit: int, coins: Coins, broken: set<int>, later: set<int>): (Node, Outcome) {
    var swept := DismissStale(n, 0, broken);
    var available := FirstOpen(swept.pool);
    if available.Some? then (swept, Reuse(swept.pool[available.value]))
    else
      var (ledger, d) := Request(swept.ledger, n.key, limit, n.me, coins);
      var asked := swept.(ledger := ledger);
      match d
      case Retry => (asked, RetryLater)
      case Granted(index) => (SummonAt(asked, index, later), Grow(Handle(index, Starting, 0)))
      case Place(target) =>
        if target != n.me then (asked, Forward(target))
        else
          var least := LeastBusy(asked.pool);
          (asked, if least.Some? then Queue(asked.pool[least.value]) else NoLocalContainer)
  }

  // ---- the endpoint object

  class Endpoint {
    const me: string
    const key: FnKey
    const ledger: ConcurrencyLedger
    var pool: seq<Handle>

    ghost function View(): Node
      reads this, ledger
    {
      Node(me, key, pool, ledger.View())
    }

    constructor (me: string, key: FnKey, ledger: ConcurrencyLedger)
      ensures View() == Node(me, key, [], ledger.View())
    {
      this.me, this.key, this.ledger, pool := me, key, ledger, [];
    }

    method DismissAt(p: nat, stops: bool)
      requires p < |pool|
      modifies this, ledger`grants
      ensures View() == Dismiss(old(View()), p, stops)
    {
      hide Release;
      var index := pool[p].index;
      pool := pool[p := pool[p].(status := Status.Dismissed)];
      if !stops {
        return;
      }
      pool := pool[..p] + pool[p + 1..];
      ledger.ReleaseSlot(key, index, me);
    }

    method TeardownAt(p: nat, stops: bool)
      requires p < |pool|
      modifies this, ledger`grants
      ensures View() == Teardown(old(View()), p, stops)
    {
      hide Release;
      var index := pool[p].index;
      DismissAt(p, stops);
      ledger.ReleaseSlot(key, index, me);
    }

    method HandleLossAt(p: nat, stops: bool)
      requires p < |pool|
      modifies this, ledger`grants
      ensures View() == Lose(old(View()), p, stops)
    {
      if IsLive(pool[p]) {
        TeardownAt(p, stops);
      }
    }

    method SweepStale(broken: set<int>)
      modifies this, ledger`grants
      ensures View() == DismissStale(old(View()), 0, broken)
    {
      hide Dismiss;
      var p := 0;
      while p < |pool|
        invariant p <= |pool|
        invariant DismissStale(View(), p, broken) == DismissStale(old(View()), 0, broken)
        decreases |pool| - p
      {
        if IsLive(pool[p]) {
          p := p + 1;
        } else {
          DismissLength(View(), p);
          var stops := pool[p].index !in broken;
          DismissAt(p, stops);
          if !stops {
            p := p + 1;
          }
        }
      }
    }

    method FindIdle(broken: set<int>) returns (available: Option<nat>)
      modifies this, ledger`grants
      ensures View() == DismissStale(old(View()), 0, broken)
      ensures available == FirstOpen(pool)
    {
      SweepStale(broken);
      for p := 0 to |pool|
        invariant forall q :: 0 <= q < p ==> !IsOpen(pool[q])
      {
        if IsOpen(pool[p]) {
          assert pool[p] in pool;
          return Some(p);
        }
      }
      return None;
    }

    method FindLeastBusy() returns (least: Option<nat>)
      ensures least == LeastBusy(pool)
    {
      least := None;
      for p := 0 to |pool|
        invariant least == LeastBusy(pool[..p])
      {
        assert pool[..p + 1][..p] == pool[..p];
        if IsLive(pool[p]) && (least.None? || pool[p].invocations < pool[least.value].invocations) {
          least := Some(p);
        }
      }
      assert pool[..|pool|] == pool;
    }

    method ResolvePlacement(limit: int, coins: Coins, broken: set<int>, later: set<int>) returns (outcome: Outcome)
      modifies this, ledger
      ensures (View(), outcome) == Resolve(old(View()), limit, coins, broken, later)
    {
      hide Request;
      hide DismissStale;
      hide FirstOpen;
      hide LeastBusy;
      var available := FindIdle(broken);
      if available.Some? {
        return Reuse(pool[available.value]);
      }
      var d := ledger.RequestSlot(key, limit, me, coins);
      match d {
        case Retry => return RetryLater;
        case Granted(index) =>
          SweepStale(later);
          pool := pool + [Handle(index, Starting, 0)];
          return Grow(Handle(index, Starting, 0));
        case Place(target) =>
          if target != me {
            return Forward(target);
          }
          var least := FindLeastBusy();
          return if least.Some? then Queue(pool[least.value]) else NoLocalContainer;
      }
    }
  }

  lemma DismissLength(n: Node, p: nat)
    requires p < |n.pool|
    ensures |Dismiss(n, p, true).pool| == |n.pool| - 1 && |Dismiss(n, p, false).pool| == |n.pool|
  {
  }

  // ---- what each operation promises

  /** Dismissing one container leaves every other as it was, and the slot free if the container stopped. */
  lemma DismissIsLocal(n: Node, p: nat, stops: bool)
    requires p < |n.pool|
    ensures var d := Dismiss(n, p, stops);
            && (forall q :: 0 <= q < |n.pool| && q != p ==>
                  |d.pool| > (if stops && q > p then q - 1 else q) &&
                  d.pool[if stops && q > p then q - 1 else q] == n.pool[q])
            && (if stops then |d.pool| == |n.pool| - 1 && Holder(d.ledger.grants, n.key, n.pool[p].index) != Some(n.me)
                else |d.pool| == |n.pool| && d.ledger == n.ledger && d.pool[p].status.Dismissed? &&
                     d.pool[p].index == n.pool[p].index && d.pool[p].invocations == n.pool[p].invocations)
  {
  }

  /** A cancel frees the slot whether the container stops or not; a loss does, unless it was already given up. */
  lemma TeardownFrees(n: Node, p: nat, stops: bool)
    requires p < |n.pool|
    ensures Holder(Teardown(n, p, stops).ledger.grants, n.key, n.pool[p].index) != Some(n.me)
    ensures Lose(n, p, stops) == if IsLive(n.pool[p]) then Teardown(n, p, stops) else n
    ensures Teardown(n, p, stops).pool == Dismiss(n, p, stops).pool
  {
  }

  /** The live containers of a pool, in order. */
  function LiveOnes(pool: seq<Handle>): seq<Handle> {
    if pool == [] then []
    else LiveOnes(pool[..|pool| - 1]) + (if IsLive(pool[|pool| - 1]) then [pool[|pool| - 1]] else [])
  }

  lemma {:induction false} LiveOnesSplit(a: seq<Handle>, b: seq<Handle>)
    ensures LiveOnes(a + b) == LiveOnes(a) + LiveOnes(b)
    decreases |b|
  {
    if b == [] {
      assert a + b == a;
    } else {
      var n := |b| - 1;
      LiveOnesSplit(a, b[..n]);
      assert (a + b)[..|a| + n] == a + b[..n];
    }
  }

  lemma LiveOnesAround(front: seq<Handle>, h: Handle, back: seq<Handle>)
    requires !IsLive(h)
    ensures LiveOnes(front + [h] + back) == LiveOnes(front) + LiveOnes(back)
  {
    LiveOnesSplit(front + [h], back);
    assert (front + [h])[..|front|] == front;
  }

  lemma DismissKeepsLiveOnes(n: Node, p: nat, stops: bool)
    requires p < |n.pool| && !IsLive(n.pool[p])
    ensures LiveOnes(Dismiss(n, p, stops).pool) == LiveOnes(n.pool)
  {
    hide LiveOnes;
    hide Release;
    var front, back := n.pool[..p], n.pool[p + 1..];
    var marked := n.pool[p].(status := Status.Dismissed);
    assert n.pool == front + [n.pool[p]] + back;
    assert n.pool[p := marked] == front + [marked] + back;
    LiveOnesAround(front, n.pool[p], back);
    LiveOnesAround(front, marked, back);
    LiveOnesSplit(front, back);
  }

  /** A sweep keeps the live containers and their order, and does not touch readiness, gossip or cursors. */
  lemma {:induction false} SweepKeepsLiveOnes(n: Node, p: nat, broken: set<int>)
    requires p <= |n.pool|
    ensures var r := DismissStale(n, p, broken);
            LiveOnes(r.pool) == LiveOnes(n.pool) &&
            r.ledger == n.ledger.(grants := r.ledger.grants)
    decreases |n.pool| - p
  {
    if p < |n.pool| {
      DismissLength(n, p);
      DismissFrame(n, p, true);
      DismissFrame(n, p, false);
      if IsLive(n.pool[p]) {
        hide Dismiss;
        SweepKeepsLiveOnes(n, p + 1, broken);
      } else {
        DismissKeepsLiveOnes(n, p, true);
        DismissKeepsLiveOnes(n, p, false);
        hide Dismiss;
        hide LiveOnes;
        if n.pool[p].index in broken {
          SweepKeepsLiveOnes(Dismiss(n, p, false), p + 1, broken);
        } else {
          SweepKeepsLiveOnes(Dismiss(n, p, true), p, broken);
        }
      }
    }
  }

  lemma DismissFrame(n: Node, p: nat, stops: bool)
    requires p < |n.pool|
    ensures var d := Dismiss(n, p, stops);
            d.ledger == n.ledger.(grants := d.ledger.grants) && d.me == n.me && d.key == n.key
  {
  }

  /** `h` is the first open container of the pool. */
  ghost predicate IsFirstOpen(pool: seq<Handle>, h: Handle) {
    exists p :: 0 <= p < |pool| && pool[p] == h && IsOpen(h) && forall q :: 0 <= q < p ==> !IsOpen(pool[q])
  }

  ghost predicate IsQueuedOn(pool: seq<Handle>, h: Handle) {
    exists p: nat :: IsLeastBusy(pool, p) && pool[p] == h
  }

  /** The outcome `o`, which leaves `r`, is right for a pool and ledger swept to `swept`. */
  ghost predicate FitsOutcome(swept: Node, r: Node, o: Outcome) {
    match o
    case Reuse(h) => r == swept && IsFirstOpen(r.pool, h)
    case Grow(h) =>
      && r.pool != [] && r.pool[|r.pool| - 1] == h && h.status.Starting? && h.invocations == 0
      && h.index !in GrantsOf(swept.ledger, swept.key)
    case Queue(h) => r.pool == swept.pool && IsQueuedOn(r.pool, h)
    case Forward(target) =>
      && r.pool == swept.pool && target != swept.me
      && exists slot :: Holder(swept.ledger.grants, swept.key, slot) == Some(target)
    case RetryLater => r == swept
    case NoLocalContainer => r.pool == swept.pool
  }

  /**
   * Where a job runs. It reuses a container exactly when one is open, and then the first open one;
   * it grows by a starting container, last in the pool, in a slot nobody owned; it queues behind a
   * least busy one; it is forwarded to another endpoint that owns a slot; and it is to be retried
   * exactly when nothing is open and the ledger is not ready. It is queued or forwarded as the
   * leader says, whose ledger stays as its answer left it.
   */
  lemma OutcomeIs(n: Node, limit: int, coins: Coins, broken: set<int>, later: set<int>)
    ensures var (r, o) := Resolve(n, limit, coins, broken, later);
            && FitsOutcome(DismissStale(n, 0, broken), r, o)
            && (o.Reuse? <==> exists h :: h in n.pool && IsOpen(h))
            && (o.RetryLater? <==> !n.ledger.ready && forall h :: h in n.pool ==> !IsOpen(h))
            && (o.Queue? || o.Forward? || o.NoLocalContainer? ==>
                  var target := if o.Forward? then o.target else n.me;
                  Request(DismissStale(n, 0, broken).ledger, n.key, limit, n.me, coins) == (r.ledger, Place(target)))
  {
    var swept := DismissStale(n, 0, broken);
    SweepKeepsLiveOnes(n, 0, broken);
    forall h | IsOpen(h)
      ensures h in swept.pool <==> h in n.pool
    {
      SweepKeepsLive(n, 0, broken, h);
    }
    AskedAre(swept, limit, coins);
    hide DismissStale;
    hide Request;
    hide LiveOnes;
    var available := FirstOpen(swept.pool);
    if available.Some? {
      assert IsFirstOpen(swept.pool, swept.pool[available.value]);
    }
    hide FirstOpen;
    hide LeastBusy;
    hide IsLeastBusy;
  }

  /** The leader's answers, for one request. */
  lemma AskedAre(n: Node, limit: int, coins: Coins)
    ensures var d := Request(n.ledger, n.key, limit, n.me, coins).1;
            && (d.Retry? <==> !n.ledger.ready)
            && (d.Retry? ==> Request(n.ledger, n.key, limit, n.me, coins).0 == n.ledger)
            && (d.Granted? ==> d.slot !in GrantsOf(n.ledger, n.key))
            && (d.Place? ==> exists slot :: Holder(n.ledger.grants, n.key, slot) == Some(d.target))
  {
    var d := Request(n.ledger, n.key, limit, n.me, coins).1;
    RetryIffNotReady(n.ledger, n.key, limit, n.me, coins);
    if d.Granted? {
      GrantIsLeastUnused(n.ledger, n.key, limit, n.me, coins);
    } else if d.Place? {
      PlacementKeepsGrants(n.ledger, n.key, limit, n.me, coins);
      hide Request;
      var g := GrantsOf(n.ledger, n.key);
      var slot :| slot in g && g[slot] == d.target;
      assert Holder(n.ledger.grants, n.key, slot) == Some(d.target);
    }
  }

  // ---- pool and ledger agree

  /** The slots the ledger says this endpoint owns. */
  function Mine(n: Node): set<int> {
    var g := GrantsOf(n.ledger, n.key);
    set i | i in g && g[i] == n.me
  }

  function Indices(pool: seq<Handle>): set<int> {
    set p | 0 <= p < |pool| :: pool[p].index
  }

  ghost predicate DistinctIndices(pool: seq<Handle>) {
    forall p, q :: 0 <= p < q < |pool| ==> pool[p].index != pool[q].index
  }

  /** The endpoint owns exactly the slots of the containers in its pool, and no slot holds two. */
  ghost predicate Balanced(n: Node) {
    DistinctIndices(n.pool) && Mine(n) == Indices(n.pool)
  }

  lemma ReleaseMine(n: Node, index: int)
    ensures Mine(GiveBack(n, index)) == Mine(n) - {index}
  {
  }

  lemma WithoutIndices(pool: seq<Handle>, p: nat)
    requires p < |pool| && DistinctIndices(pool)
    ensures DistinctIndices(Without(pool, p)) && Indices(Without(pool, p)) == Indices(pool) - {pool[p].index}
  {
    var rest := Without(pool, p);
    assert forall q :: 0 <= q < |rest| ==> rest[q] == pool[if q < p then q else q + 1];
    forall q | 0 <= q < |pool| && q != p
      ensures pool[q].index in Indices(rest)
    {
      assert rest[if q < p then q else q - 1] == pool[q];
    }
  }

  lemma SameIndices(pool: seq<Handle>, p: nat, status: Status)
    requires p < |pool| && DistinctIndices(pool)
    ensures var after := pool[p := pool[p].(status := status)];
            DistinctIndices(after) && Indices(after) == Indices(pool)
  {
    var after := pool[p := pool[p].(status := status)];
    assert forall q :: 0 <= q < |pool| ==> after[q].index == pool[q].index;
  }

  /** Dismissing keeps pool and ledger in agreement, whether or not the container stops. */
  lemma DismissKeepsBalanced(n: Node, p: nat, stops: bool)
    requires Balanced(n) && p < |n.pool|
    ensures Balanced(Dismiss(n, p, stops))
  {
    hide Release;
    ReleaseMine(n.(pool := Without(n.pool, p)), n.pool[p].index);
    WithoutIndices(n.pool, p);
    SameIndices(n.pool, p, Status.Dismissed);
    assert Mine(n.(pool := Without(n.pool, p))) == Mine(n);
    hide Without;
    hide DistinctIndices;
    hide Indices;
  }

  lemma {:induction false} StaleKeepsBalanced(n: Node, p: nat, broken: set<int>)
    requires Balanced(n) && p <= |n.pool|
    ensures Balanced(DismissStale(n, p, broken))
    decreases |n.pool| - p
  {
    hide Dismiss;
    hide Balanced;
    if p < |n.pool| {
      DismissKeepsBalanced(n, p, true);
      DismissKeepsBalanced(n, p, false);
      DismissLength(n, p);
      if IsLive(n.pool[p]) {
        StaleKeepsBalanced(n, p + 1, broken);
      } else if n.pool[p].index in broken {
        StaleKeepsBalanced(Dismiss(n, p, false), p + 1, broken);
      } else {
        StaleKeepsBalanced(Dismiss(n, p, true), p, broken);
      }
    }
  }

  ghost predicate SweptTo(pool: seq<Handle>, p: nat, broken: set<int>)
    requires p <= |pool|
  {
    forall q :: 0 <= q < p ==> IsLive(pool[q]) || pool[q].index in broken
  }

  /** After a sweep the only stale containers left are those that would not stop. */
  lemma {:induction false} SweptIsLive(n: Node, p: nat, broken: set<int>)
    requires p <= |n.pool| && SweptTo(n.pool, p, broken)
    ensures SweptTo(DismissStale(n, p, broken).pool, |DismissStale(n, p, broken).pool|, broken)
    decreases |n.pool| - p
  {
    hide Release;
    if p < |n.pool| {
      if IsLive(n.pool[p]) {
        SweptIsLive(n, p + 1, broken);
      } else if n.pool[p].index in broken {
        SweptIsLive(Dismiss(n, p, false), p + 1, broken);
      } else {
        SweptIsLive(Dismiss(n, p, true), p, broken);
      }
    }
  }

  lemma GrantMine(n: Node, limit: int, coins: Coins)
    ensures var (l, d) := Request(n.ledger, n.key, limit, n.me, coins);
            if d.Granted? then d.slot !in GrantsOf(n.ledger, n.key) && Mine(n.(ledger := l)) == Mine(n) + {d.slot}
            else Mine(n.(ledger := l)) == Mine(n)
  {
    var d := Request(n.ledger, n.key, limit, n.me, coins).1;
    match d
    case Granted(_) => GrantIsLeastUnused(n.ledger, n.key, limit, n.me, coins); hide Request;
    case Place(_) => PlacementKeepsGrants(n.ledger, n.key, limit, n.me, coins); hide Request;
    case Retry =>
  }

  /**
   * Sweeping stale containers after the grant and before the new container joins the pool:
   * as if the new one had joined first, since the sweep cannot meet its slot.
   */
  lemma {:induction false} SummonBalances(n: Node, index: int, p: nat, broken: set<int>)
    requires DistinctIndices(n.pool) && Mine(n) == Indices(n.pool) + {index}
    requires index !in Indices(n.pool) && p <= |n.pool|
    ensures var swept := DismissStale(n, p, broken);
            DistinctIndices(swept.pool) && Mine(swept) == Indices(swept.pool) + {index} &&
            index !in Indices(swept.pool)
    decreases |n.pool| - p
  {
    hide Release;
    hide Mine;
    if p < |n.pool| {
      DismissLength(n, p);
      if IsLive(n.pool[p]) {
        SummonBalances(n, index, p + 1, broken);
      } else {
        OneDismissed(n, index, p, n.pool[p].index !in broken);
        hide Dismiss;
        hide Indices;
        hide DistinctIndices;
        if n.pool[p].index in broken {
          SummonBalances(Dismiss(n, p, false), index, p + 1, broken);
        } else {
          SummonBalances(Dismiss(n, p, true), index, p, broken);
        }
      }
    }
  }

  lemma OneDismissed(n: Node, index: int, p: nat, stops: bool)
    requires DistinctIndices(n.pool) && Mine(n) == Indices(n.pool) + {index}
    requires index !in Indices(n.pool) && p < |n.pool|
    ensures var d := Dismiss(n, p, stops);
            DistinctIndices(d.pool) && Mine(d) == Indices(d.pool) + {index} && index !in Indices(d.pool)
  {
    hide Release;
    var without := n.(pool := Without(n.pool, p));
    ReleaseMine(without, n.pool[p].index);
    WithoutIndices(n.pool, p);
    SameIndices(n.pool, p, Status.Dismissed);
    assert n.pool[p].index in Indices(n.pool);
    assert Mine(without) == Mine(n);
    assert Mine(n.(pool := n.pool[p := n.pool[p].(status := Status.Dismissed)])) == Mine(n);
    hide Without;
    hide DistinctIndices;
    hide Mine;
    hide Indices;
  }

  lemma Appended(pool: seq<Handle>, h: Handle)
    requires DistinctIndices(pool) && h.index !in Indices(pool)
    ensures DistinctIndices(pool + [h]) && Indices(pool + [h]) == Indices(pool) + {h.index}
  {
    var more := pool + [h];
    assert more[|pool|] == h;
    forall q | 0 <= q < |pool|
      ensures more[q].index != h.index && pool[q].index in Indices(more)
    {
      assert more[q] == pool[q] && pool[q].index in Indices(pool);
    }
  }

  lemma SummonKeepsBalanced(n: Node, index: int, broken: set<int>)
    requires DistinctIndices(n.pool) && Mine(n) == Indices(n.pool) + {index} && index !in Indices(n.pool)
    ensures Balanced(SummonAt(n, index, broken))
  {
    hide Mine;
    SummonBalances(n, index, 0, broken);
    var swept := DismissStale(n, 0, broken);
    Appended(swept.pool, Handle(index, Starting, 0));
    SameMine(swept, swept.pool + [Handle(index, Starting, 0)]);
    hide Indices;
    hide DistinctIndices;
    hide DismissStale;
  }

  lemma SameMine(n: Node, pool: seq<Handle>)
    ensures Mine(n.(pool := pool)) == Mine(n)
  {
  }

  /** Placing a job keeps pool and ledger in agreement, whatever stops fail on the way. */
  lemma ResolveKeepsBalanced(n: Node, limit: int, coins: Coins, broken: set<int>, later: set<int>)
    requires Balanced(n)
    ensures Balanced(Resolve(n, limit, coins, broken, later).0)
  {
    hide Request;
    hide DismissStale;
    hide SummonAt;
    hide FirstOpen;
    hide LeastBusy;
    StaleKeepsBalanced(n, 0, broken);
    var swept := DismissStale(n, 0, broken);
    GrantMine(swept, limit, coins);
    var (ledger, d) := Request(swept.ledger, n.key, limit, n.me, coins);
    if d.Granted? {
      assert d.slot !in Mine(swept);
      hide Mine;
      SummonKeepsBalanced(swept.(ledger := ledger), d.slot, later);
    }
    hide Indices;
    hide DistinctIndices;
    hide GrantsOf;
  }

  lemma DismissKeepsLive(n: Node, p: nat, stops: bool, h: Handle)
    requires p < |n.pool| && !IsLive(n.pool[p]) && IsLive(h)
    ensures h in Dismiss(n, p, stops).pool <==> h in n.pool
  {
    hide Release;
    var after := Dismiss(n, p, stops).pool;
    if h in n.pool {
      var q :| 0 <= q < |n.pool| && n.pool[q] == h;
      assert after[if stops && q > p then q - 1 else q] == h;
    }
  }

  /** A sweep neither adds nor removes live containers. */
  lemma {:induction false} SweepKeepsLive(n: Node, p: nat, broken: set<int>, h: Handle)
    requires p <= |n.pool| && IsLive(h)
    ensures h in DismissStale(n, p, broken).pool <==> h in n.pool
    decreases |n.pool| - p
  {
    hide Dismiss;
    if p < |n.pool| {
      DismissLength(n, p);
      if IsLive(n.pool[p]) {
        SweepKeepsLive(n, p + 1, broken, h);
      } else if n.pool[p].index in broken {
        DismissKeepsLive(n, p, false, h);
        SweepKeepsLive(Dismiss(n, p, false), p + 1, broken, h);
      } else {
        DismissKeepsLive(n, p, true, h);
        SweepKeepsLive(Dismiss(n, p, true), p, broken, h);
      }
    }
  }

  /** The ledger would place a request of this endpoint with the endpoint itself. */
  predicate PlacedWithItself(l: State, key: FnKey, limit: int, me: string, coins: Coins) {
    && l.ready && |GrantsOf(l, key)| >= Cap(limit) && IdleOwners(l, key, me) == []
    && Owners(GrantsOf(l, key)) != [] && Choose(l, key, Owners(GrantsOf(l, key)), coins).1 == me
  }

  lemma PlacedWithItselfIff(l: State, key: FnKey, limit: int, me: string, coins: Coins)
    ensures Request(l, key, limit, me, coins).1 == Place(me) <==> PlacedWithItself(l, key, limit, me, coins)
  {
    var idle := IdleOwners(l, key, me);
    assert me !in idle;
    if idle != [] {
      assert Choose(l, key, idle, coins).1 in idle;
    }
    hide Choose;
    hide Owners;
  }

  /**
   * "No local container exists" is answered exactly when, once stale containers are swept, the
   * version is at capacity, no other owner reports an idle container and the choice among its
   * owners falls on this endpoint, while none of its own containers is live.
   */
  lemma NoLocalContainerIff(n: Node, limit: int, coins: Coins, broken: set<int>, later: set<int>)
    ensures Resolve(n, limit, coins, broken, later).1.NoLocalContainer? <==>
            PlacedWithItself(DismissStale(n, 0, broken).ledger, n.key, limit, n.me, coins) &&
            forall h :: h in n.pool ==> !IsLive(h)
  {
    hide DismissStale;
    hide Request;
    var swept := DismissStale(n, 0, broken);
    PlacedWithItselfIff(swept.ledger, n.key, limit, n.me, coins);
    hide PlacedWithItself;
    forall h | IsLive(h)
      ensures h in swept.pool <==> h in n.pool
    {
      SweepKeepsLive(n, 0, broken, h);
    }
    hide FirstOpen;
    hide LeastBusy;
  }

  /** In agreement with the ledger that takes a stale container that would not stop. */
  lemma PlacedJobFindsContainer(n: Node, limit: int, coins: Coins, broken: set<int>, later: set<int>)
    requires Balanced(n) && Resolve(n, limit, coins, broken, later).1.NoLocalContainer?
    ensures exists i :: i in Mine(DismissStale(n, 0, broken)) && i in broken
  {
    StaleKeepsBalanced(n, 0, broken);
    SweptIsLive(n, 0, broken);
    var swept := DismissStale(n, 0, broken);
    hide DismissStale;
    PlacementKeepsGrants(swept.ledger, n.key, limit, n.me, coins);
    hide Request;
    var g := GrantsOf(swept.ledger, n.key);
    var slot :| slot in g && g[slot] == n.me;
    assert slot in Mine(swept);
    var p :| 0 <= p < |swept.pool| && swept.pool[p].index == slot;
    assert swept.pool[p] in swept.pool;
    hide FirstOpen;
  }

  /** And it happens: the only slot belongs to a crashed container that will not stop. */
  lemma NoLocalContainerHappens(me: string, key: FnKey, coins: Coins, later: set<int>, ledger: State)
    requires ledger.ready && GrantsOf(ledger, key) == map[0 := me]
    ensures var n := Node(me, key, [Handle(0, Crashed, 1)], ledger);
            Balanced(n) && Resolve(n, 1, coins, {0}, later).1 == NoLocalContainer
  {
    var n := Node(me, key, [Handle(0, Crashed, 1)], ledger);
    assert Mine(n) == {0} == Indices(n.pool) by {
      assert n.pool[0].index == 0;
    }
    var d := Dismiss(n, 0, false);
    assert DismissStale(d, 1, {0}) == d;
    var swept := DismissStale(n, 0, {0});
    assert swept == d && swept.ledger == ledger;
    OnlyOwnerIsPlaced(ledger, key, me, coins);
    PlacedWithItselfIff(ledger, key, 1, me, coins);
    NoLocalContainerIff(n, 1, coins, {0}, later);
    hide Request;
    hide Resolve;
  }

  lemma OnlyOwnerIsPlaced(l: State, key: FnKey, me: string, coins: Coins)
    requires l.ready && GrantsOf(l, key) == map[0 := me]
    ensures Request(l, key, 1, me, coins).1 == Place(me)
  {
    var g := GrantsOf(l, key);
    assert OwnerSet(g) == {me} by {
      assert g[0] in OwnerSet(g);
    }
    assert |g| == 1;
    SortedSingle(me);
    assert Owners(g) == [me];
    hide Owners;
    assert IdleOwners(l, key, me) == [];
  }

  /** A cancel keeps the agreement exactly when the container stops. */
  lemma TeardownKeepsIff(n: Node, p: nat, stops: bool)
    requires Balanced(n) && p < |n.pool|
    ensures Balanced(Teardown(n, p, stops)) <==> stops
  {
    var index := n.pool[p].index;
    DismissKeepsBalanced(n, p, stops);
    var d := Dismiss(n, p, stops);
    ReleaseMine(d, index);
    if stops {
      WithoutIndices(n.pool, p);
    } else {
      assert d.pool[p].index == index;
      assert index in Indices(d.pool);
    }
    hide Release;
    hide DistinctIndices;
  }

  /** So does a crash or timeout, except that a container already given up is left alone. */
  lemma LossKeepsIff(n: Node, p: nat, stops: bool)
    requires Balanced(n) && p < |n.pool|
    ensures Balanced(Lose(n, p, stops)) <==> stops || !IsLive(n.pool[p])
  {
    TeardownKeepsIff(n, p, stops);
    hide Balanced;
    hide Teardown;
  }

  /** What the agreement prevents: after a failed stop the freed slot is granted again and held twice. */
  lemma FailedStopDuplicates(me: string, key: FnKey, limit: int, coins: Coins, ledger: State)
    requires ledger.ready && GrantsOf(ledger, key) == map[0 := me]
    ensures var n := Node(me, key, [Handle(0, Busy, 1)], ledger);
            var torn := Lose(n, 0, false);
            Balanced(n) && Resolve(torn, limit, coins, {0}, {0}).0.pool == [Handle(0, Status.Dismissed, 1), Handle(0, Starting, 0)]
  {
    var n := Node(me, key, [Handle(0, Busy, 1)], ledger);
    var torn := Lose(n, 0, false);
    assert Mine(n) == {0} == Indices(n.pool) by {
      assert n.pool[0].index == 0;
    }
    assert torn.pool == [Handle(0, Status.Dismissed, 1)];
    assert map[0 := me] - {0} == map[];
    assert GrantsOf(torn.ledger, key) == map[];
    StaleStays(torn, 0);
    assert FirstOpen(torn.pool).None?;
    NoneGranted(torn.ledger, key, limit, me, coins);
    var asked := torn.(ledger := Request(torn.ledger, key, limit, me, coins).0);
    StaleStays(asked, 0);
    hide Request;
    hide Release;
  }

  lemma StaleStays(n: Node, index: int)
    requires |n.pool| == 1 && n.pool[0].index == index && n.pool[0].status.Dismissed?
    ensures DismissStale(n, 0, {index}) == n
  {
    var d := Dismiss(n, 0, false);
    assert d.pool == n.pool;
    assert DismissStale(d, 1, {index}) == d;
  }

  // ---- runs

  datatype Event =
    | Job(limit: int, coins: Coins, broken: set<int>, later: set<int>)
    | StatusChange(p: nat, status: Status)
    | Sweep(p: nat, stops: bool)
    | Loss(p: nat, stops: bool)
    | Cancel(p: nat, stops: bool)
    | Elsewhere(op: Op, limits: FnKey -> int)

  /** Ledger traffic that is not this endpoint's business with this function version. */
  ghost predicate IsElsewhere(op: Op, me: string, key: FnKey) {
    match op
    case RequestOp(k, requester, _) => k != key || requester != me
    case ReleaseOp(k, _, endpoint) => k != key || endpoint != me
    case ReapOp(known) => me in known
    case BeginOp => true
    case IngestOp(_, _) => true
    case ReconcileOp(_) => false
  }

  ghost predicate Possible(n: Node, e: Event) {
    match e
    case StatusChange(p, _) => p < |n.pool|
    case Sweep(p, _) => p < |n.pool|
    case Loss(p, _) => p < |n.pool|
    case Cancel(p, _) => p < |n.pool|
    case Elsewhere(op, _) => IsElsewhere(op, n.me, n.key)
    case Job(_, _, _, _) => true
  }

  ghost function Next(n: Node, e: Event): Node
    requires Possible(n, e)
  {
    match e
    case Job(limit, coins, broken, later) => Resolve(n, limit, coins, broken, later).0
    case StatusChange(p, status) => n.(pool := n.pool[p := n.pool[p].(status := status)])
    case Sweep(p, stops) => Dismiss(n, p, stops)
    case Loss(p, stops) => Lose(n, p, stops)
    case Cancel(p, stops) => Teardown(n, p, stops)
    case Elsewhere(op, limits) => n.(ledger := Step(n.ledger, op, limits))
  }

  lemma OthersKeepMine(n: Node, op: Op, limits: FnKey -> int)
    requires IsElsewhere(op, n.me, n.key)
    ensures Mine(n.(ledger := Step(n.ledger, op, limits))) == Mine(n)
  {
    match op
    case RequestOp(key, requester, coins) =>
      var d := Request(n.ledger, key, limits(key), requester, coins).1;
      if d.Granted? {
        GrantIsLeastUnused(n.ledger, key, limits(key), requester, coins);
        hide Request;
      } else if d.Place? {
        PlacementKeepsGrants(n.ledger, key, limits(key), requester, coins);
        hide Request;
      }
    case ReleaseOp(_, _, _) =>
    case ReapOp(known) =>
      assert GrantsOf(Reap(n.ledger, known), n.key) == Known(GrantsOf(n.ledger, n.key), known);
    case BeginOp =>
    case IngestOp(_, _) =>
  }

  /** A container lost or cancelled does stop. */
  predicate Stops(e: Event) {
    (e.Loss? || e.Cancel?) ==> e.stops
  }

  lemma NextKeepsBalanced(n: Node, e: Event)
    requires Balanced(n) && Possible(n, e) && Stops(e)
    ensures Balanced(Next(n, e))
  {
    match e
    case Job(limit, coins, broken, later) => ResolveKeepsBalanced(n, limit, coins, broken, later);
    case StatusChange(p, status) =>
      SameIndices(n.pool, p, status);
      SameMine(n, n.pool[p := n.pool[p].(status := status)]);
      hide Mine;
    case Sweep(p, stops) => DismissKeepsBalanced(n, p, stops);
    case Loss(p, stops) => LossKeepsIff(n, p, stops);
    case Cancel(p, stops) => TeardownKeepsIff(n, p, stops);
    case Elsewhere(op, limits) => OthersKeepMine(n, op, limits); hide Mine;
  }

  ghost predicate IsRun(nodes: seq<Node>, events: seq<Event>) {
    && |nodes| == |events| + 1
    && forall i :: 0 <= i < |events| ==> Possible(nodes[i], events[i]) && nodes[i + 1] == Next(nodes[i], events[i])
  }

  /**
   * Over every run of jobs, status changes, sweeps, losses whose containers stop, and anything
   * other endpoints do, the endpoint owns exactly the slots of its containers: none leaks, none
   * is held twice.
   */
  lemma {:induction false} PoolMatchesLedger(nodes: seq<Node>, events: seq<Event>)
    requires IsRun(nodes, events) && Balanced(nodes[0])
    requires forall i :: 0 <= i < |events| ==> Stops(events[i])
    ensures Balanced(nodes[|events|])
    decreases |events|
  {
    if events != [] {
      var k := |events| - 1;
      PoolMatchesLedger(nodes[..k + 1], events[..k]);
      NextKeepsBalanced(nodes[k], events[k]);
      hide Next;
      hide Balanced;
    }
  }
}
