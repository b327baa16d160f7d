/** The leader's slot ledger: which endpoint owns which pool slot of a function version. */
module Ledger {
  import opened Wrappers
  import opened StringOrder
  import opened Cyclic
  import Text

  type Grants = map<int, string>

  datatype Strategy = RoundRobin | Random | TwoChoices

  /** One draw of the random source: two positions, used by the random strategies only. */
  datatype Coins = Coins(first: nat, second: nat)

  datatype Decision = Granted(slot: int) | Place(target: string) | Retry

  datatype Load = Load(live: int, idle: int)

  /** One entry of a gossiped pool summary. */
  datatype PoolCount = PoolCount(key: string, load: Load)

  datatype Entry = Entry(key: FnKey, slot: int)

  datatype Report = Report(endpoint: string, entries: seq<Entry>)

  datatype State = State(
    strategy: Strategy,
    ready: bool,
    grants: map<FnKey, Grants>,
    metrics: map<FnKey, map<string, Load>>,
    cursor: map<FnKey, nat>)

  // ---- reading the ledger

  function GrantsOf(l: State, key: FnKey): Grants {
    if key in l.grants then l.grants[key] else map[]
  }

  function LoadOf(l: State, key: FnKey, endpoint: string): Load {
    if key in l.metrics && endpoint in l.metrics[key] then l.metrics[key][endpoint] else Load(0, 0)
  }

  function Busy(l: State, key: FnKey, endpoint: string): int {
    Max(0, LoadOf(l, key, endpoint).live - LoadOf(l, key, endpoint).idle)
  }

  function OwnerSet(g: Grants): set<string> {
    set slot | slot in g :: g[slot]
  }

  function Owners(g: Grants): seq<string> {
    Sorted(OwnerSet(g))
  }

  function IdleAmong(l: State, key: FnKey, requester: string, owners: seq<string>): (r: seq<string>)
    ensures forall e :: e in r <==> e in owners && e != requester && LoadOf(l, key, e).idle > 0
    ensures |r| <= |owners|
    ensures Distinct(owners) ==> Distinct(r)
  {
    if owners == [] then []
    else
      var rest := IdleAmong(l, key, requester, owners[1..]);
      if owners[0] != requester && LoadOf(l, key, owners[0]).idle > 0 then [owners[0]] + rest else rest
  }

  function IdleOwners(l: State, key: FnKey, requester: string): seq<string> {
    IdleAmong(l, key, requester, Owners(GrantsOf(l, key)))
  }

  function Cap(maxConcurrency: int): (c: nat)
    ensures c >= 1
  {
    Max(1, maxConcurrency)
  }

  // ---- the least unused index

  /** The indices 0..n. */
  function Range(n: nat): (r: set<int>)
    ensures forall j :: j in r <==> 0 <= j < n
    ensures |r| == n
  {
    if n == 0 then {} else Range(n - 1) + {n - 1}
  }

  function LeastUnusedFrom(g: Grants, i: nat): (r: nat)
    ensures r >= i && r !in g
    ensures forall j :: i <= j < r ==> j in g
    decreases g.Keys - Range(i)
  {
    if i in g then
      assert i in g.Keys - Range(i) && i !in g.Keys - Range(i + 1);
      LeastUnusedFrom(g, i + 1)
    else i
  }

  function LeastUnused(g: Grants): nat {
    LeastUnusedFrom(g, 0)
  }

  /** Pigeonhole: the least unused index never exceeds the number of grants. */
  lemma LeastUnusedBound(g: Grants)
    ensures LeastUnused(g) <= |g|
  {
    var r := LeastUnused(g);
    SubsetSize(Range(r), g.Keys);
  }

  // ---- choosing among candidates

  /** The pair a two-element sample without replacement draws, for any coins. */
  function Sample(candidates: seq<string>, coins: Coins): (r: (string, string))
    requires |candidates| >= 2
    ensures r.0 in candidates && r.1 in candidates
    ensures Distinct(candidates) ==> r.0 != r.1
  {
    var n := |candidates|;
    var i := coins.first % n;
    var step := 1 + coins.second % (n - 1);
    var j := if i + step < n then i + step else i + step - n;
    (candidates[i], candidates[j])
  }

  function CursorOf(l: State, key: FnKey): nat {
    if key in l.cursor then l.cursor[key] else 0
  }

  function Choose(l: State, key: FnKey, candidates: seq<string>, coins: Coins): (r: (State, string))
    requires candidates != []
    ensures r.1 in candidates
    ensures r.0 == l || r.0 == l.(cursor := l.cursor[key := CursorOf(l, key) + 1])
  {
    var n := |candidates|;
    if n == 1 then (l, candidates[0])
    else match l.strategy
      case RoundRobin =>
        var c := CursorOf(l, key);
        (l.(cursor := l.cursor[key := c + 1]), candidates[c % n])
      case TwoChoices =>
        var (a, b) := Sample(candidates, coins);
        (l, if Busy(l, key, a) <= Busy(l, key, b) then a else b)
      case Random => (l, candidates[coins.first % n])
  }

  // ---- the operations

  function Request(l: State, key: FnKey, maxConcurrency: int, requester: string, coins: Coins): (State, Decision) {
    if !l.ready then (l, Retry)
    else
      var g := GrantsOf(l, key);
      var owners := Owners(g);
      var idle := IdleOwners(l, key, requester);
      if idle != [] then
        var (l', target) := Choose(l, key, idle, coins);
        (l', Place(target))
      else if |g| < Cap(maxConcurrency) then
        var slot := LeastUnused(g);
        (l.(grants := l.grants[key := g[slot := requester]]), Granted(slot))
      else if owners == [] then (l, Retry)
      else
        var (l', target) := Choose(l, key, owners, coins);
        (l', Place(target))
  }

  /** Stores the grants of one key, dropping the key once it has none. */
  function WithGrants(grants: map<FnKey, Grants>, key: FnKey, g: Grants): map<FnKey, Grants> {
    if g == map[] then grants - {key} else grants[key := g]
  }

  function Release(l: State, key: FnKey, slot: int, endpoint: string): State {
    var g := GrantsOf(l, key);
    if slot in g && g[slot] == endpoint then l.(grants := WithGrants(l.grants, key, g - {slot})) else l
  }

  function Known(g: Grants, known: set<string>): Grants {
    map i | i in g && g[i] in known :: g[i]
  }

  function Reap(l: State, known: set<string>): State {
    l.(grants := map key | key in l.grants && Known(l.grants[key], known) != map[] :: Known(l.grants[key], known))
  }

  function AddEntries(grants: map<FnKey, Grants>, endpoint: string, entries: seq<Entry>): map<FnKey, Grants> {
    if entries == [] then grants
    else
      var before := AddEntries(grants, endpoint, entries[..|entries| - 1]);
      var e := entries[|entries| - 1];
      var g := if e.key in before then before[e.key] else map[];
      before[e.key := g[e.slot := endpoint]]
  }

  function AddReports(reports: seq<Report>): map<FnKey, Grants> {
    if reports == [] then map[]
    else
      var last := reports[|reports| - 1];
      AddEntries(AddReports(reports[..|reports| - 1]), last.endpoint, last.entries)
  }

  function Reconcile(l: State, reports: seq<Report>): State {
    l.(grants := AddReports(reports), cursor := map[], ready := true)
  }

  function IngestOne(l: State, endpoint: string, key: FnKey, load: Load): State {
    var m := if key in l.metrics then l.metrics[key] else map[];
    l.(metrics := l.metrics[key := m[endpoint := load]])
  }

  /** One endpoint's gossiped pool counts, in the order of its message; malformed keys are skipped. */
  function Ingest(l: State, endpoint: string, pools: seq<PoolCount>): (r: State)
    ensures r == l.(metrics := r.metrics)
  {
    if pools == [] then l
    else
      var n := |pools| - 1;
      var before, parsed := Ingest(l, endpoint, pools[..n]), Text.ParsePoolKey(pools[n].key);
      if parsed.None? then before
      else IngestOne(before, endpoint, FnKey(parsed.value.0, parsed.value.1), pools[n].load)
  }

  /** What an endpoint gossips last about a function version is what the ledger knows of it. */
  lemma {:induction false} GossipIsKnown(
      l: State, endpoint: string, pools: seq<PoolCount>, key: FnKey, load: Load, p: nat)
    requires p < |pools| && pools[p] == PoolCount(Text.PoolKey(key.id, key.version), load)
    requires forall q :: p < q < |pools| ==> Text.ParsePoolKey(pools[q].key) != Some((key.id, key.version))
    ensures LoadOf(Ingest(l, endpoint, pools), key, endpoint) == load
    decreases |pools|
  {
    Text.ParsePool(key.id, key.version);
    hide Text.ParsePoolKey;
    hide Text.PoolKey;
    var n := |pools| - 1;
    if p < n {
      GossipIsKnown(l, endpoint, pools[..n], key, load, p);
    }
  }

  /** It tells nothing about other endpoints. */
  lemma {:induction false} GossipIsOwn(
      l: State, endpoint: string, pools: seq<PoolCount>, key: FnKey, other: string)
    requires other != endpoint
    ensures LoadOf(Ingest(l, endpoint, pools), key, other) == LoadOf(l, key, other)
  {
    hide Text.ParsePoolKey;
    if pools != [] {
      GossipIsOwn(l, endpoint, pools[..|pools| - 1], key, other);
    }
  }

  // ---- the ledger object

  class ConcurrencyLedger {
    const strategy: Strategy
    var ready: bool
    var grants: map<FnKey, Grants>
    var metrics: map<FnKey, map<string, Load>>
    var cursor: map<FnKey, nat>

    ghost function View(): State
      reads this
    {
      State(strategy, ready, grants, metrics, cursor)
    }

    constructor (strategy: Strategy)
      ensures View() == State(strategy, true, map[], map[], map[])
    {
      this.strategy := strategy;
      ready, grants, metrics, cursor := true, map[], map[], map[];
    }

    method SmallestUnusedIndex(g: Grants) returns (i: nat)
      ensures i == LeastUnused(g)
    {
      i := 0;
      while i in g
        invariant LeastUnusedFrom(g, i) == LeastUnused(g)
        decreases g.Keys - Range(i)
      {
        assert i in g.Keys - Range(i) && i !in g.Keys - Range(i + 1);
        i := i + 1;
      }
    }

    method ChooseOwner(key: FnKey, candidates: seq<string>, coins: Coins) returns (target: string)
      requires candidates != []
      modifies this`cursor
      ensures (View(), target) == Choose(old(View()), key, candidates, coins)
    {
      if |candidates| == 1 {
        return candidates[0];
      }
      match strategy {
        case RoundRobin =>
          var c := if key in cursor then cursor[key] else 0;
          target := candidates[c % |candidates|];
          cursor := cursor[key := c + 1];
        case TwoChoices =>
          var (a, b) := Sample(candidates, coins);
          var ma := if key in metrics && a in metrics[key] then metrics[key][a] else Load(0, 0);
          var mb := if key in metrics && b in metrics[key] then metrics[key][b] else Load(0, 0);
          target := if Max(0, ma.live - ma.idle) <= Max(0, mb.live - mb.idle) then a else b;
        case Random =>
          target := candidates[coins.first % |candidates|];
      }
    }

    method FindIdle(key: FnKey, requester: string, owners: seq<string>) returns (idle: seq<string>)
      ensures idle == IdleAmong(View(), key, requester, owners)
    {
      idle := [];
      var i := |owners|;
      while i > 0
        invariant 0 <= i <= |owners|
        invariant idle == IdleAmong(View(), key, requester, owners[i..])
      {
        i := i - 1;
        var e := owners[i];
        assert owners[i..] == [e] + owners[i + 1..];
        var load := if key in metrics && e in metrics[key] then metrics[key][e] else Load(0, 0);
        if e != requester && load.idle > 0 {
          idle := [e] + idle;
        }
      }
      assert owners[0..] == owners;
    }

    method RequestSlot(key: FnKey, maxConcurrency: int, requester: string, coins: Coins) returns (d: Decision)
      modifies this
      ensures (View(), d) == Request(old(View()), key, maxConcurrency, requester, coins)
    {
      if !ready {
        return Retry;
      }
      var g := if key in grants then grants[key] else map[];
      var owners := Sorted(OwnerSet(g));
      var idle := FindIdle(key, requester, owners);
      if idle != [] {
        var target := ChooseOwner(key, idle, coins);
        d := Place(target);
      } else if |g| < Cap(maxConcurrency) {
        var slot := SmallestUnusedIndex(g);
        grants := grants[key := g[slot := requester]];
        d := Granted(slot);
      } else if owners == [] {
        d := Retry;
      } else {
        var target := ChooseOwner(key, owners, coins);
        d := Place(target);
      }
    }

    method ReleaseSlot(key: FnKey, slot: int, endpoint: string)
      modifies this`grants
      ensures View() == Release(old(View()), key, slot, endpoint)
    {
      if key in grants && slot in grants[key] && grants[key][slot] == endpoint {
        var g := grants[key] - {slot};
        if g == map[] {
          grants := grants - {key};
        } else {
          grants := grants[key := g];
        }
      }
    }

    method ReapUnknownOwners(known: set<string>)
      modifies this`grants
      ensures View() == Reap(old(View()), known)
    {
      var todo := grants.Keys;
      var before := grants;
      while todo != {}
        invariant todo <= before.Keys
        invariant forall key :: key in todo ==> key in grants && grants[key] == before[key]
        invariant forall key :: key !in todo ==>
                    (key in grants <==> key in before && Known(before[key], known) != map[])
        invariant forall key :: key !in todo && key in grants ==> grants[key] == Known(before[key], known)
        decreases todo
      {
        var key :| key in todo;
        todo := todo - {key};
        ReapKey(key, known);
        hide Known;
      }
    }

    method ReapKey(key: FnKey, known: set<string>)
      requires key in grants
      modifies this`grants
      ensures grants == WithGrants(old(grants), key, Known(old(grants)[key], known))
    {
      var g := grants[key];
      var kept := map i | i in g && g[i] in known :: g[i];
      if kept == map[] {
        grants := grants - {key};
      } else {
        grants := grants[key := kept];
      }
    }

    method BeginReconciliation()
      modifies this`ready
      ensures View() == old(View()).(ready := false)
    {
      ready := false;
    }

    method ReconcileReports(reports: seq<Report>)
      modifies this
      ensures View() == Reconcile(old(View()), reports)
    {
      var rebuilt: map<FnKey, Grants> := map[];
      for r := 0 to |reports|
        invariant rebuilt == AddReports(reports[..r])
      {
        var report := reports[r];
        ghost var base := rebuilt;
        for i := 0 to |report.entries|
          invariant rebuilt == AddEntries(base, report.endpoint, report.entries[..i])
        {
          var e := report.entries[i];
          var g := if e.key in rebuilt then rebuilt[e.key] else map[];
          rebuilt := rebuilt[e.key := g[e.slot := report.endpoint]];
          assert report.entries[..i + 1][..i] == report.entries[..i];
        }
        assert report.entries[..|report.entries|] == report.entries;
        assert reports[..r + 1][..r] == reports[..r];
      }
      assert reports[..|reports|] == reports;
      grants, cursor, ready := rebuilt, map[], true;
    }

    method IngestPeerMetrics(endpoint: string, pools: seq<PoolCount>)
      modifies this`metrics
      ensures View() == Ingest(old(View()), endpoint, pools)
    {
      hide Text.ParsePoolKey;
      for i := 0 to |pools|
        invariant View() == Ingest(old(View()), endpoint, pools[..i])
      {
        assert pools[..i + 1][..i] == pools[..i];
        var parsed := Text.ParsePoolKey(pools[i].key);
        if parsed.Some? {
          var key := FnKey(parsed.value.0, parsed.value.1);
          var m := if key in metrics then metrics[key] else map[];
          metrics := metrics[key := m[endpoint := pools[i].load]];
        }
      }
      assert pools[..|pools|] == pools;
    }
  }

  // ---- what one request promises

  /** A ledger answers "retry" exactly while it is being rebuilt. */
  lemma RetryIffNotReady(l: State, key: FnKey, maxConcurrency: int, requester: string, coins: Coins)
    ensures Request(l, key, maxConcurrency, requester, coins).1.Retry? <==> !l.ready
  {
    var g := GrantsOf(l, key);
    forall slot | slot in g
      ensures Owners(g) != []
    {
      assert g[slot] in OwnerSet(g);
    }
    assert Owners(g) == [] ==> g == map[];
  }

  /** A placement names a current owner and leaves every grant as it was. */
  lemma PlacementKeepsGrants(l: State, key: FnKey, maxConcurrency: int, requester: string, coins: Coins)
    requires Request(l, key, maxConcurrency, requester, coins).1.Place?
    ensures var (l', d) := Request(l, key, maxConcurrency, requester, coins);
            l'.grants == l.grants && exists slot :: slot in GrantsOf(l, key) && GrantsOf(l, key)[slot] == d.target
  {
    var g := GrantsOf(l, key);
    var d := Request(l, key, maxConcurrency, requester, coins).1;
    assert d.target in OwnerSet(g);
  }

  /** Growth takes the least unused index, below the cap, for the requester and nobody else. */
  lemma GrantIsLeastUnused(l: State, key: FnKey, maxConcurrency: int, requester: string, coins: Coins)
    requires Request(l, key, maxConcurrency, requester, coins).1.Granted?
    ensures var (l', d) := Request(l, key, maxConcurrency, requester, coins);
            && 0 <= d.slot < Cap(maxConcurrency)
            && d.slot !in GrantsOf(l, key)
            && (forall i :: 0 <= i < d.slot ==> i in GrantsOf(l, key))
            && l' == l.(grants := l.grants[key := GrantsOf(l, key)[d.slot := requester]])
  {
    LeastUnusedBound(GrantsOf(l, key));
  }

  /** The first request for a function version is granted slot 0. */
  lemma NoneGranted(l: State, key: FnKey, limit: int, me: string, coins: Coins)
    requires l.ready && GrantsOf(l, key) == map[]
    ensures Request(l, key, limit, me, coins).1 == Granted(0)
  {
    assert OwnerSet(GrantsOf(l, key)) == {};
  }

  /** Reuse wins over growth: a slot is granted only when no other owner reports an idle container. */
  lemma GrantOnlyWhenNoneIdle(
      l: State, key: FnKey, maxConcurrency: int, requester: string, coins: Coins, slot: int)
    requires Request(l, key, maxConcurrency, requester, coins).1.Granted?
    requires slot in GrantsOf(l, key) && GrantsOf(l, key)[slot] != requester
    ensures LoadOf(l, key, GrantsOf(l, key)[slot]).idle <= 0
  {
    assert GrantsOf(l, key)[slot] in OwnerSet(GrantsOf(l, key));
    assert GrantsOf(l, key)[slot] !in IdleOwners(l, key, requester);
  }

  /**
   * What a ready ledger decides: growth exactly when nobody else reports an idle container and the
   * version is below its cap; otherwise an idle other owner if there is one, and any owner if not.
   */
  lemma DecisionIs(l: State, key: FnKey, maxConcurrency: int, requester: string, coins: Coins)
    requires l.ready
    ensures var (l', d) := Request(l, key, maxConcurrency, requester, coins);
            var g := GrantsOf(l, key);
            var someIdle := exists slot :: slot in g && g[slot] != requester && LoadOf(l, key, g[slot]).idle > 0;
            var full := |g| >= maxConcurrency && |g| >= 1;
            && (d.Granted? <==> !someIdle && !full) && (d.Place? <==> someIdle || full)
            && (d.Place? && someIdle ==> d.target != requester && LoadOf(l, key, d.target).idle > 0)
            && l'.ready && l'.metrics == l.metrics && l'.strategy == l.strategy
  {
    var g := GrantsOf(l, key);
    forall slot | slot in g
      ensures g[slot] in Owners(g)
    {
      assert g[slot] in OwnerSet(g);
    }
    var idle := IdleOwners(l, key, requester);
    assert forall e :: e in idle ==> exists slot :: slot in g && g[slot] == e;
    if idle != [] {
      assert idle[0] in idle;
    }
    assert |g| >= 1 ==> exists slot :: slot in g;
    hide Owners;
    hide LeastUnused;
  }

  /** A ledger that is being rebuilt is left alone. */
  lemma RetryChangesNothing(l: State, key: FnKey, maxConcurrency: int, requester: string, coins: Coins)
    requires Request(l, key, maxConcurrency, requester, coins).1.Retry?
    ensures Request(l, key, maxConcurrency, requester, coins).0 == l
  {
    RetryIffNotReady(l, key, maxConcurrency, requester, coins);
  }

  /** Two choices: of the two owners drawn, the one with fewer containers at work, or the first. */
  lemma TwoChoicesPicksLessBusy(l: State, key: FnKey, candidates: seq<string>, coins: Coins)
    requires l.strategy == TwoChoices && |candidates| >= 2
    ensures var ((a, b), (l', target)) := (Sample(candidates, coins), Choose(l, key, candidates, coins));
            && (target == a || target == b) && l' == l
            && Busy(l, key, target) <= Busy(l, key, a) && Busy(l, key, target) <= Busy(l, key, b)
            && (Busy(l, key, a) == Busy(l, key, b) ==> target == a)
  {
  }

  lemma BusyIsAtWork(l: State, key: FnKey, endpoint: string)
    ensures var load := LoadOf(l, key, endpoint);
            Busy(l, key, endpoint) >= 0 &&
            if load.idle >= load.live then Busy(l, key, endpoint) == 0
            else Busy(l, key, endpoint) + load.idle == load.live
  {
  }

  /** Any two different candidates may be drawn, and the random strategy may pick any candidate. */
  lemma AnyPairMayBeDrawn(l: State, key: FnKey, candidates: seq<string>, i: nat, j: nat)
    requires i < |candidates| && j < |candidates| && i != j
    ensures exists coins :: Sample(candidates, coins) == (candidates[i], candidates[j])
    ensures l.strategy == Random ==> exists coins :: Choose(l, key, candidates, coins) == (l, candidates[i])
  {
    var n := |candidates|;
    var step: nat := if j > i then j - i - 1 else j + n - i - 1;
    var coins := Coins(i, step);
    DivModUnique(i, n, 0, i);
    DivModUnique(step, n - 1, 0, step);
    SampleAt(candidates, coins);
    hide Sample;
    assert l.strategy == Random ==> Choose(l, key, candidates, coins) == (l, candidates[i]);
  }

  lemma SampleAt(candidates: seq<string>, coins: Coins)
    requires |candidates| >= 2 && coins.first < |candidates| && coins.second < |candidates| - 1
    requires coins.first % |candidates| == coins.first && coins.second % (|candidates| - 1) == coins.second
    ensures var j := coins.first + 1 + coins.second;
            Sample(candidates, coins) ==
            (candidates[coins.first], candidates[if j < |candidates| then j else j - |candidates|])
  {
  }

  /** A release takes away exactly the slot it names, from exactly the endpoint that sends it. */
  lemma ReleaseIsExact(l: State, key: FnKey, slot: int, endpoint: string, k: FnKey, i: int)
    ensures var l' := Release(l, key, slot, endpoint);
            && Holder(l'.grants, k, i) ==
               (if k == key && i == slot && Holder(l.grants, k, i) == Some(endpoint) then None
                else Holder(l.grants, k, i))
            && l'.ready == l.ready && l'.metrics == l.metrics && l'.cursor == l.cursor && l'.strategy == l.strategy
            && (k in l'.grants ==> k in l.grants && (l.grants[k] != map[] ==> l'.grants[k] != map[]))
  {
    var g := GrantsOf(l, key);
    assert i in g && i != slot ==> i in g - {slot};
  }

  /** Reaping takes away exactly the slots of owners that are not known. */
  lemma ReapIsExact(l: State, known: set<string>, k: FnKey, i: int)
    ensures var l' := Reap(l, known);
            var was := Holder(l.grants, k, i);
            && Holder(l'.grants, k, i) == (if was.Some? && was.value !in known then None else was)
            && l'.ready == l.ready && l'.metrics == l.metrics && l'.cursor == l.cursor && l'.strategy == l.strategy
            && (k in l'.grants ==> l'.grants[k] != map[])
  {
    if Holder(l.grants, k, i).Some? {
      assert l.grants[k][i] in known ==> i in Known(l.grants[k], known);
    }
  }

  /** After a reconciliation, whatever came before, no request is told to retry and every cursor starts over. */
  lemma ReconciledNeverRetries(
      l: State, reports: seq<Report>, key: FnKey, maxConcurrency: int, requester: string, coins: Coins)
    ensures var l' := Reconcile(l, reports);
            && !Request(l', key, maxConcurrency, requester, coins).1.Retry?
            && CursorOf(l', key) == 0 && l'.strategy == l.strategy
            && forall e :: LoadOf(l', key, e) == LoadOf(l, key, e)
  {
    RetryIffNotReady(Reconcile(l, reports), key, maxConcurrency, requester, coins);
  }

  /** Gossip that does not speak of a function version changes nothing known of it. */
  lemma {:induction false} GossipKeepsOthers(
      l: State, endpoint: string, pools: seq<PoolCount>, key: FnKey, other: string)
    requires forall q :: 0 <= q < |pools| ==> Text.ParsePoolKey(pools[q].key) != Some((key.id, key.version))
    ensures LoadOf(Ingest(l, endpoint, pools), key, other) == LoadOf(l, key, other)
  {
    hide Text.ParsePoolKey;
    if pools != [] {
      GossipKeepsOthers(l, endpoint, pools[..|pools| - 1], key, other);
    }
  }

  // ---- what reconciliation rebuilds

  function Holder(grants: map<FnKey, Grants>, key: FnKey, slot: int): Option<string> {
    if key in grants && slot in grants[key] then Some(grants[key][slot]) else None
  }

  /** The endpoint whose report names the slot; the last one when several do. */
  function Reporter(reports: seq<Report>, key: FnKey, slot: int): Option<string> {
    if reports == [] then None
    else
      var last := reports[|reports| - 1];
      if Entry(key, slot) in last.entries then Some(last.endpoint)
      else Reporter(reports[..|reports| - 1], key, slot)
  }

  lemma {:induction false} EntriesHeld(
      grants: map<FnKey, Grants>, endpoint: string, entries: seq<Entry>, key: FnKey, slot: int)
    ensures Holder(AddEntries(grants, endpoint, entries), key, slot) ==
            if Entry(key, slot) in entries then Some(endpoint) else Holder(grants, key, slot)
  {
    if entries != [] {
      var before, e := entries[..|entries| - 1], entries[|entries| - 1];
      EntriesHeld(grants, endpoint, before, key, slot);
      assert entries == before + [e];
      assert e == Entry(key, slot) <==> e.key == key && e.slot == slot;
    }
  }

  /** A rebuilt ledger holds exactly the reported slots, each for the endpoint that reported it. */
  lemma {:induction false} RebuiltIsReported(reports: seq<Report>, key: FnKey, slot: int)
    ensures Holder(AddReports(reports), key, slot) == Reporter(reports, key, slot)
  {
    if reports != [] {
      var before, last := reports[..|reports| - 1], reports[|reports| - 1];
      RebuiltIsReported(before, key, slot);
      EntriesHeld(AddReports(before), last.endpoint, last.entries, key, slot);
    }
  }

  lemma {:induction false} ReporterReports(reports: seq<Report>, key: FnKey, slot: int)
    ensures Reporter(reports, key, slot).None? <==>
            forall r :: 0 <= r < |reports| ==> Entry(key, slot) !in reports[r].entries
    ensures Reporter(reports, key, slot).Some? ==>
              exists r :: 0 <= r < |reports| && reports[r].endpoint == Reporter(reports, key, slot).value &&
                          Entry(key, slot) in reports[r].entries
  {
    if reports != [] {
      var before := reports[..|reports| - 1];
      ReporterReports(before, key, slot);
      assert forall r :: 0 <= r < |before| ==> before[r] == reports[r];
    }
  }

  // ---- runs

  datatype Op =
    | RequestOp(key: FnKey, requester: string, coins: Coins)
    | ReleaseOp(key: FnKey, slot: int, endpoint: string)
    | ReapOp(known: set<string>)
    | BeginOp
    | ReconcileOp(reports: seq<Report>)
    | IngestOp(endpoint: string, pools: seq<PoolCount>)

  /** One operation under the limits each function version declares. */
  function Step(l: State, op: Op, limit: FnKey -> int): State {
    match op
    case RequestOp(key, requester, coins) => Request(l, key, limit(key), requester, coins).0
    case ReleaseOp(key, slot, endpoint) => Release(l, key, slot, endpoint)
    case ReapOp(known) => Reap(l, known)
    case BeginOp => l.(ready := false)
    case ReconcileOp(reports) => Reconcile(l, reports)
    case IngestOp(endpoint, pools) => Ingest(l, endpoint, pools)
  }

  function Run(l: State, ops: seq<Op>, limit: FnKey -> int): State
    decreases |ops|
  {
    if ops == [] then l else Run(Step(l, ops[0], limit), ops[1..], limit)
  }

  predicate SetsReadiness(op: Op) {
    op.BeginOp? || op.ReconcileOp?
  }

  /**
   * Over every run the ledger is ready exactly unless the last of begin and reconcile was a begin
   * (position p is just after it, 0 if there was none): nothing else touches readiness.
   */
  lemma {:induction false} ReadinessIsLastSet(l: State, ops: seq<Op>, limit: FnKey -> int, p: nat)
    requires p <= |ops| && forall q :: p <= q < |ops| ==> !SetsReadiness(ops[q])
    requires p > 0 ==> SetsReadiness(ops[p - 1])
    ensures Run(l, ops, limit).ready <==> if p == 0 then l.ready else ops[p - 1].ReconcileOp?
    decreases |ops|
  {
    if ops != [] {
      StepReadiness(l, ops[0], limit);
      ReadinessIsLastSet(Step(l, ops[0], limit), ops[1..], limit, if p == 0 then 0 else p - 1);
      hide Step;
    }
  }

  lemma StepReadiness(l: State, op: Op, limit: FnKey -> int)
    ensures Step(l, op, limit).ready <==> if SetsReadiness(op) then op.ReconcileOp? else l.ready
  {
    if op.RequestOp? {
      if l.ready {
        DecisionIs(l, op.key, limit(op.key), op.requester, op.coins);
      }
    }
  }

  ghost predicate BelowCap(grants: map<FnKey, Grants>, limit: FnKey -> int) {
    forall key, i :: key in grants && i in grants[key] ==> 0 <= i < Cap(limit(key))
  }

  ghost predicate ReportsBelowCap(reports: seq<Report>, limit: FnKey -> int) {
    forall r, i :: 0 <= r < |reports| && 0 <= i < |reports[r].entries| ==>
                     0 <= reports[r].entries[i].slot < Cap(limit(reports[r].entries[i].key))
  }

  lemma {:induction false} EntriesBelowCap(
      grants: map<FnKey, Grants>, endpoint: string, entries: seq<Entry>, limit: FnKey -> int)
    requires BelowCap(grants, limit)
    requires forall i :: 0 <= i < |entries| ==> 0 <= entries[i].slot < Cap(limit(entries[i].key))
    ensures BelowCap(AddEntries(grants, endpoint, entries), limit)
  {
    if entries != [] {
      EntriesBelowCap(grants, endpoint, entries[..|entries| - 1], limit);
    }
  }

  lemma {:induction false} RebuiltBelowCap(reports: seq<Report>, limit: FnKey -> int)
    requires ReportsBelowCap(reports, limit)
    ensures BelowCap(AddReports(reports), limit)
  {
    if reports != [] {
      RebuiltBelowCap(reports[..|reports| - 1], limit);
      var last := reports[|reports| - 1];
      EntriesBelowCap(AddReports(reports[..|reports| - 1]), last.endpoint, last.entries, limit);
    }
  }

  lemma StepBelowCap(l: State, op: Op, limit: FnKey -> int)
    requires BelowCap(l.grants, limit)
    requires op.ReconcileOp? ==> ReportsBelowCap(op.reports, limit)
    ensures BelowCap(Step(l, op, limit).grants, limit)
  {
    match op
    case RequestOp(key, requester, coins) =>
      var d := Request(l, key, limit(key), requester, coins).1;
      if d.Granted? {
        GrantIsLeastUnused(l, key, limit(key), requester, coins);
        hide Request;
      } else if d.Place? {
        PlacementKeepsGrants(l, key, limit(key), requester, coins);
        hide Request;
      }
    case ReconcileOp(reports) =>
      RebuiltBelowCap(reports, limit);
    case _ =>
  }

  /** The cap is strict: no run of the ledger hands out more slots than a function version allows. */
  lemma {:induction false} RunRespectsCap(l: State, ops: seq<Op>, limit: FnKey -> int)
    requires BelowCap(l.grants, limit)
    requires forall i :: 0 <= i < |ops| && ops[i].ReconcileOp? ==> ReportsBelowCap(ops[i].reports, limit)
    ensures BelowCap(Run(l, ops, limit).grants, limit)
    ensures forall key :: |GrantsOf(Run(l, ops, limit), key)| <= Cap(limit(key))
    decreases |ops|
  {
    if ops == [] {
      forall key
        ensures |GrantsOf(l, key)| <= Cap(limit(key))
      {
        SubsetSize(GrantsOf(l, key).Keys, Range(Cap(limit(key))));
      }
    } else {
      StepBelowCap(l, ops[0], limit);
      RunRespectsCap(Step(l, ops[0], limit), ops[1..], limit);
    }
  }

  // ---- fairness of round robin

  /** The list a request would be placed among, if it is placed rather than granted. */
  function Candidates(l: State, key: FnKey, maxConcurrency: int, requester: string): seq<string> {
    var idle := IdleOwners(l, key, requester);
    if idle != [] then idle
    else if |GrantsOf(l, key)| < Cap(maxConcurrency) then []
    else Owners(GrantsOf(l, key))
  }

  predicate Targets(op: Op, key: FnKey) {
    op.RequestOp? && op.key == key
  }

  ghost predicate SteadyOp(l: State, op: Op, limit: FnKey -> int, key: FnKey, list: seq<string>) {
    && l.ready
    && (if Targets(op, key) then Candidates(l, key, limit(key), op.requester) == list else OffKey(op, key))
  }

  /**
   * Requests for `key` all choose among the same list, while requests, releases and gossip
   * about other function versions go on in between.
   */
  ghost predicate Steady(l: State, ops: seq<Op>, limit: FnKey -> int, key: FnKey, list: seq<string>)
    decreases |ops|
  {
    ops == [] ||
    (SteadyOp(l, ops[0], limit, key, list) && Steady(Step(l, ops[0], limit), ops[1..], limit, key, list))
  }

  function PlacedBy(l: State, op: Op, limit: FnKey -> int, key: FnKey): seq<string> {
    if Targets(op, key) then
      var d := Request(l, key, limit(key), op.requester, op.coins).1;
      if d.Place? then [d.target] else []
    else []
  }

  /** The owners named by the placements of `key`, in order. */
  function Placements(l: State, ops: seq<Op>, limit: FnKey -> int, key: FnKey): seq<string>
    decreases |ops|
  {
    if ops == [] then []
    else PlacedBy(l, ops[0], limit, key) + Placements(Step(l, ops[0], limit), ops[1..], limit, key)
  }

  function Requests(ops: seq<Op>, key: FnKey): nat {
    if ops == [] then 0 else (if Targets(ops[0], key) then 1 else 0) + Requests(ops[1..], key)
  }

  /** A request touches the cursor and the grants of its own function version only. */
  lemma RequestIsLocal(
      l: State, key: FnKey, maxConcurrency: int, requester: string, coins: Coins, other: FnKey)
    requires other != key
    ensures var l' := Request(l, key, maxConcurrency, requester, coins).0;
            CursorOf(l', other) == CursorOf(l, other) && GrantsOf(l', other) == GrantsOf(l, other) &&
            l'.strategy == l.strategy
  {
    hide IdleOwners;
    hide Owners;
    hide LeastUnused;
  }

  ghost predicate OffKey(op: Op, key: FnKey) {
    (op.RequestOp? && op.key != key) || (op.ReleaseOp? && op.key != key) || op.IngestOp?
  }

  lemma SteadyStep(l: State, op: Op, limit: FnKey -> int, key: FnKey, list: seq<string>)
    requires l.strategy == RoundRobin && |list| >= 2
    requires SteadyOp(l, op, limit, key, list)
    ensures var l', c := Step(l, op, limit), CursorOf(l, key);
            && l'.strategy == RoundRobin && GrantsOf(l', key) == GrantsOf(l, key)
            && (if Targets(op, key)
                then CursorOf(l', key) == c + 1 && PlacedBy(l, op, limit, key) == [list[c % |list|]]
                else CursorOf(l', key) == c && PlacedBy(l, op, limit, key) == [])
  {
    if op.RequestOp? && op.key != key {
      RequestIsLocal(l, op.key, limit(op.key), op.requester, op.coins, key);
    }
  }

  lemma {:induction false} PlacementsWalkTheList(
      l: State, ops: seq<Op>, limit: FnKey -> int, key: FnKey, list: seq<string>)
    requires l.strategy == RoundRobin && |list| >= 2
    requires Steady(l, ops, limit, key, list)
    ensures |Placements(l, ops, limit, key)| == Requests(ops, key)
    ensures Walks(Placements(l, ops, limit, key), list, CursorOf(l, key))
    ensures GrantsOf(Run(l, ops, limit), key) == GrantsOf(l, key)
    decreases |ops|
  {
    hide Step;
    hide SteadyOp;
    hide PlacedBy;
    hide CursorOf;
    hide GrantsOf;
    hide Targets;
    if ops != [] {
      SteadyStep(l, ops[0], limit, key, list);
      var l' := Step(l, ops[0], limit);
      PlacementsWalkTheList(l', ops[1..], limit, key, list);
      var rest := Placements(l', ops[1..], limit, key);
      if Targets(ops[0], key) {
        WalkOn([list[CursorOf(l, key) % |list|]], rest, list, CursorOf(l, key));
      } else {
        assert [] + rest == rest;
      }
    }
  }

  /** At capacity, k placements pick each candidate floor(k/n) or ceil(k/n) times and change no grant. */
  lemma RoundRobinIsFair(l: State, ops: seq<Op>, limit: FnKey -> int, key: FnKey, list: seq<string>, r: nat)
    requires l.strategy == RoundRobin && |list| >= 2 && Distinct(list) && r < |list|
    requires Steady(l, ops, limit, key, list)
    ensures var k := Requests(ops, key);
            FloorDiv(k, |list|) <= CountOf(Placements(l, ops, limit, key), list[r]) <= CeilDiv(k, |list|)
    ensures GrantsOf(Run(l, ops, limit), key) == GrantsOf(l, key)
  {
    hide Step;
    hide PlacedBy;
    PlacementsWalkTheList(l, ops, limit, key, list);
    var p := Placements(l, ops, limit, key);
    CountIsVisits(p, list, CursorOf(l, key), r);
    Fair(CursorOf(l, key), |p|, |list|, r);
  }
}
