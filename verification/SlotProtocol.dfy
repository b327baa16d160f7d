/**
 * The slot protocol: endpoints ask the leader for slots, summon containers in them, tear the
 * containers down and send release messages that arrive later, in any order and possibly more
 * than once; a new leader rebuilds the ledger from what the endpoints report.
 */
module SlotProtocol {
  import opened Wrappers
  import opened Ledger
  import ContainerName

  datatype Slot = Slot(key: FnKey, index: int, endpoint: string)

  /** Granted and not yet summoned; with a container in the pool; given up but its container still there. */
  datatype Phase = Awaited | Running | Stale

  /** A slot an endpoint believes it owns, or whose container it has not got rid of. */
  datatype Holding = Holding(slot: Slot, phase: Phase)

  datatype Cluster = Cluster(
    ledger: State,
    live: map<nat, Holding>,
    next: nat,
    releases: multiset<Slot>)

  datatype Action =
    | Ask(key: FnKey, requester: string, coins: Coins)
    | Summon(id: nat)
    | SummonFails(id: nat)
    | GiveUp(id: nat)
    | Teardown(id: nat, stops: bool, copies: nat)
    | Deliver(slot: Slot)
    | Stray(slot: Slot)
    | ReapAbsent(known: set<string>)
    | Gossip(endpoint: string, pools: seq<PoolCount>)
    | Failover(leader: State, reports: seq<Report>)

  function Init(strategy: Strategy): Cluster {
    Cluster(State(strategy, true, map[], map[], map[]), map[], 0, multiset{})
  }

  predicate IsLive(c: Cluster, slot: Slot) {
    exists id :: id in c.live && c.live[id].slot == slot
  }

  /** What must be the case for the action to happen at all. */
  predicate Enabled(c: Cluster, a: Action) {
    match a
    case Summon(id) => id in c.live && c.live[id].phase.Awaited?
    case SummonFails(id) => id in c.live && c.live[id].phase.Awaited?
    case GiveUp(id) => id in c.live && c.live[id].phase.Running?
    case Teardown(id, _, _) => id in c.live && !c.live[id].phase.Awaited?
    case Deliver(slot) => slot in c.releases
    case Failover(_, reports) => Truthful(c, reports)
    case _ => true
  }

  predicate IsRunning(c: Cluster, slot: Slot) {
    exists id :: id in c.live && c.live[id].phase.Running? && c.live[id].slot == slot
  }

  predicate ReportNames(reports: seq<Report>, slot: Slot) {
    exists r :: 0 <= r < |reports| && reports[r].endpoint == slot.endpoint &&
                Entry(slot.key, slot.index) in reports[r].entries
  }

  /** Endpoints report containers they run; one that does not answer in time reports nothing. */
  predicate Truthful(c: Cluster, reports: seq<Report>) {
    forall r, i :: 0 <= r < |reports| && 0 <= i < |reports[r].entries| ==>
      var e := reports[r].entries[i];
      IsRunning(c, Slot(e.key, e.slot, reports[r].endpoint))
  }

  /** The new leader hears of every slot anyone holds. */
  predicate AllReported(c: Cluster, reports: seq<Report>) {
    forall id :: id in c.live ==> ReportNames(reports, c.live[id].slot)
  }

  function Grant(c: Cluster, limit: FnKey -> int, key: FnKey, requester: string, coins: Coins): Option<Slot> {
    var d := Request(c.ledger, key, limit(key), requester, coins).1;
    if d.Granted? then Some(Slot(key, d.slot, requester)) else None
  }

  /**
   * No grant hands an endpoint a slot that the same endpoint still has a release under way for,
   * no slot is released while its container would not stop or is otherwise held, nobody who holds
   * a slot is reaped, and a new leader's reports leave out nobody's slot.
   */
  predicate Careful(c: Cluster, a: Action, limit: FnKey -> int) {
    match a
    case Ask(key, requester, coins) =>
      var g := Grant(c, limit, key, requester, coins);
      g.Some? ==> g.value !in c.releases
    case Teardown(_, stops, copies) => stops || copies == 0
    case Stray(slot) => !IsLive(c, slot)
    case ReapAbsent(known) => forall id :: id in c.live ==> c.live[id].slot.endpoint in known
    case Failover(_, reports) => AllReported(c, reports)
    case _ => true
  }

  function Apply(c: Cluster, a: Action, limit: FnKey -> int): Cluster
    requires Enabled(c, a)
  {
    match a
    case Ask(key, requester, coins) =>
      var g := Grant(c, limit, key, requester, coins);
      var asked := c.(ledger := Request(c.ledger, key, limit(key), requester, coins).0);
      if g.Some? then asked.(live := c.live[c.next := Holding(g.value, Awaited)], next := c.next + 1) else asked
    case Summon(id) => c.(live := c.live[id := c.live[id].(phase := Running)])
    case SummonFails(id) => c.(live := c.live - {id}, releases := c.releases + multiset{c.live[id].slot})
    case GiveUp(id) => c.(live := c.live[id := c.live[id].(phase := Stale)])
    case Teardown(id, stops, copies) =>
      var slot := c.live[id].slot;
      c.(live := if stops then c.live - {id} else c.live[id := c.live[id].(phase := Stale)],
         releases := c.releases[slot := c.releases[slot] + copies])
    case Deliver(slot) =>
      c.(ledger := Release(c.ledger, slot.key, slot.index, slot.endpoint), releases := c.releases - multiset{slot})
    case Stray(slot) => c.(ledger := Release(c.ledger, slot.key, slot.index, slot.endpoint))
    case ReapAbsent(known) => c.(ledger := Reap(c.ledger, known))
    case Gossip(endpoint, pools) => c.(ledger := Ingest(c.ledger, endpoint, pools))
    case Failover(leader, reports) => c.(ledger := Reconcile(leader, reports))
  }

  // ---- agreement between the ledger and the containers

  /** The ledger names the endpoint as owner of the slot. */
  predicate Owned(l: State, slot: Slot) {
    slot.index in GrantsOf(l, slot.key) && GrantsOf(l, slot.key)[slot.index] == slot.endpoint
  }

  ghost predicate Agreement(c: Cluster) {
    forall id :: id in c.live ==> Owned(c.ledger, c.live[id].slot)
  }

  predicate SamePlace(s: Slot, t: Slot) {
    s.key == t.key && s.index == t.index
  }

  ghost predicate Exclusive(c: Cluster) {
    forall i, j :: i in c.live && j in c.live && i != j ==> !SamePlace(c.live[i].slot, c.live[j].slot)
  }

  ghost predicate Settled(c: Cluster) {
    forall id :: id in c.live ==> c.live[id].slot !in c.releases
  }

  ghost predicate Numbered(c: Cluster) {
    forall id :: id in c.live ==> id < c.next
  }

  ghost predicate Inv(c: Cluster, limit: FnKey -> int) {
    Agreement(c) && Exclusive(c) && Settled(c) && Numbered(c) && BelowCap(c.ledger.grants, limit)
  }

  lemma RequestKeepsOwned(l: State, key: FnKey, max: int, requester: string, coins: Coins, slot: Slot)
    requires Owned(l, slot)
    ensures Owned(Request(l, key, max, requester, coins).0, slot)
  {
    var (l', d) := Request(l, key, max, requester, coins);
    match d
    case Granted(i) => GrantIsLeastUnused(l, key, max, requester, coins);
    case Place(t) => PlacementKeepsGrants(l, key, max, requester, coins);
    case Retry =>
  }

  lemma GrantIsNew(c: Cluster, limit: FnKey -> int, key: FnKey, requester: string, coins: Coins)
    requires Agreement(c) && Grant(c, limit, key, requester, coins).Some?
    ensures var s := Grant(c, limit, key, requester, coins).value;
            Owned(Request(c.ledger, key, limit(key), requester, coins).0, s) &&
            forall id :: id in c.live ==> !SamePlace(c.live[id].slot, s)
  {
    GrantIsLeastUnused(c.ledger, key, limit(key), requester, coins);
  }

  /** A ledger that still owns up to every holding, within the caps, keeps the invariant. */
  lemma LedgerMoves(c: Cluster, limit: FnKey -> int, l: State)
    requires Inv(c, limit) && BelowCap(l.grants, limit)
    requires forall id :: id in c.live ==> Owned(l, c.live[id].slot)
    ensures Inv(c.(ledger := l), limit)
  {
    hide Owned;
    hide BelowCap;
  }

  lemma HoldingAdded(c: Cluster, limit: FnKey -> int, slot: Slot)
    requires Inv(c, limit) && Owned(c.ledger, slot) && slot !in c.releases
    requires forall id :: id in c.live ==> !SamePlace(c.live[id].slot, slot)
    ensures Inv(c.(live := c.live[c.next := Holding(slot, Awaited)], next := c.next + 1), limit)
  {
    hide Owned;
    hide BelowCap;
  }

  lemma AskKeepsInv(c: Cluster, limit: FnKey -> int, key: FnKey, requester: string, coins: Coins)
    requires Inv(c, limit) && Careful(c, Ask(key, requester, coins), limit)
    ensures Inv(Apply(c, Ask(key, requester, coins), limit), limit)
  {
    hide Request;
    hide BelowCap;
    var l' := Request(c.ledger, key, limit(key), requester, coins).0;
    StepBelowCap(c.ledger, RequestOp(key, requester, coins), limit);
    forall id | id in c.live
      ensures Owned(l', c.live[id].slot)
    {
      RequestKeepsOwned(c.ledger, key, limit(key), requester, coins, c.live[id].slot);
    }
    hide Owned;
    LedgerMoves(c, limit, l');
    if Grant(c, limit, key, requester, coins).Some? {
      GrantIsNew(c, limit, key, requester, coins);
      HoldingAdded(c.(ledger := l'), limit, Grant(c, limit, key, requester, coins).value);
    }
    hide Inv;
  }

  lemma FreeKeepsInv(c: Cluster, limit: FnKey -> int, slot: Slot)
    requires Inv(c, limit) && !IsLive(c, slot)
    ensures Inv(c.(ledger := Release(c.ledger, slot.key, slot.index, slot.endpoint)), limit)
  {
    StepBelowCap(c.ledger, ReleaseOp(slot.key, slot.index, slot.endpoint), limit);
    forall id | id in c.live
      ensures Owned(Release(c.ledger, slot.key, slot.index, slot.endpoint), c.live[id].slot)
    {
      assert c.live[id].slot != slot;
    }
    hide Release;
    hide Owned;
    hide BelowCap;
    LedgerMoves(c, limit, Release(c.ledger, slot.key, slot.index, slot.endpoint));
  }

  lemma DeliverKeepsInv(c: Cluster, limit: FnKey -> int, slot: Slot)
    requires Inv(c, limit) && slot in c.releases
    ensures Inv(Apply(c, Deliver(slot), limit), limit)
  {
    hide Release;
    hide Owned;
    hide BelowCap;
    FreeKeepsInv(c, limit, slot);
  }

  lemma DropKeepsInv(c: Cluster, limit: FnKey -> int, id: nat, copies: nat)
    requires Inv(c, limit) && id in c.live
    ensures var slot := c.live[id].slot;
            Inv(c.(live := c.live - {id}, releases := c.releases[slot := c.releases[slot] + copies]), limit)
  {
    hide Owned;
    hide BelowCap;
  }

  lemma ReapKeepsInv(c: Cluster, limit: FnKey -> int, known: set<string>)
    requires Inv(c, limit) && Careful(c, ReapAbsent(known), limit)
    ensures Inv(c.(ledger := Reap(c.ledger, known)), limit)
  {
    forall id | id in c.live
      ensures Owned(Reap(c.ledger, known), c.live[id].slot)
    {
      var s := c.live[id].slot;
      assert s.index in Known(GrantsOf(c.ledger, s.key), known);
    }
    StepBelowCap(c.ledger, ReapOp(known), limit);
    hide Owned;
    hide BelowCap;
    LedgerMoves(c, limit, Reap(c.ledger, known));
  }

  lemma PhaseKeepsInv(c: Cluster, limit: FnKey -> int, id: nat, phase: Phase)
    requires Inv(c, limit) && id in c.live
    ensures Inv(c.(live := c.live[id := c.live[id].(phase := phase)]), limit)
  {
    hide Owned;
    hide BelowCap;
  }

  lemma GossipKeepsInv(c: Cluster, limit: FnKey -> int, endpoint: string, pools: seq<PoolCount>)
    requires Inv(c, limit)
    ensures Inv(c.(ledger := Ingest(c.ledger, endpoint, pools)), limit)
  {
    hide Ingest;
    LedgerMoves(c, limit, Ingest(c.ledger, endpoint, pools));
  }

  /** A truthful rebuild owns exactly the reported slots. */
  lemma RebuiltOwns(c: Cluster, leader: State, reports: seq<Report>, slot: Slot)
    requires Exclusive(c) && Truthful(c, reports)
    ensures Owned(Reconcile(leader, reports), slot) <==> ReportNames(reports, slot)
  {
    RebuiltIsReported(reports, slot.key, slot.index);
    ReporterReports(reports, slot.key, slot.index);
    var l := Reconcile(leader, reports);
    var reporter := Reporter(reports, slot.key, slot.index);
    assert Owned(l, slot) <==> reporter == Some(slot.endpoint);
    if ReportNames(reports, slot) {
      var named := Slot(slot.key, slot.index, reporter.value);
      NamedIsRunning(c, reports, slot);
      NamedIsRunning(c, reports, named);
      assert SamePlace(slot, named);
    }
    hide Reconcile;
    hide Reporter;
  }

  lemma NamedIsRunning(c: Cluster, reports: seq<Report>, slot: Slot)
    requires Truthful(c, reports) && ReportNames(reports, slot)
    ensures IsRunning(c, slot)
  {
    var r :| 0 <= r < |reports| && reports[r].endpoint == slot.endpoint &&
             Entry(slot.key, slot.index) in reports[r].entries;
    var i :| 0 <= i < |reports[r].entries| && reports[r].entries[i] == Entry(slot.key, slot.index);
  }

  lemma RebuiltBelowCap(c: Cluster, limit: FnKey -> int, leader: State, reports: seq<Report>)
    requires Inv(c, limit) && Truthful(c, reports)
    ensures BelowCap(Reconcile(leader, reports).grants, limit)
  {
    var l := Reconcile(leader, reports);
    forall key, i | key in l.grants && i in l.grants[key]
      ensures 0 <= i < Cap(limit(key))
    {
      var slot := Slot(key, i, l.grants[key][i]);
      RebuiltOwns(c, leader, reports, slot);
      NamedIsRunning(c, reports, slot);
      assert Owned(c.ledger, slot);
    }
  }

  /**
   * A change of leader keeps the invariant exactly when the reports cover every held slot: a slot
   * granted but not yet summoned, or held by an endpoint that did not answer, is forgotten.
   */
  lemma FailoverKeepsInvIff(c: Cluster, limit: FnKey -> int, leader: State, reports: seq<Report>)
    requires Inv(c, limit) && Truthful(c, reports)
    ensures Inv(Apply(c, Failover(leader, reports), limit), limit) <==> AllReported(c, reports)
  {
    RebuiltBelowCap(c, limit, leader, reports);
    var l := Reconcile(leader, reports);
    forall id | id in c.live
      ensures Owned(l, c.live[id].slot) <==> ReportNames(reports, c.live[id].slot)
    {
      RebuiltOwns(c, leader, reports, c.live[id].slot);
    }
    hide Owned;
    hide ReportNames;
    hide BelowCap;
    hide Reconcile;
    if AllReported(c, reports) {
      LedgerMoves(c, limit, l);
    }
  }

  lemma ApplyKeepsInv(c: Cluster, a: Action, limit: FnKey -> int)
    requires Inv(c, limit) && Enabled(c, a) && Careful(c, a, limit)
    ensures Inv(Apply(c, a, limit), limit)
  {
    hide Inv;
    match a
    case Ask(key, requester, coins) => AskKeepsInv(c, limit, key, requester, coins);
    case Summon(id) => PhaseKeepsInv(c, limit, id, Running);
    case SummonFails(id) =>
      DropKeepsInv(c, limit, id, 1);
      var slot := c.live[id].slot;
      assert c.releases + multiset{slot} == c.releases[slot := c.releases[slot] + 1];
    case GiveUp(id) => PhaseKeepsInv(c, limit, id, Stale);
    case Teardown(id, stops, copies) =>
      if stops {
        DropKeepsInv(c, limit, id, copies);
      } else {
        PhaseKeepsInv(c, limit, id, Stale);
        assert c.releases[c.live[id].slot := c.releases[c.live[id].slot] + 0] == c.releases;
      }
    case Deliver(slot) => DeliverKeepsInv(c, limit, slot);
    case Stray(slot) => FreeKeepsInv(c, limit, slot);
    case ReapAbsent(known) => ReapKeepsInv(c, limit, known);
    case Gossip(endpoint, pools) => GossipKeepsInv(c, limit, endpoint, pools);
    case Failover(leader, reports) => FailoverKeepsInvIff(c, limit, leader, reports);
  }

  // ---- runs

  predicate Possible(c: Cluster, actions: seq<Action>, limit: FnKey -> int)
    decreases |actions|
  {
    actions == [] || (Enabled(c, actions[0]) && Possible(Apply(c, actions[0], limit), actions[1..], limit))
  }

  function After(c: Cluster, actions: seq<Action>, limit: FnKey -> int): Cluster
    requires Possible(c, actions, limit)
    decreases |actions|
  {
    if actions == [] then c else After(Apply(c, actions[0], limit), actions[1..], limit)
  }

  predicate CarefulRun(c: Cluster, actions: seq<Action>, limit: FnKey -> int)
    requires Possible(c, actions, limit)
    decreases |actions|
  {
    actions == [] ||
    (Careful(c, actions[0], limit) && CarefulRun(Apply(c, actions[0], limit), actions[1..], limit))
  }

  lemma {:induction false} RunKeepsInv(c: Cluster, actions: seq<Action>, limit: FnKey -> int)
    requires Inv(c, limit) && Possible(c, actions, limit) && CarefulRun(c, actions, limit)
    ensures Inv(After(c, actions, limit), limit)
    decreases |actions|
  {
    hide Apply;
    hide Inv;
    hide Enabled;
    hide Careful;
    if actions != [] {
      ApplyKeepsInv(c, actions[0], limit);
      RunKeepsInv(Apply(c, actions[0], limit), actions[1..], limit);
    }
  }

  /** The holdings of one function version, across the whole cluster. */
  function HoldersOf(c: Cluster, key: FnKey): set<nat> {
    set id | id in c.live && c.live[id].slot.key == key
  }

  function IndicesOf(c: Cluster, ids: set<nat>): set<int> {
    set id | id in ids && id in c.live :: c.live[id].slot.index
  }

  lemma {:induction false} DistinctIndices(c: Cluster, key: FnKey, ids: set<nat>)
    requires Exclusive(c) && ids <= HoldersOf(c, key)
    ensures |IndicesOf(c, ids)| == |ids|
    decreases ids
  {
    if ids != {} {
      var id :| id in ids;
      var rest := ids - {id};
      DistinctIndices(c, key, rest);
      var index := c.live[id].slot.index;
      assert index !in IndicesOf(c, rest) by {
        forall other | other in rest
          ensures c.live[other].slot.index != index
        {
          assert !SamePlace(c.live[other].slot, c.live[id].slot);
        }
      }
      assert IndicesOf(c, ids) == IndicesOf(c, rest) + {index};
    }
  }

  lemma HoldersWithinCap(c: Cluster, limit: FnKey -> int, key: FnKey)
    requires Inv(c, limit)
    ensures |HoldersOf(c, key)| <= Cap(limit(key))
  {
    var ids := HoldersOf(c, key);
    DistinctIndices(c, key, ids);
    forall index | index in IndicesOf(c, ids)
      ensures index in Range(Cap(limit(key)))
    {
      var id :| id in ids && id in c.live && c.live[id].slot.index == index;
      assert Owned(c.ledger, c.live[id].slot);
    }
    SubsetSize(IndicesOf(c, ids), Range(Cap(limit(key))));
  }

  function NameOf(slot: Slot): string {
    ContainerName.Sanitize(slot.key.id, slot.key.version, slot.index)
  }

  /** Two different holdings of one function version. */
  ghost predicate SiblingContainers(c: Cluster, i: nat, j: nat) {
    && i in c.live && j in c.live && i != j
    && c.live[i].slot.key == c.live[j].slot.key && c.live[i].slot.key.version >= 0
  }

  lemma NamesDiffer(c: Cluster, limit: FnKey -> int, i: nat, j: nat)
    requires Inv(c, limit) && SiblingContainers(c, i, j)
    ensures NameOf(c.live[i].slot) != NameOf(c.live[j].slot)
  {
    var s, t := c.live[i].slot, c.live[j].slot;
    assert Owned(c.ledger, s) && Owned(c.ledger, t) && !SamePlace(s, t);
    ContainerName.NamesDistinct(s.key.id, t.key.id, s.key.version, t.key.version, s.index, t.index);
  }

  /**
   * Cluster-wide safety: after any run whose grants are careful, the ledger owns up to every
   * container, no two containers share a slot or a name, and no function version exceeds its cap.
   */
  lemma ClusterIsSafe(strategy: Strategy, actions: seq<Action>, limit: FnKey -> int)
    requires Possible(Init(strategy), actions, limit) && CarefulRun(Init(strategy), actions, limit)
    ensures var c := After(Init(strategy), actions, limit);
            && Agreement(c) && Exclusive(c)
            && (forall key :: |HoldersOf(c, key)| <= Cap(limit(key)))
            && (forall i, j | SiblingContainers(c, i, j) :: NameOf(c.live[i].slot) != NameOf(c.live[j].slot))
  {
    RunKeepsInv(Init(strategy), actions, limit);
    var c := After(Init(strategy), actions, limit);
    forall key
      ensures |HoldersOf(c, key)| <= Cap(limit(key))
    {
      HoldersWithinCap(c, limit, key);
    }
    forall i, j | SiblingContainers(c, i, j)
      ensures NameOf(c.live[i].slot) != NameOf(c.live[j].slot)
    {
      NamesDiffer(c, limit, i, j);
    }
  }

  // ---- the guard is exact

  /** A grant keeps the invariant exactly when its endpoint has no release of that slot under way. */
  lemma CarefulIsExact(c: Cluster, limit: FnKey -> int, key: FnKey, requester: string, coins: Coins)
    requires Inv(c, limit) && Grant(c, limit, key, requester, coins).Some?
    ensures Inv(Apply(c, Ask(key, requester, coins), limit), limit) <==>
            Grant(c, limit, key, requester, coins).value !in c.releases
  {
    var slot := Grant(c, limit, key, requester, coins).value;
    if slot !in c.releases {
      AskKeepsInv(c, limit, key, requester, coins);
    } else {
      var c' := Apply(c, Ask(key, requester, coins), limit);
      assert c'.live[c.next].slot == slot && slot in c'.releases;
    }
  }

  /**
   * And so for every action: from a safe cluster the next one is safe exactly when the action is
   * careful.
   */
  lemma StepIsSafeIff(c: Cluster, a: Action, limit: FnKey -> int)
    requires Inv(c, limit) && Enabled(c, a)
    ensures Inv(Apply(c, a, limit), limit) <==> Careful(c, a, limit)
  {
    if Careful(c, a, limit) {
      ApplyKeepsInv(c, a, limit);
    } else {
      match a
      case Ask(key, requester, coins) => CarefulIsExact(c, limit, key, requester, coins); hide Inv;
      case Teardown(id, _, _) =>
        var c' := Apply(c, a, limit);
        assert c'.live[id].slot == c.live[id].slot && c.live[id].slot in c'.releases;
        hide Owned;
      case Stray(slot) =>
        var id :| id in c.live && c.live[id].slot == slot;
        assert !Owned(Apply(c, a, limit).ledger, slot);
        hide Owned;
      case ReapAbsent(known) =>
        var id :| id in c.live && c.live[id].slot.endpoint !in known;
        assert !Owned(Reap(c.ledger, known), c.live[id].slot);
        hide Owned;
      case Failover(leader, reports) => FailoverKeepsInvIff(c, limit, leader, reports); hide Inv;
    }
  }

  lemma AskGrants(c: Cluster, limit: FnKey -> int, key: FnKey, requester: string, coins: Coins, slot: Slot)
    requires Grant(c, limit, key, requester, coins) == Some(slot)
    ensures Apply(c, Ask(key, requester, coins), limit) ==
            Cluster(c.ledger.(grants := c.ledger.grants[key := GrantsOf(c.ledger, key)[slot.index := requester]]),
                    c.live[c.next := Holding(slot, Awaited)], c.next + 1, c.releases)
  {
    GrantIsLeastUnused(c.ledger, key, limit(key), requester, coins);
  }

  /** Two ledgers that agree on readiness, gossip and one version's grants give it the same slot. */
  lemma SameGrant(l: State, m: State, key: FnKey, max: int, requester: string, coins: Coins)
    requires l.ready == m.ready && l.metrics == m.metrics && GrantsOf(l, key) == GrantsOf(m, key)
    requires Request(l, key, max, requester, coins).1.Granted?
    ensures Request(m, key, max, requester, coins).1 == Request(l, key, max, requester, coins).1
  {
    SameIdle(l, m, key, requester, Owners(GrantsOf(l, key)));
  }

  lemma {:induction false} SameIdle(l: State, m: State, key: FnKey, requester: string, owners: seq<string>)
    requires l.metrics == m.metrics
    ensures IdleAmong(l, key, requester, owners) == IdleAmong(m, key, requester, owners)
    decreases |owners|
  {
    if owners != [] {
      SameIdle(l, m, key, requester, owners[1..]);
    }
  }

  /**
   * The double release breaks exclusivity: whenever a grant meets a leftover release of its own
   * slot, delivering that release lets the next request be granted the very same slot again.
   */
  lemma LeftoverReleaseBreaks(c: Cluster, limit: FnKey -> int, key: FnKey, requester: string, coins: Coins)
    requires Inv(c, limit) && Grant(c, limit, key, requester, coins).Some?
    requires Grant(c, limit, key, requester, coins).value in c.releases
    ensures var slot, ask := Grant(c, limit, key, requester, coins).value, Ask(key, requester, coins);
            var c1 := Apply(c, ask, limit);
            Enabled(c1, Deliver(slot)) &&
            var c2 := Apply(c1, Deliver(slot), limit);
            var c3 := Apply(c2, ask, limit);
            c.next in c3.live && c.next + 1 in c3.live &&
            c3.live[c.next].slot == c3.live[c.next + 1].slot == slot
  {
    var slot, ask := Grant(c, limit, key, requester, coins).value, Ask(key, requester, coins);
    AskGrants(c, limit, key, requester, coins, slot);
    var c1 := Apply(c, ask, limit);
    var c2 := Apply(c1, Deliver(slot), limit);
    UndoneGrant(c.ledger, key, limit(key), requester, coins);
    SameGrant(c.ledger, c2.ledger, key, limit(key), requester, coins);
    AskGrants(c2, limit, key, requester, coins, slot);
    hide Request;
  }

  /** Releasing a fresh grant puts the version's grants back as they were. */
  lemma UndoneGrant(l: State, key: FnKey, max: int, requester: string, coins: Coins)
    requires Request(l, key, max, requester, coins).1.Granted?
    ensures var (l', d) := Request(l, key, max, requester, coins);
            GrantsOf(Release(l', key, d.slot, requester), key) == GrantsOf(l, key)
  {
    GrantIsLeastUnused(l, key, max, requester, coins);
    var g, slot := GrantsOf(l, key), Request(l, key, max, requester, coins).1.slot;
    assert g[slot := requester] - {slot} == g;
  }

  /** Such a leftover release does occur: a container torn down after a crash releases its slot twice. */
  lemma DoubleReleaseHappens(strategy: Strategy, limit: FnKey -> int, key: FnKey, requester: string, coins: Coins)
    ensures var slot := Slot(key, 0, requester);
            var granted := Apply(Init(strategy), Ask(key, requester, coins), limit);
            Enabled(granted, Summon(0)) &&
            var running := Apply(granted, Summon(0), limit);
            Enabled(running, Teardown(0, true, 2)) &&
            var torn := Apply(running, Teardown(0, true, 2), limit);
            Enabled(torn, Deliver(slot)) &&
            var c := Apply(torn, Deliver(slot), limit);
            Inv(c, limit) && Grant(c, limit, key, requester, coins) == Some(slot) && slot in c.releases
  {
    var slot := Slot(key, 0, requester);
    NoneGranted(Init(strategy).ledger, key, limit(key), requester, coins);
    AskGrants(Init(strategy), limit, key, requester, coins, slot);
    hide Request;
    var granted := Apply(Init(strategy), Ask(key, requester, coins), limit);
    assert granted.live == map[0 := Holding(slot, Awaited)];
    var torn := Apply(Apply(granted, Summon(0), limit), Teardown(0, true, 2), limit);
    assert torn.live == map[];
    var c := Apply(torn, Deliver(slot), limit);
    assert c.ledger.grants == map[] by {
      assert map[0 := requester] - {0} == map[];
    }
    NoneGranted(c.ledger, key, limit(key), requester, coins);
  }

  /** A slot granted but not yet summoned when the leader changes is handed out a second time. */
  lemma ForgottenSlotIsReissued(
      strategy: Strategy, limit: FnKey -> int, key: FnKey, first: string, second: string, coins: Coins)
    ensures var granted := Apply(Init(strategy), Ask(key, first, coins), limit);
            var failover := Failover(Init(strategy).ledger, []);
            Enabled(granted, failover) &&
            var c := Apply(Apply(granted, failover, limit), Ask(key, second, coins), limit);
            0 in c.live && 1 in c.live && c.live[0].slot == Slot(key, 0, first) && c.live[1].slot == Slot(key, 0, second)
  {
    NoneGranted(Init(strategy).ledger, key, limit(key), first, coins);
    AskGrants(Init(strategy), limit, key, first, coins, Slot(key, 0, first));
    var granted := Apply(Init(strategy), Ask(key, first, coins), limit);
    var failed := Apply(granted, Failover(Init(strategy).ledger, []), limit);
    NoneGranted(failed.ledger, key, limit(key), second, coins);
    AskGrants(failed, limit, key, second, coins, Slot(key, 0, second));
    hide Request;
  }

  /**
   * A slot released although its container would not stop: once the release arrives another
   * endpoint is granted the slot, and two containers hold it under one name.
   */
  lemma FailedStopIsReissued(
      strategy: Strategy, limit: FnKey -> int, key: FnKey, first: string, second: string, coins: Coins)
    ensures var slot, again := Slot(key, 0, first), Slot(key, 0, second);
            var granted := Apply(Init(strategy), Ask(key, first, coins), limit);
            Enabled(granted, Summon(0)) &&
            var running := Apply(granted, Summon(0), limit);
            Enabled(running, Teardown(0, false, 1)) &&
            var failed := Apply(running, Teardown(0, false, 1), limit);
            Enabled(failed, Deliver(slot)) &&
            var c := Apply(Apply(failed, Deliver(slot), limit), Ask(key, second, coins), limit);
            0 in c.live && 1 in c.live && c.live[0].slot == slot && c.live[1].slot == again && NameOf(slot) == NameOf(again)
  {
    var slot := Slot(key, 0, first);
    NoneGranted(Init(strategy).ledger, key, limit(key), first, coins);
    AskGrants(Init(strategy), limit, key, first, coins, slot);
    hide Request;
    var granted := Apply(Init(strategy), Ask(key, first, coins), limit);
    assert granted.live == map[0 := Holding(slot, Awaited)];
    var failed := Apply(Apply(granted, Summon(0), limit), Teardown(0, false, 1), limit);
    assert failed.live == map[0 := Holding(slot, Stale)];
    var freed := Apply(failed, Deliver(slot), limit);
    assert freed.ledger.grants == map[] by {
      assert map[0 := first] - {0} == map[];
    }
    NoneGranted(freed.ledger, key, limit(key), second, coins);
    AskGrants(freed, limit, key, second, coins, Slot(key, 0, second));
  }
}
