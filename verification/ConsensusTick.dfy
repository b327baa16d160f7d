/**
 * The consensus tick: the deterministic Bully election, the quorum derived from cluster sizes,
 * and the events a node publishes about both.
 */
module ConsensusTick {
  import opened Wrappers
  import opened StringOrder

  /** A node's elector view, and the state it carries from one tick to the next. */
  datatype Node = Node(
    self: string, leader: string, term: nat, highWater: nat, previous: Option<set<string>>)

  datatype Event =
    | QuorumLost(term: nat, members: nat, quorum: nat)
    | QuorumRestored(term: nat, members: nat, quorum: nat)
    | Degraded(term: nat, members: nat, quorum: nat, evicted: string)
    | LeaderElected(leader: string, term: nat)
    | ViewChanged(term: nat, wasLeader: bool, isLeader: bool, leader: string)

  function Boot(self: string): Node {
    Node(self, self, 0, 0, None)
  }

  function QuorumSize(highWater: nat): nat {
    highWater / 2 + 1
  }

  predicate IsLeader(n: Node) {
    n.leader == n.self
  }

  // ---- election

  /** `recompute`: the greatest id alive leads; the term grows when the leader changes. */
  function Recompute(n: Node, members: set<string>): Node {
    var winner := Greatest(members + {n.self});
    if n.leader != winner then n.(leader := winner, term := n.term + 1) else n
  }

  // ---- one tick

  function DegradedEvents(term: nat, members: nat, quorum: nat, evicted: seq<string>): (r: seq<Event>)
    ensures |r| == |evicted| && forall i :: 0 <= i < |r| ==> r[i] == Degraded(term, members, quorum, evicted[i])
  {
    seq(|evicted|, i requires 0 <= i < |evicted| => Degraded(term, members, quorum, evicted[i]))
  }

  function QuorumEvents(n: Node, term: nat, ids: set<string>, highWater: nat): seq<Event> {
    if n.previous.None? then []
    else
      var had := |n.previous.value| >= QuorumSize(n.highWater);
      var has := |ids| >= QuorumSize(highWater);
      if had && !has then [QuorumLost(term, |ids|, QuorumSize(highWater))]
      else if !had && has then [QuorumRestored(term, |ids|, QuorumSize(highWater))]
      else if has then DegradedEvents(term, |ids|, QuorumSize(highWater), Sorted(n.previous.value - ids))
      else []
  }

  function RoleEvents(before: Node, after: Node): seq<Event> {
    (if after.term != before.term then [LeaderElected(after.leader, after.term)] else []) +
    (if IsLeader(before) != IsLeader(after) then [ViewChanged(after.term, IsLeader(before), IsLeader(after), after.leader)] else [])
  }

  function Tick(n: Node, members: set<string>): (Node, seq<Event>) {
    var view := Recompute(n, members);
    var ids := members + {n.self};
    var highWater := Max(n.highWater, |ids|);
    (view.(highWater := highWater, previous := Some(ids)),
     QuorumEvents(n, view.term, ids, highWater) + RoleEvents(n, view))
  }

  class ConsensusLoop {
    const self: string
    var leader: string
    var term: nat
    var highWater: nat
    var previous: Option<set<string>>
    /** Everything published on the event bus so far. */
    var bus: seq<Event>

    ghost function View(): Node
      reads this
    {
      Node(self, leader, term, highWater, previous)
    }

    constructor (self: string)
      ensures View() == Boot(self) && bus == []
    {
      this.self := self;
      leader, term, highWater, previous, bus := self, 0, 0, None, [];
    }

    method RecomputeView(members: set<string>)
      modifies this`leader, this`term
      ensures View() == Recompute(old(View()), members)
    {
      var winner := Greatest(members + {self});
      if leader != winner {
        leader, term := winner, term + 1;
      }
    }

    method EmitDegraded(evicted: set<string>, members: nat, quorum: nat)
      modifies this`bus
      ensures bus == old(bus) + DegradedEvents(term, members, quorum, Sorted(evicted))
    {
      var order := Sorted(evicted);
      for i := 0 to |order|
        invariant bus == old(bus) + DegradedEvents(term, members, quorum, order[..i])
      {
        bus := bus + [Degraded(term, members, quorum, order[i])];
        assert DegradedEvents(term, members, quorum, order[..i + 1]) == DegradedEvents(term, members, quorum, order[..i]) + [Degraded(term, members, quorum, order[i])];
      }
      assert order[..|order|] == order;
    }

    method EmitQuorum(ids: set<string>, newHighWater: nat)
      modifies this`bus
      ensures bus == old(bus) + QuorumEvents(View(), term, ids, newHighWater)
    {
      if previous.Some? {
        var had := |previous.value| >= QuorumSize(highWater);
        var has := |ids| >= QuorumSize(newHighWater);
        if had && !has {
          bus := bus + [QuorumLost(term, |ids|, QuorumSize(newHighWater))];
        } else if !had && has {
          bus := bus + [QuorumRestored(term, |ids|, QuorumSize(newHighWater))];
        } else if has {
          EmitDegraded(previous.value - ids, |ids|, QuorumSize(newHighWater));
        }
      }
    }

    method RunTick(members: set<string>)
      modifies this
      ensures View() == Tick(old(View()), members).0
      ensures bus == old(bus) + Tick(old(View()), members).1
    {
      var wasLeader, oldTerm := leader == self, term;
      RecomputeView(members);
      var isLeader := leader == self;
      var ids := members + {self};
      var newHighWater := Max(highWater, |ids|);
      EmitQuorum(ids, newHighWater);
      assert QuorumEvents(View(), term, ids, newHighWater) == QuorumEvents(old(View()), term, ids, newHighWater);
      hide QuorumEvents;
      hide Recompute;
      if term != oldTerm {
        bus := bus + [LeaderElected(leader, term)];
      }
      if wasLeader != isLeader {
        bus := bus + [ViewChanged(term, wasLeader, isLeader, leader)];
      }
      highWater, previous := newHighWater, Some(ids);
      assert bus == old(bus) + (QuorumEvents(old(View()), term, ids, newHighWater) + RoleEvents(old(View()), View()));
    }
  }

  // ---- the history of events determines the state

  /** What a listener that sees only the events knows; `sound` fails on an event out of place. */
  datatype Heard = Heard(inQuorum: bool, leader: string, term: nat, leads: bool, sound: bool)

  function Hear(h: Heard, e: Event): Heard {
    match e
    case QuorumLost(_, _, _) => h.(inQuorum := false, sound := h.sound && h.inQuorum)
    case QuorumRestored(_, _, _) => h.(inQuorum := true, sound := h.sound && !h.inQuorum)
    case Degraded(_, _, _, _) => h.(sound := h.sound && h.inQuorum)
    case LeaderElected(leader, term) =>
      h.(leader := leader, term := term, sound := h.sound && term == h.term + 1 && leader != h.leader)
    case ViewChanged(_, was, now, leader) =>
      h.(leads := now, sound := h.sound && was == h.leads && now != was && leader == h.leader)
  }

  function HearAll(h: Heard, log: seq<Event>): Heard {
    if log == [] then h else Hear(HearAll(h, log[..|log| - 1]), log[|log| - 1])
  }

  predicate HasQuorum(n: Node) {
    n.previous.None? || |n.previous.value| >= QuorumSize(n.highWater)
  }

  function KnownOf(n: Node): Heard {
    Heard(HasQuorum(n), n.leader, n.term, IsLeader(n), true)
  }

  lemma {:induction false} HearConcat(h: Heard, a: seq<Event>, b: seq<Event>)
    ensures HearAll(h, a + b) == HearAll(HearAll(h, a), b)
    decreases |b|
  {
    if b == [] {
      assert a + b == a;
    } else {
      HearConcat(h, a, b[..|b| - 1]);
      assert (a + b)[..|a + b| - 1] == a + b[..|b| - 1];
    }
  }

  lemma HearOne(h: Heard, e: Event)
    ensures HearAll(h, [e]) == Hear(h, e)
  {
    assert [e][..0] == [];
  }

  lemma {:induction false} HearDegraded(h: Heard, term: nat, members: nat, quorum: nat, evicted: seq<string>)
    requires h.inQuorum
    ensures HearAll(h, DegradedEvents(term, members, quorum, evicted)) == h
    decreases |evicted|
  {
    var events := DegradedEvents(term, members, quorum, evicted);
    if evicted != [] {
      HearDegraded(h, term, members, quorum, evicted[..|evicted| - 1]);
      assert events[..|events| - 1] == DegradedEvents(term, members, quorum, evicted[..|evicted| - 1]);
    }
  }

  /** The previous tick left the high water mark at or above the membership it saw. */
  ghost predicate Marked(n: Node) {
    n.previous.Some? ==> 1 <= |n.previous.value| <= n.highWater
  }

  lemma HearQuorum(n: Node, term: nat, ids: set<string>, highWater: nat)
    requires Marked(n) && ids != {} && highWater == Max(n.highWater, |ids|)
    requires n.previous.None? ==> n.highWater == 0
    ensures HearAll(KnownOf(n), QuorumEvents(n, term, ids, highWater)) ==
            KnownOf(n).(inQuorum := |ids| >= QuorumSize(highWater))
  {
    var h := KnownOf(n);
    assert |ids| >= 1;
    var events := QuorumEvents(n, term, ids, highWater);
    if n.previous.None? {
    } else {
      var had, has := |n.previous.value| >= QuorumSize(n.highWater), |ids| >= QuorumSize(highWater);
      if had != has {
        HearOne(h, events[0]);
        assert events == [events[0]];
      } else if has {
        HearDegraded(h, term, |ids|, QuorumSize(highWater), Sorted(n.previous.value - ids));
      }
    }
  }

  lemma HearRole(h: Heard, before: Node, after: Node)
    requires h.term == before.term && h.leader == before.leader && h.leads == IsLeader(before) && h.sound
    requires after.term == before.term + (if after.leader == before.leader then 0 else 1)
    ensures HearAll(h, RoleEvents(before, after)) ==
            h.(leader := after.leader, term := after.term, leads := IsLeader(after))
  {
    var elected := if after.term != before.term then [LeaderElected(after.leader, after.term)] else [];
    var changed :=
      if IsLeader(before) != IsLeader(after)
      then [ViewChanged(after.term, IsLeader(before), IsLeader(after), after.leader)] else [];
    HearConcat(h, elected, changed);
    HearOne(h, LeaderElected(after.leader, after.term));
    HearOne(HearAll(h, elected), ViewChanged(after.term, IsLeader(before), IsLeader(after), after.leader));
  }

  ghost predicate Ticking(n: Node) {
    Marked(n) && (n.previous.None? ==> n.highWater == 0)
  }

  lemma HearTick(n: Node, members: set<string>)
    requires Ticking(n)
    ensures var (n', events) := Tick(n, members);
            Ticking(n') && HearAll(KnownOf(n), events) == KnownOf(n')
  {
    var view, ids := Recompute(n, members), members + {n.self};
    var highWater := Max(n.highWater, |ids|);
    var quorum, role := QuorumEvents(n, view.term, ids, highWater), RoleEvents(n, view);
    assert n.self in ids;
    assert |ids| >= 1;
    HearQuorum(n, view.term, ids, highWater);
    HearRole(KnownOf(n).(inQuorum := |ids| >= QuorumSize(highWater)), n, view);
    HearConcat(KnownOf(n), quorum, role);
    hide HearAll;
    hide QuorumEvents;
    hide RoleEvents;
  }

  function RunNode(n: Node, history: seq<set<string>>): Node {
    if history == [] then n else Tick(RunNode(n, history[..|history| - 1]), history[|history| - 1]).0
  }

  function Log(n: Node, history: seq<set<string>>): seq<Event> {
    if history == [] then []
    else
      var before := history[..|history| - 1];
      Log(n, before) + Tick(RunNode(n, before), history[|history| - 1]).1
  }

  /**
   * Over every run of ticks the events, replayed from "in quorum, leading itself, term 0", are all
   * in place and give the node's present quorum, leader, term and role: losses and recoveries of
   * quorum alternate starting with a loss, degradations fall within quorum, each election names a
   * new leader and raises the term by one, and each role change flips the role.
   */
  lemma {:induction false} HistoryDeterminesState(self: string, history: seq<set<string>>)
    ensures var n := RunNode(Boot(self), history);
            Ticking(n) && HearAll(Heard(true, self, 0, true, true), Log(Boot(self), history)) == KnownOf(n)
  {
    hide Tick;
    hide Hear;
    if history == [] {
    } else {
      var before := history[..|history| - 1];
      HistoryDeterminesState(self, before);
      var n := RunNode(Boot(self), before);
      HearTick(n, history[|history| - 1]);
      HearConcat(Heard(true, self, 0, true, true), Log(Boot(self), before), Tick(n, history[|history| - 1]).1);
    }
  }

  function Elections(log: seq<Event>): nat {
    if log == [] then 0 else Elections(log[..|log| - 1]) + (if log[|log| - 1].LeaderElected? then 1 else 0)
  }

  lemma {:induction false} TermCountsElections(h: Heard, log: seq<Event>)
    requires HearAll(h, log).sound
    ensures HearAll(h, log).term == h.term + Elections(log)
  {
    if log != [] {
      TermCountsElections(h, log[..|log| - 1]);
    }
  }

  /** The term is the number of elections published. */
  lemma TermIsElectionCount(self: string, history: seq<set<string>>)
    ensures RunNode(Boot(self), history).term == Elections(Log(Boot(self), history))
  {
    HistoryDeterminesState(self, history);
    TermCountsElections(Heard(true, self, 0, true, true), Log(Boot(self), history));
  }

  // ---- the events of one tick, from the memberships seen

  /** Of the last `highWater` members, more than half. */
  predicate IsMajority(count: nat, highWater: nat) {
    2 * count > highWater
  }

  /** The least count that is a majority. */
  predicate IsLeastMajority(quorum: nat, highWater: nat) {
    IsMajority(quorum, highWater) && quorum > 0 && !IsMajority(quorum - 1, highWater)
  }

  /** The cluster as `self` saw it at tick k, itself included. */
  function Seen(self: string, history: seq<set<string>>, k: nat): set<string>
    requires k < |history|
  {
    history[k] + {self}
  }

  /** The size of the largest cluster seen so far, 0 before the first tick. */
  ghost predicate IsLargestSeen(size: nat, self: string, history: seq<set<string>>) {
    && (forall k :: 0 <= k < |history| ==> |Seen(self, history, k)| <= size)
    && (history == [] ==> size == 0)
    && (history != [] ==> exists k :: 0 <= k < |history| && size == |Seen(self, history, k)|)
  }

  lemma SeenGrows(size: nat, self: string, history: seq<set<string>>, members: set<string>)
    requires IsLargestSeen(size, self, history)
    ensures IsLargestSeen(Max(size, |members + {self}|), self, history + [members])
  {
    var longer, now := history + [members], |members + {self}|;
    assert forall k :: 0 <= k < |history| ==> Seen(self, longer, k) == Seen(self, history, k);
    assert Seen(self, longer, |history|) == members + {self};
    if now < size {
      var k :| 0 <= k < |history| && size == |Seen(self, history, k)|;
      assert size == |Seen(self, longer, k)|;
    }
  }

  /** What a node carries along: the last cluster seen, the size of the largest, and its greatest id as the leader. */
  ghost predicate Remembers(n: Node, self: string, history: seq<set<string>>) {
    && n.self == self && IsLargestSeen(n.highWater, self, history)
    && (history == [] ==> n.previous == None && n.leader == self)
    && (history != [] ==>
          n.previous == Some(Seen(self, history, |history| - 1)) &&
          IsGreatest(n.leader, Seen(self, history, |history| - 1)))
  }

  lemma {:induction false} StateIsHistory(self: string, history: seq<set<string>>)
    ensures Remembers(RunNode(Boot(self), history), self, history)
  {
    hide Tick;
    if history == [] {
      assert IsLargestSeen(0, self, history);
    } else {
      hide Remembers;
      var before, last := history[..|history| - 1], history[|history| - 1];
      StateIsHistory(self, before);
      RemembersStep(RunNode(Boot(self), before), self, before, last);
      assert before + [last] == history;
    }
  }

  lemma RemembersStep(n: Node, self: string, history: seq<set<string>>, members: set<string>)
    requires Remembers(n, self, history)
    ensures Remembers(Tick(n, members).0, self, history + [members])
  {
    SeenGrows(n.highWater, self, history, members);
    TickRemembers(n, members);
    assert Seen(self, history + [members], |history|) == members + {self};
    hide IsLargestSeen;
    hide IsGreatest;
    hide Tick;
  }

  lemma TickRemembers(n: Node, members: set<string>)
    ensures var n' := Tick(n, members).0;
            && n'.self == n.self && n'.previous == Some(members + {n.self})
            && n'.highWater == Max(n.highWater, |members + {n.self}|)
            && IsGreatest(n'.leader, members + {n.self})
  {
    hide QuorumEvents;
    hide RoleEvents;
    hide IsGreatest;
    var winner := Greatest(members + {n.self});
  }

  lemma QuorumIsLeastMajority(highWater: nat)
    ensures IsLeastMajority(QuorumSize(highWater), highWater)
    ensures forall q: nat :: IsLeastMajority(q, highWater) ==> q == QuorumSize(highWater)
    ensures forall count: nat :: count >= QuorumSize(highWater) <==> IsMajority(count, highWater)
  {
  }

  /** The quorum events of a tick from cluster `last` to cluster `now`: which are published, with what they carry. */
  ghost predicate QuorumEventsAre(events: seq<Event>, term: nat, last: set<string>, largest: nat,
                                  now: set<string>, largest': nat) {
    var had, has := IsMajority(|last|, largest), IsMajority(|now|, largest');
    && (forall t, m, q :: QuorumLost(t, m, q) in events <==>
          had && !has && t == term && m == |now| && IsLeastMajority(q, largest'))
    && (forall t, m, q :: QuorumRestored(t, m, q) in events <==>
          !had && has && t == term && m == |now| && IsLeastMajority(q, largest'))
    && (forall t, m, q, x :: Degraded(t, m, q, x) in events <==>
          had && has && t == term && m == |now| && IsLeastMajority(q, largest') && x in last && x !in now)
  }

  predicate OfQuorum(e: Event) {
    e.QuorumLost? || e.QuorumRestored? || e.Degraded?
  }

  lemma QuorumEventsHold(n: Node, term: nat, ids: set<string>, highWater: nat)
    requires n.previous.Some?
    ensures QuorumEventsAre(QuorumEvents(n, term, ids, highWater), term, n.previous.value, n.highWater, ids, highWater)
    ensures Distinct(QuorumEvents(n, term, ids, highWater))
    ensures forall e :: e in QuorumEvents(n, term, ids, highWater) ==> OfQuorum(e)
  {
    QuorumIsLeastMajority(n.highWater);
    QuorumIsLeastMajority(highWater);
    var gone := n.previous.value - ids;
    SortedOrder(gone);
    var events, order := QuorumEvents(n, term, ids, highWater), Sorted(gone);
    var had, has := IsMajority(|n.previous.value|, n.highWater), IsMajority(|ids|, highWater);
    hide IsMajority;
    hide IsLeastMajority;
    hide QuorumSize;
    if had && has {
      forall x | x in gone
        ensures Degraded(term, |ids|, QuorumSize(highWater), x) in events
      {
        var i :| 0 <= i < |order| && order[i] == x;
        assert events[i] == Degraded(term, |ids|, QuorumSize(highWater), x);
      }
      forall e | e in events
        ensures e == Degraded(term, |ids|, QuorumSize(highWater), e.evicted) && e.evicted in gone
      {
        var i :| 0 <= i < |order| && events[i] == e;
        assert order[i] in order;
      }
      assert QuorumEventsAre(events, term, n.previous.value, n.highWater, ids, highWater);
    } else if had {
      assert events == [QuorumLost(term, |ids|, QuorumSize(highWater))];
      assert QuorumEventsAre(events, term, n.previous.value, n.highWater, ids, highWater);
    } else if has {
      assert events == [QuorumRestored(term, |ids|, QuorumSize(highWater))];
      assert QuorumEventsAre(events, term, n.previous.value, n.highWater, ids, highWater);
    } else {
      assert events == [];
      assert QuorumEventsAre(events, term, n.previous.value, n.highWater, ids, highWater);
    }
  }

  lemma LargestSeenIsUnique(a: nat, b: nat, self: string, history: seq<set<string>>)
    requires IsLargestSeen(a, self, history) && IsLargestSeen(b, self, history)
    ensures a == b
  {
  }

  /** The election and role events of a tick in which the greatest id goes from `last` to `now`. */
  ghost predicate RoleEventsAre(events: seq<Event>, term: nat, self: string, last: string, now: string) {
    && (forall x, t :: LeaderElected(x, t) in events <==> last != now && x == now && t == term)
    && (forall t, was, leads, x :: ViewChanged(t, was, leads, x) in events <==>
          was == (last == self) && leads == (now == self) && was != leads && t == term && x == now)
  }

  lemma RoleEventsHold(before: Node, after: Node)
    requires after.self == before.self
    requires after.term == before.term + (if after.leader == before.leader then 0 else 1)
    ensures RoleEventsAre(RoleEvents(before, after), after.term, before.self, before.leader, after.leader)
    ensures Distinct(RoleEvents(before, after))
    ensures forall e :: e in RoleEvents(before, after) ==> !OfQuorum(e)
    ensures forall i, j :: 0 <= i < j < |RoleEvents(before, after)| ==>
              Rank(RoleEvents(before, after)[i]) <= Rank(RoleEvents(before, after)[j])
  {
  }

  /** Events about quorum come first, then the election, then the role. */
  function Rank(e: Event): nat {
    if OfQuorum(e) then 0 else if e.LeaderElected? then 1 else 2
  }

  /** A distinct list of quorum events before a distinct list of others is distinct. */
  lemma DistinctConcat(quorum: seq<Event>, role: seq<Event>)
    requires Distinct(quorum) && Distinct(role)
    requires (forall e :: e in quorum ==> OfQuorum(e)) && (forall e :: e in role ==> !OfQuorum(e))
    ensures Distinct(quorum + role)
  {
    var all := quorum + role;
    forall i, j | 0 <= i < j < |all|
      ensures all[i] != all[j]
    {
      if i < |quorum| <= j {
        assert all[i] in quorum && all[j] in role;
      }
    }
  }

  lemma QuorumEventsConcat(quorum: seq<Event>, role: seq<Event>, term: nat, last: set<string>, largest: nat,
                           now: set<string>, largest': nat)
    requires QuorumEventsAre(quorum, term, last, largest, now, largest')
    requires forall e :: e in role ==> !OfQuorum(e)
    ensures QuorumEventsAre(quorum + role, term, last, largest, now, largest')
  {
    hide IsMajority;
    hide IsLeastMajority;
    assert forall e :: OfQuorum(e) ==> (e in quorum + role <==> e in quorum);
  }

  lemma RoleEventsConcat(quorum: seq<Event>, role: seq<Event>, term: nat, self: string, last: string, now: string)
    requires RoleEventsAre(role, term, self, last, now)
    requires forall e :: e in quorum ==> OfQuorum(e)
    ensures RoleEventsAre(quorum + role, term, self, last, now)
  {
    assert forall e :: !OfQuorum(e) ==> (e in quorum + role <==> e in role);
  }

  lemma RanksConcat(quorum: seq<Event>, role: seq<Event>)
    requires (forall e :: e in quorum ==> OfQuorum(e))
    requires forall i, j :: 0 <= i < j < |role| ==> Rank(role[i]) <= Rank(role[j])
    ensures forall i, j :: 0 <= i < j < |quorum + role| ==> Rank((quorum + role)[i]) <= Rank((quorum + role)[j])
  {
    var all := quorum + role;
    forall i, j | 0 <= i < j < |all|
      ensures Rank(all[i]) <= Rank(all[j])
    {
      if i < |quorum| {
        assert all[i] in quorum;
      }
    }
  }

  /**
   * What a tick publishes, from the clusters seen alone. Quorum is a majority of the largest cluster
   * seen; its loss and its return are published when the last cluster and this one differ in it, and
   * while it lasts one degradation names each peer of the last cluster that is missing from this one.
   * An election is published when the greatest id changes, and a role change when being the
   * greatest id does. Nothing is published twice.
   */
  lemma TickPublishes(self: string, history: seq<set<string>>, members: set<string>, largest: nat, largest': nat)
    requires history != [] && IsLargestSeen(largest, self, history) && IsLargestSeen(largest', self, history + [members])
    ensures var n := RunNode(Boot(self), history);
            var (n', events) := Tick(n, members);
            var last, now := Seen(self, history, |history| - 1), members + {self};
            && QuorumEventsAre(events, n'.term, last, largest, now, largest')
            && RoleEventsAre(events, n'.term, self, Greatest(last), Greatest(now))
            && n'.term == n.term + (if Greatest(last) == Greatest(now) then 0 else 1)
            && Distinct(events)
            && forall i, j :: 0 <= i < j < |events| ==> Rank(events[i]) <= Rank(events[j])
  {
    var n := RunNode(Boot(self), history);
    var longer := history + [members];
    assert longer[..|longer| - 1] == history;
    StateIsHistory(self, history);
    StateIsHistory(self, longer);
    var n' := RunNode(Boot(self), longer);
    var last, now := Seen(self, history, |history| - 1), members + {self};
    assert largest == n.highWater && largest' == n'.highWater by {
      LargestSeenIsUnique(largest, n.highWater, self, history);
      LargestSeenIsUnique(largest', n'.highWater, self, longer);
    }
    GreatestUnique(last);
    GreatestUnique(now);
    assert n.leader == Greatest(last) && n'.leader == Greatest(now);
    hide RunNode;
    hide IsLargestSeen;
    hide IsGreatest;
    QuorumEventsHold(n, n'.term, now, n'.highWater);
    RoleEventsHold(n, n');
    var quorum, role := QuorumEvents(n, n'.term, now, n'.highWater), RoleEvents(n, n');
    assert Tick(n, members) == (n', quorum + role);
    hide QuorumEvents;
    hide RoleEvents;
    hide QuorumEventsAre;
    hide RoleEventsAre;
    hide Tick;
    DistinctConcat(quorum, role);
    RanksConcat(quorum, role);
    QuorumEventsConcat(quorum, role, n'.term, last, largest, now, largest');
    RoleEventsConcat(quorum, role, n'.term, self, Greatest(last), Greatest(now));
  }

  /** The first tick compares with no earlier cluster: it publishes nothing about quorum. */
  lemma FirstTickPublishes(self: string, members: set<string>)
    ensures var (n', events) := Tick(Boot(self), members);
            && (forall e :: e in events ==> !OfQuorum(e)) && Distinct(events)
            && RoleEventsAre(events, n'.term, self, self, Greatest(members + {self}))
  {
    var n' := Tick(Boot(self), members).0;
    RoleEventsHold(Boot(self), n');
    assert [] + RoleEvents(Boot(self), n') == RoleEvents(Boot(self), n');
    hide RoleEvents;
  }

  // ---- agreement between nodes

  /** Nodes that see the same cluster agree on the leader, and exactly one of them leads. */
  lemma OneLeader(cluster: set<string>, n: Node)
    requires n.self in cluster
    ensures var n' := Tick(n, cluster - {n.self}).0;
            n'.leader == Greatest(cluster) && (IsLeader(n') <==> n.self == Greatest(cluster))
  {
    assert (cluster - {n.self}) + {n.self} == cluster;
  }

  /** Two disjoint parts of a cluster that once had `highWater` members cannot both have quorum. */
  lemma NoTwoQuorums(cluster: set<string>, a: set<string>, b: set<string>, highWater: nat)
    requires a <= cluster && b <= cluster && a !! b && |cluster| <= highWater
    ensures |a| < QuorumSize(highWater) || |b| < QuorumSize(highWater)
  {
    assert |a + b| == |a| + |b|;
    assert cluster == (a + b) + (cluster - (a + b));
  }
}
