/** The result consistency sweeper: a paginated walk over all job ids, with priority checks on top. */
module Sweeper {
  import opened Wrappers
  import opened StringOrder
  import opened Cyclic

  datatype Sweep = Sweep(chunk: nat, cursor: nat, priority: seq<string>)

  function Min(a: nat, b: nat): nat {
    if a < b then a else b
  }

  /** `list(dict.fromkeys(s))`: first occurrences, in order. */
  function Dedup(s: seq<string>): (r: seq<string>)
    ensures forall x :: x in r <==> x in s
    ensures Distinct(r)
  {
    if s == [] then []
    else
      var before := Dedup(s[..|s| - 1]);
      if s[|s| - 1] in before then before else before + [s[|s| - 1]]
  }

  /** The ids of one page, going round from the cursor. */
  function Batch(s: Sweep, ids: seq<string>): (r: seq<string>)
    ensures |r| == Min(s.chunk, |ids|)
  {
    if ids == [] then []
    else
      var n := |ids|;
      seq(Min(s.chunk, n), i requires 0 <= i < n => ids[(s.cursor % n + i) % n])
  }

  function Targets(s: Sweep, ids: seq<string>): seq<string> {
    Dedup(s.priority + Batch(s, ids))
  }

  function Step(s: Sweep, ids: seq<string>): Sweep {
    var cursor := if ids == [] then s.cursor else (s.cursor % |ids| + |Batch(s, ids)|) % |ids|;
    s.(cursor := cursor, priority := [])
  }

  function RequestPriority(s: Sweep, id: string): Sweep {
    if id in s.priority then s else s.(priority := s.priority + [id])
  }

  function StepsOfPass(chunk: nat, n: nat): nat
    requires chunk > 0
  {
    n / chunk + 1
  }

  method FirstOccurrences(all: seq<string>) returns (targets: seq<string>)
    ensures targets == Dedup(all)
  {
    targets := [];
    for i := 0 to |all|
      invariant targets == Dedup(all[..i])
    {
      assert all[..i + 1][..i] == all[..i];
      if all[i] !in targets {
        targets := targets + [all[i]];
      }
    }
    assert all[..|all|] == all;
  }

  class ConsistencySweeper {
    const chunk: nat
    var cursor: nat
    var priority: seq<string>
    var syncing: bool
    var lastRun: Option<real>
    /** The ids re-verified so far, in order. */
    var verified: seq<string>

    ghost function View(): Sweep
      reads this
    {
      Sweep(chunk, cursor, priority)
    }

    constructor (chunkSize: int)
      ensures View() == Sweep(Max(1, chunkSize), 0, []) && !syncing && lastRun == None && verified == []
    {
      chunk := Max(1, chunkSize);
      cursor, priority, syncing, lastRun, verified := 0, [], false, None, [];
    }

    method RequestPriorityCheck(id: string)
      modifies this`priority
      ensures View() == RequestPriority(old(View()), id)
    {
      if id !in priority {
        priority := priority + [id];
      }
    }

    method Page(ids: seq<string>) returns (batch: seq<string>)
      ensures batch == Batch(View(), ids)
    {
      batch := [];
      if ids != [] {
        var n := |ids|;
        var start := cursor % n;
        for i := 0 to Min(chunk, n)
          invariant batch == Batch(View(), ids)[..i]
        {
          batch := batch + [ids[(start + i) % n]];
        }
      }
    }

    method RunStep(ids: seq<string>)
      modifies this`cursor, this`priority, this`verified
      ensures View() == Step(old(View()), ids)
      ensures verified == old(verified) + Targets(old(View()), ids)
    {
      var batch := Page(ids);
      hide Batch;
      hide Dedup;
      var targets := FirstOccurrences(priority + batch);
      priority := [];
      if ids != [] {
        cursor := (cursor % |ids| + |batch|) % |ids|;
      }
      verified := verified + targets;
    }

    /** Runs one step when due; a step due during another sync is skipped. */
    method MaybeRunPeriodic(now: real, interval: real, ids: seq<string>) returns (ran: bool)
      modifies this
      ensures ran <==> !old(syncing) && (old(lastRun).None? || now - old(lastRun).value >= interval)
      ensures syncing == old(syncing)
      ensures ran ==> View() == Step(old(View()), ids) && lastRun == Some(now) &&
                      verified == old(verified) + Targets(old(View()), ids)
      ensures !ran ==> View() == old(View()) && lastRun == old(lastRun) && verified == old(verified)
    {
      if syncing || (lastRun.Some? && now - lastRun.value < interval) {
        return false;
      }
      lastRun, syncing := Some(now), true;
      RunStep(ids);
      syncing := false;
      return true;
    }

    /** A full pass, page after page; refused while another sync runs. */
    method ManualPass(ids: seq<string>) returns (ran: bool)
      requires chunk > 0
      modifies this
      ensures ran <==> !old(syncing)
      ensures syncing == old(syncing)
      ensures ran ==> View() == After(old(View()), ids, StepsOfPass(chunk, |ids|)) &&
                      verified == old(verified) + AllTargets(old(View()), ids, StepsOfPass(chunk, |ids|))
      ensures !ran ==> View() == old(View()) && verified == old(verified)
    {
      hide Step;
      hide Targets;
      if syncing {
        return false;
      }
      syncing := true;
      var steps := |ids| / chunk + 1;
      for i := 0 to steps
        invariant syncing
        invariant View() == After(old(View()), ids, i)
        invariant verified == old(verified) + AllTargets(old(View()), ids, i)
      {
        RunStep(ids);
      }
      syncing := false;
      return true;
    }
  }

  // ---- several steps

  function After(s: Sweep, ids: seq<string>, k: nat): Sweep {
    if k == 0 then s else Step(After(s, ids, k - 1), ids)
  }

  function AllTargets(s: Sweep, ids: seq<string>, k: nat): seq<string> {
    if k == 0 then [] else AllTargets(s, ids, k - 1) + Targets(After(s, ids, k - 1), ids)
  }

  function AllBatches(s: Sweep, ids: seq<string>, k: nat): seq<string> {
    if k == 0 then [] else AllBatches(s, ids, k - 1) + Batch(After(s, ids, k - 1), ids)
  }

  function Walked(s: Sweep, ids: seq<string>, k: nat): nat {
    k * Min(s.chunk, |ids|)
  }

  lemma PageWalks(s: Sweep, ids: seq<string>)
    requires ids != []
    ensures Walks(Batch(s, ids), ids, Spot(s.cursor, |ids|))
  {
  }

  lemma StepMoves(s: Sweep, ids: seq<string>)
    requires ids != []
    ensures Spot(Step(s, ids).cursor, |ids|) == Spot(Spot(s.cursor, |ids|) + Min(s.chunk, |ids|), |ids|)
    ensures Walks(Batch(s, ids), ids, Spot(s.cursor, |ids|))
    ensures Step(s, ids).chunk == s.chunk
  {
    PageWalks(s, ids);
    hide Walks;
    hide Batch;
    var c := (s.cursor % |ids| + Min(s.chunk, |ids|)) % |ids|;
    DivModUnique(c, |ids|, 0, c);
  }

  lemma {:induction false} CursorMoves(s: Sweep, ids: seq<string>, k: nat)
    requires ids != []
    ensures After(s, ids, k).chunk == s.chunk
    ensures Spot(After(s, ids, k).cursor, |ids|) == Spot(Spot(s.cursor, |ids|) + Walked(s, ids, k), |ids|)
    decreases k
  {
    hide Spot;
    hide Walked;
    hide Step;
    hide Walks;
    if k == 0 {
      NothingWalked(s, ids);
    } else {
      CursorMoves(s, ids, k - 1);
      WalkedOneMore(s, ids, k);
      StepMoves(After(s, ids, k - 1), ids);
      SpotAdd(Spot(s.cursor, |ids|) + Walked(s, ids, k - 1), Min(s.chunk, |ids|), |ids|);
    }
  }

  /** Consecutive steps walk consecutive places: k pages of m ids are one stretch of k * m places. */
  lemma {:induction false} BatchesWalk(s: Sweep, ids: seq<string>, k: nat)
    requires ids != []
    ensures |AllBatches(s, ids, k)| == Walked(s, ids, k)
    ensures Walks(AllBatches(s, ids, k), ids, Spot(s.cursor, |ids|))
    decreases k
  {
    hide Spot;
    hide Walked;
    hide Walks;
    hide Batch;
    hide After;
    hide Step;
    if k == 0 {
      NothingWalked(s, ids);
    } else {
      BatchesWalk(s, ids, k - 1);
      var before := After(s, ids, k - 1);
      CursorMoves(s, ids, k - 1);
      WalkedOneMore(s, ids, k);
      StepMoves(before, ids);
      WalkFromSpot(Batch(before, ids), ids, Spot(s.cursor, |ids|) + Walked(s, ids, k - 1));
      WalkOn(AllBatches(s, ids, k - 1), Batch(before, ids), ids, Spot(s.cursor, |ids|));
    }
  }

  lemma NothingWalked(s: Sweep, ids: seq<string>)
    requires ids != []
    ensures Walked(s, ids, 0) == 0 && Walks([], ids, Spot(s.cursor, |ids|))
    ensures Spot(Spot(s.cursor, |ids|) + 0, |ids|) == Spot(s.cursor, |ids|)
  {
    SpotAdd(s.cursor, 0, |ids|);
  }

  lemma WalkedOneMore(s: Sweep, ids: seq<string>, k: nat)
    requires k > 0
    ensures Walked(s, ids, k) == Walked(s, ids, k - 1) + Min(s.chunk, |ids|)
  {
    var m := Min(s.chunk, |ids|);
    assert k * m == (k - 1) * m + m;
  }

  lemma PagedIsVisited(s: Sweep, ids: seq<string>, k: nat, r: nat)
    requires Distinct(ids) && r < |ids|
    ensures CountOf(AllBatches(s, ids, k), ids[r]) == Visits(s.cursor % |ids|, Walked(s, ids, k), |ids|, r)
  {
    hide AllBatches;
    hide After;
    hide Walked;
    hide Visits;
    hide CountOf;
    hide Distinct;
    BatchesWalk(s, ids, k);
    CountIsVisits(AllBatches(s, ids, k), ids, s.cursor % |ids|, r);
  }

  /** Fairness: over k steps every id is paged floor or ceil of its share, so counts differ by at most one. */
  lemma PagesAreFair(s: Sweep, ids: seq<string>, k: nat, r: nat)
    requires Distinct(ids) && r < |ids|
    ensures var len := Walked(s, ids, k);
            FloorDiv(len, |ids|) <= CountOf(AllBatches(s, ids, k), ids[r]) <= CeilDiv(len, |ids|)
    ensures CeilDiv(Walked(s, ids, k), |ids|) <= FloorDiv(Walked(s, ids, k), |ids|) + 1
  {
    hide AllBatches;
    hide Walked;
    hide Visits;
    hide FloorDiv;
    hide CeilDiv;
    hide CountOf;
    PagedIsVisited(s, ids, k, r);
    Fair(s.cursor % |ids|, Walked(s, ids, k), |ids|, r);
    CeilIsFloorOrNext(Walked(s, ids, k), |ids|);
  }

  lemma {:induction false} BatchesAreTargets(s: Sweep, ids: seq<string>, k: nat, x: string)
    requires x in AllBatches(s, ids, k)
    ensures x in AllTargets(s, ids, k)
    decreases k
  {
    if x in AllBatches(s, ids, k - 1) {
      BatchesAreTargets(s, ids, k - 1, x);
    } else {
      assert x in Batch(After(s, ids, k - 1), ids);
    }
  }

  lemma EnoughSteps(s: Sweep, ids: seq<string>, k: nat)
    requires s.chunk > 0 && ids != [] && k >= CeilDiv(|ids|, s.chunk)
    ensures Walked(s, ids, k) >= |ids|
  {
    var n, c, q := |ids|, s.chunk, CeilDiv(|ids|, s.chunk);
    assert n + c - 1 == q * c + (n + c - 1) % c;
    assert q * c >= n;
    MultipleBound(q, c);
    if c < n {
      assert k * c == q * c + (k - q) * c;
      MultipleBound(k - q, c);
    } else {
      assert k * n == n + (k - 1) * n;
      MultipleBound(k - 1, n);
    }
  }

  /** Coverage: any ceil(n/c) consecutive steps re-verify every id. */
  lemma StepsCoverAll(s: Sweep, ids: seq<string>, k: nat, r: nat)
    requires s.chunk > 0 && Distinct(ids) && r < |ids| && k >= CeilDiv(|ids|, s.chunk)
    ensures ids[r] in AllTargets(s, ids, k)
  {
    EnoughSteps(s, ids, k);
    hide AllBatches;
    hide Walked;
    hide Visits;
    PagedIsVisited(s, ids, k, r);
    FullRoundCovers(s.cursor % |ids|, Walked(s, ids, k), |ids|, r);
    CountedIsIn(AllBatches(s, ids, k), ids[r]);
    BatchesAreTargets(s, ids, k, ids[r]);
  }

  /** A manual pass re-verifies every id. */
  lemma ManualPassCoversAll(s: Sweep, ids: seq<string>, r: nat)
    requires s.chunk > 0 && Distinct(ids) && r < |ids|
    ensures ids[r] in AllTargets(s, ids, StepsOfPass(s.chunk, |ids|))
  {
    CeilIsFloorOrNext(|ids|, s.chunk);
    StepsCoverAll(s, ids, StepsOfPass(s.chunk, |ids|), r);
  }

  /** A requested id is among the next step's targets, which name nothing twice and nothing uncalled for. */
  lemma PriorityIsNext(s: Sweep, ids: seq<string>, id: string)
    ensures var t := Targets(RequestPriority(s, id), ids);
            id in t && Distinct(t) && forall x :: x in t ==> x == id || x in s.priority || x in ids
  {
    var asked := RequestPriority(s, id);
    assert id in asked.priority;
    assert id in asked.priority + Batch(asked, ids);
  }

  // ---- what a step re-verifies, in which order

  /** The elements of s that are not in t. */
  function Besides(s: seq<string>, t: seq<string>): seq<string> {
    if s == [] then []
    else Besides(s[..|s| - 1], t) + (if s[|s| - 1] in t then [] else [s[|s| - 1]])
  }

  lemma {:induction false} BesidesIn(s: seq<string>, t: seq<string>, x: string)
    ensures x in Besides(s, t) <==> x in s && x !in t
  {
    if s != [] {
      BesidesIn(s[..|s| - 1], t, x);
      assert s == s[..|s| - 1] + [s[|s| - 1]];
    }
  }

  lemma {:induction false} DedupDistinct(s: seq<string>)
    requires Distinct(s)
    ensures Dedup(s) == s
  {
    if s != [] {
      DedupDistinct(s[..|s| - 1]);
      assert s == s[..|s| - 1] + [s[|s| - 1]];
    }
  }

  lemma {:induction false} DedupAppends(s: seq<string>, t: seq<string>)
    requires Distinct(s) && Distinct(t)
    ensures Dedup(s + t) == s + Besides(t, s)
    decreases |t|
  {
    if t == [] {
      DedupDistinct(s);
      assert s + t == s;
    } else {
      var n := |t| - 1;
      DedupAppends(s, t[..n]);
      BesidesIn(t[..n], s, t[n]);
      assert (s + t)[..|s + t| - 1] == s + t[..n];
      assert forall i :: 0 <= i < n ==> t[..n][i] != t[n];
    }
  }

  lemma Around(start: nat, i: nat, n: nat)
    requires start < n && i < n
    ensures (start + i) % n == if start + i < n then start + i else start + i - n
  {
    var q := if start + i < n then 0 else 1;
    DivModUnique(start + i, n, q, start + i - q * n);
  }

  lemma PageIsDistinct(s: Sweep, ids: seq<string>)
    requires Distinct(ids)
    ensures Distinct(Batch(s, ids))
  {
    var page := Batch(s, ids);
    forall i, j | 0 <= i < j < |page|
      ensures page[i] != page[j]
    {
      var n, start := |ids|, s.cursor % |ids|;
      Around(start, i, n);
      Around(start, j, n);
      var k, l := (start + i) % n, (start + j) % n;
      assert k != l && page[i] == ids[k] && page[j] == ids[l];
    }
  }

  /** A step re-verifies the queued ids, in the order queued, and then the rest of its page. */
  lemma PrioritiesComeFirst(s: Sweep, ids: seq<string>)
    requires Distinct(s.priority) && Distinct(ids)
    ensures Targets(s, ids) == s.priority + Besides(Batch(s, ids), s.priority)
  {
    PageIsDistinct(s, ids);
    hide Batch;
    DedupAppends(s.priority, Batch(s, ids));
  }

  function RequestAll(s: Sweep, requests: seq<string>): Sweep {
    if requests == [] then s
    else RequestPriority(RequestAll(s, requests[..|requests| - 1]), requests[|requests| - 1])
  }

  /** Requests queue up in the order they first come in, and leave the walk where it is. */
  lemma {:induction false} RequestsQueue(s: Sweep, requests: seq<string>)
    requires s.priority == []
    ensures RequestAll(s, requests) == s.(priority := Dedup(requests))
  {
    if requests != [] {
      RequestsQueue(s, requests[..|requests| - 1]);
    }
  }

  /**
   * So between two steps, whatever was asked for comes first and once, then the page; and the step
   * after that, nothing more being asked, goes on with its page alone.
   */
  lemma RequestsAreServedOnce(s: Sweep, requests: seq<string>, ids: seq<string>, later: seq<string>)
    requires s.priority == [] && Distinct(ids) && Distinct(later)
    ensures var asked := RequestAll(s, requests);
            && Targets(asked, ids) == Dedup(requests) + Besides(Batch(s, ids), Dedup(requests))
            && Step(asked, ids).priority == []
            && Targets(Step(asked, ids), later) == Batch(Step(asked, ids), later)
  {
    var asked := RequestAll(s, requests);
    RequestsQueue(s, requests);
    PrioritiesComeFirst(asked, ids);
    var next := Step(asked, ids);
    PageIsDistinct(next, later);
    DedupDistinct(Batch(next, later));
    assert [] + Batch(next, later) == Batch(next, later);
    hide Dedup;
  }
}
