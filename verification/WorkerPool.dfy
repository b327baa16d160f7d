/**
 * The process runtime: pools of worker processes, each with its own queue of jobs. Accepted
 * jobs are conserved through dispatch, results, crashes, timeouts and cancellation.
 */
module WorkerPool {
  import opened Wrappers

  type Job = string

  /**
   * One worker handle. `current` is the job dispatched to it (its `busy` flag). A cancelled
   * worker has been killed by `cancel`; a stopped one was swept and holds the stop marker
   * behind whatever was still queued.
   */
  datatype Worker = Worker(
    key: FnKey, queue: seq<Job>, current: Option<Job>, cancelled: bool, stopped: bool)

  datatype Outcome = Finished | Failed | Crashed | TimedOut | Cancelled

  datatype Report = Report(job: Job, outcome: Outcome)

  /** Workers are named by position; `registered` lists the live ones in registration order. */
  datatype Pool = Pool(
    workers: seq<Worker>, registered: seq<nat>, accepted: multiset<Job>, reports: seq<Report>)

  predicate Known(ids: seq<nat>, n: nat) {
    forall i :: 0 <= i < |ids| ==> ids[i] < n
  }

  predicate WellFormed(p: Pool) {
    Known(p.registered, |p.workers|)
  }

  // ---- choosing a worker

  /** The registered workers of one function version, in registration order. */
  function Members(workers: seq<Worker>, registered: seq<nat>, key: FnKey): (r: seq<nat>)
    requires Known(registered, |workers|)
    ensures Known(r, |workers|)
    ensures forall id :: id in r <==> id in registered && workers[id].key == key
  {
    if registered == [] then []
    else
      var n := |registered| - 1;
      var before := Members(workers, registered[..n], key);
      if workers[registered[n]].key == key then before + [registered[n]] else before
  }

  function PoolOf(p: Pool, key: FnKey): seq<nat>
    requires WellFormed(p)
  {
    Members(p.workers, p.registered, key)
  }

  predicate IsIdle(w: Worker) {
    w.current.None? && w.queue == []
  }

  function FirstIdle(workers: seq<Worker>, ids: seq<nat>): (r: Option<nat>)
    requires Known(ids, |workers|)
    ensures r.Some? ==> r.value in ids && IsIdle(workers[r.value])
    ensures r.None? ==> forall id :: id in ids ==> !IsIdle(workers[id])
  {
    if ids == [] then None
    else if IsIdle(workers[ids[0]]) then Some(ids[0])
    else FirstIdle(workers, ids[1..])
  }

  /** The first member with the shortest queue. */
  function LeastLoaded(workers: seq<Worker>, ids: seq<nat>): (r: nat)
    requires ids != [] && Known(ids, |workers|)
    ensures r in ids && forall id :: id in ids ==> |workers[r].queue| <= |workers[id].queue|
  {
    var n := |ids| - 1;
    if n == 0 then ids[0]
    else
      var best := LeastLoaded(workers, ids[..n]);
      if |workers[ids[n]].queue| < |workers[best].queue| then ids[n] else best
  }

  // ---- the operations

  function Enqueue(p: Pool, id: nat, job: Job): Pool
    requires id < |p.workers|
  {
    p.(workers := p.workers[id := p.workers[id].(queue := p.workers[id].queue + [job])],
       accepted := p.accepted + multiset{job})
  }

  function Spawn(p: Pool, key: FnKey): Pool {
    p.(workers := p.workers + [Worker(key, [], None, false, false)], registered := p.registered + [|p.workers|])
  }

  /** `_max_concurrency_for`: an unknown function counts as 1. */
  function Limit(record: Option<int>): (r: nat)
    ensures r >= 1
  {
    if record.Some? then Max(1, record.value) else 1
  }

  /** `record` is the function's max_concurrency, or None when the function is not registered. */
  function Invoke(p: Pool, key: FnKey, job: Job, record: Option<int>): (r: (Pool, bool))
    requires WellFormed(p)
  {
    var pool := PoolOf(p, key);
    var idle := FirstIdle(p.workers, pool);
    if idle.Some? then (Enqueue(p, idle.value, job), true)
    else if |pool| < Limit(record) then
      if record.None? then (p, false) else (Enqueue(Spawn(p, key), |p.workers|, job), true)
    else (Enqueue(p, LeastLoaded(p.workers, pool), job), true)
  }

  function Unregister(registered: seq<nat>, id: nat): (r: seq<nat>)
    ensures forall x :: x in r <==> x in registered && x != id
    ensures forall n :: Known(registered, n) ==> Known(r, n)
  {
    if registered == [] then []
    else
      var n := |registered| - 1;
      var before := Unregister(registered[..n], id);
      assert forall m :: Known(registered, m) ==> Known(registered[..n], m) && registered[n] < m;
      if registered[n] == id then before else before + [registered[n]]
  }

  predicate CanDispatch(p: Pool, id: nat) {
    id < |p.workers| && p.workers[id].queue != [] && p.workers[id].current.None?
  }

  function Dispatch(p: Pool, id: nat): Pool
    requires CanDispatch(p, id)
  {
    var w := p.workers[id];
    p.(workers := p.workers[id := w.(current := Some(w.queue[0]), queue := w.queue[1..])])
  }

  /** A killed worker sends nothing more. */
  predicate CanFinish(p: Pool, id: nat) {
    id < |p.workers| && p.workers[id].current.Some? && !p.workers[id].cancelled && !p.workers[id].stopped
  }

  function Finish(p: Pool, id: nat, ok: bool): Pool
    requires CanFinish(p, id)
  {
    var w := p.workers[id];
    p.(workers := p.workers[id := w.(current := None)],
       reports := p.reports + [Report(w.current.value, if ok then Finished else Failed)])
  }

  function ReportAll(jobs: seq<Job>, outcome: Outcome): (r: seq<Report>)
    ensures |r| == |jobs| && forall i :: 0 <= i < |r| ==> r[i] == Report(jobs[i], outcome)
  {
    seq(|jobs|, i requires 0 <= i < |jobs| => Report(jobs[i], outcome))
  }

  predicate InFlight(p: Pool, id: nat) {
    id < |p.workers| && p.workers[id].current.Some?
  }

  /** The worker is gone: its dispatched job ends with `first`, whatever was queued behind it as crashed. */
  function Recycle(p: Pool, id: nat, first: Outcome): Pool
    requires InFlight(p, id)
  {
    var w := p.workers[id];
    Pool(p.workers[id := w.(current := None, queue := [])],
         Unregister(p.registered, id),
         p.accepted,
         p.reports + [Report(w.current.value, first)] + ReportAll(w.queue, Crashed))
  }

  /**
   * `_handle_crash` and `_handle_timeout`: a cancelled worker has already been reported on;
   * on a stopped one the drain meets the stop marker and fails before anything is reported.
   */
  function Lose(p: Pool, id: nat, first: Outcome): Pool
    requires InFlight(p, id)
  {
    var w := p.workers[id];
    if w.cancelled then p.(workers := p.workers[id := w.(current := None)])
    else if w.stopped then p.(workers := p.workers[id := w.(current := None, queue := [])])
    else Recycle(p, id, first)
  }

  function FindCurrent(workers: seq<Worker>, ids: seq<nat>, job: Job): (r: Option<nat>)
    requires Known(ids, |workers|)
    ensures r.Some? ==> r.value in ids && workers[r.value].current == Some(job)
    ensures r.None? ==> forall id :: id in ids ==> workers[id].current != Some(job)
  {
    if ids == [] then None
    else if workers[ids[0]].current == Some(job) then Some(ids[0])
    else FindCurrent(workers, ids[1..], job)
  }

  function FindQueued(workers: seq<Worker>, ids: seq<nat>, job: Job): (r: Option<nat>)
    requires Known(ids, |workers|)
    ensures r.Some? ==> r.value in ids && job in workers[r.value].queue
    ensures r.None? ==> forall id :: id in ids ==> job !in workers[id].queue
  {
    if ids == [] then None
    else if job in workers[ids[0]].queue then Some(ids[0])
    else FindQueued(workers, ids[1..], job)
  }

  /** The queue without a job, the others keeping their order. */
  function Dropping(queue: seq<Job>, job: Job): (r: seq<Job>)
    ensures forall x :: x in r <==> x in queue && x != job
  {
    if queue == [] then []
    else
      var n := |queue| - 1;
      var before := Dropping(queue[..n], job);
      if queue[n] == job then before else before + [queue[n]]
  }

  function Cancel(p: Pool, job: Job): (Pool, bool)
    requires WellFormed(p)
  {
    var running := FindCurrent(p.workers, p.registered, job);
    if running.Some? then
      var id := running.value;
      var w := p.workers[id];
      (Pool(p.workers[id := w.(queue := [], cancelled := true)],
            Unregister(p.registered, id),
            p.accepted,
            p.reports + [Report(job, Cancelled)] + ReportAll(w.queue, Crashed)), true)
    else
      var queued := FindQueued(p.workers, p.registered, job);
      if queued.Some? then
        var w := p.workers[queued.value];
        (p.(workers := p.workers[queued.value := w.(queue := Dropping(w.queue, job))],
            reports := p.reports + [Report(job, Cancelled)]), true)
      else (p, false)
  }

  predicate CanSweep(p: Pool, id: nat) {
    id < |p.workers| && id in p.registered
  }

  /**
   * Stops a worker: evicted, killed, and left with the stop marker in its queue. The idle sweep
   * picks workers that run nothing; the sweep by invocation count picks busy ones too.
   */
  function Sweep(p: Pool, id: nat): Pool
    requires CanSweep(p, id)
  {
    p.(workers := p.workers[id := p.workers[id].(stopped := true)], registered := Unregister(p.registered, id))
  }

  // ---- the runtime object

  class Runtime {
    var workers: seq<Worker>
    var registered: seq<nat>
    /** The completions reported so far, in order. */
    var reports: seq<Report>
    ghost var accepted: multiset<Job>

    ghost function View(): Pool
      reads this
    {
      Pool(workers, registered, accepted, reports)
    }

    constructor ()
      ensures View() == NOTHING
    {
      workers, registered, reports, accepted := [], [], [], multiset{};
    }

    method MembersOf(key: FnKey) returns (ids: seq<nat>)
      requires WellFormed(View())
      ensures ids == PoolOf(View(), key)
    {
      ids := [];
      for i := 0 to |registered|
        invariant ids == Members(workers, registered[..i], key)
      {
        assert registered[..i + 1][..i] == registered[..i];
        if workers[registered[i]].key == key {
          ids := ids + [registered[i]];
        }
      }
      assert registered[..|registered|] == registered;
    }

    method IdleAmong(ids: seq<nat>) returns (found: Option<nat>)
      requires Known(ids, |workers|)
      ensures found == FirstIdle(workers, ids)
    {
      for i := 0 to |ids|
        invariant FirstIdle(workers, ids) == FirstIdle(workers, ids[i..])
      {
        if workers[ids[i]].current.None? && workers[ids[i]].queue == [] {
          return Some(ids[i]);
        }
        assert ids[i..][1..] == ids[i + 1..];
      }
      return None;
    }

    method ShortestQueue(ids: seq<nat>) returns (best: nat)
      requires ids != [] && Known(ids, |workers|)
      ensures best == LeastLoaded(workers, ids)
    {
      best := ids[0];
      for i := 1 to |ids|
        invariant best == LeastLoaded(workers, ids[..i])
      {
        assert ids[..i + 1][..i] == ids[..i];
        if |workers[ids[i]].queue| < |workers[best].queue| {
          best := ids[i];
        }
      }
      assert ids[..|ids|] == ids;
    }

    /** Accepts a job: an idle worker first, a new one while there is room, else the shortest queue. */
    method InvokeJob(key: FnKey, job: Job, record: Option<int>) returns (ok: bool)
      requires WellFormed(View())
      modifies this
      ensures (View(), ok) == Invoke(old(View()), key, job, record)
    {
      var ids := MembersOf(key);
      var idle := IdleAmong(ids);
      var id: nat;
      if idle.Some? {
        id := idle.value;
      } else if |ids| < Limit(record) {
        if record.None? {
          return false;
        }
        id := |workers|;
        workers := workers + [Worker(key, [], None, false, false)];
        registered := registered + [id];
      } else {
        id := ShortestQueue(ids);
      }
      workers := workers[id := workers[id].(queue := workers[id].queue + [job])];
      accepted := accepted + multiset{job};
      return true;
    }

    method PumpDispatch(id: nat)
      requires CanDispatch(View(), id)
      modifies this`workers
      ensures View() == Dispatch(old(View()), id)
    {
      var w := workers[id];
      workers := workers[id := w.(current := Some(w.queue[0]), queue := w.queue[1..])];
    }

    method PumpResult(id: nat, ok: bool)
      requires CanFinish(View(), id)
      modifies this`workers, this`reports
      ensures View() == Finish(old(View()), id, ok)
    {
      var w := workers[id];
      reports := reports + [Report(w.current.value, if ok then Finished else Failed)];
      workers := workers[id := w.(current := None)];
    }

    method Evict(id: nat)
      modifies this`registered
      ensures registered == Unregister(old(registered), id)
    {
      var kept: seq<nat> := [];
      for i := 0 to |registered|
        invariant kept == Unregister(registered[..i], id)
      {
        assert registered[..i + 1][..i] == registered[..i];
        if registered[i] != id {
          kept := kept + [registered[i]];
        }
      }
      assert registered[..|registered|] == registered;
      registered := kept;
    }

    /** Empties a worker's queue, one `get_nowait` at a time. */
    method Drain(id: nat) returns (drained: seq<Job>)
      requires id < |workers|
      modifies this`workers
      ensures drained == old(workers[id].queue)
      ensures workers == old(workers)[id := old(workers[id]).(queue := [])]
    {
      drained := [];
      while workers[id].queue != []
        invariant |workers| == |old(workers)|
        invariant drained + workers[id].queue == old(workers[id].queue)
        invariant workers == old(workers)[id := old(workers[id]).(queue := workers[id].queue)]
        decreases |workers[id].queue|
      {
        var w := workers[id];
        drained := drained + [w.queue[0]];
        workers := workers[id := w.(queue := w.queue[1..])];
      }
    }

    method ReportCrashed(jobs: seq<Job>)
      modifies this`reports
      ensures reports == old(reports) + ReportAll(jobs, Crashed)
    {
      for i := 0 to |jobs|
        invariant reports == old(reports) + ReportAll(jobs[..i], Crashed)
      {
        reports := reports + [Report(jobs[i], Crashed)];
        assert ReportAll(jobs[..i + 1], Crashed) == ReportAll(jobs[..i], Crashed) + [Report(jobs[i], Crashed)];
      }
      assert jobs[..|jobs|] == jobs;
    }

    /** The pump's reaction to a dead or overdue worker; `first` is what its dispatched job gets. */
    method HandleLoss(id: nat, first: Outcome)
      requires InFlight(View(), id)
      modifies this
      ensures View() == Lose(old(View()), id, first)
    {
      var w := workers[id];
      if !w.cancelled {
        if w.stopped {
          workers := workers[id := w.(queue := [])];
        } else {
          Evict(id);
          var pending := Drain(id);
          reports := reports + [Report(w.current.value, first)];
          ReportCrashed(pending);
        }
      }
      workers := workers[id := workers[id].(current := None)];
    }

    method FindRunning(job: Job) returns (found: Option<nat>)
      requires WellFormed(View())
      ensures found == FindCurrent(workers, registered, job)
    {
      for i := 0 to |registered|
        invariant FindCurrent(workers, registered, job) == FindCurrent(workers, registered[i..], job)
      {
        if workers[registered[i]].current == Some(job) {
          return Some(registered[i]);
        }
        assert registered[i..][1..] == registered[i + 1..];
      }
      return None;
    }

    /** Drains one queue and rebuilds it without the job. */
    method DropQueued(id: nat, job: Job) returns (found: bool)
      requires id < |workers|
      modifies this`workers
      ensures found == (job in old(workers[id]).queue)
      ensures workers == old(workers)[id := old(workers[id]).(queue := Dropping(old(workers[id]).queue, job))]
    {
      var drained := Drain(id);
      var remaining: seq<Job> := [];
      found := false;
      for i := 0 to |drained|
        invariant remaining == Dropping(drained[..i], job) && found == (job in drained[..i])
      {
        assert drained[..i + 1][..i] == drained[..i];
        if drained[i] == job {
          found := true;
        } else {
          remaining := remaining + [drained[i]];
        }
      }
      assert drained[..|drained|] == drained;
      workers := workers[id := workers[id].(queue := remaining)];
    }

    method CancelRunning(id: nat, job: Job)
      requires id < |workers|
      modifies this
      ensures workers == old(workers)[id := old(workers)[id].(queue := [], cancelled := true)]
      ensures registered == Unregister(old(registered), id) && accepted == old(accepted)
      ensures reports == old(reports) + [Report(job, Cancelled)] + ReportAll(old(workers)[id].queue, Crashed)
    {
      Evict(id);
      var pending := Drain(id);
      workers := workers[id := workers[id].(cancelled := true)];
      reports := reports + [Report(job, Cancelled)];
      ReportCrashed(pending);
    }

    /** Looks through the queues in registration order and takes the job out of the first that has it. */
    method CancelQueued(job: Job) returns (found: Option<nat>)
      requires WellFormed(View())
      modifies this`workers
      ensures found == FindQueued(old(workers), registered, job)
      ensures workers ==
              if found.None? then old(workers)
              else old(workers)[found.value :=
                                  old(workers)[found.value].(queue := Dropping(old(workers)[found.value].queue, job))]
    {
      for i := 0 to |registered|
        invariant workers == old(workers)
        invariant FindQueued(workers, registered, job) == FindQueued(workers, registered[i..], job)
      {
        var id := registered[i];
        if job !in workers[id].queue {
          DroppingAbsent(workers[id].queue, job);
        }
        var dropped := DropQueued(id, job);
        if dropped {
          return Some(id);
        }
        assert workers == old(workers);
        assert registered[i..][1..] == registered[i + 1..];
      }
      return None;
    }

    method CancelJob(job: Job) returns (done: bool)
      requires WellFormed(View())
      modifies this
      ensures (View(), done) == Cancel(old(View()), job)
    {
      hide FindCurrent;
      hide FindQueued;
      hide Dropping;
      hide Unregister;
      hide ReportAll;
      var running := FindRunning(job);
      if running.Some? {
        CancelRunning(running.value, job);
        return true;
      }
      var queued := CancelQueued(job);
      if queued.Some? {
        reports := reports + [Report(job, Cancelled)];
      }
      return queued.Some?;
    }

    method SweepWorker(id: nat)
      requires CanSweep(View(), id)
      modifies this
      ensures View() == Sweep(old(View()), id)
    {
      Evict(id);
      workers := workers[id := workers[id].(stopped := true)];
    }
  }

  lemma {:induction false} DroppingAbsent(queue: seq<Job>, job: Job)
    requires job !in queue
    ensures Dropping(queue, job) == queue
  {
    if queue != [] {
      DroppingAbsent(queue[..|queue| - 1], job);
    }
  }

  // ---- where the jobs are

  function Times(jobs: seq<Job>, job: Job): nat {
    multiset(jobs)[job]
  }

  /** How often a job waits in the queues. */
  function QueuedTimes(workers: seq<Worker>, job: Job): nat {
    if workers == [] then 0
    else QueuedTimes(workers[..|workers| - 1], job) + Times(workers[|workers| - 1].queue, job)
  }

  function Dispatched(w: Worker, job: Job): nat {
    if w.current == Some(job) && !w.cancelled then 1 else 0
  }

  /** How often a job is being run. */
  function FlyingTimes(workers: seq<Worker>, job: Job): nat {
    if workers == [] then 0
    else FlyingTimes(workers[..|workers| - 1], job) + Dispatched(workers[|workers| - 1], job)
  }

  /** How often a job has been reported. */
  function ReportedTimes(reports: seq<Report>, job: Job): nat {
    if reports == [] then 0
    else ReportedTimes(reports[..|reports| - 1], job) + (if reports[|reports| - 1].job == job then 1 else 0)
  }

  /** Everywhere a job is, together. */
  function Presence(p: Pool, job: Job): nat {
    QueuedTimes(p.workers, job) + FlyingTimes(p.workers, job) + ReportedTimes(p.reports, job)
  }

  /** Every accepted job is queued, in flight or reported: nothing is lost and nothing doubled. */
  ghost predicate Conserved(p: Pool) {
    forall job :: p.accepted[job] == Presence(p, job)
  }

  lemma {:induction false} UpdateTimes(workers: seq<Worker>, i: nat, w: Worker, job: Job)
    requires i < |workers|
    ensures QueuedTimes(workers[i := w], job) + Times(workers[i].queue, job) ==
            QueuedTimes(workers, job) + Times(w.queue, job)
    ensures FlyingTimes(workers[i := w], job) + Dispatched(workers[i], job) ==
            FlyingTimes(workers, job) + Dispatched(w, job)
    decreases |workers|
  {
    hide Times;
    hide Dispatched;
    var n := |workers| - 1;
    if i == n {
      assert workers[i := w][..n] == workers[..n];
    } else {
      UpdateTimes(workers[..n], i, w, job);
      assert workers[i := w][..n] == workers[..n][i := w];
    }
  }

  lemma ReportOne(reports: seq<Report>, r: Report, job: Job)
    ensures ReportedTimes(reports + [r], job) == ReportedTimes(reports, job) + (if r.job == job then 1 else 0)
  {
    assert (reports + [r])[..|reports|] == reports;
  }

  lemma TimesSnoc(jobs: seq<Job>, last: Job, job: Job)
    ensures Times(jobs + [last], job) == Times(jobs, job) + (if last == job then 1 else 0)
  {
  }

  lemma {:induction false} ReportMany(reports: seq<Report>, jobs: seq<Job>, outcome: Outcome, job: Job)
    ensures ReportedTimes(reports + ReportAll(jobs, outcome), job) == ReportedTimes(reports, job) + Times(jobs, job)
    decreases |jobs|
  {
    hide Times;
    hide ReportedTimes;
    if jobs == [] {
      assert reports + ReportAll(jobs, outcome) == reports;
      NoTimes(job);
    } else {
      var n := |jobs| - 1;
      ReportMany(reports, jobs[..n], outcome, job);
      assert jobs == jobs[..n] + [jobs[n]];
      assert reports + ReportAll(jobs, outcome) ==
             (reports + ReportAll(jobs[..n], outcome)) + [Report(jobs[n], outcome)];
      ReportOne(reports + ReportAll(jobs[..n], outcome), Report(jobs[n], outcome), job);
      TimesSnoc(jobs[..n], jobs[n], job);
    }
  }

  lemma NoTimes(job: Job)
    ensures Times([], job) == 0
  {
  }

  // ---- each operation moves jobs without losing any

  lemma EnqueueMoves(p: Pool, id: nat, job: Job, x: Job)
    requires id < |p.workers|
    ensures Presence(Enqueue(p, id, job), x) == Presence(p, x) + (if x == job then 1 else 0)
  {
    hide QueuedTimes;
    hide FlyingTimes;
    hide Times;
    var w := p.workers[id];
    UpdateTimes(p.workers, id, w.(queue := w.queue + [job]), x);
    TimesSnoc(w.queue, job, x);
  }

  lemma DispatchMoves(p: Pool, id: nat, x: Job)
    requires CanDispatch(p, id) && !p.workers[id].cancelled
    ensures Presence(Dispatch(p, id), x) == Presence(p, x)
  {
    hide QueuedTimes;
    hide FlyingTimes;
    var w := p.workers[id];
    UpdateTimes(p.workers, id, w.(current := Some(w.queue[0]), queue := w.queue[1..]), x);
    assert w.queue == [w.queue[0]] + w.queue[1..];
    assert Times(w.queue, x) == (if w.queue[0] == x then 1 else 0) + Times(w.queue[1..], x);
  }

  lemma FinishMoves(p: Pool, id: nat, ok: bool, x: Job)
    requires CanFinish(p, id)
    ensures Presence(Finish(p, id, ok), x) == Presence(p, x)
  {
    hide QueuedTimes;
    hide FlyingTimes;
    hide Times;
    hide ReportedTimes;
    var w := p.workers[id];
    UpdateTimes(p.workers, id, w.(current := None), x);
    ReportOne(p.reports, Report(w.current.value, if ok then Finished else Failed), x);
  }

  lemma RecycleMoves(p: Pool, id: nat, first: Outcome, x: Job)
    requires InFlight(p, id) && !p.workers[id].cancelled
    ensures Presence(Recycle(p, id, first), x) == Presence(p, x)
  {
    hide QueuedTimes;
    hide FlyingTimes;
    hide Times;
    hide ReportedTimes;
    var w := p.workers[id];
    UpdateTimes(p.workers, id, w.(current := None, queue := []), x);
    NoTimes(x);
    ReportOne(p.reports, Report(w.current.value, first), x);
    ReportMany(p.reports + [Report(w.current.value, first)], w.queue, Crashed, x);
  }

  lemma {:induction false} DroppingTimes(queue: seq<Job>, job: Job, x: Job)
    ensures Times(Dropping(queue, job), x) == if x == job then 0 else Times(queue, x)
  {
    if queue != [] {
      var n := |queue| - 1;
      DroppingTimes(queue[..n], job, x);
      assert queue == queue[..n] + [queue[n]];
      TimesSnoc(queue[..n], queue[n], x);
      TimesSnoc(Dropping(queue[..n], job), queue[n], x);
      hide Times;
    }
  }

  lemma CancelRunningMoves(p: Pool, job: Job, x: Job)
    requires WellFormed(p) && FindCurrent(p.workers, p.registered, job).Some?
    requires forall id :: id in p.registered ==> !p.workers[id].cancelled
    ensures Presence(Cancel(p, job).0, x) == Presence(p, x)
  {
    hide QueuedTimes;
    hide FlyingTimes;
    hide Times;
    hide ReportedTimes;
    var id := FindCurrent(p.workers, p.registered, job).value;
    var w := p.workers[id];
    UpdateTimes(p.workers, id, w.(queue := [], cancelled := true), x);
    NoTimes(x);
    ReportOne(p.reports, Report(job, Cancelled), x);
    ReportMany(p.reports + [Report(job, Cancelled)], w.queue, Crashed, x);
  }

  /** Cancelling a queued job removes every copy of it from that queue and reports it once. */
  lemma CancelQueuedMoves(p: Pool, job: Job, x: Job)
    requires WellFormed(p) && FindCurrent(p.workers, p.registered, job).None?
    requires FindQueued(p.workers, p.registered, job).Some?
    ensures var queue := p.workers[FindQueued(p.workers, p.registered, job).value].queue;
            Presence(Cancel(p, job).0, x) + (if x == job then Times(queue, job) else 0) ==
            Presence(p, x) + (if x == job then 1 else 0)
  {
    hide QueuedTimes;
    hide FlyingTimes;
    hide Times;
    hide ReportedTimes;
    var id := FindQueued(p.workers, p.registered, job).value;
    var w := p.workers[id];
    UpdateTimes(p.workers, id, w.(queue := Dropping(w.queue, job)), x);
    DroppingTimes(w.queue, job, x);
    ReportOne(p.reports, Report(job, Cancelled), x);
  }

  /** So a queued cancellation conserves jobs exactly when the job waits there once. */
  lemma CancelConservesIff(p: Pool, job: Job)
    requires WellFormed(p) && Conserved(p)
    requires FindCurrent(p.workers, p.registered, job).None? && FindQueued(p.workers, p.registered, job).Some?
    ensures Conserved(Cancel(p, job).0) <==>
            Times(p.workers[FindQueued(p.workers, p.registered, job).value].queue, job) == 1
  {
    hide Presence;
    hide Times;
    var queue := p.workers[FindQueued(p.workers, p.registered, job).value].queue;
    var after := Cancel(p, job).0;
    assert after.accepted == p.accepted;
    forall x
      ensures Presence(after, x) + (if x == job then Times(queue, job) else 0) ==
              Presence(p, x) + (if x == job then 1 else 0)
    {
      CancelQueuedMoves(p, job, x);
    }
    assert p.accepted[job] == Presence(p, job);
    hide Cancel;
  }

  // ---- pool sizes

  lemma {:induction false} MembersSame(workers: seq<Worker>, other: seq<Worker>, registered: seq<nat>, key: FnKey)
    requires Known(registered, |workers|) && |workers| <= |other|
    requires forall i :: 0 <= i < |workers| ==> other[i].key == workers[i].key
    ensures Known(registered, |other|) && Members(other, registered, key) == Members(workers, registered, key)
    decreases |registered|
  {
    if registered != [] {
      MembersSame(workers, other, registered[..|registered| - 1], key);
    }
  }

  lemma {:induction false} MembersUnregister(workers: seq<Worker>, registered: seq<nat>, id: nat, key: FnKey)
    requires Known(registered, |workers|)
    ensures |Members(workers, Unregister(registered, id), key)| <= |Members(workers, registered, key)|
    decreases |registered|
  {
    if registered != [] {
      var n := |registered| - 1;
      MembersUnregister(workers, registered[..n], id, key);
      var before := Unregister(registered[..n], id);
      assert (before + [registered[n]])[..|before|] == before;
    }
  }

  ghost predicate WithinCaps(p: Pool, limit: FnKey -> Option<int>) {
    WellFormed(p) && forall key :: |PoolOf(p, key)| <= Limit(limit(key))
  }

  lemma KeepWithinCaps(p: Pool, limit: FnKey -> Option<int>, workers: seq<Worker>)
    requires WithinCaps(p, limit) && |workers| == |p.workers|
    requires forall i :: 0 <= i < |workers| ==> workers[i].key == p.workers[i].key
    ensures WithinCaps(p.(workers := workers), limit)
  {
    forall key
      ensures |Members(workers, p.registered, key)| <= Limit(limit(key))
    {
      MembersSame(p.workers, workers, p.registered, key);
      assert |PoolOf(p, key)| <= Limit(limit(key));
    }
  }

  lemma UnregisterWithinCaps(p: Pool, limit: FnKey -> Option<int>, id: nat)
    requires WithinCaps(p, limit)
    ensures WithinCaps(p.(registered := Unregister(p.registered, id)), limit)
  {
    forall key
      ensures |Members(p.workers, Unregister(p.registered, id), key)| <= Limit(limit(key))
    {
      MembersUnregister(p.workers, p.registered, id, key);
      assert |PoolOf(p, key)| <= Limit(limit(key));
    }
  }

  lemma SpawnWithinCaps(p: Pool, limit: FnKey -> Option<int>, key: FnKey)
    requires WithinCaps(p, limit) && |PoolOf(p, key)| < Limit(limit(key))
    ensures WithinCaps(Spawn(p, key), limit)
  {
    var after := Spawn(p, key);
    assert WellFormed(after);
    forall k
      ensures |PoolOf(after, k)| <= Limit(limit(k))
    {
      var n := |p.registered|;
      assert after.registered[..n] == p.registered;
      MembersSame(p.workers, after.workers, p.registered, k);
      assert |PoolOf(p, k)| <= Limit(limit(k));
    }
  }

  // ---- the invariant

  ghost predicate Healthy(p: Pool) {
    && WellFormed(p)
    && (forall id :: id in p.registered ==> !p.workers[id].cancelled && !p.workers[id].stopped)
    && (forall i :: 0 <= i < |p.workers| ==> Quiet(p.workers[i]))
  }

  /** Workers that were killed keep nothing anybody still waits for. */
  predicate Quiet(w: Worker) {
    (w.cancelled ==> w.queue == []) && (w.stopped ==> IsIdle(w))
  }

  ghost predicate AcceptedOnce(p: Pool) {
    forall job :: p.accepted[job] <= 1
  }

  ghost predicate Inv(p: Pool, limit: FnKey -> Option<int>) {
    Healthy(p) && Conserved(p) && AcceptedOnce(p) && WithinCaps(p, limit)
  }

  datatype Op =
    | InvokeOp(key: FnKey, job: Job)
    | DispatchOp(id: nat)
    | FinishOp(id: nat, ok: bool)
    | CrashOp(id: nat)
    | TimeoutOp(id: nat)
    | CancelOp(job: Job)
    | SweepOp(id: nat)

  predicate Enabled(p: Pool, op: Op) {
    match op
    case DispatchOp(id) => CanDispatch(p, id)
    case FinishOp(id, _) => CanFinish(p, id)
    case CrashOp(id) => InFlight(p, id)
    case TimeoutOp(id) => InFlight(p, id)
    case SweepOp(id) => CanSweep(p, id)
    case _ => true
  }

  function Step(p: Pool, op: Op, limit: FnKey -> Option<int>): Pool
    requires WellFormed(p) && Enabled(p, op)
  {
    match op
    case InvokeOp(key, job) => Invoke(p, key, job, limit(key)).0
    case DispatchOp(id) => Dispatch(p, id)
    case FinishOp(id, ok) => Finish(p, id, ok)
    case CrashOp(id) => Lose(p, id, Crashed)
    case TimeoutOp(id) => Lose(p, id, TimedOut)
    case CancelOp(job) => Cancel(p, job).0
    case SweepOp(id) => Sweep(p, id)
  }

  /** Job ids are not reused, and only workers with nothing running or waiting are swept. */
  predicate Careful(p: Pool, op: Op) {
    match op
    case InvokeOp(_, job) => job !in p.accepted
    case SweepOp(id) => id < |p.workers| && IsIdle(p.workers[id])
    case _ => true
  }

  /** Replacing one worker, with or without unregistering it, keeps the structure sound. */
  lemma ReplaceHealthy(p: Pool, limit: FnKey -> Option<int>, id: nat, w: Worker, gone: bool)
    requires Healthy(p) && WithinCaps(p, limit) && id < |p.workers|
    requires w.key == p.workers[id].key && Quiet(w)
    requires gone || id !in p.registered || (!w.cancelled && !w.stopped)
    ensures var q := p.(workers := p.workers[id := w],
                        registered := if gone then Unregister(p.registered, id) else p.registered);
            Healthy(q) && WithinCaps(q, limit)
  {
    var q := p.(workers := p.workers[id := w]);
    KeepWithinCaps(p, limit, q.workers);
    if gone {
      UnregisterWithinCaps(q, limit, id);
    }
    hide WithinCaps;
  }

  lemma SameStructure(p: Pool, q: Pool, limit: FnKey -> Option<int>)
    requires p.workers == q.workers && p.registered == q.registered
    requires Healthy(p) && WithinCaps(p, limit)
    ensures Healthy(q) && WithinCaps(q, limit)
  {
    assert forall key :: WellFormed(p) && WellFormed(q) ==> PoolOf(q, key) == PoolOf(p, key);
  }

  lemma SpawnMoves(p: Pool, key: FnKey, x: Job)
    ensures Presence(Spawn(p, key), x) == Presence(p, x)
  {
    assert Spawn(p, key).workers[..|p.workers|] == p.workers;
  }

  lemma EnqueueKeepsInv(p: Pool, limit: FnKey -> Option<int>, id: nat, job: Job)
    requires Inv(p, limit) && id < |p.workers| && id in p.registered && job !in p.accepted
    ensures Inv(Enqueue(p, id, job), limit)
  {
    var w := p.workers[id];
    ReplaceHealthy(p, limit, id, w.(queue := w.queue + [job]), false);
    SameStructure(p.(workers := p.workers[id := w.(queue := w.queue + [job])]), Enqueue(p, id, job), limit);
    forall x
      ensures Presence(Enqueue(p, id, job), x) == Presence(p, x) + (if x == job then 1 else 0)
    {
      EnqueueMoves(p, id, job, x);
    }
    hide Healthy;
    hide WithinCaps;
    hide Presence;
  }

  lemma SpawnKeepsInv(p: Pool, limit: FnKey -> Option<int>, key: FnKey)
    requires Inv(p, limit) && |PoolOf(p, key)| < Limit(limit(key))
    ensures Inv(Spawn(p, key), limit)
  {
    SpawnWithinCaps(p, limit, key);
    assert Healthy(Spawn(p, key));
    forall x
      ensures Presence(Spawn(p, key), x) == Presence(p, x)
    {
      SpawnMoves(p, key, x);
    }
    hide Healthy;
    hide WithinCaps;
    hide Presence;
  }

  lemma InvokeKeepsInv(p: Pool, limit: FnKey -> Option<int>, key: FnKey, job: Job)
    requires Inv(p, limit) && job !in p.accepted
    ensures Inv(Invoke(p, key, job, limit(key)).0, limit)
  {
    var pool := PoolOf(p, key);
    var idle := FirstIdle(p.workers, pool);
    if idle.Some? {
      assert idle.value in pool;
      EnqueueKeepsInv(p, limit, idle.value, job);
    } else if |pool| < Limit(limit(key)) {
      if limit(key).Some? {
        SpawnKeepsInv(p, limit, key);
        assert Spawn(p, key).registered[|p.registered|] == |p.workers|;
        EnqueueKeepsInv(Spawn(p, key), limit, |p.workers|, job);
      }
    } else {
      assert LeastLoaded(p.workers, pool) in pool;
      EnqueueKeepsInv(p, limit, LeastLoaded(p.workers, pool), job);
    }
    hide Inv;
  }

  /** Any step that keeps the structure sound and moves jobs about without loss keeps the invariant. */
  lemma MoveKeepsInv(p: Pool, q: Pool, limit: FnKey -> Option<int>)
    requires Inv(p, limit) && Healthy(q) && WithinCaps(q, limit) && q.accepted == p.accepted
    requires forall x :: Presence(q, x) == Presence(p, x)
    ensures Inv(q, limit)
  {
    hide Healthy;
    hide WithinCaps;
    hide Presence;
  }

  lemma DispatchKeepsInv(p: Pool, limit: FnKey -> Option<int>, id: nat)
    requires Inv(p, limit) && CanDispatch(p, id)
    ensures Inv(Dispatch(p, id), limit)
  {
    var w, q := p.workers[id], Dispatch(p, id);
    assert Quiet(w);
    ReplaceHealthy(p, limit, id, w.(current := Some(w.queue[0]), queue := w.queue[1..]), false);
    hide Healthy;
    hide WithinCaps;
    forall x
      ensures Presence(q, x) == Presence(p, x)
    {
      DispatchMoves(p, id, x);
    }
    hide Presence;
    MoveKeepsInv(p, q, limit);
  }

  lemma FinishKeepsInv(p: Pool, limit: FnKey -> Option<int>, id: nat, ok: bool)
    requires Inv(p, limit) && CanFinish(p, id)
    ensures Inv(Finish(p, id, ok), limit)
  {
    var w, q := p.workers[id], Finish(p, id, ok);
    assert Quiet(w);
    ReplaceHealthy(p, limit, id, w.(current := None), false);
    SameStructure(p.(workers := p.workers[id := w.(current := None)]), q, limit);
    hide Healthy;
    hide WithinCaps;
    forall x
      ensures Presence(q, x) == Presence(p, x)
    {
      FinishMoves(p, id, ok, x);
    }
    hide Presence;
    MoveKeepsInv(p, q, limit);
  }

  lemma LoseKeepsInv(p: Pool, limit: FnKey -> Option<int>, id: nat, first: Outcome)
    requires Inv(p, limit) && InFlight(p, id)
    ensures Inv(Lose(p, id, first), limit)
  {
    var w, q := p.workers[id], Lose(p, id, first);
    assert Quiet(w);
    if w.cancelled {
      ReplaceHealthy(p, limit, id, w.(current := None), false);
    } else {
      ReplaceHealthy(p, limit, id, w.(current := None, queue := []), true);
      SameStructure(p.(workers := q.workers, registered := q.registered), q, limit);
    }
    hide Healthy;
    hide WithinCaps;
    forall x
      ensures Presence(q, x) == Presence(p, x)
    {
      if w.cancelled {
        hide QueuedTimes;
        hide FlyingTimes;
        UpdateTimes(p.workers, id, w.(current := None), x);
      } else {
        RecycleMoves(p, id, first, x);
      }
    }
    hide Presence;
    MoveKeepsInv(p, q, limit);
  }

  lemma {:induction false} TimesAtMost(workers: seq<Worker>, i: nat, job: Job)
    requires i < |workers|
    ensures Times(workers[i].queue, job) <= QueuedTimes(workers, job)
    decreases |workers|
  {
    hide Times;
    var n := |workers| - 1;
    if i < n {
      TimesAtMost(workers[..n], i, job);
    }
  }

  lemma QueuedOnce(p: Pool, id: nat, job: Job)
    requires Conserved(p) && AcceptedOnce(p) && id < |p.workers| && job in p.workers[id].queue
    ensures Times(p.workers[id].queue, job) == 1
  {
    TimesAtMost(p.workers, id, job);
    assert p.accepted[job] == Presence(p, job);
    hide QueuedTimes;
    hide FlyingTimes;
    hide ReportedTimes;
  }

  lemma CancelHealthy(p: Pool, limit: FnKey -> Option<int>, job: Job)
    requires Healthy(p) && WithinCaps(p, limit)
    ensures Healthy(Cancel(p, job).0) && WithinCaps(Cancel(p, job).0, limit)
  {
    hide WithinCaps;
    var q := Cancel(p, job).0;
    var running, queued := FindCurrent(p.workers, p.registered, job), FindQueued(p.workers, p.registered, job);
    if running.Some? {
      var id := running.value;
      ReplaceHealthy(p, limit, id, p.workers[id].(queue := [], cancelled := true), true);
      SameStructure(p.(workers := q.workers, registered := q.registered), q, limit);
    } else if queued.Some? {
      var id := queued.value;
      ReplaceHealthy(p, limit, id, p.workers[id].(queue := Dropping(p.workers[id].queue, job)), false);
      SameStructure(p.(workers := q.workers), q, limit);
    }
  }

  lemma CancelKeepsInv(p: Pool, limit: FnKey -> Option<int>, job: Job)
    requires Inv(p, limit)
    ensures Inv(Cancel(p, job).0, limit)
  {
    var q := Cancel(p, job).0;
    CancelHealthy(p, limit, job);
    hide WithinCaps;
    var running, queued := FindCurrent(p.workers, p.registered, job), FindQueued(p.workers, p.registered, job);
    if running.None? && queued.Some? {
      QueuedOnce(p, queued.value, job);
    }
    hide Conserved;
    hide Times;
    forall x
      ensures Presence(q, x) == Presence(p, x)
    {
      hide Presence;
      if running.Some? {
        CancelRunningMoves(p, job, x);
      } else if queued.Some? {
        CancelQueuedMoves(p, job, x);
      }
    }
    hide Healthy;
    hide Presence;
    MoveKeepsInv(p, q, limit);
  }

  lemma {:induction false} DroppingSplits(a: seq<Job>, b: seq<Job>, job: Job)
    ensures Dropping(a + b, job) == Dropping(a, job) + Dropping(b, job)
    decreases |b|
  {
    if b == [] {
      assert a + b == a;
    } else {
      var n := |b| - 1;
      DroppingSplits(a, b[..n], job);
      assert (a + b)[..|a| + n] == a + b[..n];
    }
  }

  /** Cancelling a queued job takes out that one job and keeps the order of the others. */
  lemma CancelKeepsOrder(p: Pool, limit: FnKey -> Option<int>, job: Job) returns (front: seq<Job>, back: seq<Job>)
    requires Inv(p, limit) && FindCurrent(p.workers, p.registered, job).None?
    requires FindQueued(p.workers, p.registered, job).Some?
    ensures var id := FindQueued(p.workers, p.registered, job).value;
            && p.workers[id].queue == front + [job] + back
            && Cancel(p, job).0.workers == p.workers[id := p.workers[id].(queue := front + back)]
  {
    var id := FindQueued(p.workers, p.registered, job).value;
    var queue := p.workers[id].queue;
    QueuedOnce(p, id, job);
    hide Inv;
    hide FindQueued;
    hide FindCurrent;
    var i :| 0 <= i < |queue| && queue[i] == job;
    front, back := queue[..i], queue[i + 1..];
    assert queue == front + [job] + back;
    DroppingOnce(front, back, job);
    hide Dropping;
  }

  lemma DroppingOnce(front: seq<Job>, back: seq<Job>, job: Job)
    requires Times(front + [job] + back, job) == 1
    ensures Dropping(front + [job] + back, job) == front + back
  {
    assert Times(front + [job] + back, job) == Times(front, job) + 1 + Times(back, job);
    assert job !in front && job !in back;
    DroppingAbsent(front, job);
    DroppingAbsent(back, job);
    DroppingSplits(front + [job], back, job);
    DroppingSplits(front, [job], job);
    assert Dropping([job], job) == [];
    hide Dropping;
  }

  lemma SweepMoves(p: Pool, id: nat, x: Job)
    requires CanSweep(p, id)
    ensures Presence(Sweep(p, id), x) == Presence(p, x)
  {
    hide QueuedTimes;
    hide FlyingTimes;
    UpdateTimes(p.workers, id, p.workers[id].(stopped := true), x);
  }

  lemma SweepKeepsInv(p: Pool, limit: FnKey -> Option<int>, id: nat)
    requires Inv(p, limit) && CanSweep(p, id) && IsIdle(p.workers[id])
    ensures Inv(Sweep(p, id), limit)
  {
    var q := Sweep(p, id);
    assert Quiet(p.workers[id]);
    ReplaceHealthy(p, limit, id, p.workers[id].(stopped := true), true);
    hide Healthy;
    hide WithinCaps;
    forall x
      ensures Presence(q, x) == Presence(p, x)
    {
      SweepMoves(p, id, x);
    }
    hide Presence;
    MoveKeepsInv(p, q, limit);
  }

  lemma StepKeepsInv(p: Pool, op: Op, limit: FnKey -> Option<int>)
    requires Inv(p, limit) && Enabled(p, op) && Careful(p, op)
    ensures Inv(Step(p, op, limit), limit)
  {
    match op
    case InvokeOp(key, job) => InvokeKeepsInv(p, limit, key, job); hide Inv;
    case DispatchOp(id) => DispatchKeepsInv(p, limit, id); hide Inv;
    case FinishOp(id, ok) => FinishKeepsInv(p, limit, id, ok); hide Inv;
    case CrashOp(id) => LoseKeepsInv(p, limit, id, Crashed); hide Inv;
    case TimeoutOp(id) => LoseKeepsInv(p, limit, id, TimedOut); hide Inv;
    case CancelOp(job) => CancelKeepsInv(p, limit, job); hide Inv;
    case SweepOp(id) => SweepKeepsInv(p, limit, id); hide Inv;
  }

  // ---- runs

  ghost predicate Legal(p: Pool, ops: seq<Op>, limit: FnKey -> Option<int>)
    decreases |ops|
  {
    ops == [] ||
    (WellFormed(p) && Enabled(p, ops[0]) && Careful(p, ops[0]) && Legal(Step(p, ops[0], limit), ops[1..], limit))
  }

  ghost function Run(p: Pool, ops: seq<Op>, limit: FnKey -> Option<int>): Pool
    requires Legal(p, ops, limit)
    decreases |ops|
  {
    if ops == [] then p else Run(Step(p, ops[0], limit), ops[1..], limit)
  }

  lemma {:induction false} RunKeepsInv(p: Pool, ops: seq<Op>, limit: FnKey -> Option<int>)
    requires Inv(p, limit) && Legal(p, ops, limit)
    ensures Inv(Run(p, ops, limit), limit)
    decreases |ops|
  {
    hide Inv;
    hide Enabled;
    hide Careful;
    hide Step;
    if ops != [] {
      StepKeepsInv(p, ops[0], limit);
      RunKeepsInv(Step(p, ops[0], limit), ops[1..], limit);
    }
  }

  const NOTHING := Pool([], [], multiset{}, [])

  /**
   * Job conservation: after any run, each accepted job is in exactly one place - queued, in
   * flight or reported - and no job that was not accepted is anywhere; pools stay within their caps.
   */
  lemma JobsAreConserved(ops: seq<Op>, limit: FnKey -> Option<int>, job: Job)
    requires Legal(NOTHING, ops, limit)
    ensures var p := Run(NOTHING, ops, limit);
            && QueuedTimes(p.workers, job) + FlyingTimes(p.workers, job) + ReportedTimes(p.reports, job) ==
               (if job in p.accepted then 1 else 0)
            && WellFormed(p)
            && (forall key :: |PoolOf(p, key)| <= Limit(limit(key)))
  {
    RunKeepsInv(NOTHING, ops, limit);
    var p := Run(NOTHING, ops, limit);
    assert p.accepted[job] == Presence(p, job) && p.accepted[job] <= 1;
  }

  // ---- why only idle workers may be swept

  /**
   * What becomes of a swept worker. Its pump, if idle, takes the stop marker and ends. If a job
   * is dispatched, or the next one is, the pump finds the worker dead, and the drain fails on
   * the marker before anything is reported.
   */
  function Bury(p: Pool, id: nat): Pool
    requires CanSweep(p, id)
  {
    var swept := Sweep(p, id);
    if IsIdle(p.workers[id]) then swept
    else if p.workers[id].current.Some? then Lose(swept, id, Crashed)
    else Lose(Dispatch(swept, id), id, Crashed)
  }

  /** Sweeping a worker that is not idle loses its dispatched job and every queued one, unreported. */
  lemma SweptJobsAreLost(p: Pool, id: nat, x: Job)
    requires CanSweep(p, id) && !p.workers[id].cancelled
    ensures Presence(Bury(p, id), x) + Times(p.workers[id].queue, x) + Dispatched(p.workers[id], x) == Presence(p, x)
  {
    hide QueuedTimes;
    hide FlyingTimes;
    hide ReportedTimes;
    var swept, w := Sweep(p, id), p.workers[id];
    SweepMoves(p, id, x);
    NoTimes(x);
    if w.current.Some? {
      BuriedMoves(swept, id, x);
    } else if w.queue != [] {
      DispatchMoves(swept, id, x);
      BuriedMoves(Dispatch(swept, id), id, x);
      assert w.queue == [w.queue[0]] + w.queue[1..];
      assert Times(w.queue, x) == (if w.queue[0] == x then 1 else 0) + Times(w.queue[1..], x);
    }
  }

  lemma BuriedMoves(p: Pool, id: nat, x: Job)
    requires InFlight(p, id) && p.workers[id].stopped && !p.workers[id].cancelled
    ensures Presence(Lose(p, id, Crashed), x) + Times(p.workers[id].queue, x) + Dispatched(p.workers[id], x) ==
            Presence(p, x)
  {
    hide QueuedTimes;
    hide FlyingTimes;
    hide ReportedTimes;
    hide Times;
    UpdateTimes(p.workers, id, p.workers[id].(current := None, queue := []), x);
    NoTimes(x);
  }

  /** A sweep conserves jobs exactly when the worker has nothing running and nothing queued. */
  lemma SweepIsExact(p: Pool, limit: FnKey -> Option<int>, id: nat)
    requires Inv(p, limit) && CanSweep(p, id)
    ensures Conserved(Bury(p, id)) <==> IsIdle(p.workers[id])
    ensures Inv(Sweep(p, id), limit) <==> IsIdle(p.workers[id])
  {
    var w := p.workers[id];
    if IsIdle(w) {
      SweepKeepsInv(p, limit, id);
    } else {
      var job := if w.current.Some? then w.current.value else w.queue[0];
      SweptJobsAreLost(p, id, job);
      assert Times(w.queue, job) + Dispatched(w, job) > 0;
      assert p.accepted[job] == Presence(p, job);
      assert Bury(p, id).accepted == p.accepted;
      hide Presence;
      assert Bury(p, id).accepted[job] != Presence(Bury(p, id), job);
      assert !Quiet(Sweep(p, id).workers[id]);
    }
  }

  /** It happens: a worker's second job is swept away while queued, or while running. */
  lemma SweptJobHappens(key: FnKey, first: Job, job: Job)
    requires first != job
    ensures var started := Invoke(NOTHING, key, first, Some(1)).0;
            CanDispatch(started, 0) && CanFinish(Dispatch(started, 0), 0) &&
            var idle := Finish(Dispatch(started, 0), 0, true);
            WellFormed(idle) &&
            var queued := Invoke(idle, key, job, Some(1)).0;
            CanSweep(queued, 0) && queued.accepted[job] == 1 && Presence(Bury(queued, 0), job) == 0 &&
            CanDispatch(queued, 0) &&
            var running := Dispatch(queued, 0);
            CanSweep(running, 0) && Presence(Bury(running, 0), job) == 0
  {
    FirstInvoke(key, first);
    FirstFinishes(key, first);
    ReuseIdle(Worker(key, [], None, false, false), first, job);
    hide Invoke;
    hide Bury;
    hide Presence;
    SecondIsSwept(Worker(key, [job], None, false, false), first, job);
  }

  lemma SecondIsSwept(w: Worker, first: Job, job: Job)
    requires w.queue == [job] && w.current.None? && !w.cancelled && first != job
    ensures var queued := Pool([w], [0], multiset{first, job}, [Report(first, Finished)]);
            CanSweep(queued, 0) && Presence(Bury(queued, 0), job) == 0 && CanDispatch(queued, 0) &&
            var running := Dispatch(queued, 0);
            CanSweep(running, 0) && Presence(Bury(running, 0), job) == 0
  {
    hide Bury;
    hide Presence;
    var queued := Pool([w], [0], multiset{first, job}, [Report(first, Finished)]);
    assert queued.registered[0] == 0;
    OneWorkerPresence(w, multiset{first, job}, first, job);
    assert Times([job], job) == 1;
    NoTimes(job);
    hide Times;
    SweptJobsAreLost(queued, 0, job);
    var running := Dispatch(queued, 0);
    assert [job][1..] == [];
    assert running.workers[0] == w.(current := Some(job), queue := []) && running.registered[0] == 0;
    DispatchMoves(queued, 0, job);
    SweptJobsAreLost(running, 0, job);
  }

  lemma FirstFinishes(key: FnKey, first: Job)
    ensures var w := Worker(key, [first], None, false, false);
            var started := Pool([w], [0], multiset{first}, []);
            Finish(Dispatch(started, 0), 0, true) ==
            Pool([w.(queue := [])], [0], multiset{first}, [Report(first, Finished)])
  {
    var w := Worker(key, [first], None, false, false);
    assert [first][1..] == [];
    assert [w][0 := w.(current := Some(first), queue := [])] == [w.(current := Some(first), queue := [])];
    assert [w.(current := Some(first), queue := [])][0 := w.(queue := [])] == [w.(queue := [])];
  }

  lemma ReuseIdle(w: Worker, first: Job, job: Job)
    requires IsIdle(w)
    ensures var idle := Pool([w], [0], multiset{first}, [Report(first, Finished)]);
            Invoke(idle, w.key, job, Some(1)).0 ==
            Pool([w.(queue := [job])], [0], multiset{first, job}, [Report(first, Finished)])
  {
    var ids: seq<nat> := [0];
    assert ids[..0] == [] && Members([w], ids[..0], w.key) == [];
    assert Members([w], ids, w.key) == [0];
    assert FirstIdle([w], ids) == Some(0);
    hide Members;
    hide FirstIdle;
    hide LeastLoaded;
    assert w.queue + [job] == [job];
    assert [w][0 := w.(queue := [job])] == [w.(queue := [job])];
    assert multiset{first} + multiset{job} == multiset{first, job};
  }

  lemma OneWorkerPresence(w: Worker, accepted: multiset<Job>, first: Job, job: Job)
    requires w.queue == [job] && w.current.None? && first != job
    ensures Presence(Pool([w], [0], accepted, [Report(first, Finished)]), job) == 1
  {
    assert [w][..0] == [] && [Report(first, Finished)][..0] == [];
    assert QueuedTimes([], job) == 0 && FlyingTimes([], job) == 0 && ReportedTimes([], job) == 0;
    assert multiset([job]) == multiset{job};
  }

  // ---- why job ids may not be reused

  /** A job id submitted twice and cancelled while queued: two accepted, one reported, none left. */
  lemma ReusedIdIsLost(key: FnKey, job: Job)
    ensures var once := Invoke(NOTHING, key, job, Some(1)).0;
            WellFormed(once) &&
            var twice := Invoke(once, key, job, Some(1)).0;
            WellFormed(twice) && Conserved(twice) && twice.accepted[job] == 2 &&
            var after := Cancel(twice, job).0;
            Presence(after, job) == 1 && after.reports == [Report(job, Cancelled)]
  {
    FirstInvoke(key, job);
    SecondInvoke(key, job);
    hide Invoke;
    hide Presence;
    var w := Worker(key, [job, job], None, false, false);
    ReusedIdConserved(w, job);
    ReusedIdCancelled(w, job);
    hide Cancel;
    hide Conserved;
  }

  lemma ReusedIdCancelled(w: Worker, job: Job)
    requires w.queue == [job, job] && w.current.None?
    ensures var p := Pool([w], [0], multiset{job, job}, []);
            var after := Cancel(p, job).0;
            Presence(after, job) == 1 && after.reports == [Report(job, Cancelled)]
  {
    var p := Pool([w], [0], multiset{job, job}, []);
    ReusedIdConserved(w, job);
    assert p.accepted[job] == Presence(p, job) == 2;
    hide Presence;
    hide Conserved;
    var ids: seq<nat> := [0];
    assert FindCurrent(p.workers, ids[1..], job).None?;
    assert FindCurrent(p.workers, ids, job).None?;
    assert FindQueued(p.workers, ids, job) == Some(0);
    hide FindCurrent;
    hide FindQueued;
    CancelQueuedMoves(p, job, job);
    assert Times(w.queue, job) == 2 by {
      assert multiset(w.queue) == multiset{job, job};
    }
    hide Dropping;
  }

  lemma FirstInvoke(key: FnKey, job: Job)
    ensures Invoke(NOTHING, key, job, Some(1)).0 ==
            Pool([Worker(key, [job], None, false, false)], [0], multiset{job}, [])
  {
    assert PoolOf(NOTHING, key) == [];
    hide PoolOf;
    hide Members;
    assert FirstIdle([], []).None?;
    hide FirstIdle;
    hide LeastLoaded;
    var w := Worker(key, [], None, false, false);
    assert Spawn(NOTHING, key) == Pool([w], [0], multiset{}, []);
    assert w.queue + [job] == [job];
    assert [w][0 := w.(queue := [job])] == [w.(queue := [job])];
    assert multiset{} + multiset{job} == multiset{job};
  }

  lemma SecondInvoke(key: FnKey, job: Job)
    ensures var once := Pool([Worker(key, [job], None, false, false)], [0], multiset{job}, []);
            Invoke(once, key, job, Some(1)).0 ==
            Pool([Worker(key, [job, job], None, false, false)], [0], multiset{job, job}, [])
  {
    hide FirstIdle;
    hide LeastLoaded;
    hide Members;
    var w := Worker(key, [job], None, false, false);
    OneWorker(w);
    assert w.queue + [job] == [job, job];
    assert [w][0 := w.(queue := [job, job])] == [w.(queue := [job, job])];
    assert multiset{job} + multiset{job} == multiset{job, job};
  }

  lemma OneWorker(w: Worker)
    requires !IsIdle(w)
    ensures Members([w], [0], w.key) == [0] && FirstIdle([w], [0]).None? && LeastLoaded([w], [0]) == 0
  {
    var ids: seq<nat> := [0];
    assert ids[..0] == [] && Members([w], ids[..0], w.key) == [];
    assert FirstIdle([w], ids[1..]).None?;
  }

  lemma ReusedIdConserved(w: Worker, job: Job)
    requires w.queue == [job, job] && w.current.None?
    ensures Conserved(Pool([w], [0], multiset{job, job}, []))
  {
    assert [w][..0] == [];
    forall x
      ensures multiset{job, job}[x] == QueuedTimes([w], x) + FlyingTimes([w], x)
    {
      assert QueuedTimes([], x) == 0 && FlyingTimes([], x) == 0;
      assert multiset([job, job]) == multiset{job, job};
    }
  }

  // ---- where an invocation goes

  ghost predicate IsFirstIdle(workers: seq<Worker>, ids: seq<nat>, id: nat)
    requires Known(ids, |workers|)
  {
    exists p :: 0 <= p < |ids| && ids[p] == id && IsIdle(workers[id]) && forall q :: 0 <= q < p ==> !IsIdle(workers[ids[q]])
  }

  lemma {:induction false} FirstIdleIsFirst(workers: seq<Worker>, ids: seq<nat>)
    requires Known(ids, |workers|) && FirstIdle(workers, ids).Some?
    ensures IsFirstIdle(workers, ids, FirstIdle(workers, ids).value)
    decreases |ids|
  {
    if IsIdle(workers[ids[0]]) {
      assert ids[0] == FirstIdle(workers, ids).value;
    } else {
      var rest := ids[1..];
      FirstIdleIsFirst(workers, rest);
      var id := FirstIdle(workers, rest).value;
      var p :| 0 <= p < |rest| && rest[p] == id && forall q :: 0 <= q < p ==> !IsIdle(workers[rest[q]]);
      assert forall q :: 0 < q < p + 1 ==> ids[q] == rest[q - 1];
      assert ids[p + 1] == id;
    }
  }

  /** The first of the shortest queues. */
  ghost predicate IsShortest(workers: seq<Worker>, ids: seq<nat>, id: nat)
    requires Known(ids, |workers|)
  {
    exists p :: 0 <= p < |ids| && ids[p] == id && Shorter(workers, ids, p)
  }

  ghost predicate Shorter(workers: seq<Worker>, ids: seq<nat>, p: nat)
    requires Known(ids, |workers|) && p < |ids|
  {
    && (forall q :: 0 <= q < |ids| ==> |workers[ids[p]].queue| <= |workers[ids[q]].queue|)
    && (forall q :: 0 <= q < p ==> |workers[ids[p]].queue| < |workers[ids[q]].queue|)
  }

  lemma ShorterExtends(workers: seq<Worker>, ids: seq<nat>, p: nat)
    requires Known(ids, |workers|) && p < |ids| - 1 && Shorter(workers, ids[..|ids| - 1], p)
    ensures var n := |ids| - 1;
            if |workers[ids[n]].queue| < |workers[ids[p]].queue| then Shorter(workers, ids, n) else Shorter(workers, ids, p)
  {
    var n := |ids| - 1;
    assert forall q :: 0 <= q < n ==> ids[..n][q] == ids[q];
  }

  lemma {:induction false} LeastLoadedIsShortest(workers: seq<Worker>, ids: seq<nat>)
    requires ids != [] && Known(ids, |workers|)
    ensures IsShortest(workers, ids, LeastLoaded(workers, ids))
    decreases |ids|
  {
    var n := |ids| - 1;
    if n == 0 {
      assert Shorter(workers, ids, 0);
    } else {
      hide Shorter;
      LeastLoadedIsShortest(workers, ids[..n]);
      var p :| 0 <= p < n && ids[..n][p] == LeastLoaded(workers, ids[..n]) && Shorter(workers, ids[..n], p);
      ShorterExtends(workers, ids, p);
    }
  }

  /** `q` is `p` with the job at the end of worker `id`'s queue, a worker of `key`; it is new if `id` was not there. */
  ghost predicate Receives(p: Pool, q: Pool, key: FnKey, job: Job, id: nat) {
    if id < |p.workers| then
      && p.workers[id].key == key && id in p.registered && q.registered == p.registered
      && q.workers == p.workers[id := p.workers[id].(queue := p.workers[id].queue + [job])]
    else
      && id == |p.workers| && q.registered == p.registered + [id]
      && q.workers == p.workers + [Worker(key, [job], None, false, false)]
  }

  /** Why that worker: the version's first idle one; else a new one while there is room; else its first shortest queue. */
  ghost predicate RightChoice(p: Pool, key: FnKey, limit: int, id: nat)
    requires WellFormed(p)
  {
    var ids := PoolOf(p, key);
    if exists other :: other in ids && IsIdle(p.workers[other]) then IsFirstIdle(p.workers, ids, id)
    else if |ids| == 0 || |ids| < limit then id == |p.workers|
    else IsShortest(p.workers, ids, id)
  }

  /**
   * An invocation fails, changing nothing, exactly when the function is unknown and has no worker.
   * Otherwise the job goes to the end of one queue, of the right worker of its own function.
   */
  lemma InvocationIs(p: Pool, key: FnKey, job: Job, record: Option<int>)
    requires WellFormed(p)
    ensures var (q, ok) := Invoke(p, key, job, record);
            && (!ok <==> record.None? && forall id :: id in p.registered ==> p.workers[id].key != key)
            && (!ok ==> q == p)
            && (ok ==> q.accepted == p.accepted + multiset{job} && q.reports == p.reports &&
                       exists id :: Receives(p, q, key, job, id) &&
                                    RightChoice(p, key, if record.Some? then record.value else 1, id))
  {
    var (q, ok) := Invoke(p, key, job, record);
    var ids := PoolOf(p, key);
    var limit := if record.Some? then record.value else 1;
    assert forall id :: id in p.registered && p.workers[id].key == key ==> id in ids;
    assert ids != [] ==> ids[0] in ids;
    var idle := FirstIdle(p.workers, ids);
    var id := if idle.Some? then idle.value
              else if |ids| < Limit(record) then |p.workers|
              else LeastLoaded(p.workers, ids);
    hide Members;
    if ok {
      ChoiceIsRight(p, key, record);
      ReceivedBy(p, key, job, record);
      assert Receives(p, q, key, job, id) && RightChoice(p, key, limit, id);
      hide RightChoice;
      hide Receives;
    }
  }

  lemma ChoiceIsRight(p: Pool, key: FnKey, record: Option<int>)
    requires WellFormed(p)
    ensures var ids := PoolOf(p, key);
            var idle := FirstIdle(p.workers, ids);
            RightChoice(p, key, if record.Some? then record.value else 1,
                        if idle.Some? then idle.value
                        else if |ids| < Limit(record) then |p.workers|
                        else LeastLoaded(p.workers, ids))
  {
    var ids := PoolOf(p, key);
    hide Members;
    if FirstIdle(p.workers, ids).Some? {
      FirstIdleIsFirst(p.workers, ids);
    } else if |ids| >= Limit(record) {
      LeastLoadedIsShortest(p.workers, ids);
    }
    hide IsFirstIdle;
    hide IsShortest;
  }

  lemma ReceivedBy(p: Pool, key: FnKey, job: Job, record: Option<int>)
    requires WellFormed(p) && Invoke(p, key, job, record).1
    ensures var ids := PoolOf(p, key);
            var idle := FirstIdle(p.workers, ids);
            Receives(p, Invoke(p, key, job, record).0, key, job,
                     if idle.Some? then idle.value
                     else if |ids| < Limit(record) then |p.workers|
                     else LeastLoaded(p.workers, ids))
  {
    var ids := PoolOf(p, key);
    hide Members;
    hide FirstIdle;
    if FirstIdle(p.workers, ids).None? && |ids| < Limit(record) {
      var w := Worker(key, [], None, false, false);
      assert w.queue + [job] == [job];
      assert (p.workers + [w])[|p.workers| := w.(queue := [job])] == p.workers + [w.(queue := [job])];
    }
    hide LeastLoaded;
  }

  // ---- jobs stay with the function they were submitted for

  predicate IsOn(w: Worker, job: Job) {
    job in w.queue || w.current == Some(job)
  }

  ghost predicate OnOwnFunction(p: Pool, asked: set<(FnKey, Job)>) {
    forall id, job :: 0 <= id < |p.workers| && IsOn(p.workers[id], job) ==> (p.workers[id].key, job) in asked
  }

  function Asked(ops: seq<Op>): set<(FnKey, Job)> {
    set i | 0 <= i < |ops| && ops[i].InvokeOp? :: (ops[i].key, ops[i].job)
  }

  /** Nothing but an invocation brings a job to a worker. */
  lemma OthersBringNothing(p: Pool, op: Op, limit: FnKey -> Option<int>, id: nat, job: Job)
    requires WellFormed(p) && Enabled(p, op) && !op.InvokeOp?
    ensures var q := Step(p, op, limit);
            |q.workers| == |p.workers| &&
            (id < |p.workers| ==> q.workers[id].key == p.workers[id].key && (IsOn(q.workers[id], job) ==> IsOn(p.workers[id], job)))
  {
    hide Unregister;
    hide ReportAll;
    hide FindCurrent;
    hide FindQueued;
  }

  lemma StepOnOwnFunction(p: Pool, op: Op, limit: FnKey -> Option<int>, asked: set<(FnKey, Job)>)
    requires WellFormed(p) && Enabled(p, op) && OnOwnFunction(p, asked)
    ensures OnOwnFunction(Step(p, op, limit), asked + Asked([op]))
  {
    if op.InvokeOp? {
      assert [op][0] == op && (op.key, op.job) in Asked([op]);
      InvocationIs(p, op.key, op.job, limit(op.key));
      hide Invoke;
      hide RightChoice;
    } else {
      forall id: nat, job
        ensures var q := Step(p, op, limit);
                |q.workers| == |p.workers| &&
                (id < |p.workers| ==> q.workers[id].key == p.workers[id].key && (IsOn(q.workers[id], job) ==> IsOn(p.workers[id], job)))
      {
        OthersBringNothing(p, op, limit, id, job);
      }
      hide Step;
      hide IsOn;
    }
  }

  lemma {:induction false} RunOnOwnFunction(
      p: Pool, ops: seq<Op>, limit: FnKey -> Option<int>, asked: set<(FnKey, Job)>)
    requires Legal(p, ops, limit) && OnOwnFunction(p, asked)
    ensures OnOwnFunction(Run(p, ops, limit), asked + Asked(ops))
    decreases |ops|
  {
    if ops == [] {
      assert asked + Asked(ops) == asked;
    } else {
      StepOnOwnFunction(p, ops[0], limit, asked);
      hide Step;
      hide OnOwnFunction;
      hide Enabled;
      hide Careful;
      RunOnOwnFunction(Step(p, ops[0], limit), ops[1..], limit, asked + Asked([ops[0]]));
      AskedSplit(ops);
      assert asked + Asked([ops[0]]) + Asked(ops[1..]) == asked + Asked(ops);
    }
  }

  lemma AskedSplit(ops: seq<Op>)
    requires ops != []
    ensures Asked(ops) == Asked([ops[0]]) + Asked(ops[1..])
  {
    forall x | x in Asked(ops)
      ensures x in Asked([ops[0]]) + Asked(ops[1..])
    {
      var i :| 0 <= i < |ops| && ops[i].InvokeOp? && x == (ops[i].key, ops[i].job);
      if i == 0 {
        assert [ops[0]][0] == ops[0];
      } else {
        assert ops[1..][i - 1] == ops[i];
      }
    }
    assert forall i :: 0 <= i < |ops[1..]| ==> ops[1..][i] == ops[i + 1];
  }

  /** Over every run, each job that waits or runs does so on a worker of the function it was submitted for. */
  lemma JobsRunTheirOwnFunction(ops: seq<Op>, limit: FnKey -> Option<int>, id: nat, job: Job)
    requires Legal(NOTHING, ops, limit)
    requires id < |Run(NOTHING, ops, limit).workers| && IsOn(Run(NOTHING, ops, limit).workers[id], job)
    ensures exists i :: 0 <= i < |ops| && ops[i] == InvokeOp(Run(NOTHING, ops, limit).workers[id].key, job)
  {
    RunOnOwnFunction(NOTHING, ops, limit, {});
    hide Run;
    hide Legal;
  }

  // ---- what each job is told

  /** The longest-waiting job is dispatched. */
  lemma DispatchIsFifo(p: Pool, id: nat)
    requires CanDispatch(p, id)
    ensures var (w, q) := (p.workers[id], Dispatch(p, id));
            && q.workers[id].current.Some? && w.queue == [q.workers[id].current.value] + q.workers[id].queue
            && q == p.(workers := p.workers[id := w.(current := q.workers[id].current, queue := q.workers[id].queue)])
  {
  }

  /** `more` was reported after everything reported before. */
  predicate ReportsMore(p: Pool, q: Pool, more: seq<Report>) {
    q.reports == p.reports + more && q.accepted == p.accepted
  }

  /** A result is reported as finished or failed for the job that ran; the worker is free, and no other is touched. */
  lemma ResultIsReported(p: Pool, id: nat, ok: bool)
    requires CanFinish(p, id)
    ensures var (w, q) := (p.workers[id], Finish(p, id, ok));
            && q.registered == p.registered && q.workers == p.workers[id := Worker(w.key, w.queue, None, false, false)]
            && exists job :: w.current == Some(job) &&
                             ReportsMore(p, q, [if ok then Report(job, Finished) else Report(job, Failed)])
  {
    var w, q := p.workers[id], Finish(p, id, ok);
    assert ReportsMore(p, q, [Report(w.current.value, if ok then Finished else Failed)]);
  }

  /** Queued jobs are told they crashed, in the order they waited. */
  ghost predicate ToldCrashed(reports: seq<Report>, jobs: seq<Job>) {
    |reports| == |jobs| && forall i :: 0 <= i < |jobs| ==> reports[i].job == jobs[i] && reports[i].outcome == Crashed
  }

  /**
   * A crash or timeout tells its outcome to the job that ran and "crashed" to those behind it, and
   * the worker is gone from the registry, empty; a worker that was killed or swept tells nothing.
   */
  lemma LossIsReported(p: Pool, id: nat, first: Outcome)
    requires WellFormed(p) && InFlight(p, id)
    ensures var (w, q) := (p.workers[id], Lose(p, id, first));
            && |q.workers| == |p.workers| && (forall i :: 0 <= i < |p.workers| && i != id ==> q.workers[i] == p.workers[i])
            && q.workers[id].current.None?
            && (w.cancelled || w.stopped ==> ReportsMore(p, q, []) && q.registered == p.registered)
            && (!w.cancelled ==> q.workers[id].queue == [])
            && (!w.cancelled && !w.stopped ==>
                  id !in q.registered && (forall i :: i in p.registered && i != id ==> i in q.registered) &&
                  exists told :: ToldCrashed(told, w.queue) && ReportsMore(p, q, [Report(w.current.value, first)] + told))
  {
    var w, q := p.workers[id], Lose(p, id, first);
    if !w.cancelled && !w.stopped {
      var told := ReportAll(w.queue, Crashed);
      assert ToldCrashed(told, w.queue);
      assert ReportsMore(p, q, [Report(w.current.value, first)] + told);
    } else {
      assert p.reports + [] == p.reports;
    }
  }

  /**
   * A cancel succeeds exactly when some registered worker runs the job or has it queued. If one runs
   * it, the job is told "cancelled" and those behind it "crashed", and the worker is gone, killed;
   * if it waits it is told "cancelled" and nothing else changes but that queue.
   */
  lemma CancelIsReported(p: Pool, job: Job)
    requires WellFormed(p)
    ensures var (q, done) := Cancel(p, job);
            var runs := exists id :: id in p.registered && p.workers[id].current == Some(job);
            var waits := exists id :: id in p.registered && job in p.workers[id].queue;
            && (done <==> runs || waits) && (!done ==> q == p)
            && (runs ==> exists id :: id in p.registered && p.workers[id].current == Some(job) && KilledFor(p, q, job, id))
            && (!runs && waits ==>
                  ReportsMore(p, q, [Report(job, Cancelled)]) && q.registered == p.registered &&
                  exists id :: id in p.registered && job in p.workers[id].queue && TakenOut(p, q, job, id))
  {
    var (q, done) := Cancel(p, job);
    var running := FindCurrent(p.workers, p.registered, job);
    if running.Some? {
      var told := ReportAll(p.workers[running.value].queue, Crashed);
      assert ToldCrashed(told, p.workers[running.value].queue);
      assert ReportsMore(p, q, [Report(job, Cancelled)] + told);
      assert KilledFor(p, q, job, running.value);
    }
    hide FindCurrent;
    hide FindQueued;
    hide Dropping;
  }

  ghost predicate KilledFor(p: Pool, q: Pool, job: Job, id: nat)
    requires id < |p.workers|
  {
    && q.workers == p.workers[id := p.workers[id].(queue := [], cancelled := true)]
    && id !in q.registered && (forall i :: i in p.registered && i != id ==> i in q.registered)
    && exists told :: ToldCrashed(told, p.workers[id].queue) && ReportsMore(p, q, [Report(job, Cancelled)] + told)
  }

  /** Only this worker's queue changes, by the job being taken out. */
  predicate TakenOut(p: Pool, q: Pool, job: Job, id: nat)
    requires id < |p.workers|
  {
    q.workers == p.workers[id := p.workers[id].(queue := Dropping(p.workers[id].queue, job))]
  }

  lemma {:induction false} UnregisterSplits(a: seq<nat>, b: seq<nat>, id: nat)
    ensures Unregister(a + b, id) == Unregister(a, id) + Unregister(b, id)
    decreases |b|
  {
    if b == [] {
      assert a + b == a;
    } else {
      var n := |b| - 1;
      UnregisterSplits(a, b[..n], id);
      assert (a + b)[..|a| + n] == a + b[..n];
    }
  }

  /** A sweep reports nothing and takes only that worker out of the registry, whose order stays. */
  lemma SweepIsQuiet(p: Pool, id: nat)
    requires CanSweep(p, id)
    ensures var q := Sweep(p, id);
            && ReportsMore(p, q, []) && q.workers == p.workers[id := p.workers[id].(stopped := true)]
            && id !in q.registered && (forall i :: i in p.registered && i != id ==> i in q.registered)
  {
    assert p.reports + [] == p.reports;
  }
}
