/**
 * The LFU cache. The reference is plain LFU over a log of accesses and evictions; the cache
 * itself keeps a frequency table and a heap that is cleaned only when something must go.
 */
module LfuCache {
  import opened Wrappers

  // ---- the reference: counting a log

  datatype Mark = Accessed(key: string) | Evicted(key: string)

  /** Accesses to a key since it was last evicted. */
  function Count(log: seq<Mark>, key: string): nat {
    if log == [] then 0
    else
      var last, before := log[|log| - 1], log[..|log| - 1];
      if last == Accessed(key) then Count(before, key) + 1
      else if last == Evicted(key) then 0
      else Count(before, key)
  }

  /** Accesses to any key. */
  function Accesses(log: seq<Mark>): nat {
    if log == [] then 0
    else Accesses(log[..|log| - 1]) + (if log[|log| - 1].Accessed? then 1 else 0)
  }

  /** When the key reached its present count: the number of accesses before its latest one. */
  function Reached(log: seq<Mark>, key: string): nat {
    if log == [] then 0
    else
      var last, before := log[|log| - 1], log[..|log| - 1];
      if last == Accessed(key) then Accesses(before) else Reached(before, key)
  }

  predicate LexLess(f: nat, s: nat, g: nat, t: nat) {
    f < g || (f == g && s < t)
  }

  /** Fewer accesses, or as many but reached earlier. */
  predicate GoesBefore(log: seq<Mark>, a: string, b: string) {
    LexLess(Count(log, a), Reached(log, a), Count(log, b), Reached(log, b))
  }

  datatype Plain<V> = Plain(capacity: int, cache: map<string, V>, log: seq<Mark>)

  ghost predicate IsVictim(log: seq<Mark>, keys: set<string>, victim: string) {
    victim in keys && forall key :: key in keys && key != victim ==> GoesBefore(log, victim, key)
  }

  ghost predicate WellLogged<V>(p: Plain<V>) {
    forall key :: key in p.cache <==> Count(p.log, key) > 0
  }

  lemma {:induction false} ReachedBounded(log: seq<Mark>, key: string)
    requires Count(log, key) > 0
    ensures Reached(log, key) < Accesses(log)
  {
    var last, before := log[|log| - 1], log[..|log| - 1];
    if last != Accessed(key) {
      ReachedBounded(before, key);
    }
  }

  /** Two cached keys never reached their counts at the same access. */
  lemma {:induction false} ReachedDiffers(log: seq<Mark>, a: string, b: string)
    requires a != b && Count(log, a) > 0 && Count(log, b) > 0
    ensures Reached(log, a) != Reached(log, b)
  {
    var last, before := log[|log| - 1], log[..|log| - 1];
    if last == Accessed(a) {
      ReachedBounded(before, b);
    } else if last == Accessed(b) {
      ReachedBounded(before, a);
    } else {
      ReachedDiffers(before, a, b);
    }
  }

  lemma {:induction false} VictimExists(log: seq<Mark>, keys: set<string>)
    requires keys != {} && forall key :: key in keys ==> Count(log, key) > 0
    ensures exists victim :: IsVictim(log, keys, victim)
    decreases keys
  {
    var a :| a in keys;
    if keys == {a} {
      assert IsVictim(log, keys, a);
    } else {
      var rest := keys - {a};
      assert rest != {};
      VictimExists(log, rest);
      var b :| IsVictim(log, rest, b);
      ReachedDiffers(log, a, b);
      var victim := if GoesBefore(log, a, b) then a else b;
      forall key | key in keys && key != victim
        ensures GoesBefore(log, victim, key)
      {
        assert key == a || key == b || GoesBefore(log, b, key);
      }
      assert IsVictim(log, keys, victim);
    }
  }

  /** The key plain LFU evicts; there is exactly one. */
  ghost function Victim(log: seq<Mark>, keys: set<string>): (victim: string)
    requires keys != {} && forall key :: key in keys ==> Count(log, key) > 0
    ensures IsVictim(log, keys, victim)
  {
    VictimExists(log, keys);
    var victim :| IsVictim(log, keys, victim);
    victim
  }

  // ---- plain LFU

  datatype Op<V> = GetOp(key: string) | PutOp(key: string, value: V)

  function Use<V>(p: Plain<V>, key: string): Plain<V> {
    p.(log := p.log + [Accessed(key)])
  }

  /** Drops a value; the empty string is falsy, so its value stays. */
  function Dropped<V>(cache: map<string, V>, victim: string): map<string, V> {
    if victim == "" then cache else cache - {victim}
  }

  ghost function MakeRoom<V>(p: Plain<V>): Plain<V>
    requires WellLogged(p)
  {
    if p.cache.Keys == {} then p
    else
      var victim := Victim(p.log, p.cache.Keys);
      Plain(p.capacity, Dropped(p.cache, victim), p.log + [Evicted(victim)])
  }

  lemma RoomIs<V>(p: Plain<V>, victim: string)
    requires WellLogged(p) && IsVictim(p.log, p.cache.Keys, victim)
    ensures MakeRoom(p) == Plain(p.capacity, Dropped(p.cache, victim), p.log + [Evicted(victim)])
    ensures Victim(p.log, p.cache.Keys) == victim
  {
    hide Count;
    hide Reached;
    assert victim in p.cache.Keys;
    assert Victim(p.log, p.cache.Keys) == victim;
    hide IsVictim;
  }

  lemma VictimIsKey(log: seq<Mark>, keys: set<string>, victim: string)
    requires IsVictim(log, keys, victim)
    ensures victim in keys
  {
  }

  predicate NeedsRoom<V>(p: Plain<V>, key: string) {
    key !in p.cache && |p.cache| >= p.capacity
  }

  /** The key that must go is the empty string. */
  ghost predicate Leaks<V>(p: Plain<V>, key: string)
    requires WellLogged(p)
  {
    NeedsRoom(p, key) && p.cache.Keys != {} && Victim(p.log, p.cache.Keys) == ""
  }

  ghost function Put<V>(p: Plain<V>, key: string, value: V): Plain<V>
    requires WellLogged(p)
  {
    var roomy := if NeedsRoom(p, key) then MakeRoom(p) else p;
    Use(roomy.(cache := roomy.cache[key := value]), key)
  }

  function Get<V>(p: Plain<V>, key: string): (Plain<V>, Option<V>) {
    if key in p.cache then (Use(p, key), Some(p.cache[key])) else (p, None)
  }

  // ---- the frequency table and the lazily cleaned heap

  datatype Entry = Entry(freq: nat, stamp: nat, key: string)

  predicate HeapLeq(a: Entry, b: Entry) {
    a == b || LexLess(a.freq, a.stamp, b.freq, b.stamp)
  }

  function Current(log: seq<Mark>, key: string): Entry {
    Entry(Count(log, key), Reached(log, key), key)
  }

  /** Every counted key has its current entry in the heap; all other entries are out of date. */
  ghost predicate Tracks(freq: map<string, nat>, heap: set<Entry>, log: seq<Mark>) {
    && (forall key :: key in freq <==> Count(log, key) > 0)
    && (forall key :: key in freq ==> freq[key] == Count(log, key) && Current(log, key) in heap)
    && (forall e :: e in heap ==> e.key in freq && (e == Current(log, e.key) || e.freq < freq[e.key]))
  }

  ghost predicate DistinctStamps(heap: set<Entry>) {
    forall a, b :: a in heap && b in heap && a.stamp == b.stamp ==> a == b
  }

  ghost predicate Stamped(heap: set<Entry>, index: nat) {
    forall e :: e in heap ==> e.stamp < index
  }

  lemma {:induction false} HeapMinExists(heap: set<Entry>)
    requires heap != {} && DistinctStamps(heap)
    ensures exists e :: e in heap && forall x :: x in heap ==> HeapLeq(e, x)
    decreases heap
  {
    var a :| a in heap;
    if heap == {a} {
      assert forall x :: x in heap ==> HeapLeq(a, x);
    } else {
      var rest := heap - {a};
      assert rest != {};
      HeapMinExists(rest);
      var b :| b in rest && forall x :: x in rest ==> HeapLeq(b, x);
      assert a.stamp != b.stamp;
      var e := if HeapLeq(a, b) then a else b;
      forall x | x in heap
        ensures HeapLeq(e, x)
      {
        assert x == a || HeapLeq(b, x);
      }
    }
  }

  lemma AccessTracks(freq: map<string, nat>, heap: set<Entry>, log: seq<Mark>, key: string)
    requires Tracks(freq, heap, log)
    ensures var f := (if key in freq then freq[key] else 0) + 1;
            Tracks(freq[key := f], heap + {Entry(f, Accesses(log), key)}, log + [Accessed(key)])
  {
    var log' := log + [Accessed(key)];
    assert log'[..|log|] == log;
    assert Count(log', key) == Count(log, key) + 1 && Reached(log', key) == Accesses(log);
    forall other | other != key
      ensures Current(log', other) == Current(log, other)
    {
    }
  }

  /** Dropping an out-of-date entry loses nothing. */
  lemma StaleTracks(freq: map<string, nat>, heap: set<Entry>, log: seq<Mark>, e: Entry)
    requires Tracks(freq, heap, log) && e in heap && freq[e.key] != e.freq
    ensures Tracks(freq, heap - {e}, log)
  {
    hide Count;
    hide Reached;
  }

  /** The least entry, if current, is the victim's, and it is the last one naming that key. */
  lemma CurrentMinIsVictim(freq: map<string, nat>, heap: set<Entry>, log: seq<Mark>, e: Entry)
    requires Tracks(freq, heap, log) && e in heap && e.key in freq && freq[e.key] == e.freq
    requires forall x :: x in heap ==> HeapLeq(e, x)
    ensures IsVictim(log, freq.Keys, e.key)
    ensures Tracks(freq - {e.key}, heap - {e}, log + [Evicted(e.key)])
  {
    hide Count;
    hide Reached;
    forall key | key in freq.Keys && key != e.key
      ensures GoesBefore(log, e.key, key)
    {
      assert HeapLeq(e, Current(log, key));
      ReachedDiffers(log, e.key, key);
    }
    assert IsVictim(log, freq.Keys, e.key);
    hide IsVictim;
    VictimTracks(freq, heap, log, e);
  }

  /** A current minimum is the last entry naming its key. */
  lemma LastEntry(freq: map<string, nat>, heap: set<Entry>, log: seq<Mark>, e: Entry)
    requires Tracks(freq, heap, log) && e in heap && e.key in freq && freq[e.key] == e.freq
    requires forall x :: x in heap ==> HeapLeq(e, x)
    ensures forall x :: x in heap && x != e ==> x.key != e.key
  {
    hide Count;
    hide Reached;
  }

  lemma VictimTracks(freq: map<string, nat>, heap: set<Entry>, log: seq<Mark>, e: Entry)
    requires Tracks(freq, heap, log) && e in heap && e.key in freq && freq[e.key] == e.freq
    requires forall x :: x in heap ==> HeapLeq(e, x)
    ensures Tracks(freq - {e.key}, heap - {e}, log + [Evicted(e.key)])
  {
    hide Count;
    hide Reached;
    hide HeapLeq;
    LastEntry(freq, heap, log, e);
    var log', freq', heap' := log + [Evicted(e.key)], freq - {e.key}, heap - {e};
    forall key
      ensures key in freq' <==> Count(log', key) > 0
      ensures key in freq' ==> freq'[key] == Count(log', key) && Current(log', key) in heap'
    {
      EvictedOnly(log, e.key, key);
    }
    forall x | x in heap'
      ensures x.key in freq' && (x == Current(log', x.key) || x.freq < freq'[x.key])
    {
      EvictedOnly(log, e.key, x.key);
    }
  }

  lemma EvictedOnly(log: seq<Mark>, victim: string, key: string)
    ensures var log' := log + [Evicted(victim)];
            if key == victim then Count(log', key) == 0 else Current(log', key) == Current(log, key)
  {
    assert (log + [Evicted(victim)])[..|log|] == log;
  }

  /** All that the frequency table, the heap and the running index promise about the log. */
  ghost predicate Consistent(freq: map<string, nat>, heap: set<Entry>, index: nat, log: seq<Mark>) {
    Tracks(freq, heap, log) && DistinctStamps(heap) && Stamped(heap, index) && index == Accesses(log)
  }

  lemma AccessConsistent(freq: map<string, nat>, heap: set<Entry>, index: nat, log: seq<Mark>, key: string)
    requires Consistent(freq, heap, index, log)
    ensures var f := (if key in freq then freq[key] else 0) + 1;
            Consistent(freq[key := f], heap + {Entry(f, index, key)}, index + 1, log + [Accessed(key)])
  {
    hide Tracks;
    hide Count;
    hide Reached;
    AccessTracks(freq, heap, log, key);
    assert (log + [Accessed(key)])[..|log|] == log;
  }

  lemma PopConsistent(freq: map<string, nat>, heap: set<Entry>, index: nat, log: seq<Mark>, e: Entry)
    requires Consistent(freq, heap, index, log) && e in heap
    requires forall x :: x in heap ==> HeapLeq(e, x)
    ensures e.key in freq
    ensures freq[e.key] != e.freq ==> Consistent(freq, heap - {e}, index, log)
    ensures freq[e.key] == e.freq ==>
              && IsVictim(log, freq.Keys, e.key)
              && Consistent(freq - {e.key}, heap - {e}, index, log + [Evicted(e.key)])
  {
    hide Tracks;
    hide IsVictim;
    hide Count;
    hide Reached;
    HeapNamesCounted(freq, heap, log, e);
    if freq[e.key] != e.freq {
      StaleTracks(freq, heap, log, e);
    } else {
      CurrentMinIsVictim(freq, heap, log, e);
      assert (log + [Evicted(e.key)])[..|log|] == log;
    }
  }

  /** No heap entry names a key that has been evicted. */
  lemma HeapNamesCounted(freq: map<string, nat>, heap: set<Entry>, log: seq<Mark>, e: Entry)
    requires Tracks(freq, heap, log) && e in heap
    ensures e.key in freq
  {
  }

  lemma EmptyHeapNoKeys(freq: map<string, nat>, index: nat, log: seq<Mark>)
    requires Consistent(freq, {}, index, log)
    ensures freq.Keys == {}
  {
    assert forall key :: key in freq ==> Current(log, key) in {};
  }

  lemma ConsistentWellLogged<V>(freq: map<string, nat>, heap: set<Entry>, index: nat, p: Plain<V>)
    requires Consistent(freq, heap, index, p.log) && freq.Keys == p.cache.Keys
    ensures WellLogged(p)
  {
    hide Count;
    hide Current;
    hide DistinctStamps;
    hide Stamped;
    forall key
      ensures key in p.cache <==> Count(p.log, key) > 0
    {
      assert key in p.cache <==> key in freq.Keys;
    }
  }

  // ---- the cache object

  class Cache<V> {
    const capacity: int
    var cache: map<string, V>
    var freq: map<string, nat>
    var heap: set<Entry>
    var index: nat
    ghost var log: seq<Mark>

    ghost function View(): Plain<V>
      reads this
    {
      Plain(capacity, cache, log)
    }

    ghost predicate Valid()
      reads this
    {
      && |cache| <= Max(1, capacity)
      && cache.Keys == freq.Keys
      && Consistent(freq, heap, index, log)
    }

    constructor (capacity: int)
      ensures Valid() && View() == Plain(capacity, map[], [])
    {
      this.capacity := capacity;
      cache, freq, heap, index, log := map[], map[], {}, 0, [];
    }

    method Access(key: string)
      requires Consistent(freq, heap, index, log)
      modifies this`freq, this`heap, this`index, this`log
      ensures Consistent(freq, heap, index, log)
      ensures freq.Keys == old(freq.Keys) + {key} && log == old(log) + [Accessed(key)]
    {
      hide Consistent;
      AccessConsistent(freq, heap, index, log, key);
      var current := if key in freq then freq[key] else 0;
      freq := freq[key := current + 1];
      heap := heap + {Entry(current + 1, index, key)};
      index := index + 1;
      log := log + [Accessed(key)];
    }

    /** Pops entries until one is current; that one names plain LFU's victim. */
    method Evict() returns (victim: Option<string>)
      requires Consistent(freq, heap, index, log)
      modifies this`freq, this`heap, this`log
      ensures Consistent(freq, heap, index, log)
      ensures old(freq.Keys) == {} ==> victim == None && freq == old(freq) && log == old(log)
      ensures old(freq.Keys) != {} ==>
                && victim.Some? && IsVictim(old(log), old(freq.Keys), victim.value)
                && freq == old(freq) - {victim.value} && log == old(log) + [Evicted(victim.value)]
    {
      hide Tracks;
      hide IsVictim;
      while heap != {}
        invariant Consistent(freq, heap, index, log) && freq == old(freq) && log == old(log)
        decreases heap
      {
        HeapMinExists(heap);
        var e :| e in heap && forall x :: x in heap ==> HeapLeq(e, x);
        PopConsistent(freq, heap, index, log, e);
        hide Consistent;
        heap := heap - {e};
        if freq[e.key] == e.freq {
          freq := freq - {e.key};
          log := log + [Evicted(e.key)];
          return Some(e.key);
        }
      }
      EmptyHeapNoKeys(freq, index, log);
      return None;
    }

    method Lookup(key: string) returns (value: Option<V>)
      requires Valid()
      modifies this
      ensures Valid()
      ensures (View(), value) == Get(old(View()), key)
    {
      hide Consistent;
      if key in cache {
        Access(key);
        assert freq.Keys == old(freq.Keys);
        value := Some(cache[key]);
      } else {
        value := None;
      }
    }

    /**
     * The first half of `put`: drop plain LFU's victim from the cache. Cache and frequency table
     * keep the same keys exactly when the victim is not the empty string.
     */
    method DropVictim()
      requires Valid() && |cache| >= capacity
      modifies this
      ensures Consistent(freq, heap, index, log)
      ensures WellLogged(old(View())) && View() == MakeRoom(old(View()))
      ensures var leaks := old(cache.Keys) != {} && Victim(old(log), old(cache.Keys)) == "";
              if leaks then cache == old(cache) && "" in cache && freq.Keys == cache.Keys - {""}
              else cache.Keys == freq.Keys && |cache| < Max(1, capacity)
    {
      hide Consistent;
      hide WellLogged;
      hide IsVictim;
      ConsistentWellLogged(freq, heap, index, View());
      var evicted := Evict();
      if evicted.Some? {
        RoomIs(old(View()), evicted.value);
        VictimIsKey(old(log), old(freq.Keys), evicted.value);
        hide MakeRoom;
        if evicted.value != "" {
          cache := cache - {evicted.value};
          assert cache.Keys == old(cache.Keys) - {evicted.value};
        }
      }
    }

    /** The second half: store the value and count the access. */
    method Keep(key: string, value: V)
      requires Consistent(freq, heap, index, log)
      modifies this
      ensures Consistent(freq, heap, index, log)
      ensures View() == Use(old(View()).(cache := old(cache)[key := value]), key)
      ensures cache.Keys == old(cache.Keys) + {key} && freq.Keys == old(freq.Keys) + {key}
      ensures |cache| <= |old(cache)| + 1 && (key in old(cache) ==> |cache| == |old(cache)|)
    {
      hide Consistent;
      cache := cache[key := value];
      Access(key);
      assert cache.Keys == old(cache.Keys) + {key};
      assert key in old(cache) ==> cache.Keys == old(cache.Keys);
    }

    /** As plain LFU; the cache stays valid exactly when the empty string is not evicted. */
    method Store(key: string, value: V)
      requires Valid()
      modifies this
      ensures WellLogged(old(View())) && View() == Put(old(View()), key, value)
      ensures Valid() <==> !Leaks(old(View()), key)
    {
      hide Consistent;
      hide WellLogged;
      hide MakeRoom;
      ConsistentWellLogged(freq, heap, index, View());
      if key !in cache && |cache| >= capacity {
        DropVictim();
        hide Victim;
        Keep(key, value);
        assert Leaks(old(View()), key) ==> "" in cache.Keys && "" !in freq.Keys;
      } else {
        Keep(key, value);
      }
    }

    method Do(op: Op<V>) returns (answer: Option<V>)
      requires Valid() && WellLogged(View())
      requires op.PutOp? ==> !Leaks(View(), op.key)
      modifies this
      ensures Valid() && WellLogged(View())
      ensures View() == After(old(View()), op) && answer == Answer(old(View()), op)
    {
      hide Consistent;
      hide WellLogged;
      hide Leaks;
      AfterWellLogged(View(), op);
      answer := None;
      match op {
        case GetOp(key) => answer := Lookup(key);
        case PutOp(key, value) => Store(key, value);
      }
    }

    /**
     * Over every run of gets and puts that evicts no empty string, the heap-based cache answers
     * and holds exactly what plain LFU does.
     */
    static method Simulate(capacity: int, ops: seq<Op<V>>) returns (contents: map<string, V>, answers: seq<Option<V>>)
      requires Usable(Start(capacity), ops)
      ensures contents == Run(Start(capacity), ops).cache
      ensures answers == Answers(Start(capacity), ops)
      ensures |contents| <= Max(1, capacity)
    {
      hide WellLogged;
      hide Consistent;
      hide Leaks;
      hide After;
      hide Answer;
      ghost var start := Start<V>(capacity);
      var c := new Cache<V>(capacity);
      answers := [];
      assert ops[0..] == ops;
      for i := 0 to |ops|
        invariant c.Valid() && fresh(c) && c.capacity == capacity
        invariant WellLogged(c.View()) && Usable(c.View(), ops[i..])
        invariant Run(start, ops) == Run(c.View(), ops[i..])
        invariant Answers(start, ops) == answers + Answers(c.View(), ops[i..])
      {
        assert ops[i..][0] == ops[i] && ops[i..][1..] == ops[i + 1..];
        var answer := c.Do(ops[i]);
        answers := answers + [answer];
      }
      contents := c.cache;
    }
  }

  // ---- runs

  ghost function After<V>(p: Plain<V>, op: Op<V>): Plain<V>
    requires WellLogged(p)
  {
    match op
    case GetOp(key) => Get(p, key).0
    case PutOp(key, value) => Put(p, key, value)
  }

  lemma LogStep(log: seq<Mark>, mark: Mark, key: string)
    ensures Count(log + [mark], key) ==
            if mark == Accessed(key) then Count(log, key) + 1
            else if mark == Evicted(key) then 0
            else Count(log, key)
  {
    assert (log + [mark])[..|log|] == log;
  }

  lemma UseWellLogged<V>(p: Plain<V>, key: string)
    requires key in p.cache
    requires forall k :: k != key ==> (k in p.cache <==> Count(p.log, k) > 0)
    ensures WellLogged(Use(p, key))
  {
    forall k
      ensures k in p.cache <==> Count(Use(p, key).log, k) > 0
    {
      LogStep(p.log, Accessed(key), k);
    }
  }

  /** A cache and its log part exactly when the empty string is dropped from the one and not the other. */
  lemma RoomWellLogged<V>(p: Plain<V>)
    requires WellLogged(p)
    ensures WellLogged(MakeRoom(p)) <==> p.cache.Keys == {} || Victim(p.log, p.cache.Keys) != ""
  {
    if p.cache.Keys != {} {
      var victim, after := Victim(p.log, p.cache.Keys), MakeRoom(p);
      forall k
        ensures k in p.cache && k != victim <==> Count(after.log, k) > 0
      {
        LogStep(p.log, Evicted(victim), k);
      }
      if victim == "" {
        assert victim in after.cache && !(Count(after.log, victim) > 0);
      }
    }
  }

  lemma AfterWellLogged<V>(p: Plain<V>, op: Op<V>)
    requires WellLogged(p) && (op.PutOp? ==> !Leaks(p, op.key))
    ensures WellLogged(After(p, op))
  {
    match op
    case GetOp(key) =>
      if key in p.cache {
        UseWellLogged(p, key);
      }
    case PutOp(key, value) =>
      RoomWellLogged(p);
      var roomy := if NeedsRoom(p, key) then MakeRoom(p) else p;
      hide MakeRoom;
      UseWellLogged(roomy.(cache := roomy.cache[key := value]), key);
  }

  /** No step of the run evicts the empty string. */
  ghost predicate Usable<V>(p: Plain<V>, ops: seq<Op<V>>)
    requires WellLogged(p)
    decreases |ops|
  {
    ops == [] ||
    ((ops[0].PutOp? ==> !Leaks(p, ops[0].key)) &&
     (AfterWellLogged(p, ops[0]); Usable(After(p, ops[0]), ops[1..])))
  }

  ghost function Run<V>(p: Plain<V>, ops: seq<Op<V>>): (r: Plain<V>)
    requires WellLogged(p) && Usable(p, ops)
    ensures WellLogged(r)
    decreases |ops|
  {
    if ops == [] then p
    else
      AfterWellLogged(p, ops[0]);
      Run(After(p, ops[0]), ops[1..])
  }

  ghost function Start<V>(capacity: int): (p: Plain<V>)
    ensures WellLogged(p)
  {
    Plain(capacity, map[], [])
  }

  function Answer<V>(p: Plain<V>, op: Op<V>): Option<V> {
    if op.GetOp? then Get(p, op.key).1 else None
  }

  /** What the reads of a run return under plain LFU: one answer per operation, puts answering nothing. */
  ghost function Answers<V>(p: Plain<V>, ops: seq<Op<V>>): seq<Option<V>>
    requires WellLogged(p) && Usable(p, ops)
    decreases |ops|
  {
    if ops == [] then []
    else
      AfterWellLogged(p, ops[0]);
      [Answer(p, ops[0])] + Answers(After(p, ops[0]), ops[1..])
  }

  // ---- what plain LFU answers and keeps

  /** A store that never forgets: every key with the last value put for it. */
  function Written<V>(store: map<string, V>, ops: seq<Op<V>>): map<string, V>
    decreases |ops|
  {
    if ops == [] then store
    else Written(if ops[0].PutOp? then store[ops[0].key := ops[0].value] else store, ops[1..])
  }

  lemma {:induction false} RunHoldsLastPuts<V>(p: Plain<V>, store: map<string, V>, ops: seq<Op<V>>)
    requires WellLogged(p) && Usable(p, ops)
    requires forall k :: k in p.cache ==> k in store && p.cache[k] == store[k]
    ensures forall k :: k in Run(p, ops).cache ==>
              k in Written(store, ops) && Run(p, ops).cache[k] == Written(store, ops)[k]
    decreases |ops|
  {
    hide WellLogged;
    hide Leaks;
    hide Victim;
    if ops != [] {
      AfterWellLogged(p, ops[0]);
      RunHoldsLastPuts(After(p, ops[0]), if ops[0].PutOp? then store[ops[0].key := ops[0].value] else store, ops[1..]);
    }
  }

  /** After every run, a get hits exactly the keys held, and a hit answers the last value put. */
  lemma HitIsLastPut<V>(capacity: int, ops: seq<Op<V>>, key: string)
    requires Usable(Start(capacity), ops)
    ensures var p := Run(Start(capacity), ops);
            var (p', answer) := Get(p, key);
            && (answer.Some? <==> key in p.cache) && p'.cache == p.cache
            && (answer.Some? ==> key in Written(map[], ops) && answer.value == Written(map[], ops)[key])
  {
    RunHoldsLastPuts<V>(Start(capacity), map[], ops);
    hide WellLogged;
    hide Usable;
  }

  /** Where in the log a key is accessed last, -1 if nowhere. */
  function LastAccess(log: seq<Mark>, key: string): (r: int)
    ensures -1 <= r < |log|
  {
    if log == [] then -1
    else if log[|log| - 1] == Accessed(key) then |log| - 1
    else LastAccess(log[..|log| - 1], key)
  }

  lemma {:induction false} ReachedInOrder(log: seq<Mark>, a: string, b: string)
    requires Count(log, a) > 0 && Count(log, b) > 0
    ensures Reached(log, a) < Reached(log, b) <==> LastAccess(log, a) < LastAccess(log, b)
  {
    var last, before := log[|log| - 1], log[..|log| - 1];
    if a == b {
    } else if last == Accessed(a) {
      ReachedBounded(before, b);
    } else if last == Accessed(b) {
      ReachedBounded(before, a);
    } else {
      ReachedInOrder(before, a, b);
    }
  }

  /** Accessed less than any other key since it came in, or as often as another but not as lately. */
  ghost predicate IsLeastUsed(log: seq<Mark>, keys: set<string>, victim: string) {
    && victim in keys
    && forall key :: key in keys && key != victim ==>
         Count(log, victim) < Count(log, key) ||
         (Count(log, victim) == Count(log, key) && LastAccess(log, victim) < LastAccess(log, key))
  }

  lemma VictimIsLeastUsed(log: seq<Mark>, keys: set<string>, victim: string)
    requires forall key :: key in keys ==> Count(log, key) > 0
    ensures IsVictim(log, keys, victim) <==> IsLeastUsed(log, keys, victim)
  {
    hide Count;
    hide Reached;
    hide LastAccess;
    if victim in keys {
      forall key | key in keys && key != victim
        ensures GoesBefore(log, victim, key) <==>
                Count(log, victim) < Count(log, key) ||
                (Count(log, victim) == Count(log, key) && LastAccess(log, victim) < LastAccess(log, key))
      {
        ReachedInOrder(log, victim, key);
      }
      hide GoesBefore;
    }
  }

  /** A hit counts as one more access to its key, the latest of all; it is no access to another key, and a miss is none. */
  lemma HitIsCounted<V>(p: Plain<V>, key: string, other: string)
    ensures var log, after := p.log, Get(p, key).0.log;
            && Count(after, other) == Count(log, other) + (if other == key && key in p.cache then 1 else 0)
            && (key in p.cache ==> LastAccess(after, key) == |after| - 1)
            && (other != key || key !in p.cache ==> LastAccess(after, other) == LastAccess(log, other))
  {
    LogStep(p.log, Accessed(key), other);
    assert (p.log + [Accessed(key)])[..|p.log|] == p.log;
  }

  /**
   * A put takes a key away only when the cache is full and the key is new, and then one key: the
   * one accessed least since it came in, among equals the one not accessed for longest.
   */
  lemma PutReplaces<V>(p: Plain<V>, key: string, value: V)
    requires WellLogged(p) && !Leaks(p, key)
    ensures var before, after := p.cache.Keys, Put(p, key, value).cache.Keys;
            && Put(p, key, value).cache[key] == value
            && (forall k :: k in after && k != key ==> k in before && Put(p, key, value).cache[k] == p.cache[k])
            && (key in before || |p.cache| < p.capacity || before == {} ==> after == before + {key})
            && (key !in before && |p.cache| >= p.capacity && before != {} ==>
                  exists victim :: IsLeastUsed(p.log, before, victim) && after == before - {victim} + {key})
  {
    if NeedsRoom(p, key) && p.cache.Keys != {} {
      var victim := Victim(p.log, p.cache.Keys);
      VictimIsLeastUsed(p.log, p.cache.Keys, victim);
      hide WellLogged;
      hide Victim;
      assert IsLeastUsed(p.log, p.cache.Keys, victim);
      VictimIsKey(p.log, p.cache.Keys, victim);
      hide IsVictim;
      hide IsLeastUsed;
    }
    hide WellLogged;
  }

  /** A put counts as the latest access to its key; what it takes away is counted afresh. */
  lemma PutIsCounted<V>(p: Plain<V>, key: string, value: V, other: string)
    requires WellLogged(p) && !Leaks(p, key)
    ensures var q := Put(p, key, value);
            && Count(q.log, key) == Count(p.log, key) + 1 && LastAccess(q.log, key) == |q.log| - 1
            && (other != key ==> Count(q.log, other) == if other in q.cache then Count(p.log, other) else 0)
  {
    var roomy := if NeedsRoom(p, key) then MakeRoom(p) else p;
    LogStep(roomy.log, Accessed(key), key);
    LogStep(roomy.log, Accessed(key), other);
    if NeedsRoom(p, key) && p.cache.Keys != {} {
      var victim := Victim(p.log, p.cache.Keys);
      VictimIsKey(p.log, p.cache.Keys, victim);
      LogStep(p.log, Evicted(victim), key);
      LogStep(p.log, Evicted(victim), other);
      hide IsVictim;
    }
    hide Victim;
    hide Count;
    assert Put(p, key, value).log == roomy.log + [Accessed(key)];
  }

  lemma AfterKeepsNonEmpty<V>(p: Plain<V>, op: Op<V>)
    requires WellLogged(p) && "" !in p.cache && (op.PutOp? ==> op.key != "")
    ensures op.PutOp? ==> !Leaks(p, op.key)
    ensures "" !in After(p, op).cache
  {
    if p.cache.Keys != {} {
      VictimIsKey(p.log, p.cache.Keys, Victim(p.log, p.cache.Keys));
    }
    hide IsVictim;
    hide Victim;
  }

  /** Any run that never puts the empty string is such a run. */
  lemma {:induction false} NonEmptyKeysUsable<V>(p: Plain<V>, ops: seq<Op<V>>)
    requires WellLogged(p) && "" !in p.cache
    requires forall i :: 0 <= i < |ops| && ops[i].PutOp? ==> ops[i].key != ""
    ensures Usable(p, ops)
    decreases |ops|
  {
    hide WellLogged;
    hide Leaks;
    if ops != [] {
      AfterKeepsNonEmpty(p, ops[0]);
      AfterWellLogged(p, ops[0]);
      hide After;
      NonEmptyKeysUsable(After(p, ops[0]), ops[1..]);
    }
  }

  /** The leak happens: in a cache of one, the empty string is forgotten by the counts but not by the cache. */
  lemma EmptyKeyLeaks<V>(key: string, a: V, b: V)
    requires key != ""
    ensures var one := Put(Start(1), "", a);
            WellLogged(one) && Leaks(one, key) && Put(one, key, b).cache == map["" := a, key := b] &&
            !WellLogged(Put(one, key, b))
  {
    var start := Start<V>(1);
    AfterWellLogged(start, PutOp("", a));
    var one := Put(start, "", a);
    assert one.cache == map["" := a] && one.cache.Keys == {""};
    VictimIsKey(one.log, {""}, Victim(one.log, {""}));
    assert NeedsRoom(one, key);
    var two := Put(one, key, b);
    var roomy := MakeRoom(one);
    assert two.log == roomy.log + [Accessed(key)];
    LogStep(roomy.log, Accessed(key), "");
    LogStep(one.log, Evicted(""), "");
    assert "" in two.cache && !(Count(two.log, "") > 0);
  }
}
