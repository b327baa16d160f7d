/** The LRU cache: what it keeps, and how caches of different capacities relate. */
module LruCache {
  import opened Wrappers
  import opened StringOrder

  datatype Lru<V> = Lru(capacity: int, cache: map<string, V>, order: seq<string>)

  datatype Op<V> = GetOp(key: string) | PutOp(key: string, value: V)

  function Empty<V>(capacity: int): Lru<V> {
    Lru(capacity, map[], [])
  }

  /** The sequence with every occurrence of one key taken out. */
  function Without(s: seq<string>, key: string): (r: seq<string>)
    ensures forall x :: x in r <==> x in s && x != key
    ensures |r| <= |s|
  {
    if s == [] then [] else (if s[0] == key then [] else [s[0]]) + Without(s[1..], key)
  }

  /** `OrderedDict.move_to_end`, or insertion at the end. */
  function Touch(order: seq<string>, key: string): seq<string> {
    Without(order, key) + [key]
  }

  function Get<V>(c: Lru<V>, key: string): (Lru<V>, Option<V>) {
    if key in c.cache then (c.(order := Touch(c.order, key)), Some(c.cache[key])) else (c, None)
  }

  predicate NeedsRoom<V>(c: Lru<V>, key: string) {
    key !in c.cache && |c.cache| >= c.capacity
  }

  /** Evicts the oldest key; an evicted empty string is falsy, so its value is not dropped. */
  function Evict<V>(c: Lru<V>): Lru<V>
    requires c.order != []
  {
    var oldest := c.order[0];
    Lru(c.capacity, if oldest != "" then c.cache - {oldest} else c.cache, c.order[1..])
  }

  function MakeRoom<V>(c: Lru<V>, key: string): (r: Lru<V>)
    ensures r.capacity == c.capacity
  {
    if NeedsRoom(c, key) && c.order != [] then Evict(c) else c
  }

  /** There is nothing to evict: the source raises before it changes anything. */
  predicate Stuck<V>(c: Lru<V>, key: string) {
    NeedsRoom(c, key) && c.order == []
  }

  function Insert<V>(c: Lru<V>, key: string, value: V): Lru<V> {
    c.(cache := c.cache[key := value], order := Touch(c.order, key))
  }

  function Put<V>(c: Lru<V>, key: string, value: V): Lru<V> {
    if Stuck(c, key) then c else Insert(MakeRoom(c, key), key, value)
  }

  // ---- cache and recency order stay in step

  function Elements(s: seq<string>): set<string> {
    set x | x in s
  }

  ghost predicate InStep<V>(c: Lru<V>) {
    Distinct(c.order) && c.cache.Keys == Elements(c.order)
  }

  ghost predicate Valid<V>(c: Lru<V>) {
    c.capacity >= 1 && InStep(c) && |c.order| <= c.capacity
  }

  /** The key that must go is the empty string. */
  predicate Leaks<V>(c: Lru<V>, key: string) {
    NeedsRoom(c, key) && c.order != [] && c.order[0] == ""
  }

  lemma {:induction false} DistinctSize(s: seq<string>)
    requires Distinct(s)
    ensures |Elements(s)| == |s|
  {
    if s != [] {
      DistinctSize(s[1..]);
      assert Elements(s) == Elements(s[1..]) + {s[0]};
    }
  }

  lemma {:induction false} WithoutDistinct(s: seq<string>, key: string)
    requires Distinct(s)
    ensures Distinct(Without(s, key))
    ensures |Without(s, key)| == if key in s then |s| - 1 else |s|
  {
    if s != [] {
      WithoutDistinct(s[1..], key);
      assert s[0] !in Without(s[1..], key);
    }
  }

  lemma TouchDistinct(s: seq<string>, key: string)
    requires Distinct(s)
    ensures Distinct(Touch(s, key)) && Elements(Touch(s, key)) == Elements(s) + {key}
    ensures |Touch(s, key)| == if key in s then |s| else |s| + 1
  {
    WithoutDistinct(s, key);
  }

  lemma InStepSize<V>(c: Lru<V>)
    requires InStep(c)
    ensures |c.cache| == |c.order|
  {
    DistinctSize(c.order);
  }

  lemma EvictInStep<V>(c: Lru<V>)
    requires InStep(c) && c.order != [] && c.order[0] != ""
    ensures InStep(Evict(c))
  {
    var rest := c.order[1..];
    assert c.order == [c.order[0]] + rest;
    assert c.order[0] !in rest;
    assert Elements(c.order) == Elements(rest) + {c.order[0]};
  }

  lemma GetValid<V>(c: Lru<V>, key: string)
    requires Valid(c)
    ensures Valid(Get(c, key).0)
  {
    TouchDistinct(c.order, key);
  }

  lemma InsertInStep<V>(c: Lru<V>, key: string, value: V)
    requires InStep(c)
    ensures InStep(Insert(c, key, value))
    ensures |Insert(c, key, value).order| == if key in c.cache then |c.order| else |c.order| + 1
  {
    TouchDistinct(c.order, key);
    hide Touch;
    hide Distinct;
  }

  lemma RoomInStep<V>(c: Lru<V>, key: string)
    requires Valid(c) && !Leaks(c, key)
    ensures !Stuck(c, key)
    ensures var r := MakeRoom(c, key);
            InStep(r) && (key in r.cache || |r.order| < r.capacity) && r.cache.Keys <= c.cache.Keys &&
            |r.order| <= r.capacity == c.capacity
  {
    InStepSize(c);
    if NeedsRoom(c, key) {
      assert c.order[0] in c.cache;
      EvictInStep(c);
    }
    hide Distinct;
  }

  /** Cache and order come apart exactly when the oldest key is the empty string and must go. */
  lemma EmptyKeyIsTheOnlyLeak<V>(c: Lru<V>, key: string, value: V)
    requires InStep(c)
    ensures InStep(Put(c, key, value)) <==> !Leaks(c, key)
  {
    if Leaks(c, key) {
      assert "" in c.order;
      assert "" in Put(c, key, value).cache;
      assert forall i :: 0 <= i < |c.order[1..]| ==> c.order[1..][i] == c.order[i + 1];
      assert "" !in c.order[1..];
      hide Distinct;
      assert "" !in Touch(c.order[1..], key);
      assert "" !in Elements(Put(c, key, value).order);
    } else if !Stuck(c, key) {
      if NeedsRoom(c, key) {
        EvictInStep(c);
      }
      InsertInStep(MakeRoom(c, key), key, value);
    }
  }

  /** So a put keeps a cache valid exactly when it does not evict the empty string. */
  lemma PutValidIff<V>(c: Lru<V>, key: string, value: V)
    requires Valid(c)
    ensures Valid(Put(c, key, value)) <==> !Leaks(c, key)
  {
    EmptyKeyIsTheOnlyLeak(c, key, value);
    if !Leaks(c, key) {
      RoomInStep(c, key);
      InsertInStep(MakeRoom(c, key), key, value);
    }
    hide InStep;
    hide MakeRoom;
    hide Touch;
  }

  /** And it does evict it: the second put into a cache of one leaves two values behind. */
  lemma EmptyKeyLeaks<V>(key: string, a: V, b: V)
    requires key != ""
    ensures var c := Put(Put(Empty(1), "", a), key, b);
            c.cache == map["" := a, key := b] && c.order == [key] && !InStep(c)
  {
    var one := Put<V>(Empty(1), "", a);
    assert one == Lru(1, map["" := a], [""]);
    assert |one.cache| == 1;
    assert [""][1..] == [];
    var c := Put(one, key, b);
    assert c == Lru(1, map["" := a, key := b], [key]);
    assert "" in c.cache && "" !in Elements(c.order);
  }

  // ---- the cache object

  class Cache<V> {
    const capacity: int
    var cache: map<string, V>
    var order: seq<string>

    ghost function View(): Lru<V>
      reads this
    {
      Lru(capacity, cache, order)
    }

    constructor (capacity: int)
      ensures View() == Empty(capacity) && (capacity >= 1 ==> Valid(View()))
    {
      this.capacity := capacity;
      cache, order := map[], [];
    }

    method Access(key: string)
      modifies this`order
      ensures order == Touch(old(order), key)
    {
      var i := |order|;
      var kept := [];
      while i > 0
        invariant 0 <= i <= |order|
        invariant kept == Without(order[i..], key)
      {
        i := i - 1;
        assert order[i..] == [order[i]] + order[i + 1..];
        if order[i] != key {
          kept := [order[i]] + kept;
        }
      }
      assert order[0..] == order;
      order := kept + [key];
    }

    method Lookup(key: string) returns (value: Option<V>)
      modifies this
      ensures (View(), value) == Get(old(View()), key)
      ensures old(Valid(View())) ==> Valid(View())
    {
      if Valid(View()) {
        GetValid(View(), key);
      }
      if key in cache {
        Access(key);
        value := Some(cache[key]);
      } else {
        value := None;
      }
    }

    /** Fails, changing nothing, only when room is needed and there is nothing to evict. */
    method Store(key: string, value: V) returns (ok: bool)
      modifies this
      ensures ok <==> !old(Stuck(View(), key))
      ensures View() == Put(old(View()), key, value)
      ensures old(Valid(View())) ==> (Valid(View()) <==> !old(Leaks(View(), key)))
    {
      if Valid(View()) {
        PutValidIff(View(), key, value);
      }
      hide Valid;
      if key !in cache && |cache| >= capacity {
        if order == [] {
          return false;
        }
        var oldest := order[0];
        order := order[1..];
        if oldest != "" {
          cache := cache - {oldest};
        }
      }
      cache := cache[key := value];
      Access(key);
      return true;
    }
  }

  // ---- runs

  function Step<V>(c: Lru<V>, op: Op<V>): Lru<V> {
    match op
    case GetOp(key) => Get(c, key).0
    case PutOp(key, value) => Put(c, key, value)
  }

  function Play<V>(c: Lru<V>, ops: seq<Op<V>>): Lru<V>
    decreases |ops|
  {
    if ops == [] then c else Play(Step(c, ops[0]), ops[1..])
  }

  /** No step of the run evicts the empty string. */
  predicate Usable<V>(c: Lru<V>, ops: seq<Op<V>>)
    decreases |ops|
  {
    ops == [] || ((ops[0].PutOp? ==> !Leaks(c, ops[0].key)) && Usable(Step(c, ops[0]), ops[1..]))
  }

  ghost function Run<V>(c: Lru<V>, ops: seq<Op<V>>): (r: Lru<V>)
    requires Valid(c) && Usable(c, ops)
    ensures Valid(r) && r.capacity == c.capacity && r == Play(c, ops)
    decreases |ops|
  {
    if ops == [] then c
    else
      StepValid(c, ops[0]);
      Run(Step(c, ops[0]), ops[1..])
  }

  lemma StepValid<V>(c: Lru<V>, op: Op<V>)
    requires Valid(c) && (op.PutOp? ==> !Leaks(c, op.key))
    ensures Valid(Step(c, op))
  {
    match op
    case GetOp(key) => GetValid(c, key);
    case PutOp(key, value) => PutValidIff(c, key, value);
  }

  /** Any run that never puts the empty string is such a run. */
  lemma {:induction false} NonEmptyKeysUsable<V>(c: Lru<V>, ops: seq<Op<V>>)
    requires Valid(c) && "" !in c.cache
    requires forall i :: 0 <= i < |ops| && ops[i].PutOp? ==> ops[i].key != ""
    ensures Usable(c, ops)
    decreases |ops|
  {
    if ops != [] {
      assert c.order != [] ==> c.order[0] in c.cache;
      StepValid(c, ops[0]);
      assert "" !in Step(c, ops[0]).cache;
      hide Valid;
      hide Step;
      NonEmptyKeysUsable(Step(c, ops[0]), ops[1..]);
    }
  }

  // ---- what the cache answers: the last value put

  /** A store that never forgets: every key with the last value put for it. */
  function Written<V>(store: map<string, V>, ops: seq<Op<V>>): map<string, V>
    decreases |ops|
  {
    if ops == [] then store
    else Written(if ops[0].PutOp? then store[ops[0].key := ops[0].value] else store, ops[1..])
  }

  lemma {:induction false} PlayHoldsLastPuts<V>(c: Lru<V>, store: map<string, V>, ops: seq<Op<V>>)
    requires forall k :: k in c.cache ==> k in store && c.cache[k] == store[k]
    ensures forall k :: k in Play(c, ops).cache ==>
              k in Written(store, ops) && Play(c, ops).cache[k] == Written(store, ops)[k]
    decreases |ops|
  {
    if ops != [] {
      hide Touch;
      PlayHoldsLastPuts(Step(c, ops[0]), if ops[0].PutOp? then store[ops[0].key := ops[0].value] else store, ops[1..]);
    }
  }

  /** After any run of any cache, a get hits exactly the keys held, and a hit answers the last value put. */
  lemma HitIsLastPut<V>(capacity: int, ops: seq<Op<V>>, key: string)
    ensures var c := Play(Empty(capacity), ops);
            var (c', answer) := Get(c, key);
            && (answer.Some? <==> key in c.cache) && c'.cache == c.cache
            && (answer.Some? ==> key in Written(map[], ops) && answer.value == Written(map[], ops)[key])
  {
    PlayHoldsLastPuts<V>(Empty(capacity), map[], ops);
    hide Touch;
  }

  // ---- what the cache keeps: the most recently used keys

  /** The keys a run uses: every put, and every get that hits. */
  ghost function Used<V>(c: Lru<V>, ops: seq<Op<V>>): seq<string>
    requires Valid(c) && Usable(c, ops)
    decreases |ops|
  {
    if ops == [] then []
    else
      StepValid(c, ops[0]);
      (if ops[0].PutOp? || ops[0].key in c.cache then [ops[0].key] else []) + Used(Step(c, ops[0]), ops[1..])
  }

  /** All keys ever used, the least recent first, starting from the history `seen`. */
  function Recency(seen: seq<string>, used: seq<string>): seq<string>
    decreases |used|
  {
    if used == [] then seen else Recency(Touch(seen, used[0]), used[1..])
  }

  /** `order` is the `capacity` most recent keys of the history, or all of them if there are fewer. */
  ghost predicate KeepsRecent(order: seq<string>, seen: seq<string>, capacity: nat) {
    && |order| == (if |seen| < capacity then |seen| else capacity)
    && order == seen[|seen| - |order|..]
  }

  lemma {:induction false} WithoutHead(x: string, s: seq<string>, key: string)
    ensures Without([x] + s, key) == (if x == key then [] else [x]) + Without(s, key)
  {
    assert ([x] + s)[1..] == s;
  }

  lemma {:induction false} WithoutConcat(a: seq<string>, b: seq<string>, key: string)
    ensures Without(a + b, key) == Without(a, key) + Without(b, key)
    decreases |a|
  {
    if a == [] {
      assert a + b == b;
    } else {
      WithoutConcat(a[1..], b, key);
      WithoutHead(a[0], a[1..], key);
      WithoutHead(a[0], a[1..] + b, key);
      hide Without;
      assert a == [a[0]] + a[1..] && a + b == [a[0]] + (a[1..] + b);
    }
  }

  lemma {:induction false} WithoutAbsent(s: seq<string>, key: string)
    requires key !in s
    ensures Without(s, key) == s
  {
    if s != [] {
      WithoutAbsent(s[1..], key);
    }
  }

  lemma TouchKept(older: seq<string>, order: seq<string>, key: string)
    requires key !in older
    ensures Touch(older + order, key) == older + Touch(order, key)
  {
    WithoutConcat(older, order, key);
    WithoutAbsent(older, key);
    hide Without;
  }

  lemma TouchNew(older: seq<string>, order: seq<string>, key: string)
    requires key !in order
    ensures Touch(older + order, key) == Without(older, key) + (order + [key])
    ensures Touch(order, key) == order + [key]
  {
    WithoutConcat(older, order, key);
    WithoutAbsent(order, key);
    hide Without;
  }

  lemma DistinctParts(a: seq<string>, b: seq<string>)
    requires Distinct(a + b)
    ensures Distinct(b) && forall x :: x in b ==> x !in a
  {
    var s := a + b;
    assert forall i :: 0 <= i < |a| ==> s[i] == a[i];
    assert forall i :: 0 <= i < |b| ==> s[|a| + i] == b[i];
  }

  lemma RecentParts(order: seq<string>, seen: seq<string>, capacity: nat) returns (older: seq<string>)
    requires KeepsRecent(order, seen, capacity)
    ensures seen == older + order && |order| <= capacity && (older == [] || |order| == capacity)
  {
    older := seen[..|seen| - |order|];
  }

  lemma PartsRecent(older: seq<string>, order: seq<string>, capacity: nat)
    requires |order| <= capacity && (older == [] || |order| == capacity)
    ensures KeepsRecent(order, older + order, capacity)
  {
  }

  lemma TouchRecent(order: seq<string>, seen: seq<string>, capacity: nat, key: string)
    requires KeepsRecent(order, seen, capacity) && Distinct(seen) && capacity >= 1
    ensures var roomy := if key !in order && |order| >= capacity then order[1..] else order;
            KeepsRecent(Touch(roomy, key), Touch(seen, key), capacity)
  {
    hide Distinct;
    hide Touch;
    hide KeepsRecent;
    var older := RecentParts(order, seen, capacity);
    DistinctParts(older, order);
    if key in order {
      TouchKept(older, order, key);
      TouchDistinct(order, key);
      PartsRecent(older, Touch(order, key), capacity);
    } else if |order| >= capacity {
      TouchNew(older, order, key);
      TouchNew([], order[1..], key);
      var rest := order[1..] + [key];
      assert Touch(seen, key) == (Without(older, key) + [order[0]]) + rest;
      PartsRecent(Without(older, key) + [order[0]], rest, capacity);
    } else {
      TouchNew(older, order, key);
      PartsRecent(Without(older, key), order + [key], capacity);
    }
  }

  lemma {:induction false} RunKeepsRecent<V>(c: Lru<V>, ops: seq<Op<V>>, seen: seq<string>)
    requires Valid(c) && Usable(c, ops) && Distinct(seen) && KeepsRecent(c.order, seen, c.capacity)
    ensures KeepsRecent(Run(c, ops).order, Recency(seen, Used(c, ops)), c.capacity)
    decreases |ops|
  {
    hide Distinct;
    hide KeepsRecent;
    hide Without;
    if ops != [] {
      var op := ops[0];
      StepValid(c, op);
      InStepSize(c);
      if op.PutOp? || op.key in c.cache {
        TouchRecent(c.order, seen, c.capacity, op.key);
        TouchDistinct(seen, op.key);
        RunKeepsRecent(Step(c, op), ops[1..], Touch(seen, op.key));
        var rest := Used(Step(c, op), ops[1..]);
        assert ([op.key] + rest)[1..] == rest;
      } else {
        RunKeepsRecent(Step(c, op), ops[1..], seen);
        var rest := Used(Step(c, op), ops[1..]);
        assert [] + rest == rest;
      }
    }
  }

  /** After any run the cache holds exactly the `capacity` most recently used keys, in order of use. */
  lemma CacheHoldsMostRecent<V>(capacity: int, ops: seq<Op<V>>)
    requires capacity >= 1 && Usable(Empty(capacity), ops)
    ensures KeepsRecent(Run(Empty(capacity), ops).order, Recency([], Used(Empty(capacity), ops)), capacity)
  {
    RunKeepsRecent<V>(Empty(capacity), ops, []);
  }

  // ---- inclusion

  predicate Subsequence(s: seq<string>, t: seq<string>)
    decreases |t|
  {
    s == [] || (t != [] && (if s[0] == t[0] then Subsequence(s[1..], t[1..]) else Subsequence(s, t[1..])))
  }

  ghost predicate Included<V>(small: Lru<V>, large: Lru<V>) {
    && small.capacity <= large.capacity
    && Subsequence(small.order, large.order)
    && Agrees(small, large)
    && (|small.order| < small.capacity ==> small.order == large.order)
    && ("" in large.order ==> "" in small.order)
  }

  lemma {:induction false} SubsequenceIn(s: seq<string>, t: seq<string>, x: string)
    requires Subsequence(s, t) && x in s
    ensures x in t
    decreases |t|
  {
    if s[0] == t[0] {
      if x != s[0] {
        SubsequenceIn(s[1..], t[1..], x);
      }
    } else {
      SubsequenceIn(s, t[1..], x);
    }
  }

  lemma {:induction false} SubsequenceDrop(s: seq<string>, t: seq<string>)
    requires s != [] && Subsequence(s, t)
    ensures Subsequence(s[1..], t)
    decreases |t|
  {
    if s[0] == t[0] {
      if |s| > 1 {
        if s[1..][0] == t[0] {
          SubsequenceDrop(s[1..], t[1..]);
        }
      }
    } else {
      SubsequenceDrop(s, t[1..]);
      if |s| > 1 && s[1..][0] == t[0] {
        SubsequenceDrop(s[1..], t[1..]);
      }
    }
  }

  lemma {:induction false} SubsequenceTouch(s: seq<string>, t: seq<string>, key: string)
    requires Subsequence(s, t)
    ensures Subsequence(Touch(s, key), Touch(t, key))
    decreases |t|
  {
    if t == [] {
    } else if s != [] && s[0] == t[0] {
      SubsequenceTouch(s[1..], t[1..], key);
      TouchHead(s, key);
      TouchHead(t, key);
    } else {
      SubsequenceTouch(s, t[1..], key);
      TouchHead(t, key);
      if t[0] != key {
        SubsequencePrepend(Touch(s, key), Touch(t[1..], key), t[0]);
      }
    }
  }

  lemma TouchHead(t: seq<string>, key: string)
    requires t != []
    ensures Touch(t, key) == (if t[0] == key then [] else [t[0]]) + Touch(t[1..], key)
    ensures t[0] != key ==> Touch(t, key)[1..] == Touch(t[1..], key)
    ensures t[0] == key ==> Touch(t, key) == Touch(t[1..], key)
  {
  }

  lemma SubsequencePrepend(s: seq<string>, t: seq<string>, x: string)
    requires Subsequence(s, t)
    ensures Subsequence(s, [x] + t)
  {
    assert ([x] + t)[1..] == t;
    if s != [] && s[0] == x {
      SubsequenceDrop(s, t);
    }
  }

  /** Touching a key the small cache does not hold: it is not in the small order, so nothing is lost. */
  lemma {:induction false} SubsequenceTouchAbsent(s: seq<string>, t: seq<string>, key: string)
    requires Subsequence(s, t) && key !in s
    ensures Subsequence(s, Touch(t, key))
  {
    SubsequenceTouch(s, t, key);
    WithoutAbsent(s, key);
    assert Touch(s, key) == s + [key];
    SubsequenceButLast(s, Touch(t, key), key);
  }

  lemma {:induction false} SubsequenceButLast(s: seq<string>, t: seq<string>, x: string)
    requires Subsequence(s + [x], t)
    ensures Subsequence(s, t)
    decreases |t|
  {
    if s != [] {
      assert (s + [x])[1..] == s[1..] + [x];
      if s[0] == t[0] {
        SubsequenceButLast(s[1..], t[1..], x);
      } else {
        SubsequenceButLast(s, t[1..], x);
      }
    }
  }

  lemma SubsequenceHead(s: seq<string>, t: seq<string>)
    requires Subsequence(s, t) && t != [] && Distinct(t)
    ensures Subsequence(if t[0] in s then s[1..] else s, t[1..])
    ensures t[0] in s ==> s[0] == t[0]
  {
    if s != [] && s[0] != t[0] && t[0] in s {
      SubsequenceIn(s, t[1..], t[0]);
    }
  }

  lemma IncludedGet<V>(small: Lru<V>, large: Lru<V>, key: string)
    requires Valid(small) && Valid(large) && Included(small, large)
    ensures Included(Get(small, key).0, Get(large, key).0)
    ensures key in small.cache ==> Get(large, key).1 == Get(small, key).1
  {
    if key in small.cache {
      SubsequenceTouch(small.order, large.order, key);
      TouchDistinct(small.order, key);
    } else if key in large.cache {
      SubsequenceTouchAbsent(small.order, large.order, key);
    }
    hide Touch;
    hide Subsequence;
  }

  ghost predicate Agrees<V>(small: Lru<V>, large: Lru<V>) {
    forall key :: key in small.cache ==> key in large.cache && small.cache[key] == large.cache[key]
  }

  /** Making room in both caches, or in one of them, keeps the small one included. */
  lemma IncludedRoom<V>(small: Lru<V>, large: Lru<V>, key: string)
    requires Valid(small) && Valid(large) && Included(small, large) && !Leaks(small, key)
    ensures !Stuck(small, key) && !Stuck(large, key) && !Leaks(large, key)
    ensures var s, l := MakeRoom(small, key), MakeRoom(large, key);
            Subsequence(s.order, l.order) && Agrees(s, l)
  {
    InStepSize(small);
    InStepSize(large);
    if NeedsRoom(large, key) {
      SubsequenceHead(small.order, large.order);
      assert NeedsRoom(small, key);
      if large.order[0] !in small.order {
        SubsequenceDrop(small.order, large.order[1..]);
      }
    } else if NeedsRoom(small, key) {
      SubsequenceDrop(small.order, large.order);
    }
    hide Subsequence;
  }

  /** A small cache that still has room after a put has never evicted anything, and neither has the large one. */
  lemma RoomLeft<V>(small: Lru<V>, large: Lru<V>, key: string, value: V)
    requires Valid(small) && Valid(large) && Included(small, large) && !Leaks(small, key)
    requires |Put(small, key, value).order| < small.capacity
    ensures MakeRoom(small, key) == small && MakeRoom(large, key) == large && small.order == large.order
  {
    InStepSize(small);
    InStepSize(large);
    RoomInStep(small, key);
    InsertInStep(MakeRoom(small, key), key, value);
    hide Touch;
    hide InStep;
    hide Subsequence;
  }

  /** The empty string stays in the small cache as long as it stays in the large one. */
  lemma EmptyKeyKept<V>(small: Lru<V>, large: Lru<V>, key: string, value: V)
    requires "" in large.order ==> "" in small.order
    requires !Stuck(small, key) && !Stuck(large, key) && !Leaks(small, key)
    ensures "" in Put(large, key, value).order ==> "" in Put(small, key, value).order
  {
    if NeedsRoom(small, key) && "" in small.order {
      var i :| 0 <= i < |small.order| && small.order[i] == "";
      assert small.order[1..][i - 1] == "";
    }
  }

  lemma IncludedPut<V>(small: Lru<V>, large: Lru<V>, key: string, value: V)
    requires Valid(small) && Valid(large) && Included(small, large) && !Leaks(small, key)
    ensures !Leaks(large, key) && Included(Put(small, key, value), Put(large, key, value))
  {
    hide Subsequence;
    hide Touch;
    hide InStep;
    hide MakeRoom;
    IncludedRoom(small, large, key);
    EmptyKeyKept(small, large, key, value);
    SubsequenceTouch(MakeRoom(small, key).order, MakeRoom(large, key).order, key);
    if |Put(small, key, value).order| < small.capacity {
      RoomLeft(small, large, key, value);
    }
  }

  /**
   * LRU inclusion: on any common trace, everything a small cache holds a larger one holds too,
   * with the same value and in the same order of use. If the small one never evicts the empty
   * string, neither does the large one.
   */
  lemma {:induction false} Inclusion<V>(small: Lru<V>, large: Lru<V>, ops: seq<Op<V>>)
    requires Valid(small) && Valid(large) && Included(small, large) && Usable(small, ops)
    ensures Usable(large, ops) && Included(Run(small, ops), Run(large, ops))
    decreases |ops|
  {
    hide Included;
    hide Valid;
    hide Leaks;
    if ops != [] {
      var op := ops[0];
      match op {
        case GetOp(key) => IncludedGet(small, large, key);
        case PutOp(key, value) => IncludedPut(small, large, key, value);
      }
      StepValid(small, op);
      StepValid(large, op);
      hide Step;
      Inclusion(Step(small, op), Step(large, op), ops[1..]);
    }
  }

  lemma InclusionFromEmpty<V>(c: int, d: int, ops: seq<Op<V>>)
    requires 1 <= c <= d && Usable(Empty(c), ops)
    ensures Usable(Empty(d), ops) && Included(Run(Empty(c), ops), Run(Empty(d), ops))
  {
    Inclusion<V>(Empty(c), Empty(d), ops);
  }
}
