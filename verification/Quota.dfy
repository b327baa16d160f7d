/** Bucket quotas: what a namespaced registration is checked against, and what that guarantees. */
module Quota {
  import opened Wrappers
  import DataRegistry

  type DataKey = DataRegistry.DataKey

  datatype Error = AlreadyExists | BucketNotFound | QuotaExceeded | UnknownKind | NotRegistered

  /** The kinds of data there is storage for, declared quotas, and the registered size of every record. */
  datatype Store = Store(kinds: set<string>, buckets: map<string, int>, catalog: map<DataKey, int>)

  // ---- names

  /** `name.split("/", 1)[0]`. */
  function BucketOf(name: string): (b: string)
    ensures '/' !in b
  {
    if name == [] || name[0] == '/' then [] else [name[0]] + BucketOf(name[1..])
  }

  predicate InBucket(key: DataKey, bucket: string) {
    bucket + "/" <= key.name
  }

  /** For a bucket name without slashes, the prefix test and the split agree. */
  lemma {:induction false} PrefixIsBucket(name: string, bucket: string)
    requires '/' !in bucket
    ensures bucket + "/" <= name <==> '/' in name && BucketOf(name) == bucket
    decreases |name|
  {
    if name == [] {
    } else if bucket == [] {
      assert bucket + "/" == "/";
      assert "/" <= name <==> name[0] == '/';
      assert BucketOf(name) == [] <==> name[0] == '/';
    } else if name[0] == bucket[0] {
      PrefixIsBucket(name[1..], bucket[1..]);
      assert bucket + "/" == [bucket[0]] + (bucket[1..] + "/");
      assert name == [name[0]] + name[1..];
      assert bucket == [bucket[0]] + bucket[1..];
      if '/' in name[1..] {
        assert BucketOf(name) == [name[0]] + BucketOf(name[1..]);
      }
    } else {
      assert (bucket + "/")[0] == bucket[0];
    }
  }

  // ---- summing

  /** The sum of a finite table of sizes. */
  ghost function Total(m: map<DataKey, int>): int
    decreases m.Keys
  {
    if m.Keys == {} then 0
    else
      var k :| k in m.Keys;
      m[k] + Total(m - {k})
  }

  /** It does not matter in which order a table is summed. */
  lemma {:induction false} TotalTakes(m: map<DataKey, int>, key: DataKey)
    requires key in m
    ensures Total(m) == m[key] + Total(m - {key})
    decreases m.Keys
  {
    var k :| k in m.Keys && Total(m) == m[k] + Total(m - {k});
    if k != key {
      TotalTakes(m - {k}, key);
      assert m - {k} - {key} == m - {key} - {k};
      TotalTakes(m - {key}, k);
    }
  }

  function Within(catalog: map<DataKey, int>, bucket: string): map<DataKey, int> {
    map k | k in catalog && InBucket(k, bucket) :: catalog[k]
  }

  /** The summed size of a bucket's records. */
  ghost function Used(catalog: map<DataKey, int>, bucket: string): int {
    Total(Within(catalog, bucket))
  }

  /** Sums one record at a time, over whatever order the catalog is listed in. */
  method SumUsed(catalog: map<DataKey, int>, bucket: string) returns (used: int)
    ensures used == Used(catalog, bucket)
  {
    hide InBucket;
    used := 0;
    var todo := catalog;
    while todo.Keys != {}
      invariant todo.Keys <= catalog.Keys && forall k :: k in todo ==> todo[k] == catalog[k]
      invariant used + Used(todo, bucket) == Used(catalog, bucket)
      decreases todo.Keys
    {
      var k :| k in todo.Keys;
      ghost var before := todo;
      todo := todo - {k};
      if InBucket(k, bucket) {
        TotalTakes(Within(before, bucket), k);
        assert Within(before, bucket) - {k} == Within(todo, bucket);
        used := used + catalog[k];
      } else {
        assert Within(before, bucket) == Within(todo, bucket);
      }
    }
    assert Within(todo, bucket) == map[];
  }

  // ---- operations

  function RegisterBucket(s: Store, name: string, quota: int): (Store, Result<(), Error>) {
    if name in s.buckets then (s, Err(AlreadyExists)) else (s.(buckets := s.buckets[name := quota]), Ok(()))
  }

  ghost function CheckQuota(s: Store, name: string, size: int): Result<(), Error> {
    var bucket := BucketOf(name);
    if bucket !in s.buckets then Err(BucketNotFound)
    else if Used(s.catalog, bucket) + size > s.buckets[bucket] then Err(QuotaExceeded)
    else Ok(())
  }

  /** A namespaced registration is checked against its bucket before the registry looks at its kind. */
  ghost function RegisterData(s: Store, key: DataKey, kind: string, size: int): (Store, Result<(), Error>) {
    if '/' in key.name && CheckQuota(s, key.name, size).Err? then (s, CheckQuota(s, key.name, size))
    else if kind !in s.kinds then (s, Err(UnknownKind))
    else (s.(catalog := s.catalog[key := size]), Ok(()))
  }

  /** Finalized streams, job results and replicated records are cataloged and ask about no quota. */
  function Catalog(s: Store, key: DataKey, size: int): Store {
    s.(catalog := s.catalog[key := size])
  }

  /** A replicated bucket is written whether or not one was declared. */
  function ReplaceQuota(s: Store, name: string, quota: int): Store {
    s.(buckets := s.buckets[name := quota])
  }

  function DeleteData(s: Store, key: DataKey): (Store, Result<(), Error>) {
    if key !in s.catalog then (s, Err(NotRegistered)) else (s.(catalog := s.catalog - {key}), Ok(()))
  }

  class RegisterHandler {
    const kinds: set<string>
    var buckets: map<string, int>
    var catalog: map<DataKey, int>

    ghost function View(): Store
      reads this
    {
      Store(kinds, buckets, catalog)
    }

    constructor (kinds: set<string>)
      ensures View() == Empty(kinds)
    {
      this.kinds := kinds;
      buckets, catalog := map[], map[];
    }

    method AddBucket(name: string, quota: int) returns (r: Result<(), Error>)
      modifies this`buckets
      ensures (View(), r) == RegisterBucket(old(View()), name, quota)
    {
      if name in buckets {
        return Err(AlreadyExists);
      }
      buckets := buckets[name := quota];
      return Ok(());
    }

    method AddData(key: DataKey, kind: string, size: int) returns (r: Result<(), Error>)
      modifies this`catalog
      ensures (View(), r) == RegisterData(old(View()), key, kind, size)
    {
      if '/' in key.name {
        var bucket := BucketOf(key.name);
        if bucket !in buckets {
          return Err(BucketNotFound);
        }
        var used := SumUsed(catalog, bucket);
        if used + size > buckets[bucket] {
          return Err(QuotaExceeded);
        }
      }
      if kind !in kinds {
        return Err(UnknownKind);
      }
      catalog := catalog[key := size];
      return Ok(());
    }

    method AddUnchecked(key: DataKey, size: int)
      modifies this`catalog
      ensures View() == Catalog(old(View()), key, size)
    {
      catalog := catalog[key := size];
    }

    method ApplyBucket(name: string, quota: int)
      modifies this`buckets
      ensures View() == ReplaceQuota(old(View()), name, quota)
    {
      buckets := buckets[name := quota];
    }

    method RemoveData(key: DataKey) returns (r: Result<(), Error>)
      modifies this`catalog
      ensures (View(), r) == DeleteData(old(View()), key)
    {
      if key !in catalog {
        return Err(NotRegistered);
      }
      catalog := catalog - {key};
      return Ok(());
    }
  }

  // ---- runs

  datatype Op =
    | BucketOp(name: string, quota: int)
    | DataOp(key: DataKey, kind: string, size: int)
    | UncheckedOp(key: DataKey, written: int)
    | QuotaOp(name: string, quota: int)
    | DeleteOp(key: DataKey)

  ghost function Step(s: Store, op: Op): Store {
    match op
    case BucketOp(name, quota) => RegisterBucket(s, name, quota).0
    case DataOp(key, kind, size) => RegisterData(s, key, kind, size).0
    case UncheckedOp(key, written) => Catalog(s, key, written)
    case QuotaOp(name, quota) => ReplaceQuota(s, name, quota)
    case DeleteOp(key) => DeleteData(s, key).0
  }

  ghost function Run(s: Store, ops: seq<Op>): Store
    decreases |ops|
  {
    if ops == [] then s else Run(Step(s, ops[0]), ops[1..])
  }

  function Empty(kinds: set<string>): Store {
    Store(kinds, map[], map[])
  }

  /**
   * What a run may do to one bucket: the least size registered in it, the least quota declared for
   * it, whether anything is written into it unchecked, and whether its quota is replaced.
   */
  datatype Terms = Terms(leastSize: int, leastQuota: int, unchecked: bool, replaced: bool)

  predicate Admitted(op: Op, bucket: string, t: Terms) {
    match op
    case BucketOp(name, quota) => name == bucket ==> quota >= t.leastQuota
    case DataOp(key, _, size) => InBucket(key, bucket) ==> size >= t.leastSize
    case UncheckedOp(key, _) => InBucket(key, bucket) ==> t.unchecked
    case QuotaOp(name, _) => name == bucket ==> t.replaced
    case DeleteOp(_) => true
  }

  predicate AllAdmitted(ops: seq<Op>, bucket: string, t: Terms) {
    forall i :: 0 <= i < |ops| ==> Admitted(ops[i], bucket, t)
  }

  /** No negative size or quota, nothing unchecked, and the quota stays. */
  predicate Sound(t: Terms) {
    t.leastSize >= 0 && t.leastQuota >= 0 && !t.unchecked && !t.replaced
  }

  ghost predicate WithinQuota(s: Store, bucket: string) {
    bucket in s.buckets ==> Used(s.catalog, bucket) <= s.buckets[bucket]
  }

  // ---- quota safety of one bucket

  ghost predicate Sizes(catalog: map<DataKey, int>, bucket: string) {
    forall k :: k in catalog && InBucket(k, bucket) ==> catalog[k] >= 0
  }

  /** One bucket is within its quota, and before it is declared nothing is filed under it. */
  ghost predicate Inv(s: Store, bucket: string) {
    && Sizes(s.catalog, bucket)
    && WithinQuota(s, bucket)
    && (bucket !in s.buckets ==> forall k :: k in s.catalog ==> !InBucket(k, bucket))
  }

  lemma UsedAfterPut(catalog: map<DataKey, int>, bucket: string, key: DataKey, size: int)
    ensures Used(catalog[key := size], bucket) ==
            if InBucket(key, bucket) then Used(catalog - {key}, bucket) + size else Used(catalog, bucket)
  {
    hide InBucket;
    var after := Within(catalog[key := size], bucket);
    if InBucket(key, bucket) {
      TotalTakes(after, key);
      assert after - {key} == Within(catalog - {key}, bucket);
    } else {
      assert after == Within(catalog, bucket);
    }
  }

  lemma UsedAfterDelete(catalog: map<DataKey, int>, bucket: string, key: DataKey)
    ensures Used(catalog - {key}, bucket) ==
            Used(catalog, bucket) - (if key in catalog && InBucket(key, bucket) then catalog[key] else 0)
  {
    hide InBucket;
    var before, after := Within(catalog, bucket), Within(catalog - {key}, bucket);
    assert after == before - {key};
    if key in before {
      TotalTakes(before, key);
    } else {
      assert before - {key} == before;
    }
  }

  lemma NothingUsed(catalog: map<DataKey, int>, bucket: string)
    requires forall k :: k in catalog ==> !InBucket(k, bucket)
    ensures Used(catalog, bucket) == 0
  {
    hide InBucket;
    assert Within(catalog, bucket) == map[];
  }

  // ---- what the operations promise

  /**
   * A namespaced registration is admitted exactly when its bucket is declared and has room for the
   * size beside all that is registered, an older record of the same key included; what is then used
   * counts that record no more. A refusal changes nothing.
   */
  lemma RegistrationIs(s: Store, key: DataKey, kind: string, size: int)
    ensures var (s', r) := RegisterData(s, key, kind, size);
            var namespaced, bucket := '/' in key.name, BucketOf(key.name);
            && (r == Err(BucketNotFound) <==> namespaced && bucket !in s.buckets)
            && (r == Err(QuotaExceeded) <==>
                  namespaced && bucket in s.buckets && Used(s.catalog, bucket) + size > s.buckets[bucket])
            && (r == Err(UnknownKind) <==> kind !in s.kinds && r != Err(BucketNotFound) && r != Err(QuotaExceeded))
            && (r.Err? ==> s' == s && (r.error == BucketNotFound || r.error == QuotaExceeded || r.error == UnknownKind))
            && (r.Ok? ==> s' == s.(catalog := s.catalog[key := size]))
            && (r.Ok? && namespaced ==>
                  Used(s'.catalog, bucket) ==
                  Used(s.catalog, bucket) + size - (if key in s.catalog then s.catalog[key] else 0))
  {
    var bucket := BucketOf(key.name);
    PrefixIsBucket(key.name, bucket);
    UsedAfterPut(s.catalog, bucket, key, size);
    UsedAfterDelete(s.catalog, bucket, key);
    hide Used;
    hide BucketOf;
    hide InBucket;
  }

  /** A bucket is declared once: what was declared first stays, and no other bucket is touched. */
  lemma DeclaredOnce(s: Store, name: string, quota: int, again: int)
    ensures var (s', r) := RegisterBucket(s, name, quota);
            && (r.Ok? <==> name !in s.buckets) && (r.Err? ==> s' == s && r.error == AlreadyExists)
            && name in s'.buckets && (r.Ok? ==> s'.buckets[name] == quota)
            && (forall b :: b in s.buckets ==> b in s'.buckets && s'.buckets[b] == s.buckets[b])
            && s' == s.(buckets := s'.buckets)
            && RegisterBucket(s', name, again) == (s', Err(AlreadyExists))
  {
  }

  /** A deletion takes one record off what its bucket uses, once. */
  lemma DeletionIs(s: Store, key: DataKey, bucket: string)
    ensures var (s', r) := DeleteData(s, key);
            && (r.Ok? <==> key in s.catalog) && s' == s.(catalog := s'.catalog) && s'.catalog.Keys == s.catalog.Keys - {key}
            && Used(s'.catalog, bucket) ==
               Used(s.catalog, bucket) - (if key in s.catalog && InBucket(key, bucket) then s.catalog[key] else 0)
            && DeleteData(s', key) == (s', Err(NotRegistered))
  {
    UsedAfterDelete(s.catalog, bucket, key);
    hide Used;
    hide InBucket;
  }

  lemma StepKeepsInv(s: Store, bucket: string, op: Op, t: Terms)
    requires Inv(s, bucket) && '/' !in bucket && Admitted(op, bucket, t) && Sound(t)
    ensures Inv(Step(s, op), bucket)
  {
    match op
    case BucketOp(name, quota) =>
      if name == bucket && name !in s.buckets {
        NothingUsed(s.catalog, bucket);
      }
      hide Used;
      hide InBucket;
    case DataOp(key, kind, size) =>
      PrefixIsBucket(key.name, bucket);
      UsedAfterPut(s.catalog, bucket, key, size);
      UsedAfterDelete(s.catalog, bucket, key);
      hide Used;
      hide BucketOf;
    case UncheckedOp(key, written) =>
      UsedAfterPut(s.catalog, bucket, key, written);
      hide Used;
      hide InBucket;
    case QuotaOp(name, quota) =>
      hide Used;
      hide InBucket;
    case DeleteOp(key) =>
      UsedAfterDelete(s.catalog, bucket, key);
      hide Used;
      hide InBucket;
  }

  lemma {:induction false} RunKeepsInv(s: Store, bucket: string, ops: seq<Op>, t: Terms)
    requires Inv(s, bucket) && '/' !in bucket && AllAdmitted(ops, bucket, t) && Sound(t)
    ensures Inv(Run(s, ops), bucket)
    decreases |ops|
  {
    hide Inv;
    hide Step;
    hide Admitted;
    if ops != [] {
      StepKeepsInv(s, bucket, ops[0], t);
      RunKeepsInv(Step(s, ops[0]), bucket, ops[1..], t);
    }
  }

  /** A bucket without a slash in its name keeps its quota, whatever the other buckets are called. */
  lemma QuotaIsSafe(kinds: set<string>, bucket: string, t: Terms, ops: seq<Op>)
    requires '/' !in bucket && Sound(t) && AllAdmitted(ops, bucket, t)
    ensures WithinQuota(Run(Empty(kinds), ops), bucket)
  {
    RunKeepsInv(Empty(kinds), bucket, ops, t);
    hide Run;
  }

  // ---- and only then: a failing run for each condition

  lemma RunOne(s: Store, op: Op, rest: seq<Op>)
    ensures Run(s, [op] + rest) == Run(Step(s, op), rest)
  {
    assert ([op] + rest)[1..] == rest;
    hide Step;
  }

  lemma {:induction false} RunFour(s: Store, a: Op, b: Op, c: Op, d: Op)
    ensures Run(s, [a, b, c, d]) == Step(Step(Step(Step(s, a), b), c), d)
  {
    assert [a, b, c, d] == [a] + ([b] + ([c] + ([d] + [])));
    RunOne(s, a, [b] + ([c] + ([d] + [])));
    RunOne(Step(s, a), b, [c] + ([d] + []));
    RunOne(Step(Step(s, a), b), c, [d] + []);
    RunOne(Step(Step(Step(s, a), b), c), d, []);
    hide Step;
  }

  function Named(bucket: string, rest: string): (key: DataKey)
    ensures InBucket(key, bucket)
  {
    DataRegistry.DataKey(bucket + "/" + rest, 1)
  }

  const NOBODY: DataKey := DataRegistry.DataKey("", 0)

  lemma OneRecord(key: DataKey, bucket: string, size: int)
    requires InBucket(key, bucket)
    ensures Used(map[key := size], bucket) == size
  {
    var none: map<DataKey, int> := map[];
    assert none[key := size] == map[key := size] && none - {key} == none;
    UsedAfterPut(none, bucket, key, size);
    NothingUsed(none, bucket);
    hide InBucket;
    hide Used;
  }

  lemma SlashedName(bucket: string)
    requires '/' in bucket
    ensures BucketOf(bucket) != bucket
    ensures '/' in Named(bucket, "x").name && BucketOf(Named(bucket, "x").name) == BucketOf(bucket)
  {
    var parent, name := BucketOf(bucket), Named(bucket, "x").name;
    PrefixIsBucket(bucket, parent);
    assert bucket <= name && parent + "/" <= name;
    PrefixIsBucket(name, parent);
    hide BucketOf;
  }

  /** A bucket whose name has a slash: its records are checked against the quota of the part before it. */
  lemma SlashedBucketIsUnchecked(kinds: set<string>, kind: string, bucket: string, q: nat)
    requires '/' in bucket && kind in kinds
    ensures var ops := [BucketOp(bucket, q), BucketOp(BucketOf(bucket), q + 1), DataOp(Named(bucket, "x"), kind, q + 1),
                        DeleteOp(NOBODY)];
            !WithinQuota(Run(Empty(kinds), ops), bucket)
  {
    hide BucketOf;
    hide InBucket;
    SlashedName(bucket);
    var parent, key := BucketOf(bucket), Named(bucket, "x");
    assert key != NOBODY;
    hide Named;
    var declared := Store(kinds, map[bucket := q, parent := q + 1], map[]);
    RunFour(Empty(kinds), BucketOp(bucket, q), BucketOp(parent, q + 1), DataOp(key, kind, q + 1), DeleteOp(NOBODY));
    assert Step(Step(Empty(kinds), BucketOp(bucket, q)), BucketOp(parent, q + 1)) == declared;
    NothingUsed(map[], parent);
    OneRecord(key, bucket, q + 1);
    hide Used;
  }

  /** A stream, a job result or a replicated record fills any bucket past its quota. */
  lemma UncheckedWriteBreaks(kinds: set<string>, bucket: string, q: nat)
    ensures var ops := [BucketOp(bucket, q), UncheckedOp(Named(bucket, "x"), q + 1), DeleteOp(NOBODY), DeleteOp(NOBODY)];
            !WithinQuota(Run(Empty(kinds), ops), bucket)
  {
    var key := Named(bucket, "x");
    hide InBucket;
    RunFour(Empty(kinds), BucketOp(bucket, q), UncheckedOp(key, q + 1), DeleteOp(NOBODY), DeleteOp(NOBODY));
    assert key != NOBODY;
    OneRecord(key, bucket, q + 1);
    hide Used;
  }

  /** A replicated quota below what is already registered. */
  lemma ReplacedQuotaBreaks(kinds: set<string>, kind: string, bucket: string, q: nat)
    requires '/' !in bucket && kind in kinds
    ensures var ops := [BucketOp(bucket, q), DataOp(Named(bucket, "x"), kind, q), QuotaOp(bucket, q - 1), DeleteOp(NOBODY)];
            !WithinQuota(Run(Empty(kinds), ops), bucket)
  {
    var key := Named(bucket, "x");
    PrefixIsBucket(key.name, bucket);
    hide BucketOf;
    hide InBucket;
    RunFour(Empty(kinds), BucketOp(bucket, q), DataOp(key, kind, q), QuotaOp(bucket, q - 1), DeleteOp(NOBODY));
    var declared := Store(kinds, map[bucket := q], map[]);
    assert Step(Empty(kinds), BucketOp(bucket, q)) == declared;
    NothingUsed(map[], bucket);
    assert Step(declared, DataOp(key, kind, q)) == declared.(catalog := map[key := q]);
    OneRecord(key, bucket, q);
    assert key != NOBODY;
    hide Used;
  }

  /** A quota below zero is exceeded by nothing at all. */
  lemma NegativeQuotaBreaks(kinds: set<string>, bucket: string)
    ensures !WithinQuota(Run(Empty(kinds), [BucketOp(bucket, -1)]), bucket)
  {
    RunOne(Empty(kinds), BucketOp(bucket, -1), []);
    assert [BucketOp(bucket, -1)] + [] == [BucketOp(bucket, -1)];
    NothingUsed(map[], bucket);
    hide Used;
  }

  /** A record of negative size makes room that its deletion takes back. */
  lemma NegativeSizeBreaks(kinds: set<string>, kind: string, bucket: string, q: nat)
    requires '/' !in bucket && kind in kinds
    ensures var ops := [BucketOp(bucket, q), DataOp(Named(bucket, "x"), kind, -1),
                        DataOp(Named(bucket, "yy"), kind, q + 1), DeleteOp(Named(bucket, "x"))];
            !WithinQuota(Run(Empty(kinds), ops), bucket)
  {
    var x, y := Named(bucket, "x"), Named(bucket, "yy");
    assert |x.name| != |y.name|;
    PrefixIsBucket(x.name, bucket);
    PrefixIsBucket(y.name, bucket);
    hide BucketOf;
    hide InBucket;
    var a, b := DataOp(x, kind, -1), DataOp(y, kind, q + 1);
    RunFour(Empty(kinds), BucketOp(bucket, q), a, b, DeleteOp(x));
    var declared := Store(kinds, map[bucket := q], map[]);
    assert Step(Empty(kinds), BucketOp(bucket, q)) == declared;
    NothingUsed(map[], bucket);
    OneRecord(x, bucket, -1);
    OneRecord(y, bucket, q + 1);
    assert Step(declared, a) == declared.(catalog := map[x := -1]);
    assert Step(Step(declared, a), b) == declared.(catalog := map[x := -1, y := q + 1]);
    assert map[x := -1, y := q + 1] - {x} == map[y := q + 1];
    hide Used;
  }

  /**
   * Exactly when a bucket's quota holds in every run: its name has no slash, no size registered in
   * it or quota declared for it is negative, nothing is written into it unchecked and its quota is
   * not replaced.
   */
  lemma QuotaHoldsIff(kinds: set<string>, kind: string, bucket: string, t: Terms)
    requires kind in kinds
    ensures (forall ops | AllAdmitted(ops, bucket, t) :: WithinQuota(Run(Empty(kinds), ops), bucket)) <==>
            '/' !in bucket && Sound(t)
  {
    hide Run;
    hide WithinQuota;
    var q := Max(0, Max(t.leastQuota, t.leastSize));
    if '/' !in bucket && Sound(t) {
      forall ops | AllAdmitted(ops, bucket, t)
        ensures WithinQuota(Run(Empty(kinds), ops), bucket)
      {
        QuotaIsSafe(kinds, bucket, t, ops);
      }
    } else if '/' in bucket {
      SlashedBucketIsUnchecked(kinds, kind, bucket, q);
    } else if t.leastQuota < 0 {
      NegativeQuotaBreaks(kinds, bucket);
      assert AllAdmitted([BucketOp(bucket, -1)], bucket, t);
    } else if t.leastSize < 0 {
      NegativeSizeBreaks(kinds, kind, bucket, q);
    } else if t.unchecked {
      UncheckedWriteBreaks(kinds, bucket, q);
    } else {
      ReplacedQuotaBreaks(kinds, kind, bucket, q);
    }
  }
}
