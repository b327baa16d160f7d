/**
 * The in-memory storage backend: one table of values and two reverse indexes, against one
 * plain table keyed by id and version; and the version a registration assigns over it.
 */
module InMemoryStore {
  import opened Wrappers

  datatype StorageKey = StorageKey(id: string, version: Option<int>, alias: Option<string>)

  datatype Store<V> = Store(
    storage: map<StorageKey, V>,
    byId: map<(string, int), StorageKey>,
    byAlias: map<(string, int), StorageKey>)

  function Put<V>(s: Store<V>, key: StorageKey, value: V): Store<V> {
    var stored := s.storage[key := value];
    if key.version.None? then s.(storage := stored)
    else
      Store(stored,
            s.byId[(key.id, key.version.value) := key],
            if key.alias.Some? then s.byAlias[(key.alias.value, key.version.value) := key] else s.byAlias)
  }

  function Delete<V>(s: Store<V>, key: StorageKey): Store<V> {
    var stored := s.storage - {key};
    if key.version.None? then s.(storage := stored)
    else
      Store(stored,
            s.byId - {(key.id, key.version.value)},
            if key.alias.Some? then s.byAlias - {(key.alias.value, key.version.value)} else s.byAlias)
  }

  // ---- no index points at a missing key

  /** Every entry of the id index names a stored key that has the indexed id and version. */
  ghost predicate IdsNamed<V>(s: Store<V>) {
    forall p :: p in s.byId ==> s.byId[p] in s.storage && s.byId[p].id == p.0 && s.byId[p].version == Some(p.1)
  }

  ghost predicate AliasesNamed<V>(s: Store<V>) {
    forall p :: p in s.byAlias ==>
      s.byAlias[p] in s.storage && s.byAlias[p].alias == Some(p.0) && s.byAlias[p].version == Some(p.1)
  }

  ghost predicate NoDangling<V>(s: Store<V>) {
    IdsNamed(s) && AliasesNamed(s)
  }

  datatype Op<V> = PutOp(key: StorageKey, value: V) | DeleteOp(key: StorageKey)

  function Step<V>(s: Store<V>, op: Op<V>): Store<V> {
    match op
    case PutOp(key, value) => Put(s, key, value)
    case DeleteOp(key) => Delete(s, key)
  }

  function Run<V>(s: Store<V>, ops: seq<Op<V>>): Store<V> {
    if ops == [] then s else Step(Run(s, ops[..|ops| - 1]), ops[|ops| - 1])
  }

  function Empty<V>(): Store<V> {
    Store(map[], map[], map[])
  }

  lemma StepIdsNamed<V>(s: Store<V>, op: Op<V>)
    requires IdsNamed(s)
    ensures IdsNamed(Step(s, op))
  {
  }

  lemma StepAliasesNamed<V>(s: Store<V>, op: Op<V>)
    requires AliasesNamed(s)
    ensures AliasesNamed(Step(s, op))
  {
  }

  /** Whatever keys are put and deleted, no reverse index ever points at a missing key. */
  lemma {:induction false} NeverDangling<V>(ops: seq<Op<V>>)
    ensures NoDangling(Run(Empty(), ops))
  {
    if ops != [] {
      NeverDangling(ops[..|ops| - 1]);
      StepIdsNamed(Run(Empty(), ops[..|ops| - 1]), ops[|ops| - 1]);
      StepAliasesNamed(Run(Empty(), ops[..|ops| - 1]), ops[|ops| - 1]);
      hide IdsNamed;
      hide AliasesNamed;
    }
  }

  // ---- one plain table, when the alias is the id

  /** The registries' own keys: a version, and the id as alias. */
  function Own(id: string, version: int): StorageKey {
    StorageKey(id, Some(version), Some(id))
  }

  predicate IsOwn(key: StorageKey) {
    key.version.Some? && key.alias == Some(key.id)
  }

  type Plain<V> = map<(string, int), V>

  /** Store and indexes say exactly what the plain table says. */
  ghost predicate Agrees<V>(s: Store<V>, plain: Plain<V>) {
    && (forall key :: key in s.storage ==> IsOwn(key))
    && (forall id, version ::
          var p := (id, version);
          && (p in plain <==> Own(id, version) in s.storage)
          && (p in plain <==> p in s.byId) && (p in plain <==> p in s.byAlias)
          && (p in plain ==> s.storage[Own(id, version)] == plain[p] &&
                             s.byId[p] == Own(id, version) && s.byAlias[p] == Own(id, version)))
  }

  function PlainStep<V>(plain: Plain<V>, op: Op<V>): Plain<V>
    requires IsOwn(op.key)
  {
    match op
    case PutOp(key, value) => plain[(key.id, key.version.value) := value]
    case DeleteOp(key) => plain - {(key.id, key.version.value)}
  }

  predicate OwnKeys<V>(ops: seq<Op<V>>) {
    forall i :: 0 <= i < |ops| ==> IsOwn(ops[i].key)
  }

  function PlainRun<V>(plain: Plain<V>, ops: seq<Op<V>>): Plain<V>
    requires OwnKeys(ops)
  {
    if ops == [] then plain else PlainStep(PlainRun(plain, ops[..|ops| - 1]), ops[|ops| - 1])
  }

  lemma StepAgrees<V>(s: Store<V>, plain: Plain<V>, op: Op<V>)
    requires Agrees(s, plain) && IsOwn(op.key)
    ensures Agrees(Step(s, op), PlainStep(plain, op))
  {
    var key := op.key;
    assert key == Own(key.id, key.version.value);
  }

  /** Under the registries' discipline, store and both indexes are one plain table over every run. */
  lemma {:induction false} IndexesAgree<V>(ops: seq<Op<V>>)
    requires OwnKeys(ops)
    ensures Agrees(Run(Empty(), ops), PlainRun(map[], ops))
  {
    if ops != [] {
      var before := ops[..|ops| - 1];
      IndexesAgree(before);
      StepAgrees(Run(Empty(), before), PlainRun(map[], before), ops[|ops| - 1]);
      hide Agrees;
    }
  }

  // ---- without the discipline: exactly when every entry can be reached

  /** Two keys that the id index cannot tell apart. */
  predicate SameIdEntry(k: StorageKey, key: StorageKey) {
    k != key && k.version.Some? && k.version == key.version && k.id == key.id
  }

  /** Two keys that the alias index cannot tell apart. */
  predicate SameAliasEntry(k: StorageKey, key: StorageKey) {
    k != key && k.version.Some? && k.version == key.version && k.alias.Some? && k.alias == key.alias
  }

  ghost predicate ReachableById<V>(s: Store<V>) {
    forall k :: k in s.storage && k.version.Some? ==>
      (k.id, k.version.value) in s.byId && s.byId[(k.id, k.version.value)] == k
  }

  ghost predicate ReachableByAlias<V>(s: Store<V>) {
    forall k :: k in s.storage && k.version.Some? && k.alias.Some? ==>
      (k.alias.value, k.version.value) in s.byAlias && s.byAlias[(k.alias.value, k.version.value)] == k
  }

  /** Every stored key with a version is found by its id, and by its alias if it has one. */
  ghost predicate Reachable<V>(s: Store<V>) {
    ReachableById(s) && ReachableByAlias(s)
  }

  ghost predicate SharesId<V>(s: Store<V>, key: StorageKey) {
    exists k :: k in s.storage && SameIdEntry(k, key)
  }

  ghost predicate SharesAlias<V>(s: Store<V>, key: StorageKey) {
    exists k :: k in s.storage && SameAliasEntry(k, key)
  }

  /** Another stored key has this key's version and its id or its alias. */
  ghost predicate Clashes<V>(s: Store<V>, key: StorageKey) {
    SharesId(s, key) || SharesAlias(s, key)
  }

  lemma StepReachableByIdIff<V>(s: Store<V>, op: Op<V>)
    requires ReachableById(s)
    ensures ReachableById(Step(s, op)) <==> !SharesId(s, op.key)
  {
    if k :| k in s.storage && SameIdEntry(k, op.key) {
      assert k in Step(s, op).storage;
      assert (k.id, k.version.value) == (op.key.id, op.key.version.value);
    }
  }

  lemma StepReachableByAliasIff<V>(s: Store<V>, op: Op<V>)
    requires ReachableByAlias(s)
    ensures ReachableByAlias(Step(s, op)) <==> !SharesAlias(s, op.key)
  {
    if k :| k in s.storage && SameAliasEntry(k, op.key) {
      assert k in Step(s, op).storage;
      assert (k.alias.value, k.version.value) == (op.key.alias.value, op.key.version.value);
    }
  }

  /** A put or delete leaves every entry reachable exactly when no other stored key shares an index entry with it. */
  lemma StepReachableIff<V>(s: Store<V>, op: Op<V>)
    requires Reachable(s)
    ensures Reachable(Step(s, op)) <==> !Clashes(s, op.key)
  {
    StepReachableByIdIff(s, op);
    StepReachableByAliasIff(s, op);
    hide ReachableById;
    hide ReachableByAlias;
    hide SharesId;
    hide SharesAlias;
  }

  ghost predicate NeverClashes<V>(ops: seq<Op<V>>) {
    forall n: nat :: n < |ops| ==> !Clashes(Run(Empty(), ops[..n]), ops[n].key)
  }

  ghost predicate AlwaysReachable<V>(ops: seq<Op<V>>) {
    forall n: nat :: n <= |ops| ==> Reachable(Run(Empty(), ops[..n]))
  }

  lemma RunSnoc<V>(ops: seq<Op<V>>, n: nat)
    requires n < |ops|
    ensures Run(Empty(), ops[..n + 1]) == Step(Run(Empty(), ops[..n]), ops[n])
  {
    assert ops[..n + 1][..n] == ops[..n];
  }

  lemma {:induction false} ReachableUpTo<V>(ops: seq<Op<V>>, n: nat)
    requires n <= |ops| && NeverClashes(ops)
    ensures Reachable(Run(Empty(), ops[..n]))
  {
    hide Clashes;
    hide Step;
    if n > 0 {
      ReachableUpTo(ops, n - 1);
      hide Reachable;
      RunSnoc(ops, n - 1);
      StepReachableIff(Run(Empty(), ops[..n - 1]), ops[n - 1]);
    }
  }

  /** Over a run from the empty store: every entry stays reachable exactly when no operation meets such a key. */
  lemma AlwaysReachableIff<V>(ops: seq<Op<V>>)
    ensures AlwaysReachable(ops) <==> NeverClashes(ops)
  {
    if NeverClashes(ops) {
      forall n: nat | n <= |ops|
        ensures Reachable(Run(Empty(), ops[..n]))
      {
        ReachableUpTo(ops, n);
      }
    } else {
      var n: nat :| n < |ops| && Clashes(Run(Empty(), ops[..n]), ops[n].key);
      RunSnoc(ops, n);
      if Reachable(Run(Empty(), ops[..n])) {
        StepReachableIff(Run(Empty(), ops[..n]), ops[n]);
      }
      hide Reachable;
      hide Clashes;
      hide Step;
    }
  }

  /** Such a key does occur: delete one of two keys that share id and version, and the other is lost. */
  lemma SharedIdLosesEntry<V>(id: string, version: int, x: Option<string>, y: Option<string>, a: V, b: V)
    requires x != y
    ensures var first, second := StorageKey(id, Some(version), x), StorageKey(id, Some(version), y);
            var s := Delete(Put(Put(Empty(), first, a), second, b), first);
            second in s.storage && (id, version) !in s.byId && !Reachable(s)
  {
    var first, second := StorageKey(id, Some(version), x), StorageKey(id, Some(version), y);
    var s := Delete(Put(Put(Empty(), first, a), second, b), first);
    assert second in s.storage && second.version.Some?;
  }

  // ---- lookups

  function VersionOrZero(key: StorageKey): int {
    if key.version.Some? then key.version.value else 0
  }

  /** The name a lookup goes by: the alias when one is given. */
  function Asked(key: StorageKey): string {
    if key.alias.Some? then key.alias.value else key.id
  }

  /** Whether a stored key bears the asked-for name, as alias or as id. */
  predicate Bears(key: StorageKey, name: string, byAlias: bool) {
    if byAlias then key.alias == Some(name) else key.id == name
  }

  /** `key` is, among `keys`, one that bears the name with the largest version; `None` if none does. */
  ghost predicate IsNewest(keys: set<StorageKey>, name: string, byAlias: bool, key: Option<StorageKey>) {
    match key
    case None => forall k :: k in keys ==> !Bears(k, name, byAlias)
    case Some(best) =>
      best in keys && Bears(best, name, byAlias) &&
      forall k :: k in keys && Bears(k, name, byAlias) ==> VersionOrZero(k) <= VersionOrZero(best)
  }

  /** What the plain table answers: the named version, or the largest one when no version is named. */
  ghost predicate Answers<V>(plain: Plain<V>, key: StorageKey, value: Option<V>) {
    var name := Asked(key);
    if key.version.Some? then
      value == if (name, key.version.value) in plain then Some(plain[(name, key.version.value)]) else None
    else if value.None? then
      forall p :: p in plain ==> p.0 != name
    else
      exists version ::
        (name, version) in plain && value == Some(plain[(name, version)]) &&
        forall p :: p in plain && p.0 == name ==> p.1 <= version
  }

  /** The next version of an id: one above the largest stored, 1 when there is none. */
  ghost predicate IsNext(stored: set<(string, int)>, id: string, next: int) {
    && (forall p :: p in stored && p.0 == id ==> p.1 < next)
    && ((next == 1 && forall p :: p in stored ==> p.0 != id) || (id, next - 1) in stored)
  }

  /** On an agreeing store the newest key by id or by alias is the plain table's largest version. */
  lemma NewestAnswers<V>(s: Store<V>, plain: Plain<V>, name: string, byAlias: bool, best: Option<StorageKey>)
    requires Agrees(s, plain) && IsNewest(s.storage.Keys, name, byAlias, best)
    ensures best.None? ==> forall p :: p in plain ==> p.0 != name
    ensures best.Some? ==>
              best.value == Own(name, VersionOrZero(best.value)) && (name, VersionOrZero(best.value)) in plain &&
              forall p :: p in plain && p.0 == name ==> p.1 <= VersionOrZero(best.value)
  {
    forall p | p in plain && p.0 == name
      ensures best.Some? && p.1 <= VersionOrZero(best.value)
    {
      assert p == (p.0, p.1) && Own(p.0, p.1) in s.storage;
      assert Bears(Own(p.0, p.1), name, byAlias);
      assert VersionOrZero(Own(p.0, p.1)) == p.1;
    }
    if best.Some? {
      assert IsOwn(best.value);
    }
  }

  /** A stored key that bears the asked-for name and version. */
  ghost predicate Matches<V>(s: Store<V>, key: StorageKey, k: StorageKey) {
    k in s.storage && Bears(k, Asked(key), key.alias.Some?) && k.version == key.version
  }

  /**
   * What a lookup finds in any store: without a version the newest key of the name, otherwise a
   * key of the name and version, which it misses only where entries are out of reach.
   */
  ghost predicate Finds<V>(s: Store<V>, key: StorageKey, value: Option<V>) {
    if key.version.None? then
      exists best ::
        IsNewest(s.storage.Keys, Asked(key), key.alias.Some?, best) &&
        (if best.Some? then best.value in s.storage && value == Some(s.storage[best.value]) else value == None)
    else if value.None? then
      Reachable(s) ==> forall k :: !Matches(s, key, k)
    else
      exists k :: Matches(s, key, k) && value == Some(s.storage[k])
  }

  /** The alias decides when one is given, the id otherwise; and the version when one is given. */
  predicate SameName(k: StorageKey, key: StorageKey) {
    && (if key.alias.Some? then k.alias == key.alias else k.id == key.id)
    && (key.version.Some? ==> k.version == key.version)
  }

  /**
   * A lookup answers the value of a stored key of the asked-for name, none of the same name being
   * newer when no version is asked for; it answers nothing only if there is none, or it is out of
   * reach.
   */
  lemma FoundIsNamed<V>(s: Store<V>, key: StorageKey, value: Option<V>)
    requires Finds(s, key, value)
    ensures value.Some? ==>
              exists k :: k in s.storage && SameName(k, key) && value == Some(s.storage[k]) &&
                          (key.version.None? ==>
                             forall other :: other in s.storage && SameName(other, key) && other.version.Some? ==>
                               other.version.value <= if k.version.Some? then k.version.value else 0)
    ensures value.None? && (key.version.None? || Reachable(s)) ==> forall k :: k in s.storage ==> !SameName(k, key)
  {
    hide Reachable;
    forall k
      ensures SameName(k, key) <==>
              Bears(k, Asked(key), key.alias.Some?) && (key.version.Some? ==> k.version == key.version)
    {
    }
    if key.version.None? {
      var best :| IsNewest(s.storage.Keys, Asked(key), key.alias.Some?, best) &&
                  (if best.Some? then best.value in s.storage && value == Some(s.storage[best.value]) else value == None);
      if best.Some? {
        forall other | other in s.storage && SameName(other, key) && other.version.Some?
          ensures other.version.value <= VersionOrZero(best.value)
        {
          assert Bears(other, Asked(key), key.alias.Some?);
        }
      }
    } else if value.None? && Reachable(s) {
      assert forall k :: !Matches(s, key, k);
      forall k | k in s.storage
        ensures !SameName(k, key)
      {
        assert !Matches(s, key, k);
      }
    } else if value.Some? {
      var k :| Matches(s, key, k) && value == Some(s.storage[k]);
      assert SameName(k, key);
    }
  }

  class Backend<V> {
    var storage: map<StorageKey, V>
    var byId: map<(string, int), StorageKey>
    var byAlias: map<(string, int), StorageKey>

    ghost function View(): Store<V>
      reads this
    {
      Store(storage, byId, byAlias)
    }

    constructor ()
      ensures View() == Empty() && NoDangling(View()) && Agrees(View(), map[])
    {
      storage, byId, byAlias := map[], map[], map[];
    }

    method PutValue(key: StorageKey, value: V)
      modifies this
      ensures View() == Put(old(View()), key, value)
    {
      storage := storage[key := value];
      if key.version.Some? {
        byId := byId[(key.id, key.version.value) := key];
        if key.alias.Some? {
          byAlias := byAlias[(key.alias.value, key.version.value) := key];
        }
      }
    }

    method DeleteValue(key: StorageKey)
      modifies this
      ensures View() == Delete(old(View()), key)
    {
      storage := storage - {key};
      if key.version.Some? {
        byId := byId - {(key.id, key.version.value)};
        if key.alias.Some? {
          byAlias := byAlias - {(key.alias.value, key.version.value)};
        }
      }
    }

    /** The stored key of largest version that bears a name, by scanning. */
    method Newest(name: string, asAlias: bool) returns (best: Option<StorageKey>)
      ensures IsNewest(storage.Keys, name, asAlias, best)
    {
      var todo := storage.Keys;
      best := None;
      while todo != {}
        invariant todo <= storage.Keys
        invariant IsNewest(storage.Keys - todo, name, asAlias, best)
        decreases todo
      {
        var k :| k in todo;
        todo := todo - {k};
        if Bears(k, name, asAlias) && (best.None? || VersionOrZero(k) > VersionOrZero(best.value)) {
          best := Some(k);
        }
      }
    }

    /**
     * Looks up by whichever parts of the key are given: through an index when there is a
     * version (`NoDangling` is what makes the second lookup safe), by scanning otherwise.
     * Every path answers as the plain table does, if there is one.
     */
    method Get(key: StorageKey, ghost plain: Plain<V>) returns (value: Option<V>)
      requires NoDangling(View())
      ensures Finds(View(), key, value)
      ensures Agrees(View(), plain) ==> Answers(plain, key, value)
    {
      if key.version.Some? {
        var index := if key.alias.Some? then byAlias else byId;
        var entry := (Asked(key), key.version.value);
        value := if entry in index then Some(storage[index[entry]]) else None;
        assert entry in index ==> Matches(View(), key, index[entry]);
        assert Agrees(View(), plain) ==> (entry in plain <==> Own(entry.0, entry.1) in storage);
      } else {
        var best := Newest(Asked(key), key.alias.Some?);
        value := if best.Some? then Some(storage[best.value]) else None;
        if Agrees(View(), plain) {
          NewestAnswers(View(), plain, Asked(key), key.alias.Some?, best);
        }
      }
    }

    /** `FunctionRegistry.register`: one version above the largest stored, so nothing is overwritten. */
    method RegisterFunction(id: string, value: V, ghost plain: Plain<V>) returns (key: StorageKey)
      requires Agrees(View(), plain)
      modifies this
      ensures IsOwn(key) && key.id == id && key !in old(storage)
      ensures IsNext(plain.Keys, id, key.version.value)
      ensures Agrees(View(), plain[(id, key.version.value) := value])
    {
      var best := Newest(id, false);
      NewestAnswers(View(), plain, id, false, best);
      key := Own(id, (if best.Some? then VersionOrZero(best.value) else 0) + 1);
      assert (id, key.version.value) !in plain;
      StepAgrees(View(), plain, PutOp(key, value));
      hide Agrees;
      PutValue(key, value);
    }
  }

  // ---- do versions increment?

  datatype RegistryOp = Register(id: string, version: int) | Remove(id: string, version: int)

  /** The versions stored now and those ever assigned. */
  datatype Versions = Versions(stored: set<(string, int)>, issued: set<(string, int)>)

  ghost predicate RegistryStep(v: Versions, op: RegistryOp, w: Versions) {
    var entry := (op.id, op.version);
    match op
    case Register(id, version) => IsNext(v.stored, id, version) && w == Versions(v.stored + {entry}, v.issued + {entry})
    case Remove(_, _) => entry in v.stored && w == v.(stored := v.stored - {entry})
  }

  ghost predicate RegistryRun(ops: seq<RegistryOp>, states: seq<Versions>) {
    && |states| == |ops| + 1 && states[0] == Versions({}, {})
    && forall i :: 0 <= i < |ops| ==> RegistryStep(states[i], ops[i], states[i + 1])
  }

  /** The largest version ever assigned to this id, if there was one, is still stored. */
  ghost predicate LatestKept(v: Versions, id: string) {
    forall p :: p in v.issued && p.0 == id ==> exists q :: q in v.stored && q.0 == id && p.1 <= q.1
  }

  lemma {:induction false} StoredWereIssued(ops: seq<RegistryOp>, states: seq<Versions>)
    requires RegistryRun(ops, states)
    ensures states[|ops|].stored <= states[|ops|].issued
    ensures forall p :: p in states[|ops|].issued ==> p.1 >= 1
    decreases |ops|
  {
    if ops != [] {
      var n := |ops| - 1;
      assert RegistryRun(ops[..n], states[..n + 1]);
      StoredWereIssued(ops[..n], states[..n + 1]);
      assert RegistryStep(states[n], ops[n], states[n + 1]);
    }
  }

  /** A registration exceeds every version ever assigned exactly when the latest was not deleted. */
  lemma VersionsIncrementIff(ops: seq<RegistryOp>, states: seq<Versions>, id: string, next: int)
    requires RegistryRun(ops, states) && IsNext(states[|ops|].stored, id, next)
    ensures (forall p :: p in states[|ops|].issued && p.0 == id ==> p.1 < next) <==> LatestKept(states[|ops|], id)
  {
    var v := states[|ops|];
    StoredWereIssued(ops, states);
    if forall p :: p in v.issued && p.0 == id ==> p.1 < next {
      forall p | p in v.issued && p.0 == id
        ensures exists q :: q in v.stored && q.0 == id && p.1 <= q.1
      {
        assert p.1 < next;
        assert (id, next - 1) in v.stored;
      }
    }
  }

  /** Delete the latest version and register again: its number is assigned a second time. */
  lemma DeletedVersionIsReassigned()
    ensures exists ops, states ::
              RegistryRun(ops, states) && |ops| == 3 && ops[0] == Register("f", 1) && ops[2] == Register("f", 1)
  {
    var e := ("f", 1);
    var ops := [Register("f", 1), Remove("f", 1), Register("f", 1)];
    var states := [Versions({}, {}), Versions({e}, {e}), Versions({}, {e}), Versions({e}, {e})];
    assert RegistryRun(ops, states);
  }
}
