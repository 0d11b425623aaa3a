/** Tenants of one shared store: whose keys an operation can reach. */
module CacheTenants {
  import opened TenantKeys
  import opened TimedCache
  import opened CacheRefinement

  function PrefixKeys(t: Tenant, keys: seq<string>): (r: seq<string>)
    ensures |r| == |keys| && forall i :: 0 <= i < |keys| ==> r[i] == PrefixKey(t, keys[i])
  {
    seq(|keys|, i requires 0 <= i < |keys| => PrefixKey(t, keys[i]))
  }

  function PrefixPairs(t: Tenant, pairs: seq<(string, string)>): (r: seq<(string, string)>)
    ensures |r| == |pairs| && forall i :: 0 <= i < |pairs| ==> r[i] == (PrefixKey(t, pairs[i].0), pairs[i].1)
  {
    seq(|pairs|, i requires 0 <= i < |pairs| => (PrefixKey(t, pairs[i].0), pairs[i].1))
  }

  /** The operation a tenant's client performs on the shared tables. */
  function ForTenant(t: Tenant, op: Op): Op {
    match op
    case Set(k, v, ttl) => Set(PrefixKey(t, k), v, ttl)
    case Get(k) => Get(PrefixKey(t, k))
    case Delete(k) => Delete(PrefixKey(t, k))
    case Exists(k) => Exists(PrefixKey(t, k))
    case Ttl(k) => Ttl(PrefixKey(t, k))
    case Expire(k, ttl) => Expire(PrefixKey(t, k), ttl)
    case Incr(k, amount) => Incr(PrefixKey(t, k), amount)
    case MSet(pairs) => MSet(PrefixPairs(t, pairs))
    case MGet(keys) => MGet(PrefixKeys(t, keys))
    case DeleteMany(keys) => DeleteMany(PrefixKeys(t, keys))
    case Flush(_) => Flush(Prefix(t))
    case FlushAll => FlushAll
    case HSet(k, f, v) => HSet(PrefixKey(t, k), f, v)
    case HGet(k, f) => HGet(PrefixKey(t, k), f)
    case HGetAll(k) => HGetAll(PrefixKey(t, k))
    case HDel(k, f) => HDel(PrefixKey(t, k), f)
    case LPush(k, vs) => LPush(PrefixKey(t, k), vs)
    case RPush(k, vs) => RPush(PrefixKey(t, k), vs)
    case LRange(k, start, end) => LRange(PrefixKey(t, k), start, end)
    case LLen(k) => LLen(PrefixKey(t, k))
    case Sweep => Sweep
  }

  /** The two caches hold the same under `k`. */
  predicate SameAt(c: Cache, d: Cache, k: string) {
    Raw(c, k) == Raw(d, k) && (k in c.expiry <==> k in d.expiry) && (k in c.expiry ==> c.expiry[k] == d.expiry[k])
  }

  lemma {:induction false} PutAllElsewhere(c: Cache, pairs: seq<(string, string)>, k: string)
    requires forall i :: 0 <= i < |pairs| ==> pairs[i].0 != k
    ensures SameAt(c, PutAll(c, pairs), k)
  {
    if pairs != [] { PutAllElsewhere(c, pairs[..|pairs| - 1], k); }
  }

  lemma {:induction false} KeysElsewhere(c: Cache, keys: seq<string>, now: real, k: string)
    requires k !in keys
    ensures SameAt(c, ReapAll(c, keys, now), k) && SameAt(c, PopAll(c, keys).0, k)
  {
    if keys != [] {
      assert keys[|keys| - 1] in keys;
      KeysElsewhere(c, keys[..|keys| - 1], now, k);
    }
  }

  predicate OneKey(op: Op) {
    !op.MSet? && !op.MGet? && !op.DeleteMany? && !op.Flush? && !op.FlushAll? && !op.Sweep?
  }

  lemma OneKeyElsewhere(c: Cache, op: Op, now: real, k: string)
    requires OneKey(op) && op.key != k
    ensures SameAt(c, Exec(c, op, now).0, k)
  {
  }

  /** Apart from the sweep and `flush_all`, an operation touches only keys with its prefix. */
  lemma OnlyOwnKeys(c: Cache, t: Tenant, op: Op, now: real, k: string)
    requires !op.FlushAll? && !op.Sweep? && !(Prefix(t) <= k)
    ensures SameAt(c, Exec(c, ForTenant(t, op), now).0, k)
  {
    match op
    case MSet(pairs) =>
      forall i | 0 <= i < |pairs| ensures PrefixPairs(t, pairs)[i].0 != k { StoredKey(t, pairs[i].0, k); }
      PutAllElsewhere(c, PrefixPairs(t, pairs), k);
    case MGet(keys) =>
      forall i | 0 <= i < |keys| ensures PrefixKeys(t, keys)[i] != k { StoredKey(t, keys[i], k); }
      KeysElsewhere(c, PrefixKeys(t, keys), now, k);
    case DeleteMany(keys) =>
      forall i | 0 <= i < |keys| ensures PrefixKeys(t, keys)[i] != k { StoredKey(t, keys[i], k); }
      KeysElsewhere(c, PrefixKeys(t, keys), now, k);
    case Flush(_) =>
    case FlushAll =>
    case Sweep =>
    case _ =>
      StoredKey(t, op.key, k);
      OneKeyElsewhere(c, ForTenant(t, op), now, k);
  }

  /** What tenant `t` can see at time `at`. */
  function View(c: Cache, t: Tenant, at: real): TimedMap {
    map k | k in Live(c, at) && Prefix(t) <= k :: Live(c, at)[k]
  }

  /** No operation of a tenant apart, except `flush_all`, changes what a tenant sees, now or later. */
  lemma OtherTenantUnaffected(c: Cache, a: Tenant, b: Tenant, op: Op, now: real, at: real)
    requires Apart(a, b)
    requires !op.FlushAll? && now <= at
    ensures View(Exec(c, ForTenant(a, op), now).0, b, at) == View(c, b, at)
  {
    if op.Sweep? {
      SweptView(c, a, b, op, now, at);
    } else {
      OtherTenantsOperation(c, a, b, op, now, at);
    }
  }

  lemma SweptView(c: Cache, a: Tenant, b: Tenant, op: Op, now: real, at: real)
    requires op.Sweep? && now <= at
    ensures View(Exec(c, ForTenant(a, op), now).0, b, at) == View(c, b, at)
  {
    SweepInvisible(c, now, at);
    assert Exec(c, ForTenant(a, op), now).0 == Swept(c, now);
  }

  lemma OtherTenantsOperation(c: Cache, a: Tenant, b: Tenant, op: Op, now: real, at: real)
    requires Apart(a, b)
    requires !op.FlushAll? && !op.Sweep?
    ensures View(Exec(c, ForTenant(a, op), now).0, b, at) == View(c, b, at)
  {
    OtherKeysSame(c, a, b, op, now);
    SameView(c, Exec(c, ForTenant(a, op), now).0, b, at);
  }

  lemma OtherKeysSame(c: Cache, a: Tenant, b: Tenant, op: Op, now: real)
    requires Apart(a, b)
    requires !op.FlushAll? && !op.Sweep?
    ensures forall k :: Prefix(b) <= k ==> SameAt(c, Exec(c, ForTenant(a, op), now).0, k)
  {
    forall k | Prefix(b) <= k ensures SameAt(c, Exec(c, ForTenant(a, op), now).0, k) {
      OtherKeySame(c, a, b, op, now, k);
    }
  }

  lemma OtherKeySame(c: Cache, a: Tenant, b: Tenant, op: Op, now: real, k: string)
    requires Apart(a, b)
    requires !op.FlushAll? && !op.Sweep? && Prefix(b) <= k
    ensures SameAt(c, Exec(c, ForTenant(a, op), now).0, k)
  {
    ApartIffNoSharedKey(a, b);
    assert Owns(b, k);
    OnlyOwnKeys(c, a, op, now, k);
  }

  lemma SameView(c: Cache, d: Cache, t: Tenant, at: real)
    requires forall k :: Prefix(t) <= k ==> SameAt(c, d, k)
    ensures View(d, t, at) == View(c, t, at)
  {
    forall k | Prefix(t) <= k
      ensures k in Live(c, at) <==> k in Live(d, at)
      ensures k in Live(c, at) ==> Live(c, at)[k] == Live(d, at)[k]
    {
      assert SameAt(c, d, k);
    }
  }

  /** No operation of `a` but `flush_all`, on any store and at any time, changes what `b` sees, then
      or later. */
  ghost predicate Isolated(a: Tenant, b: Tenant) {
    forall c: Cache, op: Op, now: real, at: real :: !op.FlushAll? && now <= at ==>
      View(Exec(c, ForTenant(a, op), now).0, b, at) == View(c, b, at)
  }

  const NOTHING: Cache := Cache(map[], map[])

  /** A key stored by `a` that `b` sees. */
  lemma SeenByOther(a: Tenant, b: Tenant, key: string)
    requires Prefix(b) <= PrefixKey(a, key)
    ensures !Isolated(a, b)
  {
    var op := Set(key, "", 0);
    var after := Exec(NOTHING, ForTenant(a, op), 1.0).0;
    assert PrefixKey(a, key) in Live(after, 1.0);
    assert PrefixKey(a, key) in View(after, b, 1.0) && PrefixKey(a, key) !in View(NOTHING, b, 1.0);
  }

  /** Two tenants are isolated exactly when neither prefix starts the other. */
  lemma IsolatedIffApart(a: Tenant, b: Tenant)
    ensures Isolated(a, b) <==> Apart(a, b)
  {
    if Apart(a, b) {
      forall c: Cache, op: Op, now: real, at: real | !op.FlushAll? && now <= at
        ensures View(Exec(c, ForTenant(a, op), now).0, b, at) == View(c, b, at)
      {
        OtherTenantUnaffected(c, a, b, op, now, at);
      }
    } else if Prefix(a) <= Prefix(b) {
      SeenByOther(a, b, Prefix(b));
    } else {
      StoredKeySplit(a, "");
      SeenByOther(a, b, "");
    }
  }

  /** So no tenant is isolated from every other: its `flush` empties the whole view of the user whose
      id goes on with a separator. */
  lemma FlushReachesExtension(c: Cache, b: Tenant, now: real, at: real)
    ensures !Isolated(b, Extension(b)) && Extension(b) != b
    ensures View(Exec(c, ForTenant(b, Flush("")), now).0, Extension(b), at) == map[]
  {
    EveryPrefixExtended(b);
    IsolatedIffApart(b, Extension(b));
    FlushRemovesExactlyOwn(c, b, now, at);
  }

  /** `flush` empties the caller's view and leaves everything else, at every time. */
  lemma FlushRemovesExactlyOwn(c: Cache, t: Tenant, now: real, at: real)
    ensures var d := Exec(c, ForTenant(t, Flush("")), now).0;
            && View(d, t, at) == map[]
            && Live(d, at) == map k | k in Live(c, at) && !(Prefix(t) <= k) :: Live(c, at)[k]
  {
  }

  /** An operation by one tenant, or a sweep, at a clock reading. */
  datatype Call = Call(tenant: Tenant, op: Op, now: real)

  function AfterCalls(c: Cache, calls: seq<Call>): Cache
    decreases |calls|
  {
    if calls == [] then c
    else AfterCalls(Exec(c, ForTenant(calls[0].tenant, calls[0].op), calls[0].now).0, calls[1..])
  }

  /** Over any run of calls of tenants apart, a tenant's view only ages. */
  lemma {:induction false} ViewSurvivesOthers(c: Cache, calls: seq<Call>, t: Tenant, at: real)
    requires forall i :: 0 <= i < |calls| ==>
               Apart(calls[i].tenant, t) && !calls[i].op.FlushAll? && calls[i].now <= at
    ensures View(AfterCalls(c, calls), t, at) == View(c, t, at)
    decreases |calls|
  {
    if calls != [] {
      var d := Exec(c, ForTenant(calls[0].tenant, calls[0].op), calls[0].now).0;
      OtherTenantUnaffected(c, calls[0].tenant, t, calls[0].op, calls[0].now, at);
      ViewSurvivesOthers(d, calls[1..], t, at);
    }
  }

  // ---------------------------------------------------------------- answers

  /** The two maps hold the same under the tenant's prefix. */
  ghost predicate SameOwn(m: TimedMap, n: TimedMap, t: Tenant) {
    forall k {:trigger k in m} {:trigger k in n} :: Prefix(t) <= k ==>
      (k in m <==> k in n) && (k in m ==> m[k] == n[k])
  }

  lemma {:induction false} RemoveAllOwn(m: TimedMap, n: TimedMap, t: Tenant, keys: seq<string>)
    requires SameOwn(m, n, t) && forall i :: 0 <= i < |keys| ==> Prefix(t) <= keys[i]
    ensures SameOwn(RemoveAll(m, keys).0, RemoveAll(n, keys).0, t)
    ensures RemoveAll(m, keys).1 == RemoveAll(n, keys).1
  {
    if keys != [] { RemoveAllOwn(m, n, t, keys[..|keys| - 1]); }
  }

  lemma OwnKey(t: Tenant, k: string)
    ensures Prefix(t) <= PrefixKey(t, k)
  {
    StoredKeySplit(t, k);
  }

  lemma OneKeyAnswers(m: TimedMap, n: TimedMap, op: Op, now: real)
    requires OneKey(op) && (op.key in m <==> op.key in n) && (op.key in m ==> m[op.key] == n[op.key])
    ensures Ideal(m, op, now).1 == Ideal(n, op, now).1
  {
  }

  lemma MGetAnswers(m: TimedMap, n: TimedMap, t: Tenant, keys: seq<string>, now: real)
    requires SameOwn(m, n, t)
    ensures Ideal(m, MGet(PrefixKeys(t, keys)), now).1 == Ideal(n, MGet(PrefixKeys(t, keys)), now).1
  {
    forall i | 0 <= i < |keys| ensures ValueAt(m, PrefixKeys(t, keys)[i]) == ValueAt(n, PrefixKeys(t, keys)[i]) {
      OwnKey(t, keys[i]);
    }
    SameValues(m, n, PrefixKeys(t, keys));
  }

  lemma DeleteManyAnswers(m: TimedMap, n: TimedMap, t: Tenant, keys: seq<string>, now: real)
    requires SameOwn(m, n, t)
    ensures Ideal(m, DeleteMany(PrefixKeys(t, keys)), now).1 == Ideal(n, DeleteMany(PrefixKeys(t, keys)), now).1
  {
    forall i | 0 <= i < |keys| ensures Prefix(t) <= PrefixKeys(t, keys)[i] { OwnKey(t, keys[i]); }
    RemoveAllOwn(m, n, t, PrefixKeys(t, keys));
  }

  /** What the timed map answers a tenant depends only on the tenant's own entries. */
  lemma IdealAnswersOwn(m: TimedMap, n: TimedMap, t: Tenant, op: Op, now: real)
    requires SameOwn(m, n, t)
    ensures Ideal(m, ForTenant(t, op), now).1 == Ideal(n, ForTenant(t, op), now).1
  {
    match op
    case MSet(_) =>
    case MGet(keys) => MGetAnswers(m, n, t, keys, now);
    case DeleteMany(keys) => DeleteManyAnswers(m, n, t, keys, now);
    case Flush(_) =>
    case FlushAll =>
    case Sweep =>
    case _ => OneKeyOwn(m, n, t, op, now);
  }

  lemma OneKeyOwn(m: TimedMap, n: TimedMap, t: Tenant, op: Op, now: real)
    requires SameOwn(m, n, t) && OneKey(op)
    ensures Ideal(m, ForTenant(t, op), now).1 == Ideal(n, ForTenant(t, op), now).1
  {
    OwnKey(t, op.key);
    OneKeyAnswers(m, n, ForTenant(t, op), now);
  }

  lemma SameValues(m: TimedMap, n: TimedMap, keys: seq<string>)
    requires forall i :: 0 <= i < |keys| ==> ValueAt(m, keys[i]) == ValueAt(n, keys[i])
    ensures seq(|keys|, i requires 0 <= i < |keys| => ValueAt(m, keys[i]))
         == seq(|keys|, i requires 0 <= i < |keys| => ValueAt(n, keys[i]))
  {
  }

  /** What an operation answers a tenant depends only on what the tenant sees: two stores with the
      same view give the same answer to every faithful operation. */
  lemma AnswersFromOwnView(c: Cache, d: Cache, t: Tenant, op: Op, now: real)
    requires Bounded(c) && Bounded(d) && now > 0.0
    requires Faithful(c, ForTenant(t, op), now) && Faithful(d, ForTenant(t, op), now)
    requires View(c, t, now) == View(d, t, now)
    ensures Exec(c, ForTenant(t, op), now).1 == Exec(d, ForTenant(t, op), now).1
  {
    StepRefines(c, ForTenant(t, op), now);
    StepRefines(d, ForTenant(t, op), now);
    ViewsOwn(c, d, t, now);
    IdealAnswersOwn(Live(c, now), Live(d, now), t, op, now);
  }

  lemma ViewsOwn(c: Cache, d: Cache, t: Tenant, now: real)
    requires View(c, t, now) == View(d, t, now)
    ensures SameOwn(Live(c, now), Live(d, now), t)
  {
    forall k | Prefix(t) <= k
      ensures k in Live(c, now) <==> k in Live(d, now)
      ensures k in Live(c, now) ==> Live(c, now)[k] == Live(d, now)[k]
    {
      assert k in Live(c, now) <==> k in View(c, t, now);
      assert k in Live(d, now) <==> k in View(d, t, now);
    }
  }
}
