/** The two tables behave as the timed map: step by step, and over every run. */
module CacheRefinement {
  import opened Common
  import opened Numerals
  import opened TimedCache

  /** Every deadline belongs to a stored key. */
  predicate Bounded(c: Cache) { c.expiry.Keys <= c.data.Keys }

  function Deadline(c: Cache, k: string): Option<real> {
    if k in c.expiry && c.expiry[k] > 0.0 then Some(c.expiry[k]) else None
  }

  /** What a reader can still see at time `t`. */
  function Live(c: Cache, t: real): TimedMap {
    map k | k in c.data && !Stale(c, k, t) :: Entry(c.data[k], Deadline(c, k))
  }

  lemma LiveAt(c: Cache, k: string, t: real)
    ensures !Stale(c, k, t) ==> ValueAt(Live(c, t), k) == Raw(c, k)
    ensures Stale(c, k, t) ==> k !in Live(c, t)
  {
  }

  /** The view at any later time is the present view with its expired entries removed. */
  lemma LiveLater(c: Cache, now: real, later: real)
    requires now <= later
    ensures Live(c, later) == Purge(Live(c, now), later)
  {
  }

  /** Dropping an expired key, lazily or in the sweep, is invisible now and ever after. */
  lemma ReapInvisible(c: Cache, k: string, now: real, later: real)
    requires now <= later
    ensures Live(Reap(c, k, now), later) == Live(c, later)
  {
  }

  lemma SweepInvisible(c: Cache, now: real, later: real)
    requires now <= later
    ensures Live(Swept(c, now), later) == Live(c, later)
  {
  }

  /** When an operation acts as on the timed map. The blind operations (those that do not look at
      the clock) do unless their key is expired but not yet dropped; `expire` also needs a deadline
      after time zero, since the table reads zero and less as "never", and `ttl` reads them as
      "expired". */
  predicate Faithful(c: Cache, op: Op, now: real) {
    match op
    case Delete(k) => !Stale(c, k, now)
    case Ttl(k) => !Stale(c, k, now) && !(k in c.expiry && c.expiry[k] < 0.0)
    case Expire(k, ttl) => !Stale(c, k, now) && (k in c.data ==> now + ttl as real > 0.0)
    case Incr(k, _) => !Stale(c, k, now)
    case DeleteMany(keys) => forall k :: k in keys ==> !Stale(c, k, now)
    case HSet(k, _, _) => !Stale(c, k, now)
    case HDel(k, f) => !(Stale(c, k, now) && f in FieldsOf(Raw(c, k)))
    case LPush(k, _) => !Stale(c, k, now)
    case RPush(k, _) => !Stale(c, k, now)
    case _ => true
  }

  ghost predicate Agrees(c: Cache, op: Op, now: real) {
    Live(Exec(c, op, now).0, now) == Ideal(Live(c, now), op, now).0 &&
    Exec(c, op, now).1 == Ideal(Live(c, now), op, now).1
  }

  // ---------------------------------------------------------------- one step

  lemma WriteAgrees(c: Cache, op: Op, now: real)
    requires Bounded(c) && now > 0.0
    requires op.Set? || op.Flush? || op.FlushAll? || op.Sweep?
    ensures Agrees(c, op, now)
  {
    if op.Sweep? { SweepInvisible(c, now, now); }
  }

  lemma ReadAgrees(c: Cache, op: Op, now: real)
    requires Bounded(c) && now > 0.0
    requires op.Get? || op.Exists? || op.HGet? || op.HGetAll? || op.LRange? || op.LLen?
    ensures Agrees(c, op, now)
  {
    ReapInvisible(c, op.key, now, now);
    LiveAt(c, op.key, now);
  }

  lemma TtlAgrees(c: Cache, k: string, now: real)
    requires Bounded(c) && now > 0.0
    ensures Agrees(c, Ttl(k), now) <==> Faithful(c, Ttl(k), now)
  {
  }

  lemma DeleteAgrees(c: Cache, k: string, now: real)
    requires Bounded(c) && now > 0.0
    ensures Agrees(c, Delete(k), now) <==> Faithful(c, Delete(k), now)
  {
    assert Live(Pop(c, k), now) == Live(c, now) - {k};
  }

  lemma ExpireAgrees(c: Cache, k: string, ttl: int, now: real)
    requires Bounded(c) && now > 0.0
    ensures Agrees(c, Expire(k, ttl), now) <==> Faithful(c, Expire(k, ttl), now)
  {
    if k in c.data && !Stale(c, k, now) { NewDeadline(c, k, now + ttl as real, now); }
  }

  /** A deadline at or before time zero is read as "never", and one that has passed hides the key. */
  lemma NewDeadline(c: Cache, k: string, d: real, now: real)
    requires Bounded(c) && now > 0.0 && k in c.data && !Stale(c, k, now)
    ensures k in Live(c, now)
    ensures var m := Live(c, now);
            Live(c.(expiry := c.expiry[k := d]), now) == Purge(m[k := m[k].(deadline := Some(d))], now) <==> d > 0.0
  {
    var m := Live(c, now);
    var after, want := Live(c.(expiry := c.expiry[k := d]), now), Purge(m[k := m[k].(deadline := Some(d))], now);
    if d > 0.0 {
      assert after == want;
    } else {
      assert k in after && k !in want;
    }
  }

  /** A blind write to an expired key is lost: the key keeps its old deadline. */
  lemma StoreStale(c: Cache, k: string, v: Value, now: real)
    requires Bounded(c) && Stale(c, k, now)
    ensures k !in Live(Store(c, k, v), now) && Upsert(c, k, v) == Store(c, k, v)
  {
  }

  lemma StoreLive(c: Cache, k: string, v: Value, now: real)
    requires Bounded(c) && now > 0.0 && !Stale(c, k, now)
    ensures Live(Store(c, k, v), now) == Assign(Live(c, now), k, v)
    ensures Live(Upsert(c, k, v), now) == Assign(Live(c, now), k, v)
  {
    StoreViews(c, k, v, now);
  }

  lemma StoreViews(c: Cache, k: string, v: Value, now: real)
    requires Bounded(c) && !Stale(c, k, now)
    ensures Live(Store(c, k, v), now) == Live(c, now)[k := Entry(v, Deadline(c, k))]
    ensures k !in c.data ==> Live(Upsert(c, k, v), now) == Live(c, now)[k := Entry(v, None)]
  {
  }

  /** What a blind write stores. */
  function BlindValue(c: Cache, op: Op): Value
    requires op.Incr? || op.HSet? || op.LPush? || op.RPush?
  {
    match op
    case Incr(k, amount) => Text(IntText(CounterOf(Raw(c, k)) + amount))
    case HSet(k, f, x) => WithField(Raw(c, k), f, x)
    case LPush(k, vs) => List(vs + ItemsOf(Raw(c, k)))
    case RPush(k, vs) => List(ItemsOf(Raw(c, k)) + vs)
  }

  lemma BlindWriteLive(c: Cache, op: Op, now: real)
    requires Bounded(c) && now > 0.0 && (op.Incr? || op.HSet? || op.LPush? || op.RPush?) && !Stale(c, op.key, now)
    ensures Agrees(c, op, now)
  {
    LiveAt(c, op.key, now);
    StoreLive(c, op.key, BlindValue(c, op), now);
  }

  lemma BlindWriteStale(c: Cache, op: Op, now: real)
    requires Bounded(c) && now > 0.0 && (op.Incr? || op.HSet? || op.LPush? || op.RPush?) && Stale(c, op.key, now)
    ensures !Agrees(c, op, now)
  {
    LiveAt(c, op.key, now);
    StoreStale(c, op.key, BlindValue(c, op), now);
  }

  lemma BlindWriteAgrees(c: Cache, op: Op, now: real)
    requires Bounded(c) && now > 0.0
    requires op.Incr? || op.HSet? || op.LPush? || op.RPush?
    ensures Agrees(c, op, now) <==> Faithful(c, op, now)
  {
    if Stale(c, op.key, now) {
      BlindWriteStale(c, op, now);
    } else {
      BlindWriteLive(c, op, now);
    }
  }

  lemma HDelAgrees(c: Cache, k: string, f: string, now: real)
    requires Bounded(c) && now > 0.0
    ensures Agrees(c, HDel(k, f), now) <==> Faithful(c, HDel(k, f), now)
  {
    LiveAt(c, k, now);
    if !Stale(c, k, now) {
      StoreLive(c, k, Hash(FieldsOf(Raw(c, k)) - {f}), now);
    }
  }

  lemma {:induction false} PutAllAgrees(c: Cache, pairs: seq<(string, string)>, now: real)
    requires Bounded(c) && now > 0.0
    ensures Live(PutAll(c, pairs), now) == AssignAll(Live(c, now), pairs)
    ensures Bounded(PutAll(c, pairs))
  {
    if pairs != [] {
      PutAllAgrees(c, pairs[..|pairs| - 1], now);
    }
  }

  lemma {:induction false} ReapAllInvisible(c: Cache, keys: seq<string>, now: real, later: real)
    requires now <= later
    ensures Live(ReapAll(c, keys, now), later) == Live(c, later)
    ensures Bounded(c) ==> Bounded(ReapAll(c, keys, now))
  {
    if keys != [] {
      ReapAllInvisible(c, keys[..|keys| - 1], now, later);
      ReapInvisible(ReapAll(c, keys[..|keys| - 1], now), keys[|keys| - 1], now, later);
    }
  }

  lemma MGetAgrees(c: Cache, keys: seq<string>, now: real)
    requires Bounded(c) && now > 0.0
    ensures Agrees(c, MGet(keys), now)
  {
    ReapAllInvisible(c, keys, now, now);
    forall i | 0 <= i < |keys|
      ensures ReadAll(c, keys, now)[i] == ValueAt(Live(c, now), keys[i])
    {
      LiveAt(c, keys[i], now);
    }
    assert ReadAll(c, keys, now) == seq(|keys|, i requires 0 <= i < |keys| => ValueAt(Live(c, now), keys[i]));
  }

  /** Bulk deletion removes the right keys, but counts each expired one it meets. */
  lemma {:induction false} PopAllAgrees(c: Cache, keys: seq<string>, now: real)
    requires Bounded(c)
    ensures var (d, n) := PopAll(c, keys);
            var (e, m) := RemoveAll(Live(c, now), keys);
            && Bounded(d) && Live(d, now) == e && m <= n
            && (m == n <==> forall k :: k in keys ==> !Stale(c, k, now))
            && (forall k :: Stale(d, k, now) <==> Stale(c, k, now) && k !in keys)
  {
    if keys != [] {
      var front, k := keys[..|keys| - 1], keys[|keys| - 1];
      assert keys == front + [k];
      PopAllAgrees(c, front, now);
      var d := PopAll(c, front).0;
      assert Live(Pop(d, k), now) == Live(d, now) - {k};
      if Stale(d, k, now) {
        assert k in d.data && k !in Live(d, now);
      }
    }
  }

  /** Each operation agrees with the timed map exactly when it is faithful. */
  lemma StepRefines(c: Cache, op: Op, now: real)
    requires Bounded(c) && now > 0.0
    ensures Agrees(c, op, now) <==> Faithful(c, op, now)
  {
    match op
    case Delete(k) => DeleteAgrees(c, k, now);
    case Ttl(k) => TtlAgrees(c, k, now);
    case Expire(k, ttl) => ExpireAgrees(c, k, ttl, now);
    case MSet(pairs) => PutAllAgrees(c, pairs, now);
    case MGet(keys) => MGetAgrees(c, keys, now);
    case DeleteMany(keys) => PopAllAgrees(c, keys, now);
    case HDel(k, f) => HDelAgrees(c, k, f, now);
    case Incr(_, _) => BlindWriteAgrees(c, op, now);
    case HSet(_, _, _) => BlindWriteAgrees(c, op, now);
    case LPush(_, _) => BlindWriteAgrees(c, op, now);
    case RPush(_, _) => BlindWriteAgrees(c, op, now);
    case Set(_, _, _) => WriteAgrees(c, op, now);
    case Flush(_) => WriteAgrees(c, op, now);
    case FlushAll => WriteAgrees(c, op, now);
    case Sweep => WriteAgrees(c, op, now);
    case _ => ReadAgrees(c, op, now);
  }

  lemma {:induction false} PopAllBounded(c: Cache, keys: seq<string>)
    requires Bounded(c)
    ensures Bounded(PopAll(c, keys).0)
  {
    if keys != [] { PopAllBounded(c, keys[..|keys| - 1]); }
  }

  lemma StepBounded(c: Cache, op: Op, now: real)
    requires Bounded(c)
    ensures Bounded(Exec(c, op, now).0)
  {
    match op
    case MSet(pairs) => PutAllBounded(c, pairs);
    case MGet(keys) => ReapAllInvisible(c, keys, now, now);
    case DeleteMany(keys) => PopAllBounded(c, keys);
    case Set(_, _, _) => WriteBounded(c, op, now);
    case Delete(_) => WriteBounded(c, op, now);
    case Flush(_) => WriteBounded(c, op, now);
    case FlushAll => WriteBounded(c, op, now);
    case Sweep => WriteBounded(c, op, now);
    case _ => KeyBounded(c, op, now);
  }

  lemma WriteBounded(c: Cache, op: Op, now: real)
    requires Bounded(c) && (op.Set? || op.Delete? || op.Flush? || op.FlushAll? || op.Sweep?)
    ensures Bounded(Exec(c, op, now).0)
  {
  }

  lemma KeyBounded(c: Cache, op: Op, now: real)
    requires Bounded(c) && !op.MSet? && !op.MGet? && !op.DeleteMany?
    requires !op.Set? && !op.Delete? && !op.Flush? && !op.FlushAll? && !op.Sweep?
    ensures Bounded(Exec(c, op, now).0)
  {
  }

  lemma {:induction false} PutAllBounded(c: Cache, pairs: seq<(string, string)>)
    requires Bounded(c)
    ensures Bounded(PutAll(c, pairs))
  {
    if pairs != [] { PutAllBounded(c, pairs[..|pairs| - 1]); }
  }

  // ---------------------------------------------------------------- whole runs

  datatype Event = Event(op: Op, now: real)

  /** A clock that starts after `start` and never runs backwards. */
  ghost predicate Timed(run: seq<Event>, start: real) {
    (forall i :: 0 <= i < |run| ==> start <= run[i].now) &&
    (forall i, j :: 0 <= i < j < |run| ==> run[i].now <= run[j].now)
  }

  function After(c: Cache, run: seq<Event>): Cache
    decreases |run|
  {
    if run == [] then c else After(Exec(c, run[0].op, run[0].now).0, run[1..])
  }

  function Outputs(c: Cache, run: seq<Event>): seq<Out>
    decreases |run|
  {
    if run == [] then []
    else [Exec(c, run[0].op, run[0].now).1] + Outputs(Exec(c, run[0].op, run[0].now).0, run[1..])
  }

  function IdealAfter(m: TimedMap, run: seq<Event>): TimedMap
    decreases |run|
  {
    if run == [] then m else IdealAfter(Ideal(Purge(m, run[0].now), run[0].op, run[0].now).0, run[1..])
  }

  function IdealOutputs(m: TimedMap, run: seq<Event>): seq<Out>
    decreases |run|
  {
    if run == [] then []
    else
      var (m', o) := Ideal(Purge(m, run[0].now), run[0].op, run[0].now);
      [o] + IdealOutputs(m', run[1..])
  }

  predicate FaithfulRun(c: Cache, run: seq<Event>)
    decreases |run|
  {
    run == [] || (Faithful(c, run[0].op, run[0].now) && FaithfulRun(Exec(c, run[0].op, run[0].now).0, run[1..]))
  }

  /** Over every run of faithful operations, with sweeps and lazy drops anywhere, each answer and
      the view at every time after the run are the timed map's. */
  lemma {:induction false} RunRefines(c: Cache, run: seq<Event>, start: real, later: real)
    requires Bounded(c) && start > 0.0 && Timed(run, start) && FaithfulRun(c, run)
    requires start <= later && forall i :: 0 <= i < |run| ==> run[i].now <= later
    ensures Outputs(c, run) == IdealOutputs(Live(c, start), run)
    ensures Live(After(c, run), later) == Purge(IdealAfter(Live(c, start), run), later)
    decreases |run|
  {
    if run == [] {
      LiveLater(c, start, later);
    } else {
      var op, now := run[0].op, run[0].now;
      LiveLater(c, start, now);
      StepRefines(c, op, now);
      StepBounded(c, op, now);
      var next := Exec(c, op, now).0;
      assert Timed(run[1..], now) by {
        assert forall i :: 0 <= i < |run[1..]| ==> run[1..][i] == run[i + 1];
      }
      RunRefines(next, run[1..], now, later);
    }
  }

  // ---------------------------------------------------------------- statistics

  /** `active_keys` is the number of live keys, so it is never negative. */
  lemma ActiveKeysAreLive(c: Cache, now: real)
    requires Bounded(c)
    ensures |c.data| - |StaleKeys(c, now)| == |Live(c, now)|
  {
    var live, stale := Live(c, now).Keys, StaleKeys(c, now);
    assert c.data.Keys == live + stale;
    assert live !! stale;
    assert |Live(c, now)| == |live|;
  }

  /** Two increments add up, whatever was counted before. */
  lemma IncrementsAdd(c: Cache, k: string, a: int, b: int, now: real, later: real)
    requires k !in c.data || c.data[k].Text?
    ensures Exec(Exec(c, Incr(k, a), now).0, Incr(k, b), later).1 == Number(CounterOf(Raw(c, k)) + a + b)
  {
    ParseIntText(CounterOf(Raw(c, k)) + a);
  }

  /** The three ways off the timed map, on a key that expired at 5 and is used at 10. */
  lemma StaleExamples()
    ensures var c := Cache(map["k" := Text("7")], map["k" := 5.0]);
            && Exec(c, Incr("k", 1), 10.0).1 == Number(8) && "k" !in Live(Exec(c, Incr("k", 1), 10.0).0, 10.0)
            && Exec(c, Expire("k", 60), 10.0).1 == Flag(true) && "k" in Live(Exec(c, Expire("k", 60), 10.0).0, 10.0)
            && Exec(c, Ttl("k"), 10.0).1 == Number(-2)
            && Exec(Swept(c, 10.0), Ttl("k"), 10.0).1 == Number(-1)
  {
    var c := Cache(map["k" := Text("7")], map["k" := 5.0]);
    assert IntText(7) == "7";
    ParseIntText(7);
    assert CounterOf(Raw(c, "k")) == 7;
  }
}
