/** The client object: one tenant's handle on tables it may share with other clients.

    No method of the client suspends while it holds the tables, so each runs as one step. Every
    method states its effect on both tables and its answer through `Exec`. */
module MemoryClient {
  import opened Common
  import opened Numerals
  import opened TenantKeys
  import opened TimedCache
  import opened CacheRefinement
  import opened CacheTenants
  import opened CacheScan

  /** The two dictionaries; clients made with `use_global_store` hold the same object. */
  class Tables {
    var data: map<string, Value>
    var expiry: map<string, real>

    constructor ()
      ensures State() == Cache(map[], map[])
    {
      data, expiry := map[], map[];
    }

    function State(): Cache
      reads this
    {
      Cache(data, expiry)
    }

    /** `pop(key, None)` on both tables. */
    method Drop(key: string)
      modifies this
      ensures State() == Pop(old(State()), key)
    {
      data := data - {key};
      expiry := expiry - {key};
    }
  }

  class Client {
    const tenant: Tenant
    const tables: Tables

    constructor (organizationId: string, userId: string, tables: Tables)
      ensures this.tenant == TenantOf(organizationId, userId) && this.tables == tables
    {
      this.tenant := TenantOf(organizationId, userId);
      this.tables := tables;
    }

    method IsExpired(key: string, now: real) returns (expired: bool)
      ensures expired == Stale(tables.State(), key, now)
    {
      var expTime := if key in tables.expiry then tables.expiry[key] else 0.0;
      if expTime > 0.0 && expTime < now {
        return true;
      }
      return false;
    }

    method Put(key: string, value: string, ttlSeconds: int, now: real) returns (ok: bool)
      modifies tables
      ensures (tables.State(), Flag(ok)) == Exec(old(tables.State()), ForTenant(tenant, Op.Set(key, value, ttlSeconds)), now)
    {
      var prefixed := PrefixKey(tenant, key);
      tables.data := tables.data[prefixed := Text(value)];
      if ttlSeconds > 0 {
        tables.expiry := tables.expiry[prefixed := now + ttlSeconds as real];
      } else {
        tables.expiry := tables.expiry[prefixed := 0.0];
      }
      return true;
    }

    method Read(key: string, now: real) returns (value: Option<Value>)
      modifies tables
      ensures (tables.State(), Found(value)) == Exec(old(tables.State()), ForTenant(tenant, Get(key)), now)
    {
      var prefixed := PrefixKey(tenant, key);
      var expired := IsExpired(prefixed, now);
      if expired {
        tables.Drop(prefixed);
        return None;
      }
      return if prefixed in tables.data then Some(tables.data[prefixed]) else None;
    }

    method Remove(key: string, now: real) returns (existed: bool)
      modifies tables
      ensures (tables.State(), Flag(existed)) == Exec(old(tables.State()), ForTenant(tenant, Op.Delete(key)), now)
    {
      var prefixed := PrefixKey(tenant, key);
      existed := prefixed in tables.data;
      tables.Drop(prefixed);
    }

    method Has(key: string, now: real) returns (present: bool)
      modifies tables
      ensures (tables.State(), Flag(present)) == Exec(old(tables.State()), ForTenant(tenant, Op.Exists(key)), now)
    {
      var prefixed := PrefixKey(tenant, key);
      var expired := IsExpired(prefixed, now);
      if expired {
        tables.Drop(prefixed);
        return false;
      }
      return prefixed in tables.data;
    }

    method TimeToLive(key: string, now: real) returns (seconds: int)
      ensures (tables.State(), Number(seconds)) == Exec(tables.State(), ForTenant(tenant, Op.Ttl(key)), now)
    {
      var prefixed := PrefixKey(tenant, key);
      var expTime := if prefixed in tables.expiry then tables.expiry[prefixed] else 0.0;
      if expTime == 0.0 {
        return -1;
      }
      if expTime < now {
        return -2;
      }
      return Truncate(expTime - now);
    }

    method SetTtl(key: string, ttlSeconds: int, now: real) returns (ok: bool)
      modifies tables
      ensures (tables.State(), Flag(ok)) == Exec(old(tables.State()), ForTenant(tenant, Op.Expire(key, ttlSeconds)), now)
    {
      var prefixed := PrefixKey(tenant, key);
      if prefixed in tables.data {
        tables.expiry := tables.expiry[prefixed := now + ttlSeconds as real];
        return true;
      }
      return false;
    }

    /** None when the value is a hash or a list: `int` raises, and nothing is written. */
    method Increment(key: string, amount: int, now: real) returns (result: Option<int>)
      modifies tables
      ensures (tables.State(), if result.Some? then Number(result.value) else Failed)
           == Exec(old(tables.State()), ForTenant(tenant, Op.Incr(key, amount)), now)
    {
      var prefixed := PrefixKey(tenant, key);
      var current := if prefixed in tables.data then tables.data[prefixed] else Text("0");
      ParseIntText(0);
      assert IntText(0) == "0";
      if !current.Text? {
        return None;
      }
      var newValue := amount;
      match ParseInt(current.text) {
        case Some(n) => newValue := n + amount;
        case None =>
      }
      tables.data := tables.data[prefixed := Text(IntText(newValue))];
      return Some(newValue);
    }

    method PutMany(mapping: seq<(string, string)>, now: real) returns (ok: bool)
      modifies tables
      ensures (tables.State(), Flag(ok)) == Exec(old(tables.State()), ForTenant(tenant, MSet(mapping)), now)
    {
      ghost var before := tables.State();
      ghost var pairs := PrefixPairs(tenant, mapping);
      for n := 0 to |mapping|
        invariant tables.State() == PutAll(before, pairs[..n])
      {
        assert pairs[..n + 1][..n] == pairs[..n];
        var prefixed := PrefixKey(tenant, mapping[n].0);
        tables.data := tables.data[prefixed := Text(mapping[n].1)];
        tables.expiry := tables.expiry[prefixed := 0.0];
      }
      assert pairs[..|mapping|] == pairs;
      return true;
    }

    method ReadMany(keys: seq<string>, now: real) returns (results: seq<Option<Value>>)
      modifies tables
      ensures (tables.State(), FoundAll(results)) == Exec(old(tables.State()), ForTenant(tenant, Op.MGet(keys)), now)
    {
      ghost var before := tables.State();
      ghost var prefixedKeys := PrefixKeys(tenant, keys);
      results := [];
      for n := 0 to |keys|
        invariant tables.State() == ReapAll(before, prefixedKeys[..n], now)
        invariant results == ReadAll(before, prefixedKeys[..n], now)
      {
        ReadNext(before, prefixedKeys, n, now);
        var prefixed := PrefixKey(tenant, keys[n]);
        var expired := IsExpired(prefixed, now);
        if expired {
          tables.Drop(prefixed);
          results := results + [None];
        } else {
          results := results + [if prefixed in tables.data then Some(tables.data[prefixed]) else None];
        }
      }
      assert prefixedKeys[..|keys|] == prefixedKeys;
    }

    method RemoveMany(keys: seq<string>, now: real) returns (count: int)
      modifies tables
      ensures (tables.State(), Number(count)) == Exec(old(tables.State()), ForTenant(tenant, Op.DeleteMany(keys)), now)
    {
      ghost var before := tables.State();
      ghost var prefixedKeys := PrefixKeys(tenant, keys);
      count := 0;
      for n := 0 to |keys|
        invariant (tables.State(), count) == PopAll(before, prefixedKeys[..n])
      {
        PopNext(before, prefixedKeys, n);
        var prefixed := PrefixKey(tenant, keys[n]);
        if prefixed in tables.data {
          tables.Drop(prefixed);
          count := count + 1;
        }
      }
      assert prefixedKeys[..|keys|] == prefixedKeys;
    }

    /** `order` is the order in which the dict is walked. */
    method Keys(pattern: string, matches: (string, string) -> bool, order: seq<string>, now: real) returns (matched: seq<string>)
      requires Enumerates(order, tables.data.Keys)
      ensures |matched| == |Matching(tables.State(), order, matches, PrefixKey(tenant, pattern), now)|
      ensures forall i :: 0 <= i < |matched| ==>
                matched[i] == UnprefixKey(tenant, Matching(tables.State(), order, matches, PrefixKey(tenant, pattern), now)[i])
    {
      var prefixedPattern := PrefixKey(tenant, pattern);
      ghost var c := tables.State();
      matched := [];
      for n := 0 to |order|
        invariant |matched| == |Matching(c, order[..n], matches, prefixedPattern, now)|
        invariant forall i :: 0 <= i < |matched| ==>
                    matched[i] == UnprefixKey(tenant, Matching(c, order[..n], matches, prefixedPattern, now)[i])
      {
        assert order[..n + 1] == order[..n] + [order[n]];
        MatchingAppend(c, order[..n], [order[n]], matches, prefixedPattern, now);
        if matches(order[n], prefixedPattern) {
          var expired := IsExpired(order[n], now);
          if !expired {
            matched := matched + [UnprefixKey(tenant, order[n])];
          }
        }
      }
      assert order[..|order|] == order;
    }

    method Scan(cursor: int, pattern: string, count: int, matches: (string, string) -> bool, order: seq<string>, now: real)
      returns (newCursor: int, batch: seq<string>)
      requires Enumerates(order, tables.data.Keys)
      ensures var all := Matching(tables.State(), order, matches, PrefixKey(tenant, pattern), now);
              && newCursor == ScanNext(all, cursor, count)
              && |batch| == |ScanBatch(all, cursor, count)|
              && forall i :: 0 <= i < |batch| ==> batch[i] == UnprefixKey(tenant, ScanBatch(all, cursor, count)[i])
    {
      var prefixedPattern := PrefixKey(tenant, pattern);
      var allKeys := [];
      for n := 0 to |order|
        invariant allKeys == Matching(tables.State(), order[..n], matches, prefixedPattern, now)
      {
        assert order[..n + 1] == order[..n] + [order[n]];
        MatchingAppend(tables.State(), order[..n], [order[n]], matches, prefixedPattern, now);
        var expired := IsExpired(order[n], now);
        if matches(order[n], prefixedPattern) && !expired {
          allKeys := allKeys + [order[n]];
        }
      }
      assert order[..|order|] == order;
      var end := Min(cursor + count, |allKeys|);
      var page := PySlice(allKeys, cursor, end);
      batch := [];
      for n := 0 to |page|
        invariant |batch| == n && forall i :: 0 <= i < n ==> batch[i] == UnprefixKey(tenant, page[i])
      {
        batch := batch + [UnprefixKey(tenant, page[n])];
      }
      newCursor := if end < |allKeys| then end else 0;
    }

    method FlushTenant(order: seq<string>, now: real) returns (ok: bool)
      requires Enumerates(order, tables.data.Keys)
      modifies tables
      ensures (tables.State(), Flag(ok)) == Exec(old(tables.State()), ForTenant(tenant, Flush("")), now)
    {
      var prefix := Prefix(tenant);
      ghost var before := tables.State();
      ghost var gone := {};
      for n := 0 to |order|
        invariant gone == set k | k in order[..n] && prefix <= k
        invariant tables.State() == Cache(before.data - gone, before.expiry - gone)
      {
        assert order[..n + 1] == order[..n] + [order[n]];
        if prefix <= order[n] {
          tables.Drop(order[n]);
          gone := gone + {order[n]};
        }
      }
      assert order[..|order|] == order;
      assert forall k :: k in order <==> k in before.data;
      assert gone == set k | k in before.data && prefix <= k;
      return true;
    }

    method FlushEverything(now: real) returns (ok: bool)
      modifies tables
      ensures (tables.State(), Flag(ok)) == Exec(old(tables.State()), ForTenant(tenant, FlushAll), now)
    {
      tables.data, tables.expiry := map[], map[];
      return true;
    }

    method SetField(name: string, field: string, value: string, now: real) returns (ok: bool)
      modifies tables
      ensures (tables.State(), Flag(ok)) == Exec(old(tables.State()), ForTenant(tenant, Op.HSet(name, field, value)), now)
    {
      var prefixed := PrefixKey(tenant, name);
      if prefixed !in tables.data {
        tables.data := tables.data[prefixed := Hash(map[])];
        tables.expiry := tables.expiry[prefixed := 0.0];
      }
      var fields := map[];
      if tables.data[prefixed].Hash? {
        fields := tables.data[prefixed].fields;
      }
      tables.data := tables.data[prefixed := Hash(fields[field := value])];
      assert tables.data == old(tables.data)[prefixed := Hash(fields[field := value])];
      return true;
    }

    method GetField(name: string, field: string, now: real) returns (value: Option<Value>)
      modifies tables
      ensures (tables.State(), Found(value)) == Exec(old(tables.State()), ForTenant(tenant, Op.HGet(name, field)), now)
    {
      var prefixed := PrefixKey(tenant, name);
      var expired := IsExpired(prefixed, now);
      if expired {
        tables.Drop(prefixed);
        return None;
      }
      var hash := if prefixed in tables.data then tables.data[prefixed] else Hash(map[]);
      if hash.Hash? && field in hash.fields {
        return Some(Text(hash.fields[field]));
      }
      return None;
    }

    method GetFields(name: string, now: real) returns (fields: map<string, string>)
      modifies tables
      ensures (tables.State(), Fields(fields)) == Exec(old(tables.State()), ForTenant(tenant, Op.HGetAll(name)), now)
    {
      var prefixed := PrefixKey(tenant, name);
      var expired := IsExpired(prefixed, now);
      if expired {
        tables.Drop(prefixed);
        return map[];
      }
      var hash := if prefixed in tables.data then tables.data[prefixed] else Hash(map[]);
      if hash.Hash? {
        return hash.fields;
      }
      return map[];
    }

    method DeleteField(name: string, field: string, now: real) returns (deleted: bool)
      modifies tables
      ensures (tables.State(), Flag(deleted)) == Exec(old(tables.State()), ForTenant(tenant, Op.HDel(name, field)), now)
    {
      var prefixed := PrefixKey(tenant, name);
      var hash := if prefixed in tables.data then tables.data[prefixed] else Hash(map[]);
      if hash.Hash? && field in hash.fields {
        tables.data := tables.data[prefixed := Hash(hash.fields - {field})];
        return true;
      }
      return false;
    }

    method PushHead(key: string, values: seq<string>, now: real) returns (length: int)
      modifies tables
      ensures (tables.State(), Number(length)) == Exec(old(tables.State()), ForTenant(tenant, Op.LPush(key, values)), now)
    {
      var prefixed := PrefixKey(tenant, key);
      if prefixed !in tables.data {
        tables.data := tables.data[prefixed := List([])];
        tables.expiry := tables.expiry[prefixed := 0.0];
      }
      var items := [];
      if tables.data[prefixed].List? {
        items := tables.data[prefixed].items;
      }
      ghost var tail := items;
      var n := |values|;
      while n > 0
        invariant 0 <= n <= |values|
        invariant items == values[n..] + tail
      {
        n := n - 1;
        items := [values[n]] + items;
      }
      assert values[0..] == values;
      tables.data := tables.data[prefixed := List(items)];
      assert tables.data == old(tables.data)[prefixed := List(items)];
      return |items|;
    }

    method PushTail(key: string, values: seq<string>, now: real) returns (length: int)
      modifies tables
      ensures (tables.State(), Number(length)) == Exec(old(tables.State()), ForTenant(tenant, Op.RPush(key, values)), now)
    {
      var prefixed := PrefixKey(tenant, key);
      if prefixed !in tables.data {
        tables.data := tables.data[prefixed := List([])];
        tables.expiry := tables.expiry[prefixed := 0.0];
      }
      var items := [];
      if tables.data[prefixed].List? {
        items := tables.data[prefixed].items;
      }
      items := items + values;
      tables.data := tables.data[prefixed := List(items)];
      assert tables.data == old(tables.data)[prefixed := List(items)];
      return |items|;
    }

    method Range(key: string, start: int, end: int, now: real) returns (items: seq<string>)
      modifies tables
      ensures (tables.State(), Items(items)) == Exec(old(tables.State()), ForTenant(tenant, Op.LRange(key, start, end)), now)
    {
      var prefixed := PrefixKey(tenant, key);
      var expired := IsExpired(prefixed, now);
      if expired {
        tables.Drop(prefixed);
        return [];
      }
      var list := if prefixed in tables.data then tables.data[prefixed] else List([]);
      if !list.List? {
        return [];
      }
      if end == -1 {
        return PySlice(list.items, start, |list.items|);
      }
      return PySlice(list.items, start, end + 1);
    }

    method Length(key: string, now: real) returns (length: int)
      ensures (tables.State(), Number(length)) == Exec(tables.State(), ForTenant(tenant, Op.LLen(key)), now)
    {
      var prefixed := PrefixKey(tenant, key);
      var expired := IsExpired(prefixed, now);
      if expired {
        return 0;
      }
      var list := if prefixed in tables.data then tables.data[prefixed] else List([]);
      return if list.List? then |list.items| else 0;
    }

    /** The background sweep: collect the expired keys, then drop them. */
    method RemoveExpired(order: seq<string>, now: real)
      requires Enumerates(order, tables.expiry.Keys)
      modifies tables
      ensures (tables.State(), Silent) == Exec(old(tables.State()), ForTenant(tenant, Sweep), now)
    {
      ghost var before := tables.State();
      var expiredKeys := [];
      for n := 0 to |order|
        invariant forall k :: k in expiredKeys <==> k in order[..n] && Stale(before, k, now)
      {
        assert order[..n + 1] == order[..n] + [order[n]];
        assert order[n] in order;
        var expTime := tables.expiry[order[n]];
        if expTime > 0.0 && expTime < now {
          expiredKeys := expiredKeys + [order[n]];
        }
      }
      assert order[..|order|] == order;
      for n := 0 to |expiredKeys|
        invariant tables.State() == Cache(before.data - Elements(expiredKeys[..n]), before.expiry - Elements(expiredKeys[..n]))
      {
        assert expiredKeys[..n + 1] == expiredKeys[..n] + [expiredKeys[n]];
        assert Elements(expiredKeys[..n + 1]) == Elements(expiredKeys[..n]) + {expiredKeys[n]};
        tables.Drop(expiredKeys[n]);
      }
      assert expiredKeys[..|expiredKeys|] == expiredKeys;
      assert forall k :: k in order <==> k in before.expiry;
      assert Elements(expiredKeys) == StaleKeys(before, now);
    }

    /** On reachable tables the active count is exactly the number of live keys. */
    method GetStats(order: seq<string>, now: real) returns (total: int, active: int, pending: int)
      requires Enumerates(order, tables.expiry.Keys)
      requires Bounded(tables.State())
      ensures total == |tables.data| && pending == |StaleKeys(tables.State(), now)|
      ensures active == |Live(tables.State(), now)|
    {
      total := |tables.data|;
      pending := 0;
      ghost var counted: set<string> := {};
      for n := 0 to |order|
        invariant counted == set k | k in order[..n] && Stale(tables.State(), k, now)
        invariant pending == |counted|
      {
        assert order[..n + 1] == order[..n] + [order[n]];
        assert order[n] !in order[..n];
        var expired := IsExpired(order[n], now);
        if expired {
          pending := pending + 1;
          counted := counted + {order[n]};
        }
      }
      assert order[..|order|] == order;
      assert forall k :: k in order <==> k in tables.expiry;
      assert counted == StaleKeys(tables.State(), now);
      active := total - pending;
      ActiveKeysAreLive(tables.State(), now);
    }
  }

  /** One turn of the `mget` loop. */
  lemma ReadNext(c: Cache, keys: seq<string>, n: nat, now: real)
    requires n < |keys|
    ensures var d := ReapAll(c, keys[..n], now);
            && ReapAll(c, keys[..n + 1], now) == (if Stale(d, keys[n], now) then Pop(d, keys[n]) else d)
            && ReadAll(c, keys[..n + 1], now)
               == ReadAll(c, keys[..n], now) + [if Stale(d, keys[n], now) then None else Raw(d, keys[n])]
  {
    assert keys[..n + 1][..n] == keys[..n];
    ReapedRead(c, keys[..n], keys[n], now);
  }

  /** One turn of the `delete_many` loop. */
  lemma PopNext(c: Cache, keys: seq<string>, n: nat)
    requires n < |keys|
    ensures var (d, count) := PopAll(c, keys[..n]);
            PopAll(c, keys[..n + 1]) == if keys[n] in d.data then (Pop(d, keys[n]), count + 1) else (d, count)
  {
    assert keys[..n + 1][..n] == keys[..n];
  }

  /** Dropping earlier expired keys does not change what the next read finds. */
  lemma {:induction false} ReapedRead(c: Cache, keys: seq<string>, k: string, now: real)
    ensures var d := ReapAll(c, keys, now);
            && (Stale(d, k, now) ==> Stale(c, k, now))
            && (!Stale(d, k, now) ==> Raw(d, k) == if Stale(c, k, now) then None else Raw(c, k))
  {
    if keys != [] {
      ReapedRead(c, keys[..|keys| - 1], k, now);
    }
  }
}
