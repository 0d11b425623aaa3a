/** The in-memory Redis substitute: a store and an expiry table, against a plain timed map.

    `Exec` is one operation of the client on the two tables, taken as one atomic step at one clock
    reading. `Ideal` is the same operation on a map whose entries carry their deadline and vanish
    by themselves. `now` is a positive wall-clock time in seconds. */
module TimedCache {
  import opened Common
  import opened Numerals

  datatype Value = Text(text: string) | Hash(fields: map<string, string>) | List(items: seq<string>)

  datatype Cache = Cache(data: map<string, Value>, expiry: map<string, real>)

  datatype Op =
    | Set(key: string, value: string, ttl: int)
    | Get(key: string)
    | Delete(key: string)
    | Exists(key: string)
    | Ttl(key: string)
    | Expire(key: string, ttl: int)
    | Incr(key: string, amount: int)
    | MSet(pairs: seq<(string, string)>)
    | MGet(keys: seq<string>)
    | DeleteMany(keys: seq<string>)
    | Flush(prefix: string)
    | FlushAll
    | HSet(key: string, field: string, value: string)
    | HGet(key: string, field: string)
    | HGetAll(key: string)
    | HDel(key: string, field: string)
    | LPush(key: string, values: seq<string>)
    | RPush(key: string, values: seq<string>)
    | LRange(key: string, start: int, end: int)
    | LLen(key: string)
    | Sweep

  datatype Out =
    | Silent
    | Failed
    | Flag(b: bool)
    | Number(n: int)
    | Found(v: Option<Value>)
    | FoundAll(vs: seq<Option<Value>>)
    | Fields(m: map<string, string>)
    | Items(items: seq<string>)

  // ---------------------------------------------------------------- shared pieces

  /** Python's `s[lo:hi]`, negative positions counting from the end. */
  function SliceIndex(i: int, n: nat): (r: nat)
    ensures r <= n
  {
    if i < 0 then Max(0, n + i) else Min(i, n)
  }

  function PySlice<T>(s: seq<T>, lo: int, hi: int): seq<T> {
    var a, b := SliceIndex(lo, |s|), SliceIndex(hi, |s|);
    if a <= b then s[a..b] else []
  }

  /** Redis-style ranges: an end of -1 means "to the last element". */
  function RangeOf(v: Option<Value>, start: int, end: int): seq<string> {
    if v.Some? && v.value.List? then
      if end == -1 then PySlice(v.value.items, start, |v.value.items|)
      else PySlice(v.value.items, start, end + 1)
    else []
  }

  function FieldOf(v: Option<Value>, field: string): Option<Value> {
    if v.Some? && v.value.Hash? && field in v.value.fields then Some(Text(v.value.fields[field])) else None
  }

  function FieldsOf(v: Option<Value>): map<string, string> {
    if v.Some? && v.value.Hash? then v.value.fields else map[]
  }

  function LengthOf(v: Option<Value>): int {
    if v.Some? && v.value.List? then |v.value.items| else 0
  }

  /** The number an increment works on; a text that is no number counts as zero. */
  function CounterOf(v: Option<Value>): int {
    if v.Some? && v.value.Text? then
      match ParseInt(v.value.text)
      case Some(n) => n
      case None => 0
    else 0
  }

  function WithField(v: Option<Value>, field: string, value: string): Value {
    Hash(FieldsOf(v)[field := value])
  }

  function ItemsOf(v: Option<Value>): seq<string> {
    if v.Some? && v.value.List? then v.value.items else []
  }

  // ---------------------------------------------------------------- the client's tables

  predicate Stale(c: Cache, k: string, now: real) {
    k in c.expiry && 0.0 < c.expiry[k] < now
  }

  function Pop(c: Cache, k: string): Cache { Cache(c.data - {k}, c.expiry - {k}) }

  /** Lazy expiry: drop the key if its time has passed. */
  function Reap(c: Cache, k: string, now: real): Cache {
    if Stale(c, k, now) then Pop(c, k) else c
  }

  function Raw(c: Cache, k: string): Option<Value> { if k in c.data then Some(c.data[k]) else None }

  function Store(c: Cache, k: string, v: Value): Cache { c.(data := c.data[k := v]) }

  /** Write a value; a new key also gets the "no expiry" mark. */
  function Upsert(c: Cache, k: string, v: Value): Cache {
    if k in c.data then Store(c, k, v) else Cache(c.data[k := v], c.expiry[k := 0.0])
  }

  function PutPlain(c: Cache, k: string, v: Value): Cache { Cache(c.data[k := v], c.expiry[k := 0.0]) }

  function PutAll(c: Cache, pairs: seq<(string, string)>): Cache {
    if pairs == [] then c
    else PutPlain(PutAll(c, pairs[..|pairs| - 1]), pairs[|pairs| - 1].0, Text(pairs[|pairs| - 1].1))
  }

  function ReapAll(c: Cache, keys: seq<string>, now: real): Cache {
    if keys == [] then c else Reap(ReapAll(c, keys[..|keys| - 1], now), keys[|keys| - 1], now)
  }

  function ReadAll(c: Cache, keys: seq<string>, now: real): (r: seq<Option<Value>>)
    ensures |r| == |keys|
    ensures forall i :: 0 <= i < |keys| ==> r[i] == if Stale(c, keys[i], now) then None else Raw(c, keys[i])
  {
    seq(|keys|, i requires 0 <= i < |keys| => if Stale(c, keys[i], now) then None else Raw(c, keys[i]))
  }

  function PopAll(c: Cache, keys: seq<string>): (Cache, nat) {
    if keys == [] then (c, 0)
    else
      var (d, n) := PopAll(c, keys[..|keys| - 1]);
      var k := keys[|keys| - 1];
      if k in d.data then (Pop(d, k), n + 1) else (d, n)
  }

  function Flushed(c: Cache, prefix: string): Cache {
    var gone := set k | k in c.data && prefix <= k;
    Cache(c.data - gone, c.expiry - gone)
  }

  function StaleKeys(c: Cache, now: real): set<string> {
    set k | k in c.expiry && Stale(c, k, now)
  }

  function Swept(c: Cache, now: real): Cache {
    Cache(c.data - StaleKeys(c, now), c.expiry - StaleKeys(c, now))
  }

  /** `int(x)` of a float: towards zero. */
  function Truncate(x: real): int { if x >= 0.0 then x.Floor else -((-x).Floor) }

  function TtlOf(c: Cache, k: string, now: real): int {
    if k !in c.expiry || c.expiry[k] == 0.0 then -1
    else if c.expiry[k] < now then -2
    else Truncate(c.expiry[k] - now)
  }

  function Exec(c: Cache, op: Op, now: real): (Cache, Out) {
    match op
    case Set(k, v, ttl) =>
      (Cache(c.data[k := Text(v)], c.expiry[k := if ttl > 0 then now + ttl as real else 0.0]), Flag(true))
    case Get(k) => (Reap(c, k, now), Found(Raw(Reap(c, k, now), k)))
    case Delete(k) => (Pop(c, k), Flag(k in c.data))
    case Exists(k) => (Reap(c, k, now), Flag(k in Reap(c, k, now).data))
    case Ttl(k) => (c, Number(TtlOf(c, k, now)))
    case Expire(k, ttl) =>
      if k in c.data then (c.(expiry := c.expiry[k := now + ttl as real]), Flag(true)) else (c, Flag(false))
    case Incr(k, amount) =>
      if k in c.data && !c.data[k].Text? then (c, Failed)
      else
        var n := CounterOf(Raw(c, k)) + amount;
        (Store(c, k, Text(IntText(n))), Number(n))
    case MSet(pairs) => (PutAll(c, pairs), Flag(true))
    case MGet(keys) => (ReapAll(c, keys, now), FoundAll(ReadAll(c, keys, now)))
    case DeleteMany(keys) => (PopAll(c, keys).0, Number(PopAll(c, keys).1))
    case Flush(prefix) => (Flushed(c, prefix), Flag(true))
    case FlushAll => (Cache(map[], map[]), Flag(true))
    case HSet(k, f, v) => (Upsert(c, k, WithField(Raw(c, k), f, v)), Flag(true))
    case HGet(k, f) => (Reap(c, k, now), Found(FieldOf(Raw(Reap(c, k, now), k), f)))
    case HGetAll(k) => (Reap(c, k, now), Fields(FieldsOf(Raw(Reap(c, k, now), k))))
    case HDel(k, f) =>
      if f in FieldsOf(Raw(c, k)) then (Store(c, k, Hash(FieldsOf(Raw(c, k)) - {f})), Flag(true)) else (c, Flag(false))
    case LPush(k, vs) =>
      (Upsert(c, k, List(vs + ItemsOf(Raw(c, k)))), Number(|vs| + |ItemsOf(Raw(c, k))|))
    case RPush(k, vs) =>
      (Upsert(c, k, List(ItemsOf(Raw(c, k)) + vs)), Number(|ItemsOf(Raw(c, k))| + |vs|))
    case LRange(k, start, end) => (Reap(c, k, now), Items(RangeOf(Raw(Reap(c, k, now), k), start, end)))
    case LLen(k) => (c, Number(if Stale(c, k, now) then 0 else LengthOf(Raw(c, k))))
    case Sweep => (Swept(c, now), Silent)
  }

  // ---------------------------------------------------------------- the timed map

  datatype Entry = Entry(value: Value, deadline: Option<real>)

  type TimedMap = map<string, Entry>

  predicate Alive(e: Entry, t: real) { e.deadline.None? || t <= e.deadline.value }

  function Purge(m: TimedMap, t: real): TimedMap {
    map k | k in m && Alive(m[k], t) :: m[k]
  }

  function ValueAt(m: TimedMap, k: string): Option<Value> { if k in m then Some(m[k].value) else None }

  /** Change the value and keep the deadline; a new key has none. */
  function Assign(m: TimedMap, k: string, v: Value): TimedMap {
    m[k := Entry(v, if k in m then m[k].deadline else None)]
  }

  function AssignAll(m: TimedMap, pairs: seq<(string, string)>): TimedMap {
    if pairs == [] then m
    else AssignAll(m, pairs[..|pairs| - 1])[pairs[|pairs| - 1].0 := Entry(Text(pairs[|pairs| - 1].1), None)]
  }

  function RemoveAll(m: TimedMap, keys: seq<string>): (TimedMap, nat) {
    if keys == [] then (m, 0)
    else
      var (d, n) := RemoveAll(m, keys[..|keys| - 1]);
      var k := keys[|keys| - 1];
      if k in d then (d - {k}, n + 1) else (d, n)
  }

  /** The operation on a map that holds live entries only. */
  function Ideal(m: TimedMap, op: Op, now: real): (TimedMap, Out) {
    match op
    case Set(k, v, ttl) => (m[k := Entry(Text(v), if ttl > 0 then Some(now + ttl as real) else None)], Flag(true))
    case Get(k) => (m, Found(ValueAt(m, k)))
    case Delete(k) => (m - {k}, Flag(k in m))
    case Exists(k) => (m, Flag(k in m))
    case Ttl(k) =>
      (m, Number(if k in m && m[k].deadline.Some? then (m[k].deadline.value - now).Floor else -1))
    case Expire(k, ttl) =>
      if k in m then (Purge(m[k := m[k].(deadline := Some(now + ttl as real))], now), Flag(true)) else (m, Flag(false))
    case Incr(k, amount) =>
      if k in m && !m[k].value.Text? then (m, Failed)
      else
        var n := CounterOf(ValueAt(m, k)) + amount;
        (Assign(m, k, Text(IntText(n))), Number(n))
    case MSet(pairs) => (AssignAll(m, pairs), Flag(true))
    case MGet(keys) => (m, FoundAll(seq(|keys|, i requires 0 <= i < |keys| => ValueAt(m, keys[i]))))
    case DeleteMany(keys) => (RemoveAll(m, keys).0, Number(RemoveAll(m, keys).1))
    case Flush(prefix) => (map k | k in m && !(prefix <= k) :: m[k], Flag(true))
    case FlushAll => (map[], Flag(true))
    case HSet(k, f, v) => (Assign(m, k, WithField(ValueAt(m, k), f, v)), Flag(true))
    case HGet(k, f) => (m, Found(FieldOf(ValueAt(m, k), f)))
    case HGetAll(k) => (m, Fields(FieldsOf(ValueAt(m, k))))
    case HDel(k, f) =>
      if f in FieldsOf(ValueAt(m, k)) then (Assign(m, k, Hash(FieldsOf(ValueAt(m, k)) - {f})), Flag(true))
      else (m, Flag(false))
    case LPush(k, vs) => (Assign(m, k, List(vs + ItemsOf(ValueAt(m, k)))), Number(|vs| + |ItemsOf(ValueAt(m, k))|))
    case RPush(k, vs) => (Assign(m, k, List(ItemsOf(ValueAt(m, k)) + vs)), Number(|ItemsOf(ValueAt(m, k))| + |vs|))
    case LRange(k, start, end) => (m, Items(RangeOf(ValueAt(m, k), start, end)))
    case LLen(k) => (m, Number(LengthOf(ValueAt(m, k))))
    case Sweep => (m, Silent)
  }
}
