/** Python's order on strings (code point by code point) and sorting by a string key. */
module Ordering {
  /** Python's `a < b` on strings. */
  predicate Less(a: string, b: string) {
    if b == "" then false
    else if a == "" then true
    else a[0] < b[0] || (a[0] == b[0] && Less(a[1..], b[1..]))
  }

  lemma {:induction false} LessTotal(a: string, b: string)
    ensures Less(a, b) || a == b || Less(b, a)
    ensures !(Less(a, b) && Less(b, a))
    ensures !Less(a, a)
  {
    if a != "" && b != "" {
      LessTotal(a[1..], b[1..]);
      if a[0] == b[0] && a[1..] == b[1..] {
        assert a == [a[0]] + a[1..] == b;
      }
    }
    if a != "" {
      LessTotal(a[1..], a[1..]);
    }
  }

  lemma {:induction false} LessTransitive(a: string, b: string, c: string)
    requires Less(a, b) && Less(b, c)
    ensures Less(a, c)
  {
    if a != "" && a[0] == b[0] == c[0] {
      LessTransitive(a[1..], b[1..], c[1..]);
    }
  }

  /** Pairs of a mapping, in some order. */
  datatype Pair<+V> = Pair(key: string, value: V)

  /** `d[key] = value`: a key that is there keeps its place. */
  function PutPair<V>(ps: seq<Pair<V>>, p: Pair<V>): seq<Pair<V>> {
    if ps == [] then [p]
    else if ps[0].key == p.key then [p] + ps[1..]
    else [ps[0]] + PutPair(ps[1..], p)
  }

  ghost predicate DistinctKeys<V>(ps: seq<Pair<V>>) {
    forall i, j :: 0 <= i < j < |ps| ==> ps[i].key != ps[j].key
  }

  ghost predicate SortedByKey<V>(ps: seq<Pair<V>>) {
    forall i, j :: 0 <= i < j < |ps| ==> Less(ps[i].key, ps[j].key)
  }

  lemma {:induction false} PutPairKeys<V(!new)>(ps: seq<Pair<V>>, p: Pair<V>)
    requires DistinctKeys(ps)
    ensures DistinctKeys(PutPair(ps, p))
    ensures forall q :: q in PutPair(ps, p) <==> q == p || (q in ps && q.key != p.key)
  {
    if ps != [] {
      HeadKeyApart(ps);
      if ps[0].key != p.key {
        PutPairKeys(ps[1..], p);
        var r := PutPair(ps[1..], p);
        forall j | 0 <= j < |r| ensures r[j].key != ps[0].key { assert r[j] in r; }
      }
    }
  }

  lemma HeadKeyApart<V(!new)>(ps: seq<Pair<V>>)
    requires ps != [] && DistinctKeys(ps)
    ensures DistinctKeys(ps[1..])
    ensures forall q :: q in ps[1..] ==> q.key != ps[0].key
    ensures forall q :: q in ps <==> q == ps[0] || q in ps[1..]
  {
    assert ps == [ps[0]] + ps[1..];
  }

  function Insert<V(!new)>(p: Pair<V>, ps: seq<Pair<V>>): (r: seq<Pair<V>>)
    ensures |r| == |ps| + 1
    ensures forall q :: q in r <==> q == p || q in ps
  {
    if ps == [] || Less(p.key, ps[0].key) then [p] + ps
    else
      var rest := Insert(p, ps[1..]);
      assert ps == [ps[0]] + ps[1..];
      [ps[0]] + rest
  }

  /** `sorted(d.items())` for a dict with string keys. */
  function SortPairs<V(!new)>(ps: seq<Pair<V>>): (r: seq<Pair<V>>)
    ensures |r| == |ps|
    ensures forall q :: q in r <==> q in ps
  {
    if ps == [] then []
    else
      assert ps == [ps[0]] + ps[1..];
      Insert(ps[0], SortPairs(ps[1..]))
  }

  lemma {:induction false} InsertSorted<V(!new)>(p: Pair<V>, ps: seq<Pair<V>>)
    requires SortedByKey(ps)
    requires forall q :: q in ps ==> q.key != p.key
    ensures SortedByKey(Insert(p, ps))
  {
    if ps == [] {
    } else if Less(p.key, ps[0].key) {
      var r := [p] + ps;
      forall j | 1 <= j < |r| ensures Less(r[0].key, r[j].key) {
        if j > 1 {
          LessTransitive(p.key, ps[0].key, ps[j - 1].key);
        }
      }
    } else {
      LessTotal(p.key, ps[0].key);
      assert ps[0] in ps;
      var rest := Insert(p, ps[1..]);
      InsertSorted(p, ps[1..]);
      forall j | 0 <= j < |rest| ensures Less(ps[0].key, rest[j].key) {
        assert rest[j] in rest;
        if rest[j] != p {
          var i :| 0 <= i < |ps[1..]| && ps[1..][i] == rest[j];
          assert ps[1..][i] == ps[i + 1];
        }
      }
    }
  }

  lemma {:induction false} SortPairsSorted<V(!new)>(ps: seq<Pair<V>>)
    requires DistinctKeys(ps)
    ensures SortedByKey(SortPairs(ps))
  {
    if ps != [] {
      SortPairsSorted(ps[1..]);
      forall q | q in SortPairs(ps[1..]) ensures q.key != ps[0].key {
        var i :| 0 <= i < |ps[1..]| && ps[1..][i] == q;
        assert ps[i + 1] == q;
      }
      InsertSorted(ps[0], SortPairs(ps[1..]));
    }
  }

  /** A mapping has one sorted enumeration: sorting forgets the insertion order, and only that. */
  lemma {:induction false} SortedUnique<V(!new)>(a: seq<Pair<V>>, b: seq<Pair<V>>)
    requires SortedByKey(a) && SortedByKey(b)
    requires forall q :: q in a <==> q in b
    ensures a == b
  {
    assert a != [] ==> a[0] in b;
    assert b != [] ==> b[0] in a;
    if a != [] && b != [] {
      HeadIsLeast(a, b);
      forall q | q in a[1..] ensures q in b[1..] { TailMember(a, b, q); }
      forall q | q in b[1..] ensures q in a[1..] { TailMember(b, a, q); }
      SortedUnique(a[1..], b[1..]);
      assert a == [a[0]] + a[1..];
      assert b == [b[0]] + b[1..];
    }
  }

  lemma HeadIsLeast<V(!new)>(a: seq<Pair<V>>, b: seq<Pair<V>>)
    requires a != [] && b != [] && SortedByKey(a) && SortedByKey(b)
    requires forall q :: q in a <==> q in b
    ensures a[0] == b[0]
  {
    assert a[0] in b && b[0] in a;
    var i :| 0 <= i < |b| && b[i] == a[0];
    var j :| 0 <= j < |a| && a[j] == b[0];
    if i != 0 && j != 0 {
      LessTotal(a[0].key, b[0].key);
      assert false;
    }
  }

  lemma TailMember<V(!new)>(a: seq<Pair<V>>, b: seq<Pair<V>>, q: Pair<V>)
    requires a != [] && b != [] && SortedByKey(a) && a[0] == b[0]
    requires q in a[1..] && forall q :: q in a ==> q in b
    ensures q in b[1..]
  {
    var i :| 0 <= i < |a[1..]| && a[1..][i] == q;
    assert a[i + 1] == q;
    assert q in a;
    LessTotal(a[0].key, q.key);
    var j :| 0 <= j < |b| && b[j] == q;
    assert j != 0;
    assert b[1..][j - 1] == q;
  }

  /** The mapping a list of pairs denotes (a later pair overrides an earlier one). */
  function ToMap<V(!new)>(ps: seq<Pair<V>>): (m: map<string, V>)
    ensures forall k :: k in m <==> exists p :: p in ps && p.key == k
  {
    if ps == [] then map[]
    else
      var front := ps[..|ps| - 1];
      var last := ps[|ps| - 1];
      assert ps == front + [last];
      ToMap(front)[last.key := last.value]
  }

  lemma {:induction false} ToMapLookup<V(!new)>(ps: seq<Pair<V>>, p: Pair<V>)
    requires DistinctKeys(ps)
    ensures p in ps <==> p.key in ToMap(ps) && ToMap(ps)[p.key] == p.value
  {
    if ps != [] {
      var front := ps[..|ps| - 1];
      var last := ps[|ps| - 1];
      assert ps == front + [last];
      ToMapLookup(front, p);
      assert forall i :: 0 <= i < |front| ==> front[i].key == ps[i].key;
    }
  }

  /** Two dicts are equal exactly when sorting their items gives the same list. */
  lemma SortedIffSameMap<V(!new)>(a: seq<Pair<V>>, b: seq<Pair<V>>)
    requires DistinctKeys(a) && DistinctKeys(b)
    ensures SortPairs(a) == SortPairs(b) <==> ToMap(a) == ToMap(b)
  {
    forall p: Pair<V> ensures p in a <==> p.key in ToMap(a) && ToMap(a)[p.key] == p.value { ToMapLookup(a, p); }
    forall p: Pair<V> ensures p in b <==> p.key in ToMap(b) && ToMap(b)[p.key] == p.value { ToMapLookup(b, p); }
    if ToMap(a) == ToMap(b) {
      forall q ensures q in SortPairs(a) <==> q in SortPairs(b) {}
      SortPairsSorted(a);
      SortPairsSorted(b);
      SortedUnique(SortPairs(a), SortPairs(b));
    }
    if SortPairs(a) == SortPairs(b) {
      forall p: Pair<V> ensures p in a <==> p in b {
        assert p in SortPairs(a) <==> p in a;
        assert p in SortPairs(b) <==> p in b;
      }
      forall k ensures k in ToMap(a) <==> k in ToMap(b) {}
      forall k | k in ToMap(a) ensures k in ToMap(b) && ToMap(a)[k] == ToMap(b)[k] {
        assert Pair(k, ToMap(a)[k]) in a;
      }
    }
  }
}
