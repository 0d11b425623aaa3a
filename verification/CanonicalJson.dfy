/** `json.dumps(x, sort_keys=True)`: one text for each dict, whatever its insertion order. */
module CanonicalJson {
  import opened Ordering
  import opened Json
  import opened JsonRoundTrip

  /** The value with the members of every object sorted by key, at every depth. */
  function Canon(v: Value): Value
    decreases v, 1
  {
    match v
    case Arr(items) => Arr(CanonItems(items))
    case Obj(ms) => Obj(SortPairs(CanonMembers(ms)))
    case _ => v
  }

  function CanonItems(items: seq<Value>): (r: seq<Value>)
    ensures |r| == |items|
    ensures forall i :: 0 <= i < |r| ==> r[i] == Canon(items[i])
    decreases items, 0
  {
    if items == [] then [] else [Canon(items[0])] + CanonItems(items[1..])
  }

  function CanonMembers(ms: seq<Pair<Value>>): (r: seq<Pair<Value>>)
    ensures |r| == |ms|
    ensures forall i :: 0 <= i < |r| ==> r[i].key == ms[i].key && r[i].value == Canon(ms[i].value)
    decreases ms, 0
  {
    if ms == [] then [] else [Pair(ms[0].key, Canon(ms[0].value))] + CanonMembers(ms[1..])
  }

  function DumpsSorted(v: Value, f: Format): string { Dumps(Canon(v), f) }

  predicate HasKey(ms: seq<Pair<Value>>, k: string) {
    exists i :: 0 <= i < |ms| && ms[i].key == k
  }

  /** `d[k]`. */
  function Lookup(ms: seq<Pair<Value>>, k: string): (m: Pair<Value>)
    requires HasKey(ms, k)
    ensures m in ms && m.key == k
  {
    if ms[0].key == k then ms[0]
    else
      assert forall i :: 0 < i < |ms| ==> ms[1..][i - 1] == ms[i];
      Lookup(ms[1..], k)
  }

  /** The same printed value up to the order of keys: lists element by element, dicts as mappings. (Python's
      own `==` also takes 1, 1.0 and True for one value; these stay apart.) */
  ghost predicate Same(a: Value, b: Value)
    decreases a
  {
    match a
    case Arr(xs) =>
      b.Arr? && |xs| == |b.items| && forall i :: 0 <= i < |xs| ==> Same(xs[i], b.items[i])
    case Obj(ms) =>
      b.Obj? &&
      (forall i :: 0 <= i < |b.members| ==> HasKey(ms, b.members[i].key)) &&
      (forall i :: 0 <= i < |ms| ==>
         HasKey(b.members, ms[i].key) && Same(ms[i].value, Lookup(b.members, ms[i].key).value))
    case _ => a == b
  }

  lemma {:induction false} CanonWellFormed(v: Value)
    requires WellFormed(v)
    ensures WellFormed(Canon(v))
    decreases v
  {
    match v
    case Arr(items) =>
      forall i | 0 <= i < |items| ensures WellFormed(Canon(items[i])) { CanonWellFormed(items[i]); }
    case Obj(ms) =>
      var cs := CanonMembers(ms);
      var ss := SortPairs(cs);
      SortPairsSorted(cs);
      forall i, j | 0 <= i < j < |ss| ensures ss[i].key != ss[j].key { LessTotal(ss[i].key, ss[j].key); }
      forall k | 0 <= k < |ss| ensures WellFormed(ss[k].value) {
        assert ss[k] in ss;
        var i :| 0 <= i < |cs| && cs[i] == ss[k];
        CanonWellFormed(ms[i].value);
      }
    case _ =>
  }

  /** Every member of `ms` has its key in `ns`, with a value of the same canonical form. */
  ghost predicate Matched(ms: seq<Pair<Value>>, ns: seq<Pair<Value>>) {
    forall i :: 0 <= i < |ms| ==>
      HasKey(ns, ms[i].key) && Canon(ms[i].value) == Canon(Lookup(ns, ms[i].key).value)
  }

  lemma LookupOnly(ns: seq<Pair<Value>>, j: nat)
    requires DistinctKeys(ns) && j < |ns|
    ensures HasKey(ns, ns[j].key) && Lookup(ns, ns[j].key) == ns[j]
  {
    var m := Lookup(ns, ns[j].key);
    var k :| 0 <= k < |ns| && ns[k] == m;
    assert k == j;
  }

  lemma MatchedSubset(ms: seq<Pair<Value>>, ns: seq<Pair<Value>>)
    requires Matched(ms, ns)
    ensures forall q :: q in CanonMembers(ms) ==> q in CanonMembers(ns)
  {
    var cs, ds := CanonMembers(ms), CanonMembers(ns);
    forall i | 0 <= i < |ms| ensures cs[i] in ds {
      var m := Lookup(ns, ms[i].key);
      var j :| 0 <= j < |ns| && ns[j] == m;
      assert cs[i] == ds[j];
    }
  }

  lemma MatchedSort(ms: seq<Pair<Value>>, ns: seq<Pair<Value>>)
    requires DistinctKeys(ms) && DistinctKeys(ns) && Matched(ms, ns) && Matched(ns, ms)
    ensures SortPairs(CanonMembers(ms)) == SortPairs(CanonMembers(ns))
  {
    var cs, ds := CanonMembers(ms), CanonMembers(ns);
    MatchedSubset(ms, ns);
    MatchedSubset(ns, ms);
    SortPairsSorted(cs);
    SortPairsSorted(ds);
    SortedUnique(SortPairs(cs), SortPairs(ds));
  }

  lemma SortedMatch(ms: seq<Pair<Value>>, ns: seq<Pair<Value>>)
    requires DistinctKeys(ns) && SortPairs(CanonMembers(ms)) == SortPairs(CanonMembers(ns))
    ensures Matched(ms, ns)
  {
    var cs, ds := CanonMembers(ms), CanonMembers(ns);
    forall i | 0 <= i < |ms|
      ensures HasKey(ns, ms[i].key) && Canon(ms[i].value) == Canon(Lookup(ns, ms[i].key).value)
    {
      assert cs[i] in SortPairs(cs);
      assert cs[i] in ds;
      var j :| 0 <= j < |ds| && ds[j] == cs[i];
      assert ns[j].key == ms[i].key;
      LookupOnly(ns, j);
    }
  }

  lemma {:induction false} SameIsCanon(a: Value, b: Value)
    requires WellFormed(a) && WellFormed(b) && Same(a, b)
    ensures Canon(a) == Canon(b)
    decreases a, 1
  {
    match a
    case Arr(xs) =>
      forall i | 0 <= i < |xs| ensures Canon(xs[i]) == Canon(b.items[i]) { SameIsCanon(xs[i], b.items[i]); }
      assert CanonItems(xs) == CanonItems(b.items);
    case Obj(ms) =>
      SameMembersMatch(a, b);
      MatchedBack(ms, b.members);
      MatchedSort(ms, b.members);
    case _ =>
  }

  lemma {:induction false} SameMembersMatch(a: Value, b: Value)
    requires WellFormed(a) && WellFormed(b) && Same(a, b) && a.Obj?
    ensures Matched(a.members, b.members)
    decreases a, 0
  {
    var ms, ns := a.members, b.members;
    forall i | 0 <= i < |ms|
      ensures HasKey(ns, ms[i].key) && Canon(ms[i].value) == Canon(Lookup(ns, ms[i].key).value)
    {
      var m := Lookup(ns, ms[i].key);
      var j :| 0 <= j < |ns| && ns[j] == m;
      SameIsCanon(ms[i].value, ns[j].value);
    }
  }

  lemma MatchedBack(ms: seq<Pair<Value>>, ns: seq<Pair<Value>>)
    requires DistinctKeys(ms) && DistinctKeys(ns) && Matched(ms, ns)
    requires forall i :: 0 <= i < |ns| ==> HasKey(ms, ns[i].key)
    ensures Matched(ns, ms)
  {
    forall j | 0 <= j < |ns|
      ensures Canon(ns[j].value) == Canon(Lookup(ms, ns[j].key).value)
    {
      var m := Lookup(ms, ns[j].key);
      var i :| 0 <= i < |ms| && ms[i] == m;
      LookupOnly(ns, j);
    }
  }

  lemma {:induction false} CanonIsSame(a: Value, b: Value)
    requires WellFormed(a) && WellFormed(b) && Canon(a) == Canon(b)
    ensures Same(a, b)
    decreases a, 1
  {
    match a
    case Arr(xs) =>
      forall i | 0 <= i < |xs| ensures Same(xs[i], b.items[i]) {
        assert CanonItems(xs)[i] == CanonItems(b.items)[i];
        CanonIsSame(xs[i], b.items[i]);
      }
    case Obj(ms) =>
      SortedMatch(ms, b.members);
      SortedMatch(b.members, ms);
      MatchedMembersSame(a, b);
    case _ =>
  }

  lemma {:induction false} MatchedMembersSame(a: Value, b: Value)
    requires WellFormed(a) && WellFormed(b) && a.Obj? && b.Obj?
    requires Matched(a.members, b.members) && Matched(b.members, a.members)
    ensures Same(a, b)
    decreases a, 0
  {
    var ms, ns := a.members, b.members;
    forall i | 0 <= i < |ms|
      ensures HasKey(ns, ms[i].key) && Same(ms[i].value, Lookup(ns, ms[i].key).value)
    {
      var m := Lookup(ns, ms[i].key);
      var j :| 0 <= j < |ns| && ns[j] == m;
      CanonIsSame(ms[i].value, ns[j].value);
    }
  }

  /** Sorted text identifies a value up to the order of its members, and nothing more. */
  lemma SortedTextIffSame(a: Value, b: Value, f: Format)
    requires WellFormed(a) && WellFormed(b)
    ensures DumpsSorted(a, f) == DumpsSorted(b, f) <==> Same(a, b)
  {
    CanonWellFormed(a);
    CanonWellFormed(b);
    DumpsInjective(Canon(a), Canon(b), f);
    if Same(a, b) { SameIsCanon(a, b); }
    if Canon(a) == Canon(b) { CanonIsSame(a, b); }
  }
}
