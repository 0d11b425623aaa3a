/** Small shared vocabulary: optional values, results and a few facts about sequences. */
module Common {

  datatype Option<+T> = None | Some(value: T)

  datatype Result<+T, +E> = Ok(value: T) | Err(error: E)

  ghost predicate Distinct<T>(s: seq<T>) {
    forall i, j :: 0 <= i < j < |s| ==> s[i] != s[j]
  }

  function Elements<T(!new)>(s: seq<T>): (r: set<T>)
    ensures forall x :: x in r <==> x in s
  {
    set x | x in s
  }

  /** `order` lists exactly the members of `s`, each once: one order in which Python may walk a dict. */
  ghost predicate Enumerates<T(!new)>(order: seq<T>, s: set<T>) {
    Distinct(order) && Elements(order) == s
  }

  lemma {:induction false} EnumerationLength<T(!new)>(order: seq<T>, s: set<T>)
    requires Enumerates(order, s)
    ensures |order| == |s|
  {
    if order != [] {
      var last := order[|order| - 1];
      var front := order[..|order| - 1];
      assert order == front + [last];
      assert Elements(front) == s - {last};
      EnumerationLength(front, s - {last});
    } else {
      assert s == {};
    }
  }

  function Min(a: int, b: int): int {
    if a <= b then a else b
  }

  function Max(a: int, b: int): int {
    if a >= b then a else b
  }

  function Flatten<T>(ss: seq<seq<T>>): seq<T> {
    if ss == [] then [] else ss[0] + Flatten(ss[1..])
  }

  lemma {:induction false} FlattenAppend<T>(a: seq<seq<T>>, b: seq<seq<T>>)
    ensures Flatten(a + b) == Flatten(a) + Flatten(b)
  {
    if a == [] {
      assert a + b == b;
    } else {
      assert (a + b)[1..] == a[1..] + b;
      FlattenAppend(a[1..], b);
      assert (a[0] + Flatten(a[1..])) + Flatten(b) == a[0] + (Flatten(a[1..]) + Flatten(b));
    }
  }

  lemma FlattenOne<T>(s: seq<T>)
    ensures Flatten([s]) == s
  {
    assert [s][1..] == [];
  }

  lemma Regroup<T>(a: seq<T>, b: seq<T>, c: seq<T>)
    ensures (a + b) + c == a + (b + c)
  {
  }

  lemma SameTail<T>(p: seq<T>, x: seq<T>, y: seq<T>)
    ensures p + x == p + y <==> x == y
  {
    assert (p + x)[|p|..] == x && (p + y)[|p|..] == y;
  }

  /** A sequence cut at `mid`. */
  lemma FlattenCut<T>(all: seq<T>, lo: nat, mid: nat, later: seq<seq<T>>)
    requires lo <= mid <= |all| && Flatten(later) == all[mid..]
    ensures Flatten([all[lo..mid]] + later) == all[lo..]
  {
    var page := all[lo..mid];
    assert ([page] + later)[1..] == later;
    assert page + all[mid..] == all[lo..];
  }

  lemma QuotientUnique(n: nat, d: nat, q: nat)
    requires d > 0 && q * d <= n < q * d + d
    ensures n / d == q
  {
    var e := n / d;
    assert n == d * e + n % d;
    MulStep(d, q);
    MulStep(d, e);
    if e > q {
      MulMono(d, q + 1, e);
    } else if e < q {
      MulMono(d, e + 1, q);
    }
  }

  lemma MulStep(d: nat, a: nat)
    ensures d * (a + 1) == a * d + d
  {
  }

  lemma MulMono(d: nat, a: nat, b: nat)
    requires a <= b
    ensures d * a <= d * b
  {
  }

  lemma DivStep(n: nat, limit: nat)
    requires 1 <= limit <= n
    ensures n / limit == 1 + (n - limit) / limit
  {
    var q := (n - limit) / limit;
    assert n - limit == limit * q + (n - limit) % limit;
    assert (q + 1) * limit == limit * q + limit;
    QuotientUnique(n, limit, q + 1);
  }
}
