/** WHERE and ORDER BY over a table scan. Rows that tie come in scan order, and the scan order is
    arbitrary, so ties come in any order. */
module OrderBy {
  import opened Common

  ghost predicate StrictWeak<T(!new)>(before: (T, T) -> bool) {
    && (forall a, b :: before(a, b) ==> !before(b, a))
    && (forall a, b, c :: !before(b, a) && !before(c, b) ==> !before(c, a))
  }

  ghost predicate InOrder<T>(xs: seq<T>, before: (T, T) -> bool) {
    forall i, j :: 0 <= i < j < |xs| ==> !before(xs[j], xs[i])
  }

  function Where<T(!new)>(xs: seq<T>, keep: T -> bool): (r: seq<T>)
    ensures forall x :: x in r <==> x in xs && keep(x)
  {
    if xs == [] then []
    else
      assert xs == [xs[0]] + xs[1..];
      (if keep(xs[0]) then [xs[0]] else []) + Where(xs[1..], keep)
  }

  lemma {:induction false} WhereDistinct<T(!new)>(xs: seq<T>, keep: T -> bool)
    requires Distinct(xs)
    ensures Distinct(Where(xs, keep))
  {
    if xs != [] {
      WhereDistinct(xs[1..], keep);
      assert xs[0] !in xs[1..];
    }
  }

  function Place<T(!new)>(x: T, ys: seq<T>, before: (T, T) -> bool): (r: seq<T>)
    ensures multiset(r) == multiset(ys) + multiset{x}
  {
    if ys == [] || !before(ys[0], x) then [x] + ys
    else
      assert ys == [ys[0]] + ys[1..];
      [ys[0]] + Place(x, ys[1..], before)
  }

  function Sorted<T(!new)>(xs: seq<T>, before: (T, T) -> bool): (r: seq<T>)
    ensures multiset(r) == multiset(xs)
  {
    if xs == [] then []
    else
      assert xs == [xs[0]] + xs[1..];
      Place(xs[0], Sorted(xs[1..], before), before)
  }

  lemma SameMembers<T>(a: seq<T>, b: seq<T>)
    requires multiset(a) == multiset(b)
    ensures forall x :: x in a <==> x in b
  {
    forall x ensures x in a <==> x in b {
      assert x in a <==> x in multiset(a);
    }
  }

  lemma {:induction false} PlaceInOrder<T(!new)>(x: T, ys: seq<T>, before: (T, T) -> bool)
    requires StrictWeak(before) && InOrder(ys, before)
    ensures InOrder(Place(x, ys, before), before)
  {
    var r := Place(x, ys, before);
    if ys == [] {
    } else if !before(ys[0], x) {
      forall j | 1 <= j < |r| ensures !before(r[j], r[0]) {
        assert j > 1 ==> !before(ys[j - 1], ys[0]);
      }
    } else {
      var rest := Place(x, ys[1..], before);
      PlaceInOrder(x, ys[1..], before);
      forall j | 0 <= j < |rest| ensures !before(rest[j], ys[0]) {
        assert rest[j] in multiset(rest);
        if rest[j] != x {
          assert rest[j] in ys[1..];
        }
      }
    }
  }

  lemma {:induction false} SortedInOrder<T(!new)>(xs: seq<T>, before: (T, T) -> bool)
    requires StrictWeak(before)
    ensures InOrder(Sorted(xs, before), before)
  {
    if xs != [] {
      SortedInOrder(xs[1..], before);
      PlaceInOrder(xs[0], Sorted(xs[1..], before), before);
    }
  }

  lemma {:induction false} PlaceDistinct<T(!new)>(x: T, ys: seq<T>, before: (T, T) -> bool)
    requires Distinct(ys) && x !in ys
    ensures Distinct(Place(x, ys, before))
  {
    if ys != [] && before(ys[0], x) {
      PlaceDistinct(x, ys[1..], before);
      var rest := Place(x, ys[1..], before);
      assert ys[0] !in ys[1..];
      assert ys[0] !in multiset(rest);
    }
  }

  lemma {:induction false} SortedDistinct<T(!new)>(xs: seq<T>, before: (T, T) -> bool)
    requires Distinct(xs)
    ensures Distinct(Sorted(xs, before))
  {
    if xs != [] {
      SortedDistinct(xs[1..], before);
      assert xs[0] !in xs[1..];
      SameMembers(Sorted(xs[1..], before), xs[1..]);
      PlaceDistinct(xs[0], Sorted(xs[1..], before), before);
    }
  }

  /** A dict comprehension: a later item overrides an earlier one with the same key. */
  function DictOf<T, V>(xs: seq<T>, key: T -> string, value: T -> V): map<string, V> {
    if xs == [] then map[]
    else DictOf(xs[..|xs| - 1], key, value)[key(xs[|xs| - 1]) := value(xs[|xs| - 1])]
  }

  /** With distinct keys no item is lost. */
  lemma {:induction false} DictOfFinds<T, V>(xs: seq<T>, key: T -> string, value: T -> V, i: nat)
    requires i < |xs| && forall j, k :: 0 <= j < k < |xs| ==> key(xs[j]) != key(xs[k])
    ensures key(xs[i]) in DictOf(xs, key, value) && DictOf(xs, key, value)[key(xs[i])] == value(xs[i])
  {
    if i < |xs| - 1 {
      DictOfFinds(xs[..|xs| - 1], key, value, i);
    }
  }
}
