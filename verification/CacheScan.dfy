/** Listing keys: all at once, and page by page. */
module CacheScan {
  import opened Common
  import opened TimedCache
  import opened CacheRefinement
  import opened Globs
  import opened TenantKeys

  /** The live keys that match, in the order the dict is walked. `fnmatch` is an oracle. */
  function Matching(c: Cache, order: seq<string>, matches: (string, string) -> bool, pattern: string, now: real): seq<string> {
    if order == [] then []
    else
      (if matches(order[0], pattern) && !Stale(c, order[0], now) then [order[0]] else [])
      + Matching(c, order[1..], matches, pattern, now)
  }

  lemma {:induction false} MatchingAppend(c: Cache, a: seq<string>, b: seq<string>, matches: (string, string) -> bool, pattern: string, now: real)
    ensures Matching(c, a + b, matches, pattern, now)
         == Matching(c, a, matches, pattern, now) + Matching(c, b, matches, pattern, now)
  {
    if a == [] {
      assert a + b == b;
    } else {
      assert (a + b)[1..] == a[1..] + b;
      MatchingAppend(c, a[1..], b, matches, pattern, now);
    }
  }

  lemma {:induction false} MatchingHas(c: Cache, order: seq<string>, matches: (string, string) -> bool, pattern: string, now: real, k: string)
    ensures k in Matching(c, order, matches, pattern, now) <==> k in order && matches(k, pattern) && !Stale(c, k, now)
  {
    if order != [] {
      MatchingHas(c, order[1..], matches, pattern, now, k);
      HeadOrTail(order, k);
    }
  }

  lemma TailDistinct<T>(s: seq<T>)
    requires s != [] && Distinct(s)
    ensures Distinct(s[1..]) && s[0] !in s[1..]
  {
    assert forall i :: 0 <= i < |s[1..]| ==> s[1..][i] == s[i + 1];
  }

  lemma HeadDistinct<T>(x: T, s: seq<T>)
    requires Distinct(s) && x !in s
    ensures Distinct([x] + s)
  {
  }

  lemma HeadOrTail<T>(s: seq<T>, x: T)
    requires s != []
    ensures x in s <==> x == s[0] || x in s[1..]
  {
    assert s == [s[0]] + s[1..];
  }

  lemma {:induction false} MatchingOnce(c: Cache, order: seq<string>, matches: (string, string) -> bool, pattern: string, now: real)
    requires Distinct(order)
    ensures Distinct(Matching(c, order, matches, pattern, now))
  {
    if order != [] {
      TailDistinct(order);
      MatchingOnce(c, order[1..], matches, pattern, now);
      MatchingHas(c, order[1..], matches, pattern, now, order[0]);
      HeadDistinct(order[0], Matching(c, order[1..], matches, pattern, now));
    }
  }

  /** Whatever the dict order, the keys listed are the matching keys of the live view, each once. */
  lemma {:induction false} MatchingIsLive(c: Cache, order: seq<string>, matches: (string, string) -> bool, pattern: string, now: real)
    requires Distinct(order)
    ensures Distinct(Matching(c, order, matches, pattern, now))
    ensures forall k :: k in Matching(c, order, matches, pattern, now)
              <==> k in order && matches(k, pattern) && !Stale(c, k, now)
    ensures Elements(order) == c.data.Keys ==>
              forall k :: k in Matching(c, order, matches, pattern, now) <==> k in Live(c, now) && matches(k, pattern)
  {
    MatchingOnce(c, order, matches, pattern, now);
    forall k
      ensures k in Matching(c, order, matches, pattern, now) <==> k in order && matches(k, pattern) && !Stale(c, k, now)
    {
      MatchingHas(c, order, matches, pattern, now, k);
    }
    if Elements(order) == c.data.Keys {
      assert forall k :: k in order <==> k in c.data;
    }
  }

  // ---------------------------------------------------------------- whose keys are listed

  function Glob(inClass: (string, char) -> bool): (string, string) -> bool {
    (name: string, pattern: string) => Matches(name, pattern, inClass)
  }

  /** The pattern matches the key exactly when the key is the tenant's and its own name matches. */
  predicate OwnMatch(t: Tenant, pattern: string, k: string, inClass: (string, char) -> bool) {
    Matches(k, PrefixKey(t, pattern), inClass)
    <==> (Prefix(t) <= k && Matches(UnprefixKey(t, k), UnprefixKey(t, pattern), inClass))
  }

  lemma OwnMatchAt(t: Tenant, q: string, k: string, inClass: (string, char) -> bool)
    ensures OwnMatch(t, Prefix(t) + q, k, inClass) <==>
              (Matches(k, Prefix(t) + q, inClass) <==> Prefix(t) <= k && Matches(k[|Prefix(t)|..], q, inClass))
  {
    assert Prefix(t) <= Prefix(t) + q && (Prefix(t) + q)[|Prefix(t)|..] == q;
  }

  /** A tenant's patterns match just its own keys, by their own names, exactly when its prefix has
      none of the characters that patterns give a meaning to. */
  lemma PatternsMatchOwn(t: Tenant, inClass: (string, char) -> bool)
    ensures Literal(Prefix(t)) <==> forall pattern, k :: OwnMatch(t, pattern, k, inClass)
  {
    if Literal(Prefix(t)) {
      forall pattern, k ensures OwnMatch(t, pattern, k, inClass) {
        var q := UnprefixKey(t, pattern);
        StoredKeySplit(t, pattern);
        LiteralPrefix(Prefix(t), q, k, inClass);
      }
    } else {
      var q, k := NotItself(Prefix(t), inClass);
      OwnMatchAt(t, q, k, inClass);
    }
  }

  /** For such a tenant a listing is the live keys under its prefix whose bare names match. */
  lemma ListingIsOwn(c: Cache, order: seq<string>, t: Tenant, pattern: string, now: real, inClass: (string, char) -> bool, k: string)
    requires Literal(Prefix(t)) && Enumerates(order, c.data.Keys)
    ensures k in Matching(c, order, Glob(inClass), PrefixKey(t, pattern), now) <==>
              k in Live(c, now) && Prefix(t) <= k && Matches(UnprefixKey(t, k), UnprefixKey(t, pattern), inClass)
  {
    MatchingIsLive(c, order, Glob(inClass), PrefixKey(t, pattern), now);
    PatternsMatchOwn(t, inClass);
    assert OwnMatch(t, pattern, k, inClass);
  }

  /** Such a tenant can list a key of another tenant exactly when the two are not apart. */
  lemma ListsNoneOfApart(t: Tenant, u: Tenant, inClass: (string, char) -> bool)
    requires Literal(Prefix(t))
    ensures Apart(t, u) <==> forall pattern, k :: Prefix(u) <= k ==> !Matches(k, PrefixKey(t, pattern), inClass)
  {
    ApartIffNoSharedKey(t, u);
    if Apart(t, u) {
      forall pattern, k | Prefix(u) <= k ensures !Matches(k, PrefixKey(t, pattern), inClass) {
        PatternsMatchOwn(t, inClass);
        assert OwnMatch(t, pattern, k, inClass) && Owns(u, k) && (Owns(t, k) <==> Prefix(t) <= k);
      }
    } else {
      var k := if Prefix(t) <= Prefix(u) then Prefix(u) else Prefix(t);
      StarMatchesAll(t, k, inClass);
      assert Prefix(u) <= k && Matches(k, PrefixKey(t, Prefix(t) + "*"), inClass);
    }
  }

  lemma StarMatchesAll(t: Tenant, k: string, inClass: (string, char) -> bool)
    requires Literal(Prefix(t)) && Prefix(t) <= k
    ensures Matches(k, PrefixKey(t, Prefix(t) + "*"), inClass)
  {
    var skipped := k[|Prefix(t)|..];
    StarMatches(Prefix(t), skipped, "", "", inClass);
    assert Prefix(t) + skipped + "" == k && Prefix(t) + "*" + "" == Prefix(t) + "*";
  }

  /** A user whose id is a star lists the keys of every user of the organisation. */
  lemma StarListsEveryone(org: string, user: string, k: string, q: string, inClass: (string, char) -> bool)
    requires Literal(org) && Matches(k, q, inClass)
    ensures Matches(Prefix(Tenant(org, user)) + k, Prefix(Tenant(org, "*")) + q, inClass)
  {
    var before := org + ":";
    LiteralPrefix(":", q, ":" + k, inClass);
    assert (":" + k)[|":"|..] == k;
    StarMatches(before, user, ":" + k, ":" + q, inClass);
    assert Prefix(Tenant(org, user)) + k == before + user + (":" + k);
    assert Prefix(Tenant(org, "*")) + q == before + "*" + (":" + q);
  }

  // ---------------------------------------------------------------- cursors

  function ScanBatch<T>(all: seq<T>, cursor: int, count: int): seq<T> {
    PySlice(all, cursor, Min(cursor + count, |all|))
  }

  function ScanNext<T>(all: seq<T>, cursor: int, count: int): int {
    var end := Min(cursor + count, |all|);
    if end < |all| then end else 0
  }

  /** The batches a caller gets who follows the cursor until it is 0. */
  function ScanAll<T>(all: seq<T>, cursor: nat, count: nat): seq<seq<T>>
    requires count >= 1
    decreases if cursor <= |all| then |all| - cursor else 0
  {
    [ScanBatch(all, cursor, count)] +
    if ScanNext(all, cursor, count) == 0 then [] else ScanAll(all, ScanNext(all, cursor, count), count)
  }

  /** What is left of the listing, cut into pieces. */
  function Batches<T>(all: seq<T>, from: nat, count: nat): seq<seq<T>>
    requires count >= 1 && from <= |all|
    decreases |all| - from
  {
    if from + count >= |all| then [all[from..]]
    else [all[from..from + count]] + Batches(all, from + count, count)
  }

  lemma {:induction false} ScanIsBatches<T>(all: seq<T>, cursor: nat, count: nat)
    requires count >= 1 && cursor <= |all|
    ensures ScanAll(all, cursor, count) == Batches(all, cursor, count)
    decreases |all| - cursor
  {
    if cursor + count < |all| {
      ScanIsBatches(all, cursor + count, count);
    } else {
      assert ScanBatch(all, cursor, count) == all[cursor..];
      assert ScanNext(all, cursor, count) == 0;
    }
  }

  lemma {:induction false} BatchesJoin<T>(all: seq<T>, from: nat, count: nat)
    requires count >= 1 && from <= |all|
    ensures Flatten(Batches(all, from, count)) == all[from..]
    decreases |all| - from
  {
    if from + count < |all| {
      BatchesJoin(all, from + count, count);
      FlattenCut(all, from, from + count, Batches(all, from + count, count));
    } else {
      FlattenOne(all[from..]);
    }
  }

  lemma {:induction false} BatchesCount<T>(all: seq<T>, from: nat, count: nat)
    requires count >= 1 && (from < |all| || from == |all| == 0)
    ensures |Batches(all, from, count)| == Max(1, (|all| - from + count - 1) / count)
    decreases |all| - from
  {
    var left := |all| - from;
    if from + count < |all| {
      BatchesCount(all, from + count, count);
      DivStep(left + count - 1, count);
      QuotientAtLeastOne(left - count + count - 1, count);
    } else {
      QuotientUnique(left + count - 1, count, if left == 0 then 0 else 1);
    }
  }

  lemma QuotientAtLeastOne(n: nat, d: nat)
    requires 1 <= d <= n
    ensures n / d >= 1
  {
    DivStep(n, d);
  }

  /** On an unchanged store the batches are the listing, cut into ceil(n / count) pieces (one when
      there is nothing to list). */
  lemma ScanCoversAll<T>(all: seq<T>, count: nat)
    requires count >= 1
    ensures Flatten(ScanAll(all, 0, count)) == all
    ensures |ScanAll(all, 0, count)| == if all == [] then 1 else (|all| + count - 1) / count
  {
    ScanIsBatches(all, 0, count);
    BatchesJoin(all, 0, count);
    BatchesCount(all, 0, count);
    assert all[0..] == all;
    if all == [] {
      QuotientUnique(count - 1, count, 0);
    } else {
      QuotientAtLeastOne(|all| + count - 1, count);
    }
  }
}
