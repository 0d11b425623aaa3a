/** Key prefixes that keep the tenants of one store apart. */
module TenantKeys {
  const SEPARATOR: char := ':'

  datatype Tenant = Tenant(org: string, user: string)

  /** Missing ids fall back to the defaults. */
  function TenantOf(organizationId: string, userId: string): Tenant {
    Tenant(if organizationId == "" then "default-org" else organizationId,
           if userId == "" then "default" else userId)
  }

  function Prefix(t: Tenant): (p: string)
    ensures p != ""
  {
    t.org + [SEPARATOR] + t.user + [SEPARATOR]
  }

  function PrefixKey(t: Tenant, key: string): string {
    if Prefix(t) <= key then key else Prefix(t) + key
  }

  function UnprefixKey(t: Tenant, key: string): string {
    if Prefix(t) <= key then key[|Prefix(t)|..] else key
  }

  predicate SeparatorFree(t: Tenant) { SEPARATOR !in t.org && SEPARATOR !in t.user }

  /** A stored key is the prefix and the bare key, so two keys of one tenant meet exactly when
      they are equal once stripped. */
  lemma StoredKey(t: Tenant, k: string, l: string)
    ensures PrefixKey(t, k) == Prefix(t) + UnprefixKey(t, k)
    ensures PrefixKey(t, k) == PrefixKey(t, l) <==> UnprefixKey(t, k) == UnprefixKey(t, l)
  {
    StoredKeySplit(t, k);
    StoredKeySplit(t, l);
    var p := Prefix(t);
    assert (p + UnprefixKey(t, k))[|p|..] == UnprefixKey(t, k);
    assert (p + UnprefixKey(t, l))[|p|..] == UnprefixKey(t, l);
  }

  lemma StoredKeySplit(t: Tenant, k: string)
    ensures PrefixKey(t, k) == Prefix(t) + UnprefixKey(t, k)
  {
    if Prefix(t) <= k {
      assert k == k[..|Prefix(t)|] + k[|Prefix(t)|..];
    }
  }

  /** Reading a stored key back gives the caller's key, except when that key already carried
      the prefix. */
  lemma UnprefixUndoesPrefix(t: Tenant, k: string)
    ensures UnprefixKey(t, PrefixKey(t, k)) == k <==> !(Prefix(t) <= k)
  {
    var p := Prefix(t);
    if p <= k {
      assert |UnprefixKey(t, k)| < |k|;
    } else {
      assert (p + k)[|p|..] == k;
      assert p <= p + k;
    }
  }

  /** A separator-free word is determined by any text that starts with it and a separator. */
  lemma FirstField(x: string, y: string, s: string)
    requires SEPARATOR !in x && SEPARATOR !in y
    requires x + [SEPARATOR] <= s && y + [SEPARATOR] <= s
    ensures x == y
  {
    assert s[|x|] == (x + [SEPARATOR])[|x|] == SEPARATOR;
    assert s[|y|] == (y + [SEPARATOR])[|y|] == SEPARATOR;
    assert forall i :: 0 <= i < |x| ==> x[i] in x && (x + [SEPARATOR])[i] == x[i];
    assert forall i :: 0 <= i < |y| ==> y[i] in y && (y + [SEPARATOR])[i] == y[i];
    assert |x| == |y|;
  }

  lemma PrefixFields(t: Tenant, s: string)
    requires Prefix(t) <= s
    ensures t.org + [SEPARATOR] <= s
    ensures t.user + [SEPARATOR] <= s[|t.org| + 1..]
  {
    var head, tail := t.org + [SEPARATOR], t.user + [SEPARATOR];
    assert Prefix(t) == head + tail;
    assert s[..|Prefix(t)|] == Prefix(t);
    assert s[..|head|] == s[..|Prefix(t)|][..|head|] == head;
    assert s[|head|..][..|tail|] == s[..|Prefix(t)|][|head|..] == tail;
  }

  /** No text carries the prefixes of two tenants: each stored key has one owner. */
  lemma OneOwner(a: Tenant, b: Tenant, s: string)
    requires SeparatorFree(a) && SeparatorFree(b)
    requires Prefix(a) <= s && Prefix(b) <= s
    ensures a == b
  {
    PrefixFields(a, s);
    PrefixFields(b, s);
    FirstField(a.org, b.org, s);
    FirstField(a.user, b.user, s[|a.org| + 1..]);
  }

  lemma PrefixFree(a: Tenant, b: Tenant)
    requires SeparatorFree(a) && SeparatorFree(b)
    ensures Prefix(a) <= Prefix(b) <==> a == b
  {
    if Prefix(a) <= Prefix(b) { OneOwner(a, b, Prefix(b)); }
  }

  // ---------------------------------------------------------------- tenants apart

  /** The key is stored under the tenant's prefix. */
  predicate Owns(t: Tenant, k: string) { Prefix(t) <= k }

  /** Neither prefix starts the other. */
  predicate Apart(a: Tenant, b: Tenant) { !(Prefix(a) <= Prefix(b)) && !(Prefix(b) <= Prefix(a)) }

  /** Tenants apart are just those that no stored key belongs to both of. */
  lemma ApartIffNoSharedKey(a: Tenant, b: Tenant)
    ensures Apart(a, b) <==> forall k :: !(Owns(a, k) && Owns(b, k))
  {
    if Apart(a, b) {
      forall k ensures !(Owns(a, k) && Owns(b, k)) {
        if Owns(a, k) && Owns(b, k) { Comparable(Prefix(a), Prefix(b), k); }
      }
    } else if Prefix(a) <= Prefix(b) {
      assert Owns(a, Prefix(b)) && Owns(b, Prefix(b));
    } else {
      assert Owns(a, Prefix(a)) && Owns(b, Prefix(a));
    }
  }

  lemma Comparable(p: string, q: string, s: string)
    requires p <= s && q <= s
    ensures p <= q || q <= p
  {
    assert p == s[..|p|] && q == s[..|q|];
  }

  /** Among tenants without separators in their ids, different means apart. */
  lemma SeparatorFreeApart(a: Tenant, b: Tenant)
    requires SeparatorFree(a) && SeparatorFree(b)
    ensures Apart(a, b) <==> a != b
  {
    PrefixFree(a, b);
    PrefixFree(b, a);
  }

  /** But every tenant has one that is not apart from it, separators or not: the user whose id goes
      on with a separator. */
  function Extension(b: Tenant): Tenant { Tenant(b.org, b.user + ":z") }

  lemma EveryPrefixExtended(b: Tenant)
    ensures Extension(b) != b && Prefix(b) <= Prefix(Extension(b)) && !Apart(b, Extension(b))
  {
    assert |Extension(b).user| == |b.user| + 2;
    assert Prefix(Extension(b)) == Prefix(b) + "z:";
  }

  // ---------------------------------------------------------------- shared prefixes

  /** The prefix without its last separator. */
  function Body(t: Tenant): string { t.org + [SEPARATOR] + t.user }

  /** The tenant one reads off a body by splitting it at `i`. */
  function SplitAt(body: string, i: nat): Tenant
    requires i < |body|
  {
    Tenant(body[..i], body[i + 1..])
  }

  /** The tenants that share a prefix are the ways to split its body at a separator. */
  lemma SamePrefixIsSplit(a: Tenant, b: Tenant)
    ensures |a.org| < |Body(a)| && SplitAt(Body(a), |a.org|) == a
    ensures Prefix(a) == Prefix(b) <==> Body(a) == Body(b)
    ensures Prefix(a) == Prefix(b) <==>
              |a.org| < |Body(b)| && Body(b)[|a.org|] == SEPARATOR && a == SplitAt(Body(b), |a.org|)
  {
    assert Prefix(a) == Body(a) + [SEPARATOR] && Prefix(b) == Body(b) + [SEPARATOR];
    assert Prefix(a)[..|Prefix(a)| - 1] == Body(a) && Prefix(b)[..|Prefix(b)| - 1] == Body(b);
    assert Body(a)[..|a.org|] == a.org && Body(a)[|a.org| + 1..] == a.user;
    if |a.org| < |Body(b)| && Body(b)[|a.org|] == SEPARATOR && a == SplitAt(Body(b), |a.org|) {
      assert Body(b) == Body(b)[..|a.org|] + [SEPARATOR] + Body(b)[|a.org| + 1..];
    }
  }

  lemma SplitShares(b: Tenant, i: nat)
    requires i < |Body(b)| && Body(b)[i] == SEPARATOR
    ensures Prefix(SplitAt(Body(b), i)) == Prefix(b)
    ensures SplitAt(Body(b), i) == b <==> i == |b.org|
  {
    SamePrefixIsSplit(SplitAt(Body(b), i), b);
    SamePrefixIsSplit(b, b);
  }

  /** No other tenant has the very same prefix exactly when the ids are free of the separator. */
  lemma OwnPrefix(b: Tenant)
    ensures SeparatorFree(b) <==> forall a :: Prefix(a) == Prefix(b) ==> a == b
  {
    if SeparatorFree(b) {
      forall a | Prefix(a) == Prefix(b) ensures a == b {
        SamePrefixIsSplit(a, b);
        OnlySeparator(b, |a.org|);
        SplitShares(b, |a.org|);
      }
    } else {
      var i := OtherSeparator(b);
      SplitShares(b, i);
    }
  }

  lemma OnlySeparator(b: Tenant, i: nat)
    requires SeparatorFree(b) && i < |Body(b)| && Body(b)[i] == SEPARATOR
    ensures i == |b.org|
  {
  }

  lemma OtherSeparator(b: Tenant) returns (i: nat)
    requires !SeparatorFree(b)
    ensures i < |Body(b)| && i != |b.org| && Body(b)[i] == SEPARATOR
  {
    if SEPARATOR in b.org {
      i :| 0 <= i < |b.org| && b.org[i] == SEPARATOR;
    } else {
      var j :| 0 <= j < |b.user| && b.user[j] == SEPARATOR;
      i := |b.org| + 1 + j;
    }
  }

  /** For example: user `c` of organisation `a:b` and user `b:c` of organisation `a`. */
  lemma SharedPrefix()
    ensures Prefix(Tenant("a:b", "c")) == Prefix(Tenant("a", "b:c"))
  {
    assert Prefix(Tenant("a:b", "c")) == "a:b:c:";
    assert Prefix(Tenant("a", "b:c")) == "a:b:c:";
  }

  /** What a client can have: no id is empty, since an empty one becomes the default. */
  predicate Named(t: Tenant) { t.org != "" && t.user != "" }

  /** Among the tenants that clients can have, no other has the very same prefix exactly when the only
      stray separators are at the very start and the very end of the ids. */
  lemma OwnPrefixAmongClients(b: Tenant)
    requires Named(b)
    ensures (forall i :: 0 < i < |Body(b)| - 1 && Body(b)[i] == SEPARATOR ==> i == |b.org|)
       <==> forall a :: Named(a) && Prefix(a) == Prefix(b) ==> a == b
  {
    if forall i :: 0 < i < |Body(b)| - 1 && Body(b)[i] == SEPARATOR ==> i == |b.org| {
      forall a | Named(a) && Prefix(a) == Prefix(b) ensures a == b {
        SamePrefixIsSplit(a, b);
        SplitShares(b, |a.org|);
      }
    } else {
      var i :| 0 < i < |Body(b)| - 1 && Body(b)[i] == SEPARATOR && i != |b.org|;
      SplitShares(b, i);
      assert Named(SplitAt(Body(b), i));
    }
  }
}
