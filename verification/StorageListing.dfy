/** Listing a bucket and adding up a user's files: the loops over the directory walks. */
module StorageListing {
  import opened Common
  import opened Paths
  import opened LocalStorage
  import opened StoragePlaces

  // ---------------------------------------------------------------- listing

  /** The keys of plain files that start with `prefix`, in walk order. */
  function Wanted(found: seq<seq<string>>, prefix: string): seq<string> {
    if found == [] then []
    else
      (if !IsSidecar(found[0]) && prefix <= Text(found[0]) then [Text(found[0])] else []) + Wanted(found[1..], prefix)
  }

  lemma {:induction false} WantedAppend(a: seq<seq<string>>, b: seq<seq<string>>, prefix: string)
    ensures Wanted(a + b, prefix) == Wanted(a, prefix) + Wanted(b, prefix)
  {
    if a == [] {
      assert a + b == b;
    } else {
      assert (a + b)[1..] == a[1..] + b;
      WantedAppend(a[1..], b, prefix);
    }
  }

  /** Relative paths that print differently when they differ. */
  ghost predicate AllProper(found: seq<seq<string>>) { forall ns :: ns in found ==> ns != [] && ProperNames(ns) }

  lemma TextInjective(a: seq<string>, b: seq<string>)
    requires ProperNames(a) && ProperNames(b)
    ensures Text(a) == Text(b) <==> a == b
  {
    NamesOfText(a);
    NamesOfText(b);
  }

  lemma {:induction false} WantedMembers(found: seq<seq<string>>, prefix: string)
    ensures forall ns :: ns in found && !IsSidecar(ns) && prefix <= Text(ns) ==> Text(ns) in Wanted(found, prefix)
    ensures forall k :: k in Wanted(found, prefix) ==>
              exists ns :: ns in found && Text(ns) == k && !IsSidecar(ns) && prefix <= k
  {
    if found != [] {
      assert found == [found[0]] + found[1..];
      WantedMembers(found[1..], prefix);
    }
  }

  lemma {:induction false} WantedDistinct(found: seq<seq<string>>, prefix: string)
    requires Distinct(found) && AllProper(found)
    ensures Distinct(Wanted(found, prefix))
  {
    if found != [] {
      var first, rest := found[0], found[1..];
      TailProper(found);
      WantedDistinct(rest, prefix);
      WantedMembers(rest, prefix);
      forall k | k in Wanted(rest, prefix) ensures k != Text(first) {
        var ns :| ns in rest && Text(ns) == k;
        TextInjective(ns, first);
      }
      ConsDistinct(Text(first), Wanted(rest, prefix));
    }
  }

  lemma TailProper(found: seq<seq<string>>)
    requires found != [] && Distinct(found) && AllProper(found)
    ensures Distinct(found[1..]) && AllProper(found[1..]) && found[0] !in found[1..] && ProperNames(found[0])
  {
    assert found == [found[0]] + found[1..];
    assert found[0] in found && forall ns :: ns in found[1..] ==> ns in found;
  }

  lemma ConsDistinct(k: string, rest: seq<string>)
    requires Distinct(rest) && k !in rest
    ensures Distinct([k] + rest)
  {
  }

  function FirstOf<T>(s: seq<T>, n: int): seq<T>
    requires n >= 0
  {
    s[..Min(n, |s|)]
  }

  /** The loop over the files of one directory; it stops at the limit. */
  method ListNames(listedSoFar: seq<string>, names: seq<seq<string>>, prefix: string, limit: int) returns (listed: seq<string>)
    requires |listedSoFar| < Max(1, limit)
    ensures listed == FirstOf(listedSoFar + Wanted(names, prefix), Max(1, limit))
  {
    listed := listedSoFar;
    for n := 0 to |names|
      invariant listed == listedSoFar + Wanted(names[..n], prefix)
      invariant |listed| < Max(1, limit)
    {
      NamesStep(names, n, prefix);
      if IsSidecar(names[n]) {
        continue;
      }
      var objectKey := Text(names[n]);
      if prefix != "" && !(prefix <= objectKey) {
        continue;
      }
      listed := listed + [objectKey];
      if |listed| >= limit {
        PrefixIsFirst(listedSoFar, Wanted(names[..n + 1], prefix), Wanted(names, prefix), Max(1, limit));
        return;
      }
    }
    assert names[..|names|] == names;
  }

  lemma NamesStep(names: seq<seq<string>>, n: nat, prefix: string)
    requires n < |names|
    ensures Wanted(names[..n + 1], prefix)
         == Wanted(names[..n], prefix) + if !IsSidecar(names[n]) && prefix <= Text(names[n]) then [Text(names[n])] else []
    ensures Wanted(names[..n + 1], prefix) <= Wanted(names, prefix)
  {
    assert names[..n + 1] == names[..n] + [names[n]];
    WantedAppend(names[..n], [names[n]], prefix);
    assert names == names[..n + 1] + names[n + 1..];
    WantedAppend(names[..n + 1], names[n + 1..], prefix);
  }

  lemma PrefixIsFirst<T>(found: seq<T>, some: seq<T>, all: seq<T>, n: nat)
    requires some <= all && |found + some| == n
    ensures found + some == FirstOf(found + all, n)
  {
  }

  /** The walk over the directories. */
  method ListWalk(prefix: string, limit: int, walk: seq<seq<seq<string>>>) returns (listed: seq<string>)
    ensures limit >= 1 ==> listed == FirstOf(Wanted(Flatten(walk), prefix), limit)
    ensures limit < 1 ==> |listed| <= 1
    ensures listed <= Wanted(Flatten(walk), prefix)
  {
    listed := [];
    for d := 0 to |walk|
      invariant listed == Wanted(Flatten(walk[..d]), prefix)
      invariant |listed| < Max(1, limit)
    {
      WalkStep(walk, d, prefix);
      listed := ListNames(listed, walk[d], prefix, limit);
      if |listed| >= limit {
        return;
      }
    }
    assert walk[..|walk|] == walk;
  }

  lemma WalkStep(walk: seq<seq<seq<string>>>, d: nat, prefix: string)
    requires d < |walk|
    ensures Wanted(Flatten(walk[..d + 1]), prefix) == Wanted(Flatten(walk[..d]), prefix) + Wanted(walk[d], prefix)
    ensures Wanted(Flatten(walk[..d + 1]), prefix) <= Wanted(Flatten(walk), prefix)
  {
    assert walk[..d + 1] == walk[..d] + [walk[d]];
    FlattenAppend(walk[..d], [walk[d]]);
    FlattenOne(walk[d]);
    WantedAppend(Flatten(walk[..d]), walk[d], prefix);
    assert walk == walk[..d + 1] + walk[d + 1..];
    FlattenAppend(walk[..d + 1], walk[d + 1..]);
    WantedAppend(Flatten(walk[..d + 1]), Flatten(walk[d + 1..]), prefix);
  }

  // ---------------------------------------------------------------- what a listing lists

  /** `found` are the files below a directory, each once. */
  ghost predicate Walks(files: Files, dir: Path, found: seq<seq<string>>) {
    Distinct(found) && forall ns :: ns in found <==> ns != [] && dir + ns in files
  }

  /** The keys of a bucket's objects. */
  function Keys(m: Store, bucket: string, prefix: string): set<string> {
    set pl | pl in m && pl.bucket == bucket && prefix <= Text(pl.names) :: Text(pl.names)
  }

  lemma WalkedProper(disk: Disk, dir: Path, found: seq<seq<string>>)
    requires Sound(disk) && Walks(disk.files, dir, found)
    ensures AllProper(found)
  {
    forall ns, n | ns in found && n in ns ensures ProperName(n) {
      assert n in dir + ns;
    }
  }

  /** For a bucket with a proper name, an unlimited listing is its objects, each once. */
  lemma ListingIsBucket(disk: Disk, home: Path, bucket: string, found: seq<seq<string>>, prefix: string)
    requires Sound(disk) && Paired(disk.files) && ProperName(bucket)
    requires Walks(disk.files, home + [bucket], found)
    ensures Enumerates(Wanted(found, prefix), Keys(Objects(disk.files, home), bucket, prefix))
  {
    WalkedProper(disk, home + [bucket], found);
    WantedMembers(found, prefix);
    WantedDistinct(found, prefix);
    var m, w := Objects(disk.files, home), Wanted(found, prefix);
    forall k | k in w ensures k in Keys(m, bucket, prefix) {
      var ns :| ns in found && Text(ns) == k && !IsSidecar(ns) && prefix <= k;
      InBucket(disk.files, home, bucket, ns);
      assert Place(bucket, ns) in m;
    }
    forall k | k in Keys(m, bucket, prefix) ensures k in w {
      var pl :| pl in m && pl.bucket == bucket && prefix <= Text(pl.names) && Text(pl.names) == k;
      InBucket(disk.files, home, bucket, pl.names);
      assert pl == Place(bucket, pl.names);
      assert pl.names in found;
    }
  }

  lemma InBucket(files: Files, home: Path, bucket: string, ns: seq<string>)
    requires Paired(files)
    ensures Place(bucket, ns) in Objects(files, home) <==> ns != [] && (home + [bucket]) + ns in files && !IsSidecar(ns)
  {
    ObjectAt(files, home, Place(bucket, ns));
    if ns != [] {
      assert (home + [bucket] + ns)[|home + [bucket] + ns| - 1] == ns[|ns| - 1];
    }
  }

  lemma {:induction false} FirstEnumerates<T(!new)>(s: seq<T>, all: set<T>, n: nat)
    requires Enumerates(s, all)
    ensures Distinct(FirstOf(s, n)) && Elements(FirstOf(s, n)) <= all && |FirstOf(s, n)| == Min(n, |all|)
  {
    EnumerationLength(s, all);
    forall x | x in FirstOf(s, n) ensures x in Elements(s) {
      assert x in s;
    }
  }

  /** Looking a listed key up finds the listed file. */
  lemma ListedIsFound(site: Site, bucket: string, ns: seq<string>)
    requires ProperNames(ns) && ns != [] && !IsSidecar(ns)
    ensures PlainKey(Text(ns)) && FileOf(site.home, Loc(bucket, Text(ns))) == BucketDir(site.home, bucket) + ns
  {
    PlainText(ns);
    PlainFile(site.home, Loc(bucket, Text(ns)));
  }

  // ---------------------------------------------------------------- totals

  ghost function TotalSize(m: Store): nat
    decreases |m|
  {
    if m == map[] then 0
    else
      var x :| x in m;
      assert (m - {x}).Keys == m.Keys - {x};
      assert |m.Keys - {x}| == |m.Keys| - 1;
      |m[x].data| + TotalSize(m - {x})
  }

  lemma {:induction false} TotalRemove(m: Store, k: Place)
    requires k in m
    ensures TotalSize(m) == |m[k].data| + TotalSize(m - {k})
    decreases |m|
  {
    var l :| l in m && TotalSize(m) == |m[l].data| + TotalSize(m - {l});
    if l != k {
      var rest := m - {l};
      assert rest.Keys == m.Keys - {l};
      assert |rest.Keys| < |m.Keys|;
      TotalRemove(rest, k);
      assert rest - {k} == (m - {k}) - {l};
      var other := m - {k};
      assert other.Keys == m.Keys - {k};
      assert |other.Keys| < |m.Keys|;
      TotalRemove(other, l);
    }
  }

  /** How many of the places hold an object, and the sum of the objects' sizes. */
  function Count(m: Store, order: seq<Place>): nat {
    if order == [] then 0
    else Count(m, order[..|order| - 1]) + if order[|order| - 1] in m then 1 else 0
  }

  function Size(m: Store, order: seq<Place>): nat {
    if order == [] then 0
    else Size(m, order[..|order| - 1]) + if order[|order| - 1] in m then |m[order[|order| - 1]].data| else 0
  }

  lemma {:induction false} WithoutOne(m: Store, order: seq<Place>, l: Place)
    requires l !in order
    ensures Count(m - {l}, order) == Count(m, order) && Size(m - {l}, order) == Size(m, order)
  {
    if order != [] {
      assert order[|order| - 1] in order;
      WithoutOne(m, order[..|order| - 1], l);
    }
  }

  lemma TotalsNext(m: Store, front: seq<Place>, l: Place)
    requires l in m && l !in front
    requires Count(m - {l}, front) == |m - {l}| && Size(m - {l}, front) == TotalSize(m - {l})
    ensures Count(m, front) + 1 == |m| && Size(m, front) + |m[l].data| == TotalSize(m)
  {
    WithoutOne(m, front, l);
    TotalRemove(m, l);
    assert (m - {l}).Keys == m.Keys - {l};
  }

  ghost predicate Covers(order: seq<Place>, m: Store) { Distinct(order) && forall x :: x in m ==> x in order }

  lemma FrontCovers(m: Store, order: seq<Place>)
    requires Covers(order, m) && order != []
    ensures var front, l := order[..|order| - 1], order[|order| - 1];
            l !in front && Covers(front, m - {l}) && (l !in m ==> Covers(front, m))
  {
    var front, l := order[..|order| - 1], order[|order| - 1];
    assert order == front + [l];
  }

  /** Places that cover the store, each once, count and add up to the whole store. */
  lemma {:induction false} TotalsByPlaces(m: Store, order: seq<Place>)
    requires Covers(order, m)
    ensures Count(m, order) == |m| && Size(m, order) == TotalSize(m)
    decreases |order|
  {
    if order == [] {
      assert m == map[];
    } else {
      var front, l := order[..|order| - 1], order[|order| - 1];
      FrontCovers(m, order);
      if l in m {
        TotalsByPlaces(m - {l}, front);
        TotalsNext(m, front, l);
      } else {
        TotalsByPlaces(m, front);
      }
    }
  }

  /** The files below the sub-directories of the user's directory, sidecars and all. */
  function Stored(files: Files, home: Path): set<Place> {
    set p | p in files && home <= p && |p| >= |home| + 2 :: PlaceOf(home, p)
  }

  lemma StoredAt(files: Files, home: Path, pl: Place)
    requires Paired(files)
    ensures pl in Stored(files, home) <==> pl.names != [] && PathAt(home, pl) in files
    ensures pl in Stored(files, home) ==>
              (pl in Objects(files, home) <==> !IsSidecar(pl.names))
              && (!IsSidecar(pl.names) ==>
                    files[PathAt(home, pl)].Blob? && Objects(files, home)[pl].data == files[PathAt(home, pl)].data)
  {
    ObjectAt(files, home, pl);
    if pl.names != [] {
      PlaceOfPath(home, pl);
      assert PathAt(home, pl)[|PathAt(home, pl)| - 1] == pl.names[|pl.names| - 1];
    }
  }

  lemma StoredCover(files: Files, home: Path, order: seq<Place>)
    requires Paired(files) && Enumerates(order, Stored(files, home))
    ensures forall x :: x in Objects(files, home) ==> x in order
    ensures forall x :: x in order ==> x in Stored(files, home)
  {
    assert forall x :: x in order <==> x in Elements(order);
    forall x | x in Objects(files, home) ensures x in Stored(files, home) {
      ObjectAt(files, home, x);
      StoredAt(files, home, x);
    }
  }

  /** One turn of the statistics loops. */
  lemma CountNext(files: Files, home: Path, order: seq<Place>, n: nat)
    requires Paired(files) && n < |order| && forall x :: x in order ==> x in Stored(files, home)
    ensures var m, l := Objects(files, home), order[n];
            && PathAt(home, l) in files && (!IsSidecar(l.names) ==> files[PathAt(home, l)].Blob?)
            && Count(m, order[..n + 1]) == Count(m, order[..n]) + (if IsSidecar(l.names) then 0 else 1)
            && Size(m, order[..n + 1]) == Size(m, order[..n]) + if IsSidecar(l.names) then 0 else |files[PathAt(home, l)].data|
  {
    assert order[..n + 1][..n] == order[..n];
    assert order[n] in order;
    StoredAt(files, home, order[n]);
  }

  /** The statistics loops. */
  method CountFiles(files: Files, home: Path, order: seq<Place>) returns (totalObjects: nat, totalSize: nat)
    requires Paired(files) && Enumerates(order, Stored(files, home))
    ensures totalObjects == |Objects(files, home)|
    ensures totalSize == TotalSize(Objects(files, home))
  {
    ghost var m := Objects(files, home);
    StoredCover(files, home, order);
    totalObjects, totalSize := 0, 0;
    for n := 0 to |order|
      invariant totalObjects == Count(m, order[..n]) && totalSize == Size(m, order[..n])
    {
      var l := order[n];
      CountNext(files, home, order, n);
      if !IsSidecar(l.names) {
        totalSize := totalSize + |files[PathAt(home, l)].data|;
        totalObjects := totalObjects + 1;
      }
    }
    assert order[..|order|] == order;
    TotalsByPlaces(m, order);
  }
}
