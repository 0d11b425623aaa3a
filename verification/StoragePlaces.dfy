/** The objects on a disk, and which file a bucket and a key are: when two of them are one file. */
module StoragePlaces {
  import opened Common
  import opened Paths
  import opened LocalStorage

  type Files = map<Path, File>

  type Store = map<Place, Object>

  // ---------------------------------------------------------------- the objects on a disk

  function PathAt(home: Path, pl: Place): Path { home + [pl.bucket] + pl.names }

  /** Files in sub-directories of the user's directory, which is where listings and totals look. */
  predicate IsObject(home: Path, p: Path) { home <= p && |p| >= |home| + 2 && !IsSidecar(p) }

  function PlaceOf(home: Path, p: Path): (pl: Place)
    requires home <= p && |p| >= |home| + 2
    ensures PathAt(home, pl) == p && pl.names != []
  {
    Place(p[|home|], p[|home| + 1..])
  }

  lemma PlaceOfPath(home: Path, pl: Place)
    requires pl.names != []
    ensures home <= PathAt(home, pl) && |PathAt(home, pl)| >= |home| + 2 && PlaceOf(home, PathAt(home, pl)) == pl
  {
    assert PathAt(home, pl)[|home| + 1..] == pl.names;
  }

  predicate HasSidecar(files: Files, p: Path)
    requires p != [] && p in files && files[p].Blob?
  {
    && SidecarOf(p) in files && files[SidecarOf(p)].Sidecar?
    && files[SidecarOf(p)].meta.size == |files[p].data|
    && files[SidecarOf(p)].meta.etag == Md5(files[p].data)
    && files[SidecarOf(p)].meta.contentType != ""
  }

  /** Every plain file has the sidecar that was written together with it. */
  ghost predicate Paired(files: Files) {
    forall p {:trigger IsSidecar(p)} :: p in files && !IsSidecar(p) ==>
      p != [] && files[p].Blob? && HasSidecar(files, p)
  }

  function Places(files: Files, home: Path): set<Place> {
    set p | p in files && IsObject(home, p) :: PlaceOf(home, p)
  }

  lemma PlaceStored(files: Files, home: Path, pl: Place)
    ensures pl in Places(files, home) <==>
              pl.names != [] && PathAt(home, pl) in files && !IsSidecar(PathAt(home, pl))
  {
    if pl.names != [] { PlaceOfPath(home, pl); }
  }

  function ObjectOf(files: Files, p: Path): Object
    requires Paired(files) && p in files && !IsSidecar(p)
  {
    var meta := files[SidecarOf(p)].meta;
    Object(files[p].data, meta.contentType, meta.metadata)
  }

  lemma PlacesStored(files: Files, home: Path)
    ensures forall pl :: pl in Places(files, home) ==> PathAt(home, pl) in files && !IsSidecar(PathAt(home, pl))
  {
  }

  function Objects(files: Files, home: Path): (m: Store)
    requires Paired(files)
  {
    PlacesStored(files, home);
    map pl | pl in Places(files, home) :: ObjectOf(files, PathAt(home, pl))
  }

  lemma ObjectAt(files: Files, home: Path, pl: Place)
    requires Paired(files)
    ensures pl in Objects(files, home) <==>
              pl.names != [] && PathAt(home, pl) in files && !IsSidecar(PathAt(home, pl))
    ensures pl in Objects(files, home) ==> Objects(files, home)[pl] == ObjectOf(files, PathAt(home, pl))
  {
    PlaceStored(files, home, pl);
  }

  // ---------------------------------------------------------------- which file a location is

  /** A location's file is the one for its bucket and key exactly when the bucket's name is proper:
      not empty, no slash, and neither `.` nor `..`. */
  lemma OwnPlace(home: Path, l: Loc)
    requires ProperNames(home) && PlainKey(l.key)
    ensures FileOf(home, l) == PathAt(home, Asked(l)) <==> ProperName(l.bucket)
  {
    PlainFile(home, l);
    OwnDirectory(home, l.bucket);
    var d, ns := BucketDir(home, l.bucket), Names(l.key);
    assert PathAt(home, Asked(l)) == (home + [l.bucket]) + ns;
    if d + ns == (home + [l.bucket]) + ns {
      assert (d + ns)[..|d|] == d && ((home + [l.bucket]) + ns)[..|d|] == home + [l.bucket];
    }
  }

  lemma RelativeFile(home: Path, l: Loc)
    requires Relative(l.bucket) && PlainKey(l.key)
    ensures FileOf(home, l) == home + (Names(l.bucket) + Names(l.key))
  {
    PlainFile(home, l);
    JoinedForward(home, l.bucket);
    Regroup(home, Names(l.bucket), Names(l.key));
  }

  /** Two locations are one file exactly when the names of bucket and key, put together, agree. */
  lemma OneFile(home: Path, a: Loc, b: Loc)
    requires Relative(a.bucket) && Relative(b.bucket) && PlainKey(a.key) && PlainKey(b.key)
    ensures FileOf(home, a) == FileOf(home, b) <==>
              Names(a.bucket) + Names(a.key) == Names(b.bucket) + Names(b.key)
  {
    RelativeFile(home, a);
    RelativeFile(home, b);
    SameTail(home, Names(a.bucket) + Names(a.key), Names(b.bucket) + Names(b.key));
  }

  /** In buckets with proper names, two locations are one file exactly when they are one place. */
  lemma OneFileOnePlace(home: Path, a: Loc, b: Loc)
    requires ProperName(a.bucket) && ProperName(b.bucket) && PlainKey(a.key) && PlainKey(b.key)
    ensures FileOf(home, a) == FileOf(home, b) <==> Asked(a) == Asked(b)
  {
    OneName(a.bucket);
    OneName(b.bucket);
    OneFile(home, a, b);
    assert ([a.bucket] + Names(a.key))[1..] == Names(a.key);
    assert ([b.bucket] + Names(b.key))[1..] == Names(b.key);
  }

  /** The file can be reached through a sub-directory of the user's directory other than `bucket`. */
  ghost predicate Elsewhere(home: Path, bucket: string, l: Loc) {
    exists c, k :: ProperName(c) && c != bucket && PlainKey(k) && FileOf(home, Loc(c, k)) == FileOf(home, l)
  }

  /** A bucket inside the user's directory keeps its files to itself exactly when its name is proper. */
  lemma OwnFiles(home: Path, bucket: string)
    requires Relative(bucket)
    ensures ProperName(bucket) <==> forall key :: PlainKey(key) ==> !Elsewhere(home, bucket, Loc(bucket, key))
  {
    if ProperName(bucket) {
      forall key | PlainKey(key) ensures !Elsewhere(home, bucket, Loc(bucket, key)) {
        forall c, k | ProperName(c) && c != bucket && PlainKey(k)
          ensures FileOf(home, Loc(c, k)) != FileOf(home, Loc(bucket, key))
        {
          OneFileOnePlace(home, Loc(c, k), Loc(bucket, key));
        }
      }
    } else {
      var key := SharedKey(home, bucket);
      assert !(PlainKey(key) ==> !Elsewhere(home, bucket, Loc(bucket, key)));
    }
  }

  lemma PlainText(names: seq<string>)
    requires ProperNames(names) && names != [] && !IsSidecar(names)
    ensures Names(Text(names)) == names && PlainKey(Text(names))
  {
    NamesOfText(names);
    TextNotRooted(names);
    assert ".." !in names;
  }

  lemma TextNotRooted(names: seq<string>)
    requires ProperNames(names) && names != []
    ensures !Rooted(Text(names))
  {
    assert names[0] in names && names[0][0] in names[0];
    assert Text(names)[0] == names[0][0];
  }

  lemma NoSidecar(names: seq<string>)
    requires names != [] && names[|names| - 1] == "k"
    ensures !IsSidecar(names)
  {
  }

  lemma SharedKey(home: Path, bucket: string) returns (key: string)
    requires Relative(bucket) && !ProperName(bucket)
    ensures PlainKey(key) && Elsewhere(home, bucket, Loc(bucket, key))
  {
    if Names(bucket) == [] {
      key := SharedInHome(home, bucket, "x", "k");
    } else {
      key := Text(["k"]);
      SharedBelow(home, bucket);
    }
  }

  /** A bucket whose directory is the user's: its files are other buckets'. */
  lemma SharedInHome(home: Path, bucket: string, c: string, k: string) returns (key: string)
    requires Relative(bucket) && Names(bucket) == []
    requires ProperName(c) && ProperName(k) && !IsSidecar([k])
    ensures PlainKey(key) && Elsewhere(home, bucket, Loc(bucket, key))
  {
    key := KeyOf(c, k);
    OneName(c);
    OneName(k);
    ReachedFrom(home, Loc(c, k), Loc(bucket, key));
  }

  lemma KeyOf(c: string, k: string) returns (key: string)
    requires ProperName(c) && ProperName(k) && !IsSidecar([k])
    ensures PlainKey(key) && Names(key) == [c] + [k]
  {
    key := c + "/" + k;
    TwoNames(c, k);
  }

  lemma ReachedFrom(home: Path, x: Loc, y: Loc)
    requires Relative(y.bucket) && ProperName(x.bucket) && x.bucket != y.bucket
    requires PlainKey(x.key) && PlainKey(y.key)
    requires Names(x.bucket) + Names(x.key) == Names(y.bucket) + Names(y.key)
    ensures Elsewhere(home, y.bucket, y)
  {
    OneName(x.bucket);
    OneFile(home, x, y);
  }

  /** A bucket whose directory lies below another's. */
  lemma SharedBelow(home: Path, bucket: string)
    requires Relative(bucket) && !ProperName(bucket) && Names(bucket) != []
    ensures PlainKey(Text(["k"])) && Elsewhere(home, bucket, Loc(bucket, Text(["k"])))
  {
    var c, rest := Names(bucket)[0], Names(bucket)[1..] + ["k"];
    BelowNames(bucket, c, rest);
    NoSidecar(rest);
    NoSidecar(["k"]);
    PlainText(rest);
    PlainText(["k"]);
    OneFile(home, Loc(c, Text(rest)), Loc(bucket, Text(["k"])));
  }

  lemma BelowNames(bucket: string, c: string, rest: seq<string>)
    requires Relative(bucket) && !ProperName(bucket) && Names(bucket) != []
    requires c == Names(bucket)[0] && rest == Names(bucket)[1..] + ["k"]
    ensures ProperName(c) && c != bucket && Relative(c) && ProperNames(rest)
    ensures Names(c) + rest == Names(bucket) + ["k"]
  {
    assert ProperNames(Names(bucket));
    NamesBelow(Names(bucket), c, rest);
    OneName(c);
  }

  lemma NamesBelow(names: seq<string>, c: string, rest: seq<string>)
    requires names != [] && ProperNames(names) && c == names[0] && rest == names[1..] + ["k"]
    ensures ProperName(c) && ProperNames(rest) && [c] + rest == names + ["k"]
  {
    assert c in names;
    forall n | n in rest ensures ProperName(n) { if n in names[1..] { assert n in names; } }
  }

  /** A slash in a bucket's name: two locations for one file, as with `("a/b", "k")` and
      `("a", "b/k")`. */
  lemma SlashBucket(home: Path, a: string, b: string, k: string)
    requires ProperName(a) && ProperName(b) && ProperName(k) && !IsSidecar([k])
    ensures FileOf(home, Loc(a + "/" + b, k)) == FileOf(home, Loc(a, b + "/" + k))
  {
    TwoNames(b, k);
    TwoNames(a, b);
    OneName(a);
    OneName(k);
    SameFile(home, Loc(a + "/" + b, k), Loc(a, b + "/" + k), [a], [b], [k]);
  }

  lemma SameFile(home: Path, x: Loc, y: Loc, a: seq<string>, b: seq<string>, k: seq<string>)
    requires Relative(x.bucket) && Relative(y.bucket) && PlainKey(x.key) && PlainKey(y.key)
    requires Names(x.bucket) == a + b && Names(x.key) == k
    requires Names(y.bucket) == a && Names(y.key) == b + k
    ensures FileOf(home, x) == FileOf(home, y)
  {
    OneFile(home, x, y);
    Regroup(a, b, k);
  }

  /** A bucket's name that cleans up to nothing: another bucket's file, and a file that belongs to
      no bucket at all. */
  lemma EmptyBucket(home: Path, b: string, k: string)
    requires ProperName(b) && ProperName(k) && !IsSidecar([k])
    ensures FileOf(home, Loc("", b + "/" + k)) == FileOf(home, Loc(b, k))
    ensures !IsObject(home, FileOf(home, Loc("", k)))
  {
    TwoNames(b, k);
    OneName(b);
    OneName(k);
    SameFile(home, Loc(b, k), Loc("", b + "/" + k), [], [b], [k]);
    RelativeFile(home, Loc("", k));
  }

  lemma TwoNames(m: string, n: string)
    requires ProperName(m) && ProperName(n)
    ensures Names(m + "/" + n) == [m, n] == [m] + [n] && !Rooted(m + "/" + n)
    ensures Relative(m + "/" + n) && (!IsSidecar([n]) ==> PlainKey(m + "/" + n))
  {
    OneName(n);
    NameThenRest(m, n);
  }
}
