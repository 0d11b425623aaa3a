/** The client object of local storage: one user's directory on a disk it may share. */
module LocalClient {
  import opened Common
  import opened NameNormaliser
  import opened Paths
  import opened LocalStorage
  import opened StoragePlaces
  import opened StorageListing

  // ---------------------------------------------------------------- users' directories

  /** A user's directory is a child of the base directory, under its own name, exactly when the
      user part has no slash. */
  lemma UserDirectory(base: Path, part: string)
    requires ProperNames(base)
    ensures Joined(base, "user-" + part) == base + ["user-" + part] <==> '/' !in part
  {
    var name := "user-" + part;
    OwnDirectory(base, name);
    assert name[0] == 'u' && |name| >= 5;
    if '/' in part {
      var i :| 0 <= i < |part| && part[i] == '/';
      assert name[5 + i] == '/';
    }
  }

  /** Without slashes, no user's directory is or contains another's. */
  lemma UsersApart(base: Path, a: string, b: string)
    requires ProperNames(base) && '/' !in a && '/' !in b
    ensures Joined(base, "user-" + a) <= Joined(base, "user-" + b) <==> a == b
  {
    UserDirectory(base, a);
    UserDirectory(base, b);
    var x, y := "user-" + a, "user-" + b;
    assert (base + [x])[|base|] == x && (base + [y])[|base|] == y;
    assert x[5..] == a && y[5..] == b;
  }

  lemma PrefixTail(base: Path, x: Path, y: Path)
    ensures base + x <= base + y <==> x <= y
  {
    assert (base + x)[|base|..] == x && (base + y)[|base|..] == y;
    if x <= y { assert y == x + y[|x|..]; }
    if base + x <= base + y { assert x == (base + y)[..|base + x|][|base|..] == y[..|x|]; }
  }

  /** With slashes, one user's directory lies in another's exactly when the other's names begin its
      own. */
  lemma UsersNested(base: Path, a: string, b: string)
    requires Relative("user-" + a) && Relative("user-" + b)
    ensures Joined(base, "user-" + a) <= Joined(base, "user-" + b) <==> Names("user-" + a) <= Names("user-" + b)
  {
    JoinedForward(base, "user-" + a);
    JoinedForward(base, "user-" + b);
    PrefixTail(base, Names("user-" + a), Names("user-" + b));
  }

  /** And every user without a slash has another whose directory lies in its own, as a bucket. */
  lemma SlashNests(base: Path, a: string, x: string)
    requires ProperNames(base) && '/' !in a && ProperName(x)
    ensures Joined(base, "user-" + a + "/" + x) == Joined(base, "user-" + a) + [x]
  {
    var name := "user-" + a;
    assert name[0] == 'u' && |name| >= 5;
    assert ProperName(name);
    OneName(name);
    TwoNames(name, x);
    JoinedForward(base, name);
    JoinedForward(base, name + "/" + x);
    assert base + [name, x] == base + [name] + [x];
  }

  // ---------------------------------------------------------------- the client

  class Client {
    const home: Path
    const guess: string -> string
    const lower: string -> string
    var files: map<Path, File>
    var dirs: set<Path>

    constructor (base: Path, userId: string, guess: string -> string, lower: string -> string, disk: Disk)
      requires ProperNames(base) && Sound(disk)
      ensures Valid() && State() == disk && this.guess == guess && this.lower == lower
      ensures home == Joined(base, if userId != "" then "user-" + UserPart(lower, userId) else "default")
    {
      var dir := GetUserPath(lower, userId);
      JoinedProper(base, dir);
      this.home, this.guess, this.lower := Joined(base, dir), guess, lower;
      files, dirs := disk.files, disk.dirs;
    }

    function State(): Disk
      reads this
    {
      Disk(files, dirs)
    }

    ghost predicate Valid()
      reads this
    {
      Sound(State()) && ProperNames(home)
    }

    function Location(bucketName: string, key: string): Loc { Loc(BucketPart(lower, bucketName), key) }

    predicate Accepts(bucketName: string, key: string) { Usable(home, Location(bucketName, key)) }

    function At(bucketName: string, key: string): Target { Aim(Site(home, guess), Location(bucketName, key)) }

    lemma AtAimed(bucketName: string, key: string)
      requires ProperNames(home) && Accepts(bucketName, key)
      ensures Aimed(At(bucketName, key))
    {
      AimAimed(Site(home, guess), Location(bucketName, key));
    }

    /** `mkdir(parents=True, exist_ok=True)`; false when it raises. */
    method MakeDir(d: Path) returns (ok: bool)
      modifies this`dirs
      ensures ok == CanBeDir(old(State()), d) && State() == WithDir(old(State()), d)
    {
      if d in files || exists i | 0 <= i < |d| :: d[..i] in files {
        assert !CanBeDir(State(), d);
        return false;
      }
      dirs := dirs + Ancestors(d) + {d};
      return true;
    }

    method GetBucketDir(bucketName: string) returns (dir: Path)
      ensures dir == BucketDir(home, BucketPart(lower, bucketName))
    {
      var safeBucket := ReplaceChar(lower(bucketName), '_', '-');
      safeBucket := CollapseLoop(safeBucket);
      safeBucket := Strip(safeBucket);
      return Joined(home, safeBucket);
    }

    /** None when the path leaves the bucket's directory: the source raises. */
    method GetObjectPath(bucketName: string, key: string) returns (path: Option<Path>)
      ensures path == if At(bucketName, key).inside then Some(At(bucketName, key).path) else None
    {
      var dir := GetBucketDir(bucketName);
      var resolved := Joined(dir, key);
      if !(dir <= resolved) {
        return None;
      }
      return Some(resolved);
    }

    method CreateBucket(bucketName: string) returns (ok: Option<bool>)
      modifies this`dirs
      ensures State() == WithDir(old(State()), BucketDir(home, BucketPart(lower, bucketName)))
      ensures ok == if CanBeDir(old(State()), BucketDir(home, BucketPart(lower, bucketName))) then Some(true) else None
    {
      var dir := GetBucketDir(bucketName);
      var made := MakeDir(dir);
      return if made then Some(true) else None;
    }

    method PutObject(bucketName: string, key: string, data: Bytes, contentType: string, metadata: map<string, string>)
      returns (etag: Option<ETag>)
      requires Valid() && Accepts(bucketName, key)
      modifies this
      ensures Valid() && Aimed(At(bucketName, key))
      ensures (State(), etag) == Tagged(PutAt(old(State()), At(bucketName, key), data, contentType, metadata))
    {
      AtAimed(bucketName, key);
      PutSound(State(), At(bucketName, key), data, contentType, metadata);
      var _ := CreateBucket(bucketName);
      var path := GetObjectPath(bucketName, key);
      if path.None? {
        return None;
      }
      etag := WriteFiles(path.value, data, TypeOf(key, contentType), metadata);
    }

    function TypeOf(key: string, contentType: string): string {
      if contentType == "" then DefaultType(guess, key) else contentType
    }

    /** The two writes, below a directory that is made for them. */
    method WriteFiles(p: Path, data: Bytes, contentType: string, metadata: map<string, string>) returns (etag: Option<ETag>)
      requires p != []
      modifies this
      ensures (State(), etag) == Tagged(WritePair(old(State()), p, data, Meta(contentType, |data|, Md5(data), metadata)))
    {
      var made := MakeDir(p[..|p| - 1]);
      if !made || p in dirs {
        return None;
      }
      files := files[p := Blob(data)];
      if SidecarOf(p) in dirs {
        return None;
      }
      files := files[SidecarOf(p) := Sidecar(Meta(contentType, |data|, Md5(data), metadata))];
      return Some(Md5(data));
    }

    method GetObject(bucketName: string, key: string) returns (data: Option<Bytes>)
      requires Valid() && Accepts(bucketName, key)
      ensures Aimed(At(bucketName, key))
      ensures Exec(State(), Get(At(bucketName, key))) == (State(), match data case Some(d) => Data(d) case None => Missing)
    {
      AtAimed(bucketName, key);
      var path := GetObjectPath(bucketName, key);
      if path.None? || path.value !in files {
        return None;
      }
      return Some(files[path.value].data);
    }

    /** Also answers for a file without a sidecar, with made-up metadata, and for a directory. */
    method GetObjectInfo(bucketName: string, key: string) returns (info: Out)
      requires Valid() && Accepts(bucketName, key)
      ensures Aimed(At(bucketName, key)) && info == InfoAt(State(), At(bucketName, key))
    {
      AtAimed(bucketName, key);
      var path := GetObjectPath(bucketName, key);
      if path.None? || (path.value !in files && path.value !in dirs) {
        return Missing;
      }
      if path.value !in files {
        return AboutDirectory;
      }
      var side := SidecarOf(path.value);
      if side in dirs {
        return Missing;
      }
      if side in files {
        return About(files[side].meta);
      }
      return About(Meta(DefaultType(guess, key), |files[path.value].data|, NoTag, map[]));
    }

    method DeleteObject(bucketName: string, key: string) returns (ok: Option<bool>)
      requires Valid() && Accepts(bucketName, key)
      modifies this`files
      ensures Valid() && Aimed(At(bucketName, key))
      ensures (State(), ok) == Answered(DeleteAt(old(State()), At(bucketName, key)))
    {
      AtAimed(bucketName, key);
      DeleteSound(State(), At(bucketName, key));
      var path := GetObjectPath(bucketName, key);
      if path.None? {
        return None;
      }
      ok := RemoveFiles(path.value);
    }

    method RemoveFiles(p: Path) returns (ok: Option<bool>)
      requires p != []
      modifies this`files
      ensures p in dirs ==> files == old(files) && ok.None?
      ensures p !in dirs && SidecarOf(p) in dirs ==> files == old(files) - {p} && ok.None?
      ensures p !in dirs && SidecarOf(p) !in dirs ==> files == old(files) - {p, SidecarOf(p)} && ok == Some(true)
    {
      if p in dirs {
        return None;
      }
      if p in files {
        files := files - {p};
      }
      if SidecarOf(p) in dirs {
        return None;
      }
      if SidecarOf(p) in files {
        files := files - {SidecarOf(p)};
      }
      return Some(true);
    }

    method CopyObject(sourceBucket: string, sourceKey: string, destBucket: string, destKey: string)
      returns (etag: Option<ETag>)
      requires Valid() && Accepts(sourceBucket, sourceKey) && Accepts(destBucket, destKey)
      modifies this
      ensures Valid() && Aimed(At(sourceBucket, sourceKey)) && Aimed(At(destBucket, destKey))
      ensures (State(), etag) == Tagged(CopyAt(old(State()), At(sourceBucket, sourceKey), At(destBucket, destKey)))
    {
      AtAimed(sourceBucket, sourceKey);
      AtAimed(destBucket, destKey);
      var data := GetObject(sourceBucket, sourceKey);
      if data.None? {
        return None;
      }
      var info := GetObjectInfo(sourceBucket, sourceKey);
      var metadata := if info.About? then info.meta.metadata else map[];
      var contentType := if info.About? then info.meta.contentType else "";
      etag := PutObject(destBucket, destKey, data.value, contentType, metadata);
    }

    method MoveObject(sourceBucket: string, sourceKey: string, destBucket: string, destKey: string)
      returns (etag: Option<ETag>)
      requires Valid() && Accepts(sourceBucket, sourceKey) && Accepts(destBucket, destKey)
      modifies this
      ensures Valid() && Aimed(At(sourceBucket, sourceKey)) && Aimed(At(destBucket, destKey))
      ensures (State(), etag) == Tagged(MoveAt(old(State()), At(sourceBucket, sourceKey), At(destBucket, destKey)))
    {
      etag := CopyObject(sourceBucket, sourceKey, destBucket, destKey);
      if etag.Some? {
        var _ := DeleteObject(sourceBucket, sourceKey);
      }
    }

    /** `walk` is the directory walk: for each directory the names of its files, relative to the
        bucket's. A bucket with a proper name lists its objects, each once, up to the limit. */
    method ListObjects(bucketName: string, prefix: string, limit: int, walk: seq<seq<seq<string>>>)
      returns (listed: seq<string>)
      requires Valid() && Paired(files)
      requires Walks(files, BucketDir(home, BucketPart(lower, bucketName)), Flatten(walk))
      ensures limit >= 1 ==> listed == FirstOf(Wanted(Flatten(walk), prefix), limit)
      ensures limit < 1 ==> |listed| <= 1
      ensures var bucket := BucketPart(lower, bucketName);
              ProperName(bucket) && limit >= 1 ==>
                && Distinct(listed) && Elements(listed) <= Keys(Objects(files, home), bucket, prefix)
                && |listed| == Min(limit, |Keys(Objects(files, home), bucket, prefix)|)
    {
      ghost var bucket := BucketPart(lower, bucketName);
      ghost var found := Flatten(walk);
      var dir := GetBucketDir(bucketName);
      if ProperName(bucket) {
        OwnDirectory(home, bucket);
        ListingIsBucket(State(), home, bucket, found, prefix);
        if limit >= 1 { FirstEnumerates(Wanted(found, prefix), Keys(Objects(files, home), bucket, prefix), limit); }
      }
      if dir !in dirs && dir !in files {
        NothingBelow(State(), dir, found);
        return [];
      }
      listed := ListWalk(prefix, limit, walk);
    }

    /** `order` lists the files below the sub-directories of the user's directory, as the walks meet
        them. */
    method GetStats(order: seq<Place>) returns (bucketCount: nat, totalObjects: nat, totalSize: nat)
      requires Valid() && Paired(files) && Enumerates(order, Stored(files, home))
      ensures bucketCount == |set d | d in dirs && home <= d && |d| == |home| + 1|
      ensures totalObjects == |Objects(files, home)|
      ensures totalSize == TotalSize(Objects(files, home))
    {
      bucketCount := |set d | d in dirs && home <= d && |d| == |home| + 1|;
      totalObjects, totalSize := CountFiles(files, home, order);
    }
  }

  /** What a caller sees of an operation that answers with a tag. */
  function Tagged(result: (Disk, Out)): (Disk, Option<ETag>) {
    (result.0, match result.1 case Tag(e) => Some(e) case _ => None)
  }

  function Answered(result: (Disk, Out)): (Disk, Option<bool>) {
    (result.0, if result.1.Done? then Some(true) else None)
  }

  lemma NothingBelow(disk: Disk, dir: Path, found: seq<seq<string>>)
    requires Sound(disk) && dir !in disk.dirs && Walks(disk.files, dir, found)
    ensures found == []
  {
    assert |found| == 0 || found[0] in found;
    forall ns: seq<string> | ns != [] ensures dir + ns !in disk.files { NotThere(disk, dir, ns); }
  }

  lemma NotThere(disk: Disk, dir: Path, ns: seq<string>)
    requires Sound(disk) && dir !in disk.dirs && ns != []
    ensures dir + ns !in disk.files
  {
    assert (dir + ns)[..|dir|] == dir;
    assert dir in Ancestors(dir + ns);
  }
}
