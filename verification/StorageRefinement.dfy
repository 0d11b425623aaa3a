/** Storage on a disk acts as a map from bucket and key to objects: step by step exactly when a
    condition on the disk and the names holds, and so over every run that meets it. */
module StorageRefinement {
  import opened Common
  import opened Paths
  import opened LocalStorage
  import opened StoragePlaces

  /** The operation on the map. A key that would leave its bucket is refused there, too. */
  function Ideal(m: Store, op: Op<Target>): (Store, Out) {
    match op
    case Put(t, data, ct, md) =>
      if !t.inside then (m, Failed) else (m[t.place := Object(data, TypeFor(t, ct), md)], Tag(Md5(data)))
    case Get(t) => (m, if Has(m, t) then Data(m[t.place].data) else Missing)
    case Info(t) => (m, if Has(m, t) then About(MetaOf(m[t.place])) else Missing)
    case Delete(t) => if !t.inside then (m, Failed) else (m - {t.place}, Done)
    case Copy(s, d) =>
      if !Has(m, s) then (m, Missing)
      else if !d.inside then (m, Failed)
      else (m[d.place := m[s.place]], Tag(Md5(m[s.place].data)))
    case Move(s, d) =>
      if !Has(m, s) then (m, Missing)
      else if !d.inside then (m, Failed)
      else (m[d.place := m[s.place]] - {s.place}, Tag(Md5(m[s.place].data)))
  }

  predicate Has(m: Store, t: Target) { t.inside && t.place in m }

  function MetaOf(o: Object): Meta { Meta(o.contentType, |o.data|, Md5(o.data), o.metadata) }

  /** A target whose place and path go together. */
  ghost predicate Fits(home: Path, t: Target) {
    && Aimed(t)
    && (t.proper <==> ProperName(t.place.bucket))
    && (t.proper ==> t.dir == home + [t.place.bucket])
    && (t.inside ==> t.place.names != [])
    && (t.inside && t.proper ==> t.path == PathAt(home, t.place))
  }

  ghost predicate FitsOp(home: Path, op: Op<Target>) {
    match op
    case Copy(s, d) => Fits(home, s) && Fits(home, d)
    case Move(s, d) => Fits(home, s) && Fits(home, d)
    case _ => Fits(home, op.l)
  }

  lemma AimFits(site: Site, l: Loc)
    requires ProperNames(site.home) && Usable(site.home, l)
    ensures Fits(site.home, Aim(site, l))
  {
    AimAimed(site, l);
    OwnDirectory(site.home, l.bucket);
    if PlainKey(l.key) { OwnPlace(site.home, l); }
  }

  predicate UsableOp(home: Path, op: Op<Loc>) {
    match op
    case Copy(s, d) => Usable(home, s) && Usable(home, d)
    case Move(s, d) => Usable(home, s) && Usable(home, d)
    case _ => Usable(home, op.l)
  }

  lemma ResolvedFits(site: Site, op: Op<Loc>)
    requires ProperNames(site.home) && UsableOp(site.home, op)
    ensures FitsOp(site.home, Resolved(site, op))
  {
    match op
    case Copy(s, d) => AimFits(site, s); AimFits(site, d);
    case Move(s, d) => AimFits(site, s); AimFits(site, d);
    case _ => AimFits(site, op.l);
  }

  // ---------------------------------------------------------------- when the two agree

  /** Nothing is in the way of writing the file and its sidecar. */
  predicate Free(disk: Disk, p: Path)
    requires p != []
  {
    Ancestors(p) !! disk.files.Keys && p !in disk.dirs && SidecarOf(p) !in disk.dirs
  }

  ghost predicate CanWrite(disk: Disk, t: Target)
    requires Aimed(t)
  {
    t.inside ==> t.proper && Free(disk, t.path)
  }

  ghost predicate CanDelete(disk: Disk, home: Path, t: Target)
    requires Aimed(t)
  {
    t.inside ==>
      && t.path !in disk.dirs && SidecarOf(t.path) !in disk.dirs
      && (t.proper || !(t.path in disk.files && IsObject(home, t.path)))
  }

  /** When the disk acts as the map. Where an operation writes, the bucket's name must be proper
      and nothing in the way; where it reads, it must be, or there is nothing to read. */
  ghost predicate Faithful(disk: Disk, home: Path, op: Op<Target>)
    requires AimedOp(op)
  {
    match op
    case Put(t, _, _, _) => CanWrite(disk, t)
    case Get(t) => t.proper || !Found(disk, t)
    case Info(t) => (t.inside ==> t.path !in disk.dirs) && (t.proper || !Found(disk, t))
    case Delete(t) => CanDelete(disk, home, t)
    case Copy(s, d) => !Found(disk, s) || (s.proper && CanWrite(disk, d))
    case Move(s, d) => !Found(disk, s) || (s.proper && CanWrite(disk, d))
  }

  ghost predicate Agrees(disk: Disk, home: Path, op: Op<Target>)
    requires Sound(disk) && Paired(disk.files) && AimedOp(op)
  {
    var (after, out) := Exec(disk, op);
    && Paired(after.files)
    && (Objects(after.files, home), out) == Ideal(Objects(disk.files, home), op)
  }

  // ---------------------------------------------------------------- writing

  function Written(files: Files, p: Path, data: Bytes, meta: Meta): Files
    requires p != []
  {
    files[p := Blob(data)][SidecarOf(p) := Sidecar(meta)]
  }

  lemma WritePairGoes(disk: Disk, p: Path, data: Bytes, meta: Meta)
    requires p != []
    ensures WritePair(disk, p, data, meta).1 == (if Free(disk, p) then Tag(Md5(data)) else Failed)
    ensures Free(disk, p) ==> WritePair(disk, p, data, meta).0.files == Written(disk.files, p, data, meta)
  {
    ParentAncestors(p);
  }

  /** The bucket's directory is above its files, so making it first is no obstacle. */
  lemma BucketFirst(disk: Disk, d: Path, p: Path)
    requires d <= p && |d| < |p|
    ensures Free(WithDir(disk, d), p) <==> Free(disk, p)
    ensures WithDir(disk, d).files == disk.files
  {
  }

  function MetaFor(t: Target, data: Bytes, ct: string, md: map<string, string>): Meta {
    Meta(TypeFor(t, ct), |data|, Md5(data), md)
  }

  lemma PutGoes(disk: Disk, t: Target, data: Bytes, ct: string, md: map<string, string>)
    requires Aimed(t) && t.inside
    ensures PutAt(disk, t, data, ct, md).1 == (if Free(disk, t.path) then Tag(Md5(data)) else Failed)
    ensures Free(disk, t.path) ==>
              PutAt(disk, t, data, ct, md).0.files == Written(disk.files, t.path, data, MetaFor(t, data, ct, md))
  {
    BucketFirst(disk, t.dir, t.path);
    WritePairGoes(WithDir(disk, t.dir), t.path, data, MetaFor(t, data, ct, md));
  }

  lemma WrittenPaired(files: Files, p: Path, data: Bytes, meta: Meta)
    requires Paired(files) && p != [] && !IsSidecar(p)
    requires meta.size == |data| && meta.etag == Md5(data) && meta.contentType != ""
    ensures Paired(Written(files, p, data, meta))
  {
    var after := Written(files, p, data, meta);
    forall q {:trigger IsSidecar(q)} | q in after && !IsSidecar(q)
      ensures q != [] && after[q].Blob? && HasSidecar(after, q)
    {
      if q != p {
        assert q in files && after[q] == files[q];
        Apart(p, q);
      }
    }
  }

  lemma WrittenFile(files: Files, p: Path, data: Bytes, meta: Meta, q: Path)
    requires Paired(files) && p != [] && !IsSidecar(p) && !IsSidecar(q) && Paired(Written(files, p, data, meta))
    ensures var after := Written(files, p, data, meta);
            && (q in after <==> q == p || q in files)
            && (q in after ==> ObjectOf(after, q)
                               == if q == p then Object(data, meta.contentType, meta.metadata) else ObjectOf(files, q))
  {
    if q in files { Apart(p, q); }
  }

  /** The store after `p` was written, looked up at any place. */
  lemma WrittenAt(files: Files, home: Path, p: Path, data: Bytes, meta: Meta, x: Place)
    requires Paired(files) && p != [] && !IsSidecar(p) && Paired(Written(files, p, data, meta))
    ensures var after := Objects(Written(files, p, data, meta), home);
            && (x in after <==> x in Objects(files, home) || (x.names != [] && PathAt(home, x) == p))
            && (x in after ==>
                  after[x] == if PathAt(home, x) == p then Object(data, meta.contentType, meta.metadata) else Objects(files, home)[x])
  {
    ObjectAt(files, home, x);
    ObjectAt(Written(files, p, data, meta), home, x);
    if !IsSidecar(PathAt(home, x)) { WrittenFile(files, p, data, meta, PathAt(home, x)); }
  }

  /** Writing a file and its sidecar changes the object at its place and no other. */
  lemma WrittenObjects(files: Files, home: Path, pl: Place, data: Bytes, meta: Meta)
    requires Paired(files) && pl.names != [] && !IsSidecar(PathAt(home, pl))
    requires meta.size == |data| && meta.etag == Md5(data) && meta.contentType != ""
    ensures Paired(Written(files, PathAt(home, pl), data, meta))
    ensures Objects(Written(files, PathAt(home, pl), data, meta), home)
         == Objects(files, home)[pl := Object(data, meta.contentType, meta.metadata)]
  {
    var p := PathAt(home, pl);
    WrittenPaired(files, p, data, meta);
    var after := Objects(Written(files, p, data, meta), home);
    var want := Objects(files, home)[pl := Object(data, meta.contentType, meta.metadata)];
    forall x: Place ensures x in after <==> x in want
                    ensures x in after ==> after[x] == want[x] {
      WrittenAt(files, home, p, data, meta, x);
      OnePlace(home, x, pl);
      ObjectAt(files, home, x);
    }
  }

  lemma OnePlace(home: Path, x: Place, y: Place)
    requires y.names != []
    ensures PathAt(home, x) == PathAt(home, y) <==> x == y
  {
    assert PathAt(home, x)[|home|] == x.bucket && PathAt(home, x)[|home| + 1..] == x.names;
    assert PathAt(home, y)[|home|] == y.bucket && PathAt(home, y)[|home| + 1..] == y.names;
  }

  // ---------------------------------------------------------------- removing

  function Removed(files: Files, p: Path): Files
    requires p != []
  {
    files - {p, SidecarOf(p)}
  }

  lemma RemovedPaired(files: Files, p: Path)
    requires Paired(files) && p != [] && !IsSidecar(p)
    ensures Paired(Removed(files, p))
  {
    var after := Removed(files, p);
    forall q {:trigger IsSidecar(q)} | q in after && !IsSidecar(q)
      ensures q != [] && after[q].Blob? && HasSidecar(after, q)
    {
      Apart(p, q);
    }
  }

  lemma RemovedFile(files: Files, p: Path, q: Path)
    requires Paired(files) && p != [] && !IsSidecar(p) && !IsSidecar(q) && Paired(Removed(files, p))
    ensures q in Removed(files, p) <==> q in files && q != p
    ensures q in Removed(files, p) ==> ObjectOf(Removed(files, p), q) == ObjectOf(files, q)
  {
    if q in files { Apart(p, q); }
  }

  lemma RemovedAt(files: Files, home: Path, p: Path, x: Place)
    requires Paired(files) && p != [] && !IsSidecar(p) && Paired(Removed(files, p))
    ensures x in Objects(Removed(files, p), home) <==> x in Objects(files, home) && PathAt(home, x) != p
    ensures x in Objects(Removed(files, p), home) ==> Objects(Removed(files, p), home)[x] == Objects(files, home)[x]
  {
    ObjectAt(files, home, x);
    ObjectAt(Removed(files, p), home, x);
    if !IsSidecar(PathAt(home, x)) { RemovedFile(files, p, PathAt(home, x)); }
  }

  lemma RemovedObjects(files: Files, home: Path, pl: Place)
    requires Paired(files) && pl.names != [] && !IsSidecar(PathAt(home, pl))
    ensures Paired(Removed(files, PathAt(home, pl)))
    ensures Objects(Removed(files, PathAt(home, pl)), home) == Objects(files, home) - {pl}
  {
    var p := PathAt(home, pl);
    RemovedPaired(files, p);
    var after, want := Objects(Removed(files, p), home), Objects(files, home) - {pl};
    forall x: Place ensures x in after <==> x in want
                    ensures x in after ==> after[x] == want[x] {
      RemovedAt(files, home, p, x);
      OnePlace(home, x, pl);
    }
  }

  /** A file outside the buckets, or no file, is no loss. */
  lemma RemovedOutside(files: Files, home: Path, p: Path)
    requires Paired(files) && p != [] && !IsSidecar(p) && !(p in files && IsObject(home, p))
    ensures Paired(Removed(files, p)) && Objects(Removed(files, p), home) == Objects(files, home)
  {
    RemovedPaired(files, p);
    forall x: Place
      ensures x in Objects(Removed(files, p), home) <==> x in Objects(files, home)
      ensures x in Objects(Removed(files, p), home) ==> Objects(Removed(files, p), home)[x] == Objects(files, home)[x]
    {
      RemovedAt(files, home, p, x);
      ObjectAt(files, home, x);
      if x.names != [] { PlaceOfPath(home, x); }
    }
  }

  // ---------------------------------------------------------------- looking up

  lemma ImproperNotStored(disk: Disk, home: Path, pl: Place)
    requires Sound(disk) && Paired(disk.files) && !ProperName(pl.bucket)
    ensures pl !in Objects(disk.files, home)
  {
    ObjectAt(disk.files, home, pl);
    assert PathAt(home, pl)[|home|] == pl.bucket;
    assert pl.bucket in PathAt(home, pl);
  }

  /** The map has what the disk finds, in buckets with proper names. */
  lemma Lookup(disk: Disk, home: Path, t: Target)
    requires Sound(disk) && Paired(disk.files) && Fits(home, t)
    ensures Has(Objects(disk.files, home), t) <==> Found(disk, t) && t.proper
    ensures Has(Objects(disk.files, home), t) ==> Objects(disk.files, home)[t.place] == ObjectOf(disk.files, t.path)
  {
    if t.proper {
      ObjectAt(disk.files, home, t.place);
    } else {
      ImproperNotStored(disk, home, t.place);
    }
  }

  lemma InfoIsMeta(disk: Disk, t: Target)
    requires Sound(disk) && Paired(disk.files) && Aimed(t) && Found(disk, t)
    ensures InfoOf(disk, t) == Some(MetaOf(ObjectOf(disk.files, t.path)))
    ensures ObjectOf(disk.files, t.path).contentType != ""
  {
    assert HasSidecar(disk.files, t.path);
  }

  // ---------------------------------------------------------------- one step

  lemma GetAgrees(disk: Disk, home: Path, t: Target)
    requires Sound(disk) && Paired(disk.files) && Fits(home, t)
    ensures Agrees(disk, home, Get(t)) <==> Faithful(disk, home, Get(t))
  {
    Lookup(disk, home, t);
  }

  lemma InfoAgrees(disk: Disk, home: Path, t: Target)
    requires Sound(disk) && Paired(disk.files) && Fits(home, t)
    ensures Agrees(disk, home, Info(t)) <==> Faithful(disk, home, Info(t))
  {
    Lookup(disk, home, t);
    if Found(disk, t) { InfoIsMeta(disk, t); }
  }

  /** What a put, or the second half of a copy, should do to the map. */
  ghost predicate PutDoes(before: Files, after: Files, out: Out, home: Path, t: Target, data: Bytes, ct: string, md: map<string, string>)
    requires Paired(before)
  {
    && Paired(after)
    && Objects(after, home)
       == (if t.inside then Objects(before, home)[t.place := Object(data, TypeFor(t, ct), md)] else Objects(before, home))
    && out == (if t.inside then Tag(Md5(data)) else Failed)
  }

  ghost predicate PutAgrees(disk: Disk, home: Path, t: Target, data: Bytes, ct: string, md: map<string, string>)
    requires Paired(disk.files) && Aimed(t)
  {
    var result := PutAt(disk, t, data, ct, md);
    PutDoes(disk.files, result.0.files, result.1, home, t, data, ct, md)
  }

  lemma ProperPut(disk: Disk, home: Path, t: Target, data: Bytes, ct: string, md: map<string, string>)
    requires Sound(disk) && Paired(disk.files) && Fits(home, t) && t.inside && t.proper && Free(disk, t.path)
    ensures PutAgrees(disk, home, t, data, ct, md)
  {
    PutGoes(disk, t, data, ct, md);
    WrittenObjects(disk.files, home, t.place, data, MetaFor(t, data, ct, md));
  }

  lemma ImproperPut(disk: Disk, home: Path, t: Target, data: Bytes, ct: string, md: map<string, string>)
    requires Sound(disk) && Paired(disk.files) && Fits(home, t) && t.inside && !(t.proper && Free(disk, t.path))
    ensures !PutAgrees(disk, home, t, data, ct, md)
  {
    PutGoes(disk, t, data, ct, md);
    PutSound(disk, t, data, ct, md);
    var after := PutAt(disk, t, data, ct, md).0;
    if !t.proper && Paired(after.files) { ImproperNotStored(after, home, t.place); }
  }

  lemma RefusedPut(disk: Disk, home: Path, t: Target, data: Bytes, ct: string, md: map<string, string>)
    requires Paired(disk.files) && Aimed(t) && !t.inside
    ensures PutAgrees(disk, home, t, data, ct, md)
  {
    assert PutAt(disk, t, data, ct, md).0.files == disk.files;
  }

  lemma PutAnswers(disk: Disk, t: Target, data: Bytes, ct: string, md: map<string, string>)
    requires Aimed(t)
    ensures PutAt(disk, t, data, ct, md).1 in {Tag(Md5(data)), Failed}
  {
    if t.inside { PutGoes(disk, t, data, ct, md); }
  }

  lemma PutStep(disk: Disk, home: Path, t: Target, data: Bytes, ct: string, md: map<string, string>)
    requires Sound(disk) && Paired(disk.files) && Fits(home, t)
    ensures PutAgrees(disk, home, t, data, ct, md) <==> CanWrite(disk, t)
  {
    if !t.inside {
      RefusedPut(disk, home, t, data, ct, md);
    } else if t.proper && Free(disk, t.path) {
      ProperPut(disk, home, t, data, ct, md);
    } else {
      ImproperPut(disk, home, t, data, ct, md);
    }
  }

  lemma DeleteGoes(disk: Disk, t: Target)
    requires Aimed(t) && t.inside
    ensures if t.path !in disk.dirs && SidecarOf(t.path) !in disk.dirs
            then DeleteAt(disk, t) == (disk.(files := Removed(disk.files, t.path)), Done)
            else DeleteAt(disk, t).1 == Failed
  {
  }

  /** Deleting through a bucket with an improper name is noticed when it hits another's object. */
  lemma ImproperDelete(disk: Disk, home: Path, t: Target)
    requires Sound(disk) && Paired(disk.files) && Fits(home, t) && t.inside && !t.proper
    ensures Paired(Removed(disk.files, t.path))
    ensures Objects(Removed(disk.files, t.path), home) == Objects(disk.files, home) - {t.place}
       <==> !(t.path in disk.files && IsObject(home, t.path))
  {
    ImproperNotStored(disk, home, t.place);
    assert Objects(disk.files, home) - {t.place} == Objects(disk.files, home);
    RemovedPaired(disk.files, t.path);
    if t.path in disk.files && IsObject(home, t.path) {
      RemovedObject(disk.files, home, t.path);
    } else {
      RemovedOutside(disk.files, home, t.path);
    }
  }

  lemma RemovedObject(files: Files, home: Path, p: Path)
    requires Paired(files) && p in files && IsObject(home, p) && Paired(Removed(files, p))
    ensures Objects(Removed(files, p), home) != Objects(files, home)
  {
    var pl := PlaceOf(home, p);
    ObjectAt(files, home, pl);
    RemovedAt(files, home, p, pl);
  }

  lemma DeleteAgrees(disk: Disk, home: Path, t: Target)
    requires Sound(disk) && Paired(disk.files) && Fits(home, t)
    ensures Agrees(disk, home, Delete(t)) <==> Faithful(disk, home, Delete(t))
  {
    if t.inside {
      DeleteGoes(disk, t);
      if t.proper {
        RemovedObjects(disk.files, home, t.place);
      } else {
        ImproperDelete(disk, home, t);
      }
    }
  }

  /** A copy that finds its source is a put of what the source and its sidecar hold. */
  lemma CopyIsPut(disk: Disk, s: Target, d: Target)
    requires Sound(disk) && Paired(disk.files) && Aimed(s) && Aimed(d) && Found(disk, s)
    ensures var o := ObjectOf(disk.files, s.path);
            && o.contentType != ""
            && CopyAt(disk, s, d) == PutAt(disk, d, o.data, o.contentType, o.metadata)
  {
    InfoIsMeta(disk, s);
  }

  lemma NothingToCopy(disk: Disk, home: Path, s: Target, d: Target)
    requires Sound(disk) && Paired(disk.files) && Fits(home, s) && Fits(home, d) && !Found(disk, s)
    ensures Agrees(disk, home, Copy(s, d)) && Agrees(disk, home, Move(s, d))
  {
    Lookup(disk, home, s);
  }

  /** With a source that the map does not have, the answers differ. */
  lemma CopyOfImproper(disk: Disk, home: Path, s: Target, d: Target)
    requires Sound(disk) && Paired(disk.files) && Fits(home, s) && Fits(home, d) && Found(disk, s) && !s.proper
    ensures !Agrees(disk, home, Copy(s, d)) && !Agrees(disk, home, Move(s, d))
  {
    Lookup(disk, home, s);
    CopyIsPut(disk, s, d);
    var o := ObjectOf(disk.files, s.path);
    PutAnswers(disk, d, o.data, o.contentType, o.metadata);
  }

  lemma CopyAgrees(disk: Disk, home: Path, s: Target, d: Target)
    requires Sound(disk) && Paired(disk.files) && Fits(home, s) && Fits(home, d)
    ensures Agrees(disk, home, Copy(s, d)) <==> Faithful(disk, home, Copy(s, d))
  {
    if !Found(disk, s) {
      NothingToCopy(disk, home, s, d);
    } else if !s.proper {
      CopyOfImproper(disk, home, s, d);
    } else {
      Lookup(disk, home, s);
      CopyIsPut(disk, s, d);
      var o := ObjectOf(disk.files, s.path);
      PutStep(disk, home, d, o.data, o.contentType, o.metadata);
    }
  }

  /** After the copy the source is still there, with its sidecar, so the delete goes through. */
  lemma SourceStays(disk: Disk, s: Target, d: Target)
    requires Sound(disk) && Paired(disk.files) && Aimed(s) && Aimed(d) && Found(disk, s)
    requires d.inside && Free(disk, d.path)
    ensures var c := CopyAt(disk, s, d).0;
            && CopyAt(disk, s, d).1.Tag? && Sound(c) && Paired(c.files)
            && DeleteAt(c, s) == (c.(files := Removed(c.files, s.path)), Done)
  {
    CopyIsPut(disk, s, d);
    CopySound(disk, s, d);
    var o := ObjectOf(disk.files, s.path);
    PutGoes(disk, d, o.data, o.contentType, o.metadata);
    WrittenPaired(disk.files, d.path, o.data, MetaFor(d, o.data, o.contentType, o.metadata));
    var c := CopyAt(disk, s, d).0;
    assert s.path in c.files && !IsSidecar(s.path);
    assert HasSidecar(c.files, s.path);
    DeleteGoes(c, s);
  }

  lemma MoveGoes(disk: Disk, s: Target, d: Target)
    requires Sound(disk) && Paired(disk.files) && Aimed(s) && Aimed(d) && Found(disk, s)
    requires d.inside && Free(disk, d.path)
    ensures MoveAt(disk, s, d).0.files == Removed(CopyAt(disk, s, d).0.files, s.path)
    ensures MoveAt(disk, s, d).1 == CopyAt(disk, s, d).1
  {
    SourceStays(disk, s, d);
  }

  lemma MovedObjects(disk: Disk, home: Path, s: Target, d: Target)
    requires Sound(disk) && Paired(disk.files) && Fits(home, s) && Fits(home, d)
    requires Found(disk, s) && s.proper && d.inside && d.proper && Free(disk, d.path)
    ensures var after, o := MoveAt(disk, s, d), ObjectOf(disk.files, s.path);
            && Paired(after.0.files) && after.1 == Tag(Md5(o.data))
            && Objects(after.0.files, home) == Objects(disk.files, home)[d.place := o] - {s.place}
  {
    CopyIsPut(disk, s, d);
    var o := ObjectOf(disk.files, s.path);
    ProperPut(disk, home, d, o.data, o.contentType, o.metadata);
    MoveGoes(disk, s, d);
    RemovedObjects(CopyAt(disk, s, d).0.files, home, s.place);
  }

  lemma IdealMove(m: Store, s: Target, d: Target)
    requires Has(m, s) && d.inside
    ensures Ideal(m, Move(s, d)) == (m[d.place := m[s.place]] - {s.place}, Tag(Md5(m[s.place].data)))
  {
  }

  lemma ProperMove(disk: Disk, home: Path, s: Target, d: Target)
    requires Sound(disk) && Paired(disk.files) && Fits(home, s) && Fits(home, d)
    requires Found(disk, s) && s.proper && d.inside && d.proper && Free(disk, d.path)
    ensures Agrees(disk, home, Move(s, d))
  {
    Lookup(disk, home, s);
    IdealMove(Objects(disk.files, home), s, d);
    MovedObjects(disk, home, s, d);
    assert Exec(disk, Move(s, d)) == MoveAt(disk, s, d);
  }

  /** A destination that is blocked fails. */
  lemma BlockedMove(disk: Disk, home: Path, s: Target, d: Target)
    requires Sound(disk) && Paired(disk.files) && Fits(home, s) && Fits(home, d)
    requires Found(disk, s) && s.proper && d.inside && !Free(disk, d.path)
    ensures !Agrees(disk, home, Move(s, d))
  {
    Lookup(disk, home, s);
    CopyIsPut(disk, s, d);
    var o := ObjectOf(disk.files, s.path);
    PutGoes(disk, d, o.data, o.contentType, o.metadata);
    IdealMove(Objects(disk.files, home), s, d);
    assert Exec(disk, Move(s, d)) == MoveAt(disk, s, d);
  }

  /** One with an improper name never shows up. */
  lemma LostMove(disk: Disk, home: Path, s: Target, d: Target)
    requires Sound(disk) && Paired(disk.files) && Fits(home, s) && Fits(home, d)
    requires Found(disk, s) && s.proper && d.inside && !d.proper
    ensures !Agrees(disk, home, Move(s, d))
  {
    Lookup(disk, home, s);
    IdealMove(Objects(disk.files, home), s, d);
    StepSound(disk, Move(s, d));
    var after := Exec(disk, Move(s, d)).0;
    if Paired(after.files) { ImproperNotStored(after, home, d.place); }
  }

  lemma RefusedMove(disk: Disk, home: Path, s: Target, d: Target)
    requires Sound(disk) && Paired(disk.files) && Fits(home, s) && Fits(home, d)
    requires Found(disk, s) && s.proper && !d.inside
    ensures Agrees(disk, home, Move(s, d))
  {
    Lookup(disk, home, s);
    CopyIsPut(disk, s, d);
    assert Exec(disk, Move(s, d)) == MoveAt(disk, s, d);
  }

  lemma MoveAgrees(disk: Disk, home: Path, s: Target, d: Target)
    requires Sound(disk) && Paired(disk.files) && Fits(home, s) && Fits(home, d)
    ensures Agrees(disk, home, Move(s, d)) <==> Faithful(disk, home, Move(s, d))
  {
    if !Found(disk, s) {
      NothingToCopy(disk, home, s, d);
    } else if !s.proper {
      CopyOfImproper(disk, home, s, d);
    } else if !d.inside {
      RefusedMove(disk, home, s, d);
    } else if !d.proper {
      LostMove(disk, home, s, d);
    } else if !Free(disk, d.path) {
      BlockedMove(disk, home, s, d);
    } else {
      ProperMove(disk, home, s, d);
    }
  }

  /** Each operation on the disk is the operation on the map, with its answer, exactly when it is
      faithful. */
  lemma StepRefines(disk: Disk, home: Path, op: Op<Target>)
    requires Sound(disk) && Paired(disk.files) && FitsOp(home, op)
    ensures Agrees(disk, home, op) <==> Faithful(disk, home, op)
  {
    match op
    case Put(t, data, ct, md) => PutStep(disk, home, t, data, ct, md);
    case Get(t) => GetAgrees(disk, home, t);
    case Info(t) => InfoAgrees(disk, home, t);
    case Delete(t) => DeleteAgrees(disk, home, t);
    case Copy(s, d) => CopyAgrees(disk, home, s, d);
    case Move(s, d) => MoveAgrees(disk, home, s, d);
  }
}
