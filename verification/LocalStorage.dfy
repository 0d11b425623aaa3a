/** Local object storage: files with `.meta.json` sidecars on a disk, against a map from bucket and
    key to objects.

    A bucket is given by its cleaned-up name. Which file a bucket and a key denote is for the file
    system to say, and so is whether it can be written. */
module LocalStorage {
  import opened Common
  import opened Paths

  type Bytes = seq<bv8>

  const SUFFIX := ".meta.json"

  datatype Loc = Loc(bucket: string, key: string)

  /** A bucket and the names of a key: `a//b` and `a/b` are one key. */
  datatype Place = Place(bucket: string, names: seq<string>)

  /** The MD5 of the content, as an opaque non-empty token; `NoTag` is the empty string. */
  datatype ETag = Md5(content: Bytes) | NoTag

  datatype Meta = Meta(contentType: string, size: nat, etag: ETag, metadata: map<string, string>)

  datatype File = Blob(data: Bytes) | Sidecar(meta: Meta)

  /** No path is both a file and a directory. */
  datatype Disk = Disk(files: map<Path, File>, dirs: set<Path>)

  /** The user's directory, and `mimetypes.guess_type` as an oracle. */
  datatype Site = Site(home: Path, guess: string -> string)

  datatype Object = Object(data: Bytes, contentType: string, metadata: map<string, string>)

  predicate IsSidecarName(name: string) {
    |name| >= |SUFFIX| && name[|name| - |SUFFIX|..] == SUFFIX
  }

  predicate IsSidecar(p: Path) { p != [] && IsSidecarName(p[|p| - 1]) }

  function SidecarOf(p: Path): (s: Path)
    requires p != []
    ensures |s| == |p| && IsSidecar(s) && s[..|s| - 1] == p[..|p| - 1]
  {
    var name := p[|p| - 1] + SUFFIX;
    assert name[|name| - |SUFFIX|..] == SUFFIX;
    p[..|p| - 1] + [name]
  }

  lemma SidecarInjective(p: Path, q: Path)
    requires p != [] && q != []
    ensures SidecarOf(p) == SidecarOf(q) <==> p == q
  {
    var a, b := p[|p| - 1], q[|q| - 1];
    assert SidecarOf(p)[|p| - 1] == a + SUFFIX && SidecarOf(q)[|q| - 1] == b + SUFFIX;
    if SidecarOf(p) == SidecarOf(q) {
      assert (a + SUFFIX)[..|a|] == a && (b + SUFFIX)[..|b|] == b;
      assert p == p[..|p| - 1] + [a] && q == q[..|q| - 1] + [b];
    }
  }

  /** Plain files and sidecars never meet, and two plain files have two sidecars. */
  lemma Apart(p: Path, q: Path)
    requires p != [] && q != [] && !IsSidecar(p) && !IsSidecar(q)
    ensures SidecarOf(p) != q && SidecarOf(q) != p
    ensures SidecarOf(p) == SidecarOf(q) <==> p == q
  {
    SidecarInjective(p, q);
  }

  // ---------------------------------------------------------------- from locations to paths

  /** A key that names a file below its bucket, step by step, and no sidecar. */
  predicate PlainKey(key: string) { Relative(key) && Names(key) != [] && !IsSidecar(Names(key)) }

  function BucketDir(home: Path, bucket: string): Path { Joined(home, bucket) }

  function FileOf(home: Path, l: Loc): Path { Joined(BucketDir(home, l.bucket), l.key) }

  /** The traversal check: the resolved path must lie in the bucket's directory. */
  predicate Refused(home: Path, l: Loc) { !(BucketDir(home, l.bucket) <= FileOf(home, l)) }

  predicate Usable(home: Path, l: Loc) { PlainKey(l.key) || Refused(home, l) }

  lemma PlainFile(home: Path, l: Loc)
    requires PlainKey(l.key)
    ensures FileOf(home, l) == BucketDir(home, l.bucket) + Names(l.key)
    ensures FileOf(home, l) != [] && !IsSidecar(FileOf(home, l)) && !Refused(home, l)
  {
    var d := BucketDir(home, l.bucket);
    JoinedForward(d, l.key);
    assert (d + Names(l.key))[|d + Names(l.key)| - 1] == Names(l.key)[|Names(l.key)| - 1];
  }

  function Asked(l: Loc): Place { Place(l.bucket, Names(l.key)) }

  /** `mimetypes.guess_type`, with the fallback. */
  function DefaultType(guess: string -> string, key: string): (r: string)
    ensures r != ""
  {
    if guess(key) == "" then "application/octet-stream" else guess(key)
  }

  /** What a client works out about a location before it touches the disk; `inside` is false when
      the key is refused, and `proper` says whether the bucket's name can be that of a directory. */
  datatype Target = Target(dir: Path, path: Path, inside: bool, place: Place, proper: bool, defaultType: string)

  function Aim(site: Site, l: Loc): Target {
    Target(BucketDir(site.home, l.bucket), FileOf(site.home, l), !Refused(site.home, l), Asked(l),
           ProperName(l.bucket), DefaultType(site.guess, l.key))
  }

  /** A target that is not refused is a plain file below its bucket's directory. */
  ghost predicate Aimed(t: Target) {
    && ProperNames(t.dir) && ProperNames(t.path) && t.defaultType != ""
    && (t.inside ==> t.path != [] && !IsSidecar(t.path) && t.dir <= t.path && |t.dir| < |t.path|)
  }

  lemma AimAimed(site: Site, l: Loc)
    requires ProperNames(site.home) && Usable(site.home, l)
    ensures Aimed(Aim(site, l))
  {
    JoinedProper(site.home, l.bucket);
    JoinedProper(BucketDir(site.home, l.bucket), l.key);
    if PlainKey(l.key) { PlainFile(site.home, l); }
  }

  // ---------------------------------------------------------------- operations on the disk

  function Ancestors(p: Path): set<Path> { set i | 0 <= i < |p| :: p[..i] }

  /** `mkdir(parents=True, exist_ok=True)` succeeds: neither the path nor anything above is a file. */
  predicate CanBeDir(disk: Disk, d: Path) { d !in disk.files && Ancestors(d) !! disk.files.Keys }

  function WithDir(disk: Disk, d: Path): Disk {
    if CanBeDir(disk, d) then disk.(dirs := disk.dirs + Ancestors(d) + {d}) else disk
  }

  function TypeFor(t: Target, contentType: string): string {
    if contentType == "" then t.defaultType else contentType
  }

  /** The operations, on locations or on targets. */
  datatype Op<L> =
    | Put(l: L, data: Bytes, contentType: string, metadata: map<string, string>)
    | Get(l: L)
    | Info(l: L)
    | Delete(l: L)
    | Copy(source: L, dest: L)
    | Move(source: L, dest: L)

  function Resolved(site: Site, op: Op<Loc>): Op<Target> {
    match op
    case Put(l, data, ct, md) => Put(Aim(site, l), data, ct, md)
    case Get(l) => Get(Aim(site, l))
    case Info(l) => Info(Aim(site, l))
    case Delete(l) => Delete(Aim(site, l))
    case Copy(s, d) => Copy(Aim(site, s), Aim(site, d))
    case Move(s, d) => Move(Aim(site, s), Aim(site, d))
  }

  /** `Missing` and `Failed` are both None to the caller: nothing found, and an exception logged. */
  datatype Out =
    | Tag(etag: ETag)
    | Data(data: Bytes)
    | About(meta: Meta)
    | AboutDirectory
    | Done
    | Missing
    | Failed

  ghost predicate AimedOp(op: Op<Target>) {
    match op
    case Copy(s, d) => Aimed(s) && Aimed(d)
    case Move(s, d) => Aimed(s) && Aimed(d)
    case _ => Aimed(op.l)
  }

  /** The two writes, and what stops them: a file where a directory is needed, a directory where a
      file is to be written. The first write may succeed when the second does not. */
  function WritePair(disk: Disk, p: Path, data: Bytes, meta: Meta): (Disk, Out)
    requires p != []
  {
    if !CanBeDir(disk, p[..|p| - 1]) then (disk, Failed)
    else
      var made := WithDir(disk, p[..|p| - 1]);
      if p in made.dirs then (made, Failed)
      else
        var written := made.(files := made.files[p := Blob(data)]);
        if SidecarOf(p) in made.dirs then (written, Failed)
        else (written.(files := written.files[SidecarOf(p) := Sidecar(meta)]), Tag(Md5(data)))
  }

  /** The bucket is made first; an error there is logged and passed over. */
  function PutAt(disk: Disk, t: Target, data: Bytes, contentType: string, metadata: map<string, string>): (Disk, Out)
    requires Aimed(t)
  {
    var made := WithDir(disk, t.dir);
    if !t.inside then (made, Failed)
    else WritePair(made, t.path, data, Meta(TypeFor(t, contentType), |data|, Md5(data), metadata))
  }

  predicate Found(disk: Disk, t: Target) { t.inside && t.path in disk.files }

  /** The info of a stored file: from its sidecar, or made up when there is none. */
  function InfoOf(disk: Disk, t: Target): Option<Meta>
    requires Sound(disk) && Aimed(t) && Found(disk, t)
  {
    var side := SidecarOf(t.path);
    if side in disk.dirs then None
    else if side in disk.files then Some(disk.files[side].meta)
    else Some(Meta(t.defaultType, |disk.files[t.path].data|, NoTag, map[]))
  }

  function InfoAt(disk: Disk, t: Target): Out
    requires Sound(disk) && Aimed(t)
  {
    if Found(disk, t) then
      match InfoOf(disk, t)
      case Some(meta) => About(meta)
      case None => Missing
    else if t.inside && t.path in disk.dirs then AboutDirectory
    else Missing
  }

  function DeleteAt(disk: Disk, t: Target): (Disk, Out)
    requires Aimed(t)
  {
    if !t.inside || t.path in disk.dirs then (disk, Failed)
    else if SidecarOf(t.path) in disk.dirs then (disk.(files := disk.files - {t.path}), Failed)
    else (disk.(files := disk.files - {t.path, SidecarOf(t.path)}), Done)
  }

  function CopyAt(disk: Disk, s: Target, d: Target): (Disk, Out)
    requires Sound(disk) && Aimed(s) && Aimed(d)
  {
    if !Found(disk, s) then (disk, Missing)
    else
      match InfoOf(disk, s)
      case Some(meta) => PutAt(disk, d, disk.files[s.path].data, meta.contentType, meta.metadata)
      case None => PutAt(disk, d, disk.files[s.path].data, "", map[])
  }

  /** What the delete answers is not looked at. */
  function MoveAt(disk: Disk, s: Target, d: Target): (Disk, Out)
    requires Sound(disk) && Aimed(s) && Aimed(d)
  {
    var copied := CopyAt(disk, s, d);
    if copied.1.Tag? then (DeleteAt(copied.0, s).0, copied.1) else copied
  }

  /** One operation on the disk. */
  function Exec(disk: Disk, op: Op<Target>): (Disk, Out)
    requires Sound(disk) && AimedOp(op)
  {
    match op
    case Put(t, data, ct, md) => PutAt(disk, t, data, ct, md)
    case Get(t) => (disk, if Found(disk, t) then Data(disk.files[t.path].data) else Missing)
    case Info(t) => (disk, InfoAt(disk, t))
    case Delete(t) => DeleteAt(disk, t)
    case Copy(s, d) => CopyAt(disk, s, d)
    case Move(s, d) => MoveAt(disk, s, d)
  }

  // ---------------------------------------------------------------- what every operation keeps

  /** A disk that holds what the clients wrote: below directories, under proper names, sidecars
      exactly where the names say so. */
  ghost predicate Sound(disk: Disk) {
    && (forall p {:trigger p in disk.files} :: p in disk.files ==>
          && p != [] && ProperNames(p) && p !in disk.dirs && Ancestors(p) <= disk.dirs
          && (disk.files[p].Sidecar? <==> IsSidecar(p)))
    && (forall d :: d in disk.dirs ==> ProperNames(d))
  }

  lemma AncestorsProper(p: Path)
    requires ProperNames(p)
    ensures forall a :: a in Ancestors(p) ==> ProperNames(a)
  {
  }

  lemma ParentAncestors(p: Path)
    requires p != []
    ensures Ancestors(p) == Ancestors(p[..|p| - 1]) + {p[..|p| - 1]}
  {
    var parent := p[..|p| - 1];
    forall i | 0 <= i < |p| ensures p[..i] in Ancestors(parent) + {parent} {
      if i < |parent| { assert p[..i] == parent[..i]; }
    }
    forall i | 0 <= i < |parent| ensures parent[..i] in Ancestors(p) { assert p[..i] == parent[..i]; }
    assert p[..|p| - 1] in Ancestors(p);
  }

  lemma SidecarProper(p: Path)
    requires p != [] && ProperNames(p)
    ensures ProperNames(SidecarOf(p)) && Ancestors(SidecarOf(p)) == Ancestors(p)
  {
    var s := SidecarOf(p);
    ParentAncestors(p);
    ParentAncestors(s);
    assert p[|p| - 1] in p;
    forall n | n in s ensures ProperName(n) {
      if n in s[..|s| - 1] { assert n in p; } else { assert |n| >= 2 && n[|n| - 1] == 'n'; }
    }
  }

  lemma WithDirSound(disk: Disk, d: Path)
    requires Sound(disk) && ProperNames(d)
    ensures Sound(WithDir(disk, d))
  {
    AncestorsProper(d);
  }

  lemma FileAdded(disk: Disk, p: Path, file: File)
    requires Sound(disk) && p != [] && ProperNames(p) && p !in disk.dirs && Ancestors(p) <= disk.dirs
    requires file.Sidecar? <==> IsSidecar(p)
    ensures Sound(disk.(files := disk.files[p := file]))
  {
  }

  lemma WritePairSound(disk: Disk, p: Path, data: Bytes, meta: Meta)
    requires Sound(disk) && p != [] && ProperNames(p) && !IsSidecar(p)
    ensures Sound(WritePair(disk, p, data, meta).0)
  {
    var parent := p[..|p| - 1];
    assert ProperNames(parent);
    WithDirSound(disk, parent);
    ParentAncestors(p);
    SidecarProper(p);
    var made := WithDir(disk, parent);
    if CanBeDir(disk, parent) && p !in made.dirs {
      FileAdded(made, p, Blob(data));
      if SidecarOf(p) !in made.dirs {
        FileAdded(made.(files := made.files[p := Blob(data)]), SidecarOf(p), Sidecar(meta));
      }
    }
  }

  lemma PutSound(disk: Disk, t: Target, data: Bytes, ct: string, md: map<string, string>)
    requires Sound(disk) && Aimed(t)
    ensures Sound(PutAt(disk, t, data, ct, md).0)
  {
    WithDirSound(disk, t.dir);
    if t.inside {
      WritePairSound(WithDir(disk, t.dir), t.path, data, Meta(TypeFor(t, ct), |data|, Md5(data), md));
    }
  }

  lemma DeleteSound(disk: Disk, t: Target)
    requires Sound(disk) && Aimed(t)
    ensures Sound(DeleteAt(disk, t).0)
  {
  }

  lemma CopySound(disk: Disk, s: Target, d: Target)
    requires Sound(disk) && Aimed(s) && Aimed(d)
    ensures Sound(CopyAt(disk, s, d).0)
  {
    if Found(disk, s) {
      match InfoOf(disk, s)
      case Some(meta) => PutSound(disk, d, disk.files[s.path].data, meta.contentType, meta.metadata);
      case None => PutSound(disk, d, disk.files[s.path].data, "", map[]);
    }
  }

  /** Every operation keeps the disk sound, whatever bucket it names and whether or not it succeeds. */
  lemma StepSound(disk: Disk, op: Op<Target>)
    requires Sound(disk) && AimedOp(op)
    ensures Sound(Exec(disk, op).0)
  {
    match op
    case Put(t, data, ct, md) => PutSound(disk, t, data, ct, md);
    case Get(_) =>
    case Info(_) =>
    case Delete(t) => DeleteSound(disk, t);
    case Copy(s, d) => CopySound(disk, s, d);
    case Move(s, d) =>
      CopySound(disk, s, d);
      DeleteSound(CopyAt(disk, s, d).0, s);
  }
}
