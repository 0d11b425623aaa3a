/** Runs of the object store: refinement, isolation, moves, and a check on names alone that makes
    every step of a run faithful. */
module StorageRuns {
  import opened Paths
  import opened LocalStorage
  import opened StoragePlaces
  import opened StorageRefinement

  const EMPTY: Disk := Disk(map[], {})

  lemma EmptyDisk(home: Path)
    ensures Sound(EMPTY) && Paired(EMPTY.files) && Objects(EMPTY.files, home) == map[]
  {
  }

  // ---------------------------------------------------------------- refinement

  ghost predicate FitsRun(home: Path, ops: seq<Op<Target>>) {
    forall i :: 0 <= i < |ops| ==> FitsOp(home, ops[i])
  }

  ghost function Run(disk: Disk, home: Path, ops: seq<Op<Target>>): (r: (Disk, seq<Out>))
    requires Sound(disk) && FitsRun(home, ops)
    ensures Sound(r.0)
    decreases |ops|
  {
    if ops == [] then (disk, [])
    else
      StepSound(disk, ops[0]);
      var (next, out) := Exec(disk, ops[0]);
      var (end, outs) := Run(next, home, ops[1..]);
      (end, [out] + outs)
  }

  function IdealRun(m: Store, ops: seq<Op<Target>>): (Store, seq<Out>)
    decreases |ops|
  {
    if ops == [] then (m, [])
    else
      var (next, out) := Ideal(m, ops[0]);
      var (end, outs) := IdealRun(next, ops[1..]);
      (end, [out] + outs)
  }

  ghost predicate FaithfulRun(disk: Disk, home: Path, ops: seq<Op<Target>>)
    requires Sound(disk) && FitsRun(home, ops)
    decreases |ops|
  {
    ops == [] ||
    (Faithful(disk, home, ops[0]) &&
     (StepSound(disk, ops[0]); FaithfulRun(Exec(disk, ops[0]).0, home, ops[1..])))
  }

  /** Over every run of faithful operations the disk answers as the map and ends in its objects. */
  lemma {:induction false} RunRefines(disk: Disk, home: Path, ops: seq<Op<Target>>)
    requires Sound(disk) && Paired(disk.files) && FitsRun(home, ops) && FaithfulRun(disk, home, ops)
    ensures Paired(Run(disk, home, ops).0.files)
    ensures (Objects(Run(disk, home, ops).0.files, home), Run(disk, home, ops).1) == IdealRun(Objects(disk.files, home), ops)
    decreases |ops|
  {
    if ops != [] {
      StepRefines(disk, home, ops[0]);
      StepSound(disk, ops[0]);
      RunRefines(Exec(disk, ops[0]).0, home, ops[1..]);
    }
  }

  // ---------------------------------------------------------------- single operations

  function Named(op: Op<Target>): set<Place> {
    match op
    case Copy(_, d) => {d.place}
    case Move(s, d) => {s.place, d.place}
    case _ => {op.l.place}
  }

  lemma IdealElsewhere(m: Store, op: Op<Target>, x: Place)
    requires x !in Named(op)
    ensures x in m <==> x in Ideal(m, op).0
    ensures x in m ==> Ideal(m, op).0[x] == m[x]
  {
  }

  /** A faithful operation leaves every object it does not name as it was. */
  lemma OthersUnchanged(disk: Disk, home: Path, op: Op<Target>, x: Place)
    requires Sound(disk) && Paired(disk.files) && FitsOp(home, op) && Faithful(disk, home, op) && x !in Named(op)
    ensures Paired(Exec(disk, op).0.files)
    ensures x in Objects(disk.files, home) <==> x in Objects(Exec(disk, op).0.files, home)
    ensures x in Objects(disk.files, home) ==> Objects(Exec(disk, op).0.files, home)[x] == Objects(disk.files, home)[x]
  {
    StepRefines(disk, home, op);
    IdealElsewhere(Objects(disk.files, home), op, x);
  }

  lemma MoveResult(disk: Disk, home: Path, s: Target, d: Target)
    requires Sound(disk) && Paired(disk.files) && Fits(home, s) && Fits(home, d)
    requires Faithful(disk, home, Move(s, d)) && Found(disk, s) && d.inside
    ensures Paired(Exec(disk, Move(s, d)).0.files) && s.place in Objects(disk.files, home)
    ensures var m := Objects(disk.files, home);
            Objects(Exec(disk, Move(s, d)).0.files, home) == m[d.place := m[s.place]] - {s.place}
  {
    StepRefines(disk, home, Move(s, d));
    Lookup(disk, home, s);
    IdealMove(Objects(disk.files, home), s, d);
  }

  /** A move that goes through keeps the object, under its new location only, exactly when the two
      locations are two files; onto itself, however it is spelt, it deletes. */
  lemma MoveConserves(disk: Disk, home: Path, s: Target, d: Target)
    requires Sound(disk) && Paired(disk.files) && Fits(home, s) && Fits(home, d)
    requires Faithful(disk, home, Move(s, d)) && Found(disk, s) && d.inside
    ensures Paired(Exec(disk, Move(s, d)).0.files) && s.place in Objects(disk.files, home)
    ensures var before, after := Objects(disk.files, home), Objects(Exec(disk, Move(s, d)).0.files, home);
            && s.place !in after
            && ((d.place in after && after[d.place] == before[s.place]) <==> s.path != d.path)
  {
    MoveResult(disk, home, s, d);
    OnePlace(home, s.place, d.place);
  }

  // ---------------------------------------------------------------- a check on names alone

  /** No file of the set, and no sidecar of one, is a directory on the way to another. */
  ghost predicate Tidy(home: Path, paths: set<Path>) {
    && (forall p :: p in paths ==> |p| >= |home| + 2 && !IsSidecar(p))
    && (forall p, q :: p in paths && q in paths ==> NotOnTheWay(p, q))
  }

  predicate NotOnTheWay(p: Path, q: Path) {
    p != [] ==> p !in Ancestors(q) && SidecarOf(p) !in Ancestors(q)
  }

  ghost predicate Uses(op: Op<Target>, paths: set<Path>) {
    match op
    case Copy(s, d) => UsesOne(s, paths) && UsesOne(d, paths)
    case Move(s, d) => UsesOne(s, paths) && UsesOne(d, paths)
    case _ => UsesOne(op.l, paths)
  }

  predicate UsesOne(t: Target, paths: set<Path>) { t.proper && (t.inside ==> t.path in paths) }

  /** The disk holds files of the set with their sidecars, in directories on the way to them. */
  ghost predicate Within(disk: Disk, home: Path, paths: set<Path>) {
    && (forall f :: f in disk.files ==> FileWithin(f, paths))
    && (forall d :: d in disk.dirs ==> DirWithin(d, home, paths))
  }

  ghost predicate FileWithin(f: Path, paths: set<Path>) {
    exists p :: p in paths && p != [] && (f == p || f == SidecarOf(p))
  }

  ghost predicate DirWithin(d: Path, home: Path, paths: set<Path>) {
    |d| <= |home| + 1 || exists p :: p in paths && d in Ancestors(p)
  }

  lemma TidyFree(disk: Disk, home: Path, paths: set<Path>, p: Path)
    requires Within(disk, home, paths) && Tidy(home, paths) && p in paths
    ensures p != [] && Free(disk, p)
  {
    assert forall q :: q in paths ==> NotOnTheWay(q, p) && NotOnTheWay(p, q);
    forall a | a in Ancestors(p) ensures a !in disk.files {
      assert a in disk.files ==> FileWithin(a, paths);
    }
    assert p in disk.dirs ==> DirWithin(p, home, paths);
    assert SidecarOf(p) in disk.dirs ==> DirWithin(SidecarOf(p), home, paths);
  }

  lemma TidyFaithful(disk: Disk, home: Path, paths: set<Path>, op: Op<Target>)
    requires Within(disk, home, paths) && Tidy(home, paths) && Uses(op, paths) && FitsOp(home, op)
    ensures Faithful(disk, home, op)
  {
    match op
    case Get(_) =>
    case Copy(s, d) => if d.inside { TidyFree(disk, home, paths, d.path); }
    case Move(s, d) => if d.inside { TidyFree(disk, home, paths, d.path); }
    case _ => if op.l.inside { TidyFree(disk, home, paths, op.l.path); }
  }

  lemma WithDirWithin(disk: Disk, home: Path, paths: set<Path>, d: Path)
    requires Within(disk, home, paths)
    requires forall a :: a in Ancestors(d) + {d} ==> DirWithin(a, home, paths)
    ensures Within(WithDir(disk, d), home, paths)
  {
  }

  lemma TargetDirs(home: Path, paths: set<Path>, t: Target)
    requires UsesOne(t, paths) && Fits(home, t)
    ensures forall a :: a in Ancestors(t.dir) + {t.dir} ==> DirWithin(a, home, paths)
    ensures t.inside ==> forall a :: a in Ancestors(t.path[..|t.path| - 1]) + {t.path[..|t.path| - 1]} ==> DirWithin(a, home, paths)
  {
    if t.inside { ParentAncestors(t.path); }
  }

  lemma FileAddedWithin(disk: Disk, home: Path, paths: set<Path>, f: Path, file: File)
    requires Within(disk, home, paths) && FileWithin(f, paths)
    ensures Within(disk.(files := disk.files[f := file]), home, paths)
  {
  }

  lemma WritePairWithin(disk: Disk, home: Path, paths: set<Path>, p: Path, data: Bytes, meta: Meta)
    requires Within(disk, home, paths) && p in paths && p != []
    requires forall a :: a in Ancestors(p[..|p| - 1]) + {p[..|p| - 1]} ==> DirWithin(a, home, paths)
    ensures Within(WritePair(disk, p, data, meta).0, home, paths)
  {
    var made := WithDir(disk, p[..|p| - 1]);
    WithDirWithin(disk, home, paths, p[..|p| - 1]);
    assert FileWithin(p, paths) && FileWithin(SidecarOf(p), paths);
    FileAddedWithin(made, home, paths, p, Blob(data));
    FileAddedWithin(made.(files := made.files[p := Blob(data)]), home, paths, SidecarOf(p), Sidecar(meta));
  }

  lemma PutWithin(disk: Disk, home: Path, paths: set<Path>, t: Target, data: Bytes, ct: string, md: map<string, string>)
    requires Within(disk, home, paths) && UsesOne(t, paths) && Fits(home, t)
    ensures Within(PutAt(disk, t, data, ct, md).0, home, paths)
  {
    TargetDirs(home, paths, t);
    WithDirWithin(disk, home, paths, t.dir);
    if t.inside {
      WritePairWithin(WithDir(disk, t.dir), home, paths, t.path, data, MetaFor(t, data, ct, md));
    }
  }

  lemma StepWithin(disk: Disk, home: Path, paths: set<Path>, op: Op<Target>)
    requires Sound(disk) && Within(disk, home, paths) && Uses(op, paths) && FitsOp(home, op)
    ensures Within(Exec(disk, op).0, home, paths)
  {
    match op
    case Put(t, data, ct, md) => PutWithin(disk, home, paths, t, data, ct, md);
    case Copy(s, d) => CopyWithin(disk, home, paths, s, d);
    case Move(s, d) => CopyWithin(disk, home, paths, s, d);
    case _ =>
  }

  lemma CopyWithin(disk: Disk, home: Path, paths: set<Path>, s: Target, d: Target)
    requires Sound(disk) && Within(disk, home, paths) && UsesOne(d, paths) && Fits(home, s) && Fits(home, d)
    ensures Within(CopyAt(disk, s, d).0, home, paths)
  {
    if Found(disk, s) {
      match InfoOf(disk, s)
      case Some(meta) => PutWithin(disk, home, paths, d, disk.files[s.path].data, meta.contentType, meta.metadata);
      case None => PutWithin(disk, home, paths, d, disk.files[s.path].data, "", map[]);
    }
  }

  /** From a tidy disk, a run that uses proper buckets and a tidy set of files is faithful. */
  lemma {:induction false} TidyRun(disk: Disk, home: Path, paths: set<Path>, ops: seq<Op<Target>>)
    requires Sound(disk) && Within(disk, home, paths) && Tidy(home, paths) && FitsRun(home, ops)
    requires forall i :: 0 <= i < |ops| ==> Uses(ops[i], paths)
    ensures FaithfulRun(disk, home, ops)
    decreases |ops|
  {
    if ops != [] {
      TidyFaithful(disk, home, paths, ops[0]);
      StepSound(disk, ops[0]);
      StepWithin(disk, home, paths, ops[0]);
      TidyRun(Exec(disk, ops[0]).0, home, paths, ops[1..]);
    }
  }

  /** In terms of the caller's locations: buckets with proper names, and keys no one of which is a
      directory on the way to another. Nothing about the disk is assumed but that it was empty. */
  lemma StoreIsMap(site: Site, paths: set<Path>, ops: seq<Op<Loc>>)
    requires ProperNames(site.home) && Tidy(site.home, paths)
    requires forall i :: 0 <= i < |ops| ==> UsableOp(site.home, ops[i]) && Uses(Resolved(site, ops[i]), paths)
    ensures FitsRun(site.home, ResolvedRun(site, ops))
    ensures var (end, outs) := RunFromEmpty(site, ops);
            Paired(end.files) && (Objects(end.files, site.home), outs) == IdealRun(map[], ResolvedRun(site, ops))
  {
    var run := ResolvedRun(site, ops);
    forall i | 0 <= i < |run| ensures FitsOp(site.home, run[i]) { ResolvedFits(site, ops[i]); }
    EmptyDisk(site.home);
    TidyRun(EMPTY, site.home, paths, run);
    RunRefines(EMPTY, site.home, run);
  }

  function ResolvedRun(site: Site, ops: seq<Op<Loc>>): seq<Op<Target>> {
    seq(|ops|, i requires 0 <= i < |ops| => Resolved(site, ops[i]))
  }

  ghost function RunFromEmpty(site: Site, ops: seq<Op<Loc>>): (Disk, seq<Out>)
    requires FitsRun(site.home, ResolvedRun(site, ops))
  {
    EmptyDisk(site.home);
    Run(EMPTY, site.home, ResolvedRun(site, ops))
  }
}
