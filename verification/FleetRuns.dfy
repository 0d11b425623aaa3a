/** Every run of the fleet database: lineages of licences, and whose secret signed what. */
module FleetRuns {
  import opened Common
  import opened Json
  import opened FleetLedger
  import opened TelemetryIntake

  datatype Step =
    | Issue(req: Request, c: Context)
    | Renew(prior: string, req: Request, c: Context)
    | Revoke(id: string, reason: Option<string>, at: Time, commits: bool)
    | Rotate(id: string, cred: Credential, commits: bool)
    | Ingest(raw: string, source: Source, at: Time, commits: bool)

  /** The database and the history of the run: licences in order of insertion, how many were issued
      rather than renewed, and the credentials rotated out and not minted again. */
  datatype World = World(db: Db, order: seq<string>, issues: nat, retired: set<string>)

  const START: World := World(Db(map[], map[], []), [], 0, {})

  function Next(w: World, o: Oracles, step: Step): World {
    match step
    case Issue(req, c) =>
      (match IssueResult(w.db, req, c)
       case Ok(i) => World(AfterIssue(w.db, req, c), w.order + [i.row.licenseId], w.issues + 1, w.retired - {i.credential.id})
       case Err(_) => w)
    case Renew(prior, req, c) =>
      (match RenewResult(w.db, prior, req, c)
       case Ok(i) => World(AfterRenew(w.db, prior, req, c), w.order + [i.row.licenseId], w.issues, w.retired - {i.credential.id})
       case Err(_) => w)
    case Revoke(id, reason, at, commits) => w.(db := AfterRevoke(w.db, id, reason, at, commits))
    case Rotate(id, cred, commits) =>
      (match RotateResult(w.db, id, cred, commits)
       case Ok(_) =>
         var before := w.db.ledger[id].secretId;
         w.(db := AfterRotate(w.db, id, cred, commits),
            retired := (if before.Some? then w.retired + {before.value} else w.retired) - {cred.id})
       case Err(_) => w)
    case Ingest(raw, source, at, commits) => w.(db := AfterIngest(w.db, o, raw, source, at, commits))
  }

  function Run(w: World, o: Oracles, steps: seq<Step>): World
    decreases |steps|
  {
    if steps == [] then w else Run(Next(w, o, steps[0]), o, steps[1..])
  }

  // ---------------------------------------------------------------- what every step keeps

  function Heads(db: Db): set<string> {
    set id | id in db.ledger && db.ledger[id].supersededBy.None?
  }

  /** Successors exist, come later, and are shared by no two rows. */
  ghost predicate Chained(db: Db, order: seq<string>) {
    && Enumerates(order, db.ledger.Keys)
    && (forall id :: id in db.ledger ==> db.ledger[id].licenseId == id)
    && (forall id :: id in db.ledger && db.ledger[id].supersededBy.Some? ==> db.ledger[id].supersededBy.value in db.ledger)
    && (forall i, j :: 0 <= i < |order| && 0 <= j < |order| && db.ledger[order[i]].supersededBy == Some(order[j]) ==> i < j)
    && (forall a, b :: a in db.ledger && b in db.ledger && a != b && db.ledger[a].supersededBy.Some? ==>
          db.ledger[a].supersededBy != db.ledger[b].supersededBy)
  }

  /** Each row points to a stored secret that names the row. */
  ghost predicate OwnSecrets(db: Db) {
    forall id :: id in db.ledger ==>
      && db.ledger[id].secretId.Some?
      && db.ledger[id].secretId.value in db.secrets
      && db.secrets[db.ledger[id].secretId.value].licenseId == Some(id)
  }

  ghost predicate Inv(w: World) {
    && Chained(w.db, w.order)
    && |Heads(w.db)| == w.issues
    && OwnSecrets(w.db)
    && w.retired !! w.db.secrets.Keys
    && (forall i :: 0 <= i < |w.db.records| ==> w.db.records[i].payload.licenseId in w.db.ledger)
  }

  lemma StartInv()
    ensures Inv(START)
  {
    assert Heads(START.db) == {};
  }

  lemma InsertedChained(db: Db, order: seq<string>, row: Row, cred: Credential)
    requires Chained(db, order) && Fresh(db, row.licenseId, cred) && row.supersededBy.None?
    ensures Chained(Inserted(db, row, cred), order + [row.licenseId])
  {
    var after, later := Inserted(db, row, cred), order + [row.licenseId];
    assert forall id :: id in order <==> id in db.ledger;
    assert Elements(later) == Elements(order) + {row.licenseId};
    forall i, j | 0 <= i < |later| && 0 <= j < |later| && after.ledger[later[i]].supersededBy == Some(later[j])
      ensures i < j
    {
      if i < |order| {
        assert order[i] in order;
        assert j < |order| ==> order[j] in order;
      }
    }
  }

  lemma SupersededChained(db: Db, order: seq<string>, prior: string, successor: string)
    requires Chained(db, order) && prior in db.ledger && db.ledger[prior].supersededBy.None?
    requires order != [] && successor == order[|order| - 1] && prior != successor
    requires forall id :: id in db.ledger ==> db.ledger[id].supersededBy != Some(successor)
    ensures Chained(Superseded(db, prior, successor), order)
  {
    var after := Superseded(db, prior, successor);
    assert forall id :: id in order <==> id in db.ledger;
    assert after.ledger.Keys == db.ledger.Keys;
    forall i, j | 0 <= i < |order| && 0 <= j < |order| && after.ledger[order[i]].supersededBy == Some(order[j])
      ensures i < j
    {
      if order[i] == prior {
        assert order[j] == successor;
        assert j == |order| - 1;
      }
    }
  }

  lemma IssueKeeps(w: World, o: Oracles, req: Request, c: Context)
    requires Inv(w)
    ensures Inv(Next(w, o, Issue(req, c)))
  {
    match IssueResult(w.db, req, c)
    case Ok(i) =>
      InsertedChained(w.db, w.order, i.row, i.credential);
      InsertedHeads(w.db, i.row, i.credential);
      InsertedSecrets(w.db, i.row, i.credential);
    case Err(_) =>
  }

  lemma InsertedHeads(db: Db, row: Row, cred: Credential)
    requires Fresh(db, row.licenseId, cred) && row.supersededBy.None?
    ensures |Heads(Inserted(db, row, cred))| == |Heads(db)| + 1
  {
    assert Heads(Inserted(db, row, cred)) == Heads(db) + {row.licenseId};
  }

  lemma InsertedSecrets(db: Db, row: Row, cred: Credential)
    requires OwnSecrets(db) && Fresh(db, row.licenseId, cred) && row.secretId == Some(cred.id)
    ensures OwnSecrets(Inserted(db, row, cred))
  {
  }

  lemma RenewedChained(db: Db, order: seq<string>, row: Row, cred: Credential, prior: string)
    requires Chained(db, order) && Fresh(db, row.licenseId, cred) && row.supersededBy.None?
    requires prior in db.ledger && db.ledger[prior].supersededBy.None?
    ensures Chained(Superseded(Inserted(db, row, cred), prior, row.licenseId), order + [row.licenseId])
  {
    var mid := Inserted(db, row, cred);
    InsertedChained(db, order, row, cred);
    forall k | k in mid.ledger ensures mid.ledger[k].supersededBy != Some(row.licenseId) {
      if k in db.ledger { assert mid.ledger[k] == db.ledger[k]; }
    }
    SupersededChained(mid, order + [row.licenseId], prior, row.licenseId);
  }

  lemma RenewedHeads(db: Db, row: Row, cred: Credential, prior: string)
    requires Fresh(db, row.licenseId, cred) && row.supersededBy.None?
    requires prior in db.ledger && db.ledger[prior].supersededBy.None?
    ensures |Heads(Superseded(Inserted(db, row, cred), prior, row.licenseId))| == |Heads(db)|
  {
    assert Heads(Superseded(Inserted(db, row, cred), prior, row.licenseId)) == Heads(db) - {prior} + {row.licenseId};
  }

  lemma SupersededSecrets(db: Db, prior: string, successor: string)
    requires OwnSecrets(db) && prior in db.ledger
    ensures OwnSecrets(Superseded(db, prior, successor))
  {
    var after := Superseded(db, prior, successor);
    forall id | id in after.ledger ensures after.ledger[id].secretId == db.ledger[id].secretId {
    }
  }

  lemma RenewKeeps(w: World, o: Oracles, prior: string, req: Request, c: Context)
    requires Inv(w)
    ensures Inv(Next(w, o, Renew(prior, req, c)))
  {
    match RenewResult(w.db, prior, req, c)
    case Ok(i) =>
      RenewedChained(w.db, w.order, i.row, i.credential, prior);
      RenewedHeads(w.db, i.row, i.credential, prior);
      InsertedSecrets(w.db, i.row, i.credential);
      SupersededSecrets(Inserted(w.db, i.row, i.credential), prior, i.row.licenseId);
    case Err(_) =>
  }

  lemma RevokeKeeps(w: World, o: Oracles, id: string, reason: Option<string>, at: Time, commits: bool)
    requires Inv(w)
    ensures Inv(Next(w, o, Revoke(id, reason, at, commits)))
  {
    var after := AfterRevoke(w.db, id, reason, at, commits);
    RevokedLinks(w.db, id, reason, at, commits);
    SameLinksChained(w.db, after, w.order);
  }

  lemma RevokedLinks(db: Db, id: string, reason: Option<string>, at: Time, commits: bool)
    requires OwnSecrets(db)
    ensures var after := AfterRevoke(db, id, reason, at, commits);
            SameLinks(db, after) && OwnSecrets(after) && after.secrets == db.secrets && after.records == db.records
  {
  }

  /** The two ledgers hold the same licences with the same successors. */
  ghost predicate SameLinks(a: Db, b: Db) {
    && a.ledger.Keys == b.ledger.Keys
    && (forall id :: id in a.ledger ==>
          b.ledger[id].licenseId == a.ledger[id].licenseId && b.ledger[id].supersededBy == a.ledger[id].supersededBy)
  }

  lemma SameLinksChained(a: Db, b: Db, order: seq<string>)
    requires Chained(a, order) && SameLinks(a, b)
    ensures Chained(b, order) && Heads(b) == Heads(a)
  {
    assert forall id :: id in order ==> id in Elements(order);
  }

  lemma RotateKeeps(w: World, o: Oracles, id: string, cred: Credential, commits: bool)
    requires Inv(w)
    ensures Inv(Next(w, o, Rotate(id, cred, commits)))
  {
    if RotateResult(w.db, id, cred, commits).Ok? {
      var after := AfterRotate(w.db, id, cred, commits);
      RotatedLinks(w.db, id, cred, commits);
      SameLinksChained(w.db, after, w.order);
      RotatedSecretsOwn(w.db, id, cred, commits);
      RotatedApart(w, o, id, cred, commits);
      KeptInv(w, Next(w, o, Rotate(id, cred, commits)));
    }
  }

  lemma KeptInv(w: World, v: World)
    requires Inv(w) && SameLinks(w.db, v.db) && v.order == w.order && v.issues == w.issues
    requires Chained(v.db, v.order) && Heads(v.db) == Heads(w.db) && OwnSecrets(v.db)
    requires v.retired !! v.db.secrets.Keys && v.db.records == w.db.records
    ensures Inv(v)
  {
  }

  lemma RotatedLinks(db: Db, id: string, cred: Credential, commits: bool)
    requires RotateResult(db, id, cred, commits).Ok?
    ensures var after := AfterRotate(db, id, cred, commits);
            SameLinks(db, after) && after.records == db.records
  {
  }

  lemma RotatedApart(w: World, o: Oracles, id: string, cred: Credential, commits: bool)
    requires w.retired !! w.db.secrets.Keys && RotateResult(w.db, id, cred, commits).Ok?
    ensures Next(w, o, Rotate(id, cred, commits)).retired !! AfterRotate(w.db, id, cred, commits).secrets.Keys
  {
  }

  lemma RotatedSecretsOwn(db: Db, id: string, cred: Credential, commits: bool)
    requires OwnSecrets(db) && RotateResult(db, id, cred, commits).Ok?
    ensures OwnSecrets(AfterRotate(db, id, cred, commits))
  {
    forall k | k in db.ledger && k != id ensures db.ledger[k].secretId != db.ledger[id].secretId {
      assert db.secrets[db.ledger[k].secretId.value].licenseId == Some(k);
    }
  }

  lemma IngestKeeps(w: World, o: Oracles, raw: string, source: Source, at: Time, commits: bool)
    requires Inv(w)
    ensures Inv(Next(w, o, Ingest(raw, source, at, commits)))
  {
    var after := AfterIngest(w.db, o, raw, source, at, commits);
    IngestedDb(w.db, o, raw, source, at, commits);
    SameLinksChained(w.db, after, w.order);
  }

  lemma IngestedDb(db: Db, o: Oracles, raw: string, source: Source, at: Time, commits: bool)
    ensures var after := AfterIngest(db, o, raw, source, at, commits);
            && SameLinks(db, after) && after.secrets == db.secrets && after.ledger == db.ledger
            && forall r :: r in after.records ==> r in db.records || r.payload.licenseId in db.ledger
  {
    AcceptedIffAuthenticated(db, o, raw, source, at, commits);
  }

  /** Every transaction, whatever its arguments and whether or not it commits, keeps the invariant. */
  lemma StepKeeps(w: World, o: Oracles, step: Step)
    requires Inv(w)
    ensures Inv(Next(w, o, step))
  {
    match step
    case Issue(req, c) => IssueKeeps(w, o, req, c);
    case Renew(prior, req, c) => RenewKeeps(w, o, prior, req, c);
    case Revoke(id, reason, at, commits) => RevokeKeeps(w, o, id, reason, at, commits);
    case Rotate(id, cred, commits) => RotateKeeps(w, o, id, cred, commits);
    case Ingest(raw, source, at, commits) => IngestKeeps(w, o, raw, source, at, commits);
  }

  lemma {:induction false} RunKeeps(w: World, o: Oracles, steps: seq<Step>)
    requires Inv(w)
    ensures Inv(Run(w, o, steps))
    decreases |steps|
  {
    if steps != [] {
      StepKeeps(w, o, steps[0]);
      RunKeeps(Next(w, o, steps[0]), o, steps[1..]);
    }
  }

  // ---------------------------------------------------------------- lineages

  ghost function Index(order: seq<string>, id: string): (i: nat)
    requires id in order
    ensures i < |order| && order[i] == id
  {
    var i :| 0 <= i < |order| && order[i] == id;
    i
  }

  /** Follow the successors of a licence to the end of its lineage. */
  ghost function HeadOf(w: World, id: string): (head: string)
    requires Chained(w.db, w.order) && id in w.db.ledger
    ensures head in Heads(w.db)
    decreases |w.order| - Later(w, id)
  {
    if w.db.ledger[id].supersededBy.None? then id
    else
      SuccessorLater(w, id);
      HeadOf(w, w.db.ledger[id].supersededBy.value)
  }

  /** The position of a licence in the order of insertion. */
  ghost function Later(w: World, id: string): (i: nat)
    requires Chained(w.db, w.order) && id in w.db.ledger
    ensures i < |w.order| && w.order[i] == id
  {
    assert id in Elements(w.order);
    Index(w.order, id)
  }

  lemma SuccessorLater(w: World, id: string)
    requires Chained(w.db, w.order) && id in w.db.ledger && w.db.ledger[id].supersededBy.Some?
    ensures w.db.ledger[id].supersededBy.value in w.db.ledger
    ensures Later(w, id) < Later(w, w.db.ledger[id].supersededBy.value)
  {
  }

  /** `b` is reached from `a` by following successors. */
  ghost predicate Reaches(w: World, a: string, b: string)
    requires Chained(w.db, w.order) && a in w.db.ledger
    decreases |w.order| - Later(w, a)
  {
    a == b ||
    (w.db.ledger[a].supersededBy.Some? &&
     (SuccessorLater(w, a); Reaches(w, w.db.ledger[a].supersededBy.value, b)))
  }

  lemma {:induction false} HeadReached(w: World, a: string)
    requires Chained(w.db, w.order) && a in w.db.ledger
    ensures Reaches(w, a, HeadOf(w, a))
    decreases |w.order| - Later(w, a)
  {
    if w.db.ledger[a].supersededBy.Some? {
      SuccessorLater(w, a);
      HeadReached(w, w.db.ledger[a].supersededBy.value);
    }
  }

  /** No licence is among its own successors: reaching goes forward in time. */
  lemma {:induction false} ReachesLater(w: World, a: string, b: string)
    requires Chained(w.db, w.order) && a in w.db.ledger && Reaches(w, a, b)
    ensures b in w.db.ledger && Later(w, a) <= Later(w, b)
    ensures a != b ==> Later(w, a) < Later(w, b)
    decreases |w.order| - Later(w, a)
  {
    if a != b {
      SuccessorLater(w, a);
      ReachesLater(w, w.db.ledger[a].supersededBy.value, b);
    }
  }

  /** Two licences that lead to a common row lie on one line: one leads to the other. */
  lemma {:induction false} CommonSuccessor(w: World, a: string, b: string, c: string)
    requires Chained(w.db, w.order) && a in w.db.ledger && b in w.db.ledger
    requires Reaches(w, a, c) && Reaches(w, b, c)
    ensures Reaches(w, a, b) || Reaches(w, b, a)
    decreases |w.order| - Later(w, a)
  {
    if a != c && b != a {
      SuccessorLater(w, a);
      var next := w.db.ledger[a].supersededBy.value;
      CommonSuccessor(w, next, b, c);
      if !Reaches(w, next, b) {
        OnlyPredecessor(w, b, a);
      }
    }
  }

  /** A row that leads to the successor of `a`, other than that successor itself, leads to `a`. */
  lemma {:induction false} OnlyPredecessor(w: World, b: string, a: string)
    requires Chained(w.db, w.order) && a in w.db.ledger && b in w.db.ledger
    requires w.db.ledger[a].supersededBy.Some? && b != w.db.ledger[a].supersededBy.value
    requires Reaches(w, b, w.db.ledger[a].supersededBy.value)
    ensures Reaches(w, b, a)
    decreases |w.order| - Later(w, b)
  {
    SuccessorLater(w, b);
    var next := w.db.ledger[b].supersededBy.value;
    if next == w.db.ledger[a].supersededBy.value {
      assert a == b;
    } else {
      OnlyPredecessor(w, next, a);
    }
  }

  /** In every reachable ledger the rows form disjoint chains: each row has one head, and rows with
      the same head are on one line; there are as many chains as licences issued and not renewed. */
  lemma Lineages(o: Oracles, steps: seq<Step>, a: string, b: string)
    requires a in Run(START, o, steps).db.ledger && b in Run(START, o, steps).db.ledger
    ensures var w := Run(START, o, steps);
            && Inv(w)
            && |Heads(w.db)| == w.issues
            && HeadOf(w, a) in Heads(w.db) && Reaches(w, a, HeadOf(w, a))
            && (HeadOf(w, a) == HeadOf(w, b) <==> Reaches(w, a, b) || Reaches(w, b, a))
  {
    StartInv();
    RunKeeps(START, o, steps);
    var w := Run(START, o, steps);
    HeadReached(w, a);
    HeadReached(w, b);
    if HeadOf(w, a) == HeadOf(w, b) { CommonSuccessor(w, a, b, HeadOf(w, a)); }
    if Reaches(w, a, b) { SameHead(w, a, b); }
    if Reaches(w, b, a) { SameHead(w, b, a); }
  }

  lemma {:induction false} SameHead(w: World, a: string, b: string)
    requires Chained(w.db, w.order) && a in w.db.ledger && b in w.db.ledger && Reaches(w, a, b)
    ensures HeadOf(w, a) == HeadOf(w, b)
    decreases |w.order| - Later(w, a)
  {
    if a != b {
      SuccessorLater(w, a);
      SameHead(w, w.db.ledger[a].supersededBy.value, b);
    }
  }

  // ---------------------------------------------------------------- secrets and records

  /** No two rows share a secret. */
  lemma SecretsNotShared(w: World, a: string, b: string)
    requires Inv(w) && a in w.db.ledger && b in w.db.ledger && a != b
    ensures w.db.ledger[a].secretId != w.db.ledger[b].secretId
  {
  }

  /** The record was accepted in state `w`, under the secret that belongs to its licence there. */
  ghost predicate AcceptedIn(w: World, o: Oracles, raw: string, r: Record) {
    && Authenticated(w.db, o, raw, r)
    && r.payload.licenseId in w.db.ledger
    && w.db.ledger[r.payload.licenseId].secretId == Some(r.secretId)
    && r.secretId in w.db.secrets
    && w.db.secrets[r.secretId].licenseId == Some(r.payload.licenseId)
  }

  lemma IngestUnderOwnSecret(w: World, o: Oracles, raw: string, source: Source, at: Time, commits: bool)
    requires Inv(w) && IngestResult(w.db, o, raw, source, at, commits).Ok?
    ensures AcceptedIn(w, o, raw, IngestResult(w.db, o, raw, source, at, commits).value)
  {
    AcceptedIffAuthenticated(w.db, o, raw, source, at, commits);
    var r := IngestResult(w.db, o, raw, source, at, commits).value;
    var e :| ParseEnvelope(raw, o.repr) == Ok(e) && AuthenticatedBy(w.db, o, e, r);
  }

  /** The state before step `k`. */
  function At(w: World, o: Oracles, steps: seq<Step>, k: nat): World
    requires k <= |steps|
  {
    Run(w, o, steps[..k])
  }

  lemma {:induction false} RunSplit(w: World, o: Oracles, steps: seq<Step>)
    requires steps != []
    ensures Run(w, o, steps) == Next(Run(w, o, steps[..|steps| - 1]), o, steps[|steps| - 1])
    decreases |steps|
  {
    if |steps| == 1 {
      assert steps[..0] == [] && steps[1..] == [];
    } else {
      RunSplit(Next(w, o, steps[0]), o, steps[1..]);
      assert steps[1..][..|steps[1..]| - 1] == steps[..|steps| - 1][1..];
      assert steps[1..][|steps[1..]| - 1] == steps[|steps| - 1];
    }
  }

  /** Step `k` of the run committed this very record, and accepted it. */
  ghost predicate AcceptedAt(o: Oracles, steps: seq<Step>, r: Record, k: nat) {
    && k < |steps| && steps[k].Ingest?
    && var w := At(START, o, steps, k);
       && IngestResult(w.db, o, steps[k].raw, steps[k].source, steps[k].at, steps[k].commits) == Ok(r)
       && AcceptedIn(w, o, steps[k].raw, r)
  }

  lemma LastAccepted(o: Oracles, steps: seq<Step>, r: Record)
    requires steps != [] && r in Run(START, o, steps).db.records
    requires r !in Run(START, o, steps[..|steps| - 1]).db.records
    ensures AcceptedAt(o, steps, r, |steps| - 1)
  {
    var front, last := steps[..|steps| - 1], steps[|steps| - 1];
    var w := Run(START, o, front);
    RunSplit(START, o, steps);
    StartInv();
    RunKeeps(START, o, front);
    NewRecord(w, o, last, r);
    IngestUnderOwnSecret(w, o, last.raw, last.source, last.at, last.commits);
  }

  /** Only an accepted ingest adds a record, and it adds just that one. */
  lemma NewRecord(w: World, o: Oracles, step: Step, r: Record)
    requires r in Next(w, o, step).db.records && r !in w.db.records
    ensures step.Ingest?
    ensures IngestResult(w.db, o, step.raw, step.source, step.at, step.commits) == Ok(r)
  {
  }

  lemma AcceptedEarlier(o: Oracles, steps: seq<Step>, r: Record, k: nat)
    requires steps != [] && AcceptedAt(o, steps[..|steps| - 1], r, k)
    ensures AcceptedAt(o, steps, r, k)
  {
    assert steps[..|steps| - 1][..k] == steps[..k];
  }

  /** Whatever happened since, every stored record was accepted, by either entrypoint, at a step at
      which it was signed under the secret belonging to its licence at that time. */
  lemma {:induction false} RecordOrigin(o: Oracles, steps: seq<Step>, r: Record)
    requires r in Run(START, o, steps).db.records
    ensures exists k: nat :: AcceptedAt(o, steps, r, k)
    decreases |steps|
  {
    assert steps != [];
    var front := steps[..|steps| - 1];
    if r in Run(START, o, front).db.records {
      RecordOrigin(o, front, r);
      var k: nat :| AcceptedAt(o, front, r, k);
      AcceptedEarlier(o, steps, r, k);
    } else {
      LastAccepted(o, steps, r);
    }
  }

  /** A bundle naming a credential that was rotated out, and not minted again since, is refused in
      every reachable state, and stores nothing. */
  lemma RotatedOutRefused(o: Oracles, steps: seq<Step>, raw: string, source: Source, at: Time, commits: bool, secretId: string)
    requires secretId in Run(START, o, steps).retired
    requires ParseEnvelope(raw, o.repr).Ok? && ParseEnvelope(raw, o.repr).value.secretId == Str(secretId)
    ensures Next(Run(START, o, steps), o, Ingest(raw, source, at, commits)) == Run(START, o, steps)
    ensures IngestResult(Run(START, o, steps).db, o, raw, source, at, commits) == Err(Unauthorised)
  {
    StartInv();
    RunKeeps(START, o, steps);
    var w := Run(START, o, steps);
    UnknownCredentialRefused(w.db, o, raw, source, at, commits, secretId);
  }

  /** Rotation retires the credential the row had, and gives the row a stored one of its own. */
  lemma RotationRetires(w: World, o: Oracles, id: string, cred: Credential, commits: bool)
    requires Inv(w) && RotateResult(w.db, id, cred, commits).Ok?
    ensures var v := Next(w, o, Rotate(id, cred, commits));
            && w.db.ledger[id].secretId.value in v.retired
            && v.db.ledger[id].secretId == Some(cred.id)
            && v.db.secrets[cred.id] == Secret(cred.secret, w.db.ledger[id].customerId, Some(id))
            && (forall k :: k in w.db.ledger && k != id ==>
                  v.db.ledger[k] == w.db.ledger[k]
                  && v.db.secrets[w.db.ledger[k].secretId.value] == w.db.secrets[w.db.ledger[k].secretId.value])
  {
    forall k | k in w.db.ledger && k != id ensures w.db.ledger[k].secretId != w.db.ledger[id].secretId {
      SecretsNotShared(w, k, id);
    }
  }
}
