/** The fleet console's database, and the transactions that issue, renew, revoke and rotate.

    A transaction is one atomic step: it commits as a whole or leaves the tables alone. Times are
    microseconds since the epoch, in UTC. Signing is symbolic, and a minted credential is an
    arbitrary id and secret. */
module FleetLedger {
  import opened Common

  type Time = int

  const SECOND: int := 1_000_000
  const DAY: int := 86_400 * SECOND

  /** The signed body carries whole seconds. */
  function WholeSeconds(t: Time): Time { t - t % SECOND }

  datatype Row = Row(
    licenseId: string,
    customerId: string,
    edition: string,
    entitledModules: seq<string>,
    quotaTier: Option<string>,
    issuedAt: Time,
    notBefore: Time,
    expiresAt: Option<Time>,
    supersededBy: Option<string>,
    delivery: Option<string>,
    secretId: Option<string>,
    revokedAt: Option<Time>,
    revokedReason: Option<string>)

  datatype Secret = Secret(secret: string, customerId: string, licenseId: Option<string>)

  datatype Payload = Payload(
    licenseId: string,
    lastSeen: Time,
    activeEdition: Option<string>,
    activeModules: seq<string>,
    moduleUsage: map<string, int>,
    showbackTotals: map<string, real>,
    overLicense: bool)

  datatype Source = Realtime | OfflineUpload

  datatype Record = Record(id: nat, payload: Payload, secretId: string, receivedAt: Time, source: Source)

  /** Three tables; the map keys are the primary keys. */
  datatype Db = Db(ledger: map<string, Row>, secrets: map<string, Secret>, records: seq<Record>)

  datatype Request = Request(
    customerId: string,
    edition: string,
    entitledModules: seq<string>,
    quotaTier: Option<string>,
    expiresAt: Option<Time>,
    notBefore: Option<Time>,
    graceDays: int,
    seats: int,
    licenseId: string,
    delivery: Option<string>)

  /** The license body that is signed. */
  datatype Spec = Spec(
    licenseId: string,
    customerId: string,
    edition: string,
    issuedAt: Time,
    notBefore: Time,
    expiresAt: Option<Time>,
    graceDays: int,
    entitledModules: seq<string>,
    quotaTier: Option<string>,
    seats: int)

  datatype License = Signed(spec: Spec)

  datatype Credential = Credential(id: string, secret: string)

  datatype Issued = Issued(license: License, row: Row, credential: Credential)

  datatype Error =
    | MissingFields
    | NoSigningKey
    | UnknownLicense
    | AlreadySuperseded
    | AlreadyRevoked
    | SameLicenseId
    | DuplicateKey
    | CommitFailed

  /** What the surroundings contribute to one transaction. */
  datatype Context = Context(now: Time, date: string, hasKey: bool, minted: Credential, commits: bool)

  function BuildSpec(req: Request, now: Time, date: string): Result<Spec, Error> {
    if req.customerId == "" || req.edition == "" then Err(MissingFields)
    else
      Ok(Spec(
        if req.licenseId != "" then req.licenseId else req.customerId + "-" + date,
        req.customerId,
        req.edition,
        WholeSeconds(now),
        WholeSeconds(if req.notBefore.Some? then req.notBefore.value else now),
        if req.expiresAt.Some? then Some(WholeSeconds(req.expiresAt.value)) else None,
        req.graceDays,
        req.entitledModules,
        req.quotaTier,
        req.seats))
  }

  function NewRow(spec: Spec, delivery: Option<string>, now: Time, secretId: string): Row {
    Row(spec.licenseId, spec.customerId, spec.edition, spec.entitledModules, spec.quotaTier,
        now, spec.notBefore, spec.expiresAt, None, delivery, Some(secretId), None, None)
  }

  /** Both inserts: the ledger row and the secret it points to. */
  function Inserted(db: Db, row: Row, cred: Credential): Db {
    db.(ledger := db.ledger[row.licenseId := row],
        secrets := db.secrets[cred.id := Secret(cred.secret, row.customerId, Some(row.licenseId))])
  }

  /** The primary keys are free. */
  predicate Fresh(db: Db, licenseId: string, cred: Credential) {
    licenseId !in db.ledger && cred.id !in db.secrets
  }

  function IssueResult(db: Db, req: Request, c: Context): Result<Issued, Error> {
    match BuildSpec(req, c.now, c.date)
    case Err(e) => Err(e)
    case Ok(spec) =>
      if !c.hasKey then Err(NoSigningKey)
      else if !Fresh(db, spec.licenseId, c.minted) then Err(DuplicateKey)
      else if !c.commits then Err(CommitFailed)
      else Ok(Issued(Signed(spec), NewRow(spec, req.delivery, c.now, c.minted.id), c.minted))
  }

  function AfterIssue(db: Db, req: Request, c: Context): Db {
    match IssueResult(db, req, c)
    case Ok(i) => Inserted(db, i.row, i.credential)
    case Err(_) => db
  }

  /** Customer and edition carry forward from the prior row unless given. */
  function Carried(req: Request, prior: Row): Request {
    req.(customerId := if req.customerId == "" then prior.customerId else req.customerId,
         edition := if req.edition == "" then prior.edition else req.edition)
  }

  function RenewResult(db: Db, priorId: string, req: Request, c: Context): Result<Issued, Error> {
    if priorId !in db.ledger then Err(UnknownLicense)
    else if db.ledger[priorId].supersededBy.Some? then Err(AlreadySuperseded)
    else
      match BuildSpec(Carried(req, db.ledger[priorId]), c.now, c.date)
      case Err(e) => Err(e)
      case Ok(spec) =>
        if spec.licenseId == priorId then Err(SameLicenseId)
        else if !c.hasKey then Err(NoSigningKey)
        else if !Fresh(db, spec.licenseId, c.minted) then Err(DuplicateKey)
        else if !c.commits then Err(CommitFailed)
        else Ok(Issued(Signed(spec), NewRow(spec, req.delivery, c.now, c.minted.id), c.minted))
  }

  function Superseded(db: Db, priorId: string, successor: string): Db
    requires priorId in db.ledger
  {
    db.(ledger := db.ledger[priorId := db.ledger[priorId].(supersededBy := Some(successor))])
  }

  function AfterRenew(db: Db, priorId: string, req: Request, c: Context): Db {
    match RenewResult(db, priorId, req, c)
    case Ok(i) => Superseded(Inserted(db, i.row, i.credential), priorId, i.row.licenseId)
    case Err(_) => db
  }

  function RevokeResult(db: Db, id: string, reason: Option<string>, now: Time, commits: bool): Result<Row, Error> {
    if id !in db.ledger then Err(UnknownLicense)
    else if db.ledger[id].supersededBy.Some? then Err(AlreadySuperseded)
    else if db.ledger[id].revokedAt.Some? then Err(AlreadyRevoked)
    else if !commits then Err(CommitFailed)
    else Ok(db.ledger[id].(revokedAt := Some(now), revokedReason := reason))
  }

  function AfterRevoke(db: Db, id: string, reason: Option<string>, now: Time, commits: bool): Db {
    match RevokeResult(db, id, reason, now, commits)
    case Ok(row) => db.(ledger := db.ledger[id := row])
    case Err(_) => db
  }

  /** `rotate_credential`: drop the old secret if named and known, add the new one. */
  function RotatedSecrets(db: Db, customerId: string, licenseId: string, oldId: Option<string>, cred: Credential): map<string, Secret> {
    var left := if oldId.Some? then db.secrets - {oldId.value} else db.secrets;
    left[cred.id := Secret(cred.secret, customerId, Some(licenseId))]
  }

  /** Rotation as operators run it: rotate the row's credential, repoint the row, commit. */
  function RotateResult(db: Db, id: string, cred: Credential, commits: bool): Result<Credential, Error> {
    if id !in db.ledger then Err(UnknownLicense)
    else if cred.id in db.secrets then Err(DuplicateKey)
    else if !commits then Err(CommitFailed)
    else Ok(cred)
  }

  function AfterRotate(db: Db, id: string, cred: Credential, commits: bool): Db {
    if RotateResult(db, id, cred, commits).Err? then db
    else
      var row := db.ledger[id];
      Db(db.ledger[id := row.(secretId := Some(cred.id))],
         RotatedSecrets(db, row.customerId, id, row.secretId, cred),
         db.records)
  }

  /** The artifact and the row say the same, and the caller gets them exactly when the row and the
      secret are stored: both or neither. */
  lemma IssueBothOrNeither(db: Db, req: Request, c: Context)
    ensures IssueResult(db, req, c).Ok? <==> AfterIssue(db, req, c) != db
    ensures match IssueResult(db, req, c)
            case Ok(i) =>
              var after := AfterIssue(db, req, c);
              var id := i.license.spec.licenseId;
              && id !in db.ledger && id in after.ledger && after.ledger[id] == i.row
              && i.row.secretId == Some(i.credential.id)
              && i.credential.id in after.secrets && after.secrets[i.credential.id].secret == i.credential.secret
              && Describes(i.license.spec, i.row)
            case Err(_) => true
  {
  }

  /** The signed body and the ledger row agree field by field; the row alone keeps microseconds. */
  ghost predicate Describes(spec: Spec, row: Row) {
    && row.licenseId == spec.licenseId && row.customerId == spec.customerId && row.edition == spec.edition
    && row.entitledModules == spec.entitledModules && row.quotaTier == spec.quotaTier
    && row.notBefore == spec.notBefore && row.expiresAt == spec.expiresAt
    && spec.issuedAt <= row.issuedAt < spec.issuedAt + SECOND
  }

  /** A renewal, too, hands out its artifact exactly when its row is stored and the prior row
      points to it; no third row changes. */
  lemma RenewBothOrNeither(db: Db, priorId: string, req: Request, c: Context)
    ensures RenewResult(db, priorId, req, c).Ok? <==> AfterRenew(db, priorId, req, c) != db
    ensures match RenewResult(db, priorId, req, c)
            case Ok(i) =>
              var after := AfterRenew(db, priorId, req, c);
              var id := i.license.spec.licenseId;
              && priorId in db.ledger && db.ledger[priorId].supersededBy.None? && id !in db.ledger
              && id in after.ledger && after.ledger[id] == i.row && Describes(i.license.spec, i.row)
              && after.ledger[priorId] == db.ledger[priorId].(supersededBy := Some(id))
              && (forall k :: k in db.ledger && k != priorId ==> after.ledger[k] == db.ledger[k])
            case Err(_) => true
  {
  }

  // ---------------------------------------------------------------- the service

  /** A session on the database. */
  class IssuanceService {
    var ledger: map<string, Row>
    var secrets: map<string, Secret>
    var records: seq<Record>

    constructor ()
      ensures State() == Db(map[], map[], [])
    {
      ledger, secrets, records := map[], map[], [];
    }

    function State(): Db
      reads this
    {
      Db(ledger, secrets, records)
    }

    method Issue(req: Request, c: Context) returns (result: Result<Issued, Error>)
      modifies this
      ensures result == IssueResult(old(State()), req, c)
      ensures State() == AfterIssue(old(State()), req, c)
    {
      match BuildSpec(req, c.now, c.date) {
        case Err(e) => return Err(e);
        case Ok(spec) =>
          if !c.hasKey {
            return Err(NoSigningKey);
          }
          var license := Signed(spec);
          var row := NewRow(spec, req.delivery, c.now, c.minted.id);
          if row.licenseId in ledger || c.minted.id in secrets {
            return Err(DuplicateKey);
          }
          if !c.commits {
            return Err(CommitFailed);
          }
          ledger := ledger[row.licenseId := row];
          secrets := secrets[c.minted.id := Secret(c.minted.secret, spec.customerId, Some(spec.licenseId))];
          return Ok(Issued(license, row, c.minted));
      }
    }

    method Renew(priorId: string, req: Request, c: Context) returns (result: Result<Issued, Error>)
      modifies this
      ensures result == RenewResult(old(State()), priorId, req, c)
      ensures State() == AfterRenew(old(State()), priorId, req, c)
    {
      if priorId !in ledger {
        return Err(UnknownLicense);
      }
      var prior := ledger[priorId];
      if prior.supersededBy.Some? {
        return Err(AlreadySuperseded);
      }
      var carried := req;
      if carried.customerId == "" {
        carried := carried.(customerId := prior.customerId);
      }
      if carried.edition == "" {
        carried := carried.(edition := prior.edition);
      }
      match BuildSpec(carried, c.now, c.date) {
        case Err(e) => return Err(e);
        case Ok(spec) =>
          if spec.licenseId == priorId {
            return Err(SameLicenseId);
          }
          if !c.hasKey {
            return Err(NoSigningKey);
          }
          var license := Signed(spec);
          var newRow := NewRow(spec, req.delivery, c.now, c.minted.id);
          if newRow.licenseId in ledger || c.minted.id in secrets {
            return Err(DuplicateKey);
          }
          if !c.commits {
            return Err(CommitFailed);
          }
          ledger := ledger[newRow.licenseId := newRow];
          secrets := secrets[c.minted.id := Secret(c.minted.secret, spec.customerId, Some(spec.licenseId))];
          ledger := ledger[priorId := prior.(supersededBy := Some(newRow.licenseId))];
          return Ok(Issued(license, newRow, c.minted));
      }
    }

    method Revoke(id: string, reason: Option<string>, now: Time, commits: bool) returns (result: Result<Row, Error>)
      modifies this
      ensures result == RevokeResult(old(State()), id, reason, now, commits)
      ensures State() == AfterRevoke(old(State()), id, reason, now, commits)
    {
      if id !in ledger {
        return Err(UnknownLicense);
      }
      var row := ledger[id];
      if row.supersededBy.Some? {
        return Err(AlreadySuperseded);
      }
      if row.revokedAt.Some? {
        return Err(AlreadyRevoked);
      }
      if !commits {
        return Err(CommitFailed);
      }
      row := row.(revokedAt := Some(now));
      row := row.(revokedReason := reason);
      ledger := ledger[id := row];
      return Ok(row);
    }

    method RotateAndRepoint(id: string, cred: Credential, commits: bool) returns (result: Result<Credential, Error>)
      modifies this
      ensures result == RotateResult(old(State()), id, cred, commits)
      ensures State() == AfterRotate(old(State()), id, cred, commits)
    {
      if id !in ledger {
        return Err(UnknownLicense);
      }
      var row := ledger[id];
      if cred.id in secrets {
        return Err(DuplicateKey);
      }
      if !commits {
        return Err(CommitFailed);
      }
      if row.secretId.Some? {
        secrets := secrets - {row.secretId.value};
      }
      secrets := secrets[cred.id := Secret(cred.secret, row.customerId, Some(id))];
      ledger := ledger[id := row.(secretId := Some(cred.id))];
      return Ok(cred);
    }
  }
}
