/** Telemetry intake: parse, authenticate, validate, persist.

    HMAC-SHA256, the pydantic schema and the printing of floats are oracles: `mac(secret, text)`,
    `validate(payload)` and `repr(literal)`. */
module TelemetryIntake {
  import opened Common
  import opened Ordering
  import opened Json
  import opened CanonicalJson
  import opened JsonWellFormed
  import opened FleetLedger

  /** The JSON values are qualified where the name is also a ledger type. */
  type JsonValue = Json.Value

  datatype Envelope = Envelope(payload: JsonValue, secretId: JsonValue, signature: JsonValue)

  /** 422, 401, 404, 403, and a failed commit. */
  datatype Rejection = Malformed | Unauthorised | NoSuchLicense | WrongCredential | NotCommitted

  /** The outside world of the intake. */
  datatype Oracles = Oracles(
    mac: (string, string) -> string,
    validate: JsonValue -> Option<Payload>,
    repr: string -> string)

  /** What Python holds after reading: a float is its value, which prints as `repr` of it and not as
      the literal it was read from. */
  function Held(v: JsonValue, repr: string -> string): JsonValue
    decreases v
  {
    match v
    case Float(lit) => Float(repr(lit))
    case Arr(items) => Arr(seq(|items|, i requires 0 <= i < |items| => Held(items[i], repr)))
    case Obj(ms) =>
      Obj(seq(|ms|, i requires 0 <= i < |ms| => Pair(ms[i].key, Held(ms[i].value, repr))))
    case _ => v
  }

  function ParseEnvelope(raw: string, repr: string -> string): Result<Envelope, Rejection> {
    match Loads(raw)
    case Some(Obj(ms)) =>
      if HasKey(ms, "payload") && HasKey(ms, "deployment_secret_id") && HasKey(ms, "signature")
         && Lookup(ms, "payload").value.Obj?
      then
        Ok(Envelope(Held(Lookup(ms, "payload").value, repr), Lookup(ms, "deployment_secret_id").value, Lookup(ms, "signature").value))
      else Err(Malformed)
    case _ => Err(Malformed)
  }

  /** `json.dumps(payload, sort_keys=True, separators=(",", ":"))`, before UTF-8. */
  function CanonicalText(payload: JsonValue): string { DumpsSorted(payload, Compact) }

  /** The signature is the one made with the secret registered for the id. */
  predicate Verifies(db: Db, mac: (string, string) -> string, secretId: string, text: string, signature: string) {
    secretId in db.secrets && mac(db.secrets[secretId].secret, text) == signature
  }

  function VerifyOr401(db: Db, mac: (string, string) -> string, e: Envelope): Result<string, Rejection> {
    if !e.secretId.Str? || !e.signature.Str? || e.secretId.s == "" || e.signature.s == "" then Err(Unauthorised)
    else if !Verifies(db, mac, e.secretId.s, CanonicalText(e.payload), e.signature.s) then Err(Unauthorised)
    else Ok(e.secretId.s)
  }

  function PersistResult(db: Db, p: Payload, secretId: string, source: Source, now: Time, commits: bool): Result<Record, Rejection> {
    if p.licenseId !in db.ledger then Err(NoSuchLicense)
    else if db.ledger[p.licenseId].secretId.Some? && db.ledger[p.licenseId].secretId != Some(secretId) then Err(WrongCredential)
    else if !commits then Err(NotCommitted)
    else Ok(Record(|db.records|, p, secretId, now, source))
  }

  function IngestResult(db: Db, o: Oracles, raw: string, source: Source, now: Time, commits: bool): Result<Record, Rejection> {
    match ParseEnvelope(raw, o.repr)
    case Err(e) => Err(e)
    case Ok(envelope) =>
      match VerifyOr401(db, o.mac, envelope)
      case Err(e) => Err(e)
      case Ok(secretId) =>
        match o.validate(envelope.payload)
        case None => Err(Malformed)
        case Some(p) => PersistResult(db, p, secretId, source, now, commits)
  }

  function AfterIngest(db: Db, o: Oracles, raw: string, source: Source, now: Time, commits: bool): Db {
    match IngestResult(db, o, raw, source, now, commits)
    case Ok(r) => db.(records := db.records + [r])
    case Err(_) => db
  }

  /** An accepted record was authenticated by the credential it names, over exactly the payload it
      stores, and its licence pins no other credential. */
  ghost predicate Authenticated(db: Db, o: Oracles, raw: string, r: Record) {
    exists e: Envelope :: ParseEnvelope(raw, o.repr) == Ok(e) && AuthenticatedBy(db, o, e, r)
  }

  ghost predicate AuthenticatedBy(db: Db, o: Oracles, e: Envelope, r: Record) {
    && e.secretId == Str(r.secretId) && r.secretId != "" && e.signature.Str? && e.signature.s != ""
    && r.secretId in db.secrets
    && e.signature.s == o.mac(db.secrets[r.secretId].secret, CanonicalText(e.payload))
    && o.validate(e.payload) == Some(r.payload)
    && r.payload.licenseId in db.ledger
    && db.ledger[r.payload.licenseId].secretId in {None, Some(r.secretId)}
  }

  /** Persisted exactly when authenticated, and nothing else changes. */
  lemma AcceptedIffAuthenticated(db: Db, o: Oracles, raw: string, source: Source, now: Time, commits: bool)
    ensures IngestResult(db, o, raw, source, now, commits).Ok?
       <==> commits && exists r :: Authenticated(db, o, raw, r)
    ensures match IngestResult(db, o, raw, source, now, commits)
            case Ok(r) => Authenticated(db, o, raw, r) && r.source == source
                          && AfterIngest(db, o, raw, source, now, commits) == db.(records := db.records + [r])
            case Err(_) => AfterIngest(db, o, raw, source, now, commits) == db
  {
    var result := IngestResult(db, o, raw, source, now, commits);
    if result.Ok? {
      var e := ParseEnvelope(raw, o.repr).value;
      assert AuthenticatedBy(db, o, e, result.value);
      assert Authenticated(db, o, raw, result.value);
    }
    if commits && exists r :: Authenticated(db, o, raw, r) {
      var r :| Authenticated(db, o, raw, r);
      var e :| ParseEnvelope(raw, o.repr) == Ok(e) && AuthenticatedBy(db, o, e, r);
      assert VerifyOr401(db, o.mac, e) == Ok(r.secretId);
    }
  }

  /** A bundle that names a credential which is not stored is refused before anything is read from
      its payload. */
  lemma UnknownCredentialRefused(db: Db, o: Oracles, raw: string, source: Source, now: Time, commits: bool, secretId: string)
    requires secretId !in db.secrets
    requires ParseEnvelope(raw, o.repr).Ok? && ParseEnvelope(raw, o.repr).value.secretId == Str(secretId)
    ensures IngestResult(db, o, raw, source, now, commits) == Err(Unauthorised)
    ensures AfterIngest(db, o, raw, source, now, commits) == db
  {
  }

  /** What is signed determines the payload, up to the order of its keys: re-ordering keys in
      transit keeps a signature valid, and no other change of the payload has the same bytes. */
  lemma SignedTextCoversPayload(a: JsonValue, b: JsonValue)
    requires WellFormed(a) && WellFormed(b)
    ensures CanonicalText(a) == CanonicalText(b) <==> Same(a, b)
  {
    SortedTextIffSame(a, b, Compact);
  }

  /** `repr` prints floats as floats. */
  ghost predicate PrintsFloats(repr: string -> string) { forall lit :: IsFloatText(lit) ==> IsFloatText(repr(lit)) }

  lemma {:induction false} HeldWellFormed(v: JsonValue, repr: string -> string)
    requires WellFormed(v) && PrintsFloats(repr)
    ensures WellFormed(Held(v, repr))
    decreases v
  {
    match v
    case Arr(items) =>
      forall i | 0 <= i < |items| ensures WellFormed(Held(items[i], repr)) { HeldWellFormed(items[i], repr); }
    case Obj(ms) =>
      forall i | 0 <= i < |ms| ensures WellFormed(Held(ms[i].value, repr)) { HeldWellFormed(ms[i].value, repr); }
    case _ =>
  }

  lemma EnvelopeWellFormed(raw: string, repr: string -> string)
    requires PrintsFloats(repr) && ParseEnvelope(raw, repr).Ok?
    ensures WellFormed(ParseEnvelope(raw, repr).value.payload)
  {
    LoadsWellFormed(raw);
    var ms := Loads(raw).value.members;
    var m := Lookup(ms, "payload");
    var i :| 0 <= i < |ms| && ms[i] == m;
    HeldWellFormed(m.value, repr);
  }

  /** Two bundles have one signed text exactly when their payloads are the same up to key order; so a
      signature that one of them was accepted with fits the other only then, or where the MAC
      collides. */
  lemma OneSignedText(raw: string, other: string, repr: string -> string)
    requires PrintsFloats(repr) && ParseEnvelope(raw, repr).Ok? && ParseEnvelope(other, repr).Ok?
    ensures CanonicalText(ParseEnvelope(raw, repr).value.payload) == CanonicalText(ParseEnvelope(other, repr).value.payload)
       <==> Same(ParseEnvelope(raw, repr).value.payload, ParseEnvelope(other, repr).value.payload)
  {
    EnvelopeWellFormed(raw, repr);
    EnvelopeWellFormed(other, repr);
    SignedTextCoversPayload(ParseEnvelope(raw, repr).value.payload, ParseEnvelope(other, repr).value.payload);
  }

  /** Two bundles with one credential and one signature, and one payload up to key order, are answered
      alike, provided that the schema does not look at key order either. */
  lemma ReorderedIsAccepted(db: Db, o: Oracles, raw: string, other: string, source: Source, now: Time)
    requires PrintsFloats(o.repr) && ParseEnvelope(raw, o.repr).Ok? && ParseEnvelope(other, o.repr).Ok?
    requires var a, b := ParseEnvelope(raw, o.repr).value, ParseEnvelope(other, o.repr).value;
             Same(a.payload, b.payload) && a.secretId == b.secretId && a.signature == b.signature
             && o.validate(a.payload) == o.validate(b.payload)
    ensures IngestResult(db, o, raw, source, now, true) == IngestResult(db, o, other, source, now, true)
  {
    OneSignedText(raw, other, o.repr);
  }

  /** Both entrypoints: only the recorded source differs. */
  lemma EntrypointsAgree(db: Db, o: Oracles, raw: string, now: Time, commits: bool)
    ensures match (IngestResult(db, o, raw, Realtime, now, commits), IngestResult(db, o, raw, OfflineUpload, now, commits))
            case (Ok(a), Ok(b)) => b == a.(source := OfflineUpload) && a.source == Realtime
            case (Err(a), Err(b)) => a == b
            case _ => false
  {
  }

  class Intake {
    const oracles: Oracles
    var ledger: map<string, Row>
    var secrets: map<string, Secret>
    var records: seq<Record>

    constructor (oracles: Oracles, db: Db)
      ensures this.oracles == oracles && State() == db
    {
      this.oracles := oracles;
      ledger, secrets, records := db.ledger, db.secrets, db.records;
    }

    function State(): Db
      reads this
    {
      Db(ledger, secrets, records)
    }

    method Persist(p: Payload, secretId: string, source: Source, now: Time, commits: bool)
      returns (result: Result<Record, Rejection>)
      modifies this`records
      ensures result == PersistResult(old(State()), p, secretId, source, now, commits)
      ensures State() == if result.Ok? then old(State()).(records := old(records) + [result.value]) else old(State())
    {
      if p.licenseId !in ledger {
        return Err(NoSuchLicense);
      }
      var pinned := ledger[p.licenseId].secretId;
      if pinned.Some? && pinned.value != secretId {
        return Err(WrongCredential);
      }
      var record := Record(|records|, p, secretId, now, source);
      if !commits {
        return Err(NotCommitted);
      }
      records := records + [record];
      return Ok(record);
    }

    method Ingest(raw: string, source: Source, now: Time, commits: bool) returns (result: Result<Record, Rejection>)
      modifies this`records
      ensures result == IngestResult(old(State()), oracles, raw, source, now, commits)
      ensures State() == AfterIngest(old(State()), oracles, raw, source, now, commits)
    {
      match ParseEnvelope(raw, oracles.repr) {
        case Err(e) => return Err(e);
        case Ok(envelope) =>
          match VerifyOr401(State(), oracles.mac, envelope) {
            case Err(e) => return Err(e);
            case Ok(secretId) =>
              match oracles.validate(envelope.payload) {
                case None => return Err(Malformed);
                case Some(p) => result := Persist(p, secretId, source, now, commits);
              }
          }
      }
    }
  }
}
