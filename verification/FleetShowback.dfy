/** Telemetry queries: last seen and silence, showback, and the roster and customer views.

    `heap` is the order in which the database happens to walk the telemetry records. */
module FleetShowback {
  import opened Common
  import opened OrderBy
  import opened FleetLedger
  import opened FleetQueries

  predicate NewestSeen(a: Record, b: Record) { a.payload.lastSeen > b.payload.lastSeen }

  function Of(licenseId: string): Record -> bool { (r: Record) => r.payload.licenseId == licenseId }

  /** ORDER BY last_seen DESC LIMIT 1. */
  function LatestRecord(heap: seq<Record>, licenseId: string): Option<Record> {
    var rs := Sorted(Where(heap, Of(licenseId)), NewestSeen);
    if rs == [] then None else Some(rs[0])
  }

  /** SELECT license_id, max(last_seen) GROUP BY license_id. */
  function MaxSeen(records: seq<Record>): map<string, Time> {
    if records == [] then map[]
    else
      var m, p := MaxSeen(records[..|records| - 1]), records[|records| - 1].payload;
      m[p.licenseId := if p.licenseId in m then Max(m[p.licenseId], p.lastSeen) else p.lastSeen]
  }

  datatype Silence = Silence(
    licenseId: string,
    customerId: string,
    secretId: Option<string>,
    lastSeen: Option<Time>,
    silent: bool)

  /** One row of the left join, as reported. */
  function SilenceOf(row: Row, maxSeen: map<string, Time>, threshold: Option<Time>): Silence {
    var seen := if row.licenseId in maxSeen then Some(maxSeen[row.licenseId]) else None;
    var silent := seen.None? || (threshold.Some? && seen.value < threshold.value);
    Silence(row.licenseId, row.customerId, row.secretId, seen, silent)
  }

  function Threshold(silentAfterDays: Option<int>, now: Time): Option<Time> {
    if silentAfterDays.Some? then Some(now - silentAfterDays.value * DAY) else None
  }

  function JoinedRows(db: Db, scan: seq<string>, all: bool): seq<Row>
    requires forall id :: id in scan ==> id in db.ledger
  {
    Select(db, scan, Shown(all), ByCustomerThenLicense)
  }

  function Silences(rows: seq<Row>, records: seq<Record>, threshold: Option<Time>): (r: seq<Silence>)
    ensures |r| == |rows|
    ensures forall i :: 0 <= i < |rows| ==> r[i] == SilenceOf(rows[i], MaxSeen(records), threshold)
  {
    seq(|rows|, i requires 0 <= i < |rows| => SilenceOf(rows[i], MaxSeen(records), threshold))
  }

  /** The loop over the joined rows. */
  method SilenceRows(rows: seq<Row>, maxSeen: map<string, Time>, threshold: Option<Time>) returns (out: seq<Silence>)
    ensures |out| == |rows| && forall i :: 0 <= i < |rows| ==> out[i] == SilenceOf(rows[i], maxSeen, threshold)
  {
    out := [];
    for i := 0 to |rows|
      invariant |out| == i
      invariant forall j :: 0 <= j < i ==> out[j] == SilenceOf(rows[j], maxSeen, threshold)
    {
      var row := rows[i];
      var seen := if row.licenseId in maxSeen then Some(maxSeen[row.licenseId]) else None;
      var silent := false;
      if seen.None? {
        silent := true;
      } else if threshold.Some? {
        silent := seen.value < threshold.value;
      }
      out := out + [Silence(row.licenseId, row.customerId, row.secretId, seen, silent)];
    }
  }

  method LastSeenPerDeployment(db: Db, scan: seq<string>, silentAfterDays: Option<int>, now: Time, all: bool)
    returns (out: seq<Silence>)
    requires forall id :: id in scan ==> id in db.ledger
    ensures out == Silences(JoinedRows(db, scan, all), db.records, Threshold(silentAfterDays, now))
  {
    var threshold := if silentAfterDays.Some? then Some(now - silentAfterDays.value * DAY) else None;
    out := SilenceRows(JoinedRows(db, scan, all), MaxSeen(db.records), threshold);
  }

  // ---------------------------------------------------------------- one truth about last seen

  /** `seen` is the time of the newest record of the licence, and None when there is no record. */
  ghost predicate IsLastSeen(records: seq<Record>, licenseId: string, seen: Option<Time>) {
    && (seen.None? <==> forall r :: r in records ==> r.payload.licenseId != licenseId)
    && (seen.Some? ==>
          && (exists r :: r in records && r.payload.licenseId == licenseId && r.payload.lastSeen == seen.value)
          && (forall r :: r in records && r.payload.licenseId == licenseId ==> r.payload.lastSeen <= seen.value))
  }

  lemma OneLastSeen(records: seq<Record>, licenseId: string, a: Option<Time>, b: Option<Time>)
    requires IsLastSeen(records, licenseId, a) && IsLastSeen(records, licenseId, b)
    ensures a == b
  {
  }

  lemma {:induction false} MaxSeenIsLastSeen(records: seq<Record>, licenseId: string)
    ensures IsLastSeen(records, licenseId,
                       if licenseId in MaxSeen(records) then Some(MaxSeen(records)[licenseId]) else None)
  {
    if records != [] {
      var front, last := records[..|records| - 1], records[|records| - 1];
      assert records == front + [last];
      MaxSeenIsLastSeen(front, licenseId);
    }
  }

  /** The newest record, whatever the order in which the table is walked. */
  lemma LatestIsLastSeen(records: seq<Record>, heap: seq<Record>, licenseId: string)
    requires multiset(heap) == multiset(records)
    ensures match LatestRecord(heap, licenseId)
            case None => IsLastSeen(records, licenseId, None)
            case Some(r) => r in records && r.payload.licenseId == licenseId && IsLastSeen(records, licenseId, Some(r.payload.lastSeen))
  {
    var kept := Where(heap, Of(licenseId));
    var rs := Sorted(kept, NewestSeen);
    SameMembers(heap, records);
    SameMembers(rs, kept);
    SortedInOrder(kept, NewestSeen);
    forall r | r in rs ensures r.payload.lastSeen <= rs[0].payload.lastSeen {
      var i :| 0 <= i < |rs| && rs[i] == r;
    }
    if rs == [] {
      forall r | r in records ensures r.payload.licenseId != licenseId {
        assert r in heap;
        assert r !in kept;
      }
    } else {
      assert rs[0] in rs;
    }
  }

  /** Every record of the licence is older than the threshold; without a threshold, there is none. */
  ghost predicate Quiet(records: seq<Record>, licenseId: string, silentAfterDays: Option<int>, now: Time) {
    forall r :: r in records && r.payload.licenseId == licenseId ==>
      silentAfterDays.Some? && r.payload.lastSeen < now - silentAfterDays.value * DAY
  }

  /** The left join reports each current licence exactly once, by customer and then by licence, with
      the time of its newest record; it is silent exactly when no record is recent enough. */
  lemma EveryLicenseOnce(db: Db, scan: seq<string>, silentAfterDays: Option<int>, now: Time, all: bool)
    requires Keyed(db) && Scans(scan, db)
    ensures forall id :: id in scan ==> id in db.ledger
    ensures var rows := JoinedRows(db, scan, all);
            var out := Silences(rows, db.records, Threshold(silentAfterDays, now));
            && Lists(rows, db, Shown(all)) && InOrder(rows, ByCustomerThenLicense)
            && |out| == |rows|
            && (forall i :: 0 <= i < |rows| ==> Describes(out[i], rows[i], db.records, silentAfterDays, now))
  {
    SelectLists(db, scan, Shown(all), ByCustomerThenLicense);
    LicenseOrderWeak();
    SortedInOrder(Where(Table(db, scan), Shown(all)), ByCustomerThenLicense);
    var rows := JoinedRows(db, scan, all);
    forall i | 0 <= i < |rows|
      ensures Describes(SilenceOf(rows[i], MaxSeen(db.records), Threshold(silentAfterDays, now)), rows[i], db.records, silentAfterDays, now)
    {
      SilenceDescribes(rows[i], db.records, silentAfterDays, now);
    }
  }

  ghost predicate Describes(d: Silence, row: Row, records: seq<Record>, silentAfterDays: Option<int>, now: Time) {
    && d.licenseId == row.licenseId && d.customerId == row.customerId && d.secretId == row.secretId
    && IsLastSeen(records, row.licenseId, d.lastSeen)
    && (d.silent <==> Quiet(records, row.licenseId, silentAfterDays, now))
  }

  lemma SilenceDescribes(row: Row, records: seq<Record>, silentAfterDays: Option<int>, now: Time)
    ensures Describes(SilenceOf(row, MaxSeen(records), Threshold(silentAfterDays, now)), row, records, silentAfterDays, now)
  {
    MaxSeenIsLastSeen(records, row.licenseId);
  }

  /** The join and the query for one licence agree. */
  lemma JoinAgreesWithLatest(row: Row, records: seq<Record>, heap: seq<Record>, threshold: Option<Time>)
    requires multiset(heap) == multiset(records)
    ensures match LatestRecord(heap, row.licenseId)
            case None => SilenceOf(row, MaxSeen(records), threshold).lastSeen == None
            case Some(r) => SilenceOf(row, MaxSeen(records), threshold).lastSeen == Some(r.payload.lastSeen)
  {
    MaxSeenIsLastSeen(records, row.licenseId);
    LatestIsLastSeen(records, heap, row.licenseId);
    var seen := SilenceOf(row, MaxSeen(records), threshold).lastSeen;
    match LatestRecord(heap, row.licenseId)
    case None => OneLastSeen(records, row.licenseId, seen, None);
    case Some(r) => OneLastSeen(records, row.licenseId, seen, Some(r.payload.lastSeen));
  }

  // ---------------------------------------------------------------- showback

  datatype TelemetryState = NoTelemetry | LiveNow | LastUpload

  datatype Note = NoneOnRecord | NoneSince(t: Time)

  datatype ShowbackRow = ShowbackRow(
    customerId: string,
    licenseId: string,
    edition: string,
    state: TelemetryState,
    lastSeen: Option<Time>,
    source: Option<Source>,
    activeEdition: Option<string>,
    activeModules: seq<string>,
    moduleUsage: map<string, int>,
    showbackTotals: map<string, real>,
    overLicense: bool,
    note: Option<Note>)

  function Editions(rows: seq<Row>): map<string, string> {
    DictOf(rows, (r: Row) => r.licenseId, (r: Row) => r.edition)
  }

  function Get(editions: map<string, string>, licenseId: string, default: string): string {
    if licenseId in editions then editions[licenseId] else default
  }

  function ShowbackOf(d: Silence, latest: Option<Record>, editions: map<string, string>): ShowbackRow {
    if latest.None? || d.silent then
      ShowbackRow(d.customerId, d.licenseId, Get(editions, d.licenseId, ""), NoTelemetry, d.lastSeen,
                  None, None, [], map[], map[], false,
                  Some(if d.lastSeen.Some? then NoneSince(d.lastSeen.value) else NoneOnRecord))
    else
      var p := latest.value.payload;
      ShowbackRow(d.customerId, d.licenseId,
                  Get(editions, d.licenseId, if p.activeEdition.Some? then p.activeEdition.value else ""),
                  if latest.value.source == Realtime then LiveNow else LastUpload,
                  d.lastSeen, Some(latest.value.source), p.activeEdition, p.activeModules, p.moduleUsage, p.showbackTotals,
                  p.overLicense, None)
  }

  /** The loop over the licences; `latest` is the query for one licence. */
  method ShowbackRows(silences: seq<Silence>, latest: string -> Option<Record>, editions: map<string, string>)
    returns (out: seq<ShowbackRow>)
    ensures |out| == |silences|
    ensures forall i :: 0 <= i < |out| ==>
              out[i] == ShowbackOf(silences[i], latest(silences[i].licenseId), editions)
  {
    out := [];
    for i := 0 to |silences|
      invariant |out| == i
      invariant forall j :: 0 <= j < i ==>
        out[j] == ShowbackOf(silences[j], latest(silences[j].licenseId), editions)
    {
      var d := silences[i];
      var rec := latest(d.licenseId);
      if rec.None? || d.silent {
        var note := if d.lastSeen.Some? then NoneSince(d.lastSeen.value) else NoneOnRecord;
        out := out + [ShowbackRow(d.customerId, d.licenseId, Get(editions, d.licenseId, ""), NoTelemetry,
                                  d.lastSeen, None, None, [], map[], map[], false, Some(note))];
        continue;
      }
      var state := if rec.value.source == Realtime then LiveNow else LastUpload;
      var p := rec.value.payload;
      out := out + [ShowbackRow(d.customerId, d.licenseId,
                                Get(editions, d.licenseId, if p.activeEdition.Some? then p.activeEdition.value else ""),
                                state, d.lastSeen, Some(rec.value.source), p.activeEdition, p.activeModules,
                                p.moduleUsage, p.showbackTotals, p.overLicense, None)];
    }
  }

  method Showback(db: Db, scan: seq<string>, heap: seq<Record>, silentAfterDays: Option<int>, now: Time)
    returns (out: seq<ShowbackRow>)
    requires Keyed(db) && Scans(scan, db) && multiset(heap) == multiset(db.records)
    ensures forall id :: id in scan ==> id in db.ledger
    ensures var rows := JoinedRows(db, scan, false);
            && Lists(rows, db, Shown(false)) && InOrder(rows, ByCustomerThenLicense)
            && |out| == |rows|
            && forall i :: 0 <= i < |rows| ==> Honest(out[i], rows[i], db.records, silentAfterDays, now)
  {
    EveryLicenseOnce(db, scan, silentAfterDays, now, false);
    var silences := LastSeenPerDeployment(db, scan, silentAfterDays, now, false);
    var editions := Editions(Roster(db, scan, false));
    out := ShowbackRows(silences, (id: string) => LatestRecord(heap, id), editions);
    forall i | 0 <= i < |out| ensures Honest(out[i], JoinedRows(db, scan, false)[i], db.records, silentAfterDays, now) {
      ShowbackIsHonest(db, scan, heap, silentAfterDays, now, i);
    }
  }

  /** What a showback row says about its licence. */
  ghost predicate Honest(s: ShowbackRow, row: Row, records: seq<Record>, silentAfterDays: Option<int>, now: Time) {
    && s.licenseId == row.licenseId && s.customerId == row.customerId && s.edition == row.edition
    && IsLastSeen(records, row.licenseId, s.lastSeen)
    && (s.state == NoTelemetry <==> Quiet(records, row.licenseId, silentAfterDays, now))
    && (s.state == NoTelemetry ==>
          && s.note == Some(if s.lastSeen.Some? then NoneSince(s.lastSeen.value) else NoneOnRecord)
          && s.source.None? && s.activeModules == [] && s.moduleUsage == map[] && s.showbackTotals == map[] && !s.overLicense)
    && (s.state != NoTelemetry ==> s.note.None? && exists r :: r in records && Newest(r, s, row.licenseId))
  }

  /** The usage shown is that of one record, and it is a newest one. */
  ghost predicate Newest(r: Record, s: ShowbackRow, licenseId: string) {
    && r.payload.licenseId == licenseId && s.lastSeen == Some(r.payload.lastSeen)
    && s.source == Some(r.source) && (s.state == LiveNow <==> r.source == Realtime)
    && s.activeEdition == r.payload.activeEdition && s.activeModules == r.payload.activeModules
    && s.moduleUsage == r.payload.moduleUsage && s.showbackTotals == r.payload.showbackTotals
    && s.overLicense == r.payload.overLicense
  }

  /** The state is "none" exactly when the licence is silent, the edition is the ledger's and never
      a default, and usage shown is the newest on record. */
  lemma ShowbackIsHonest(db: Db, scan: seq<string>, heap: seq<Record>, silentAfterDays: Option<int>, now: Time, i: nat)
    requires Keyed(db) && Scans(scan, db) && multiset(heap) == multiset(db.records)
    ensures forall id :: id in scan ==> id in db.ledger
    ensures var rows := JoinedRows(db, scan, false);
            var ds := Silences(rows, db.records, Threshold(silentAfterDays, now));
            i < |rows| ==>
              Honest(ShowbackOf(ds[i], LatestRecord(heap, ds[i].licenseId), Editions(Roster(db, scan, false))),
                     rows[i], db.records, silentAfterDays, now)
  {
    SelectLists(db, scan, Shown(false), ByCustomerThenLicense);
    SelectLists(db, scan, Shown(false), ByCustomerThenIssued);
    var rows := JoinedRows(db, scan, false);
    if i < |rows| {
      assert rows[i] in rows;
      EditionFound(Roster(db, scan, false), rows[i]);
      RowIsHonest(rows[i], db.records, heap, silentAfterDays, now, Editions(Roster(db, scan, false)));
    }
  }

  lemma EditionFound(roster: seq<Row>, row: Row)
    requires row in roster
    requires forall i, j :: 0 <= i < j < |roster| ==> roster[i].licenseId != roster[j].licenseId
    ensures row.licenseId in Editions(roster) && Editions(roster)[row.licenseId] == row.edition
  {
    var k :| 0 <= k < |roster| && roster[k] == row;
    DictOfFinds(roster, (r: Row) => r.licenseId, (r: Row) => r.edition, k);
  }

  lemma RowIsHonest(row: Row, records: seq<Record>, heap: seq<Record>, silentAfterDays: Option<int>, now: Time, editions: map<string, string>)
    requires multiset(heap) == multiset(records)
    requires row.licenseId in editions && editions[row.licenseId] == row.edition
    ensures Honest(ShowbackOf(SilenceOf(row, MaxSeen(records), Threshold(silentAfterDays, now)),
                              LatestRecord(heap, row.licenseId), editions),
                   row, records, silentAfterDays, now)
  {
    var d := SilenceOf(row, MaxSeen(records), Threshold(silentAfterDays, now));
    SilenceDescribes(row, records, silentAfterDays, now);
    JoinAgreesWithLatest(row, records, heap, Threshold(silentAfterDays, now));
    LatestIsLastSeen(records, heap, row.licenseId);
    if !d.silent {
      var r := LatestRecord(heap, row.licenseId).value;
      assert Newest(r, ShowbackOf(d, Some(r), editions), row.licenseId);
    }
  }

  // ---------------------------------------------------------------- roster and customer views

  datatype RosterRow = RosterRow(row: Row, status: Status, silence: Option<Silence>)

  function SilenceById(ds: seq<Silence>): map<string, Silence> {
    DictOf(ds, (d: Silence) => d.licenseId, (d: Silence) => d)
  }

  function Enriched(row: Row, n: int, now: Time, silence: map<string, Silence>): RosterRow {
    RosterRow(row, DeriveStatus(row, n, now), if row.licenseId in silence then Some(silence[row.licenseId]) else None)
  }

  /** Joining by licence id never misses: every row that the roster or a customer's view shows comes
      with the silence of its own licence. */
  lemma EveryRowEnriched(db: Db, scan: seq<string>, all: bool, n: int, now: Time, row: Row)
    requires Keyed(db) && Scans(scan, db)
    ensures forall id :: id in scan ==> id in db.ledger
    ensures var silence := SilenceById(Silences(JoinedRows(db, scan, all), db.records, None));
            row in Roster(db, scan, all) ==>
              match Enriched(row, n, now, silence).silence
              case Some(d) => Describes(d, row, db.records, None, now)
              case None => false
  {
    SelectLists(db, scan, Shown(all), ByCustomerThenLicense);
    SelectLists(db, scan, Shown(all), ByCustomerThenIssued);
    var rows := JoinedRows(db, scan, all);
    if row in Roster(db, scan, all) {
      assert row in rows;
      var k :| 0 <= k < |rows| && rows[k] == row;
      var ds := Silences(rows, db.records, None);
      DictOfFinds(ds, (d: Silence) => d.licenseId, (d: Silence) => d, k);
      SilenceDescribes(row, db.records, None, now);
    }
  }

  /** Each module once, in the order of its first appearance. */
  function FirstAppearances(ms: seq<string>): (r: seq<string>)
    ensures forall m :: m in r <==> m in ms
  {
    if ms == [] then []
    else
      var front, last := ms[..|ms| - 1], ms[|ms| - 1];
      assert ms == front + [last];
      if last in FirstAppearances(front) then FirstAppearances(front) else FirstAppearances(front) + [last]
  }

  /** The position at which a module first appears. */
  function FirstAt(ms: seq<string>, m: string): (i: nat)
    requires m in ms
    ensures i < |ms| && ms[i] == m && forall k :: 0 <= k < i ==> ms[k] != m
  {
    if ms[0] == m then 0
    else
      assert ms == [ms[0]] + ms[1..];
      1 + FirstAt(ms[1..], m)
  }

  lemma FirstAtAppend(a: seq<string>, b: seq<string>, m: string)
    requires m in a
    ensures m in a + b && FirstAt(a + b, m) == FirstAt(a, m)
  {
    assert (a + b)[FirstAt(a, m)] == m;
    assert forall k :: 0 <= k < FirstAt(a, m) ==> (a + b)[k] == a[k];
  }

  /** The union loses and repeats nothing, and keeps the order. */
  lemma {:induction false} UnionInOrder(ms: seq<string>)
    ensures Distinct(FirstAppearances(ms)) && Elements(FirstAppearances(ms)) == Elements(ms)
    ensures var r := FirstAppearances(ms);
            forall i, j :: 0 <= i < j < |r| ==> r[i] in ms && r[j] in ms && FirstAt(ms, r[i]) < FirstAt(ms, r[j])
  {
    if ms != [] {
      var front, last := ms[..|ms| - 1], ms[|ms| - 1];
      assert ms == front + [last];
      UnionInOrder(front);
      var r, f := FirstAppearances(ms), FirstAppearances(front);
      forall i, j | 0 <= i < j < |r| ensures r[i] in ms && r[j] in ms && FirstAt(ms, r[i]) < FirstAt(ms, r[j]) {
        assert r[i] == f[i] && f[i] in f;
        FirstAtAppend(front, [last], r[i]);
        if j < |f| {
          assert r[j] == f[j] && f[j] in f;
          FirstAtAppend(front, [last], r[j]);
        } else {
          assert r[j] == last && last !in front;
          assert forall k :: 0 <= k < |front| ==> ms[k] == front[k];
          assert FirstAt(ms, last) == |front|;
        }
      }
    }
  }

  function ModulesOf(rows: seq<Row>): seq<string> {
    if rows == [] then [] else ModulesOf(rows[..|rows| - 1]) + rows[|rows| - 1].entitledModules
  }

  datatype CustomerView = CustomerView(customerId: string, licenses: seq<RosterRow>, entitledModules: seq<string>)

  lemma AppearsNext(ms: seq<string>, m: string)
    ensures FirstAppearances(ms + [m]) == if m in FirstAppearances(ms) then FirstAppearances(ms) else FirstAppearances(ms) + [m]
  {
    assert (ms + [m])[..|ms|] == ms;
  }

  /** `if m not in modules: modules.append(m)`. */
  method AddModule(known: seq<string>, m: string, ghost ms: seq<string>) returns (modules: seq<string>)
    requires known == FirstAppearances(ms)
    ensures modules == FirstAppearances(ms + [m])
  {
    AppearsNext(ms, m);
    modules := known;
    if m !in modules {
      modules := modules + [m];
    }
  }

  method AddModules(known: seq<string>, entitled: seq<string>, ghost before: seq<string>) returns (modules: seq<string>)
    requires known == FirstAppearances(before)
    ensures modules == FirstAppearances(before + entitled)
  {
    modules := known;
    ghost var ms := before;
    for k := 0 to |entitled|
      invariant ms == before + entitled[..k]
      invariant modules == FirstAppearances(ms)
    {
      modules := AddModule(modules, entitled[k], ms);
      ms := ms + [entitled[k]];
    }
    assert ms == before + entitled;
  }

  method EntitledModules(rows: seq<Row>) returns (modules: seq<string>)
    ensures modules == FirstAppearances(ModulesOf(rows))
  {
    modules := [];
    for i := 0 to |rows|
      invariant modules == FirstAppearances(ModulesOf(rows[..i]))
    {
      assert rows[..i + 1][..i] == rows[..i];
      modules := AddModules(modules, rows[i].entitledModules, ModulesOf(rows[..i]));
    }
    assert rows[..|rows|] == rows;
  }

  /** None is the 404. */
  method GetCustomer(db: Db, scan: seq<string>, customerId: string, n: int, now: Time, all: bool)
    returns (view: Option<CustomerView>)
    requires forall id :: id in scan ==> id in db.ledger
    ensures var rows := ByCustomer(db, scan, customerId, all);
            match view
            case None => rows == []
            case Some(v) =>
              && rows != [] && v.customerId == customerId
              && |v.licenses| == |rows|
              && (forall i :: 0 <= i < |rows| ==>
                    v.licenses[i] == Enriched(rows[i], n, now, SilenceById(Silences(JoinedRows(db, scan, all), db.records, None))))
              && v.entitledModules == FirstAppearances(ModulesOf(rows))
  {
    var rows := ByCustomer(db, scan, customerId, all);
    if rows == [] {
      return None;
    }
    var silences := LastSeenPerDeployment(db, scan, None, now, all);
    var silence := SilenceById(silences);
    var models := seq(|rows|, i requires 0 <= i < |rows| => Enriched(rows[i], n, now, silence));
    var modules := EntitledModules(rows);
    return Some(CustomerView(customerId, models, modules));
  }
}
