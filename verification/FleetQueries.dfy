/** The read side: roster, customer view, expiry window and derived status.

    `scan` is the order in which the database happens to walk the ledger. */
module FleetQueries {
  import opened Common
  import opened Ordering
  import opened OrderBy
  import opened FleetLedger
  import FleetRuns

  /** Rows are stored under their own licence id. */
  ghost predicate Keyed(db: Db) {
    forall id :: id in db.ledger ==> db.ledger[id].licenseId == id
  }

  ghost predicate Scans(scan: seq<string>, db: Db) { Enumerates(scan, db.ledger.Keys) }

  function Table(db: Db, scan: seq<string>): seq<Row>
    requires forall id :: id in scan ==> id in db.ledger
  {
    seq(|scan|, i requires 0 <= i < |scan| => db.ledger[scan[i]])
  }

  predicate Current(row: Row) { row.supersededBy.None? && row.revokedAt.None? }

  predicate ByCustomerThenIssued(a: Row, b: Row) {
    Less(a.customerId, b.customerId) || (a.customerId == b.customerId && a.issuedAt < b.issuedAt)
  }

  predicate NewestIssued(a: Row, b: Row) { a.issuedAt > b.issuedAt }

  predicate SoonestExpiry(a: Row, b: Row) {
    a.expiresAt.Some? && (b.expiresAt.None? || a.expiresAt.value < b.expiresAt.value)
  }

  predicate ByCustomerThenLicense(a: Row, b: Row) {
    Less(a.customerId, b.customerId) || (a.customerId == b.customerId && Less(a.licenseId, b.licenseId))
  }

  function Select(db: Db, scan: seq<string>, keep: Row -> bool, before: (Row, Row) -> bool): seq<Row>
    requires forall id :: id in scan ==> id in db.ledger
  {
    Sorted(Where(Table(db, scan), keep), before)
  }

  predicate InWindow(row: Row, withinDays: int, now: Time) {
    row.expiresAt.Some? && row.expiresAt.value <= now + withinDays * DAY
  }

  function Shown(all: bool): Row -> bool { (r: Row) => all || Current(r) }

  function Customers(customerId: string, all: bool): Row -> bool {
    (r: Row) => r.customerId == customerId && (all || Current(r))
  }

  function Ending(withinDays: int, now: Time, all: bool): Row -> bool {
    (r: Row) => InWindow(r, withinDays, now) && (all || Current(r))
  }

  function Roster(db: Db, scan: seq<string>, all: bool): seq<Row>
    requires forall id :: id in scan ==> id in db.ledger
  {
    Select(db, scan, Shown(all), ByCustomerThenIssued)
  }

  function ByCustomer(db: Db, scan: seq<string>, customerId: string, all: bool): seq<Row>
    requires forall id :: id in scan ==> id in db.ledger
  {
    Select(db, scan, Customers(customerId, all), NewestIssued)
  }

  function ExpiringSoon(db: Db, scan: seq<string>, withinDays: int, now: Time, all: bool): seq<Row>
    requires forall id :: id in scan ==> id in db.ledger
  {
    Select(db, scan, Ending(withinDays, now, all), SoonestExpiry)
  }

  // ---------------------------------------------------------------- exactness and order

  /** `rows` are exactly the stored rows that satisfy `keep`, each once. */
  ghost predicate Lists(rows: seq<Row>, db: Db, keep: Row -> bool) {
    && (forall r :: r in rows <==> (r.licenseId in db.ledger && db.ledger[r.licenseId] == r && keep(r)))
    && (forall i, j :: 0 <= i < j < |rows| ==> rows[i].licenseId != rows[j].licenseId)
  }

  lemma TableLists(db: Db, scan: seq<string>)
    requires Keyed(db) && Scans(scan, db)
    ensures Distinct(Table(db, scan))
    ensures forall r :: r in Table(db, scan) <==> r.licenseId in db.ledger && db.ledger[r.licenseId] == r
  {
    var t := Table(db, scan);
    assert forall id :: id in scan <==> id in db.ledger;
    forall r: Row | r.licenseId in db.ledger && db.ledger[r.licenseId] == r ensures r in t {
      var i :| 0 <= i < |scan| && scan[i] == r.licenseId;
      assert t[i] == r;
    }
    forall i, j | 0 <= i < j < |t| ensures t[i] != t[j] {
      assert scan[i] in scan && scan[j] in scan;
    }
  }

  lemma SelectLists(db: Db, scan: seq<string>, keep: Row -> bool, before: (Row, Row) -> bool)
    requires Keyed(db) && Scans(scan, db)
    ensures forall id :: id in scan ==> id in db.ledger
    ensures Lists(Select(db, scan, keep, before), db, keep)
  {
    assert forall id :: id in scan <==> id in db.ledger;
    TableLists(db, scan);
    var kept := Where(Table(db, scan), keep);
    WhereDistinct(Table(db, scan), keep);
    SortedDistinct(kept, before);
    var rows := Select(db, scan, keep, before);
    SameMembers(rows, kept);
    forall i, j | 0 <= i < j < |rows| ensures rows[i].licenseId != rows[j].licenseId {
      assert rows[i] in rows && rows[j] in rows;
    }
  }

  lemma RosterOrderWeak()
    ensures StrictWeak(ByCustomerThenIssued)
  {
    forall a, b | ByCustomerThenIssued(a, b) ensures !ByCustomerThenIssued(b, a) {
      LessTotal(a.customerId, b.customerId);
    }
    forall a, b, c | !ByCustomerThenIssued(b, a) && !ByCustomerThenIssued(c, b) ensures !ByCustomerThenIssued(c, a) {
      NotLessTransitive(a.customerId, b.customerId, c.customerId);
    }
  }

  lemma LicenseOrderWeak()
    ensures StrictWeak(ByCustomerThenLicense)
  {
    forall a, b | ByCustomerThenLicense(a, b) ensures !ByCustomerThenLicense(b, a) {
      LessTotal(a.customerId, b.customerId);
      LessTotal(a.licenseId, b.licenseId);
    }
    forall a, b, c | !ByCustomerThenLicense(b, a) && !ByCustomerThenLicense(c, b) ensures !ByCustomerThenLicense(c, a) {
      NotLessTransitive(a.customerId, b.customerId, c.customerId);
      if a.customerId == c.customerId { NotLessTransitive(a.licenseId, b.licenseId, c.licenseId); }
    }
  }

  lemma NotLessTransitive(a: string, b: string, c: string)
    requires !Less(b, a) && !Less(c, b)
    ensures !Less(c, a)
    ensures a == c ==> a == b
  {
    LessTotal(a, b);
    LessTotal(b, c);
    LessTotal(a, c);
    if a != b && b != c { LessTransitive(a, b, c); }
  }

  /** In every reachable ledger the roster is exactly the heads that are not revoked, each once, by
      customer and then by issue time; and no two of its rows are of one lineage. */
  lemma RosterIsLiveHeads(w: FleetRuns.World, scan: seq<string>)
    requires FleetRuns.Inv(w) && Scans(scan, w.db)
    ensures forall id :: id in scan ==> id in w.db.ledger
    ensures var rows := Roster(w.db, scan, false);
            && (forall r :: r in rows <==> (r.licenseId in FleetRuns.Heads(w.db) && r == w.db.ledger[r.licenseId] && r.revokedAt.None?))
            && InOrder(rows, ByCustomerThenIssued)
            && (forall i, j :: 0 <= i < j < |rows| ==>
                  && rows[i].licenseId in w.db.ledger && rows[j].licenseId in w.db.ledger
                  && FleetRuns.HeadOf(w, rows[i].licenseId) != FleetRuns.HeadOf(w, rows[j].licenseId))
  {
    assert Keyed(w.db);
    SelectLists(w.db, scan, Shown(false), ByCustomerThenIssued);
    RosterOrderWeak();
    SortedInOrder(Where(Table(w.db, scan), Shown(false)), ByCustomerThenIssued);
    var rows := Roster(w.db, scan, false);
    forall i, j | 0 <= i < j < |rows|
      ensures rows[i].licenseId in w.db.ledger && rows[j].licenseId in w.db.ledger
      ensures FleetRuns.HeadOf(w, rows[i].licenseId) != FleetRuns.HeadOf(w, rows[j].licenseId)
    {
      assert rows[i] in rows && rows[j] in rows;
    }
  }

  /** A customer's view is that customer's part of the roster, newest first. */
  lemma CustomerIsPartOfRoster(db: Db, scan: seq<string>, customerId: string, all: bool)
    requires Keyed(db) && Scans(scan, db)
    ensures forall id :: id in scan ==> id in db.ledger
    ensures var rows := ByCustomer(db, scan, customerId, all);
            && (forall r :: r in rows <==> r in Roster(db, scan, all) && r.customerId == customerId)
            && (forall i, j :: 0 <= i < j < |rows| ==> rows[i].issuedAt >= rows[j].issuedAt && rows[i].licenseId != rows[j].licenseId)
  {
    var keep := Customers(customerId, all);
    SelectLists(db, scan, Shown(all), ByCustomerThenIssued);
    SelectLists(db, scan, keep, NewestIssued);
    SortedInOrder(Where(Table(db, scan), keep), NewestIssued);
  }

  // ---------------------------------------------------------------- derived status

  datatype Status = Revoked | Perpetual | Expired | Expiring | Live

  function DeriveStatus(row: Row, withinDays: int, now: Time): Status {
    if row.revokedAt.Some? then Revoked
    else if row.expiresAt.None? then Perpetual
    else if row.expiresAt.value <= now then Expired
    else if (row.expiresAt.value - now) / DAY <= withinDays then Expiring
    else Live
  }

  /** How close to its end a status says the licence is. */
  function Rank(s: Status): nat {
    match s
    case Live => 0
    case Expiring => 1
    case Expired => 2
    case _ => 3
  }

  /** `(expires - now).days <= n` looks at whole days, so it looks one day further than the window. */
  lemma FloorDays(gap: int, n: int)
    ensures gap / DAY <= n <==> gap < (n + 1) * DAY
  {
    assert gap == DAY * (gap / DAY) + gap % DAY;
  }

  /** For a current row the expiry window and the status differ by less than a day: in the window of
      `n` days means expired or expiring at `n`, which means in the window of `n + 1` days; and a row
      is shown as expiring without being in the window exactly in the last, unfinished day. */
  lemma StatusVersusWindow(row: Row, n: nat, now: Time)
    requires Current(row)
    ensures InWindow(row, n, now) ==> DeriveStatus(row, n, now) in {Expired, Expiring}
    ensures DeriveStatus(row, n, now) in {Expired, Expiring} ==> InWindow(row, n + 1, now)
    ensures DeriveStatus(row, n, now) in {Expired, Expiring} && !InWindow(row, n, now)
       <==> row.expiresAt.Some? && now + n * DAY < row.expiresAt.value < now + (n + 1) * DAY
  {
    if row.expiresAt.Some? {
      FloorDays(row.expiresAt.value - now, n);
      assert 0 <= n * DAY;
    }
  }

  /** The status of a row that nobody touches never moves backwards, and a wider threshold never
      makes it look further from its end. */
  lemma StatusNeverMovesBack(row: Row, n: int, m: int, now: Time, later: Time)
    requires n <= m && now <= later
    ensures Rank(DeriveStatus(row, n, now)) <= Rank(DeriveStatus(row, m, later))
    ensures DeriveStatus(row, n, now) in {Revoked, Perpetual} ==> DeriveStatus(row, m, later) == DeriveStatus(row, n, now)
    ensures Rank(DeriveStatus(row, n, now)) < 3 ==> Rank(DeriveStatus(row, m, later)) < 3
  {
    if row.expiresAt.Some? {
      FloorDays(row.expiresAt.value - now, n);
      FloorDays(row.expiresAt.value - later, m);
      assert (n + 1) * DAY <= (m + 1) * DAY;
    }
  }

  lemma CalendarOrder(db: Db, scan: seq<string>, n: nat, now: Time)
    requires Keyed(db) && Scans(scan, db)
    ensures forall id :: id in scan ==> id in db.ledger
    ensures InOrder(ExpiringSoon(db, scan, n, now, false), SoonestExpiry)
  {
    TableLists(db, scan);
    assert forall id :: id in scan <==> id in db.ledger;
    SortedInOrder(Where(Table(db, scan), Ending(n, now, false)), SoonestExpiry);
  }

  /** The expiry calendar lists the current rows in the window, soonest first, and shows each as
      expired or expiring. */
  lemma CalendarShowsOnlyEnding(db: Db, scan: seq<string>, n: nat, now: Time)
    requires Keyed(db) && Scans(scan, db)
    ensures forall id :: id in scan ==> id in db.ledger
    ensures var rows := ExpiringSoon(db, scan, n, now, false);
            && (forall r :: r in rows <==> r in Roster(db, scan, false) && InWindow(r, n, now))
            && (forall r :: r in rows ==> DeriveStatus(r, n, now) in {Expired, Expiring})
            && InOrder(rows, SoonestExpiry)
  {
    SelectLists(db, scan, Shown(false), ByCustomerThenIssued);
    SelectLists(db, scan, Ending(n, now, false), SoonestExpiry);
    CalendarOrder(db, scan, n, now);
    var rows := ExpiringSoon(db, scan, n, now, false);
    forall r | r in rows ensures DeriveStatus(r, n, now) in {Expired, Expiring} { StatusVersusWindow(r, n, now); }
  }
}
