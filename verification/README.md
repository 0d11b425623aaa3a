# Verification of the platform's stateful components

A Dafny 4.11 model of the components of this repository that keep state of their own, and proofs of
what they promise over every run. `dafny verify dfyconfig.toml` checks the project.

- **Fleet console** (`FleetLedger`, `TelemetryIntake`, `FleetRuns`, `FleetQueries`, `FleetShowback`).
  A database of three tables. Each transaction is one atomic step that commits as a whole or leaves
  the tables alone. Signing and HMAC are symbolic or given as functions; ids and secrets that are
  minted are arbitrary, and the primary keys refuse collisions. Times are microseconds.
  `FleetRuns.World` carries the history a run needs: insertion order, issues, rotated-out ids.
  Licences form disjoint lineages, each with one head; no two licences share a telemetry secret;
  every stored record was signed under the secret of its licence at that time. The queries take the
  order in which the database walks a table as a parameter, so that ties come in any order.
- **In-memory cache** (`TimedCache`, `CacheRefinement`, `CacheTenants`, `CacheScan`, `Globs`,
  `MemoryClient`, `TenantKeys`). `TimedCache.Exec` is the two dictionaries with lazy expiry and a sweep;
  `TimedCache.Ideal` is a plain map with deadlines. `CacheRefinement.Faithful` says of each
  operation when the first acts as the second, and `StepRefines` proves both directions.
- **Loki client** (`LokiGrouping`, `LokiBuffer`). A producer and any number of suspended flushes.
  A step is a stretch of code between two suspensions.
- **NATS client** (`NatsRecovery`, `NatsErrors`). A reconnect lock with any number of waiting tasks,
  link failures, and callbacks at any time.
- **Local object storage** (`Paths`, `LocalStorage`, `StoragePlaces`, `StorageRefinement`,
  `StorageRuns`, `StorageListing`, `LocalClient`, `NameNormaliser`). A disk of files and directories
  against a map from bucket and key to objects. Which file a bucket and a key are is worked out as
  the file system does it; `StorageRefinement.Faithful` says when an operation acts as on the map.
  The name clean-up is shared with MinIO.
- **Chroma client** (`ChromaPayload`, `ChromaPaging`). The payload encoding and paging over ranked
  results.
- **JSON and text** (`Json`, `JsonRoundTrip`, `JsonWellFormed`, `CanonicalJson`, `Numerals`,
  `Ordering`, `OrderBy`, `Common`). A printer and a reader after Python's `json`, whose text format
  is RFC 8259 (sections 4, 5 and 7 for objects, arrays and strings), and the facts the components
  above rest on.

Code that changes fields is modelled by classes whose methods are proved against functions of the
old state, and the theorems are about those functions.

Where the code departs from its documentation, the model follows the code, and the exact condition
is proved:

- `expire`, `incr`, `delete`, `delete_many`, `hset`, `hdel`, `lpush`, `rpush` and `ttl` do not see
  that a stored key has expired (`CacheRefinement.StepRefines`, `StaleExamples`).
- A score threshold of 0.0 switches the filter off (`ChromaPaging.PageIsWanted`).
- A string that is JSON text comes back parsed, and None comes back as the empty string
  (`ChromaPayload.PayloadRoundTrip`).
- Moving an object onto itself deletes it (`StorageRuns.MoveConserves`).
- The clean-up leaves slashes, `.`, `..` and the empty name in a bucket, and then its files are other
  buckets' files or nobody's (`StoragePlaces.OwnPlace`, `OneFile`, `OwnFiles`;
  `StorageRefinement.StepRefines`).
- A MinIO bucket name does not tell where the user ends (`NameNormaliser.NamesMeet`).
- A key that already starts with its prefix is stored as it is (`TenantKeys.UnprefixUndoesPrefix`).
- Two tenants are isolated exactly when neither prefix starts the other
  (`CacheTenants.IsolatedIffApart`). Different tenants with separator-free ids are, and no tenant is
  isolated from all others: the flush of user `y` empties the view of user `y:z`
  (`CacheTenants.FlushReachesExtension`). Two tenants can even have one prefix
  (`TenantKeys.OwnPrefix`, `SharedPrefix`).
- A slash in a user's id puts that user's directory inside another's
  (`LocalClient.UsersNested`, `SlashNests`).
- `keys` and `scan` read a tenant's ids as part of a pattern (`CacheScan.PatternsMatchOwn`).
- A failed Loki flush does not put its entries back into the batch; it retries them itself and then drops
  them (`LokiBuffer.RetrySendsSamePayload`, `PayloadNeverChanges`).
- A day count rounded down calls a licence expiring up to a day before the expiry window does
  (`FleetQueries.StatusVersusWindow`).

## Model

| member | source | states |
|---|---|---|
| `FleetRuns.RunKeeps` | fleet/fleet_console/issuance.py:176-309 | every sequence of issue, renew, revoke, rotate-and-repoint and ingest, with arbitrary commit failures, keeps: successors exist, come later and are shared by no two rows; as many heads as issues; every row points to a stored secret that names the row; rotated-out credentials are not stored |
| `FleetRuns.StepKeeps` | fleet/fleet_console/issuance.py:176-309 | one transaction keeps that invariant, whatever its arguments |
| `FleetRuns.Lineages` | fleet/fleet_console/issuance.py:218-280 | in every reachable ledger each row leads to one head, two rows have the same head exactly when one leads to the other, and the number of chains is the number of licences issued |
| `FleetRuns.ReachesLater` | fleet/fleet_console/issuance.py:276-279 | following successors goes forward in insertion order, so supersession has no cycle |
| `FleetRuns.CommonSuccessor` | fleet/fleet_console/issuance.py:236-240 | two rows that lead to a common row are on one line: refusing to renew a superseded row keeps `superseded_by` injective |
| `FleetRuns.SecretsNotShared` | fleet/fleet_console/telemetry_credential.py:153-172 | no two ledger rows point to one telemetry secret |
| `FleetRuns.RotationRetires` | fleet/fleet_console/telemetry_credential.py:216-241 | rotate-then-repoint retires the old credential, stores the new one for the same licence and customer, and leaves every other row and its secret alone |
| `FleetRuns.RecordOrigin` | fleet/fleet_console/intake.py:217-246 | for every stored telemetry record there is a step of the run, through either entrypoint, that committed this very record, and at which it was signed under the secret that then belonged to its licence |
| `FleetRuns.RotatedOutRefused` | fleet/fleet_console/telemetry_credential.py:193-210 | in every reachable state a bundle naming a rotated-out credential is refused with 401 and stores nothing |
| `FleetLedger.IssueBothOrNeither` | fleet/fleet_console/issuance.py:176-216 | artifact and ledger row agree field by field, and the row points to the secret stored with it; the artifact is handed out exactly when both are stored, a transaction being one step |
| `FleetLedger.RenewBothOrNeither` | fleet/fleet_console/issuance.py:218-280 | the prior row, which had no successor, points to the new row, artifact and row agree, and no third row changes; a transaction is one step |
| `FleetLedger.IssuanceService.Issue` | fleet/fleet_console/issuance.py:176-216 | issue in place: order of the checks, both inserts, the answer |
| `FleetLedger.IssuanceService.Renew` | fleet/fleet_console/issuance.py:218-280 | renew in place: carry-forward of customer and edition, the four refusals, both inserts and the back pointer |
| `FleetLedger.IssuanceService.Revoke` | fleet/fleet_console/issuance.py:282-309 | revoke in place: refuses unknown, superseded and already revoked rows, otherwise sets the two markers only |
| `FleetLedger.IssuanceService.RotateAndRepoint` | fleet/fleet_console/telemetry_credential.py:216-241 | rotation in place: delete the old secret, store the new one, repoint the row |
| `TelemetryIntake.AcceptedIffAuthenticated` | fleet/fleet_console/intake.py:141-246 | a bundle is persisted exactly when it commits and is authenticated by the stored credential it names over the canonical text of its payload, for a known licence that pins no other credential; otherwise nothing changes |
| `TelemetryIntake.UnknownCredentialRefused` | fleet/fleet_console/intake.py:141-157 | an unknown credential is a 401, whatever the rest of the bundle says |
| `TelemetryIntake.SignedTextCoversPayload` | fleet/fleet_console/intake.py:132-138 | two payloads have the same signed text exactly when they are equal up to the order of keys, at every depth |
| `TelemetryIntake.HeldWellFormed` | fleet/fleet_console/intake.py:107-138 | what Python holds of a parsed payload prints to JSON again, if it prints floats as floats |
| `TelemetryIntake.OneSignedText` | fleet/fleet_console/intake.py:107-157 | two parsed bundles, whatever their raw texts, have one signed text exactly when their payloads are equal up to key order |
| `TelemetryIntake.ReorderedIsAccepted` | fleet/fleet_console/intake.py:141-157 | a bundle with the same credential, signature and payload up to key order is answered the same, where the schema answers the same |
| `TelemetryIntake.EntrypointsAgree` | fleet/fleet_console/intake.py:258-281 | the realtime and the offline entrypoint accept the same bundles and store the same record but for its source |
| `TelemetryIntake.Intake.Persist` | fleet/fleet_console/intake.py:171-214 | persist in place: 404, 403, failed commit, or one record appended |
| `TelemetryIntake.Intake.Ingest` | fleet/fleet_console/intake.py:217-246 | the pipeline in place: parse, authenticate, validate, persist, in that order |
| `FleetQueries.RosterIsLiveHeads` | fleet/fleet_console/queries.py:28-41 | wherever the run invariant holds, so in every reachable ledger, the roster is exactly the non-revoked heads, each once, ordered by customer and issue time; no two rows are of one lineage |
| `FleetQueries.CustomerIsPartOfRoster` | fleet/fleet_console/queries.py:44-60 | a customer's view is that customer's part of the roster, each licence once, newest first |
| `FleetQueries.StatusVersusWindow` | fleet/fleet_console/api.py:136-150 | in the window of N days implies expired or expiring at N, which implies in the window of N + 1 days; the two differ exactly in the last unfinished day |
| `FleetQueries.StatusNeverMovesBack` | fleet/fleet_console/api.py:119-150 | as time passes or the threshold widens, the status of an unchanged row never moves back, and revoked and perpetual stay what they are |
| `FleetQueries.CalendarShowsOnlyEnding` | fleet/fleet_console/queries.py:63-92 | the expiry calendar is the part of the roster in the window, soonest first, and each row in it is shown as expired or expiring |
| `FleetShowback.LastSeenPerDeployment` | fleet/fleet_console/telemetry_queries.py:57-124 | the loop over the left join computes one status per joined row |
| `FleetShowback.EveryLicenseOnce` | fleet/fleet_console/telemetry_queries.py:74-124 | each current licence is reported exactly once, by customer and licence, with the time of its newest record, and is silent exactly when no record of it is recent enough |
| `FleetShowback.LatestIsLastSeen` | fleet/fleet_console/telemetry_queries.py:46-54 | ordering by last_seen and taking the first row finds a newest record of the licence, or none exactly when it has none, whatever order the table is walked in |
| `FleetShowback.JoinAgreesWithLatest` | fleet/fleet_console/telemetry_queries.py:77-90 | the group-by maximum and the per-licence query name the same time |
| `FleetShowback.Showback` | fleet/fleet_console/api.py:444-498 | one row per current licence, with the edition of the ledger and never the default; state "none" exactly when silent, with the matching note and no usage; otherwise the usage of a newest record |
| `FleetShowback.ShowbackIsHonest` | fleet/fleet_console/api.py:456-498 | the same for one row at a time: what a showback row claims follows from the ledger row and the stored records |
| `FleetShowback.EveryRowEnriched` | fleet/fleet_console/api.py:376-392 | looking a roster row up in the silence report never misses: every row shown carries the status of its own licence |
| `FleetShowback.GetCustomer` | fleet/fleet_console/api.py:394-431 | 404 exactly when the customer has no row; otherwise the rows in order with their enrichment, and the module list the loops build |
| `FleetShowback.UnionInOrder` | fleet/fleet_console/api.py:424-428 | the module list has each entitled module once, loses none, and keeps the order of first appearance |
| `CacheRefinement.RunRefines` | isA_common/isa_common/async_memory_client.py:98-211 | over every run with a non-decreasing clock, with sweeps and lazy drops anywhere, every answer and the view at every later time are those of a plain timed map |
| `CacheRefinement.StepRefines` | isA_common/isa_common/async_memory_client.py:144-587 | each of the 21 operations agrees with the timed map if and only if a condition holds that can be read off the tables before the call |
| `CacheRefinement.ReapInvisible` | isA_common/isa_common/async_memory_client.py:166-172 | dropping an expired key on access changes the view at no present or future time |
| `CacheRefinement.SweepInvisible` | isA_common/isa_common/async_memory_client.py:98-107 | nor does the background sweep |
| `CacheRefinement.LiveLater` | isA_common/isa_common/async_memory_client.py:109-114 | the view at a later time is the earlier view without the entries whose time has passed |
| `CacheRefinement.StepBounded` | isA_common/isa_common/async_memory_client.py:246-263 | every operation keeps the expiry table within the stored keys, although incr writes no expiry |
| `CacheRefinement.ActiveKeysAreLive` | isA_common/isa_common/async_memory_client.py:593-611 | stored keys less expired keys is the number of live keys |
| `CacheRefinement.BlindWriteAgrees` | isA_common/isa_common/async_memory_client.py:246-263 | incr, hset, lpush and rpush agree with the timed map exactly on keys that are not expired and still stored |
| `CacheRefinement.ExpireAgrees` | isA_common/isa_common/async_memory_client.py:231-244 | expire agrees exactly when the key is not expired and still stored and the new deadline is after time zero |
| `CacheRefinement.PopAllAgrees` | isA_common/isa_common/async_memory_client.py:311-328 | delete_many removes the right keys; its count is the number of live keys removed exactly when none of them was expired |
| `CacheRefinement.StaleExamples` | isA_common/isa_common/async_memory_client.py:213-263 | three concrete departures: an increment lost to an old deadline, an expired key revived by expire, and ttl answering -2 before and -1 after the sweep |
| `CacheRefinement.IncrementsAdd` | isA_common/isa_common/async_memory_client.py:246-263 | two increments add up: the decimal text written by one is read back by the next |
| `CacheScan.MatchingIsLive` | isA_common/isa_common/async_memory_client.py:334-352 | keys lists exactly the live matching keys, each once, in any dictionary order |
| `CacheScan.PatternsMatchOwn` | isA_common/isa_common/async_memory_client.py:334-378 | patterns of a tenant match just its own keys by their own names if and only if its prefix has none of the characters `*`, `?` and `[` |
| `CacheScan.ListingIsOwn` | isA_common/isa_common/async_memory_client.py:334-378 | for such a tenant a listing is the live keys under its prefix whose bare names match the bare pattern |
| `CacheScan.ListsNoneOfApart` | isA_common/isa_common/async_memory_client.py:334-378 | no pattern of such a tenant lists any key of another if and only if neither prefix starts the other |
| `CacheScan.StarListsEveryone` | isA_common/isa_common/async_memory_client.py:334-378 | a user whose id is a star lists the keys of every user of the organisation |
| `Globs.LiteralIffItself` | isA_common/isa_common/async_memory_client.py:338-345 | a prefix stands for itself in every fnmatch pattern if and only if it has no special character |
| `CacheScan.ScanCoversAll` | isA_common/isa_common/async_memory_client.py:354-378 | following the cursor from 0 back to 0 on an unchanged store takes ceil(n / count) calls, one when n is 0, and the batches joined are the listing |
| `CacheTenants.IsolatedIffApart` | isA_common/isa_common/async_memory_client.py:144-587 | no operation of one tenant but flush_all, on any store and at any time, changes what another sees, then or later, if and only if neither prefix starts the other |
| `CacheTenants.OtherTenantUnaffected` | isA_common/isa_common/async_memory_client.py:144-587 | the one direction: between tenants neither of whose prefixes starts the other, no operation but flush_all changes what the other sees, now or later |
| `CacheTenants.ViewSurvivesOthers` | isA_common/isa_common/async_memory_client.py:144-587 | nor does any sequence of calls of such tenants |
| `CacheTenants.AnswersFromOwnView` | isA_common/isa_common/async_memory_client.py:144-587 | what a faithful operation answers a tenant depends only on what that tenant sees |
| `CacheTenants.FlushRemovesExactlyOwn` | isA_common/isa_common/async_memory_client.py:380-395 | flush empties the view of the caller and leaves the rest of the store as it was, at every time |
| `CacheTenants.FlushReachesExtension` | isA_common/isa_common/async_memory_client.py:380-395 | on every store the flush of any tenant also empties the view of the user whose id goes on with a separator |
| `TenantKeys.ApartIffNoSharedKey` | isA_common/isa_common/async_base_client.py:199-210 | neither prefix starts the other if and only if no stored key is under both |
| `TenantKeys.SeparatorFreeApart` | isA_common/isa_common/async_base_client.py:199-210 | for ids without the separator that is so exactly when the tenants differ |
| `TenantKeys.EveryPrefixExtended` | isA_common/isa_common/async_base_client.py:199-210 | every prefix starts the prefix of some other tenant |
| `TenantKeys.UnprefixUndoesPrefix` | isA_common/isa_common/async_base_client.py:212-236 | unprefix(prefix(k)) == k if and only if k does not start with the prefix, which the docstring promises for every k |
| `TenantKeys.StoredKey` | isA_common/isa_common/async_base_client.py:212-223 | two keys share a stored name exactly when they are equal or one is the other already prefixed |
| `TenantKeys.PrefixFree` | isA_common/isa_common/async_base_client.py:199-210 | for ids without the separator one prefix starts another only if the tenants are the same |
| `TenantKeys.OwnPrefix` | isA_common/isa_common/async_base_client.py:199-210 | no other tenant has the very same prefix if and only if the ids are free of the separator |
| `TenantKeys.OwnPrefixAmongClients` | isA_common/isa_common/async_base_client.py:79-80 | among clients, whose ids are never empty, no other has the very same prefix exactly when the only stray separators are at the very start and end |
| `TenantKeys.SharedPrefix` | isA_common/isa_common/async_base_client.py:199-210 | two tenants with one prefix |
| `MemoryClient.Client.Put` | isA_common/isa_common/async_memory_client.py:144-160 | set on the two tables: its whole effect and answer |
| `MemoryClient.Client.Read` | isA_common/isa_common/async_memory_client.py:162-177 | get, with the lazy drop |
| `MemoryClient.Client.Remove` | isA_common/isa_common/async_memory_client.py:179-193 | delete |
| `MemoryClient.Client.Has` | isA_common/isa_common/async_memory_client.py:195-211 | exists, with the lazy drop |
| `MemoryClient.Client.TimeToLive` | isA_common/isa_common/async_memory_client.py:213-229 | ttl, truncated toward zero |
| `MemoryClient.Client.SetTtl` | isA_common/isa_common/async_memory_client.py:231-244 | expire |
| `MemoryClient.Client.Increment` | isA_common/isa_common/async_memory_client.py:246-263 | incr and decr by way of the decimal text; text that is no number counts as 0 |
| `MemoryClient.Client.PutMany` | isA_common/isa_common/async_memory_client.py:273-287 | the mset loop |
| `MemoryClient.Client.ReadMany` | isA_common/isa_common/async_memory_client.py:289-309 | the mget loop reads what the tables held at the start although it drops expired keys on the way |
| `MemoryClient.Client.RemoveMany` | isA_common/isa_common/async_memory_client.py:311-328 | the delete_many loop and its count |
| `MemoryClient.Client.Keys` | isA_common/isa_common/async_memory_client.py:334-352 | the keys loop, with the prefix removed from each name |
| `MemoryClient.Client.Scan` | isA_common/isa_common/async_memory_client.py:354-378 | one scan call: the batch and the next cursor, and no drops |
| `MemoryClient.Client.FlushTenant` | isA_common/isa_common/async_memory_client.py:380-395 | the flush loop removes the keys under the prefix from both tables |
| `MemoryClient.Client.FlushEverything` | isA_common/isa_common/async_memory_client.py:397-409 | flush_all empties both tables |
| `MemoryClient.Client.SetField` | isA_common/isa_common/async_memory_client.py:415-436 | hset, replacing a value that is not a hash |
| `MemoryClient.Client.GetField` | isA_common/isa_common/async_memory_client.py:438-456 | hget, with the lazy drop |
| `MemoryClient.Client.GetFields` | isA_common/isa_common/async_memory_client.py:458-477 | hgetall, with the lazy drop |
| `MemoryClient.Client.DeleteField` | isA_common/isa_common/async_memory_client.py:479-493 | hdel |
| `MemoryClient.Client.PushHead` | isA_common/isa_common/async_memory_client.py:499-521 | the lpush loop inserts in argument order at the head |
| `MemoryClient.Client.PushTail` | isA_common/isa_common/async_memory_client.py:523-543 | rpush |
| `MemoryClient.Client.Range` | isA_common/isa_common/async_memory_client.py:545-568 | lrange with Python's slice rules, and -1 for the end |
| `MemoryClient.Client.Length` | isA_common/isa_common/async_memory_client.py:570-587 | llen, with the lazy drop |
| `MemoryClient.Client.RemoveExpired` | isA_common/isa_common/async_memory_client.py:98-107 | the sweep loop removes exactly the expired keys |
| `MemoryClient.Client.GetStats` | isA_common/isa_common/async_memory_client.py:593-611 | the three counts; the active one is the number of live keys |
| `LokiBuffer.RunAccounted` | isA_common/isa_common/async_loki_client.py:127-265 | over every interleaving of pushes, flushes and post outcomes, pushed entries are the acknowledged, dropped, in-flight and batched ones, as multisets; the drop counter counts the dropped; the batch stays below its size at every suspension; no batch is posted more often than allowed |
| `LokiBuffer.AcknowledgedOnce` | isA_common/isa_common/async_loki_client.py:242-265 | a message pushed once is acknowledged at most once and never also dropped |
| `LokiBuffer.DropCountExact` | isA_common/isa_common/async_loki_client.py:258-265 | the drop counter is the number of dropped messages, and with nothing buffered or in flight it is what was not acknowledged |
| `LokiBuffer.RetrySendsSamePayload` | isA_common/isa_common/async_loki_client.py:212-265 | a failed post leaves the buffer alone: a retry posts the same streams, and after the last attempt the batch is dropped |
| `LokiBuffer.PayloadNeverChanges` | isA_common/isa_common/async_loki_client.py:212-265 | however pushes, other flushes and failed attempts are interleaved, a flight in progress still posts the streams of the batch it took |
| `LokiBuffer.RunProper` | isA_common/isa_common/async_loki_client.py:127-159 | over every run no entry, buffered or in flight, has a label twice, which the grouping needs |
| `LokiBuffer.CountValues` | isA_common/isa_common/async_loki_client.py:259-260 | the loop that counts dropped lines |
| `LokiBuffer.LokiClient.PushLog` | isA_common/isa_common/async_loki_client.py:127-159 | push_log up to its first suspension: labels merged over the defaults, timestamp, append, flush when full |
| `LokiBuffer.LokiClient.BeginFlush` | isA_common/isa_common/async_loki_client.py:212-222 | the batch is swapped out before the first suspension |
| `LokiBuffer.LokiClient.Payload` | isA_common/isa_common/async_loki_client.py:228-240 | the payload posted is a stable partition of the batch |
| `LokiBuffer.LokiClient.Resume` | isA_common/isa_common/async_loki_client.py:242-265 | the rest of an attempt, and what the coroutine returns |
| `LokiGrouping.GroupByLabels` | isA_common/isa_common/async_loki_client.py:228-240 | the grouping loop computes the streams keyed by the sorted text of the labels |
| `LokiGrouping.GroupingIsPartition` | isA_common/isa_common/async_loki_client.py:182-240 | one stream for each distinct label map, and its values are those of the entries with these labels, in order |
| `LokiGrouping.LabelKeyIffSameMap` | isA_common/isa_common/async_loki_client.py:373-376 | two label dicts have the same key text exactly when they are the same mapping, whatever their insertion orders |
| `LokiGrouping.MergedMap` | isA_common/isa_common/async_loki_client.py:145 | merging labels over the defaults is map override |
| `CanonicalJson.SortedTextIffSame` | fleet/fleet_console/intake.py:132-138 | sorted-key JSON text is the same for two values exactly when they are equal up to key order, for both separator styles |
| `JsonRoundTrip.LoadsDumps` | isA_common/isa_common/async_chroma_client.py:549-582 | json.loads undoes json.dumps on every value, character escapes, numbers and nesting included |
| `JsonWellFormed.LoadsWellFormed` | isA_common/isa_common/async_chroma_client.py:565-582 | whatever json.loads returns is a value that the round trip covers: no object has a key twice, and each float has the text of one |
| `StorageRuns.StoreIsMap` | isA_common/isa_common/async_local_storage_client.py:230-537 | starting from an empty disk, every run of put, get, info, delete, copy and move answers as a map from bucket and key to objects and ends in its objects, provided that the cleaned-up bucket names are non-empty, without a slash and neither `.` nor `..`, and that no file used, nor its sidecar, is a directory on the way to another; keys that leave their bucket are refused on both sides |
| `StorageRuns.RunRefines` | isA_common/isa_common/async_local_storage_client.py:230-537 | the same from any sound disk for runs whose every step is faithful |
| `StorageRefinement.StepRefines` | isA_common/isa_common/async_local_storage_client.py:230-537 | each of the six operations on files and sidecars agrees with the map if and only if a condition holds that can be read off the disk and the bucket name before the call |
| `StorageRefinement.PutStep` | isA_common/isa_common/async_local_storage_client.py:251-291 | a put, or the second half of a copy, changes the map as it should if and only if the key is refused or the bucket name is proper and nothing is in the way of the file and its sidecar |
| `StorageRefinement.DeleteAgrees` | isA_common/isa_common/async_local_storage_client.py:351-370 | a delete agrees exactly when no directory is in the way and, for an improper bucket name, it hits no other bucket's object |
| `StorageRefinement.MoveAgrees` | isA_common/isa_common/async_local_storage_client.py:526-537 | a move agrees exactly when the source is not there, or it is in a proper bucket and the destination can be written or is refused |
| `StorageRefinement.WrittenObjects` | isA_common/isa_common/async_local_storage_client.py:262-288 | writing a file and its sidecar changes the object at its place and no other |
| `StoragePlaces.OwnPlace` | isA_common/isa_common/async_local_storage_client.py:95-119 | the file of a bucket and a key is the one for that bucket and key if and only if the cleaned-up bucket name is proper: non-empty, without a slash, neither `.` nor `..` |
| `StoragePlaces.OneFile` | isA_common/isa_common/async_local_storage_client.py:105-119 | two locations are one file if and only if the names of bucket and key, put together, are the same |
| `StoragePlaces.OneFileOnePlace` | isA_common/isa_common/async_local_storage_client.py:105-119 | in buckets with proper names two locations are one file exactly when bucket and key are the same |
| `StoragePlaces.OwnFiles` | isA_common/isa_common/async_local_storage_client.py:95-119 | a bucket inside the user directory shares no file with another sub-directory if and only if its name is proper |
| `StoragePlaces.SlashBucket` | isA_common/isa_common/async_local_storage_client.py:95-119 | bucket `a/b` with key `k` and bucket `a` with key `b/k` are one file |
| `StoragePlaces.EmptyBucket` | isA_common/isa_common/async_local_storage_client.py:95-119 | a bucket name that cleans up to nothing writes into other buckets, and its own files belong to none |
| `Paths.OwnDirectory` | isA_common/isa_common/async_local_storage_client.py:95-103 | a cleaned-up name is a child directory under that very name if and only if it is a proper name |
| `LocalStorage.StepSound` | isA_common/isa_common/async_local_storage_client.py:230-537 | every operation, whatever it names and whether or not it succeeds, keeps the disk a disk: no path is both file and directory, files lie below directories, sidecars are where names say |
| `StorageRuns.OthersUnchanged` | isA_common/isa_common/async_local_storage_client.py:230-537 | a faithful operation leaves every object it does not name as it was |
| `StorageRuns.MoveConserves` | isA_common/isa_common/async_local_storage_client.py:526-537 | a move keeps the object, under its new location only, if and only if source and destination are two files; onto itself, however spelt, it deletes |
| `StorageListing.ListingIsBucket` | isA_common/isa_common/async_local_storage_client.py:463-491 | an unlimited listing of a bucket with a proper name enumerates the keys of its objects with the prefix, each once |
| `StorageListing.ListWalk` | isA_common/isa_common/async_local_storage_client.py:463-491 | the two nested loops stop at the limit and skip nothing before it |
| `StorageListing.ListedIsFound` | isA_common/isa_common/async_local_storage_client.py:480-483 | looking a listed key up finds the file that was listed |
| `StorageListing.CountFiles` | isA_common/isa_common/async_local_storage_client.py:580-590 | the statistics loops count the objects of the map and add up their sizes |
| `LocalClient.UserDirectory` | isA_common/isa_common/async_local_storage_client.py:84-93 | a user directory is a child of the base directory under its own name if and only if the user part has no slash |
| `LocalClient.UsersApart` | isA_common/isa_common/async_local_storage_client.py:84-93 | without slashes no user directory is or contains that of another |
| `LocalClient.UsersNested` | isA_common/isa_common/async_local_storage_client.py:84-93 | with slashes one user directory is or contains another if and only if its list of names begins the other list |
| `LocalClient.SlashNests` | isA_common/isa_common/async_local_storage_client.py:84-93 | every user without a slash has another whose directory is a sub-directory of its own, just where a bucket would be |
| `LocalClient.Client.GetObjectPath` | isA_common/isa_common/async_local_storage_client.py:105-119 | the traversal check: a path is handed out exactly when it lies in the directory of the bucket |
| `LocalClient.Client.CreateBucket` | isA_common/isa_common/async_local_storage_client.py:160-171 | makes the directory and those above it unless a file is in the way |
| `LocalClient.Client.PutObject` | isA_common/isa_common/async_local_storage_client.py:230-291 | put in place: bucket, traversal check, parent directories, file, content type by argument, guess or default, sidecar; each may fail |
| `LocalClient.Client.GetObject` | isA_common/isa_common/async_local_storage_client.py:293-317 | get |
| `LocalClient.Client.GetObjectInfo` | isA_common/isa_common/async_local_storage_client.py:399-439 | info from the sidecar, or made up without one, also for a directory |
| `LocalClient.Client.DeleteObject` | isA_common/isa_common/async_local_storage_client.py:351-370 | delete removes the file and its sidecar, succeeds on what is missing and fails on a directory |
| `LocalClient.Client.CopyObject` | isA_common/isa_common/async_local_storage_client.py:501-524 | copy as get, info and put |
| `LocalClient.Client.MoveObject` | isA_common/isa_common/async_local_storage_client.py:526-537 | move as copy and, when that succeeded, delete |
| `LocalClient.Client.ListObjects` | isA_common/isa_common/async_local_storage_client.py:441-495 | with a positive limit min(limit, matches) distinct keys of the bucket, never a sidecar |
| `LocalClient.Client.GetStats` | isA_common/isa_common/async_local_storage_client.py:570-602 | buckets are the sub-directories of the user directory; the totals are the number of objects and the sum of their sizes in the object map |
| `NameNormaliser.CollapseLoop` | isA_common/isa_common/async_local_storage_client.py:88-90 | the replace loop ends, and its result has every run of hyphens collapsed to one |
| `NameNormaliser.PassShortens` | isA_common/isa_common/async_local_storage_client.py:88-90 | each pass strictly shortens a name that still has a double hyphen |
| `NameNormaliser.PassKeepsName` | isA_common/isa_common/async_local_storage_client.py:88-90 | no pass changes what the name collapses to |
| `NameNormaliser.UserPartNormal` | isA_common/isa_common/async_local_storage_client.py:84-93 | every user part has no double hyphen, no edge hyphen, no underscore and no bar, and is its own user part |
| `NameNormaliser.BucketPartNormal` | isA_common/isa_common/async_local_storage_client.py:95-103 | every bucket part is normal; exactly the normal names are left alone; normalising twice is normalising once |
| `NameNormaliser.NameIsItsWords` | isA_common/isa_common/async_local_storage_client.py:84-103 | the clean-up is splitting at hyphens and joining the non-empty pieces; two names collide exactly when they have the same pieces |
| `NameNormaliser.GetUserPath` | isA_common/isa_common/async_local_storage_client.py:84-93 | the user directory |
| `NameNormaliser.GetBucketPath` | isA_common/isa_common/async_local_storage_client.py:95-103 | the user and bucket directories |
| `NameNormaliser.NamesMeet` | isA_common/isa_common/async_minio_client.py:115-130 | two pairs of user and bucket are one MinIO bucket if and only if both user parts or neither are empty, both bucket parts or neither are empty, and the hyphen-separated pieces of user and bucket, put together, are the same |
| `NameNormaliser.GetPrefixedBucketName` | isA_common/isa_common/async_minio_client.py:115-136 | MinIO computes the same user and bucket parts, joined by a hyphen |
| `NatsRecovery.OneReconnectPerOutage` | isA_common/isa_common/async_nats_client.py:130-165 | from a healthy connection, however many tasks fail and interleave, there are at most as many connects as outages; `_nc` is None exactly when `_js` is; the reconnect count is the recoveries and the automatic reconnects |
| `NatsRecovery.OneRecoveryPerOutage` | isA_common/isa_common/async_nats_client.py:130-149 | and at most as many recoveries as outages |
| `NatsRecovery.FirstConnect` | isA_common/isa_common/async_nats_client.py:151-165 | starting unconnected allows one connect more |
| `NatsRecovery.RunCoherent` | isA_common/isa_common/async_nats_client.py:130-234 | no sequence of steps makes a connection that no outage paid for |
| `NatsRecovery.WaiterRespectsHealth` | isA_common/isa_common/async_nats_client.py:137-142 | a waiter that finds the connection healthy under the lock leaves it alone; another tears it down, and ends with a healthy one if its connect succeeds |
| `NatsRecovery.NatsClient.Recovering` | isA_common/isa_common/async_nats_client.py:130-137 | a failed task counts its error and queues for the lock |
| `NatsRecovery.NatsClient.Ensuring` | isA_common/isa_common/async_nats_client.py:151-156 | a task queues for the lock only if the connection is unusable |
| `NatsRecovery.NatsClient.OnDisconnected` | isA_common/isa_common/async_nats_client.py:171-177 | the disconnect callback counts an error only if the client thought it was connected |
| `NatsRecovery.NatsClient.OnReconnected` | isA_common/isa_common/async_nats_client.py:180-185 | an automatic reconnect counts once and clears the error count |
| `NatsRecovery.NatsClient.OnClosed` | isA_common/isa_common/async_nats_client.py:187-189 | the close callback |
| `NatsRecovery.NatsClient.Enter` | isA_common/isa_common/async_nats_client.py:137-165 | what a task does on getting the lock |
| `NatsRecovery.NatsClient.FinishDisconnect` | isA_common/isa_common/async_nats_client.py:220-234 | the end of the disconnect |
| `NatsRecovery.NatsClient.FinishConnect` | isA_common/isa_common/async_nats_client.py:145-149 | the end of the connect, and the counters of a recovery |
| `NatsRecovery.NatsClient.OnError` | isA_common/isa_common/async_nats_client.py:191-198 | the error callback logs exactly at powers of two |
| `NatsErrors.LogsAtPowers` | isA_common/isa_common/async_nats_client.py:191-198 | n & (n - 1) == 0 holds exactly for powers of two |
| `NatsErrors.WarningsAreLogarithmic` | isA_common/isa_common/async_nats_client.py:191-198 | a run of m errors from zero logs floor(log2 m) + 1 warnings |
| `ChromaPayload.PayloadRoundTrip` | isA_common/isa_common/async_chroma_client.py:543-582 | a payload comes back from the store if and only if no top-level value is None or a string that is JSON text of an array or object |
| `ChromaPayload.LostPayloads` | isA_common/isa_common/async_chroma_client.py:543-582 | two payloads that do not come back |
| `ChromaPayload.FlattenPayload` | isA_common/isa_common/async_chroma_client.py:543-563 | the flatten loop |
| `ChromaPayload.UnflattenPayload` | isA_common/isa_common/async_chroma_client.py:565-582 | the unflatten loop |
| `ChromaPaging.PageIsWanted` | isA_common/isa_common/async_chroma_client.py:382-401 | over-fetching, filtering and slicing is slicing the filtered full ranking, if and only if the threshold is not 0.0 or the page holds no negative score |
| `ChromaPaging.ZeroThresholdIgnored` | isA_common/isa_common/async_chroma_client.py:632-669 | a threshold of 0.0 lets a negative score through |
| `ChromaPaging.SearchWithFilter` | isA_common/isa_common/async_chroma_client.py:340-404 | the search with over-fetch, filter and slice |
| `ChromaPaging.ParseSearchResults` | isA_common/isa_common/async_chroma_client.py:632-669 | the loop that scores, filters and unflattens |
| `ChromaPaging.Scroll` | isA_common/isa_common/async_chroma_client.py:406-469 | one scroll call: the page, each payload decoded, and the next offset |
| `ChromaPaging.ScrollCoversAll` | isA_common/isa_common/async_chroma_client.py:435-466 | following next_offset meets every point once and in order, in exactly n / limit + 1 calls |

## Left out

Assumptions of the model:

- Every cache operation reads the clock once; the source reads it once for each key it looks at.
- Dictionary, directory and table orders are parameters that enumerate what they must, in any order.
- `str.lower`, the character classes of `fnmatch`, `mimetypes`, MD5, HMAC-SHA256, ed25519 and the pydantic schema are given functions or opaque tokens.
- Text is made of Unicode scalar values: the JSON reader accepts the escape of a lone surrogate, as Python does, and puts a replacement character in its place, so texts that differ only there are one text; UTF-8 encoding is not modelled.
- A float in JSON is a literal; what Python prints for it is a given function in `TelemetryIntake` and the literal itself elsewhere. Scores, totals and clock readings are real numbers.
- JSON may nest to any depth; Python gives up at its recursion limit.
- Comparing signatures answers true or false; `compare_digest` raises on a signature with non-ASCII characters.
- `int(text)` is modelled for ASCII text and without Python's limit on the number of digits.
- Strings in the database compare by code point, as SQLite does; a Postgres collation could order customers otherwise.
- Database transactions are serialisable: two racing renewals of one row are not modelled.
- The Loki tasks are not cancelled; at disconnect an in-flight batch can vanish.
- The lock in the NATS client is the only writer of `_nc` and `_js`; an explicit close during a run is not modelled.
- The other NATS callbacks run at any time.

Weaker than the source:

- FleetLedger.IssuanceService.RotateAndRepoint: rotation and repointing are one transaction, as operators run them; `rotate_credential` alone leaves the commit and the repointing to its caller.
- TelemetryIntake.AcceptedIffAuthenticated: payloads that differ only in lone surrogates are one payload, which by the code have two signed texts.
- TelemetryIntake.Intake.Ingest: a credential id or signature in the envelope that is not a string counts as missing; timestamps the schema cannot read count as malformed.
- FleetShowback.Showback: notes are values and not sentences.
- LocalClient.Client.GetObjectInfo: leaves out `last_modified`, the modification time of the file.
- LocalClient.Client.ListObjects: returns the keys; size, time and tag of each entry are those of `GetObjectInfo`.
- LocalClient.Client.PutObject: writes both files in one call; a crash between them leaves a file without a sidecar, for which `GetObjectInfo` is specified. Modification times are not kept.
- LokiGrouping.GroupByLabels: `push_batch` posts its own streams at once and is modelled by the same grouping without its direct send.
- MemoryClient.Client.Read: returns a value; the dictionary or list that the source hands out is the stored one, and a caller that changes it changes the store.
- MemoryClient.Client.ReadMany: the same for each value.
- FleetLedger.IssueBothOrNeither: insert, flush and rollback are one step with one outcome, so that both rows or neither are stored is the database's promise; what is proved is that the artifact, the row and the secret fit together.
- FleetLedger.RenewBothOrNeither: the same.
- NatsRecovery.NatsClient.OnReconnected: the callback runs together with the reconnect it reports.

Not modelled:

- Rows written before telemetry credentials existed, whose secret id is NULL, are allowed by intake but no transaction of the model makes one.
- As objects of the map: keys that are not refused but step up with `..`, are absolute paths into their bucket, name the bucket itself or end in `.meta.json`; a `..` in a bucket name is resolved by text, where the file system also wants the directory before it to exist; symbolic links, names too long or with NUL; `delete_bucket`, streaming and presigned URLs.
- The NATS message counters of `pull_messages` and the durable consumer names: simple counts.
- The where-clause of a Chroma search, vectors and collections.
- Network drivers, routing, authentication of operators, tracing, logging texts and configuration.
- Brand, billing, MQTT, Postgres, Redis, Neo4j and DuckDB clients: they forward calls to drivers.
