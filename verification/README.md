# Coupon service: a model and its proofs

A Dafny model of a coupon service that redeems coupons concurrently over one PostgreSQL database,
decides where a request comes from, and packages its own source with a checksum manifest.

## What is modelled

**The database and the redemption protocol.** `Database.dfy` holds the two tables with one index
per unique constraint, the CHECK constraints of both migrations and the SQL statements.
`Protocol.dfy` is a state machine: committed tables, row locks, and one process per request, each
standing at a statement of the code. The step functions follow the code line by line:
`Snapshot` and `Resolve` are `RedeemCouponService.java:60-62`, `Lock`, `Check`, `Insert` and
`Update` are `TransactionalCouponRedemptionService.java:56-62` together with the SQL of
`JdbcCouponRedemptionRepository.java:39-81`, `Store` is `JdbcCouponRepository.java:52-71`. Each
statement sees the newest committed rows and the writes of its own transaction (section 13.2.1 of
the PostgreSQL documentation); `FOR UPDATE` waits and then reads the newest row; an INSERT waits
for another transaction's pending row with the same key, or for one that is changing the row that
holds the key. An adversary schedules the processes, makes any statement fail (BEGIN, COMMIT and
ROLLBACK included), and may lose the acknowledgement of a commit. A redemption ends in two moves:
COMMIT or ROLLBACK first, its counter and its reply later. What a request meets outside the database
(country, fresh identifier, clock) is part of the request, so every claim holds for every such
answer. `Serial` is the meaning of a request that runs alone; the log of a run orders requests by the
end of their transaction, or by the statement that decided them when nothing was locked or written.

Over this machine stand the invariant and rely/guarantee lemmas (`ProtocolInvariant`), serial
equivalence (`SerialEquivalence`), exact outcome counts (`Outcomes`, `ExactOutcomes`), dead defensive
branches (`Defenses`), progress (`Progress`), conservation of counters and rows (`Accounting`) and
concurrent creation (`Creation`). Three modules say what a run does without the constructors and
indexes the code works with: `Replies` holds the decision table of all replies, `StoredRows` which
redemption rows are there and what is in them, `CreatedCoupons` what a creation stores and how many
redemptions it then allows.

**The same code, imperatively.** `Sessions`, `SqlFailures`, `RedemptionService` and `CreationService`
hold the services and repositories as classes with the source's fields and control flow: the outcome
variable of try, catch and finally, the timer, the proxy that commits or rolls back, the counters.
They are proved against `Serial` under any interference that respects row locks and pending unique
keys; `Sessions.SegmentsAreTolerable` shows that the machine's other processes interfere only so.

**Client addresses.** `Splitting`, `Numerals`, `ClientIp`, `ForwardingHeaders`, `HeaderElements`,
`Cidr`, `PublicAddressPolicy` and `ClientIpResolver` model the quote-aware comma splitter, the subset
of RFC 7239 that is accepted, CIDR matching on sign-extended bytes, the deny table and the
right-to-left scan. As in the code, the comma split respects quotes and the semicolon split does not. Headers are arbitrary strings; `trim` and `isBlank` are modelled apart.

**The checksum manifest.** `Manifest` models the generator, the parser, the verification of a tree
and the order of archive entries, with the two different exclusion rules; `ManifestRules` says which
records, names, lines, orders and reasons they mean, in words of their own.

## Findings

Paths of Java files are below `src/main/java/pl/radoslawpiatek/couponservice/`.

- `coupon/application/CreateCouponService.java:68`: the counter of successful creations moves before the commit. `Creation.CreateCounterOvercounts` gives the exact condition under which it is right, `Creation.CreateCounterCounterexample` a failing run.
- `coupon/application/CreateCouponService.java:71`: the counter of creation conflicts moves before the rollback, so it counts one whose ROLLBACK fails, and whose caller is told of an internal error, as well. `Creation.ConflictCounter` gives the exact condition under which it is right, `Creation.ConflictCounterCounterexample` a failing run.
- `coupon/application/TransactionalCouponRedemptionService.java:63`: the transaction timer records success before the commit. `RedemptionService.TransactionalCouponRedemptionService.Redeem` says exactly when that record is followed by an error, `RedemptionService.TimerCounterexample` is such a call.
- `coupon/application/RedeemCouponService.java:64`: the counter of successful redemptions moves after the commit, so it lags behind the rows in between. `Accounting.SuccessCounterIsRows` gives the exact condition under which they agree, `Accounting.CounterLags` a run through such a moment for every redemption that can succeed.
- `coupon/adapters/persistence/JdbcCouponRepository.java:66`: every unique violation on creation is reported as a conflict of codes, a collision of identifiers too. `Creation.MisreportedConflict` says exactly when the report is wrong, `Creation.MisreportedConflictRun` is a run with a wrong report, and `Creation.ConflictsAreConflicts` shows that with fresh identifiers no report is wrong.
- `src/main/resources/db/migration/V1__create_coupon_tables.sql:21-22` against `coupon/domain/CountryCode.java:31`: the database accepts any two capital letters as a country, the row mapper only codes of the ISO list, so a stored row can be unreadable and its redemption counts as an internal error (`coupon/application/RedeemCouponService.java:81-82`). `Database.ReadableMeansListed` and `Defenses.InternalErrorsAreUnlisted` give the exact condition, `Defenses.NoInternalErrors` the condition on the database, `Defenses.UnlistedCountryCounterexample` a failing row.
- `scripts/package_source.py:85`: the parser cuts the manifest at every line end of `str.splitlines`, so a path with a line end is never accepted: exact condition `Manifest.GeneratedIsAccepted`, concrete path `Manifest.LineEndCounterexample`.
- `scripts/generate_checksums.py:41`: the manifest of a tree with no other file is one blank line, which its own parser refuses: `Manifest.GeneratedIsParsed`, concrete tree `Manifest.EmptyTreeCounterexample`.

## Model

The main results come first, then the results they rest on.

| member | source | states |
|---|---|---|
| SerialEquivalence.EveryRunIsSerial | src/main/java/pl/radoslawpiatek/couponservice/coupon/application/TransactionalCouponRedemptionService.java:51-64 | Serial equivalence: any interleaving of any number of redemptions and creations on any coupons, with faults and lost commit acknowledgements anywhere, leaves the tables and the replies of the one-step meaning applied in log order, faulted requests being no-ops; each finished request is logged once. |
| SerialEquivalence.SerialOrderRespectsRealTime | src/main/java/pl/radoslawpiatek/couponservice/coupon/application/TransactionalCouponRedemptionService.java:51-64 | The serial order never contradicts real time: a request that was over in the database (answered or not) while another one was not comes first. |
| ProtocolInvariant.EveryRunKeepsInv | src/main/resources/db/migration/V1__create_coupon_tables.sql:10-40 | In every reachable state, in the middle of transactions and after any fault: every key, unique, foreign-key and CHECK constraint holds, no (coupon, user) pair occurs twice, each `current_uses` equals the number of redemption rows of its coupon and lies in 0..`max_uses`. |
| ExactOutcomes.WinnersAreExact | src/test/java/pl/radoslawpiatek/couponservice/coupon/adapters/web/CouponRedemptionApiIT.java:72-126 | In every reachable state, with faults and other traffic allowed: the fresh users who got a coupon number exactly min(places left, fresh users logged), and every undisturbed attempt has the reply that this set of winners dictates. |
| ExactOutcomes.SuccessesAreExact | src/test/java/pl/radoslawpiatek/couponservice/coupon/adapters/web/CouponRedemptionApiIT.java:72-126 | Any number of undisturbed attempts for one coupon in any interleaving: once all have replies, the successes are exactly min(remaining capacity, distinct fresh users). |
| Replies.RepliesOfARun | src/main/java/pl/radoslawpiatek/couponservice/coupon/application/TransactionalCouponRedemptionService.java:55-64 | In every reachable state each settled request has the reply a decision table gives for the rows its place in the serial order finds, or an internal error if it did not leave the database normally. The table speaks of stored rows, users, counts and letters alone, without indexes, keys or constructors of the code. |
| StoredRows.ConstraintsOfARun | src/main/resources/db/migration/V1__create_coupon_tables.sql:10-40 | In every reachable state, in words of the rows alone: every row passes its checks (written out as in both migrations) and stands under its key, every redemption has its coupon, no two coupons have codes of the same letters up to case, nobody has two rows for one coupon, and every coupon counts its rows. |
| StoredRows.RowsOfARun | src/main/java/pl/radoslawpiatek/couponservice/coupon/application/TransactionalCouponRedemptionService.java:60-64 | In every reachable state the redemption rows are exactly those stored from the start and one for each logged request that took from a coupon: under its identifier, with the key and country of the coupon, its user and its instant; an undisturbed taker was told the identifier, user and instant of its row. |
| CreatedCoupons.CreatedAsAsked | src/main/java/pl/radoslawpiatek/couponservice/coupon/application/CreateCouponService.java:58-69 | In every reachable state the row under the code of the first creation filed has the identifier, instant, limit, trimmed code and listed country that creation asked for, and as many uses as redemption rows; an undisturbed reply names the same coupon with no uses. |
| CreatedCoupons.CreatedThenRedeemed | src/main/java/pl/radoslawpiatek/couponservice/coupon/application/CreateCouponService.java:58-64 | Across creation and redemption: of all users who tried for a coupon after it was created in the run, under any spelling of its code and from the country the creation named, exactly min(limit asked for, distinct users) redeemed it, with faults and other traffic allowed. |
| Creation.ExactlyOneCreates | src/main/java/pl/radoslawpiatek/couponservice/coupon/application/CreateCouponService.java:54-74 | Concurrent creations of one unused canonical code, interleaved with anything: of the undisturbed ones exactly the first logged succeeds, the rest conflict, and the code belongs to that coupon for good. |
| Creation.OneCreationSucceeds | src/main/java/pl/radoslawpiatek/couponservice/coupon/application/CreateCouponService.java:54-74 | In numbers: when an undisturbed run has answered everybody and at least one request was a valid creation of an unused code, exactly one reply says it was created. |
| Creation.ConflictsAreConflicts | src/main/java/pl/radoslawpiatek/couponservice/coupon/adapters/persistence/JdbcCouponRepository.java:66-70 | With fresh identifiers a conflict is what it says: in every reachable state, whoever was told of a code conflict asked for a code that belongs to a coupon. |
| Creation.MisreportedConflict | src/main/java/pl/radoslawpiatek/couponservice/coupon/adapters/persistence/JdbcCouponRepository.java:66-70 | Finding: a valid creation is told of a code conflict although its code is free if and only if the code is free and its identifier is taken. |
| Creation.MisreportedConflictRun | src/main/java/pl/radoslawpiatek/couponservice/coupon/adapters/persistence/JdbcCouponRepository.java:66-70 | A concrete run: DEF is free, identifier 7 is taken, and the creation of DEF is told that its code is in conflict. |
| Creation.CreateCounterOvercounts | src/main/java/pl/radoslawpiatek/couponservice/coupon/application/CreateCouponService.java:66-69 | Finding: the success counter of creation moves before the commit. It equals the new coupons plus those awaiting COMMIT plus the failed COMMITs; at rest it is right if and only if no COMMIT of a creation failed. |
| Creation.CreateCounterCounterexample | src/main/java/pl/radoslawpiatek/couponservice/coupon/application/CreateCouponService.java:66-69 | A concrete run: one valid creation whose COMMIT fails leaves the counter at one and no coupon. |
| Creation.ConflictCounter | src/main/java/pl/radoslawpiatek/couponservice/coupon/application/CreateCouponService.java:70-72 | Finding: the conflict counter of creation moves before the rollback. In every reachable state it equals the creations told, or about to be told, of a conflict plus the failed ROLLBACKs of creations; at rest it is right if and only if no such ROLLBACK failed. |
| Creation.ConflictCounterCounterexample | src/main/java/pl/radoslawpiatek/couponservice/coupon/application/CreateCouponService.java:70-72 | A concrete run: a creation whose identifier is taken and whose ROLLBACK fails is counted as a conflict and told of an internal error. |
| Progress.NoReachableCycle | src/main/java/pl/radoslawpiatek/couponservice/coupon/adapters/persistence/JdbcCouponRedemptionRepository.java:39-41 | No reachable state has a circle of requests waiting for each other, over row locks and pending unique keys together. |
| Progress.EveryRunIsShort | src/main/java/pl/radoslawpiatek/couponservice/coupon/application/TransactionalCouponRedemptionService.java:51-64 | A run of n requests has at most ten moves each, whatever the schedule and the faults. |
| Progress.AllCanFinish | src/test/java/pl/radoslawpiatek/couponservice/coupon/adapters/web/CouponRedemptionApiIT.java:128-148 | From every state the invariant allows, crashes in progress included, all requests can be finished without another fault. |
| Progress.AloneToTheEnd | src/test/java/pl/radoslawpiatek/couponservice/coupon/adapters/web/CouponRedemptionApiIT.java:128-148 | A request nobody obstructs runs to its reply on its own while any other transactions stay open: a redemption needs only that nobody else holds the lock of its coupon or an uncommitted row with its identifier, a creation only that nobody holds an uncommitted coupon with its key or code or is changing the stored one. |
| Defenses.RecheckNeverFails | src/main/java/pl/radoslawpiatek/couponservice/coupon/application/RedeemCouponService.java:60-63 | Snapshot stability: once the unlocked check has passed, the not-found, readability and country rechecks under the lock cannot fail. |
| Defenses.InsertNeverFails | src/main/java/pl/radoslawpiatek/couponservice/coupon/adapters/persistence/JdbcCouponRedemptionRepository.java:57-70 | With fresh identifiers the INSERT after the checks violates nothing and waits for nobody: the unique-violation branch is dead. |
| Defenses.IncrementNeverEmpty | src/main/java/pl/radoslawpiatek/couponservice/coupon/adapters/persistence/JdbcCouponRedemptionRepository.java:73-81 | The conditional UPDATE always returns a row, one above the locked copy and within the limit: the empty branch is dead. |
| Defenses.InternalErrorsAreUnlisted | src/main/java/pl/radoslawpiatek/couponservice/coupon/application/RedeemCouponService.java:57-84 | In any undisturbed run with fresh identifiers, the requests told an internal error are exactly the valid redemptions of a coupon stored from the start with a country that is not on the ISO list. |
| Defenses.NoInternalErrors | src/main/java/pl/radoslawpiatek/couponservice/coupon/application/RedeemCouponService.java:57-84 | A legal database gives rise to no internal error, in any undisturbed run of any requests with fresh identifiers, if and only if every stored country is on the ISO list. |
| Defenses.UnlistedCountryCounterexample | src/main/java/pl/radoslawpiatek/couponservice/coupon/domain/CountryCode.java:25-38 | A concrete run: the row ABC with country ZZ satisfies every CHECK, and redeeming ABC alone and undisturbed ends in an internal error. |
| Accounting.CountersConserveAttempts | src/main/java/pl/radoslawpiatek/couponservice/coupon/application/RedeemCouponService.java:57-84 | In every reachable state each redemption counter equals the requests given that reply, and together they equal the answered requests that passed validation. |
| Accounting.CountersByReply | src/main/java/pl/radoslawpiatek/couponservice/coupon/application/RedeemCouponService.java:63-84 | Reply by reply: in every reachable state each redemption counter equals the number of redemptions given the reply it is named after. |
| Accounting.RowsAreCounted | src/main/java/pl/radoslawpiatek/couponservice/coupon/application/RedeemCouponService.java:63-64 | In every reachable state the redemption rows committed during the run equal the successes counted, plus the acknowledged redemptions between their COMMIT and their counter, plus the commits whose acknowledgement was lost. |
| Accounting.SuccessCounterIsRows | src/main/java/pl/radoslawpiatek/couponservice/coupon/application/RedeemCouponService.java:63-64 | With reliable acknowledgements the success counter is never ahead of the rows, and it equals the rows committed if and only if no request stands between its COMMIT and its counter. |
| Accounting.CounterLags | src/main/java/pl/radoslawpiatek/couponservice/coupon/application/RedeemCouponService.java:63-64 | Finding: every redemption that can succeed has an undisturbed run, alone, through a state in which its row is committed and no success is counted. |
| Accounting.RemainingUsesOfARun | src/main/java/pl/radoslawpiatek/couponservice/coupon/application/TransactionalCouponRedemptionService.java:62-64 | The same for runs: each undisturbed request that took from the coupon has a reply that says capacity minus one minus the number of takers before it in commit order. |
| RedemptionService.TransactionalCouponRedemptionService.Redeem | src/main/java/pl/radoslawpiatek/couponservice/coupon/application/TransactionalCouponRedemptionService.java:51-80 | Through the proxy, with BEGIN, COMMIT and ROLLBACK among the statements that may fail: tables and reply are the serial meaning on the tables seen at one moment; afterwards nothing is locked or pending. Without BEGIN there is no timer record; otherwise exactly one, of what the statements before COMMIT or ROLLBACK decided. Finding: so a record of success comes with an error reply exactly when the commit failed or its acknowledgement was lost. |
| RedemptionService.TimerCounterexample | src/main/java/pl/radoslawpiatek/couponservice/coupon/application/TransactionalCouponRedemptionService.java:53-79 | A concrete call: COMMIT fails, the caller gets an error, no row is stored, and the timer holds one record, of success. |
| RedemptionService.RedeemCouponService.Redeem | src/main/java/pl/radoslawpiatek/couponservice/coupon/application/RedeemCouponService.java:55-85 | The use case as a whole: tables and reply are the serial meaning at one moment, exactly the counter of the reply has moved, a command issues no statement exactly when it is invalid, a resolver that throws opens no transaction, and a fault is blamed exactly when a statement failed or a resolver threw something unforeseen after the snapshot was found. |
| CreationService.CreateCouponService.Create | src/main/java/pl/radoslawpiatek/couponservice/coupon/application/CreateCouponService.java:54-74 | Creation through the proxy, BEGIN and ROLLBACK faults included, is the serial meaning at one moment; the counters move by what the INSERT decided, whatever COMMIT or ROLLBACK does to it, and not at all without BEGIN. |
| Sessions.SegmentsAreTolerable | src/main/java/pl/radoslawpiatek/couponservice/coupon/adapters/persistence/JdbcCouponRedemptionRepository.java:39-81 | Everything the other processes do between two statements of one process, in any number of moves and with any faults, is such an interference and leaves that process where it stands. |
| ClientIpResolver.ResolutionMeetsItsDescription | src/main/java/pl/radoslawpiatek/couponservice/geolocation/adapters/ServletClientIpResolver.java:46-94 | The whole resolver, in both directions: an address is the answer if and only if it is the peer, in direct mode or not trusted, or the address at the place of the chain said by the one header line, or of the peer, after which all are trusted while it is not. |
| ClientIpResolver.ForgeryIsUseless | src/main/java/pl/radoslawpiatek/couponservice/geolocation/adapters/ServletClientIpResolver.java:46-94 | The same line after any text of the sender: the answer is the client or nothing. |
| ClientIpResolver.RecordedClientIsResolved | src/main/java/pl/radoslawpiatek/couponservice/geolocation/adapters/ServletClientIpResolver.java:46-94 | End to end: when trusted proxies recorded the client and each other within the limits, the resolver answers the client. |
| ClientIpResolver.BareForgeryIsUseless | src/main/java/pl/radoslawpiatek/couponservice/geolocation/adapters/ServletClientIpResolver.java:73-89 | The same line after any text of the sender: the answer is the client or nothing. |
| ClientIpResolver.RecordedBareClientIsResolved | src/main/java/pl/radoslawpiatek/couponservice/geolocation/adapters/ServletClientIpResolver.java:73-89 | End to end for X-Forwarded-For: a line of literals the trusted proxies recorded resolves to its first literal if the limits hold, and is refused otherwise. |
| ClientIpResolver.PrefixCannotChangeForwarded | src/main/java/pl/radoslawpiatek/couponservice/geolocation/adapters/ServletClientIpResolver.java:70-89 | Prefix stability: whatever is written before a line that resolves, the longer line resolves to the same address or to none, and to the address exactly when headers are ignored or the longer line is readable. |
| ClientIpResolver.PrefixCannotChangeXForwardedFor | src/main/java/pl/radoslawpiatek/couponservice/geolocation/adapters/ServletClientIpResolver.java:70-89 | The same for X-Forwarded-For. |
| ClientIpResolver.ServletClientIpResolver.Resolve | src/main/java/pl/radoslawpiatek/couponservice/geolocation/adapters/ServletClientIpResolver.java:46-94 | Exactly one metric per call, with the source and outcome of that call. |
| ForwardingHeaders.SplitterMeetsItsDescription | src/main/java/pl/radoslawpiatek/couponservice/geolocation/adapters/ForwardedHeaderParser.java:85-119 | The declarative description: failure exactly on a backslash, an odd number of quotes or a blank piece; cuts exactly at commas preceded by an even number of quotes; pieces rejoin; count is one plus the unquoted commas. |
| ForwardingHeaders.ForwardedRoundTrip | src/main/java/pl/radoslawpiatek/couponservice/geolocation/adapters/ForwardedHeaderParser.java:12-83 | Every non-empty list of hops rendered as sections 4 and 6 of RFC 7239 write it and joined with ", " is read back as exactly its addresses, ports dropped, if and only if the limits hold. |
| ForwardingHeaders.XForwardedForRoundTrip | src/main/java/pl/radoslawpiatek/couponservice/geolocation/adapters/XForwardedForParser.java:11-25 | The same for lists of bare literals. |
| ForwardingHeaders.ChainOfBoth | src/main/java/pl/radoslawpiatek/couponservice/geolocation/adapters/ForwardedHeaderParser.java:12-23 | Compositionality, for every text put before a readable header: the joined line is the two lists one after the other if the first is readable and the limits hold, and is refused otherwise. |
| HeaderElements.ElementMeetsItsDescription | src/main/java/pl/radoslawpiatek/couponservice/geolocation/adapters/ForwardedHeaderParser.java:25-43 | An element stands for an address if and only if all its parameters are name-value pairs, exactly one is named "for" up to case, and its value is a node identifier with that address. |
| Cidr.ContainsIsInterval | src/main/java/pl/radoslawpiatek/couponservice/geolocation/adapters/CidrBlock.java:56-71 | An address lies in a block exactly when its number lies in the aligned interval of the block. |
| Cidr.BlocksAreLaminar | src/main/java/pl/radoslawpiatek/couponservice/geolocation/adapters/CidrBlock.java:56-71 | Two blocks share no address, or the one with the longer prefix lies inside the other. |
| PublicAddressPolicy.PolicyByBytes | src/main/java/pl/radoslawpiatek/couponservice/geolocation/adapters/PublicIpAddressPolicy.java:15-40 | The policy in terms of address bytes, written out for both families. |
| Manifest.AcceptedMeansExact | scripts/package_source.py:96-118 | A tree is accepted exactly when it is clean, nothing is forbidden, and the manifest parses to the digest map of the other files. |
| Manifest.AnyChangeIsNoticed | scripts/package_source.py:106-117 | With the same manifest, a tree with another path set or another digest is refused. |
| Manifest.GeneratedIsAccepted | scripts/generate_checksums.py:16-42 | Generating, committing and packaging a clean tree succeeds if and only if there is another file, nothing is forbidden, no other file is named like the manifest and no path holds a line end. |
| Manifest.LineEndCounterexample | scripts/package_source.py:84-88 | A concrete path: the generated manifest of a tree with a file named "a", line feed, "b" is malformed to its own parser, although nothing in the tree is forbidden. |
| Manifest.EmptyTreeCounterexample | scripts/generate_checksums.py:38-41 | A tree with no other file: its generated manifest is one blank line, and packaging refuses it as malformed. |
| Manifest.ArchiveIgnoresOrder | scripts/package_source.py:144-150 | The same files give the same archive, whatever the order of the index records. |
| ManifestRules.TrackedIsOrdinary | scripts/package_source.py:52-72 | The index is accepted if and only if every record is merged, of mode 100644 or 100755, with 40 to 64 hexadecimal digits; each path then has permission 0755 exactly for 100755 and 0644 exactly for 100644, and the object of its record. |
| ManifestRules.ArchiveIsItsRecords | scripts/package_source.py:144-150 | On the archive itself: the members ascend strictly by path, each is the file of one index record with the permission of its mode and the bytes of its object, and every record has its member. |
| ManifestRules.ReasonsAreExact | scripts/package_source.py:96-118 | Which reason a tree is refused for, for every tree, in the order of the checks. |
| CouponDomain.KeysTellLetters | src/main/java/pl/radoslawpiatek/couponservice/coupon/domain/CouponCode.java:37-45 | Two codes have one key if and only if, padding aside, they have the same letters up to case; a code in the alphabet of keys is its own key. |
| ProtocolInvariant.StepKeepsInv | src/main/java/pl/radoslawpiatek/couponservice/coupon/application/TransactionalCouponRedemptionService.java:52-64 | Every single statement of every request, with or without a fault, keeps the whole invariant. |
| ProtocolInvariant.StepGuarantees | src/main/java/pl/radoslawpiatek/couponservice/coupon/adapters/persistence/JdbcCouponRedemptionRepository.java:39-45 | Rely/guarantee of the row lock: while a transaction holds `FOR UPDATE` on a coupon, no step of any other request changes that coupon, its redemptions or the lock, and no step at all changes identity, code, country or limit of a coupon. |
| ProtocolInvariant.ProcOkIsStable | src/main/java/pl/radoslawpiatek/couponservice/coupon/application/TransactionalCouponRedemptionService.java:56-62 | Whatever a request has established (its locked copy, the duplicate and capacity checks, its uncommitted writes) survives everything the others do. |
| ProtocolInvariant.DecisionIsOk | src/main/java/pl/radoslawpiatek/couponservice/coupon/application/TransactionalCouponRedemptionService.java:55-64 | Each decision of the code is sound: a rejection is the serial answer at that moment, a commit installs exactly the serial effect. |
| Database.ReadableMeansListed | src/main/java/pl/radoslawpiatek/couponservice/coupon/adapters/persistence/JdbcCouponRedemptionRepository.java:39-46 | The row mapper rebuilds a row that satisfies the CHECK constraints if and only if its country is on the ISO list; the other validations can no longer fail. |
| Database.RedeemKeeps | src/main/resources/db/migration/V1__create_coupon_tables.sql:25-40 | One redemption row together with one increment keeps all constraints and the equality of counter and rows. |
| SerialEquivalence.LogOnlyGrows | src/main/java/pl/radoslawpiatek/couponservice/coupon/application/TransactionalCouponRedemptionService.java:51-64 | Continuing a run only appends to the serial order and never changes a reply already fixed or given. |
| Outcomes.SerialKeeps | src/main/java/pl/radoslawpiatek/couponservice/coupon/application/TransactionalCouponRedemptionService.java:51-64 | The one-step meaning itself keeps all constraints and counts. |
| Outcomes.EffectOnCoupon | src/main/java/pl/radoslawpiatek/couponservice/coupon/application/TransactionalCouponRedemptionService.java:55-64 | What any request does to a coupon: a win adds one user, one row and one use; anything else leaves its users, uses and identity alone. |
| Outcomes.AnswerOfAttempt | src/main/java/pl/radoslawpiatek/couponservice/coupon/application/TransactionalCouponRedemptionService.java:56-62 | What each attempt of a log is told, in terms of the final winners: first attempt of a winner succeeds, its other attempts and those of earlier redeemers are duplicates, everybody else finds the coupon exhausted. |
| Outcomes.CountOfWinners | src/main/java/pl/radoslawpiatek/couponservice/coupon/application/TransactionalCouponRedemptionService.java:58-62 | The winners among fresh users number min(places left, distinct fresh users that tried). |
| ExactOutcomes.UndisturbedRunBreaksNothing | src/test/java/pl/radoslawpiatek/couponservice/coupon/adapters/web/CouponRedemptionRollbackIT.java:50-79 | Without injected faults no transaction crashes and every request leaves the database normally. |
| Progress.NoWaitingCycle | src/main/java/pl/radoslawpiatek/couponservice/coupon/adapters/persistence/JdbcCouponRedemptionRepository.java:39-41 | Waiting strictly climbs a rank, in every state the invariant allows. |
| Progress.SomeoneCanMove | src/test/java/pl/radoslawpiatek/couponservice/coupon/adapters/web/CouponRedemptionApiIT.java:128-148 | From any unfinished request, following who waits for whom leads to one that can step: no deadlock. |
| Progress.StuckMeansDone | src/test/java/pl/radoslawpiatek/couponservice/coupon/adapters/web/CouponRedemptionApiIT.java:128-148 | A run that cannot be continued has answered every request. |
| Accounting.RemainingCountsDown | src/main/java/pl/radoslawpiatek/couponservice/coupon/application/TransactionalCouponRedemptionService.java:62-64 | The remaining uses returned for a coupon, in commit order, step down by exactly one from capacity minus one and never go below zero. |
| Creation.AnswerOfCreation | src/main/java/pl/radoslawpiatek/couponservice/coupon/adapters/persistence/JdbcCouponRepository.java:52-71 | What each creation of a log is told, from the position of the first one filed. |
| Creation.CreatedIsFoundByVariants | src/main/java/pl/radoslawpiatek/couponservice/coupon/domain/CouponCode.java:32-46 | A created coupon is found again, readable and with its own values, under every padded spelling of its code with the same letters up to case. |
| CouponDomain.VariantsShareTheKey | src/main/java/pl/radoslawpiatek/couponservice/coupon/domain/CouponCode.java:37-45 | Padding a code or replacing letters by their small or capital form, 32 code points apart, never changes its lookup and uniqueness key. |
| Sessions.Session.FindSnapshot | src/main/java/pl/radoslawpiatek/couponservice/coupon/adapters/persistence/JdbcCouponRedemptionRepository.java:32-46 | The unlocked SELECT answers the newest committed row, or throws when the row cannot be rebuilt. |
| Sessions.Session.FindForUpdate | src/main/java/pl/radoslawpiatek/couponservice/coupon/adapters/persistence/JdbcCouponRedemptionRepository.java:35-46 | `FOR UPDATE` ends with the newest committed row read and its lock held, also when the mapper then throws. |
| Sessions.Session.Exists | src/main/java/pl/radoslawpiatek/couponservice/coupon/adapters/persistence/JdbcCouponRedemptionRepository.java:50-54 | The count sees committed rows and the own writes. |
| Sessions.Session.Insert | src/main/java/pl/radoslawpiatek/couponservice/coupon/adapters/persistence/JdbcCouponRedemptionRepository.java:57-70 | Only a violation of the (coupon, user) constraint becomes "already redeemed"; every other violation is an internal error; else the row is pending. |
| Sessions.Session.InsertCoupon | src/main/java/pl/radoslawpiatek/couponservice/coupon/adapters/persistence/JdbcCouponRepository.java:52-71 | Every unique violation, the primary key included, becomes a code conflict; a CHECK violation does not. |
| Sessions.Session.IncrementIfCapacity | src/main/java/pl/radoslawpiatek/couponservice/coupon/adapters/persistence/JdbcCouponRedemptionRepository.java:73-81 | The conditional increment returns the new count exactly when there is capacity, and then the count is pending. |
| SqlFailures.HasNamedConstraint | src/main/java/pl/radoslawpiatek/couponservice/coupon/adapters/persistence/JdbcCouponRedemptionRepository.java:83-89 | The loop over the causes finds the constraint exactly when some cause of the chain names it. |
| SqlFailures.HasSqlState | src/main/java/pl/radoslawpiatek/couponservice/coupon/adapters/persistence/JdbcCouponRepository.java:73-83 | The loop over the causes finds the state exactly when some cause of the chain carries it. |
| RedemptionService.TransactionalCouponRedemptionService.TryBlock | src/main/java/pl/radoslawpiatek/couponservice/coupon/application/TransactionalCouponRedemptionService.java:55-64 | Statement by statement under any tolerable interference: it ends ready to commit the serial effect, or with an exception that is the serial answer on the tables of that moment. |
| RedemptionService.TransactionalCouponRedemptionService.Body | src/main/java/pl/radoslawpiatek/couponservice/coupon/application/TransactionalCouponRedemptionService.java:53-79 | The outcome variable across try, catch and finally: exactly one timer record, of the kind of the reply or exception. |
| RedemptionService.Alone | src/main/java/pl/radoslawpiatek/couponservice/coupon/application/RedeemCouponService.java:55-85 | Without other sessions and faults the imperative service computes the one-step redeem function, or an internal error when a resolver throws something unforeseen; so its assumptions can be met. |
| Numerals.CanonicalIsDecimal | src/main/java/pl/radoslawpiatek/couponservice/geolocation/domain/ClientIpAddress.java:78-88 | A digit string without superfluous zero is the print of its value, for any runtime notion of digits. |
| Numerals.ParseIntOfDecimal | src/main/java/pl/radoslawpiatek/couponservice/geolocation/adapters/ForwardedHeaderParser.java:76-83 | Reading a printed number gives it back, or fails exactly beyond 32 bits. |
| ClientIp.Ipv4LiteralsAreDotted | src/main/java/pl/radoslawpiatek/couponservice/geolocation/domain/ClientIpAddress.java:39-56 | The accepted IPv4 literals are exactly the printed forms of four octets, and reading inverts printing. |
| ClientIp.Ipv4RoundTrip | src/main/java/pl/radoslawpiatek/couponservice/geolocation/domain/ClientIpAddress.java:35-56 | Among texts without a colon, exactly the canonical dotted quads are accepted, each as the address it prints; no host name gets through. |
| Splitting.JoinOfPieces | src/main/java/pl/radoslawpiatek/couponservice/geolocation/adapters/ForwardedHeaderParser.java:85-106 | The untrimmed pieces rejoin to the header. |
| Splitting.PiecesOfJoin | src/main/java/pl/radoslawpiatek/couponservice/geolocation/adapters/ForwardedHeaderParser.java:85-106 | Whole pieces survive joining and cutting. |
| Splitting.PiecesAreWhole | src/main/java/pl/radoslawpiatek/couponservice/geolocation/adapters/ForwardedHeaderParser.java:85-106 | When all quotations are closed every piece is whole, so the cutting is the only one possible. |
| Splitting.CutsAreBoundaries | src/main/java/pl/radoslawpiatek/couponservice/geolocation/adapters/ForwardedHeaderParser.java:94-99 | The text is cut at exactly the separators outside quotations. |
| Splitting.PiecesAreCounted | src/main/java/pl/radoslawpiatek/couponservice/geolocation/adapters/ForwardedHeaderParser.java:94-104 | There is one piece more than there are such separators. |
| ForwardingHeaders.SplitCommaSeparated | src/main/java/pl/radoslawpiatek/couponservice/geolocation/adapters/ForwardedHeaderParser.java:85-119 | The index loop with `quoted`, `start` and `values` computes exactly the specified elements, failures included. |
| ForwardingHeaders.ParseElement | src/main/java/pl/radoslawpiatek/couponservice/geolocation/adapters/ForwardedHeaderParser.java:25-43 | The parameter loop accepts an element exactly when all parameters are readable and exactly one is a `for` with an address literal. |
| ForwardingHeaders.PortsAreDecimals | src/main/java/pl/radoslawpiatek/couponservice/geolocation/adapters/ForwardedHeaderParser.java:76-83 | `validPort` accepts exactly the decimal prints of 1 to 65535, for every string. |
| ForwardingHeaders.NodesSayLiterals | src/main/java/pl/radoslawpiatek/couponservice/geolocation/adapters/ForwardedHeaderParser.java:45-74 | A node identifier is read as a literal exactly in its four shapes (bare or bracketed, optional port, optional quotes), and never when unknown, obfuscated or escaped. |
| ForwardingHeaders.ParseForwarded | src/main/java/pl/radoslawpiatek/couponservice/geolocation/adapters/ForwardedHeaderParser.java:12-23 | The parser computes the specified chain within the length and hop limits. |
| ForwardingHeaders.ParseXForwardedFor | src/main/java/pl/radoslawpiatek/couponservice/geolocation/adapters/XForwardedForParser.java:11-25 | The same for bare literals without brackets. |
| ForwardingHeaders.LongerChainEnds | src/main/java/pl/radoslawpiatek/couponservice/geolocation/adapters/ForwardedHeaderParser.java:12-23 | A longer readable line always ends with the addresses of the line it ends with. |
| Cidr.MaskComparesLeadingBits | src/main/java/pl/radoslawpiatek/couponservice/geolocation/adapters/CidrBlock.java:65-70 | The comparison of sign-extended bytes under `0xff << (8 - r)` is equality of their r leading bits. |
| Cidr.MatchesIsSamePrefix | src/main/java/pl/radoslawpiatek/couponservice/geolocation/adapters/CidrBlock.java:56-71 | For byte arrays of any length and any legal prefix, the byte and mask comparison holds exactly when the big-endian numbers agree after dividing by 2^(width - prefix). |
| Cidr.HostBitsNeverMatter | src/main/java/pl/radoslawpiatek/couponservice/geolocation/adapters/CidrBlock.java:56-71 | Any member of a block can stand for its network. |
| Cidr.ParseOfDotted | src/main/java/pl/radoslawpiatek/couponservice/geolocation/adapters/CidrBlock.java:29-48 | A printed IPv4 network and prefix are read back as that block exactly when the prefix is at most 32. |
| Cidr.ParseOfPrint | src/main/java/pl/radoslawpiatek/couponservice/geolocation/adapters/CidrBlock.java:29-48 | The same for any accepted literal of either family. |
| PublicAddressPolicy.TableIsRead | src/main/java/pl/radoslawpiatek/couponservice/geolocation/adapters/PublicIpAddressPolicy.java:15-26 | Each of the 21 texts of the deny table is accepted and denotes the block listed for it. |
| PublicAddressPolicy.PolicyIsIntervals | src/main/java/pl/radoslawpiatek/couponservice/geolocation/adapters/PublicIpAddressPolicy.java:38-40 | The policy is non-membership in the union of the aligned intervals of the table, for every address. |
| PublicAddressPolicy.PolicyOfLiterals | src/main/java/pl/radoslawpiatek/couponservice/geolocation/adapters/PublicIpAddressPolicy.java:38-40 | Every accepted literal is of 4 or 16 bytes and falls under the one or the other list. |
| ClientIpResolver.ServletClientIpResolver.Scan | src/main/java/pl/radoslawpiatek/couponservice/geolocation/adapters/ServletClientIpResolver.java:80-89 | The descending loop finds the right-most untrusted address. |
| ClientIpResolver.ServletClientIpResolver.TryResolve | src/main/java/pl/radoslawpiatek/couponservice/geolocation/adapters/ServletClientIpResolver.java:50-89 | The resolution order: peer, mode, one non-blank line per header, Forwarded before X-Forwarded-For, scan; with the source it is attributed to. |
| ClientIpResolver.ClientIsRightmost | src/main/java/pl/radoslawpiatek/couponservice/geolocation/adapters/ServletClientIpResolver.java:80-89 | The answer is the address after which every other is a trusted proxy, and there is none exactly when all are trusted. |
| ClientIpResolver.AmbiguityIsRefused | src/main/java/pl/radoslawpiatek/couponservice/geolocation/adapters/ServletClientIpResolver.java:56-78 | Behind a trusted peer an answer takes exactly one readable line; a second or blank line of either header is refused, also when the other header would have been read; the source is Forwarded exactly when such a line is there, and X-Forwarded-For exactly when only that one is. |
| ClientIpResolver.ResolvedIsUntrusted | src/main/java/pl/radoslawpiatek/couponservice/geolocation/adapters/ServletClientIpResolver.java:80-89 | In trusted-proxy mode the answer is never a trusted proxy. |
| Manifest.PackagedIsListed | scripts/package_source.py:38-49 | Reconciling the two rule sets: a file that may be packaged is listed by the generator exactly unless it is named like the manifest. |
| Manifest.LinesRoundTrip | scripts/package_source.py:86-89 | Reading an entry inverts printing it, both ways. |
| Manifest.ParseChecksums | scripts/package_source.py:79-93 | The loop computes the digest map of the lines, or the first complaint. |
| Manifest.AcceptedManifestIsItsLines | scripts/package_source.py:84-93 | An accepted manifest has one line for each entry and one entry for each line. |
| Manifest.TrackedEntries | scripts/package_source.py:52-72 | The loop over the index records computes their map, or the first complaint. |
| Manifest.TrackedIsItsRecords | scripts/package_source.py:52-72 | The map holds exactly what the records say, and exists exactly when all are ordinary files. |
| Manifest.TrackedIgnoresOrder | scripts/package_source.py:52-72 | The order of the index records does not matter. |
| Manifest.VerifySource | scripts/package_source.py:96-118 | The checks in their order, with the reason of refusal, or the ascending list of all tracked paths. |
| Manifest.AscendingIsUnique | scripts/package_source.py:118 | There is only one ascending list of a set of paths. |
| Manifest.Package | scripts/package_source.py:121-150 | From index records to archive members: the members are the tracked files in ascending order with permission and content. |
| Manifest.GeneratedIsParsed | scripts/generate_checksums.py:38-42 | The generated text parses to the digests of the listed files, and to a malformed line when nothing is listed. |
| Replies.SerialAnswers | src/main/java/pl/radoslawpiatek/couponservice/coupon/application/RedeemCouponService.java:57-63 | The one-step meaning gives every request on every legal database the reply of that table: invalid, not found, unlisted country, no location, other country, already redeemed, exhausted, identifier taken, redeemed with its data; code conflict, created with its data. |
| Replies.ValidMeansWellFormed | src/main/java/pl/radoslawpiatek/couponservice/coupon/domain/CouponCode.java:32-46 | A command is accepted exactly when its trimmed code is 3 to 64 letters, digits, underscores or hyphens, its user 1 to 128 visible ASCII characters, its limit 1 to 1000000, and its country, padding and case aside, on the list. |
| CouponDomain.ListedCountriesAreNamed | src/main/java/pl/radoslawpiatek/couponservice/coupon/domain/CountryCode.java:25-38 | A text names a country if and only if it has, padding aside, the letters of a listed code up to case. |
| Progress.WaitingBlocks | src/main/java/pl/radoslawpiatek/couponservice/coupon/adapters/persistence/JdbcCouponRedemptionRepository.java:57-70 | Whoever waits for another cannot move, unless its own identifier is already stored. |
| ClientIpResolver.TrustedIsIntervals | src/main/java/pl/radoslawpiatek/couponservice/geolocation/adapters/ServletClientIpResolver.java:96-98 | An address is trusted if and only if its number lies in the aligned interval of a configured block of its family. |
| HeaderElements.OneParameterMore | src/main/java/pl/radoslawpiatek/couponservice/geolocation/adapters/ForwardedHeaderParser.java:27-38 | A further parameter with another name changes nothing; one that is no pair, or a second "for", spoils the element. |
| ForwardingHeaders.ChainMeetsItsDescription | src/main/java/pl/radoslawpiatek/couponservice/geolocation/adapters/ForwardedHeaderParser.java:12-23 | A line stands for a chain if and only if it is not blank, keeps both limits, splits into elements, and each element stands for the address at its place. |
| ClientIp.ColonTextsAreIpv6 | src/main/java/pl/radoslawpiatek/couponservice/geolocation/domain/ClientIpAddress.java:39-51 | A text with a colon is accepted if and only if it has hexadecimal digits, colons and dots alone and the runtime reads it as 16 bytes, or as 4 in the IPv4-mapped notation. |
| Cidr.ParseMeetsItsDescription | src/main/java/pl/radoslawpiatek/couponservice/geolocation/adapters/CidrBlock.java:29-48 | A text denotes a block if and only if it is an accepted literal, one slash and a number within the width of its family. |
| Numerals.ParseIntOfSigned | src/main/java/pl/radoslawpiatek/couponservice/geolocation/adapters/CidrBlock.java:39 | A printed number after any zeros and an optional sign is read as what it says, or refused exactly outside 32 bits. |
| ManifestRules.FirstProblemIsNamed | scripts/package_source.py:64-70 | A refusal names what is wrong with the first record that is not ordinary. |
| ManifestRules.LessIsLexicographic | scripts/package_source.py:118 | The order of paths is the order by first difference, a proper prefix first. |
| ManifestRules.IncludedFiles | scripts/generate_checksums.py:16-27 | The generator lists a file unless one of seven directories is on its way, its name is one of two or an environment file, or its suffix is one of four; all written out. |
| ManifestRules.ForbiddenFiles | scripts/package_source.py:38-49 | Packaging refuses a file if and only if one of ten directories is on its way, its name is one of four or an environment file, or its suffix in any case is one of eight; all written out. |
| ManifestRules.SecretsAreRefused | scripts/package_source.py:101-103 | No tree with a private key, a certificate store, an environment file or build output is ever packaged. |
| ManifestRules.SplitLinesByLine | scripts/package_source.py:85 | Line by line: every line end ends one line, CR LF together one, and what follows the last is a line only if not empty. |
| ManifestRules.LinesAreDigestsAndPaths | scripts/package_source.py:86-89 | A line is an entry if and only if it is 64 hexadecimal digits, two spaces and a non-empty path without line feed. |
| ManifestRules.DigestMapAccepts | scripts/package_source.py:84-93 | Lines are accepted if and only if each is an entry and no two name one path. |
| ManifestRules.LinesInOrder | scripts/generate_checksums.py:39-41 | The generator writes earlier paths on earlier lines. |
| Database.LegalMeansUnique | src/main/resources/db/migration/V1__create_coupon_tables.sql:10-35 | The two unique indexes of the model make codes and (coupon, user) pairs unique among the rows. |
| CouponDomain.UpperIsCanonical | src/main/java/pl/radoslawpiatek/couponservice/coupon/domain/CouponCode.java:37-45 | The key of a valid code lies in the alphabet the database CHECK demands. |
| ProtocolInvariant.NewCouponIsLegal | src/main/java/pl/radoslawpiatek/couponservice/coupon/domain/Coupon.java:31-62 | A coupon built from a valid command satisfies every CHECK constraint of its table. |
| ClientIpResolver.UntrustedPeersSpeakForThemselves | src/main/java/pl/radoslawpiatek/couponservice/geolocation/adapters/ServletClientIpResolver.java:50-54 | In direct mode and without a trusted peer the headers do not matter. |
| RedemptionService.SnapshotIsRight | src/main/java/pl/radoslawpiatek/couponservice/coupon/application/RedeemCouponService.java:60-62 | What the unlocked snapshot rejects is what the serial meaning rejects. |
| Sessions.MovesAreTolerable | src/main/java/pl/radoslawpiatek/couponservice/coupon/adapters/persistence/JdbcCouponRedemptionRepository.java:39-81 | Every move of another process of the protocol machine is an interference the imperative code is proved against. |
| ClientIp.WhiteSpaceByNumber | src/main/java/pl/radoslawpiatek/couponservice/geolocation/domain/ClientIpAddress.java:36 | The 25 code points that make a text blank. |
| ManifestRules.LineEndsByNumber | scripts/package_source.py:85 | The ten code points that end a line. |
| ManifestRules.ManifestOfOneFile | scripts/generate_checksums.py:40-41 | The text of a manifest with one entry, written out. |
| Progress.AnyStatementMayFail | src/main/java/pl/radoslawpiatek/couponservice/coupon/application/TransactionalCouponRedemptionService.java:51-64 | The adversary may break off any request at any of its statements, and lose the acknowledgement of exactly the COMMITs. |
| RedemptionService.TimerNamesTheReply | src/main/java/pl/radoslawpiatek/couponservice/coupon/application/TransactionalCouponRedemptionService.java:63-79 | The timer outcome is the one named after the reply, and a database error for the replies that have none. |
| Text.TrimUnpads | src/main/java/pl/radoslawpiatek/couponservice/coupon/domain/CouponCode.java:37 | Trimming takes away exactly the padding around a core that neither starts nor ends with padding. |
| StoredRows.CouponChecksAreExact | src/main/resources/db/migration/V1__create_coupon_tables.sql:11-22 | The CHECK constraints of a coupon row, written out. |
| StoredRows.RedemptionChecksAreExact | src/main/resources/db/migration/V2__enforce_redemption_user_id.sql:4-6 | The CHECK constraints of a redemption row, written out. |
| ClientIpResolver.BrokenPeersAreRefused | src/main/java/pl/radoslawpiatek/couponservice/geolocation/adapters/ServletClientIpResolver.java:48-50 | A peer that is no address is refused whatever the headers say, as a direct failure. |

## Left out

- HTTP controllers, DTOs, exception handling, configuration binding, OpenAPI: plumbing without state.
- The geolocation provider, its HTTP client and timeouts: an oracle that answers any country or none, fixed per request.
- Null arguments of the coupon commands: rejected before anything else in the code, not represented in the request type.
- The content of the ISO country list: it is some fixed set of two-letter codes that holds PL and not ZZ (`CouponDomain.ISO_COUNTRIES`); case mapping outside ASCII, which would also accept a letter whose upper-case form is two letters, is not modelled.
- Strings are sequences of Unicode characters; the surrogate pairs of Java strings count once, not twice, toward header length.
- The text grammar of IPv6 and the reading of digits outside ASCII belong to the JDK and are parameters (`Jdk`); IPv4 is exact.
- Comparison without case of "unknown" and of parameter names folds ASCII letters only; other letters that fold to ASCII lead to the same refusals.
- The time a server needs to notice a connection given up after a failed ROLLBACK: it undoes the transaction at once.
- Order of lock queues, lock time-outs, the key-share lock of the foreign key, and page-level behaviour of PostgreSQL; CHECK constraints are evaluated after unique keys in the model, which no valid row can tell.
- Identifiers are numbers and timestamps integers; freshness of identifiers is an assumption where a claim needs it (`FreshIds`, `FreshCouponIds`).
- Timers and registry of Micrometer: counters are a multiset, the transaction timer a list of outcomes.
- Calls of Git, reading of the NUL-separated index listing, SHA-256, ZIP and the file system: index records, blobs and digests are data. Paths are the normalised relative paths Git lists; `str.lower` and the UTF-8 codec are parameters (`Python`).
- The three geolocation metrics and the scripts that check documentation and coverage.
