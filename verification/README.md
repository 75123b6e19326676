# augurScan in Dafny

augurScan mirrors a chain into PostgreSQL. It has to survive reorganisations, nodes that prune history or
refuse wide queries, restarts at any moment, and replicas that compete for the same database. This project
models the parts of it that make that work, and proves what they are for.

`dafny verify dfyconfig.toml` checks everything.

## What is modelled

**The store** (`Records`, `Ledger`, `Registry`, `Tokens`, `Database`, `ScannerDatabase`). One network's tables
are maps: blocks and evidence rows by primary key with their `canonical` and `finalized` flags, log cursors,
the contract registry with its discoveries, token metadata, and the checkpoint. Each transaction is a function
from tables to tables or an error; the class `ScannerDatabase` holds the tables as fields, and its methods stage
and commit each transaction in the order the original does and are proved equal to those functions. A ghost
field names the canonical chain the tables stand for. `Runs` puts any number of transactions in any order,
refused ones included, and shows that all tables agree with the canonical chain (`Sound`), that the authors'
integrity audit never reports, and that what readers see is what a new store that ingested only the current
chain would show. `TableEffects` says row by row what storing a block, a rewind, a reset, a seeding and a recorded
deployment make of every table. `RunConsequences` says what all this means for orphaned rows and for the registry,
`TokenRuns` and `TokenReadings` for token metadata, `Finality` for the rows marked final; `ClaimWitness` is a run of
the store and the indexer in which a cursor comes to claim too much.

**The indexer** (`World`, `Rules`, `Node`, `LogScan`, `Planner`, `Queries`, `Segments`, `LogsByBlock`,
`Discovery`, `Indexing`, `Cursors`, `PollBlocks`, `PollSegments`, `Indexer`, `Reorg`, `Backfill`,
`BackfillReach`, `DeploymentCheck`). There is one world, in which a block's hash says what is in the block and which block is its
parent; a node is on some branch of it, and on any other at the next poll or between the two reconciliations of one poll.
It may refuse any query, but what it answers is true. A poll reconciles, plans where each contract's logs start,
fetches the widest segment the node serves, indexes block after block to a fixed point of discoveries, and stores.

**What the indexer guarantees** (`Coverage`, `CoverageProofs`, `ClaimProofs`, `Readiness`, `IndexerRuns`,
`Settling`, `Reconfiguration`). `Readiness.Ready` is the state a database is in between any two transactions. It
does not mention the node, so what one poll leaves is what the next one needs, whatever branch the node is on by
then. `IndexerRuns.Operate` starts from a new database and takes any sequence of restarts, polls, backfills,
deployment checks and start advances; in every state it reaches, each followed contract has all its logs and all
transactions in which it emits something on file from its effective start through the checkpoint
(`IndexerRuns.EveryLogOnFile`, `EveryTransactionOnFile`), no other row of these tables is there (`NothingMadeUp`),
and no cursor claims a block that is not covered, with one exception that is stated exactly (see the findings).
A node that answers whatever it is asked is caught up with (`IndexerRuns.CatchUp`). `Settling` says what the end of a
segment settles, `Reconfiguration` what a backfill is for: after deployment blocks have been added or changed,
one rewind and one replay settle everything.

**The live bus** (`LiveEvents`, `LiveBus`), **exact arithmetic** (`Fractions`, `Twap`, `VaultRisk`, `Candles`,
`DemandCurve`, `SwapAnalytics`), and **coordination** (`RpcQueue`, `Refresh`, `Lease`, `Ownership`,
`Pagination`). Concurrent code is a class whose methods are the uninterrupted steps; the invariant is kept by
each, so it holds for every interleaving.

## What is assumed

- A block hash fixes the block's number, parent and transactions, how a contract announced in it is described, and
  what the rows of tables say whose upserts leave the data alone: transactions and the projections marked as
  kept. Evidence rows carry their block's hash. The upsert of a discovery only sets its canonical flag
  (`augurScan/src/database.ts:1092-1096`), so a changed label or kind would not be stored.
- The configured deployment blocks stay the same through a run of `IndexerRuns`, and every manifest lists their
  contracts. `Reconfiguration` leads from one configuration to the next.
- Code at an address stays, and a contract emits nothing before it has code. Nothing but configured contracts
  has code in block 0 (`NoGenesisCode`): the planner explains such code away, and `Planner.PlanAsksExactly`
  says exactly what is missed then.
- A transaction is on the chain once and announces an address as one kind of contract; a decoded address
  argument is one of the words of its log.
- The node's answers are a function of the question for the length of a segment, and the set of contracts whose
  historical code is unavailable is known at its beginning. The headers of a segment are of one branch, as the
  original fetches them all at once and holds every answer against them; the branches met before and after it, and
  by the next poll, may be others.

## Findings

- **A legal rewind can be refused.** Restoring token metadata marks the newest reading of a token canonical even
  if an older one still is, which the unique index over canonical tokens forbids
  (`augurScan/src/database.ts:1036-1049`, `augurScan/schema.sql:1238`). `Tokens.RewindFailsExactly` says when.
  `TokenRuns.ForgetfulRunIsRefused` is a run that gets there although it reads exactly when
  `augurScan/src/indexer.ts:168-169` says so: a token without decimals is read at blocks 0 and 25, everything is
  rewound, block 0 is stored again with the decimals now known, and so block 25 is stored without a reading; then
  the rewind from 26 to 25 finds two rows. Runs in which a block reads again what was read at it before never get
  there (`TokenRuns.RereadingRewindsSucceed`).
- **A cursor can claim what was not retrieved.** A manifest contract that keeps the position of an earlier
  discovery across a reset is scanned from that position. If the periodic deployment check then records a
  deployment before it, the next cursor starts at the deployment. `ClaimWitness.CursorClaimsTooMuch` is the run.
  A cursor written at a segment's end claims only what is covered exactly if the deployment is not before the
  announcement (`Cursors.ClaimCoveredExactly`); recording a deployment leaves a contract's claim in order exactly
  if it is not before the announcement (`ClaimProofs.RecordKeepsClaimExactly`), it touches no other contract, and
  a contract to which that never happens keeps a true cursor (`ClaimProofs.RunCursorsClaimOnlyCovered`). Coverage
  itself, from the announcement on, survives every recorded deployment (`CoverageProofs.RunIsTracked`).
- **An earlier reading of a token can come back.** Storing a reading rewrites the row of its token and block, but
  the row stays on file when its block is orphaned, and a block stored again without a reading leaves it as it
  was. A rewind restores the newest row on a canonical block, also one that the block's present ingestion did not
  read. `TokenReadings.EarlierReadingReturns` is such a run under the 25-block rule of
  `augurScan/src/indexer.ts:168-169`. In runs that read again what was read before, every canonical row shows what
  the chain's block at its height read (`TokenReadings.RereadingRunShows`); in all runs it shows what some ingestion
  of that block read last (`TokenReadings.EveryReadingStands`).
- **A backfill can leave logs out in three cases, all of a contract whose deployment is not known**
  (`augurScan/src/indexer.ts:293-314`): if its cursor reaches the checkpoint, wherever it starts; if the start is the
  checkpoint, so that there is no room to search; and, for logs in the start block, if the last check was of a block
  before the start, because the search is then told that code is absent at the start.
  `BackfillReach.ReplayReachesExactly` says that nothing else is left out.
- **A failure count can outlive its streak.** Of the waits for another replica only the first of a standby is
  reported, so after a wait, a failed connection and another wait the status still shows one failure in a row
  (`Ownership.ReportLagsExactly`).
- **The rebuild error of the backfill cannot occur.** The planner clamps to the stored start, so the refusal in
  `manifestReplayAncestor` that `augurScan/README.md:30` describes is unreachable from its callers
  (`Backfill.ReplayAncestorIsLegal`).
- **A reorganisation may reach below finality while catching up.** Finality is counted from the observed head,
  the rewind window from the checkpoint. Rewinds inside the window spare final blocks exactly if finality does not
  reach above the window's bottom (`Finality.WindowSparesFinalExactly`). Far behind the head it does, and then the
  rewind that takes a final block away is a legal one (`Finality.AboveTheFloorIsLost`, with the run
  `Finality.CatchingUpLosesFinal`); at the head it does not.
- **A late request can stay pending.** An idle coordinator owes a refresh exactly if something was requested after
  the loop's last test and before its promise was cleared; and it owes a forced one exactly if force was asked for
  then, or during the last refresh by requests that count nothing
  (`Refresh.LatestRefreshCoordinator.IdleOwesExactly`). `Refresh.LateRequestWaits` and
  `Refresh.UncountedForceWaits` get there.
- **A manifest that names an address twice never settles** (`SeedProofs.SeedSettles`); the configuration parser
  rejects one (`augurScan/src/config.ts:54`).

## Model

| member | source | states |
|---|---|---|
| LedgerProofs.StoreAcceptsExactly | augurScan/src/database.ts:219-231 | a block is accepted exactly if it has the next number, is the child of the checkpoint, and its cursors end at it; the unique index over canonical numbers never fires |
| LedgerProofs.StoreRefusedFor | augurScan/src/database.ts:219-231 | which of the errors a refused block meets |
| LedgerProofs.SecondBlockRefused | augurScan/schema.sql:1042 | and the unique index itself: whatever is on file, a second canonical block of a number is refused |
| LedgerProofs.StoreKeeps | augurScan/src/database.ts:1066-1327 | after an accepted block the block tables hold the chain with that block on top |
| LedgerProofs.CursorsAfterStore | augurScan/src/database.ts:1314-1325 | no cursor passes the stored block, whatever was on file and whatever comes along |
| LedgerProofs.RewindAcceptsExactly | augurScan/src/database.ts:267-277 | the legal targets are "before everything" without a hash and the canonical blocks below the checkpoint with theirs |
| LedgerProofs.RewindRefusedFor | augurScan/src/database.ts:267-277 | which of the errors a refused rewind meets |
| LedgerProofs.RewindKeeps | augurScan/src/database.ts:952-1002 | after a rewind the block tables hold exactly the part of the chain up to the target |
| LedgerProofs.InvalidateKeeps | augurScan/src/database.ts:315-338 | a reset leaves tables that hold the empty chain from the new start |
| LedgerProofs.OneBlockPerNumber | augurScan/schema.sql:1042 | one canonical block per number from the start to the checkpoint and none elsewhere, each the child of the one before, the checkpoint hash on top |
| LedgerProofs.HoldsPassesAudit | augurScan/src/database.ts:464-497 | tables that hold a chain give the integrity audit nothing to report |
| LedgerProofs.AuditCleanExactly | augurScan/src/database.ts:464-497 | the audit is clean exactly if the checkpoint is a canonical block on file, no cursor is ahead of it, and the blocks in view are one chain |
| RegistryProofs.StoreKeeps | augurScan/src/database.ts:1089-1123 | discoveries, contract rows and deployment evidence agree with the chain after a block |
| RegistryProofs.LatestUnique | augurScan/src/database.ts:1026-1030 | "one row per address, highest block first" never depends on luck |
| RegistryProofs.RewindRow | augurScan/src/database.ts:1003-1035 | after a rewind a contract outside the manifest is canonical exactly if a canonical discovery remains or it lies below the start, and then shows the latest discovery |
| RegistryProofs.RewindKeeps | augurScan/src/database.ts:1003-1035 | the registry agrees with the shortened chain |
| RegistryProofs.InvalidateKeeps | augurScan/src/database.ts:320-337 | after a reset only manifest contracts and those below the floor are canonical |
| TableEffects.StoredBlocks | augurScan/src/database.ts:1068-1080 | row by row, what storing a block makes of the blocks table: its own row is canonical, final blocks are those through the given height, a header on file is left alone |
| TableEffects.StoredEvidence | augurScan/src/database.ts:1124-1312 | row by row, what it makes of the evidence: exactly the rows brought along are added, they are canonical, a kept payload stays, and logs through the given height are final |
| TableEffects.StoredPayload | augurScan/src/database.ts:1124-1312 | which rows on file are rewritten by a block that brings them again: logs and the projections not kept, never transactions |
| TableEffects.StoredCursors | augurScan/src/database.ts:1314-1325 | a contract for which the block brings cursors has one that ends at the block and starts at the earliest start it was ever given; the others are as they were |
| TableEffects.StoredDiscoveries | augurScan/src/database.ts:1089-1096 | each announcement is a canonical discovery that says what the block says; the others are as before |
| TableEffects.StoredContract | augurScan/src/database.ts:1097-1123 | what a contract row says after a block, announced, observed or neither |
| TableEffects.RewoundRows | augurScan/src/database.ts:952-996 | blocks, evidence and discoveries above the target stay on file with their flags cleared, those at or below it are untouched |
| TableEffects.RewoundCursors | augurScan/src/database.ts:996-1002 | after a rewind a contract has a cursor exactly if it had one that starts at or below the target, with the same start, cut back to the target; what it claims at or below the target stays claimed |
| TableEffects.RewoundContract | augurScan/src/database.ts:1003-1035 | what a contract row says after a rewind: who stays, who comes back with which discovery, and which deployment evidence is forgotten |
| TableEffects.AdvancedStore | augurScan/src/database.ts:1348-1373 | a start advance discards all canonical flags, cursors, deployments and checks, and keeps every row |
| TableEffects.SeededStore | augurScan/src/database.ts:556-673 | seeding changes the blocks, evidence and cursors exactly if the manifest has changed and something was indexed |
| TableEffects.SeededContract | augurScan/src/database.ts:604-656 | what a contract row says after seeding |
| TableEffects.RecordedContract | augurScan/src/database.ts:712-731 | what a contract row says after a recorded deployment |
| SeedProofs.SeedKeeps | augurScan/src/database.ts:604-656 | seeding a manifest keeps the registry in agreement with the chain |
| SeedProofs.SeedSettles | augurScan/src/database.ts:53-62 | seeding the same manifest again finds it unchanged exactly if no address is listed twice |
| SeedProofs.ChangedExactly | augurScan/src/database.ts:53-62 | the manifest is unchanged exactly if it lists every stored manifest contract as it is, once, and nothing else |
| Tokens.StoreKeeps | augurScan/src/database.ts:1081-1088 | at most one canonical metadata row per token, on the canonical chain, after a block |
| Tokens.StoredRow | augurScan/src/database.ts:1081-1088 | after a block the row of a token read at it is canonical and shows the last reading brought along; rows of that token at other blocks lose the flag, and nothing else changes |
| Tokens.StoreShowsExactly | augurScan/src/database.ts:1081-1088 | if the rows on the chain show what its blocks read, they still do after a block, exactly if that reads again every token read at it before |
| Tokens.StoreKeepsCurrentExactly | augurScan/src/database.ts:1081-1088 | canonical metadata stays the newest reading exactly if the block reads again every token read at it before |
| Tokens.RewindFailsExactly | augurScan/src/database.ts:1036-1049 | a rewind runs into the unique index exactly if an older canonical row stands beside a newer reading that the target keeps |
| Tokens.RewindKeeps | augurScan/src/database.ts:1036-1049 | after a rewind each token's canonical row is its newest reading on the chain |
| Tokens.CurrentRewindSucceeds | augurScan/src/database.ts:1036-1049 | with current metadata no rewind is refused |
| Runs.StepKeepsSound | augurScan/src/database.ts:952-1376 | append, rewind, start advance, seeding and deployment records each keep all tables in agreement with the canonical chain |
| Runs.RunIsSound | augurScan/src/database.ts:952-1376 | so does every run of them, refused ones included |
| Runs.AuditNeverReports | augurScan/src/database.ts:464-497 | the integrity audit is empty in every reachable state |
| Runs.RunRefinesFreshStore | augurScan/src/database.ts:952-1338 | canonical blocks, evidence and discoveries after any run are those of a new store that ingested the current chain only |
| Runs.ReadersSeeNoDifference | augurScan/src/database.ts:952-1338 | so each block, evidence row and discovery is canonical in the one exactly if it is in the other, and says the same |
| RunConsequences.OrphansStayOnFile | augurScan/src/database.ts:973-996 | every block ever accepted stays on file and is canonical exactly if the chain still has it |
| RunConsequences.OrphanedEvidenceStays | augurScan/src/database.ts:973-996 | so does every evidence row: it is canonical exactly if the block the chain has at its number brought it along, shows what was first stored if its table is never rewritten, and is not final once it is not canonical |
| RunConsequences.RewindsRestoreRegistry | augurScan/src/database.ts:1012-1035 | after any rewinds a contract is canonical exactly if a canonical discovery remains or it was retained below the start, carrying the latest discovery's identity and position |
| TokenRuns.RunKeepsCurrent | augurScan/src/database.ts:1081-1088 | in runs that read tokens again canonical metadata is always the newest reading |
| TokenRuns.RereadingRewindsSucceed | augurScan/src/database.ts:1036-1049 | in such runs a rewind succeeds exactly if the checkpoint allows it |
| TokenRuns.ForgetfulRunIsRefused | augurScan/schema.sql:1238 | a run that reads each token exactly when the indexer does, after which a legal rewind is refused by the unique index |
| TokenReadings.EveryReadingStands | augurScan/src/database.ts:1081-1088 | after every run each row shows what an ingestion of its block read last |
| TokenReadings.RereadingRunShows | augurScan/src/database.ts:1036-1049 | in runs that read tokens again the canonical row of a token shows what the chain's block at its height read |
| TokenReadings.EarlierReadingReturns | augurScan/src/database.ts:1036-1049 | a run under the 25-block rule after which a rewind brings back a reading that the chain's block did not make |
| ScannerDatabase.ScannerDatabase.StoreBlock | augurScan/src/database.ts:1066-1338 | the transaction has the effect of the specified step, or none |
| ScannerDatabase.ScannerDatabase.Rewind | augurScan/src/database.ts:952-1064 | the transaction has the effect of the specified step, or none |
| ScannerDatabase.ScannerDatabase.AdvanceNetworkStartBlock | augurScan/src/database.ts:1348-1373 | moves the start forward only, discarding canonical history |
| ScannerDatabase.ScannerDatabase.SeedNetwork | augurScan/src/database.ts:556-673 | for a network that exists and keeps its start, as the indexer always asks: refused exactly if the start differs; otherwise the manifest takes over, announced contracts come back, and a changed manifest discards canonical history |
| ScannerDatabase.ScannerDatabase.RecordContractDeployment | augurScan/src/database.ts:712-731 | records what was observed of one canonical contract and nothing else |
| ScannerDatabase.ScannerDatabase.Checkpoint | augurScan/src/database.ts:912-919 | the top of the canonical chain, if there is one |
| ScannerDatabase.ScannerDatabase.CanonicalHash | augurScan/src/database.ts:944-950 | the hash of the chain's block at a number, if it has one |
| Reorg.AgreeBelow | augurScan/src/indexer.ts:893-913 | two linked chains that share a block share everything below it |
| Reorg.ReconcileReorg | augurScan/src/indexer.ts:893-913 | afterwards the stored chain is the part shared with the node's, or empty if nothing in the confirmation window is shared; failures change nothing |
| Finality.RunFinalizesExactly | augurScan/src/database.ts:1326-1327 | the final blocks and logs are exactly the canonical ones through the last finality stored |
| Finality.WindowSparesFinalExactly | augurScan/src/indexer.ts:171-174 | rewinds inside the window take away no final block exactly if finality does not reach above the window's bottom |
| Finality.AboveTheFloorIsLost | augurScan/src/indexer.ts:171-174 | otherwise a legal rewind inside the window takes a final block away |
| Finality.CatchingUpLosesFinal | augurScan/src/indexer.ts:1494 | a run that stores blocks with rising finality far behind the head, after which such a rewind is legal |
| Finality.CaughtUpWindowSparesFinal | augurScan/src/indexer.ts:1494 | with the checkpoint at the last observed head they never do |
| LogScan.QueryAdaptiveLogRange | augurScan/src/indexer.ts:467-489 | a non-empty prefix of the range, no wider than allowed, that the node answered; fails only if a query is refused for good or a single block is refused |
| LogScan.GetAllLogs | augurScan/src/indexer.ts:1244-1274 | the answered segments tile the range from end to end and the result is their concatenation |
| LogScan.TiledIsWhole | augurScan/src/indexer.ts:1244-1274 | whatever the tiling, the logs are those of the whole range, each as often |
| LogScan.FindContractDeploymentBlock | augurScan/src/indexer.ts:215-245 | the loop finds what the bisection is specified to find, read failures included |
| LogScan.SearchFinds | augurScan/src/indexer.ts:215-245 | when nothing is found, and what an exact and an inexact answer mean |
| LogScan.SearchFailsFor | augurScan/src/indexer.ts:215-245 | a search only fails for a block whose code could not be read, and then the way that read did |
| LogScan.ExactIsFirst | augurScan/src/indexer.ts:215-245 | for code that stays, an exact answer is the block where it appears |
| LogScan.FindEarliestAvailableLogBlock | augurScan/src/indexer-runtime.ts:242-268 | a block whose logs are served and those of the block before are not, whatever the node serves; the first and only such block if what is served stays served |
| Planner.PlanAsksExactly | augurScan/src/indexer.ts:399-465 | every log wanted from the segment is asked for, exactly unless code in block 0 was explained away although the contract emits |
| Planner.KnownPlanExactly | augurScan/src/indexer.ts:410-422 | of a contract whose start is known exactly the blocks from there on are asked for, and nothing is looked for |
| Planner.SearchedPlanExactly | augurScan/src/indexer.ts:427-463 | of any other the first block with code is looked for; what is found is recorded and is where the logs are asked for from |
| Planner.UnreadablePlanExactly | augurScan/src/indexer.ts:421-446 | where old code cannot be read everything in the segment is asked for and nothing recorded |
| Queries.GroupsAskExactly | augurScan/src/indexer.ts:368-378 | the groups ask for every input's address from its own start and for nothing else, at most five at a time |
| Queries.GroupsAreFull | augurScan/src/indexer.ts:368-378 | no request is made that an earlier one had room for |
| Queries.QueryFindsExactly | augurScan/src/indexer.ts:1117-1153 | an answer is in order, has each log once, consists of logs that were asked for and misses none |
| Queries.QueryRefusesExactly | augurScan/src/indexer.ts:1117-1153 | whatever the node is like, an answer is used exactly if every page was answered and holds only logs that were requested |
| Queries.QueryServed | augurScan/src/indexer.ts:1117-1153 | the answers of an obliging node are never refused, and a query for one block is always answered |
| Segments.GetNextLogSegment | augurScan/src/indexer.ts:1181-1242 | the segment is the plan and the answer for the range it ends with, the whole range if that is answered; there is none only if a query is refused for good or for a single block |
| Segments.SegmentFinds | augurScan/src/indexer.ts:1181-1242 | a segment holds a log of every transaction in which a planned contract emits something wanted |
| Segments.NeverStuck | augurScan/src/indexer.ts:467-489 | an obliging node serves some prefix of every range |
| Segments.FailedReadNarrows | augurScan/src/indexer.ts:467-489 | a code read that fails ends the scan, unless it may be tried on a narrower range |
| LogsByBlock.MergeLogs | augurScan/src/indexer.ts:1276-1295 | every list stays in order with each log once; nothing is lost or made up |
| Rules.FoundExactly | augurScan/src/metadata.ts:516-565 | a log announces a contract of a kind exactly if its event and argument are those that stand for the kind; for the pairs and pools of exchanges if they trade a known REP token for a known quote token, for all others if the address is not zero |
| Coverage.AnnouncedIsFollowed | augurScan/src/indexer-runtime.ts:1029-1045 | every kind that a log can announce is one whose logs are followed |
| Discovery.DiscoverFromReceipts | augurScan/src/indexer.ts:1352-1376 | every discovery is new and justified by what was known before it; if there is none, the receipts announce nothing unknown |
| Discovery.DiscoverRegistries | augurScan/src/indexer.ts:1377-1403 | the same for the registries that newly found price coordinators name |
| Discovery.DiscoveriesBounded | augurScan/src/indexer.ts:1350-1411 | a block announces no more contracts than its logs and registries name, so the loop ends |
| Indexing.ScanDiscoveredLogCoverage | augurScan/src/indexer-runtime.ts:1056-1069 | the logs of new contracts are found in this block and in the rest of the segment |
| Indexing.IndexBlock | augurScan/src/indexer.ts:1306-1411 | the contract table is closed under announcement, every discovery justified, and exactly transactions in which known contracts emit fetched, all of those of followed contracts, even where logs precede the announcement; it fails exactly for a parent that is not the expected one, or for logs the node does not serve |
| Cursors.LogScanCursorUpdates | augurScan/src/indexer.ts:351-366 | exactly the specified cursors, one per contract |
| Cursors.ClaimsExactly | augurScan/src/indexer.ts:351-366 | which contracts are claimed at a segment's end, and from where on: what was asked comes first, then the deployment, then the announcement |
| Cursors.ClaimIsCovered | augurScan/src/indexer.ts:351-366 | no cursor starts before the effective start of its contract |
| Cursors.ClaimCoveredExactly | augurScan/src/indexer.ts:361-364 | for an announced contract with a deployment on file, whatever was scanned, the cursor written at a segment's end starts at the deployment, and claims only what is covered exactly if that is not before the announcement |
| Coverage.FollowedLogsOnFile | augurScan/src/indexer.ts:999-1108 | under the invariant every log of a followed contract from its effective start through the checkpoint is a canonical row |
| Coverage.FollowedTransactionsOnFile | augurScan/src/indexer.ts:1449-1510 | and so is every transaction in which it emits something |
| Coverage.CursorsClaimOnlyCovered | augurScan/src/database.ts:1314-1325 | and every block inside a cursor has its logs on file |
| CoverageProofs.RecordKeepsTracking | augurScan/src/database.ts:712-731 | coverage survives the recording of any deployment, also one before the announcement |
| CoverageProofs.RunIsTracked | augurScan/src/database.ts:952-1376 | complete blocks, rewinds, resets, seedings and deployment records of any kind keep coverage, in any order |
| ClaimProofs.RecordKeepsClaimExactly | augurScan/src/database.ts:712-731 | recording a deployment leaves the contract's claim in order exactly if the deployment is not before the announcement |
| ClaimProofs.StepKeepsClaim | augurScan/src/database.ts:952-1376 | nothing else puts a contract's claim out of order |
| ClaimProofs.RunHasLogsOnFile | augurScan/src/indexer.ts:999-1108 | after every run every log of a followed contract from its effective start through the checkpoint is a canonical row |
| ClaimProofs.RunCursorsClaimOnlyCovered | augurScan/src/database.ts:1314-1325 | after every run, for a contract for which no deployment was recorded before its announcement, so is every log inside its cursor |
| ClaimWitness.CursorClaimsTooMuch | augurScan/src/indexer.ts:915-969 | a complete run after which a cursor includes a block of the chain whose log is not on file |
| ClaimWitness.CheckFindsEarlier | augurScan/src/indexer.ts:215-245 | in that run the deployment search finds the block that is recorded |
| ClaimWitness.NodeIsWellBehaved | augurScan/src/indexer.ts:971-1115 | and its chain is one that the assumptions about nodes allow |
| ClaimWitness.ThirdClaimsAsPlanned | augurScan/src/indexer.ts:351-366 | and the cursor is the one that the plan for the last block leads to |
| Readiness.TrueBlockIsGenuine | augurScan/src/database.ts:1066-1123 | a block that says what the world says of it never contradicts what is on file, canonical or not |
| Readiness.StepKeepsReady | augurScan/src/database.ts:952-1376 | agreement of all tables with the chain and the world, coverage, and the presence of the configured contracts are kept by every transaction, without regard to any node |
| Readiness.SeededIsReady | augurScan/src/indexer.ts:668-702 | they hold once a manifest with the configured contracts has been seeded into a new database |
| PollBlocks.BlockIsComplete | augurScan/src/indexer.ts:1449-1510 | the block a poll builds says what the world says, carries every log and every transaction that is to be on file and none that concerns no known contract, and claims no more |
| PollBlocks.BlockIsAccepted | augurScan/src/database.ts:1066-1123 | and nothing keeps the database from taking it when it comes next |
| PollSegments.StoreNext | augurScan/src/indexer.ts:1052-1108 | storing one block of a segment keeps everything, failing keeps everything as it was; it is found discontinuous exactly if the stored chain is not part of the node's, and fails otherwise only for what the node or the token reader does |
| PollSegments.MemoryShowsWhatIsStored | augurScan/src/indexer.ts:1031-1049 | the table in memory shows an observed contract as it will be on file |
| Indexer.Reconcile | augurScan/src/indexer.ts:893-913 | reconciling with a node on any branch keeps the database in operation and leaves a prefix of the node's chain |
| Indexer.Poll | augurScan/src/indexer.ts:971-1115 | a poll of a node on any branches keeps the database in operation whatever is refused and wherever it is stopped; unless it fails, the stored chain is then part of one of them; unless stopped it reaches the head or gets further, and leaves no known history of a manifest contract unclaimed; a node that stays on its branch and answers makes it succeed, unless the chains cannot be reconciled |
| DeploymentCheck.RefreshContractDeployment | augurScan/src/indexer.ts:915-969 | the contract whose check is the oldest is looked at, and what its code shows is recorded; nothing happens exactly if none is due or a read fails; a deployment before the announcement is one where the node shows code |
| IndexerRuns.Act | augurScan/src/indexer-runtime.ts:802-808 | every action of the indexer keeps the database in operation, and the run behind it complete |
| IndexerRuns.Operate | augurScan/src/indexer.ts:640-702 | so from a new database on, any sequence of restarts, polls of nodes on any branch, backfills, deployment checks and start advances does |
| IndexerRuns.CatchUp | augurScan/src/indexer-runtime.ts:802-808 | a node that stays on its branch and answers whatever it is asked is caught up with, from whatever is on file that can be reconciled with it |
| IndexerRuns.EveryLogOnFile | augurScan/src/indexer.ts:999-1108 | in operation, every log of a followed contract from its effective start through the checkpoint is a canonical row |
| IndexerRuns.EveryTransactionOnFile | augurScan/src/indexer.ts:1449-1510 | so is every transaction in which it emits something, with what the world says of it |
| IndexerRuns.NothingMadeUp | augurScan/src/indexer.ts:1449-1510 | every row of a log or a transaction is one of a known contract, or of a transaction in which one emits something |
| IndexerRuns.CursorIsTrue | augurScan/src/database.ts:1314-1325 | in operation, so is every log inside the cursor of a contract for which no deployment was recorded before its announcement |
| Backfill.MissingIsLeastUnclaimed | augurScan/src/indexer.ts:314-321 | a contract's missing start is at or before every unclaimed block of its history; without one nothing is unclaimed |
| BackfillReach.ReplayReachesExactly | augurScan/src/indexer.ts:269-324 | a block in which a manifest contract emitted something unclaimed is replayed, exactly unless the deployment is unknown and the cursor reaches the checkpoint, or the start is the checkpoint, or the last check lies before the start block that it is about |
| BackfillReach.ReplayReaches | augurScan/src/indexer.ts:269-324 | so is it by the replay of the whole manifest |
| BackfillReach.SearchesAreTrue | augurScan/src/indexer.ts:326-349 | nothing is emitted before what the deployment search of a backfill finds, other than in a block where code was said to be absent |
| Backfill.PlanManifestBackfill | augurScan/src/indexer.ts:269-324 | the least missing start over all contracts, between the active start and the checkpoint |
| Backfill.ReplayAncestorIsLegal | augurScan/src/indexer.ts:516-523 | what the planner returns always gives a legal rewind target |
| Backfill.ReconcileManifestBackfill | augurScan/src/indexer.ts:858-891 | the chain below the replay start is kept and the next block to index is the replay start; only token metadata can refuse, and then nothing has changed |
| Settling.CursorsExtended | augurScan/src/database.ts:1316-1324 | cursors at a segment's end are extended in both directions and others left alone |
| Settling.SegmentWillClaim | augurScan/src/indexer.ts:399-465 | once a segment is planned, the cursor that its end writes for each tracked manifest contract starts at the deployment then known |
| Settling.StoredSettles | augurScan/src/database.ts:1314-1325 | storing the end of a planned segment leaves the history of every tracked manifest contract claimed from its known deployment through the checkpoint |
| Settling.SettledMissesNothing | augurScan/src/indexer.ts:269-324 | and then the planner finds nothing missing for a contract with a known deployment |
| Reconfiguration.BackfillCovers | augurScan/src/indexer.ts:858-891 | after deployment blocks were added or changed, what a backfill leaves of the chain is covered under the new configuration |
| Reconfiguration.Reconfigure | augurScan/src/indexer.ts:858-891 | a backfill takes the database into operation under the new configuration, or is refused and leaves it in operation under the old one |
| Reconfiguration.BackfillAndPoll | augurScan/src/indexer-runtime.ts:802-808 | one rewind and one segment replayed to its end settle it: if every wanted deployment is known by then, planning again finds nothing |
| LiveEvents.EventsAfterIsWindow | augurScan/src/database.ts:427-449 | a read after a cursor leaves out nothing up to its own end, or is one reset that stands for everything |
| LiveEvents.EventsAfterExactly | augurScan/src/database.ts:435-440 | it is a reset with the newest id known exactly if the cursor lies in the pruned part, and otherwise the first of the events above the cursor, all of them if they fit |
| LiveBus.LiveBus.Answer | augurScan/src/live.ts:110-114 | the answer of a read is the first 250 events appended above its cursor, or the reset |
| LiveBus.LiveBus.AppendEvent | augurScan/src/database.ts:283-285 | an event appended at any moment spoils neither what clients were sent nor any read in flight |
| LiveBus.LiveBus.PruneEvents | augurScan/src/database.ts:451-462 | nor does pruning at any moment |
| LiveEvents.PruneKeeps | augurScan/src/database.ts:451-462 | pruning keeps exactly the rows above the pruned part |
| LiveEvents.DeliverNext | augurScan/src/live.ts:123-137 | sending the next event of a window leaves no silent gap |
| LiveBus.LiveBus.NothingWithheld | augurScan/src/live.ts:87-137 | for every interleaving, an event between a client's first cursor and its last was sent to it or is covered by a reset sent to it, and ids rise |
| LiveBus.LiveBus.Stream | augurScan/src/live.ts:40-49 | a stream is admitted exactly if the bus is open and not full |
| LiveBus.LiveBus.BeginPoll | augurScan/src/live.ts:87-110 | one poll at a time asks for at most four cohorts of ready clients, the furthest always among them |
| LiveBus.SelectCohorts | augurScan/src/live.ts:95-104 | the newest cohort and the next three others in turn, none twice, and all of them if there are at most four |
| LiveBus.EveryCohortHasItsTurn | augurScan/src/live.ts:95-104 | as long as the cohorts stay the same, each is asked for within a bounded number of polls |
| LiveBus.LiveBus.EnqueueEvents | augurScan/src/live.ts:123-137 | a client is sent exactly the events of the answer above its cursor, in their order, up to the first for which its stream has no room, and moves to the last of them; it is given up exactly if the stream was gone there |
| LiveBus.LiveBus.Deliver | augurScan/src/live.ts:110-114 | handing out an answer, however late, adds to what was sent and takes nothing back; with room, and at most a page waiting, every client asked for has been told all that was appended before the answer |
| LiveBus.LiveBus.FinishClose | augurScan/src/live.ts:154-168 | no client is left and only streams still starting are counted |
| Fractions.GreatestCommonDivisor | augurScan/src/operations.ts:251-256 | Euclid's algorithm, on absolute values |
| Fractions.GcdGreatest | augurScan/src/operations.ts:251-256 | every common divisor divides it |
| Fractions.ReducedIsSame | augurScan/src/operations.ts:258-261 | reducing keeps the value and ends in lowest terms |
| Twap.OrderedIsSame | augurScan/src/operations.ts:267-274 | dropping unusable observations and sorting by time changes no second's price |
| Twap.FixedWindowTwap | augurScan/src/operations.ts:263-313 | the average times the covered seconds is the integral of the price; available exactly if something usable was observed by the start |
| Twap.AverageWithin | augurScan/src/operations.ts:263-313 | it lies between the lowest and the highest price in force |
| Twap.IntegralSplits | augurScan/src/operations.ts:263-313 | integral and covered seconds are additive when the window is split at any point |
| VaultRisk.CeilIsLeast | augurScan/src/operations.ts:109-112 | the rounded-up quotient is the least that covers the numerator |
| VaultRisk.MigrationRoundingIsMoot | augurScan/src/operations.ts:151-154 | truncating instead of flooring changes nothing, because the bonus decides below 10000 |
| VaultRisk.HealthReachesExactly | augurScan/src/operations.ts:148-158 | the factor reaches a threshold exactly if backing and stake together cover the least requirement by the multiplier, and the backing alone the least by the migration multiplier |
| VaultRisk.ReportedExactly | augurScan/src/operations.ts:159-162 | state and severity, bad debt included, by the least requirements over the vault's fields |
| VaultRisk.ReportedWithoutRequirements | augurScan/src/operations.ts:124-184 | what is reported without open interest or price |
| VaultRisk.HealthMonotone | augurScan/src/operations.ts:148-158 | up in backing and stake, down in open interest, price and multiplier |
| DemandCurve.AuctionDemandCurve | augurScan/src/operations.ts:315-328 | strictly falling ticks, each with the sum of its bids and of all bids at or above it, ending in the total |
| DemandCurve.CurveIgnoresOrder | augurScan/src/operations.ts:315-328 | the same bids in another order give the same curve |
| Candles.CandleOf | augurScan/src/operations.ts:353-362 | open and close are the ends in time; low and high bound every price |
| Candles.CandlestickBuckets | augurScan/src/operations.ts:330-363 | strictly rising aligned starts, exactly those of the usable observations, each candle describing its bucket |
| Candles.OpenAndCloseWithin | augurScan/src/operations.ts:353-362 | open and close lie between low and high as fractions |
| Candles.EveryObservationCounted | augurScan/src/operations.ts:330-363 | the candles count every usable observation once |
| SwapAnalytics.AnalyseSwap | augurScan/src/operations.ts:207-243 | the reserves before, by the direction of the swap, and the shortfall against the price before as an exact share |
| SwapAnalytics.ImpactExactly | augurScan/src/operations.ts:218-220 | some impact exactly if the swap executed below the price before, always between nothing and everything |
| RpcQueue.RpcRequestQueue.Conserved | augurScan/src/rpc-request-queue.ts:56-92 | submitted is refused, waiting, running or done |
| RpcQueue.RpcRequestQueue.Run | augurScan/src/rpc-request-queue.ts:70-90 | refused exactly if all slots are taken and the waiting room is full; otherwise admitted last, and started at once if a slot is free |
| RpcQueue.RpcRequestQueue.Settle | augurScan/src/rpc-request-queue.ts:81-86 | the slot goes to the longest waiting |
| RpcQueue.RpcRequestQueue.SettleAll | augurScan/src/rpc-request-queue.ts:56-92 | in whatever order operations settle, every admitted task has had its turn, in order of admission |
| Refresh.RefreshGate.OneAtATime | augurScan/browser/live-update.ts:200-222 | at most one operation runs |
| Refresh.RefreshGate.InOrder | augurScan/browser/live-update.ts:200-222 | operations start in order of submission |
| Refresh.RefreshGate.Finish | augurScan/browser/live-update.ts:200-222 | if operations settle, all of them run |
| Refresh.LatestRefreshCoordinator.Request | augurScan/browser/live-update.ts:441-475 | joins the loop under way or starts one with everything owed; passed plus pending is requested |
| Refresh.LatestRefreshCoordinator.SettleRefresh | augurScan/browser/live-update.ts:450-467 | another refresh follows with everything pending exactly if something is |
| Refresh.LatestRefreshCoordinator.IdleOwesExactly | augurScan/browser/live-update.ts:441-475 | a coordinator that is not refreshing owes nothing counted exactly if no request since the last test counts, and no force exactly if none asked for it since then, nor during the last refresh without counting |
| Refresh.LateRequestWaits | augurScan/browser/live-update.ts:466-472 | a request after the last test waits for the next call |
| Refresh.UncountedForceWaits | augurScan/browser/live-update.ts:441-475 | and so does force asked for during a refresh by a request that counts nothing |
| Refresh.OperationsLoader.Call | augurScan/browser/live-update.ts:96-121 | a load starts exactly if none is under way; only a plain request for the same context joins |
| Refresh.OperationsLoader.Resume | augurScan/browser/live-update.ts:104-111 | a caller that joined gets the result of a load of its own context; one whose context moved on gets nothing |
| Lease.LeaseWorld.TryAcquire | augurScan/src/database.ts:499-552 | a lease is given exactly if the lock is free or the same backend's |
| Lease.LeaseWorld.AssertHeld | augurScan/src/database.ts:197-208 | the check passes exactly if the lease is unreleased and its own backend runs the transaction and holds the lock, and otherwise says which it was |
| Lease.LeaseWorld.Release | augurScan/src/database.ts:532-546 | the lock is given up once, exactly if the connection is still served by the backend that took it and that still holds it; otherwise the outcome says why not; the lease counts as released in any case |
| Lease.LeaseWorld.CommittedWasFenced | augurScan/src/database.ts:344-352 | a committed transaction's backend held the lock, for an unreleased lease, at the check inside it |
| Lease.LeaseWorld.OneWriter | augurScan/src/database.ts:344-387 | of the transactions past the check with unreleased leases at most one is open |
| Lease.LeaseWorld.Submit | augurScan/src/database.ts:361-376 | an operation waits for the one that is the tail of its lease, if there is one, and becomes the tail |
| Lease.LeaseWorld.Clear | augurScan/src/database.ts:361-376 | a settled operation removes the tail only if it still is the tail |
| Lease.LeaseWorld.Serialized | augurScan/src/database.ts:361-376 | although each operation only waits for its predecessor, one that has begun finds all earlier ones of its lease settled, and none runs beside another |
| Lease.LeaseWorld.InSubmissionOrder | augurScan/src/database.ts:361-376 | so transactions of one lease open in order of submission, each after the one before is over |
| Lease.LeaseWorld.NeverStuck | augurScan/src/database.ts:361-376 | and as long as an operation is unsettled, it or an earlier one of its lease runs or can begin |
| Ownership.OwnershipLifecycle.Run | augurScan/src/indexer-runtime.ts:927-1027 | leases are taken and dropped strictly in turn, and the status counts exactly the rounds that failed, the leases got, the reacquisitions and the standby periods of the rounds gone through |
| Ownership.ReportLagsExactly | augurScan/src/indexer-runtime.ts:927-1027 | the failures in a row that are reported are those that have happened, exactly unless another wait has followed failures within the same standby |
| Ownership.DroppedInBetween | augurScan/src/indexer-runtime.ts:927-1027 | a second lease is never taken before the first is dropped |
| Ownership.OwnershipLifecycle.RunRound | augurScan/src/indexer-runtime.ts:839-878 | between rounds no lease is held and none is reported as held |
| Pagination.PageFollows | augurScan/src/api.ts:676-717 | a page holds the rows after its cursor, as many as were asked for between one and 250, and its own cursor follows them; there is none exactly at the end |
| Pagination.AnyCursor | augurScan/src/api.ts:691-717 | a cursor from anywhere is malformed, of another entity, of another head, or honoured with the first rows below it |
| Pagination.IssuedCursorContinues | augurScan/src/api.ts:676-717 | the cursor of any page is honoured by the next request exactly if the entity is the same and the head has stayed; then the second page goes on where the first left off, and otherwise the error says which it was |
| Pagination.FollowAll | augurScan/src/api.ts:676-717 | following cursors with any limits goes through all rows in order, each once |
| Pagination.UniqueKeepsFirst | augurScan/browser/live-update.ts:48-56 | merging keeps one record per key and every key |
| Pagination.FirstIsKept | augurScan/browser/live-update.ts:48-56 | the first record of each key is the one kept |
| Pagination.KeptInOrder | augurScan/browser/live-update.ts:48-56 | and the records kept stay in their order |
| Pagination.CollectCanonicalPages | augurScan/browser/live-update.ts:144-158 | the first rows up to the target, with the cursor right after them |

## Left out

- The exchange contracts whose logs are asked for by filter: coverage, and what a segment's end settles, are about contracts all of whose logs are asked for. The coverage cursors of wrapped ether and USDC are settled but not covered.
- Deployment blocks taken out of the configuration: the contract's effective start may then move before what was retrieved, and the planner only looks at contracts it has a deployment for.
- Reconfiguration.Reconfigure: asks for cursors in order under the old configuration and speaks of the database as it is, not of the run that led to it.
- The `actions` table, whose rows have no canonical flag of their own: readers reach them by their transaction.
- Conditional exchange projections and the unique indexes over transaction, log, pool and question positions: evidence is filed by primary key only.
- Address activity roles, entity state snapshots, balance snapshots, timestamps, phases and the event row each transaction appends.
- ScannerDatabase.ScannerDatabase.SeedNetwork: the start-block cases for callers that do not keep the stored start are not modelled, because the indexer always keeps it (`augurScan/src/indexer.ts:672-700`); the first insertion of a network is seeding an empty one, and how its start is chosen is left out.
- Provider failover, retries, timeouts, rate limits, error classification, logging and heartbeats: a node's refusals and a stage's failures are inputs.
- The node changing its chain while a segment is being fetched: the hash checks that catch it end the poll, which is modelled as a refusal. A segment of a branch other than the one reconciled with is modelled.
- DeploymentCheck.RefreshContractDeployment: which of the contracts last checked at the same block is looked at first, by label and address in the original, is left open. The check that ends a poll (`augurScan/src/indexer.ts:986`, `:1112`) is an action of its own, so that it may follow anything.
- Receipt and bytecode reads that fail at random: a receipt not found in its block ends indexing, other read failures are those of the planner.
- LogScan.QueryAdaptiveLogRange: the node's answer is a function of the range, because within one scan no range is asked for twice.
- LiveBus.LiveBus.Start: a connecting client may start from any cursor, which covers every moment the latest id may have been read at.
- LiveBus.EveryCohortHasItsTurn: cohorts that change between polls may make one wait longer.
- BackfillReach.SearchesAreTrue: a code read that fails otherwise than for pruned history throws in the original and leaves everything as it was; it is not modelled here.
- Refresh.RefreshGate.Submit: an operation does not call the gate again before it has returned.
- Lease.LeaseWorld.StartBackend: process numbers are not used again.
- Pagination.FollowAll: the rows do not change while the head stays the same, and none sits on the position a first request starts from.
- The text of labels and provenances, decoding of ABI data, and number parsing: inputs are natural numbers where the source insists on decimal digits.
- The analytics in SQL other than their order, the rendering in the browser, and the report, auction and pool labels, which are read off their branches.
