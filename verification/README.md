# Misty, verified

A Dafny model of the parts of Misty where a mistake is silent: the replicated vault, the sync protocol
that carries it, the trust anchor it rests on, and the text formats a user's secrets arrive in and leave
by. `dafny verify dfyconfig.toml` checks everything.

## What is modelled

**Clocks.** `Hlc.dfy` has the hybrid logical clock as a class and, over it, a fleet of devices whose wall
clocks are arbitrary, which show each other readings, are shown foreign ones, crash and resume. In every
run the readings issued are pairwise distinct and happened-before means strictly smaller.

**The vault.** `Item.dfy` is one item: seventeen last-writer-wins registers, two max-wins values, a
min-wins value, a per-device counter, three observed-remove sets and a tombstone. It is measured against
an order on items that does not mention the merge. `ItemSet.dfy` is the set of items with forking on
divergent secrets. Its order says "every credential held here is accounted for there, somewhere along its
chain of derived ids"; absorbing is a least upper bound in it for *any* derivation of ids. A replica's
history is replayed by the set's own methods, the clock discipline of its versions is shown to reach every
step, and so two replicas that saw the same versions are equal. Collision-free ids are needed only for an
absorb to finish and not to fail, and only there assumed.

**The protocol.** `SyncProtocol.dfy` is any number of devices and one compare-and-swap server as a state
machine. Requests may be served late, twice or never; answers may be lost; a device may stop between any
two of its durable writes and come back with its last saved state. Values are drawn from any lawful join,
and `ItemsAreLawful` shows items under their own merge are one. `SyncSettling.dfy` shows agreement can always be reached from
where one is. `ServerRefinement.dfy` ties the protocol's server to the concrete one, with its tokens,
status codes and feed pages, and `EngineRefinement.dfy` the protocol's devices to the engine: a page it takes
and an attempt it makes to push are runs of the protocol's steps. `EngineRuns.dfy` composes them over the
engine's loops: a whole pull and a whole push, with peers writing in between and stopped at any durable write,
are runs of the protocol, so its guarantees are the engine's. `ForkingProtocol.dfy` is the same protocol over
vaults that fork, where one page may change rows it does not mention and what is never lost is a credential
along its chain of derived ids.

**The engine's two loops.** `ChangeFeed.dfy` decodes a page, `SyncPull.dfy` is the pull and `SyncPush.dfy`
the push of one item, each a class with the engine's own loops proved equal to a specification.
`PullTurns.dfy` says what a pull asks and how it ends, request by request; `PullGuarantees.dfy` proves what
holds against a server that answers anything, `HonestFeed.dfy` what holds against an honest one,
`CrashRecovery.dfy` what a crash costs (nothing), and `PushProgress.dfy` when a push settles and what its
success means. What some of these ask of the vault they ask only on the vaults and values that can come up;
`ItemVault.dfy` discharges it for sets of items that fork, `ItemKeeper.dfy` for such a set beside the
envelopes it stores, and `ItemKeepersExist` shows that nothing asked for is out of reach.

**Trust.** `Roster.dfy` and `Enrollment.dfy` have the canonical encodings and show them unambiguous;
`TrustChain.dfy` runs a vault whose server offers any roster and whose adversary holds any keys.

**Formats.** `Base32.dfy`, `Percent.dfy`, `Decimal.dfy`, `Texts.dfy`, `OtpConfig.dfy`, `OtpUri.dfy` and
`OtpRoundTrip.dfy` are the `otpauth://` parser and printer and their round trip, and `OtpReading.dfy` tells
every part of a parsed model from the text; `Csv.dfy` is the CSV scanner; `Resync.dfy` the HOTP look-ahead
scan.

## Where the code and its documentation differ

The model follows the code.

- Two tombstones written at one clock with different reasons: each side keeps its own
  (`crates/misty-vault/src/model/tombstone.rs:75-81`), where registers in the same position are refused. So
  `Item::merge` is not commutative on all pairs; `VaultItem.MergeCommutesExactlyWhen` says on which. It cannot
  happen while clocks are unique, which `HybridClock.FleetGuarantee` provides and `VaultItem.Disciplined`
  states.
- `absorb` returning an error leaves the set without the entry it had taken out
  (`crates/misty-vault/src/merge.rs:224-240`); the vault is not affected because it merges into a copy.
  `ItemSets.AbsorbFailsExactlyWhen` says when it fails and which entry is then missing,
  `ItemSets.FailureLosesOneEntry` that it is never more than one, and `ItemSets.FailedAbsorbDropsTheRow` gives
  for any stored row an arrival that makes it vanish.
- A `409` for an absent row is documented as "retry as a create", but the decoder refuses it first
  (`crates/misty-sync/src/wire.rs:675-682`): `PushProgress.AttemptFailsExactlyWhen`.
- Decimal URI parameters are documented to reject signs, but a leading `+` is accepted
  (`crates/misty-otp/src/uri.rs:538-545`): `OtpRoundTrips.NumberIsTakenExactlyWhen`, and `OtpRoundTrips.PlusSignIsTaken`
  for the inputs.
- A limit on the number of CSV rows is looked at only once a row has ended, so a limit of zero can return one
  row (`crates/misty-importers/src/csv.rs:116-119`): `Csv.RowLimit`, and `Csv.LimitOfZeroIsExceeded` for an input.

## Model

| member | source | states |
|---|---|---|
| `HybridClock.SortBytesRoundTrip` | crates/misty-vault/src/hlc.rs:113-157 | every reading that fits its widths survives the 26 sort bytes, and out-of-window readings are refused |
| `HybridClock.SortBytesOrder` | crates/misty-vault/src/hlc.rs:106-124 | comparing the bytes is comparing the readings, in both directions |
| `HybridClock.Ticked` | crates/misty-vault/src/hlc.rs:295-321 | the next reading is strictly later whatever the wall clock shows, and the clock is exhausted exactly at the top of the window with a full counter |
| `HybridClock.TickIssuesTheLeast` | crates/misty-vault/src/hlc.rs:295-321 | a tick issues the least reading of its device in the window that is later than all it has shown and not behind the wall clock, and is exhausted exactly when there is none |
| `HybridClock.ZeroIsLeast` | crates/misty-vault/src/hlc.rs:237-262 | a new clock shows the least reading of its device in the window |
| `HybridClock.Observed` | crates/misty-vault/src/hlc.rs:329-340 | folding a reading in never moves the clock back, covers it if it is in the window, and never adopts its device |
| `HybridClock.HlcClock.Resumed` | crates/misty-vault/src/hlc.rs:265-269 | a resumed clock shows at least the stored reading |
| `HybridClock.HlcClock.Tick` | crates/misty-vault/src/hlc.rs:295-321 | the method issues `Ticked` and keeps it; on exhaustion it changes nothing |
| `HybridClock.HlcClock.Observe` | crates/misty-vault/src/hlc.rs:329-340 | the method moves the clock to `Observed` |
| `HybridClock.StepKeepsInv` | crates/misty-vault/src/hlc.rs:265-340 | each step of a fleet (enrol, issue, receive, foreign reading, restart from storage) keeps the causality invariant |
| `HybridClock.FleetGuarantee` | crates/misty-vault/src/hlc.rs:237-340 | in every run all readings issued are pairwise distinct, happened-before is transitive and contains each device's own order, and implies a strictly smaller reading |
| `VaultItem.MergeItem` | crates/misty-vault/src/model/item.rs:609-672 | a merge keeps the id and the secret of both sides, and can only fail on a clock collision once those agree |
| `VaultItem.MergesExactlyWhen` | crates/misty-vault/src/model/item.rs:609-625 | two versions merge exactly when they have one id, one secret and no register with two values under one clock, and a refusal names the first of these that fails |
| `VaultItem.MergeIsLeastUpperBound` | crates/misty-vault/src/model/item.rs:609-672 | where the tombstones agree, the merge is the least item that holds every write of both |
| `VaultItem.MergeIsBelow` | crates/misty-vault/src/model/item.rs:609-672 | in every case, ties included, a merge holds nothing that neither side had |
| `VaultItem.LeqAntisymmetric` | crates/misty-vault/src/model/item.rs:609-672 | two items that hold each other's writes are equal, field by field |
| `VaultItem.MergeCommutesExactlyWhen` | crates/misty-vault/src/model/tombstone.rs:75-81 | merging commutes exactly when it fails or the two tombstones do not tie with different reasons |
| `VaultItem.TombstoneTieDoesNotCommute` | crates/misty-vault/src/model/tombstone.rs:75-81 | two concrete items, complete in all seventeen registers, whose merge depends on the side that performs it |
| `VaultItem.MergeIsAssociative` | crates/misty-vault/src/model/item.rs:609-672 | for any three items, tied tombstones included, both groupings give one result wherever both are accepted, and both are accepted where no two of the three are refused |
| `VaultItem.DisciplineReaches` | crates/misty-vault/src/crdt/lww.rs:109-127 | if one clock names one write in a family of items, it does so in everything merged from them |
| `VaultItem.MergeKeepsWrites` | crates/misty-vault/src/model/item.rs:609-672 | a merge invents no write: each field and the tombstone come from the family merged |
| `VaultItem.HeldExactly` | crates/misty-vault/src/model/item.rs:609-672 | merging one item into another changes nothing exactly when the other holds all of it, tombstone ties included |
| `ItemSets.BelowTransitive` | crates/misty-vault/src/merge.rs:6-42 | accounting for credentials along their fork chains is transitive |
| `ItemSets.BelowAntisymmetric` | crates/misty-vault/src/merge.rs:6-42 | two sets that account for each other's credentials are the same set |
| `ItemSets.HandleKeepsBounds` | crates/misty-vault/src/merge.rs:224-261 | one turn of the loop (insert, merge, or fork) leaves exactly the same upper bounds, whatever the derived id |
| `ItemSets.HandleKeepsSecrets` | crates/misty-vault/src/merge.rs:224-261 | one turn loses no secret and invents none |
| `ItemSets.HandleKeepsHomes` | crates/misty-vault/src/merge.rs:240-261 | with collision-free ids, a displaced credential finds its derived id free or already its own |
| `ItemSets.ItemSet.Insert` | crates/misty-vault/src/merge.rs:171-177 | adds the item exactly when its id is new, and otherwise changes nothing |
| `ItemSets.ItemSet.Purge` | crates/misty-vault/src/merge.rs:181-183 | removes that entry and no other, and returns what was there |
| `ItemSets.ItemSet.HandleOne` | crates/misty-vault/src/merge.rs:224-261 | one turn of the loop over the real map is the specified turn, its reports and queue included; a turn that fails has taken the entry out, and has reported a divergent PIN if it saw one |
| `ItemSets.ItemSet.Absorb` | crates/misty-vault/src/merge.rs:202-265 | the loop leaves exactly the specified set, reports and outcome, failures included; on success the set is the least one accounting for what it held and the incoming item, for any fork function; secrets and writes are conserved; the sorted list covers every changed id; conflicts name real forks; with collision-free ids at most two candidates are handled and the step limit is never hit; under unique clocks no merge fails |
| `ItemSets.AbsorbFailsExactlyWhen` | crates/misty-vault/src/merge.rs:224-261 | with collision-free ids, exactly which arrivals fail (a clash at its own row, no derived id for the displaced credential, a clash at the derived row), with which error and which single entry then missing |
| `ItemSets.FailureLosesOneEntry` | crates/misty-vault/src/merge.rs:224-240 | for any derivation, an absorb that fails in a turn leaves a set that lacks one entry and otherwise, with that entry and the candidate, holds exactly the credentials it should |
| `ItemSets.FailedAbsorbDropsTheRow` | crates/misty-vault/src/merge.rs:224-240 | any stored row with a register vanishes when another value of it arrives under the same clock |
| `ItemSets.AbsorbIsOneMoveAtMost` | crates/misty-vault/src/merge.rs:202-265 | with collision-free ids the loop comes to one placing, or one move and one placing |
| `ItemSets.AbsorbReportsExactly` | crates/misty-vault/src/merge.rs:224-261 | with collision-free ids, exactly what an absorb reports, failing or not: a divergent secret if the arrival met another secret, a divergent PIN if what was placed met its own credential with another PIN value, nothing else |
| `ItemSets.TwoPinsDiffer` | crates/misty-vault/src/model/item.rs:619-625 | a divergent PIN is two PIN values held by the two versions, whatever their clocks |
| `ItemSets.AbsorbTouchesExactly` | crates/misty-vault/src/merge.rs:202-265 | exactly the rows a successful absorb tells its caller to store |
| `ItemSets.GivesUpOnlyAtTheCap` | crates/misty-vault/src/merge.rs:213-265 | for any derivation, an absorb gives up only after all its steps |
| `ItemSets.ItemSet.Merge` | crates/misty-vault/src/merge.rs:272-285 | the same for a whole set: the specified result up to the first failure; least upper bound, secrets the union of both, no write invented, changes listed, no step limit under collision-free ids |
| `ItemSets.MergeAbsorbsInOrder` | crates/misty-vault/src/merge.rs:272-285 | a merge absorbs the other set's items in ascending id order, each into what the ones before made of the set, up to the first that fails, and collects their reports in order and their rows |
| `ItemSets.Replay` | crates/misty-vault/src/merge.rs:202-285 | the methods themselves, run over a history of absorbs and merges, compute `Replayed` |
| `ItemSets.ReplayProduces` | crates/misty-vault/src/merge.rs:202-285 | if one clock names one write among the versions of a history, every absorb and merge on the way is a join, and the result holds no write that no version made |
| `ItemSets.ReplayIsLeast` | crates/misty-vault/src/merge.rs:202-285 | what replaying a history comes to is the least set accounting for the versions that went in |
| `ItemSets.ReplayNeverFails` | crates/misty-vault/src/merge.rs:202-285 | with collision-free derived ids that always exist and versions at home, no absorb and no merge of any history fails |
| `ItemSets.ReplicasConverge` | crates/misty-vault/src/merge.rs:202-285 | two replicas that absorbed and merged the same versions, in any order, any grouping and with any repeats, are equal unless one failed, and with collision-free ids neither does |
| `ItemSets.SetMergeLaws` | crates/misty-vault/src/merge.rs:272-285 | what merging sets computes is commutative, associative and idempotent under unique clocks, and with collision-free ids each of those merges succeeds |
| `SyncProtocol.ItemsAreLawful` | crates/misty-vault/src/model/item.rs:609-672 | vault items under their own merge, tombstone ties included, satisfy every law the protocol asks of its values |
| `SyncProtocol.ItemsAreOrderedByMerging` | crates/misty-vault/src/model/item.rs:609-672 | in that order one item is below another exactly when merging it in changes nothing |
| `SyncProtocol.PutKeepsServerInv` | server/misty-server/src/store/sqlite.rs:684-759 | a write whose request contains the value its precondition names keeps every later version of the row above every earlier one |
| `SyncProtocol.ServeKeepsInv` | server/misty-server/src/store/sqlite.rs:684-759 | serving any outstanding request, late or again, keeps the invariant of every device, whatever each is in the middle of |
| `SyncProtocol.SendKeepsInv` | crates/misty-sync/src/engine.rs:719-724 | a request sent under a recorded version carries at least the value the server had at that version |
| `SyncProtocol.MergePageKeepsDevice` | crates/misty-sync/src/engine.rs:531-542 | merging a page raises the vault above every row of the page and loses nothing |
| `SyncProtocol.RecordPageKeepsDevice` | crates/misty-sync/src/engine.rs:544-576 | recording a page re-establishes that every row at or below the cursor is known with its current version, even if the server moved meanwhile |
| `SyncProtocol.ReceiveKeepsDevice` | crates/misty-sync/src/engine.rs:720-742 | recording an answer, however old, never records a version above what the vault holds nor misstates a row below the cursor |
| `SyncProtocol.RecordConflictKeepsDevice` | crates/misty-sync/src/engine.rs:801-840 | recording a resolved conflict keeps the same two facts |
| `SyncProtocol.StepKeepsInv` | crates/misty-sync/src/engine.rs:350-840 | every step of every device and of the server, crashes included, keeps the protocol invariant |
| `SyncProtocol.NoLostUpdate` | crates/misty-sync/src/engine.rs:531-576 | between any two states of any run, the server's value for an item never drops and its version never decreases |
| `SyncProtocol.AcknowledgedWritesStay` | crates/misty-sync/src/engine.rs:725-738 | a write once acknowledged is contained in the server's value in every later state |
| `SyncProtocol.NothingIsForgotten` | crates/misty-sync/src/engine.rs:288-325 | in every reachable state a row of a vault is pending or contained in the server's value |
| `SyncProtocol.QuiescentAgreement` | crates/misty-sync/src/engine.rs:288-325 | in every reachable state a device with nothing pending and its cursor at the head holds exactly the server's envelopes |
| `SyncProtocol.VaultsNeverDrop` | crates/misty-sync/src/engine.rs:487-542 | over every run, crashes included, no vault ever drops a value |
| `SyncProtocol.EveryEditArrives` | crates/misty-sync/src/engine.rs:350-364 | whatever a device once held is in every quiescent device's vault once that device is quiescent too |
| `ForkingProtocol.MergeAccounts` | crates/misty-vault/src/vault/sync.rs:142-244 | merging a page into a vault that forks, in any order, leaves a vault that accounts for everything it held and every item of the page, each row only gaining writes or giving way to a smaller secret |
| `ForkingProtocol.NoMergeIsRefused` | crates/misty-vault/src/merge.rs:202-265 | with collision-free derived ids that always exist and credentials at home, no page and no conflict is refused, whatever secrets meet in it |
| `ForkingProtocol.StepKeepsInv` | crates/misty-sync/src/engine.rs:350-840 | every step of every device and of the server, forks and crashes included, keeps the invariant and drops no credential of any vault |
| `ForkingProtocol.RowsOnlyDescend` | crates/misty-sync/src/engine.rs:531-576 | over every run a server row only gains writes of its credential or gives way to a smaller secret, and its version never decreases |
| `ForkingProtocol.VaultsNeverDrop` | crates/misty-sync/src/engine.rs:487-542 | over every run, crashes included, every write of every credential a vault held is found there along its chain of derived ids |
| `ForkingProtocol.QuiescentAgreement` | crates/misty-sync/src/engine.rs:288-325 | a quiescent device holds exactly the server's envelopes, forks included |
| `ForkingProtocol.CredentialsArrive` | crates/misty-sync/src/engine.rs:350-364 | every credential a device ever held is accounted for in the server's rows once it is quiescent, and two quiescent devices hold equal sets |
| `ForkingProtocol.NothingVanishes` | crates/misty-sync/src/engine.rs:690-738 | in every run every version the server ever stored stays accounted for in some device's vault |
| `SyncSettling.PushOne` | crates/misty-sync/src/engine.rs:690-738 | a device that knows every row's version gets its write applied at once and stays current |
| `SyncSettling.PassSettles` | crates/misty-sync/src/engine.rs:350-364 | from any reachable state, an uninterrupted pull, push and pull leads to quiescence for a device whose values merge with the server's |
| `ServerRefinement.PutRefines` | server/misty-server/src/store/sqlite.rs:684-759 | the concrete server, with its tokens, moves and answers exactly as the protocol's server does |
| `ServerRefinement.PageRefinesFetch` | server/misty-server/src/store/sqlite.rs:635-682 | wherever an honest page is cut, it shows exactly the rows the protocol's fetch step shows |
| `EngineRefinement.TakeRefines` | crates/misty-sync/src/engine.rs:429-578 | taking an honest page is the protocol's fetch, merge, record and save, from what the engine is seen as to what it is then seen as in vault, memory and store; a page is refused exactly for a row the protocol could not absorb |
| `EngineRefinement.SendsWhatIsPending` | crates/misty-sync/src/engine.rs:690-724 | the engine has something to send exactly when the protocol's send step is enabled, which leaves its request waiting |
| `EngineRefinement.AttemptRefines` | crates/misty-sync/src/engine.rs:690-840 | an attempt, whatever the others did since it was sent, is the protocol's serve and receive, then a save, or a merge, a record and a save, or nothing for an absent row; it stops for a refused merge only where the protocol's merge is not enabled, vault and store untouched |
| `EngineRefinement.CodingsExist` | crates/misty-vault/src/vault/sync.rs:260-325 | any encoding of values that reads back meets what the refinement asks of bytes |
| `EngineRuns.PeersAreARun` | server/misty-server/src/store/sqlite.rs:684-759 | any writes by other devices that are not below what they replace are a run of the protocol by devices of their own, which leaves every other device and request alone |
| `EngineRuns.FirstStart` | crates/misty-sync/src/engine.rs:213-228 | an engine that has never run is seen as a device that has just enrolled, so every run of engines starts in one of the protocol |
| `EngineRuns.PullIsARun` | crates/misty-sync/src/engine.rs:402-578 | a whole pull, with peers writing between its requests, is a run of the protocol from what the engine is seen as to what it is then seen as, however it ends, and each of its durable writes is one that run passes through |
| `EngineRuns.PushIsARun` | crates/misty-sync/src/engine.rs:690-840 | the same of a whole push with its retries; only after a refused merge is memory seen as nothing the protocol has, and vault and store still are |
| `EngineRuns.RestartIsARun` | crates/misty-sync/src/engine.rs:213-228 | a new process over what any durable write left is a device of the protocol that crashed there |
| `EngineRuns.PushLosesNothing` | crates/misty-sync/src/engine.rs:690-840 | in a push, however it ends, no row of the server drops a value or a version and no row of the vault drops a value |
| `EngineRuns.PullLosesNothing` | crates/misty-sync/src/engine.rs:402-578 | in a pull, however it ends and wherever it is stopped, the vault keeps all it held |
| `EngineRuns.AtRestAgrees` | crates/misty-sync/src/engine.rs:288-325 | an engine with nothing pending and its cursor at the head stores, row for row, exactly the server's bytes |
| `EngineRuns.EditsReachEveryEngine` | crates/misty-sync/src/engine.rs:350-364 | whatever one engine's vault once held is held by every engine at rest once it is at rest itself |
| `ChangeFeeds.DecodeChangeFeed` | crates/misty-sync/src/wire.rs:561-629 | the loop decodes the whole record or reports the first check that failed |
| `ChangeFeeds.DecodedFeedIsWellFormed` | crates/misty-sync/src/wire.rs:543-629 | whatever a server sends, an accepted page is bounded, in range, strictly ascending and does not resume before its last entry |
| `ChangeFeeds.FeedRoundTrip` | crates/misty-sync/src/wire.rs:561-629 | every well-formed page, encoded as the server sends it, is accepted unchanged |
| `ChangeFeeds.DecodesExactlyWhen` | crates/misty-sync/src/wire.rs:561-629 | exactly which records are taken as a page and what it then says: each record stands for its change, quoted tokens and missing flags included, in ascending order up to the resume point |
| `ChangeFeeds.FailsTruly` | crates/misty-sync/src/wire.rs:561-629 | every refusal names something wrong with the page: its size, its first faulty record after good ones, or its resume point |
| `SyncPull.Batch` | crates/misty-sync/src/engine.rs:494-529 | everything handed to the vault was parsed and authenticated under the item id it came with, and came from the page |
| `SyncPull.HaltAt` | crates/misty-sync/src/engine.rs:451-464 | a page is used up to and including its first roster change, or whole |
| `SyncPull.Engine.Changes` | crates/misty-sync/src/client.rs:397-412 | one request, decoded, changes nothing but the count of requests |
| `SyncPull.Engine.CheckPage` | crates/misty-sync/src/engine.rs:432-449 | finds the first number the cursor has already passed, or that there is none |
| `SyncPull.Engine.ApplyPage` | crates/misty-sync/src/engine.rs:487-578 | the two loops and the merge between them have the specified effect on vault, known rows, rejections and roster, and none on the known rows if the vault refuses |
| `SyncPull.Engine.Take` | crates/misty-sync/src/engine.rs:429-478 | one page is checked, applied, its cursor set and saved, in that order |
| `SyncPull.Engine.Pull` | crates/misty-sync/src/engine.rs:402-480 | the loop terminates for every server and leaves exactly the specified state and outcome, its durable writes in order |
| `PullGuarantees.PagesMoveForward` | crates/misty-sync/src/engine.rs:429-478 | no page moves the cursor back, and one after which the loop goes on moves it strictly forward |
| `PullGuarantees.PullNeverMovesBack` | crates/misty-sync/src/engine.rs:402-480 | against any server a whole pull never moves the cursor back |
| `PullGuarantees.PullIsBounded` | crates/misty-sync/src/engine.rs:408-429 | against any server a pull makes at most one request per page still allowed plus the binary logarithm of the page limit |
| `PullGuarantees.PullAppliesWhatItDelivers` | crates/misty-sync/src/engine.rs:402-578 | against any server, however the pull ends, a strictly ascending run of changes between the two cursors was applied, recorded one by one and merged once |
| `PullTurns.PullIsItsTurns` | crates/misty-sync/src/engine.rs:402-480 | against any server: each request a pull makes, at which cursor and limit; the answers it goes on after (one that did not fit, halving the limit; a fresh page with more to come and no roster change) and no others; the pages and changes it counts; and how it ends |
| `PullGuarantees.PageRecordsTheLast` | crates/misty-sync/src/engine.rs:544-576 | after a page each id is known by its last change that was not rejected: its version, number and bytes, or their absence where the server reclaimed them, and the kind of the last that had bytes or the one believed before; other rows are untouched |
| `PullGuarantees.PullRecordsTheLast` | crates/misty-sync/src/engine.rs:402-578 | the same of a whole pull, against any server and however it ends |
| `PullGuarantees.KindBytesTellKinds` | crates/misty-sync/src/engine.rs:549-566 | a recorded kind byte tells the kind, and none is the byte of a row whose kind was never known |
| `PullGuarantees.BatchIsItemsAndGroups` | crates/misty-sync/src/engine.rs:510-529 | the vault is given exactly the verified items and groups, in order |
| `PullGuarantees.RosterIsTheLast` | crates/misty-sync/src/engine.rs:525-527 | the roster reported is the last verified one, or the one reported before |
| `PullGuarantees.RejectionsAreRefusals` | crates/misty-sync/src/engine.rs:580-609 | each change that is too large, does not parse or does not authenticate is reported with that reason, in order, and nothing else is |
| `PullGuarantees.RejectedChangesVanish` | crates/misty-sync/src/engine.rs:510-576 | leaving the rejected changes out altogether would give the same batch and the same known rows |
| `PullGuarantees.NothingUnverified` | crates/misty-sync/src/engine.rs:487-609 | against any server the vault and the known rows are what the verified changes alone produce |
| `PullGuarantees.DeletedIsNeverActedOn` | crates/misty-sync/src/engine.rs:497-502 | two servers whose answers differ only in `deleted` flags lead to the same vault, state, report and outcome |
| `HonestFeeds.AfterAfter` | server/misty-server/src/store/sqlite.rs:635-682 | resuming after any delivered entry continues with the next one |
| `HonestFeeds.HonestPageIsSlice` | server/misty-server/src/store/sqlite.rs:635-682 | a page holds an entry exactly when it lies between the cursor and the page's resume point |
| `HonestFeeds.HonestPageSaysWhetherThereIsMore` | server/misty-server/src/store/sqlite.rs:635-682 | a page cut to any number of entries is an honest one, is shorter only if there are no more, and says there are more exactly when an entry lies past its resume point |
| `HonestFeeds.ExactDelivery` | crates/misty-sync/src/engine.rs:402-480 | from every cursor, at every limit and through halvings, a successful pull delivers exactly the entries after the cursor up to and including the first roster change, once and in order, and ends where the next begins; an honest feed is never called a rollback |
| `CrashRecovery.PageWrites` | crates/misty-sync/src/engine.rs:466-468 | a page makes at most two durable writes, the vault's commit under the old state first and the save second |
| `CrashRecovery.EveryWriteIsRecoverable` | crates/misty-sync/src/engine.rs:482-486 | after each durable write of a pull, whatever its outcome, a prefix of what was to be delivered is recorded and at least that much is committed |
| `CrashRecovery.Replay` | crates/misty-vault/src/vault/sync.rs:142-244 | merging again what was merged, then going on, is going on |
| `CrashRecovery.PullOutcome` | crates/misty-sync/src/engine.rs:402-578 | the result of a successful pull depends only on where it started and on the feed |
| `CrashRecovery.CrashAnywhere` | crates/misty-sync/src/engine.rs:402-486 | from what is durable before a pull or after any of its durable writes until it is over, pulling again gives the vault, cursor and known rows of an uninterrupted pull, whatever the page sizes of either, if the vault keeps what it merged on the vaults and values the pull can meet |
| `ItemVaults.HeldInExactly` | crates/misty-vault/src/merge.rs:202-265 | absorbing an item changes a set at home exactly when the set does not already hold it, at its id or at the one it would move to |
| `ItemVaults.HeldInIsKept` | crates/misty-vault/src/merge.rs:202-265 | what a set holds it holds after absorbing anything else, forks and displacements included |
| `ItemVaults.ItemVaultsRetain` | crates/misty-vault/src/vault/sync.rs:142-244 | sets of items merged by absorbing keep every promise the pull asks for: batches compose for every set, and for sets and arrivals at home repeats do nothing and nothing is unmerged, divergent secrets and tombstone ties included |
| `ItemVaults.ItemsSurviveCrashes` | crates/misty-sync/src/engine.rs:402-486 | a pull into a set of items stopped at any durable write and resumed ends where an uninterrupted one does |
| `SyncPush.SharedServer.Put` | server/misty-server/src/store/sqlite.rs:684-759 | the write lands exactly when the version matches, one version and one sequence number up; otherwise nothing changes and the answer says what is there |
| `SyncPush.Pusher.ResolveConflict` | crates/misty-sync/src/engine.rs:767-840 | verifies, records, merges and saves a `409` as specified, in all three of its shapes |
| `SyncPush.Pusher.PushOne` | crates/misty-sync/src/engine.rs:690-747 | the retry loop, with other devices writing between attempts, leaves exactly the specified state and outcome |
| `PushProgress.TokensRoundTrip` | server/misty-server/src/routes/mod.rs:511-542 | every version number in range survives the trip to the client and back, and only zero means absent |
| `PushProgress.OddTokensAreRefused` | server/misty-server/src/routes/mod.rs:511-530 | a precondition that is no number of 64 bits is refused with status 400 and nothing is written |
| `PushProgress.OthersMoveOneRow` | server/misty-server/src/store/sqlite.rs:684-803 | a write or a delete by another device moves its row on by one version and one number, with its bytes or without, deleting what has no bytes does nothing, and no other row is touched |
| `PushProgress.ConflictIsLearnt` | crates/misty-sync/src/engine.rs:801-840 | an honest conflict is never taken for a loop: it leaves the row's own version recorded, or stops exactly because the vault refuses the row |
| `PushProgress.AttemptFailsExactlyWhen` | crates/misty-sync/src/engine.rs:690-747 | against an honest server an attempt fails exactly when the envelope is over the cap, a version is recorded for a row that is not there, or it conflicts with a row the vault refuses, and with which error |
| `PushProgress.PushSettles` | crates/misty-sync/src/engine.rs:690-747 | for any vault, a push ends with the row gone or the server's confirmation of exactly the stored envelope; or hits the retry limit, and then only if every single retry was overtaken; or stops because the vault refuses what the server now holds or sealed too much |
| `PushProgress.SuccessIsOnTheServer` | crates/misty-sync/src/engine.rs:690-747 | whatever the server holds and the others write, reclaimed rows and conflicts included, and for any vault: a push of something unconfirmed that succeeds leaves the server's row with exactly the envelope the vault stores |
| `PushProgress.AppliedIsRecorded` | crates/misty-sync/src/engine.rs:725-741 | an applied write is recorded, saved and counted under the version and number the server gave it; an attempt that finishes otherwise has changed nothing |
| `PushProgress.ConflictRecords` | crates/misty-sync/src/engine.rs:775-830 | after each of the three shapes of a `409` the record is the row as the server described it, without a fingerprint if it came without bytes, and gone if it came without a version |
| `PushProgress.ConflictMerges` | crates/misty-sync/src/engine.rs:812-840 | what came with an item or a group is merged, the vault commits under the old state before the new one is saved, and a refusal writes nothing |
| `PushProgress.SameConflictStops` | crates/misty-sync/src/engine.rs:801-811 | the same bytes and version a second time stop the push and change nothing |
| `PushProgress.UnattributedConflictStops` | crates/misty-sync/src/engine.rs:611-640 | so does a conflict too large or by no rostered device, with its reason |
| `PushProgress.ObligingPushSettles` | crates/misty-sync/src/engine.rs:690-747 | if the vault takes what it is offered on the values that can come up, only other devices can stop a push |
| `PushProgress.PushSurvivesBusyPeers` | crates/misty-sync/src/limits.rs:49-55 | and with fewer than eight overtaken attempts it succeeds |
| `PushProgress.RecordedIsHeld` | crates/misty-sync/src/engine.rs:801-840 | whatever the server answers, no durable state of a push records an envelope whose value the vault beside it lacks; in memory the same holds unless the vault refused a merge |
| `ItemKeepers.RowsStaySound` | crates/misty-vault/src/vault/sync.rs:142-325 | merging an envelope of a clock-disciplined family never fails, stores exactly the items absorbed, and each row's envelope, kept verbatim or sealed anew, still decodes to its item |
| `ItemKeepers.ItemKeeperObliges` | crates/misty-vault/src/vault/sync.rs:142-325 | a vault of items keeps every promise a push asks for, forks included |
| `ItemKeepers.ItemPushSurvives` | crates/misty-sync/src/limits.rs:49-55 | a push from a vault of items succeeds with fewer than eight overtaken attempts |
| `ItemKeepers.ItemKeepersExist` | crates/misty-vault/src/vault/sync.rs:142-325 | for any item and any later version of it there is a vault storing the one and an envelope of the other that meet every assumption and really conflict |
| `Rosters.ValidatesExactlyWhen` | crates/misty-crypto/src/identity.rs:396-411 | validation passes exactly on bounded strings, real keys and no repeated device |
| `Rosters.VerifiesExactlyWhen` | crates/misty-crypto/src/identity.rs:361-411 | verification succeeds exactly on a sound roster signed over its own list by a device it lists, and each error says what is missing or names a fault of the first faulty record |
| `Rosters.RecordEnds` | crates/misty-crypto/src/identity.rs:216-238 | a record's encoding says where it ends, whatever follows |
| `Rosters.SigningBytesLayout` | crates/misty-crypto/src/identity.rs:308-337 | where each part of the signed bytes lies: context, count, signer, and every field of every record, numbers least significant byte first |
| `Rosters.SigningBytesInjective` | crates/misty-crypto/src/identity.rs:323-337 | equal signing bytes mean the same signer and the same devices, field by field and in order |
| `Rosters.RosterKeeper.SigningBytesFor` | crates/misty-crypto/src/identity.rs:323-337 | the encoder's loop produces exactly the specified bytes |
| `Rosters.RosterKeeper.Validate` | crates/misty-crypto/src/identity.rs:396-411 | the two nested loops report the first fault |
| `Rosters.RosterKeeper.Add` | crates/misty-crypto/src/identity.rs:282-293 | a valid new device is appended and the signature dropped, or nothing changes; a sound roster stays sound |
| `Rosters.RosterKeeper.Remove` | crates/misty-crypto/src/identity.rs:300-306 | the device is gone, the others and their order stay, the signature is dropped, and the answer says whether it was there |
| `Rosters.RosterKeeper.Sign` | crates/misty-crypto/src/identity.rs:344-359 | signing succeeds exactly for a listed device under its recorded key on a valid roster, and the result verifies as signed by it |
| `Enrollments.CanonicalBytesOf` | crates/misty-crypto/src/enrollment.rs:89-102 | the encoder's loop produces exactly the specified bytes |
| `Enrollments.CanonicalBytesLayout` | crates/misty-crypto/src/enrollment.rs:75-102 | where each part of the canonical bytes lies |
| `Enrollments.CanonicalBytesInjective` | crates/misty-crypto/src/enrollment.rs:82-102 | validated requests with equal canonical bytes are equal |
| `Enrollments.DomainsAreSeparate` | crates/misty-crypto/src/enrollment.rs:53-54 | no request's bytes are any roster's signing bytes |
| `TrustChain.AcceptsExactlyWhen` | crates/misty-sync/src/roster.rs:187-208 | a successor is accepted exactly when it is sound and a device both rosters list under one key signed its list |
| `TrustChain.RejectsExactlyWhen` | crates/misty-sync/src/roster.rs:187-208 | an unsigned successor, and one signed by a device the current roster does not list under that key, are told apart exactly |
| `TrustChain.AdoptionIsLinked` | crates/misty-sync/src/roster.rs:187-208 | if the adversary holds no key the current roster lists, what is adopted is a list one of its devices decided to sign |
| `TrustChain.TrustChains` | crates/misty-sync/src/roster.rs:112-208 | in every run each adopted roster chains to its predecessor, and unless the adversary then held a listed key it is exactly a list a listed device decided to sign |
| `Base32.ByteSurvives` | crates/misty-otp/src/base32.rs:94-102 | the byte read from the twelve-bit accumulator is the one the whole number has there |
| `Base32.SymbolSurvives` | crates/misty-otp/src/base32.rs:152-160 | the symbol read from the twelve-bit accumulator is the one the whole number has there |
| `Base32.DecodeText` | crates/misty-otp/src/base32.rs:61-112 | the accumulator loop yields the bytes the symbols spell, or the first fault |
| `Base32.EncodeInner` | crates/misty-otp/src/base32.rs:147-170 | the accumulator loops yield the letters the bytes spell, with or without padding |
| `Base32Laws.EncodingRoundTrips` | crates/misty-otp/src/base32.rs:128-170 | decoding undoes both encoders for every byte string whose encoding fits the cap |
| `Base32Laws.DecodesExactlyWhen` | crates/misty-otp/src/base32.rs:61-112 | exactly which texts are accepted, and that the result depends on their symbols alone |
| `Base32Laws.DecodesTheBits` | crates/misty-otp/src/base32.rs:94-102 | the bytes are the letters' five bits each, from the top, less those that fill no byte |
| `Base32Laws.EncodesTheBits` | crates/misty-otp/src/base32.rs:147-162 | the letters are the bytes' bits, five at a time from the top, and zeros for what is missing of the last |
| `Base32Laws.AlphabetIs` | crates/misty-otp/src/base32.rs:77-83 | the alphabet is table 3 of RFC 4648, read in either case |
| `Base32Laws.PaddingFillsTheGroup` | crates/misty-otp/src/base32.rs:163-168 | padding fills the last group of eight and no more |
| `Base32Laws.FailsTruly` | crates/misty-otp/src/base32.rs:61-112 | a refusal names the length, the offset of the first letter after padding or of the first other character, or the count of letters |
| `Base32Laws.NoiseIsIgnored` | crates/misty-otp/src/base32.rs:5-24 | case, separators and trailing padding change nothing |
| `Base32Laws.ReencodingKeepsTheBytes` | crates/misty-otp/src/base32.rs:17-24 | an accepted text and the canonical form of what it decodes to decode alike |
| `Percent.DecodeText` | crates/misty-otp/src/percent.rs:33-61 | the loop unescapes the whole text, or reports the first bad escape or unacceptable text |
| `Percent.EncodeBytes` | crates/misty-otp/src/percent.rs:76-88 | the loop escapes every byte that is not plain and no other |
| `Percent.DecodesExactlyWhen` | crates/misty-otp/src/percent.rs:33-61 | exactly the texts taken and what each stands for, escapes in either case; otherwise the offset of the first percent sign two hexadecimal digits do not follow, or what the text check objects to |
| `Percent.EncodesAs` | crates/misty-otp/src/percent.rs:63-105 | exactly how each byte is written: as itself if it is a letter, a digit or one of `-._~@`, and otherwise as an escape with upper-case digits |
| `Percent.EncodingRoundTrips` | crates/misty-otp/src/percent.rs:33-88 | every acceptable text survives encoding and decoding |
| `Percent.EncodingIsSafe` | crates/misty-otp/src/percent.rs:63-88 | nothing structural is ever written |
| `Decimals.ParsedPrints` | crates/misty-otp/src/uri.rs:538-545 | parsing then printing a number gives the text back exactly when it had no superfluous leading zero |
| `OtpConfigs.Build` | crates/misty-otp/src/config.rs:694-726 | whatever is built satisfies the invariant that fixed parameters have their fixed values, even where what was asked for is overridden |
| `OtpReadings.BuildsExactlyWhen` | crates/misty-otp/src/config.rs:694-726 | what the builder accepts, what it then builds for each kind from what was given and the defaults, and the first error otherwise |
| `OtpConfigs.RebuildsFromOpenParameters` | crates/misty-otp/src/config.rs:694-726 | stating just the parameters a kind leaves open rebuilds the configuration |
| `OtpConfigs.ExportKeepsTheToken` | crates/misty-otp/src/config.rs:587-601 | writing a kind as another keeps the secret, the PIN, the encodings and every parameter |
| `OtpUris.ParseQueryText` | crates/misty-otp/src/uri.rs:566-600 | the loop over the query fills each slot once or fails with the first fault |
| `OtpUris.PrintUri` | crates/misty-otp/src/uri.rs:393-456 | the buffer built up piece by piece is the specified URI |
| `OtpUris.ParseWithWarnings` | crates/misty-otp/src/uri.rs:220-374 | the parser returns the specified model and warnings, or the first error |
| `OtpReadings.SchemeIsStripped` | crates/misty-otp/src/uri.rs:500-511 | `otpauth://` in any case is taken, the migration format is told apart, everything else is refused |
| `Texts.SplitsExactlyWhen` | crates/misty-otp/src/uri.rs:229-256 | cutting a text at a mark cuts at its first occurrence, and fails exactly when there is none |
| `Texts.SplitsIntoPieces` | crates/misty-otp/src/uri.rs:566-580 | the pieces of a text hold no separator and join back to it |
| `OtpReadings.LocatesTheParts` | crates/misty-otp/src/uri.rs:229-249 | authority, label, query and fragment are each cut at the first of their marks; missing ones are empty |
| `OtpReadings.EveryTextHasParts` | crates/misty-otp/src/uri.rs:229-249 | and every text is made of such parts |
| `OtpReadings.KindIsNamed` | crates/misty-otp/src/config.rs:148-207 | exactly the authorities that name each kind, the alias included, in any case, and that the kind's own name is what is written |
| `OtpReadings.HashIsNamed` | crates/misty-otp/src/config.rs:74-96 | exactly the spellings of each hash, and which is written |
| `OtpReadings.ParamIsNamed` | crates/misty-otp/src/uri.rs:583-596 | exactly which names are the seven known ones |
| `OtpReadings.LabelIsRead` | crates/misty-otp/src/uri.rs:251-261 | the label is cut at its first colon and only then decoded, an empty issuer is none, and the issuer's fault is reported before the account's |
| `OtpReadings.QueryIsRead` | crates/misty-otp/src/uri.rs:566-609 | a query fails with the first fault of its pairs, a repeated parameter included, or has in each slot the one value its pairs give it and keeps the others in order |
| `OtpReadings.HexIsRead` | crates/misty-otp/src/secret.rs:86-97 | exactly the texts taken as hexadecimal and what each stands for |
| `OtpReadings.ConfigurationIs` | crates/misty-otp/src/uri.rs:264-338 | what a query has to say for there to be a configuration, and every field it then has, given or left out, for each kind |
| `OtpReadings.ConfigurationFailsTruly` | crates/misty-otp/src/uri.rs:264-338 | and if there is none, the error names something that is wrong |
| `OtpReadings.ModelIs` | crates/misty-otp/src/uri.rs:340-374 | the issuer is the parameter's if given and not empty, otherwise the label's; a mismatch is reported exactly when both are given and differ, a fragment exactly when there is one |
| `OtpReadings.ParseFailsTruly` | crates/misty-otp/src/uri.rs:220-374 | what does not parse is too long, fails at the first of the stages that does, or could not be printed within the cap |
| `OtpReadings.PrintedParametersAre` | crates/misty-otp/src/uri.rs:393-456 | a printed URI names the issuer in label and parameter, states exactly the parameters its kind leaves open, and keeps the vendor's |
| `OtpRoundTrips.ParsedIsWellFormed` | crates/misty-otp/src/uri.rs:220-374 | whatever parses is a model that can be printed: in range, with acceptable texts, no vendor name that is a known one, and a canonical form within the cap |
| `OtpRoundTrips.WrittenReads` | crates/misty-otp/src/uri.rs:422-453 | every parameter as written is free of structure and reads back as it was meant |
| `OtpRoundTrips.LocatesBack` | crates/misty-otp/src/uri.rs:230-249 | the parts of a printed URI are found again, whatever the names hold |
| `OtpRoundTrips.WarnsExactlyWhenOverridden` | crates/misty-otp/src/uri.rs:264-338 | each warning is given exactly when the value asked for is not the value the model has or the kind has no use for it; everything else is in the model as given |
| `OtpRoundTrips.InterpretsBack` | crates/misty-otp/src/uri.rs:264-338 | the printed parameters describe the export form's configuration with nothing overridden |
| `OtpRoundTrips.NumberIsTakenExactlyWhen` | crates/misty-otp/src/uri.rs:538-545 | exactly the texts taken as a number and the number each is taken for: digits that fit in 64 bits, after at most one plus sign |
| `OtpRoundTrips.ExportPrintsTheSame` | crates/misty-otp/src/uri.rs:485-496 | the export form prints the same URI |
| `OtpRoundTrips.UriRoundTrip` | crates/misty-otp/src/uri.rs:16-36 | for every input that parses, printing and parsing again gives exactly the export form with no warnings, and that prints the same URI |
| `Csv.Rows` | crates/misty-importers/src/csv.rs:38-146 | the scanner loop returns the specified rows |
| `Csv.RowLimit` | crates/misty-importers/src/csv.rs:116-119 | for every limit and text, the row limit keeps the first rows as they would be without it and does nothing else, except that a limit of zero returns the first row unless a blank line comes before it |
| `Csv.ScansInPieces` | crates/misty-importers/src/csv.rs:71-146 | cutting a text at an unquoted row end and scanning the pieces gives the same rows, but for line numbers |
| `Csv.FieldPushes` | crates/misty-importers/src/csv.rs:148-161 | a field goes in whole exactly when it fits, and otherwise puts the row in error for good, with the length at which it broke the limit |
| `Csv.RenderedTableScans` | crates/misty-importers/src/csv.rs:38-161 | scanning any table, each field quoted, plain or quoted in front, each row ended by LF, CR or CRLF, the last perhaps by nothing or broken off inside quotes, gives the rows back field for field on the lines they start; blank rows are left out and a row beyond the limits is its first fault |
| `Csv.Utf8WidthIsLeast` | crates/misty-importers/src/csv.rs:148-151 | the bytes a character counts for are the fewest UTF-8 needs |
| `Resync.ResyncCounter` | crates/misty-otp/src/generate.rs:329-351 | the non-stopping scan returns the least counter in the clamped, overflow-cut window whose code matches, and nothing exactly when there is none |

## Left out

- `SyncProtocol.StepKeepsInv`: a page, a conflict or an edit that the merge refuses is not a step; nor are rows whose bytes were reclaimed, and deletes. Two secrets meeting under one id, which the vault forks, count as refused there and are steps of `ForkingProtocol`. A merge that fails after the known row was already updated in memory is not covered by either; `EngineRuns.PushIsARun` and `PushProgress.RecordedIsHeld` say what such a failure leaves.
- `EngineRefinement.TakeRefines`: the pages it covers hold items and groups with their bytes; a roster change, settings, an icon or a rejected or reclaimed row is not seen by the protocol.
- `EngineRefinement.AttemptRefines`: likewise the server's row, if there is one, holds an item or a group with its bytes.
- `EngineRuns.PullIsARun`: peers' writes carry at least the value they replace, as every device's do; the runs are of the protocol whose rows merge in place, not of `ForkingProtocol`.
- `SyncPull.Engine.Pull`: the counters `applied` and `ignored` and the conflict list of the report, and a failing save of the state, are not modelled.
- `TrustChain.TrustChains`: replacement by an older roster that still chains is allowed, as in the code, which does not order rosters in time.
- `OtpRoundTrips.UriRoundTrip`: whether bytes are acceptable text is a parameter, assumed only to pass printable ASCII.
- The pass that deletes purged rows on the server, the push over the whole queue, epoch rotation and the retry schedule.
- Server quotas, the byte cap of a page, authentication and everything else about HTTP, TLS, JSON and CBOR.
- Groups, group merges and the vault's stored columns other than the envelope.
- Cryptography: signatures are symbolic, fingerprints are represented by the envelopes they identify, fork ids and HOTP codes are arbitrary functions.
- Opening a roster's envelope before its successor check, and the sealed enrolment grant.
- Setters of a token's configuration, code generation, time windows and drift.
- Importers other than the CSV scanner, the bindings and the user interfaces.
- Zeroisation, constant-time comparison and redaction.
