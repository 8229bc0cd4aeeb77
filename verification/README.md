# Sync server: a verified model

This project models the server side of a clipboard and notes sync service and
proves what its protocol keeps. Clients push encrypted entries, share them into
spaces, withdraw them again, upload blobs against a quota, pull what they missed
under one timestamp cursor, and listen on sockets. The server never reads
content, so everything it guarantees is about rows, stamps, memberships, wrapped
keyrings and bytes. Those are what the model has.

## How the model is built

**State.** `Tables.Tables` is one value holding every table: entries, removal
records, blobs and quotas, spaces, memberships, join requests and invites.
`Tables.Database` is the mutable object the services write through, with one
field for each table; `View()` is the value it currently holds.

**Services.** Each service function is a method on the database, with the
branches, early exits and loops of the original, proved equal to a function from
the old tables to the new ones (`Upsert`, `TakenDown`, `Requested`, `Left`,
`LetIn`, `Entered`, ...). The connection hub, the presence store and the settings
store are classes of their own, because the original keeps them outside the
tables.

**Runs.** `Runs.Event` is any one call with the clock reading it took, and
`Runs.Run` applies a sequence of them. The theorems about runs hold for every
sequence of every mix of calls. A committed push appears as its entries one by
one (`Runs.BatchIsARun`); a refused one does not appear, because it leaves
nothing. Every other call is the service method of its name (`Runs.Serve`).

**Files.** `Push`, `TakeDown`, `Blobs`, `Spaces`, `Door`, `Hub`, `Presence` and
`Settings` model the code. `Pull` and `Paging` model the queries. `Runs` puts
the calls together. The rest is about them: `Access` (what is answered and who
may do what, over the rows alone), `Sharing` (one author, durable withdrawals),
`Convergence` (a pulling device), `Batches`, `RowBudget`, `LastWrite` and
`Repeats` (which push a row ends up with), `BlobSafety`, `Quota`, `Belonging`
(who is a member and why), `Keys` (who may change whose ring), `History`
(floors), `Start` (every invariant holds of the empty database, hence in every
reachable state) and `Witnesses` (reachable states where a tempting claim
fails).

## What the model takes as given

- Calls are serial: each commits as one step. The push lock of
  `src/sync/service.py:84-87` is per account, so for two accounts this is an
  assumption about the database's isolation.
- Clock readings are parameters. Run theorems that need it say that readings
  never go backwards (`Runs.InOrder`). Convergence also needs every later call
  to be stamped strictly above the cursor the device holds. Nothing in the code
  enforces that, and two pushes in one millisecond with a pull between them break
  it: `Witnesses.AnEqualStampIsNeverPulled`.
- Each connection registers with the hub once, under the device its handshake
  fixed (`src/realtime.py:785-819`). `Hub.BindKeepsIndexIff` shows that the index
  depends on it.
- Ids are numbers; only equality and, for the recorded author of a take-down,
  order is used. Fresh ids are parameters, and a taken one is refused.
- `wrapped_keys` is a map, as the code reads it after parsing; keyrings and
  ciphertext are opaque strings. What the object store says about an upload, and
  the look-ups by email and by invite code, are arbitrary parameters.
- `Ring.epoch` and `Space.departures` are bookkeeping for the proofs. No
  operation reads them to decide anything.
- A join request is addressed by its space and user, which its unique index
  allows; its own key columns are only ever null, so they are not in the model.
- A single upsert that names one record twice is an error of the database
  (`Refusal.RemovalNamedTwice`), as Postgres documents for `ON CONFLICT DO UPDATE`.

## Where the code does less than it seems to

Each of these is a property that fails, the exact condition under which it holds,
and calls from an empty database that reach a failing state.

- **A delete can move `updated_at` backwards**, so an edit and a delete do not
  always commute. On a row without spaces, under one budget, they do exactly when
  the edit is no newer or there is no room to bring the row back
  (`LastWrite.EditAndDeleteCommuteIff`); as two calls or in one batch, "no room" is a
  count of live rows, and not the same one (`LastWrite.EditAndDeleteAsCallsCommuteIff`,
  `LastWrite.EditAndDeleteInABatchCommuteIff`). Reached by `Witnesses.OrderMayMatter`.
- **A blind retry may undo a delete.** A repeated push changes nothing exactly when
  the last push stored in its row outlives it or something but its age bars it
  (`Repeats.RepeatsChangeNothingIff`). Reached by `Witnesses.ARetryMayRevive`.
- **Stored tombstones have no bound**, because deleting a live row is charged to no
  budget. Over any run in which an account pushes one entry at a time, they stay
  within the larger of the cap and their start exactly when no push deletes a live
  row while the account already holds that many (`RowBudget.TombstonesStayWithinCapIff`;
  for one push, `RowBudget.OnePushKeepsTombstonesIff`). Reached, for every count, by
  `RowBudget.TombstonesAreUnbounded`. What a larger batch adds is accounted for to the
  row (`RowBudget.BatchAccounts`).
- **A row stamped no higher than the cursor a device already holds is not delivered
  to it.** The last page leaves a device in step exactly when it was following before
  (`Convergence.CatchesUpIffFollowing`), and one that is not never gets in step by
  pulling (`Convergence.PullsAloneNeverMend`). Reached by
  `Witnesses.AnEqualStampIsNeverPulled`.
- **Two live rows of one account may name one blob**, although the comment at
  `src/sync/service.py:216-221` rules it out. A push then keeps every live row's
  object exactly when no other live row holds the blob it takes off its own row
  (`BlobSafety.WriteKeepsBlobsIff`). Reached by `Witnesses.TwoRowsMayShareABlob`, and
  carried on to an object deleted while in use by `Witnesses.AnObjectInUseIsCollected`.
- **A late confirm may oversell reservations**, exactly when there was no room
  left beside them (`Quota.LateConfirmHonouredIff`). Reached by
  `Witnesses.ALateConfirmOversells`, where a confirm inside its reservation is refused.
- **A row that names a space twice cannot leave it by one push.** Of the pushes
  nothing else stops, exactly those that drop a space the row names twice fail as a
  whole (`Batches.TwinsBlockUnsharingIff`).
  Reached by `Witnesses.OnePushCannotUnshareATwin`. A take-down of the row goes through,
  and so do two pushes, the first naming each space once (`Batches.NamingOnceUnblocks`,
  `Witnesses.TwoPushesUnshareATwin`).
- **A request to rekey may be withdrawn without a new key.** It goes exactly at a
  handout of the owner, even an empty one, after which every member holds a ring
  (`Keys.OneCallAnswersTheRekey`); the owner's own ring, which no departure clears,
  counts towards that. Reached by `Witnesses.ARekeyWithoutANewKey`.
- **A membership may name who wrapped a ring it does not have**, exactly when the
  invite carried none (`Keys.InvitedNewcomersAreNamedIff`). Reached by
  `Witnesses.AWrapperWithoutARing`.
- **A settings PUT without a base can hide a version from a merged one**, exactly
  when some such PUT puts another blob under the stamp it overwrites
  (`Settings.MergesReplaceTheirBaseIff`). Reached by `Witnesses.AVersionIsLost`.

## Model

| member | source | states |
|---|---|---|
| Convergence.DevicesConverge | src/sync/service.py:384-529 | Any mix of calls and pulls of any page size: a pull that hands back no cursor leaves each slot of the device holding exactly its view of the row that carries the entry there now, and nothing where no row does |
| Convergence.CatchesUpIffFollowing | src/sync/service.py:447-491 | The last page leaves the device in step if and only if every slot that disagreed had something about it stamped above the cursor; no page mends, or creates, any other disagreement |
| Convergence.PullsAloneNeverMend | src/sync/service.py:447-491 | A device with a disagreement about which nothing is stamped above its cursor is out of step after any number of pulls |
| Witnesses.AnEqualStampIsNeverPulled | src/sync/service.py:192-233 | From an empty database: of two pushes at one stamp with a pull between them, the second is behind the cursor and the device is no longer following |
| Convergence.CallsAreTraceable | src/sync/service.py:232-263 | Every call stamps each row it changes, keeps a record for each space a row leaves, and leaves both above any cursor below its own stamp |
| Convergence.PageSettlesSlot | src/sync/schemas.py:130-135 | Removals before entries: after one page a slot agrees, unless something about it lies beyond the page |
| Start.EveryReachableStateIsInOrder | src/sync/service.py:345-378 | From an empty database, any calls in clock order leave one author for each shared entry, trailing removal records, and memberships, floors and rings in order |
| Start.EveryReachableBlobIsInPlace | src/background.py:170-214 | From an empty database, under the same two conditions as below, blobs in use stay confirmed and quotas are kept |
| Start.FreshDevicesConverge | src/sync/service.py:384-529 | End to end: after any calls in clock order from an empty database, a device with nothing and a cursor below every stamp that pulls while the server goes on ends in step |
| Start.FreshDevicesFollow | src/sync/service.py:384-424 | On any tables, every slot of such a device agrees or has something about it above the cursor |
| History.RunKeepsFloorsPast | src/spaces/service.py:282-298 | In clock order no run leaves a member a history floor ahead of the clock |
| Convergence.DevicesCanCatchUp | src/sync/router.py:89-101 | From any state and for any page size some number of pulls ends without a cursor |
| Paging.PageIsComplete | src/sync/service.py:467-491 | A page is a prefix holding exactly the rows stamped up to its cursor, so no run of equal stamps is split, and exceeds the limit only for one stamp that alone does |
| Paging.PageIsLongest | src/sync/service.py:467-491 | No page within the limit that ends between two stamps is longer, and there is no cursor if and only if all rows fit |
| Pull.PullIsComplete | src/sync/service.py:384-424 | Both streams are whole up to the merged cursor, which is a stamp above the one sent, and hold nothing outside the query |
| Pull.PullServesExactly | src/sync/service.py:384-424 | Over the tables alone: an entry is in the answer if and only if it is the reader's own or carries a space whose membership of theirs has no floor above its stamp, and a removal if and only if its space has such a membership; both above the cursor sent, up to the one handed back, and of the type asked for |
| Pull.AuthorsSeeTheWholeRow | src/sync/service.py:427-437 | An author is shown every space and every wrap of their row |
| Pull.WalkReturnsEverything | src/sync/service.py:447-491 | For every page size, following the cursor returns exactly the entries and removals visible above the start |
| Pull.EveryPageProgresses | src/sync/service.py:467-491 | Each page with a cursor leaves strictly fewer rows above it |
| Pull.EveryWalkEnds | src/sync/service.py:467-491 | Every chain of pages a client can be answered with, finished or not, has at most one page more than there are visible rows above its start |
| Pull.WalksAreChains | src/sync/service.py:447-464 | A walk that reached the end is such a chain, so the bound is one on every complete walk |
| Pull.WalkEnds | src/sync/router.py:89-101 | For every limit of at least one there is a walk to the end |
| Sharing.RunKeepsSound | src/sync/service.py:345-378 | In every state of every run one account's row at most carries a space for an entry, no removal record is later than a row that carries its space now, tombstones hold no payload, and no stamp is ahead of the clock |
| Sharing.WriteKeepsOneAuthor | src/sync/service.py:184-204 | Checking all spaces on insert and the added ones on update is enough to keep one author for each shared entry |
| Sharing.WithdrawalsAreDurable | src/sync/service.py:212-263 | Without pruning, a space some row once carried and no longer does has a removal record, stamped no earlier than the call that took the row out |
| Sharing.LeavingIsRecorded | src/spaces/service.py:589-613 | The one call that takes a row out of a space records it at its own stamp, whoever made it |
| Push.PushEntries | src/sync/service.py:58-128 | A batch is `Upsert` from left to right, or leaves every table as it was; accepted, conflicts and withdrawals are reported in order |
| Push.UpsertEntry | src/sync/service.py:131-307 | The method against its specification: every check in its order, the row, blob and records written, and the budgets charged; Access.EveryAnswerIff and Access.AcceptedPushChangesOnly say what that means |
| Access.EveryAnswerIff | src/sync/service.py:131-307 | Each answer to a push, if and only if, over the rows alone: too large; outside a space its row gains; a blob that is not the author's; stale; somebody else's entry; no room; a space named twice that it leaves; and accepted, if none of these |
| Access.OpeningBudgetIs | src/sync/service.py:89-104 | A push opens with the cap less the account's live rows and three caps less its tombstones |
| Access.AcceptedPushChangesOnly | src/sync/service.py:206-265 | Besides its own row an accepted push un-confirms the blob that row no longer names, and writes one record, in its author's name, for each space the row leaves; every other row, blob, record and table stays |
| Access.OneCallMovesRows | src/sync/service.py:184-187 | Any one call puts a row into a space only as its author's push while they are a member, and takes it out only as its author's push or a take-down by the author or the space's owner |
| Access.RowsEnterByMembers | src/sync/service.py:310-329 | Over any run: a row that came into a space did so at a call, found by the lemma, that is its author's push, made while its author was a member |
| Access.RowsLeaveRightfully | src/spaces/service.py:560-598 | Over any run: a row that went out of a space did so at its author's push or take-down, or at a take-down of the space's owner |
| Push.OverwriteRow | src/sync/service.py:206-265 | The update path in one transaction: the row, the superseded blob and the removal records together |
| Push.RecordSpaceRemovals | src/spaces/service.py:454-503 | Each listed space gets its one record of the entry and no other record moves; a list with a repeat fails and writes nothing |
| Push.ReleaseBlob | src/blobs/service.py:176-193 | Un-confirms the caller's own confirmed blob and says whether it did |
| Batches.WhatAPushReturns | src/sync/service.py:106-128 | Of a committed push: accepted and conflicts divide the entries and keep their order; the withdrawals are, in order, exactly the entries whose rows lost a space, with exactly the spaces lost |
| Batches.EveryEntryIsAnswered | src/sync/service.py:131-307 | The states a committed batch passes through: each step answers its entry, changes no other row, and records what it dropped |
| Batches.TwinsBlockUnsharingIff | src/sync/service.py:212-263 | A push nothing else stops fails as a whole exactly when it drops a space its row names twice |
| Batches.NamingOnceUnblocks | src/sync/service.py:212-214 | A push that names every space of such a row once drops no twin, and after it no push of the row does |
| Witnesses.OnePushCannotUnshareATwin | src/sync/schemas.py:46 | From an empty database: such a row is stored, the push that un-shares it is refused and changes nothing, and taking it down goes through |
| Witnesses.TwoPushesUnshareATwin | src/sync/service.py:212-263 | From the same row: a push naming the space once and a push without it are both accepted, and the withdrawal is recorded |
| Runs.BatchIsARun | src/sync/service.py:106-127 | A committed batch equals the run of its entries at the stamps it took |
| RowBudget.EntryAccounts | src/sync/service.py:206-211 | What one entry takes from the two budgets is what the table gained, up to the live rows it deletes |
| RowBudget.BatchAccounts | src/sync/service.py:277-306 | Through a whole batch, budget plus rows plus deleted live rows stays what it was, for both budgets |
| RowBudget.BatchStaysWithinCaps | src/sync/service.py:89-104 | Live rows end within the cap or where they were; tombstones exceed three caps by the deleted live rows at most |
| RowBudget.NoRunOverfillsAnAccount | src/sync/service.py:89-127 | No run of pushes by anyone and of other calls takes an account's live rows past the larger of the cap and its start |
| RowBudget.OnePushKeepsTombstonesIff | src/sync/service.py:206-211 | A one-entry push keeps the account's tombstones within the cap, or where they were, if and only if it does not delete a live row while the account is at the cap |
| RowBudget.TombstonesStayWithinCapIff | src/sync/service.py:89-128 | Over any run in which the account pushes one entry at a time and everybody else calls what they like: its tombstones stay within the larger of cap and start in every state if and only if no push of it deletes a live row while it holds that many |
| RowBudget.TombstonesAreUnbounded | src/sync/service.py:240-242 | For every n there are one-entry pushes that leave an account n tombstones, under any cap of at least one row |
| LastWrite.WhatWasPushedIsStored | src/sync/service.py:229-239 | An accepted entry is stored as pushed, a tombstone without payload, with the kind and creation time of the insert |
| Repeats.RepeatsChangeNothingIff | src/sync/service.py:184-211 | After any run, repeating an accepted push, from any device with any budget, changes nothing if and only if the last push stored in its row outlives it or something but its age bars it |
| Repeats.TheLastLandedIsStored | src/sync/service.py:229-239 | Through any run a row shows the last push that landed on it, but for what a take-down withdraws |
| Repeats.WhatUndidAPush | src/sync/service.py:195-198 | A push that no longer stands was undone at a call of the run: a live one by an older delete, a delete by a newer live push |
| Repeats.RetriesAreHarmless | src/sync/service.py:184-198 | Unless such a push was sent, a retry after any run changes nothing, and is stale or aborts, with exactly which |
| Witnesses.ARetryMayRevive | src/sync/service.py:195-198 | From an empty database: an edit, an older delete, and the edit again bring the row back |
| LastWrite.LiveEditsKeepTheNewest | src/sync/service.py:194-239 | On a row without spaces, after any sequence of live edits without spaces and blobs, the newest of them is stored, or what was there if none is newer |
| LastWrite.LiveEditsCommute | src/sync/service.py:194-239 | On a row without spaces, live edits without spaces and blobs and with distinct `updated_at` leave the same text in every order of arrival |
| Repeats.DeletesHoldOverRuns | src/sync/service.py:195-198 | Once a delete is stored, no run whose pushes to the row are no newer revives it or changes its text; afterwards a push lands if and only if it is newer and nothing else bars it |
| LastWrite.EditAndDeleteCommuteIff | src/sync/service.py:195-210 | On a row without spaces, for pushes without spaces and blobs, under one budget: an edit and a delete leave the same text in both orders if and only if the edit is no newer or no live slot is left |
| LastWrite.EditAndDeleteAsCallsCommuteIff | src/sync/service.py:89-104 | The same edit and delete as two pushes: if and only if the edit is no newer or the account holds more live rows than the cap |
| LastWrite.EditAndDeleteInABatchCommuteIff | src/sync/service.py:101-127 | The same edit and delete as one batch: if and only if the edit is no newer or the account holds at least as many live rows as the cap |
| Witnesses.OrderMayMatter | src/sync/service.py:195-198 | After one push from an empty database: an edit and an older delete leave the row deleted in one order and live in the other |
| TakeDown.RemoveEntryFromSpace | src/spaces/service.py:506-614 | Whoever may not look, and whoever asks for what the space does not carry, gets one answer; a member none of whose copies are there another, both if and only if, and nothing changes; otherwise every copy that is the caller's own or in the caller's space loses the space and its wrap, no other row moves, and one record names the caller or the least author |
| TakeDown.AnswersAsItShould | src/spaces/service.py:545-566 | The two refusals, if and only if, over spaces, members and copies |
| TakeDown.TakingDownRows | src/spaces/service.py:568-614 | A take-down that goes through, row by row, with its one record |
| TakeDown.StripRows | src/spaces/service.py:589-598 | The loop strips the space and its wrap from exactly the matched rows |
| Blobs.SumSizes | src/blobs/service.py:44-61 | The sum over the counted blobs, in any order |
| Blobs.RequestUpload | src/blobs/service.py:71-96 | Refused for quota if and only if confirmed and reserved bytes leave no room for it; otherwise one reservation is added, and nothing else changes |
| Blobs.ConfirmUpload | src/blobs/service.py:99-130 | Confirms what the store holds in the size and with the checksum announced, deletes it if it does not match, and refuses it for quota; each answer if and only if, and only this row changes; confirming twice changes nothing |
| Blobs.ReleaseUpload | src/blobs/service.py:141-173 | Gives back the caller's own blob unless a live entry of anyone points at it |
| Blobs.ReleaseUnreferencedBlobs | src/background.py:170-196 | No row goes; a blob turns unconfirmed exactly when it was confirmed, is past its grace, and no live entry of anyone points at it |
| Blobs.CleanupOrphanBlobs | src/background.py:199-214 | Deletes exactly the old unconfirmed blobs the store would delete |
| Blobs.PruneSpaceEntryRemovals | src/background.py:217-240 | A record stays, unchanged, if and only if its stamp is within the retention |
| BlobSafety.WriteKeepsBlobsIff | src/sync/service.py:216-244 | A push keeps every live row's blob confirmed and its account's if and only if no other live row holds the blob it supersedes |
| BlobSafety.NothingInUseIsCollected | src/background.py:199-214 | With blobs in place, neither sweep touches a blob a live row points at, and no cleanup deletes its row |
| BlobSafety.RunKeepsTidy | src/sync/service.py:332-342 | While no push names a blob another live row holds, every run keeps each live row's blob confirmed and owned by its account |
| BlobSafety.SharedBlobIsCollected | src/sync/service.py:216-221 | Otherwise: in any state where two live rows share a blob, deleting one leaves the other's object to the collector |
| Witnesses.TwoRowsMayShareABlob | src/sync/service.py:189-190 | From an empty database: an upload and two pushes leave two live rows on one blob |
| Witnesses.AnObjectInUseIsCollected | src/background.py:199-214 | Carried on by a delete and a cleanup: a live row whose blob is gone |
| Quota.RunStaysWithinQuota | src/blobs/service.py:99-130 | While no quota is lowered, no run, however late it confirms, takes confirmed bytes past the quota |
| Quota.RunHonoursReservations | src/blobs/service.py:71-130 | If every confirm comes inside its reservation, confirmed and reserved bytes together never exceed the quota |
| Quota.PromptConfirmsFit | src/blobs/service.py:127-128 | With reservations honoured, the second quota check never refuses a prompt confirm |
| Quota.LateConfirmHonouredIff | src/blobs/service.py:51-56 | A late confirm that passes keeps reservations covered if and only if there was room beside them |
| Witnesses.ALateConfirmOversells | src/blobs/service.py:127-130 | From an empty database: after a late confirm, one inside its reservation is refused for quota |
| Spaces.CreateSpace | src/spaces/service.py:86-112 | Adds one space, in its opening settings, and one membership, the owner's, without a floor or a ring; nothing else changes, and a taken id changes nothing |
| Spaces.UpdateSpace | src/spaces/service.py:212-262 | Owner only; each setting, and who may approve, as asked or as it was; history shared takes every floor of the space off; the answer is whether one came off |
| Spaces.AddMembership | src/spaces/service.py:265-300 | An existing member is left as they are; a newcomer has a floor, this moment, if and only if history is not shared; nobody else changes |
| Spaces.RemoveMember | src/spaces/service.py:303-359 | Each answer if and only if: a stranger to the membership who does not own the space is refused, and so is an owner who would leave; otherwise the membership goes, every other ring but the owner's and every invite's is cleared, a rekey is asked for, and no other row changes |
| Spaces.LeavingRows | src/spaces/service.py:328-359 | One departure, row by row over members, spaces and invites |
| Access.OneCallMovesMembers | src/spaces/service.py:303-328 | Any one call takes a membership away only as its member's call or the owner's, and adds one only as a new space's owner, by an approval of someone who may give it, or by an invite addressed to the newcomer, pending and in time |
| Access.MembersLeaveRightfully | src/spaces/service.py:313-328 | Over any run: a member who has gone went at their own call or the owner's, and was not the owner |
| Access.MembersJoinRightfully | src/spaces/service.py:265-300 | Over any run: a member who has come did so in one of the three ways, with the leave it asks for at that moment |
| Spaces.ClearRings | src/spaces/service.py:340-344 | Clears exactly the given members' rings and wrappers |
| Spaces.ClearInviteRings | src/spaces/service.py:350-357 | Clears exactly the given invites' rings |
| Spaces.HandOut | src/spaces/service.py:424-438 | Writes each ring the caller may write at that point, in order, and reports whose |
| Spaces.DistributeKeys | src/spaces/service.py:378-451 | Members only; of the rings offered for one member the owner's last stands, a member's first and only in a gap that is not the owner's; the answer names exactly those supplied; the fingerprint and the end of a rekey are the owner's |
| Spaces.HandoutsSupply | src/spaces/service.py:424-438 | Which of the rings offered each row ends up with, and that no other row moves |
| Spaces.HandoutsReport | src/spaces/service.py:424-438 | The answer names a member if and only if their row was open to the caller and a ring was offered for them |
| Spaces.DistributingRows | src/spaces/service.py:420-451 | One distribution, row by row, with the fingerprint and the request to rekey |
| Door.RequestJoin | src/spaces/join_requests.py:108-161 | Each answer if and only if, the expired code, the member and the waiting or declined request each on their own; a spent request is reopened, a declined one left alone |
| Door.Approve | src/spaces/join_requests.py:226-258 | Goes through if and only if the caller may answer and the request waits; closes it in their name; a newcomer holds the ring sent, named unless it is empty; no other row changes |
| Door.Decline | src/spaces/join_requests.py:261-272 | Goes through for the same callers; the request stays, declined in their name, and no other row changes |
| Door.CreateInvite | src/spaces/invites.py:118-185 | Each refusal if and only if, and none leaves a trace; otherwise refreshes the pending invite of the address or adds one, without a ring, and no other row changes |
| Door.AttachInviteKey | src/spaces/invites.py:273-304 | Goes through if and only if the caller sent the invite and it is pending; only its ring changes |
| Door.RevokeInvite | src/spaces/invites.py:377-399 | The same callers; only its status changes, so that neither call goes through again |
| Door.AcceptInvite | src/spaces/invites.py:307-347 | Each answer if and only if: the addressee only, verified, in time; the ring moves to the membership, and no other row changes |
| Door.InviteForInvitee | src/spaces/invites.py:211-223 | One exact condition for each answer; in particular a caller to whom the invite is not addressed gets the same answer whatever its state |
| Keys.InvitesAreAnsweredOnce | src/spaces/invites.py:211-223 | Once accepted or declined, after any run and at any time, the invite is refused to everybody, and to the person who answered it as already decided |
| Door.DeclineInvite | src/spaces/invites.py:357-373 | Goes through if and only if the invite is addressed to the caller, pending and in time; it is bound to them and no other row changes |
| Belonging.RunKeepsOrder | src/spaces/service.py:265-359 | In every state: the owner is a member and alone has the role; every other member has an approved request or an accepted invite bound to them; shared history leaves no floor; every ring of another member or on an invite was supplied since the last departure |
| Belonging.LeavingKeepsOrder | src/spaces/service.py:328-357 | A departure starts a new epoch with no ring of the old one left but the owner's |
| Belonging.ApprovingKeepsOrder | src/spaces/join_requests.py:226-258 | Letting somebody in keeps everything in order: they are vouched for by the request, and hold a ring of the current epoch or none |
| Belonging.AcceptingKeepsOrder | src/spaces/invites.py:336-347 | So does accepting an invite: they are vouched for by it, and a ring it carried is still of the current epoch |
| Belonging.HandoutsChangeOnlyRings | src/spaces/service.py:424-438 | A handout changes nothing but rings: the owner's only by the owner, and by a member only one that was missing |
| Keys.OneCallMovesRings | src/spaces/service.py:378-451 | No call moves the ring of a member who stays except a departure, the owner, or a member filling a gap that is not the owner's |
| Keys.OnlyTheOwnerChangesTheirRing | src/spaces/service.py:335-344 | Over any run in which the owner hands out nothing, the owner's ring and its wrapper stay as they are |
| Keys.RunKeepsOwners | src/spaces/service.py:303-359 | No run changes a space's owner or forgets a departure |
| Keys.OneCallAnswersTheRekey | src/spaces/service.py:440-448 | A departure asks for a rekey; the request goes exactly at a handout of the owner, even an empty one, after which every member holds a ring |
| Keys.RekeysAreAnswered | src/spaces/service.py:440-448 | A request that is gone at the end of a run was withdrawn at such a handout, which is found; every ring but the owner's then dates from after the last departure |
| Witnesses.ARekeyWithoutANewKey | src/spaces/service.py:440-448 | From an empty database: a departure, a member's relay of the old ring and an empty handout of the owner withdraw the request, with the owner's ring from before it |
| Keys.DeclinedForGood | src/spaces/join_requests.py:141-145 | A declined request never changes again in any run |
| Keys.SettledForGood | src/spaces/invites.py:219-220 | An accepted, declined or revoked invite keeps its answer in every run, and a ring on it stays if and only if nobody leaves the space |
| Keys.RunKeepsOnePending | src/spaces/invites.py:151-184 | If the look-up is truthful, no run leaves two pending invites for one address into one space |
| Keys.InvitedNewcomersAreNamedIff | src/spaces/invites.py:339-341 | A newcomer by invite has a wrapper exactly for a ring if and only if the invite carried one |
| Witnesses.AWrapperWithoutARing | src/spaces/invites.py:339-341 | From an empty database: an invite accepted before its ring is attached leaves a wrapper without a ring |
| Keys.ApprovedNewcomersAreNamedIff | src/spaces/join_requests.py:243-249 | One let in does if and only if the ring sent is not the empty string |
| History.SettingsNeverShrinkAPull | src/spaces/service.py:220-226 | No settings call takes an entry or a removal from what any reader can pull, from any cursor |
| History.OpenedIffAFloorLifts | src/spaces/service.py:241-259 | The answer says opened if and only if some member's floor changed |
| History.SharedHistoryIsWhole | src/sync/service.py:402-412 | A member without a floor pulls every entry and removal of the space above the cursor |
| Hub.ConnectionHub.ReserveSlot | src/realtime.py:202-210 | Holds a slot exactly when fewer than the limit are held |
| Hub.ConnectionHub.ReleaseSlot | src/realtime.py:213-220 | Gives the slot back and drops an empty set |
| Hub.ConnectionHub.BindLocked | src/realtime.py:223-239 | The socket ends on exactly the wanted channels, and every other seat stays |
| Hub.ConnectionHub.RegisterSocket | src/realtime.py:242-244 | Binds the socket under the device it announced |
| Hub.ConnectionHub.RebindSocket | src/realtime.py:247-259 | Binds under the known device, and does nothing for a socket that has gone |
| Hub.ConnectionHub.UnregisterSocket | src/realtime.py:262-278 | Takes the socket off everything and reports where it was |
| Hub.ConnectionHub.BroadcastLocal | src/realtime.py:417-471 | Exactly the targets out of reach are forgotten; everyone else keeps their channels and the index stays exact |
| Hub.BroadcastsInterleave | src/realtime.py:447-471 | With the drops spread among steps of any sockets: of those on the channel, exactly the unreachable ones not of the excluded device are gone, besides those that closed by themselves; off the channel only the latter |
| Hub.BindKeepsIndexIff | src/realtime.py:223-239 | Binding keeps the two-way index if and only if it does not change the device of a socket on some channel |
| Hub.RunsKeepTheIndex | src/realtime.py:191-278 | Over any interleaving in which each socket registers once, both directions of the index agree, no channel is empty, and slot sets are never empty nor over the limit |
| Hub.TheGoneStayGone | src/realtime.py:247-259 | A socket taken out does not come back without registering, whatever rebinds land late |
| Hub.TheForgottenHearNothing | src/realtime.py:262-278 | In an exact index a forgotten socket sits on no channel under any device |
| Hub.SocketAndPullAgree | src/realtime.py:389-414 | The socket's trimmed event and the pull show the same view of every row to every reader |
| Hub.OthersSeeOnlyTheirSpaces | src/sync/service.py:427-444 | A reader who is not the author sees exactly the row's spaces they are in and the wraps for those, never the personal one |
| Hub.ResolvedIff | src/realtime.py:287-296 | A connection is on its user's channel, on the one for everybody and on those of the user's spaces, and on no other |
| Presence.PresenceStore.AssertPresence | src/realtime.py:91-116 | The device is online from scratch, and nobody else's state moves |
| Presence.PresenceStore.UserIsOnline | src/realtime.py:119-137 | True if and only if some other device than the excluded one holds a live key |
| Presence.PresenceStore.PresenceForUsers | src/realtime.py:140-186 | The batched form answers as the single one for each user asked about, and nobody when the store is out of reach |
| Presence.PresenceStore.SweepUser | src/background.py:136-151 | Evicts exactly the lapsed devices, changes nobody's answer, and announces a user exactly when the last device went |
| Settings.SettingsStore.PutSettings | src/settings/service.py:16-73 | The client wins if and only if nothing is stored, or a PUT without a base is as new as what is, or a merged one is newer and names the stamp stored as its base; then its blob and stamp are stored, otherwise nothing changes; other accounts are untouched and the answer is what is stored |
| Settings.TheLastNewestIsStored | src/settings/service.py:34-43 | Over any PUTs without a base, what is stored is the newest of the start and the PUTs, and the last to arrive of those |
| Settings.StampNeverGoesBack | src/settings/service.py:36-43 | For any mix of PUTs the stored stamp never decreases |
| Settings.MergedPutsFormALine | src/settings/service.py:26-33 | When every PUT carries a base, the versions taken strictly increase and each was merged from the one it replaced |
| Settings.NoAcceptedChangeIsLost | src/settings/service.py:30-33 | Then a base names one version only: the one directly replaced, or the base of the first write into an empty store |
| Settings.MergesReplaceTheirBaseIff | src/settings/service.py:36-43 | Over any history, every merged PUT that is taken replaces the very version it was merged from, if and only if no PUT without a base puts another blob under the stamp it overwrites |
| Witnesses.AVersionIsLost | src/settings/service.py:36-43 | From an empty store: three PUTs after which a merge of the first version has replaced the second |

## Left out

- Convergence.DevicesConverge: the device's memberships stay as they are, later calls are stamped above its cursor, and nothing it still needs is pruned; the code promises none of these, and rows from before the one-author rule are outside its start state.
- LastWrite.EditAndDeleteCommuteIff: about rows and pushes without spaces and blobs, like the lemmas beside it; for any row, Repeats.RepeatsChangeNothingIff says which push stands.
- LastWrite.LiveEditsCommute: compares what a push decides about the text of a row without spaces and blobs; the device and the stamp of the last writer depend on the order.
- RowBudget.TombstonesStayWithinCapIff: the account pushes one entry at a time, as `src/sync/service.py:144-146` says its client does; in a larger batch an insert may follow a delete past the cap, which RowBudget.BatchStaysWithinCaps bounds.
- RowBudget.NoRunOverfillsAnAccount: counts rows, not bytes; `max_entry_bytes` is checked for each entry on its own.
- Hub.ConnectionHub.BroadcastLocal: forgets its unreachable sockets in one step; the interleavings between them are covered as separate unregister steps by Hub.BroadcastsInterleave and Hub.RunsKeepTheIndex.
- Door.Approve: one step, although `add_membership` commits the membership before the status is set, so a crash between the two is not modelled. The same goes for Door.AcceptInvite.
- Spaces.CreateSpace: one clock reading where the code takes two, and no invite code or name; `normalize_invite_code` and `format_invite_code` are string formatting.
- Account and space deletion, which remove rows through database cascades.
- Read-only endpoints: lists, breakdown counts, download URLs, the stored pull cursor.
- The resend cooldown and mail of invites, comments, announcements, device registration and key recovery.
- Event delivery: Redis publish and subscribe, send timeouts, pings, token expiry and the endpoint's teardown order. The model says who is on a channel, not what reaches them.
- Request validation (sizes, patterns, future timestamps), rate limits, authentication, CORS, the admin routes and web pages.
- The maintenance loop's cadence and leader lock: sweeps may come at any time in a run.
- Concurrent transactions below the serial steps, and the crash of a process between two commits.
