# Verified model of the ArcRelay control service

This project models five stateful components of the ArcRelay desktop control service and its clipboard replication,
and proves what their whole runs guarantee.

* **Clipboard replication** (`ReplicaRecords`, `ReplicaStore`, `ReplicaWorld`, `ReplicaScan`, `ReconcileLabels`,
  `ReconcileRecords`, `Reconcile`, `ReplicaWire`, `Delivery`). Two replicas exchange versioned records and labels page
  by page. Every suspension point of the exchange is a turn in which both stores may be written by anybody else.
  `ReplicaWire` is the wire form of one record, `WireRules` what a receiver accepts as an identifier, a version and a
  colour. `Delivery` puts the two together: what the protocol exchanges is what the wire form carries.
* **Blob store** (`BlobAccounts`, `BlobCharges`, `BlobReclaim`, `BlobExpiry`, `BlobStore`, `BlobRuns`,
  `BlobGrants`). A content-addressed cache with per-device quotas, tickets that pin blobs, reclamation, and expiry that
  is skipped before a deadline.
* **Idempotent commands** (`CommandCacheSpec`, `CommandCache`, `CommandProtocol`, `CommandReplay`,
  `CommandProgress`). The bounded result cache as an object, and requests, in-flight executions and permits as a state
  machine.
* **Input control** (`InputControls`, `InputSession`, `InputSessions`, `InputRuns`, `LeaseProtocol`, `LeaseRuns`,
  `LeaseEndings`, `LeaseProgress`). The session manager as an object, and the lease across connections, gate and
  cancellation as a state machine.
* **Action output** (`ActionGap`). Numbered output over a queue that may drop frames.

`Basics` holds counters, sums and filters, `Ordering` the sort orders.

## How to read it

Objects that the service changes in place are classes whose methods are proved against relations or functions on
values; what those relations imply is proved as lemmas beside them. Concurrent parts are state machines whose steps
are the sections between two await points. `Serve`, `ServeOutput`, `BlobRuns.Run` and `Transfer` put whole runs
together.

Main results:

1. `Reconcile.Reconcile`: `converged` is reported only if there was one moment, during the run, at which both stores
   held the same record versions and labels, whatever was written in between, and where versions name contents the
   records, payloads included, and the labels were equal then (`AgreedIsEqual`). A quiescent pair always converges;
   then both stores hold the merge of the records and of the labels, the least replicas above both (`MergedIsLeast`),
   the labels are equal if and only if no version stood for two of them, and the counters reported are exactly what
   either side lacked of the other. With stores that only grow, no record version is ever without its payload, at any
   moment, on either side. `Delivery.ConvergeOverWire`: over the wire form of `ReplicaWire`, convergence if and only if
   no merged record names more labels than a record may.
2. `BlobStore`: every counter and index equals what it caches after every operation, and skipping expiry before the
   deadline changes nothing; `BlobRuns.Run`: every reply is the one its operation is due, all replies are determined
   by the operations (`RepliesOnce`), and a ticket is honoured if and only if it was granted to that device for that
   transfer, has not been spent since and has not expired, and it delivers bytes that device inserted before the
   grant; `BlobGrants.IssuesAreDue`: what a device that asks for a ticket is told, each answer if and only if the
   grants so far, spent and expired ones left out, call for it.
3. `CommandProtocol.AtMostOnce`: a command runs twice under one key only if the first result could not be kept, or
   expired or was evicted in between, and never concurrently; `CommandReplay.ResultIsReplayed`: while a result is kept
   every duplicate is answered with it and starts nothing; `CommandProgress.NeverStuck`: whatever has happened, every
   pending request can still be answered.
4. `InputRuns.Serve`: over any calls every call is answered as it is owed, the events handed out are, in order, exactly
   those that change what is down or repeat a key, and what is down natively is what replaying the controlling
   session's events gives; `LeaseRuns.LeasesHaveOwners`: leases have exactly one owner through any cancellation;
   `LeaseEndings.DecidedEnds`: a lost focus, a failed routing and a failed application end the lease;
   `LeaseProgress.NeverStuck`: a connection that is gone can always still be cleaned up; `LeaseRuns.GrantIsClean`:
   when a lease is granted with something still down.
5. `ActionGap.ServeOutput`: over any outputs, lags, heartbeats and queue states, up to the output that finds the queue
   closed, the frames are exactly those the events call for; a gap names exactly the outputs lost in it, and asks for
   everything only if some were lost unseen or they are too many to name; frames tile the numbers, and every output is
   delivered, named by a gap or pending.
6. `ReplicaWire.Transfer`: exactly the deliverable records arrive, normalised, and the stream behind them is
   untouched.

Where a property fails, the model keeps the code, shows a case and states when the property holds:

* A lease is granted while a key or button is down natively if and only if the last native release failed and left one
  down: its error is ignored (`LeaseRuns.GrantIsClean`, `LeaseRuns.GrantAfterFailedRelease`).
* Output numbers saturate at the last 64-bit number. An output, a gap or a lag keeps the frames tiling if and only if
  the numbers it needs are left, two for a gap (`ActionGap.CanNumber`, in the contracts of `PushActionOutput`,
  `FlushGap` and `Lag`); after all of them are used the next output repeats one (`ActionGap.NumbersRunOut`).
* A key's first press is handed out with its repeat flag if the client set it (`InputRuns.FirstPressRepeats`). Native
  repeats are of keys that are down if and only if the clients' are (`InputSessions.RepeatsHeld`, `InputRuns.Serve`).
* The merge of two deliverable records is deliverable if and only if it names at most 4096 labels
  (`Delivery.MergeGoes`). Two records can exceed that together (`Delivery.TogetherTooMany`), and then a quiescent pair
  does not converge.
* A label with an empty identifier is never paged. Replicas that agree hold the same labels if and only if the remote
  one has none (`Reconcile.AgreeOnLabels`); a converged run may leave one behind (`Reconcile.EmptyLabelStaysBehind`).

Assumptions are explicit parameters or hypotheses. Times are milliseconds read from one monotone clock, and an
operation that reads it several times takes several readings. Random identifiers are arguments. SHA-256 is a function
without collisions among the blobs at hand. UTF-8 validity and syntax detection are functions. The clipboard store
lives in another crate: it is modelled as a map whose revision moves with every change, whose `apply` is the
component-wise merge (as tests.rs:536-558 shows) and whose pages are newest first below a cursor. A version names one
content (`Names`), and only the results about payloads and about equal contents use that; what it means for labels is
an if and only if (`OneLabelPerVersion`).

## Model

| member | source | states |
|---|---|---|
| Ordering.TextLtByFirst | src/clipboard_replication/mod.rs:400-416 | texts are ordered by the first place where they differ, and a text comes before its extensions |
| ReplicaRecords.CoversTransitive | src/clipboard_replication/mod.rs:400-416 | covering is transitive over content, favorite, label memberships and usage |
| ReplicaRecords.MutualCoverIsSameVersions | src/clipboard_replication/mod.rs:400-416 | two records cover each other if and only if all their version components are the same |
| ReplicaRecords.MergeCoversBoth | src/clipboard_replication/tests.rs:536-558 | the component-wise merge covers both records |
| ReplicaRecords.MergeIsLeast | src/clipboard_replication/tests.rs:536-558 | whatever covers both records covers their merge |
| ReplicaRecords.MergeTakesLater | src/clipboard_replication/tests.rs:536-558 | content, favorite and each membership come whole from the later revision, content with equal revisions from the later device; capture time, copy count and last use are the larger, first capture the smaller of the two |
| ReplicaRecords.MergeAbsorbs | src/clipboard_replication/mod.rs:400-416 | merging changes nothing if and only if the current record covers the incoming one |
| ReplicaRecords.MergeKeepsWhole | src/clipboard_replication/mod.rs:417-429 | a merge leaves a record with its payload if and only if the transfer is safe: payload present, tombstone, or content version not newer than the current one |
| ReplicaRecords.PayloadIffNeeded | src/clipboard_replication/mod.rs:417-429 | the payload is asked for if and only if the metadata alone would leave a record without it |
| ReplicaRecords.WholeSameVersionsEqual | src/clipboard_replication/mod.rs:400-429 | where versions name contents, complete records with the same versions are equal, payload included |
| ReplicaStore.MergeRecordsCoversBoth | src/clipboard_replication/mod.rs:455-493 | the merge of two stores covers both |
| ReplicaStore.MergeRecordsIsLeast | src/clipboard_replication/mod.rs:455-493 | it is the least such store |
| ReplicaStore.MutualRecordsCover | src/clipboard_replication/mod.rs:400-416 | stores that cover each other hold the same records version for version |
| ReplicaStore.MergedTagIsWhole | src/clipboard_replication/mod.rs:523-527 | a merged label is one of the two labels, whole: the one of the later revision, between equal revisions the one of the later device |
| ReplicaStore.MergeTagsNamed | src/clipboard_replication/mod.rs:523-527 | where a version names one label, name, colour and deletion included, the merge of two dictionaries holds named labels only |
| ReplicaStore.SameVersionsSameTags | src/clipboard_replication/mod.rs:503-562 | dictionaries with the same versions are the same, contents included, if and only if no version stands for two labels |
| ReplicaStore.ListingIsExact | src/clipboard_replication/mod.rs:430-451 | the listing below a cursor contains exactly the records strictly below it, once each |
| ReplicaStore.ListingIsNewestFirst | src/clipboard_replication/mod.rs:430-451 | it descends by capture time, and by identifier where capture times are equal |
| ReplicaStore.ListingResume | src/clipboard_replication/mod.rs:164-196 | resuming below the k-th record lists exactly the records after it |
| ReplicaStore.ReplicaPage | src/clipboard_replication/mod.rs:165-171 | a page is the first records below the cursor, with a cursor to go on exactly when more follow |
| ReplicaStore.ResumeAfter | src/clipboard_replication/mod.rs:164-196 | after any resumable page what remains is the listing below its cursor |
| ReplicaStore.ServeTags | src/clipboard_replication/mod.rs:226-248 | a label page is the first hundred labels after the cursor in identifier order, and says where to go on exactly when more follow |
| ReplicaStore.TagsResumeAfter | src/clipboard_replication/mod.rs:226-248 | after a label page what remains is the labels after its cursor |
| ReplicaScan.ServeScan | src/clipboard_replication/mod.rs:164-196 | wherever the count or byte cut falls, a page is a non-empty prefix of what remains, or all of it, of at most as many records as asked for, one to a hundred, and more than one only within half a frame; nothing that fits waits, and its cursor resumes exactly behind it |
| ReplicaScan.LocalManifest | src/clipboard_replication/mod.rs:430-451 | if the local revision stood still the manifest is the whole store; if stores only grow, the store covers it at the end although its pages were read at different moments |
| ReplicaWorld.Await | src/clipboard_replication/mod.rs:455-667 | a suspension point lets both stores be written arbitrarily and moves a revision with every change |
| ReplicaWorld.StoreLocally | src/clipboard_replication/mod.rs:594-630 | applying a record merges it into the local store, moves the revision exactly when something changed, and keeps payloads complete if the transfer was safe |
| ReplicaWorld.StoreRemotely | src/clipboard_replication/mod.rs:345-397 | the same on the remote store |
| ReplicaWorld.StoreTagsLocally | src/clipboard_replication/mod.rs:523-527 | applying labels merges them into the local dictionary, counts exactly those that moved, and keeps a version one label |
| ReplicaWorld.StoreTagsRemotely | src/clipboard_replication/mod.rs:249-272 | the same on the remote store |
| ReconcileLabels.PullTags | src/clipboard_replication/mod.rs:503-533 | pages through the remote labels and refuses a page with one that a receiver does not accept; if the remote stood still every usable label was seen and merged; without writers each is visited once, in identifier order, the local labels become the merge, and the labels that moved are counted exactly; a version stays one label through every interleaving |
| ReconcileLabels.PushTags | src/clipboard_replication/mod.rs:534-562 | sends what is newer than what was seen, in chunks that the receiver may refuse; a pass that sent nothing found every local label matched remotely; without writers the remote labels become their merge with the local ones, and the labels sent and those that moved are counted exactly; a version stays one label through every interleaving |
| ReconcileLabels.QuietTagsAgree | src/clipboard_replication/mod.rs:503-562 | receiving and then sending, without writers, leaves the remote labels at the merge and both sides at the same versions, and both dictionaries equal, contents included, if and only if no version stood for two labels |
| ReconcileLabels.PlainLabelPasses | src/clipboard_replication/wire.rs:21-50 | which labels of printable text a receiver accepts, in characters: lengths, blanks, colour digits and revision |
| ReconcileRecords.StaleDecisionIsSafe | src/clipboard_replication/mod.rs:417-429 | metadata sent alone on an old manifest's word is safe against the store it reaches, because that store has grown |
| ReconcileRecords.PullOne | src/clipboard_replication/mod.rs:594-630 | one header is skipped, merged as metadata or fetched; it counts nothing only if the manifest already covered it, never leaves a version without its payload, and without writers merges exactly the remote record and counts exactly whether that changed something |
| ReconcileRecords.SendRecord | src/clipboard_replication/mod.rs:345-397 | asks for room, delivers label definitions and the record, each of which the wire or the receiver may refuse; success means that the last step merged the record into the remote store and that it changed it exactly if it was not covered there; failure stores no record; a safe record keeps payloads complete through every interleaving, and without writers the remote store becomes its merge with the record |
| ReconcileRecords.PushOne | src/clipboard_replication/mod.rs:640-664 | one local record is skipped, sent as metadata or loaded and sent; a decision from a stale manifest stays safe; without writers the remote store gains exactly that record, what changed is counted exactly, and one whose header the peer refuses counts as a failure |
| ReconcileRecords.PullRecords | src/clipboard_replication/mod.rs:564-630 | scans and receives page by page; without writers it visits exactly the remote listing, each record once and newest first, ends at the merge and counts exactly the records that were not covered |
| ReconcileRecords.PushRecords | src/clipboard_replication/mod.rs:631-665 | sends what the remote manifest does not cover; a pass that sent nothing found the remote manifest covering the local one; without writers it counts exactly the records that were not covered, and one that has to go and is refused makes the pass fail |
| Reconcile.MergeBack | src/clipboard_replication/mod.rs:631-665 | merging the merge back into the peer gives the same merge |
| Reconcile.CleanRecordsAgree | src/clipboard_replication/mod.rs:564-667 | a pass that found no difference while neither revision moved compared the whole of both stores, which held the same versions |
| Reconcile.ReconcileOnce | src/clipboard_replication/mod.rs:495-667 | a clean pass between unmoved revisions means agreement; a pass over a quiescent pair leaves both at the merge of records and labels, the labels equal if and only if no version stood for two, counts exactly what either side lacked, finds nothing once they are there, and fails if the peer refuses a record of that merge |
| Reconcile.FencesMeet | src/clipboard_replication/mod.rs:460-491 | four revision readings that match pin one common moment, the start of the pass |
| Reconcile.AgreedIsEqual | src/clipboard_replication/mod.rs:455-493 | at the agreed moment, where versions name contents and writers only add, the records were equal including payloads, and where versions name labels the labels that a scan lists were equal, contents included |
| Reconcile.Reconcile | src/clipboard_replication/mod.rs:455-493 | converged implies no failure and one moment of agreement at the reported revisions, under every interleaving; a quiescent pair always converges, to the merge of records and labels, the labels equal if and only if no version stood for two, and reports exactly how many records and labels each side lacked and how many live records there are; it never converges if the peer refuses a record of that merge; payloads stay complete at every moment |
| Reconcile.MergedLabelsAreOne | src/clipboard_replication/tests.rs:337-361 | what a quiescent pair converges to is one dictionary on both sides, name, colour and deletion included, if and only if no version stood for two labels |
| Reconcile.NewerOfMerge | src/clipboard_replication/mod.rs:640-664 | what a side lacks of the merge is exactly what it lacks of the other side |
| Reconcile.MergedIsLeast | src/clipboard_replication/mod.rs:455-493 | what a quiescent pair converges to covers the records and labels both had, and is covered by everything that does |
| Reconcile.AgreeOnLabels | src/clipboard_replication/mod.rs:226-248 | replicas that agree hold the same labels, version for version, if and only if the remote one has none with an empty identifier |
| Reconcile.EmptyLabelStaysBehind | src/clipboard_replication/mod.rs:226-248 | a run that converges while the remote replica has a label the local one lacks |
| ReplicaWire.MetadataFromWire | src/clipboard_replication/wire.rs:107-201 | metadata is accepted if and only if it meets every rule, including distinct label memberships, and is read back as sent, with the kind and change its numbers stand for |
| ReplicaWire.AcceptableMeans | src/clipboard_replication/wire.rs:107-177 | the rules spelled out: digits of the identifier, versions, device identifiers, text lengths, times against the clock, counts, numbers of kind and change, memberships |
| ReplicaWire.PlainRecordArrives | src/clipboard_replication/wire.rs:107-332 | which text records of printable metadata arrive, in characters and bytes, if and only if |
| ReplicaWire.MetadataTrip | src/clipboard_replication/wire.rs:52-201 | a record's metadata survives exactly when it is valid and not about files; only labels and syntax are lost |
| ReplicaWire.EncodeRecord | src/clipboard_replication/wire.rs:203-257 | exactly the transferable records are encoded: tombstones, and records whose payload is there and within the limits; the parts are the payload in order, each described by the media type its kind calls for, its size and its digest; kind and change numbers, metadata and memberships are the record's |
| ReplicaWire.SendParts | src/clipboard_replication/wire.rs:334-346 | the frames are the chunks of all parts in order, none empty and none too large |
| ReplicaWire.ReadIsSound | src/clipboard_replication/wire.rs:300-309 | what is read for a part is exactly the frames taken, with the announced length |
| ReplicaWire.ReadOfChunks | src/clipboard_replication/wire.rs:300-309 | reading undoes chunking and stops exactly behind the part, whatever follows |
| ReplicaWire.PartsAreGenuine | src/clipboard_replication/wire.rs:292-324 | every accepted part has the media type called for, the described size and digest, is within the limit of its media type and, unless it is an image, is text, for any frames |
| ReplicaWire.ReceiveRecord | src/clipboard_replication/wire.rs:259-332 | the receiving loops compute what the recursive description says a receiver makes of a record and its frames |
| ReplicaWire.RoundTrip | src/clipboard_replication/wire.rs:203-346 | encode, chunk, receive: the normalised record if and only if it is deliverable, taking exactly the frames sent |
| ReplicaWire.OnlyTheOriginalArrives | src/clipboard_replication/wire.rs:292-324 | with any frames behind a record, the only record a receiver can accept is the original, normalised |
| ReplicaWire.MetadataOnlyTrip | src/clipboard_replication/wire.rs:263-272 | metadata alone arrives, without payload, exactly when valid and not live |
| ReplicaWire.Transfer | src/clipboard_replication/wire.rs:203-346 | the whole way of one record, with the stream behind it left as it was |
| Delivery.WholeArrives | src/clipboard_replication/wire.rs:203-346 | a deliverable complete record of the protocol, encoded, sent in chunks and received, arrives as that record with its payload, taking exactly the frames sent |
| Delivery.ArrivesAsItself | src/clipboard_replication/wire.rs:203-346 | so does every record whose payload is the one its content version stands for |
| Delivery.HeaderArrives | src/clipboard_replication/wire.rs:259-272 | a header arrives if and only if its metadata is valid, as the record without its payload |
| Delivery.MembershipsTrip | src/clipboard_replication/wire.rs:52-201 | the list of memberships that travels stands for the same memberships |
| Delivery.GoesLater | src/clipboard_replication/wire.rs:107-201 | what a receiver accepts it accepts at any later time |
| Delivery.MergeGoes | src/clipboard_replication/wire.rs:107-201 | the merge of two deliverable records is deliverable if and only if it does not name too many labels |
| Delivery.TogetherTooMany | src/clipboard_replication/wire.rs:128-130 | two deliverable records whose merge is not |
| Delivery.ConvergeOverWire | src/clipboard_replication/mod.rs:455-493 | two quiescent replicas of deliverable records converge over this wire, to the merge, if and only if no merged record names too many labels, and then hold equal labels if and only if no version stood for two |
| BlobAccounts.NothingDueYet | src/server/blob_store.rs:336-344 | before the deadline an unconditional expiry would remove nothing |
| BlobAccounts.ExpiryIsExact | src/server/blob_store.rs:342-370 | exactly the tickets before their expiry stay, and exactly the blobs used within five minutes or held by such a ticket |
| BlobCharges.RoomIsCounted | src/server/blob_store.rs:273-287 | the saturating counters tell exactly whether a device and the store have room |
| BlobCharges.ChargeRemoved | src/server/blob_store.rs:372-397 | removing an entry keeps totals, device bytes and device entries equal to the sums they cache |
| BlobCharges.AddCounts | src/server/blob_store.rs:137-165 | adding a blob with its first owner keeps them exact |
| BlobCharges.AdoptCounts | src/server/blob_store.rs:94-124 | adding an owner to a stored blob keeps them exact |
| BlobCharges.IssueCounts | src/server/blob_store.rs:196-229 | issuing a ticket keeps the per-blob and per-device ticket counts and the set of transfer ids exact |
| BlobCharges.TicketDropped | src/server/blob_store.rs:399-422 | so does dropping one |
| BlobExpiry.RedeemKeepsShape | src/server/blob_store.rs:231-262 | redeeming keeps the deadline sound although the blob may become unpinned, because a ticket lives no longer than an idle blob |
| BlobReclaim.ReclaimedKeepsShape | src/server/blob_store.rs:289-328 | releasing one owner's delivered, unticketed blobs leaves sound entries and honours every ticket |
| BlobReclaim.ReclaimedOnce | src/server/blob_store.rs:289-328 | what is reclaimed is determined: the shortest run of the oldest reclaimable blobs that makes room |
| BlobReclaim.ReclaimMeans | src/server/blob_store.rs:289-328 | what is released was delivered to that owner and held by no ticket, and is that owner's no more; everything else stays as it was |
| BlobStore.BlobStore.RemoveEntry | src/server/blob_store.rs:372-397 | removes one entry and keeps every counter exact |
| BlobStore.BlobStore.RemoveTicket | src/server/blob_store.rs:399-422 | removes one ticket and keeps every count exact |
| BlobStore.BlobStore.ReclaimDeliveredForOwner | src/server/blob_store.rs:289-328 | releases only that owner's delivered, unticketed blobs, oldest first, keeps the order of the rest and other owners' holdings, and ends with room or with nothing reclaimable |
| BlobStore.BlobStore.Prune | src/server/blob_store.rs:336-370 | expiry skipped before the deadline leaves exactly what unconditional expiry leaves: the tickets before their expiry, and the blobs used within five minutes or held by one |
| BlobStore.BlobStore.FullPrune | src/server/blob_store.rs:345-370 | exactly the tickets before their expiry and the blobs used within five minutes or held by such a ticket stay, in order, and the new deadline is the earliest due time |
| BlobStore.BlobStore.Insert | src/server/blob_store.rs:83-165 | stores, adopts or refuses a blob: refused exactly for a bad owner, media type or size or for want of room with nothing left to reclaim; a stored blob has its bytes, its owner and this time of use, others keep theirs, the first reference is returned for a known blob, and all limits hold afterwards |
| BlobStore.BlobStore.IssueTicket | src/server/blob_store.rs:168-229 | grants a ticket exactly for a live blob the device owns and within the ticket limits, and marks the blob used |
| BlobStore.BlobStore.Redeem | src/server/blob_store.rs:231-262 | delivers exactly for a live ticket of that device and transfer, once, and the blob is always still there; a wrong attempt consumes nothing |
| BlobRuns.Run | src/server/blob_store.rs:83-262 | over any operations, each insert, issue and redemption gets exactly the reply due from the contents at that time; a redemption delivers if and only if a grant to that device for that transfer is unspent and unexpired, and what it delivers that device inserted before the grant |
| BlobRuns.RepliesOnce | src/server/blob_store.rs:83-262 | the operations determine every reply and every state of the store |
| BlobGrants.TicketsAreGrants | src/server/blob_store.rs:168-262 | in every run the tickets in the store are grants of the run that were not spent, with their device, blob and expiry, and every unspent and unexpired grant has its ticket |
| BlobGrants.IssuesAreDue | src/server/blob_store.rs:168-229 | in every run an asking device is told to draw again, that there is no such blob, that there are too many tickets, or is granted one, each if and only if: identifiers taken by an open grant; blob not owned or idle for five minutes and held by none; 128 open grants to it or 4096 in all; none of these |
| BlobRuns.DeliveredIffOpen | src/server/blob_store.rs:231-262 | one redemption delivers exactly if the run so far left such a grant open |
| BlobRuns.RedeemedAtMostOnce | src/server/blob_store.rs:231-262 | between two deliveries for one ticket it was granted again |
| BlobRuns.StreamBlob | src/server/proto_handler/input.rs:1176-1240 | the chunk loop sends exactly the suffix from the requested offset, without gap or overlap |
| CommandCacheSpec.PruneIsExact | src/server/command_cache.rs:106-127 | looking at the front only removes everything expired, and an unexpired entry goes only if it and the later ones exceed the global limits |
| CommandCacheSpec.PruneWithinLimits | src/server/command_cache.rs:106-127 | within the global limits exactly the expired entries go |
| CommandCacheSpec.PrunedOnce | src/server/command_cache.rs:106-127 | pruning has one outcome |
| CommandCacheSpec.InsertKeepsSound | src/server/command_cache.rs:129-161 | after an insert the queue is a duplicate-free list of the entries by age and all limits hold |
| CommandCacheSpec.InsertSurvives | src/server/command_cache.rs:129-161 | the new entry survives whenever it fits its device's byte limit and does not expire during the insert |
| CommandCacheSpec.InsertTooLarge | src/server/command_cache.rs:137-139 | an entry over the limit is not cached and only an older result under its own key goes |
| CommandCacheSpec.InsertTooOld | src/server/command_cache.rs:129-161 | an entry that expires during its own insert is not cached |
| CommandCacheSpec.InsertDropsForCause | src/server/command_cache.rs:129-206 | another entry goes only by age, by the global limits, or by its own device's limits |
| CommandCacheSpec.InsertOldestFirst | src/server/command_cache.rs:168-206 | the inserting device loses its entries oldest first |
| CommandCache.CommandCache.RemoveEntry | src/server/command_cache.rs:208-233 | removes one entry and keeps the byte and entry counters exact |
| CommandCache.CommandCache.Prune | src/server/command_cache.rs:106-127 | the two loops leave the longest suffix behind the expired front that meets the global limits |
| CommandCache.CommandCache.TrimDevice | src/server/command_cache.rs:184-205 | a device loses its oldest entries, and no more than needed, until its limits hold |
| CommandCache.CommandCache.EnforceDeviceLimits | src/server/command_cache.rs:168-206 | exactly the devices over their limits are trimmed, each once, and afterwards none is over |
| CommandCache.CommandCache.Insert | src/server/command_cache.rs:129-161 | an insert has the specified outcome, keeps the new entry if and only if it fits its device's byte limit and does not expire meanwhile, and keeps limits and counters exact |
| CommandProtocol.StepKeepsInv | src/server/proto_handler/requests/control.rs:436-561 | every step keeps: running executions and in-flight entries correspond one to one, in-flight and cached keys are disjoint, permits are conserved, every answer is justified |
| CommandProtocol.WakeKeepsInv | src/server/proto_handler/requests/control.rs:549-560 | a waiter always wakes to a result; the reply for a missing result is unreachable |
| CommandProtocol.OneRunnerPerKey | src/server/proto_handler/requests/control.rs:462-547 | in every run one key never has two running executions and at most 32 are active |
| CommandProtocol.RefusedIffFull | src/server/proto_handler/requests/control.rs:480-489 | a request is refused for capacity if and only if its key is neither cached nor in flight and all 32 permits are held |
| CommandProtocol.AnswersAreFaithful | src/server/proto_handler/requests/control.rs:633-661 | every response comes from an execution of the same command under the same key with only the request id rewritten, and a key called reused was used for another command |
| CommandProtocol.CachedStaysOrIsLost | src/server/proto_handler/requests/control.rs:449-457 | a cached result leaves only by five minutes' age or because other results exceed the limits, which are spelled out, and until then stays the same |
| CommandProtocol.FinishStores | src/server/proto_handler/requests/control.rs:532-542 | a finished execution is cached if and only if its status says not retryable, key, command and response fit in 8 MiB and the insert takes less than five minutes |
| CommandProtocol.AtMostOnce | src/server/proto_handler/requests/control.rs:436-561 | of two executions under one key the first finished before the second started, and its result was retryable, without status, too large or too old to be kept, or was cached and then lost in between by age or by the limits |
| CommandReplay.ArrivalsAreDue | src/server/proto_handler/requests/control.rs:436-447 | a new request is turned away for a key outside 16 to 64 bytes, then for want of a right, and goes on otherwise |
| CommandReplay.FirstChecksAreDue | src/server/proto_handler/requests/control.rs:448-457 | the first check replays a kept result of the same command under the request's id, refuses another command, and passes the request on otherwise |
| CommandReplay.SecondChecksAreDue | src/server/proto_handler/requests/control.rs:458-531 | so does the second; without a kept result it refuses another command in flight, joins the same one, refuses for capacity when 32 are active, and else starts exactly one execution of the command |
| CommandReplay.WakesAreDue | src/server/proto_handler/requests/control.rs:549-560 | a waiter is told the result of the execution it waits for, under its own id |
| CommandReplay.ResultIsReplayed | src/server/proto_handler/requests/control.rs:448-561 | after an execution whose result is kept, every check of its key and command before the result is lost is answered with it and starts nothing |
| CommandProgress.NeverStuck | src/server/proto_handler/requests/control.rs:436-561 | every run can go on so that any pending request is answered: no check, finish, hand-over or wake is ever blocked |
| InputControls.PressCounts | src/server/input_session.rs:291-301 | a press raises the count, is the first exactly when nobody held the control, and adds it to what is held |
| InputControls.ReleaseCounts | src/server/input_session.rs:404-418 | a release lowers the count and is the last exactly when its counter disappears |
| InputSession.RecentOfRecorded | src/server/input_session.rs:179-186 | popping old timestamps keeps exactly the accepted frames of the last second |
| InputSession.FramesAreOrderedAndSpaced | src/server/input_session.rs:156-195 | the n-th accepted frame is numbered n up to saturation; it comes at least a second after the 240th before it, and a rate limited one within a second of that; 241 consecutive frames span at least a second |
| InputSession.FramesAreJudged | src/server/input_session.rs:169-194 | a frame is refused for another device, for five idle seconds, for a number that is not the next, for a client clock that goes back, for 240 accepted frames within the last second, in this order and else accepted, which sets the last activity |
| InputSession.DeltaIsExactInFloat32 | src/server/proto_handler/input.rs:370-382 | an accepted motion change and its 256th part are exact in single precision |
| InputSessions.CheckFrame | src/server/input_session.rs:169-194 | the checks and the popping loop judge a frame as specified, each refusal and the acceptance spelled out |
| InputSessions.InputSessionManager.Acquire | src/server/input_session.rs:94-145 | a lease is granted if and only if none is active, under the identifiers drawn, made non-zero, and with an empty session |
| InputSessions.InputSessionManager.AcceptReliable | src/server/input_session.rs:156-195 | each refusal and the acceptance of a frame, spelled out; over a session's whole run numbers, client clock order and spacing of accepted frames |
| InputSessions.InputSessionManager.AcceptOrderedMotion | src/server/input_session.rs:197-250 | each refusal spelled out; a change is handed out exactly when it is in range and within limits, and all changes sum to the last accepted totals |
| InputSessions.InputSessionManager.NormalizeOne | src/server/input_session.rs:284-362 | a key or button event is passed on exactly when it changes what is down or repeats a key the session holds, a release of everything as single releases, and any other event as it is; a repeat is of a key that is down exactly if the client's event was |
| InputSessions.InputSessionManager.NormalizeReliableEvents | src/server/input_session.rs:262-365 | the session holds what replaying its events says; the events handed out move the native state from the old union of all sessions to the new one, without a second press or stray release; they are, event by event and in order, exactly what passes; native repeats are proper if and only if the client's are; refused exactly for a lease that is not active or another device's |
| InputSessions.RepeatsAlone | src/server/input_session.rs:284-330 | with one session, its repeats are proper exactly when each repeats a key its own events left down |
| InputSessions.InputSessionManager.ReleaseSessionState | src/server/input_session.rs:420-452 | everything the session holds is released and only what nobody else holds goes up |
| InputSessions.InputSessionManager.Release | src/server/input_session.rs:395-402 | the session leaves and, if it was the last, nothing is down |
| InputRuns.ServeOne | src/server/input_session.rs:94-402 | one call of any kind is answered as it is owed, and the manager afterwards holds what calls and answers say |
| InputRuns.Serve | src/server/input_session.rs:94-402 | over any calls: leases, frames, motion, events and releases are granted, accepted or refused exactly as the calls so far entitle them; the events handed out are, event by event and in order, exactly what passes, never press twice or release strayly and leave down exactly what the session in control holds, nothing once it is gone; applying a release of everything at the end of control comes to the same; repeats are proper if and only if the clients' are |
| InputRuns.FirstPressRepeats | src/server/input_session.rs:284-301 | a run of two calls, acquiring control and pressing a key marked as a repeat: the press is handed out as it is, though the key is not down |
| LeaseProtocol.StepKeepsInv | src/server/proto_handler/input/events.rs:178-209 | every step, including cancellation, keeps slots, leases and native state consistent |
| LeaseRuns.LeasesHaveOwners | src/server/proto_handler/input.rs:100-143 | at every moment of every run the manager's leases are exactly those in connection slots, at most one, whose connection can still clean up |
| LeaseRuns.CleanupEmptiesSlot | src/server/proto_handler.rs:444-465 | a finished cleanup left its slot empty |
| LeaseRuns.CleanedStaysEmpty | src/server/proto_handler/lifecycle.rs:34-51 | and the slot stays empty for the rest of the run |
| LeaseEndings.DecidedEnds | src/server/proto_handler/input.rs:281-413 | whoever loses the focus, fails to route, fails to apply or applies for a lease that is not its own and then leaves the gate uncut has given up the lease: it is in its slot no more, and no longer active if it was its own |
| LeaseEndings.GoesOnlyWhenEnded | src/server/proto_handler/input/events.rs:178-209 | a lease goes only when its own connection ends it or has lost the focus, under the gate |
| LeaseEndings.ComesOnlyWhenFree | src/server/proto_handler/input.rs:100-128 | a lease comes only when there is none, to the connection that asked for it under the gate |
| LeaseEndings.AppliedWhole | src/server/proto_handler/input.rs:387-411 | an application that succeeds plays all its events and ends nothing |
| LeaseProgress.NeverStuck | src/server/proto_handler.rs:444-465 | every run can go on so that a connection whose session loop is gone has its cleanup over and its slot empty |
| LeaseRuns.LeftIffLeftDown | src/server/proto_handler/input/events.rs:201-203 | the last native release left a key or button down if and only if it failed and did so |
| LeaseRuns.GrantIsClean | src/server/proto_handler/input/events.rs:192-206 | a lease is granted while a key or button is down natively if and only if the last native release failed and left one down |
| LeaseRuns.GrantAfterFailedRelease | src/server/proto_handler/input/events.rs:201-206 | for every key, a run in which a failed native release leaves it down and the next lease is granted |
| ActionGap.RememberKeeps | src/server/proto_handler.rs:251-270 | remembering a lost output keeps everything known and the id limits |
| ActionGap.RememberIsExact | src/server/proto_handler.rs:251-270 | exactly the lost ids are remembered, or that everything is to be resynchronised, and that if and only if outputs were lost unseen or the ids are too many to name |
| ActionGap.ActionGap.RememberResource | src/server/proto_handler.rs:251-270 | one lost output is added, or everything is to be resynchronised |
| ActionGap.ActionGap.RememberGap | src/server/proto_handler.rs:272-282 | a gap frame taken back makes everything it announced known again, and nothing else |
| ActionGap.ActionGap.TakeResourceIds | src/server/proto_handler.rs:284-294 | hands out the ids, none for all, and empties the record |
| ActionGap.ActionSubscription.QueueEvent | src/server/proto_handler/subscriptions.rs:506-536 | a frame that is too large or finds the queue full is remembered as lost |
| ActionGap.ActionSubscription.PushActionOutput | src/server/proto_handler/subscriptions.rs:685-723 | numbers an output and queues it, or a gap in its place, exactly when it fits and the queue has room; the ledger is kept if and only if the numbers suffice |
| ActionGap.ActionSubscription.FlushGap | src/server/proto_handler.rs:612-634 | the heartbeat announces a pending gap; the ledger is kept if and only if a number follows it |
| ActionGap.ActionSubscription.Lag | src/server/proto_handler/subscriptions.rs:818-833 | outputs lost unseen lead to a full resynchronisation; the ledger is kept if and only if a number is left or a gap is open |
| ActionGap.GapSent | src/server/proto_handler.rs:612-634 | a queued gap covers every pending number and names every lost output |
| ActionGap.OutputPushed | src/server/proto_handler/subscriptions.rs:685-723 | an output with no gap before it, queued or dropped, keeps the ledger if and only if a number is left |
| ActionGap.GapPushed | src/server/proto_handler/subscriptions.rs:700-723 | a gap in its place, queued or taken back, keeps the ledger if and only if two numbers are left for a queued one |
| ActionGap.SaturatedOutputRepeats | src/server/proto_handler.rs:320-325 | at the last number another output no longer tiles, up to any number |
| ActionGap.GapTooShort | src/server/proto_handler/subscriptions.rs:706-711 | a gap numbered last leaves its own number uncovered |
| ActionGap.CannotReopen | src/server/proto_handler.rs:320-325 | where everything up to the last number is covered no gap can open at it |
| ActionGap.NumbersRunOut | src/server/proto_handler.rs:320-325 | the run of outputs, one more than there are numbers, whose frames do not tile |
| ActionGap.ServeOutput | src/server/proto_handler/subscriptions.rs:685-723 | over any outputs, lags, heartbeats and queue states, up to the first output that is valid, not oversize and finds the queue closed: the queued frames are exactly the outputs and gaps the events call for, each gap naming exactly the ids lost in it or, if some were lost unseen or they are too many, none; the pending gap is the open one; frames tile the numbers used up to it; every output is delivered, named by a covering gap or pending, and those lost unseen are covered by gaps asking for everything |
| ActionGap.GapsAreNamed | src/server/proto_handler.rs:251-294 | while nothing is lost unseen and the outputs have at most 1024 ids of 256 KiB in all, none empty, no gap asks for everything, and a gap names only ids of outputs |

## Left out

- QUIC streams, tokio channels and timers, protobuf encoding and file-system transfers: frames are sequences and sizes are arguments; `MAX_CONTROL_FRAME_SIZE` and `MAX_BLOB_CHUNK_SIZE` are not fixed.
- Clipboard collections: their merge and validation live in another crate; a pass only counts their differences, and convergence does not claim that they agree.
- The `live` flag in replication and the list of error texts in the result.
- The clipboard store's own implementation, replaced by the contract given above.
- System gestures in input sessions, whose state machine lives in another crate.
- BlobStore.BlobStore.Insert: requires that no stored blob has the same digest and other bytes, because SHA-256 is a plain function here; the branch for an evicted blob in `redeem` is absent because it is unreachable.
- LeaseProtocol.StepKeepsInv: works on values; a dropped connection's cleanup always runs, while the code discards it when the runtime is gone; locks other than the apply gate are implicit in the atomicity of its steps, and the workspace router is only a success or failure.
- CommandProtocol.StepKeepsInv: works on values and leaves out that a runtime shutdown ends all tasks; authorization is one bit of a request.
- Reconcile.Reconcile: states the counters of the report for quiescent pairs; with writers it states only what a reported convergence and a counted difference or failure mean.
- Delivery.ConvergeOverWire: takes the receiver's clock as one reading for the run, and records that are not live.
- ActionGap.ServeOutput: speaks of events for which the numbers last, the condition stated at each event; gap ids are a set, not the sorted list.
- InputRuns.Serve: has native calls succeed; a failed or cancelled one is part of `LeaseProtocol`.
- The clipboard-sync subscription, whose events share the numbers and the gap record and ask for everything when one is lost.
- Request tasks and the connection registry, which hold the handles of running work; product manifests and snapshot builders, which copy the host's state into messages; command dispatch, authorization tables and feature negotiation, which select by name.
