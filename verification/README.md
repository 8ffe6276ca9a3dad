# CellHive in Dafny

CellHive elects one owner per cell through conditional writes to an object store and recovers the
cell's SQLite file from a replicated chain. This project models the parts where that is hard and
proves what every interleaving, every crash and every input keeps.

Protocols are state machines: each section under a lock, each file operation and each bucket request
is one step, `Run` folds any sequence of steps, and the main results quantify over all sequences.
Code that changes things in place is a class or a method with loops, proved against a specification.
A step that is not enabled changes nothing, so waiting on a condition needs no step of its own.

| file | what it models |
|---|---|
| Bytes, Lex, Decimal | bytes and words, lexicographic order, decimal text as strconv reads and writes it |
| Frames, Tokens | the CHL1/CHL2 frame codec, the tail-probe reader, fencing tokens |
| AppendAuthority | the compare-and-swap register on one append-only record, all interleavings |
| SegmentViews, SegmentedWindow | the segmented authority within one window, all interleavings, with garbage collection |
| SegmentedAuthority | the segmented authority across windows, one operation at a time, over the stored bytes |
| StoreGate, CellCache | the cell store's request/open/evict gate, and its handle cache with the eviction sweep |
| PagedMarker, PagedCache | the sparse-cache marker text, and a cell file's life with a crash anywhere |
| ResourceGeneration | admission of requests under resource generations |
| Capture | the capture manager: Ensure, resume, Drop and its hints, epochs |
| SegmentNames, Compaction | strict object names, and when a compaction pass skips |
| Cleanup | the cleanup job's lease |
| Paths, KeyLocks, Listing | the file-system bucket's key cleaning, per-key locks and bounded listing |
| KeyRange, TailReader, SnapshotStream, DiskEviction | key listing, bounded reads, snapshot parts, the disk planner |
| Namespaces, HostIndex | token namespace patterns, the host view and its index |

CRCs are uninterpreted functions. `Append` is atomic and changes nothing when it fails; the bucket's
conditions are those of sections 13.1.1 and 13.1.2 of RFC 9110. SQLite, the paged VFS, the replica,
the restore and the WAL capture appear through the contracts stated at the head of the files that use
them. Clocks, randomness, lookups and hook results are inputs of the steps.

## What the code does not keep

Each of these has a lemma with a concrete run or input, and beside it the condition under which the
property does hold.

- A superseded token more than two windows old can win a CAS: `StaleTokenAcceptedAfterIdleWindows`;
  `StaleTokenRefusedExactly` says when a stale token is refused.
- `ErrPrecondition` does not mean nothing was written: `ContentionAfterLanding`. `ContentionExactly`
  says which re-checks report it, and `RefusedCallsDidNotLand` that no other refused call landed.
- A reader can miss a record that is never absent, while it is migrated (`GetMissesMigratingRecord`)
  or while its old window is collected (`GetMissesCollectedRecord`). `GetReplyExactly` says which
  answers are right, and `GetRightExactly` from which buckets all of them are.
- The tail probe misreads bytes that end in what looks like a CHL2 frame: `ProbeMisreadsNestedFrame`;
  `ProbeAgreesExactly` is the condition.
- Rewriting a marker is not atomic, and the next open discards a cache whose marker is torn:
  `TornCloseDiscardsWrites`; `LossHasAReason` says exactly which steps take acknowledged writes away.
- A write needs no request, so it may land while Close is under way, after Close has read the txid its
  clean marker will have; the next open may then rebuild the cache over that write: `LateWriteIsLost`.
  `CleanMarkerCovers` and `GoesBackExactly` are if-and-only-ifs on such late writes, and
  `QuietIsNeverLate` says which runs have none.
- Ensuring a generation without the authority callback lets generations overlap:
  `OverlapWithoutAuthority`; `NoOverlap` holds when the generation has been authoritative, and
  `BlindExactly` makes that exact.
- A request without a generation may restore a file other than an admitted request's own; `GuestExactly`
  is the condition.
- Waiting on a capture that is still being decided on acknowledges too much:
  `EarlyWaitAcksTooMuch`; `EarlyWaitExactly` says which waits tell the truth.
- An eviction may drop a capture under calls that hold no request. The hint it leaves is compared with
  the baseline only, so a write before the new capture is skipped (`ResumeLeavesHole`), and a capture
  dropped before its decision failed leaves a false hint (`GivenUpCaptureLies`). `HintExactly` is the
  condition in the current epoch; for the hint of a capture that ran, `HintIsTrue` reduces it to the first.
- A file replaced under a granted writer forks the chain: `ReopenUnderWriterForks`; `NoHoleNoFork` and
  `AckedIsDurable` hold when files are replaced between calls.
- A file behind the chain is meant to fail closed, but a failed lookup (`FailedLookupRollsBack`) or
  an early return (`EarlyReturnForks`) lets it overwrite the chain; `FailedLookupExactly` is the condition
  for the first, and `NoHoleNoFork` excludes the second.
- A cleanup worker held up between its claim and its read takes over another's lease:
  `LateReadTakesOver`; `ReadBackIsOwn` is the condition.
- A prefix that names a directory without its slash is not listed in full: `WalkMissesSiblings`;
  `WalkExactly` is the condition, for every prefix.
- A cursor before the prefix makes List return keys without the prefix: `PageLeavesPrefix`;
  `PageIsInPrefix` is the condition. Pages of one key repeat an empty key: `EmptyKeyRepeats`;
  `PagesExactly` is the condition.
- Locks are per key and keys are cleaned into paths, so two names of one file are locked apart:
  `TwoHoldersOneFile`; `ExclusionExactly` and `OneHolderPerFile` say when a file has one user.
- Containment of pattern lists is sound but not complete: `ContainsIsIncomplete`; `ContainsExactly`
  is exact for single patterns.
- With two apps in one namespace, which the store does not project, the host index and the scan differ:
  `SharedNamespaceDiffers`; `BothPaths` says exactly when they agree.

## Model

| member | source | states |
|---|---|---|
| Decimal.FormatOfValue | internal/compaction/compaction.go:665-675 | a canonical text is the rendering of the number it denotes, so no number has two |
| Frames.EncodeFrame | internal/bucket/appendbucket.go:45-55 | the buffer filled in place is the CHL1 frame of the data |
| Frames.EncodeSegmentFrame | internal/bucket/segmented.go:206-219 | the buffer filled in place is the CHL2 frame of the data and instance |
| Frames.DecodeFrames | internal/bucket/segmented.go:241-284 | the decode loop returns the last frame exactly when every byte belongs to a frame, in both dialects |
| Frames.SegRoundTrip | internal/bucket/segmented.go:206-237 | a CHL2 frame decodes to its data, flag and instance exactly when the data is shorter than 4 GiB |
| Frames.V1ParsesFirst | internal/bucket/appendbucket.go:43-86 | a CHL1 frame shorter than 4 GiB at the head of any bytes parses as itself, whatever follows |
| Frames.AppendDecodes | internal/bucket/segmented.go:241-284 | appending one parsable frame to a decodable log makes that frame the last |
| Frames.LastFrameStart | internal/bucket/segmented.go:241-284 | a decodable log has a last frame that ends it and decodes alone |
| Frames.ProbeAgreesWithFullRead | internal/bucket/segmented.go:289-339 | for every object whose newest frame is CHL2, whether or not it fits the probe and whatever part of the tail comes back, the probe reads what decoding everything reads |
| Frames.ProbeAgreesExactly | internal/bucket/segmented.go:289-339 | for every object and every answer of the provider, the probe agrees with the full read if and only if the tail it keeps does not end in a CHL2 frame or the newest frame is one |
| Frames.ProbeMisreadsNestedFrame | internal/bucket/segmented.go:289-339 | a CHL1 record whose value ends in a CHL2 frame is misread by the probe |
| Frames.LogDecodes | internal/bucket/segmented.go:206-284 | the bytes of any nonempty log of storable entries decode to its last entry |
| Frames.ProbeReadsLog | internal/bucket/segmented.go:289-339 | the probe of any stored log reads its last entry and full length |
| Tokens.TokenRoundTrip | internal/bucket/segmented.go:151-200 | every representable token parses back from its text |
| Tokens.TokensAreDistinct | internal/bucket/segmented.go:151-200 | two representable tokens with the same text are the same token |
| Tokens.DecimalTokenIsLegacy | internal/bucket/segmented.go:166-200 | a bare decimal is a legacy token, never a segment token |
| AppendAuthority.Linearizable | internal/bucket/appendbucket.go:113-188 | after any interleaving, accepted writes form a legal register history, the stored bytes are that register, every reply is the register's at a point between the start and the end of its call, and a refused call left no trace |
| AppendAuthority.RealTimeOrder | internal/bucket/appendbucket.go:113-188 | a call that ended before another began is explained no later than it |
| AppendAuthority.TokenWonOnce | internal/bucket/appendbucket.go:150-188 | at most one successful CAS or delete ever consumes a token |
| AppendAuthority.RecordOnlyGrows | internal/bucket/appendbucket.go:36-41 | no step shortens or rewrites the record, an accepted write lengthens it, and a bounded record stays within its cap |
| SegmentedWindow.LandingExtendsBasis | internal/bucket/segmented.go:448-748 | in every interleaving within a window, a frame lands directly on the record or absence its caller validated, which entitles it, and becomes the newest record |
| SegmentedWindow.RepliesAreHonest | internal/bucket/segmented.go:527-748 | a call told it wrote has landed with the token of the record its frame made, one told the segment is full has not, a call that never landed left no trace, and none lands twice |
| SegmentedWindow.TokenWonOnce | internal/bucket/segmented.go:570-748 | no token is won twice by any mixture of CAS and delete calls |
| SegmentedWindow.AbsenceWonOnce | internal/bucket/segmented.go:527-567 | between two accepted creates lies an accepted delete |
| SegmentedWindow.ContentionAfterLanding | internal/bucket/segmented.go:555-561 | a create whose frame landed can still report contention |
| SegmentedWindow.ContentionExactly | internal/bucket/segmented.go:555-740 | the re-check of a landed call reports contention if and only if it is a create another write landed on or a delete whose record was revived, and an error in it counts as contention except for a create |
| SegmentedWindow.RefusedCallsDidNotLand | internal/bucket/segmented.go:527-748 | over every run, a refused call landed only for one of those reasons and from a basis below the current window; every other refused call left no trace |
| SegmentedWindow.GetReplyExactly | internal/bucket/segmented.go:367-505 | every answer of a Get is the newest record at a point of its call unless its listed window was collected or its legacy object migrated before the read, and then exactly when it says not found and the record was gone at some point |
| SegmentedWindow.GetMissesMigratingRecord | internal/bucket/segmented.go:367-435 | a Get can report not found for a record that is never absent, while it is migrated |
| SegmentedWindow.GetMissesCollectedRecord | internal/bucket/segmented.go:409-493 | from any bucket whose newest record is more than two windows old, a Get can miss it or return a long superseded legacy value, while it is carried over and its window collected |
| SegmentedWindow.GetRightExactly | internal/bucket/segmented.go:367-505 | every Get of every run is right if and only if at the start no segment holds a frame, or the record is absent, in a window read without a listing, or gone from windows and legacy object |
| SegmentedAuthority.CollectionInvisible | internal/bucket/segmented.go:472-493 | deleting windows other than the newest changes nothing a reader sees |
| SegmentedAuthority.CurrentTokenPasses | internal/bucket/segmented.go:570-671 | the token of the newest live record passes every check, however old its window |
| SegmentedAuthority.StaleTokenRefusedExactly | internal/bucket/segmented.go:655-671 | a superseded token of a retained segment is refused if and only if a newer window is one of those the code looks at |
| SegmentedAuthority.RecentStaleTokenRefused | internal/bucket/segmented.go:655-671 | a superseded token at most two windows old is always refused |
| SegmentedAuthority.StaleTokenAcceptedAfterIdleWindows | internal/bucket/segmented.go:655-671 | after two idle windows a used token is accepted again |
| SegmentedAuthority.TokenVerdict | internal/bucket/segmented.go:570-653 | how the token checks relate to the current record, across both clock readings |
| SegmentedAuthority.Authority.ReadSegmentAt | internal/bucket/segmented.go:289-339 | the probe over the stored bytes reads the window's last entry and length |
| SegmentedAuthority.Authority.NewestWindow | internal/bucket/segmented.go:367-420 | finds the newest window segment while the clock moves |
| SegmentedAuthority.Authority.Latest | internal/bucket/segmented.go:422-435 | returns the current record across windows and the legacy object |
| SegmentedAuthority.Authority.Get | internal/bucket/segmented.go:496-505 | returns the last accepted live value with its token, and nothing otherwise |
| SegmentedAuthority.Authority.AppendAt | internal/bucket/segmented.go:448-460 | refuses past the cap or off the end without effect, else appends the frame and names it |
| SegmentedAuthority.Authority.Gc | internal/bucket/segmented.go:472-476 | removes exactly the three windows behind the previous one and keeps the record |
| SegmentedAuthority.Authority.DeepGc | internal/bucket/segmented.go:482-493 | removes every window behind the previous one and keeps the record |
| SegmentedAuthority.Authority.ConditionalCreate | internal/bucket/segmented.go:527-567 | refuses exactly a live record; is full exactly when the window written in cannot take the frame; otherwise the record is the new one; a refusal changes nothing |
| SegmentedAuthority.Authority.CAS | internal/bucket/segmented.go:570-653 | the current token always wins unless the window written in cannot take the frame, a stale one at most two windows old always loses, a win supersedes the record and spends the token used, a refusal changes nothing |
| SegmentedAuthority.Authority.ConditionalDelete | internal/bucket/segmented.go:675-748 | the same fence, leaving a tombstone |
| SegmentedAuthority.UsedTokenIsSpent | internal/bucket/segmented.go:570-653 | after a CAS that won and whatever calls follow, its token never names the record again and a second CAS with it is refused without effect while it is at most two windows old |
| SegmentedAuthority.Authority.Put | internal/bucket/segmented.go:751-772 | replaces whatever is there, failing exactly when the window written in cannot take the frame and then without effect |
| SegmentedAuthority.Authority.Touch | internal/bucket/segmented.go:512-525 | carries a live record into the current window without changing its value, failing exactly when an empty segment cannot take it |
| StoreGate.RunKeeps | internal/cellstore/cellstore.go:187-313 | the gate invariant holds in every reachable state: gates name their thread, eviction excludes, counts match pins, handles and grants are accounted for |
| StoreGate.EvictionExcludes | internal/cellstore/cellstore.go:569-746 | while a scope is being evicted it is not being opened and no request is pinned to it |
| StoreGate.OneLiveHandle | internal/cellstore/cellstore.go:266-460 | a scope never has two live handles |
| StoreGate.AdmittedNeverBlockedByEviction | internal/cellstore/cellstore.go:187-313 | a pinned caller's Cell never waits on eviction |
| StoreGate.GrantSurvives | internal/cellstore/cellstore.go:187-212 | a granted handle stays open, cached and backed by its files until the request ends |
| StoreGate.RemovalMeetsNoHandle | internal/cellstore/cellstore.go:377-413 | files are deleted, by a forget or by an open that cannot use them, only while the scope is uncached and has no open handle, and by a forget only while it is unpinned |
| StoreGate.FilesGoUnderAGate | internal/cellstore/cellstore.go:627-746 | files go away only by a forget or by an open, each under its own gate and with no handle open; an eviction keeps them |
| StoreGate.UncachedExactly | internal/cellstore/cellstore.go:627-746 | in every reachable state a handle leaves the cache if and only if the step is an eviction of its scope that finds it free, or the verified forget of its scope |
| StoreGate.CachedStays | internal/cellstore/cellstore.go:627-746 | a cached cell stays cached, open and backed by its files through any continuation without those, whatever happens to other scopes |
| CellCache.Cache.Touch | internal/cellstore/cellstore.go:214-219 | a hit makes the cell the most recently used and moves nothing else |
| CellCache.Cache.Publish | internal/cellstore/cellstore.go:455-460 | a new handle enters as the most recently used |
| CellCache.Cache.ShouldEvict | internal/cellstore/cellstore.go:510-523 | the oldest entry alone tells whether any entry is idle |
| CellCache.Cache.EvictOne | internal/cellstore/cellstore.go:698-746 | evicts the last eligible entry if it is due, and nothing only when none is |
| CellCache.Cache.Sweep | internal/cellstore/cellstore.go:496-508 | evicts exactly the oldest eligible entries that are due, keeps every protected one, and ends with every survivor protected or within cap and idle limit |
| PagedMarker.MarkerRoundTrip | internal/cellstore/pagedmarker.go:32-69 | a written marker reads back as written |
| PagedMarker.TornNeverClean | internal/cellstore/pagedmarker.go:32-69 | of all prefixes of a marker being written only the whole clean text reads as clean |
| PagedCache.SparseHasMarker | internal/cellstore/cellstore.go:317-454 | after any run with crashes anywhere, a file that lacks pages has its marker |
| PagedCache.BaseHandleIsComplete | internal/cellstore/cellstore.go:948-959 | a handle of the base VFS only ever serves a complete file without a marker |
| PagedCache.NeverAnOlderSource | internal/cellstore/cellstore.go:349-398 | a cache is never reopened or rebuilt from a source known to be older than the marker found, nor, unless a write came late, than what the file holds from its source or its writes |
| PagedCache.OpenNeverGoesBack | internal/cellstore/cellstore.go:317-398 | an open that finds a marker at some txid, beside its file or left over, attaches only a source that does not tell its txid or has at least that one |
| PagedCache.CleanMarkerCovers | internal/cellstore/cellstore.go:1139-1174 | wherever a crash left it, a clean marker covers everything its file is known to hold if and only if no write landed between the last Close's reading of the txid and its closing of the database |
| PagedCache.QuietIsNeverLate | internal/cellstore/cellstore.go:1139-1174 | in a run without such writes no file is ever late |
| PagedCache.GoesBackExactly | internal/cellstore/cellstore.go:317-398 | the next open of a cleanly closed cache may attach a source known to be older than the file if and only if a write came late and there is an older txid to name |
| PagedCache.LateWriteIsLost | internal/cellstore/cellstore.go:1139-1174 | a write acknowledged while Close is under way is lost when the next open rebuilds the cache |
| PagedCache.DirtyCacheStays | internal/cellstore/cellstore.go:327-334 | a cache left dirty is untouched by any opens and crashes until it is forgotten |
| PagedCache.LossHasAReason | internal/cellstore/cellstore.go:317-454 | acknowledged writes leave the file if and only if it is removed or rebuilt over them; a removal is a forget, a malformed marker or a failed attachment, and a source that tells its txid covers what an attachment replaces, unless a write came late |
| PagedCache.TornCloseDiscardsWrites | internal/cellstore/pagedmarker.go:62-80 | a crash inside the marker rewrite of a clean close makes the next open discard acknowledged writes |
| PagedCache.RebuildKeeps | internal/cellstore/pagedmarker.go:84-100 | removing the database first and the marker last, each step failing or not, keeps the file invariant |
| ResourceGeneration.NoOverlap | internal/cellstore/resource_generation.go:84-185 | requests admitted and not finished all have the same generation |
| ResourceGeneration.AdmittedFindsItsOwnFile | internal/cellstore/resource_generation.go:18-150 | when every ensure asks the authority, an admitted request runs under the marker's generation and finds only a file created under it |
| ResourceGeneration.GuestExactly | internal/cellstore/resource_generation.go:84-150 | a request without a generation leaves every admitted one its own file if and only if the marker is authoritative or nobody is admitted when it restores the file |
| ResourceGeneration.MarkerOnlyAdvances | internal/cellstore/resource_generation.go:105-150 | the marker never names an earlier generation again |
| ResourceGeneration.OverlapWithoutAuthority | internal/cellstore/resource_generation.go:18-42 | without the authority callback two generations can overlap |
| ResourceGeneration.BlindExactly | internal/cellstore/resource_generation.go:18-42 | from any run, every continuation of an ensure without the callback keeps generations apart if and only if the generation has been authoritative already |
| Capture.NoHoleNoFork | internal/cellcapture/cellcapture.go:152-457 | with Drop and its hints at any moment, no segment, marker or snapshot leaves a hole in the chain or contradicts it, and the chain is a prefix of the file, when every hint taken fits |
| Capture.CaptureIsAnchored | internal/cellcapture/cellcapture.go:245-315 | a capture that has been started reads where its txid is, agrees with the chain up to it, and its epoch began with a marker or snapshot |
| Capture.OneCapture | internal/cellcapture/cellcapture.go:152-229 | in every run at most one capture is not cancelled, the registered one |
| Capture.AckedIsDurable | internal/cellcapture/cellcapture.go:394-404 | every acknowledged transaction, with all before it, is in the chain |
| Capture.HintIsTrue | internal/cellcapture/cellcapture.go:408-457 | the hint of a capture that ran names a txid that file and chain agree on, so it fits exactly when nobody wrote between the baseline and the new capture |
| Capture.HintExactly | internal/cellcapture/cellcapture.go:245-381 | for a resume in the current epoch, every continuation keeps the chain whole and its acknowledgements in it if and only if the hint fits: nothing was written since the baseline, and the chain has it |
| Capture.ResumeLeavesHole | internal/cellcapture/cellcapture.go:446-457 | a write between baseline and capture is skipped by a resume on a hint, and acknowledged |
| Capture.GivenUpCaptureLies | internal/cellcapture/cellcapture.go:408-444 | a capture dropped while it is decided on, and then given up, leaves its baseline as a hint though nothing is durable |
| Capture.ReopenUnderWriterForks | internal/cellcapture/cellcapture.go:504-510 | a file replaced under a granted writer makes the chain and the acknowledgements differ |
| Capture.EarlyWaitAcksTooMuch | internal/cellcapture/cellcapture.go:394-404 | waiting on a capture being decided on acknowledges a transaction that is not durable |
| Capture.EarlyWaitExactly | internal/cellcapture/cellcapture.go:394-404 | a wait that ends acknowledges only what is in the chain if and only if the capture is past its decision or the chain has the transaction all the same |
| Capture.FailedLookupRollsBack | internal/cellcapture/cellcapture.go:323-352 | a failed lookup lets a file behind the chain be snapshotted over it |
| Capture.FailedLookupExactly | internal/cellcapture/cellcapture.go:323-352 | every continuation of a failed lookup, of the epoch or of the watermark, keeps the chain whole and its acknowledgements in it if and only if the file is not behind the chain or the call's epoch is past |
| Capture.EarlyReturnForks | internal/cellcapture/cellcapture.go:183-215 | returning on a capture being decided on lets a file behind the chain fork it |
| SegmentNames.RecognizesRendered | internal/compaction/compaction.go:595-675 | every name the writer renders is recognized with its end and count |
| SegmentNames.RecognizedIsRendered | internal/compaction/compaction.go:595-675 | every recognized name is one the writer renders |
| SegmentNames.RenderedOnce | internal/ltx/ltx.go:145-202 | no two objects share a name |
| Compaction.Classify | internal/compaction/compaction.go:502-525 | the name loop splits the keys into covered, new and unknown |
| Compaction.AddSizes | internal/compaction/compaction.go:526-545 | the size loop sums the new keys and knows when it cannot |
| Compaction.DecodeTail | internal/compaction/compaction.go:240-303 | the decode loop reaches the decision on the distinct segments above the watermark |
| Compaction.Decide | internal/compaction/compaction.go:211-303 | a skip found by name is the skip the decode path reaches when names are honest, with the same counts if and only if no segment repeats |
| Compaction.SkipByNameAgrees | internal/compaction/compaction.go:552-559 | below threshold by name implies below threshold by decoding |
| Compaction.CoveredAgrees | internal/compaction/compaction.go:211-222 | fully covered by name implies already compacted by decoding |
| Cleanup.Store.Enqueue | internal/control/store.go:2669-2674 | a deletion makes a job of its own that can be claimed, and no lease out before holds any more |
| Cleanup.Store.Claim | internal/control/cleanup.go:104-126 | a claim puts the job under a token nobody else has, for two minutes and within the budget, ends every other hold, and never succeeds against a lease that has not run out |
| Cleanup.Store.ReadBack | internal/control/cleanup.go:121-125 | the worker gets whatever lease the row is under, and can then end it |
| Cleanup.Store.Finish | internal/control/cleanup.go:127-166 | succeeds exactly for the holder and then ends every hold; success completes the job with the floor at least the epoch, failure bars claims for at most 64 seconds; floors never fall |
| Cleanup.Store.Continue | internal/control/cleanup.go:218-237 | succeeds exactly for the holder, and makes the job claimable at once with the attempt given back |
| Cleanup.Store.Retry | internal/control/cleanup.go:195-214 | is refused exactly for no job, a complete one or a current lease; otherwise the job can be claimed at once with a full budget and nobody holds it |
| Cleanup.Store.Prune | internal/control/cleanup.go:171-193 | removes only completed rows of the given age, takes no lease away and makes no job claimable or not |
| Cleanup.Store.Purge | internal/control/store.go:738-781 | the purge of an app leaves nobody a lease, nothing to claim or retry, and the floors as they were |
| Cleanup.Store.Validate | internal/control/cleanup.go:239-248 | a valid lease can be finished, nobody can claim or retry the job meanwhile, and every other holder has the same token |
| Cleanup.BackoffDoubles | internal/control/cleanup.go:141-145 | after a failure the wait doubles per attempt, up to 64 seconds |
| Cleanup.BudgetHolds | internal/control/cleanup.go:104-126 | in every run attempts stay at most ten and a token is out exactly while running |
| Cleanup.CompleteStays | internal/control/cleanup.go:104-237 | a complete job changes only by pruning, the purge of its app or a new deletion |
| Cleanup.FloorNeverFalls | internal/control/cleanup.go:158-163 | a scope's retirement floor never decreases |
| Cleanup.ClaimEndsOnce | internal/control/cleanup.go:127-237 | every claim is finished or continued at most once |
| Cleanup.OnlyLatestClaimEnds | internal/control/cleanup.go:127-237 | only the most recent claim can be finished or continued |
| Cleanup.ContinueRestoresBudget | internal/control/cleanup.go:216-237 | a claim followed by its Continue leaves the failure budget as it was |
| Cleanup.LeaseLasts | internal/control/cleanup.go:104-126 | until it runs out a lease is displaced only by its own end, a new deletion or the purge of its app |
| Cleanup.LeaseStandsExactly | internal/control/cleanup.go:104-237 | a claim is still what the row is under if and only if no end of it, effective claim, effective retry, new deletion or purge of the app came since |
| Cleanup.ReadBackIsOwn | internal/control/cleanup.go:121-125 | a worker reads back its own claim, however late, if and only if no such step came in between |
| Cleanup.LateReadTakesOver | internal/control/cleanup.go:121-125 | a worker reading back later holds another worker's claim and can end it |
| KeyLocks.OneHolder | internal/bucket/fsbucket.go:69-89 | operations on one key exclude each other though its lock object comes and goes |
| KeyLocks.ExclusionExactly | internal/bucket/fsbucket.go:69-89 | in every run two keys exclude each other if and only if they are the same byte for byte |
| KeyLocks.OneHolderPerFile | internal/bucket/fsbucket.go:69-94 | among keys that path cleaning leaves alone a file has one holder |
| KeyLocks.TwoHoldersOneFile | internal/bucket/fsbucket.go:69-94 | two names of one file are held at once |
| KeyLocks.NoLeak | internal/bucket/fsbucket.go:69-89 | the map holds an entry exactly while some thread uses the key |
| Paths.PlainKeysDiffer | internal/bucket/fsbucket.go:91-94 | keys without empty, dot or dot-dot components name different files |
| Paths.OneFileTwoNames | internal/bucket/fsbucket.go:91-94 | a doubled slash names the same file |
| Listing.WalkExactly | internal/bucket/fsbucket.go:275-287 | for every prefix, the cleaned directory walked holds every file that matches if and only if the prefix names no directory or has an empty or dot component |
| Listing.WalkCovers | internal/bucket/fsbucket.go:275-287 | when the directory walked holds every file with the prefix |
| Listing.WalkMissesSiblings | internal/bucket/fsbucket.go:275-287 | every prefix of ordinary components that names a directory misses a matching sibling of ordinary components |
| Listing.Walk | internal/bucket/fsbucket.go:288-321 | the walk holds at most limit+1 keys and ends with the first of the matching ones in order |
| Listing.ListPage | internal/bucket/fsbucket.go:270-346 | a page is the first keys after the cursor, its own cursor is its last key if anything is left and empty if not |
| Listing.NextPage | internal/bucket/fsbucket.go:328-332 | going on from a page's cursor leaves exactly what the page left out |
| Listing.ListSizes | internal/compaction/compaction.go:564-588 | following the cursor lists every key once with its size, and succeeds exactly within the page budget |
| KeyRange.PrefixUpperBound | internal/cellstore/cellstore.go:1527-1536 | for every prefix, keys with it are exactly those from it up to the bound, or to the end when every byte is 0xff |
| KeyRange.List | internal/cellstore/cellstore.go:1541-1571 | a page is the first selected live keys in ascending order |
| KeyRange.PageIsInPrefix | internal/cellstore/cellstore.go:1541-1556 | with a cursor in or after the prefix the selected keys are the live prefixed keys after it |
| KeyRange.PageLeavesPrefix | internal/cellstore/cellstore.go:1541-1556 | with any other cursor some table's page leaves the prefix |
| KeyRange.ListAll | internal/cellstore/cellstore.go:1538-1571 | paging from an empty cursor lists every live prefixed key once, ascending, unless pages hold one key and the empty key is among them |
| KeyRange.PagesExactly | internal/cellstore/cellstore.go:1541-1571 | a full first page ends in a usable cursor if and only if pages hold more than one key or the empty key is not wanted |
| KeyRange.EmptyKeyRepeats | internal/cellstore/cellstore.go:1541-1548 | otherwise the page after the first is the first again |
| TailReader.ReadTail | internal/bucket/bounds.go:89-134 | for every chunking, refuses past the limit, else returns the last bytes, holding at most two tails and a chunk |
| TailReader.TailOfBody | internal/bucket/bounds.go:89-134 | success exactly when neither declared nor actual length exceeds the limit, with the body's own tail |
| TailReader.ReadAll | internal/bucket/bounds.go:65-84 | the whole body within the limit or a refusal |
| SnapshotStream.WithinBudget | internal/cellstore/cellstore.go:1852-1868 | the pages per part are exactly as many as the budget pays for |
| SnapshotStream.EncodingFits | internal/ltx/wal_pagemap.go:116-205 | neither encoding of a part exceeds that cost, for any compressor, and it is reached if and only if no page compresses |
| SnapshotStream.SendPart | internal/cellstore/cellstore.go:1824-1845 | one part holds its own pages of the file, read through the shared buffer, within the budget |
| SnapshotStream.Stream | internal/cellstore/cellstore.go:1768-1850 | parts are numbered, name their first page and fit; a stream not stopped has sent every page once in order, and they make up the file |
| DiskEviction.SortByAge | internal/cellstore/disk.go:131-142 | every index once, oldest first, paths breaking ties |
| DiskEviction.Select | internal/cellstore/disk.go:118-153 | plans only unowned or safe files, the oldest prefix of the eligible ones, minimal, and within budget unless all are planned |
| Namespaces.Allows | internal/bearertoken/namespace.go:28-42 | grants an exact namespace under some pattern, and nothing when any pattern is invalid |
| Namespaces.Contains | internal/bearertoken/namespace.go:45-67 | all patterns valid and every request covered by some ceiling |
| Namespaces.ContainsExactly | internal/bearertoken/namespace.go:44-67 | one ceiling contains one request if and only if it allows every namespace the request allows |
| Namespaces.ContainsIsSound | internal/bearertoken/namespace.go:44-67 | a contained list allows nothing the ceiling does not |
| Namespaces.ContainsIsIncomplete | internal/bearertoken/namespace.go:44-67 | a list can allow all that one wider pattern allows and not contain it |
| Namespaces.ContainsTransitive | internal/bearertoken/namespace.go:44-67 | containment is transitive |
| HostIndex.Build | internal/control/control.go:338-355 | each host maps to its references in projection order, each worker key to the last worker added |
| HostIndex.Scan | internal/control/control.go:232-263 | the scan yields the host's routes in order, its workers and whether paths conflict |
| HostIndex.Lookup | internal/control/control.go:227-231 | the indexed view has the routes of the scan and the workers of the index; for distinct slash-free namespaces it is the same view |
| HostIndex.BothPaths | internal/control/control.go:213-266 | the two paths of HostView agree if and only if, for every worker the host names, the first app to find it has the index's pointer; with distinct slash-free namespaces they always do |
| HostIndex.SharedNamespaceDiffers | internal/control/control.go:216-266 | with a shared namespace, which the store does not project, the two views can name different workers for the same routes |

## Left out

- The segmented authority across skewed clocks at a window boundary, and its unfenced Delete: safety there rests on timing the code does not enforce. `SegmentedWindow` fixes one window away from its boundary and takes no token that was superseded before the last two windows; `SegmentedAuthority` runs one operation at a time.
- S3, OSS and COS clients, transports, timeouts and presigning: foreign calls, behind the append and read contract.
- Store.Close, DeleteNamespace and Store.Open: they bypass the gate by design.
- SQLite, pagedvfs, ltx payloads, replica and restore: contracts only; `PagedCache` takes a restored file to appear complete at once.
- Capture without AutoSnapshot, asynchronous commit pipelines and epoch retirement; the chain is one sequence of transactions, not objects.
- The fold of compaction after its decision, and garbage collection of covered objects.
- Fixed-width sums: byte totals in Compaction, DiskEviction and TailReader are unbounded integers.
- The 64 stripes of the generation lock: one lock per cell, since sharing a stripe only serializes more.
- The hydrate slots, cancellation of waits and the per-scope waits of StoreGate: a wait is a step not yet enabled.
- The cleanup queries that list pending jobs, error messages and audit rows.
- NormalizeHost: any normalization will do for the host view, so it is a parameter.
- Object sizes and tags in a listed page: only keys are modelled in ListPage; files that vanish between the walk and the stat are not.
- ResourceGeneration.BlindExactly: leaves out an ensure of generation 1 while 0 is authoritative; `OverlapWithoutAuthority` shows that it can overlap, but not when it cannot.
- Capture.HintExactly: an if-and-only-if for a resume in the current epoch; in an epoch already past, where the bucket takes nothing, a fitting hint is only shown to be enough.
- JWT parsing, encryption and hashing: nothing cryptographic is claimed.
- Command-line tools, configuration, telemetry, admission, autoscaling, cron and artifacts: they would only add light members.
