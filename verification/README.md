# Enterprise RAG: a verified model of its consistency protocols

The repository is a question-answering service over an enterprise knowledge base. This project
models the parts in which several steps, several stores or several threads must agree, and
proves what they promise. To check the proofs: `dafny verify dfyconfig.toml` (Dafny 4.11).

## What is modelled

* **The knowledge base.** Chroma is a physical map of chunks that may fail at any call and after
  any part of it; the SQLite manifest alone decides which revision of a source is visible; a
  BM25 index over the visible corpus is derived and may be stale. Uploads stage, verify, commit
  and clean up; deletes and clears switch the manifest first. `Chroma`, `Manifest`, `Hybrid`,
  `HybridAnswer` (what a hybrid answer is worth), `Acl`, `Ingest`, `VectorStoreSpec`,
  `VectorStore` (the code, as classes), `VectorStoreLaws` (what one operation guarantees),
  `VectorStoreAccess` (who finds, writes and deletes what) and `VectorStoreRuns` (what every run
  guarantees).
* **The gate, the upload queue and the locks.** `UploadGate` and `LockOrder` are state machines
  over single steps with an arbitrary scheduler; `BoundedParser` is the parallel parser with an
  arbitrary order of completion.
* **The answer cache.** `CacheKey`, `Recency`, `AnswerCache` (an in-process tier over a table;
  the generation may advance between any two reads, and other requests may use both tiers
  between the locked sections) and `AnswerStream`, which uses it while streaming an answer.
* **The event stream.** `JsonText`, `Sse` (printer and browser parser), `SseRoundTrip`,
  `SseLineEnds`, `SseBreak` (connections that break anywhere), `SseMiddleware` (the second parser) and `SseSeen`
  (what it sees of a printed stream), `SseProtocol` (producer thread and consumer coroutine) and
  `EndToEnd`, which joins them.
* **Selection and control.** `Ranking`, `Citations`, `Governance`, `GovernanceWorkflow`,
  `GovernanceCandidate`, `Alerts`, `Feedback`, `FeedbackClock`; `Sorting` and `Prelude` are shared.

Code that changes things step by step is modelled by classes and methods with loops; each method
is proved against a specification function or predicate, and the theorems are lemmas about
those. Failures, schedules, clocks, scores, model output and retrieval results are arbitrary.

## Where the code falls short of what one would expect

* An upload slot is lost when the failure path of an upload raises while finalising its batch
  (`UploadGate.LostSlots`, `UploadGate.SlotCanBeLost`).
* After a delete, a clear or a failed upload whose follow-up read fails, the keyword index may be
  stale although its flag is clean; the exact conditions are `VectorStoreRuns.UnlistedDeleteAgrees`,
  `UnlistedClearAgrees` and `UnreadFailureAgrees`.
* The metadata synchronisation (`enterprise_rag/storage/kb_manifest.py:174-213`, called by
  `scripts/sync_document_governance.py` and `scripts/sync_document_acl.py`) never marks the
  keyword index dirty. It leaves a clean flag over a stale index exactly when it changes whether
  an active source is retrievable, unless there is no token to index
  (`VectorStoreRuns.UnmarkedDescribeAgrees`, `UnmarkedDescribeCanDisagree`). In all these cases
  search results stay within what the request may see.
* A deployment shares cache keys with some other one exactly when one of its version labels holds
  the separator (`CacheKey.SeparatedFromAllIff`, `VersionsCanBeConfused`).
* The middleware does not see a token as it was printed exactly when the token holds a next line,
  a line separator or a paragraph separator (`SseSeen.TokenIsSeenIff`), and it can take it for
  another event (`SseSeen.TokenCanBeMistaken`). For texts the server does not print, those with
  two carriage returns in front of a line feed and more behind it, what it reads depends on how
  the response is cut (`SseMiddleware.CuttingMattersIff`).
* With the `all_active` default the two policies select different governed sources exactly when
  some active source is undecided (`Governance.PoliciesAgreeIffDecided`).
* An editor whose own record spells his department with white space around it may upload a
  document for that department, but cannot find it (`VectorStoreAccess.OwnUploadIsOpen`).
* The hourly limit of feedback can be exceeded when the clock of a submission runs further behind
  an earlier purge than the retention less an hour, and only then (`FeedbackClock.LimitHoldsIff`).
* An application can name a source as its own replacement, exactly by giving the two names with
  different white space (`GovernanceWorkflow.ReplacesItselfIff`). If it is approved, nothing is
  promoted, and whether the candidate is accepted no longer depends on its version and date
  (`GovernanceCandidate.CandidateIsAcceptedIff`, `ReplacingItselfPromotesNothing`).

## Model

| member | source | states |
|---|---|---|
| `VectorStoreLaws.AddIsAllOrNothing` | enterprise_rag/storage/vector_store.py:397-585 | Whatever physical call fails during an upload, and however partially, the visible chunks of that source are afterwards exactly the old revision or exactly the complete new one; no other source changes; a failure reported as not having changed storage leaves the whole visible corpus as it was. |
| `VectorStore.KnowledgeBase.AddDocument` | enterprise_rag/storage/vector_store.py:384-585 | Every outcome of an upload with adversarial failures: refused, unauthorised, skipped, added, or failed at any point; the invariant of the store holds after each. An upload that ends as added, or is skipped although it has text, leaves visible chunks of that file which are all made from the content uploaded, under the access list uploaded. With no failure the document is added, committed and cleaned up. |
| `VectorStoreLaws.FinishedUploadIsShown` | enterprise_rag/storage/vector_store.py:419-427 | Of added and of skipped uploads alike, without the skip test: something of the file is visible, all of it made from the content uploaded, and its metadata is the access list uploaded with what governance says of the file. |
| `VectorStoreLaws.SameUploadIsSkipped` | enterprise_rag/storage/vector_store.py:419-427 | And an upload of what is already shown, under the metadata it already has, changes nothing. |
| `VectorStore.KnowledgeBase.StageChunks` | enterprise_rag/storage/vector_store.py:466-513 | The batched chunk loop writes exactly the planned records of one single write, once each, for every batch size and never more than that at once; after a failure only planned chunks of the new revision can be there. |
| `VectorStore.KnowledgeBase.Flush` | enterprise_rag/storage/vector_store.py:442-464 | A flush adds the pending records under the next indices of the revision, or fails having added some of them. |
| `VectorStore.KnowledgeBase.VerifyAndCommit` | enterprise_rag/storage/vector_store.py:515-531 | The manifest is switched only if reading back finds exactly the staged ids. |
| `VectorStore.KnowledgeBase.CleanUp` | enterprise_rag/storage/vector_store.py:532-558 | Relabelling and removing superseded chunks touches nothing that is active, whichever call fails. |
| `VectorStore.KnowledgeBase.HandleFailure` | enterprise_rag/storage/vector_store.py:559-577 | The handler removes staged chunks unless the revision was committed after all, and marks the index dirty exactly when the corpus may have changed. |
| `VectorStore.KnowledgeBase.DeleteInactive` | enterprise_rag/storage/vector_store.py:552-556 | Physical deletion is only ever asked for ids of revisions that are not active, so it leaves the visible corpus alone. |
| `VectorStore.KnowledgeBase.DeleteDocument` | enterprise_rag/storage/vector_store.py:588-637 | Delete under the destructive gate: busy, forbidden, absent, unreadable or done; after any of them the invariant holds and the gate is open again. |
| `VectorStore.KnowledgeBase.ClearAllDocuments` | enterprise_rag/storage/vector_store.py:655-682 | Clear under the destructive gate: afterwards nothing is visible whatever physical deletions failed. |
| `VectorStore.KnowledgeBase.PurgeAll` | enterprise_rag/storage/vector_store.py:668-674 | The physical chunks go in slices of 10000 until a deletion fails: the slices before are gone and nothing behind is touched. |
| `VectorStore.KnowledgeBase.EnsureIndex` | enterprise_rag/storage/vector_store.py:265-283 | The keyword index is rebuilt only when dirty and outside batches; a failed rebuild leaves the old lists and the flag. |
| `VectorStore.KnowledgeBase.RefreshIndexes` | enterprise_rag/storage/vector_store.py:286-297 | After a mutation either the lists equal a fresh rebuild of the present corpus or the flag is dirty. |
| `VectorStore.KnowledgeBase.BeginBatch` | enterprise_rag/storage/vector_store.py:300-306 | A batch begins only while nothing destructive runs; the depth grows by one. |
| `VectorStore.KnowledgeBase.FinalizeBatch` | enterprise_rag/storage/vector_store.py:309-324 | Ending a batch refreshes exactly when it is the last open one and one of the group mutated. |
| `VectorStore.KnowledgeBase.TryBeginDestructive` | enterprise_rag/storage/vector_store.py:333-340 | Granted exactly when nothing destructive runs and no batch is open; the whole state otherwise stays. |
| `VectorStore.KnowledgeBase.ActiveRevisionFilter` | enterprise_rag/storage/vector_store.py:77-100 | The request's filter holds exactly the active revisions of the sources open to it: none governance shelves under the policy, and for a user who is no administrator none whose list is incomplete, private to another id or kept to another department. |
| `VectorStoreAccess.FilterIsOpen` | enterprise_rag/storage/acl.py:97-112 | The same as a law of the rows, in terms of reasons to withhold a source instead of permissions. |
| `VectorStoreAccess.OwnIsVisible` | enterprise_rag/storage/acl.py:97-112 | An editor finds what he may create in his own name if and only if it is private or his own record spells his department without white space around it. |
| `VectorStoreAccess.OwnUploadIsOpen` | enterprise_rag/storage/vector_store.py:405-422 | After such an upload was added, it is open to its author exactly then, as far as governance admits it. |
| `VectorStoreAccess.RightsOfOthers` | enterprise_rag/storage/acl.py:55-81 | Who is no administrator creates only as an editor, in his own department and not for everybody; replacing and deleting need his own id as owner besides. |
| `VectorStoreAccess.NormalizeFailsOnlyFor` | enterprise_rag/storage/acl.py:15-30 | The reasons for which an access list is rejected, one by one, and no others. |
| `VectorStoreAccess.OnlyTheEntitledUpload` | enterprise_rag/storage/vector_store.py:411-422 | Whatever its outcome, an upload that changed the store had those rights, over the document it replaced too. |
| `VectorStoreAccess.OnlyTheUnentitledAreRefused` | enterprise_rag/storage/vector_store.py:411-422 | And one refused for lack of rights lacked one of them, named, and changed nothing. |
| `VectorStoreAccess.OnlyTheEntitledDelete` | enterprise_rag/storage/vector_store.py:612-625 | A delete that changed the manifest for a user who is no administrator removed a document of his own. |
| `VectorStoreAccess.OnlyTheUnentitledAreForbidden` | enterprise_rag/storage/vector_store.py:612-625 | And a forbidden one lacked a right, named, and changed nothing. |
| `VectorStoreAccess.CorpusIsOpen` | enterprise_rag/storage/vector_store.py:265-283 | The keyword index is derived from exactly the stored chunks of the active sources that governance does not shelve. |
| `VectorStore.KnowledgeBase.HybridSearch` | enterprise_rag/storage/vector_store.py:815-866 | Refused exactly while busy, and never answered while the policy is unresolved over active sources; otherwise, with the generation of the snapshot, exactly those of the chosen ids that belong to a source open to this request: at most top_k, each once, in an order Chroma picks. What is chosen is the specified fusion over the published lists, in whatever stale state they are; the state changes at most by a successful or failed rebuild of the index. |
| `VectorStoreLaws.AddKeepsInv` | enterprise_rag/storage/vector_store.py:397-585 | An upload with any outcome keeps: every active revision has exactly its chunk_count chunks, all made from the content whose hash its row keeps, labels are consistent, revisions are never reused. |
| `VectorStoreLaws.DeleteKeepsInv` | enterprise_rag/storage/vector_store.py:608-637 | So does a delete, also when its reads or physical deletions fail. |
| `VectorStoreLaws.ClearKeepsInv` | enterprise_rag/storage/vector_store.py:661-677 | So does a clear. |
| `VectorStoreLaws.ObsoleteIsInactive` | enterprise_rag/storage/vector_store.py:539-556 | What the cleanup considers superseded is never part of an active revision. |
| `VectorStoreRuns.RunKeepsInv` | enterprise_rag/storage/vector_store.py:300-682 | The invariant, with the content hashes of all active chunks, holds in every state of every run of uploads, deletes, clears, metadata synchronisations, searches and batches with any faults. |
| `VectorStoreRuns.RunIsSafe` | enterprise_rag/storage/kb_manifest.py:215-331 | Between any two instants of a run the generation does not decrease, and equal generations mean the same manifest-visible chunks. |
| `VectorStoreRuns.StepGeneration` | enterprise_rag/storage/kb_manifest.py:259-266 | One step: the generation never falls, and a step that leaves it alone leaves the visible chunks alone. |
| `VectorStoreRuns.RunKeepsAgreement` | enterprise_rag/storage/vector_store.py:265-324 | Over every run in which the reads after a logical change succeed and no metadata synchronisation changes whether an active source is retrievable, a clean flag means that the four lists are aligned and equal a rebuild over the present corpus. The steps excluded have their exact conditions in the next four rows. |
| `VectorStoreRuns.UnlistedDeleteAgrees` | enterprise_rag/storage/vector_store.py:626-635 | When a delete cannot list its chunks after the manifest switch, the clean flag stays truthful if and only if the source was not retrievable or the corpus has no token. |
| `VectorStoreRuns.UnlistedClearAgrees` | enterprise_rag/storage/vector_store.py:666-677 | The same for a clear that cannot list the chunks: if and only if the corpus had no token. |
| `VectorStoreRuns.UnreadFailureAgrees` | enterprise_rag/storage/vector_store.py:559-577 | The same for a failed upload whose handler cannot read the manifest, with the exact condition. |
| `VectorStoreRuns.UnmarkedDescribeAgrees` | enterprise_rag/storage/kb_manifest.py:174-213 | The same for a metadata synchronisation, which never marks the index dirty: if and only if the source is not active, or it is retrievable after exactly if it was before, or the corpus has no token before and after. |
| `VectorStoreRuns.UnlistedDeleteCanDisagree` | enterprise_rag/storage/vector_store.py:626-635 | A concrete store in which such a delete leaves a clean flag over a stale index. |
| `VectorStoreRuns.UnmarkedDescribeCanDisagree` | enterprise_rag/storage/kb_manifest.py:174-213 | A concrete store in which archiving an indexed source does the same. |
| `VectorStoreRuns.RunKeepsAligned` | enterprise_rag/rag/hybrid.py:89-121 | In every state of every run, dirty or not and whatever failed, the four published lists are aligned: what a search relies on. |
| `VectorStoreRuns.PendingFlag` | enterprise_rag/storage/vector_store.py:309-324 | While batches overlap, the pending flag says whether one that ended has mutated. |
| `VectorStoreRuns.OneRefreshPerGroup` | enterprise_rag/storage/vector_store.py:309-324 | Of a group of overlapping batches only the last refreshes, exactly if some batch of the group mutated. |
| `Ingest.ParentsAreSeparate` | enterprise_rag/storage/vector_store.py:470-487 | Two chunks of a file share a parent id exactly when they lie in the same chapter and the same block there: renumbering never merges blocks of different chapters. |
| `Ingest.ParentsOfFilesAreSeparate` | enterprise_rag/storage/vector_store.py:470-487 | Chunks of different files or contents never share one. |
| `Ingest.NextParentNumber` | enterprise_rag/storage/vector_store.py:470-487 | The running counter gives every block the number of its first appearance in the file. |
| `Manifest.KnowledgeBaseManifest.CommitSource` | enterprise_rag/storage/kb_manifest.py:215-269 | One transaction: active revision, count and metadata of the source change together and the generation grows by one. |
| `Manifest.KnowledgeBaseManifest.SetSourceMetadata` | enterprise_rag/storage/kb_manifest.py:174-213 | The metadata of any source, active or not, is inserted or replaced; the generation grows exactly if that changed it and the caller asked for it; the return value says whether it changed. |
| `Manifest.KnowledgeBaseManifest.DeleteSource` | enterprise_rag/storage/kb_manifest.py:271-300 | Removing an absent source changes nothing; otherwise the source goes and the generation grows. |
| `Manifest.KnowledgeBaseManifest.Clear` | enterprise_rag/storage/kb_manifest.py:303-331 | All sources go; the generation grows exactly if there were any. |
| `Chroma.Collection.Add` | enterprise_rag/storage/vector_store.py:455-462 | The adversary of the proofs: an add may write any part of its batch and then fail, and never overwrites an existing id. |
| `Hybrid.Bm25Index.Rebuild` | enterprise_rag/rag/hybrid.py:89-121 | A rebuild publishes all four lists at once for the selected corpus, or nothing at all. |
| `Hybrid.Bm25Index.Search` | enterprise_rag/rag/hybrid.py:124-206 | The ids returned are exactly those of the specified fusion of the vector hits, the shortlist of permitted entries and the exact matches, cut to top_k, that the store still holds under the filter; each once, in an order Chroma picks. |
| `Hybrid.Bm25Index.RankVisible` | enterprise_rag/rag/hybrid.py:158-171 | Only entries the request may see are ranked, each by its own score. |
| `Hybrid.Bm25Index.Fuse` | enterprise_rag/rag/hybrid.py:175-205 | The union with its two scores, boosted for exact keywords, sorted stably and cut. |
| `Hybrid.Bm25Index.VisibleCandidates` | enterprise_rag/rag/hybrid.py:43-61 | Candidates are read again, and exactly those the filter lets through are returned, each once. |
| `Hybrid.ShortlistIsBest` | enterprise_rag/rag/hybrid.py:167-171 | The shortlist is a best part of the permitted entries: nothing left out scores more than something kept. |
| `Hybrid.AnswerIsDistinct` | enterprise_rag/rag/hybrid.py:175-206 | At most top_k distinct chunks, each from the vector hits, the shortlist or the exact matches. |
| `HybridAnswer.AnswerIsBest` | enterprise_rag/rag/hybrid.py:167-206 | For any lists and weights, the candidates kept come best first, all of them while there is room, and nothing left out is worth more than anything kept; what a candidate is worth is said from the two scores it was given, relative to the best keyword score, and from its exact match. |
| `HybridAnswer.ViewIsPermitted` | enterprise_rag/rag/hybrid.py:158-171 | An entry takes part in the keyword ranking exactly if the filter names its revision, with its own score. |
| `HybridAnswer.TextsArePermitted` | enterprise_rag/rag/hybrid.py:184-190 | The terms are looked for in the documents of exactly the same entries. |
| `HybridAnswer.OccursIffInside` | enterprise_rag/rag/hybrid.py:81-86 | A term matches exactly the documents that have it somewhere, with any text around. |
| `Hybrid.HiddenEntryHasNoInfluence` | enterprise_rag/rag/hybrid.py:162-171 | Inserting an entry the request may not see, with any score, anywhere in the lists, changes neither the ranked view nor the texts searched: hidden chunks cannot crowd out permitted ones. |
| `Hybrid.ListsDetermineCorpus` | enterprise_rag/rag/hybrid.py:89-121 | Lists that agree with two corpora agree only if these are equal, or neither has a token. |
| `Sorting.SortRanks` | enterprise_rag/rag/hybrid.py:203-204 | The sort keeps the order of arrival among equal scores. |
| `BoundedParser.IterParsedFilesBounded` | enterprise_rag/services/document_service.py:187-244 | For every completion schedule the parallel iterator yields what the sequential map yields, once each and in upload order, counts every file, and the most files it has submitted and not delivered is the number of workers (one at least) or of files, whichever is less; it terminates. |
| `BoundedParser.ParseAhead` | enterprise_rag/services/document_service.py:199-244 | The prefetching case with its pending and ready tables covering exactly the window between delivery and submission. |
| `BoundedParser.TakeDone` | enterprise_rag/services/document_service.py:223-240 | Finished futures move from pending to ready, whatever set is done and in whatever order. |
| `BoundedParser.DeliverReady` | enterprise_rag/services/document_service.py:240-244 | Deliveries are in order, each one letting one more file in. |
| `UploadGate.RunKeepsInv` | enterprise_rag/storage/vector_store.py:300-347 | In every interleaving of uploads, workers, destructive operations and queries: depth equals batches begun and not finalised, slots equal accepted uploads not yet released and stay within capacity, and nothing destructive overlaps an open batch. |
| `UploadGate.RefreshIsDueWhileOpen` | enterprise_rag/storage/vector_store.py:309-324 | After any step a refresh is due exactly if a batch is open and one that ended in the meantime has mutated: the last batch of a group leaves none due. |
| `UploadGate.AnsweredQueriesSeeQuiet` | enterprise_rag/storage/vector_store.py:783-785 | A query is answered only while no batch is open and nothing destructive runs. |
| `UploadGate.GivenBackOnce` | enterprise_rag/services/document_service.py:377-386 | Over every run an accepted upload finalises its batch and gives back its slot at most once each, and exactly as often as its phase says. |
| `UploadGate.LostSlots` | enterprise_rag/services/document_service.py:632-636 | An upload ends without giving back its slot if and only if its failure path raised inside finalise. |
| `UploadGate.WhenASlotCanBeLost` | enterprise_rag/services/document_service.py:632-636 | That can happen if and only if it is the last open batch and an earlier overlapping one has left a refresh to do. |
| `UploadGate.SlotCanBeLost` | enterprise_rag/services/document_service.py:632-636 | A concrete run of two uploads in which one slot of two is lost. |
| `UploadGate.NothingIsStuck` | enterprise_rag/services/document_service.py:478-506 | Every unfinished upload can take a step, or waits for a destructive operation that can end and then lets it begin. |
| `UploadGate.ArrivalsAreAnswered` | enterprise_rag/services/document_service.py:478-506 | A new upload is admitted while fewer than capacity hold a slot and turned away otherwise, never both. |
| `UploadGate.TaskStepsAdvance` | enterprise_rag/services/document_service.py:478-506 | Every step of an upload brings it nearer to its end and leaves the others where they are. |
| `LockOrder.ProgramsAreDisciplined` | enterprise_rag/storage/vector_store.py:300-347 | Every operation takes its locks in the order gate, vector, innermost, waits for the flag with empty hands, and gives everything back. |
| `LockOrder.NoDeadlock` | enterprise_rag/storage/vector_store.py:300-347 | Any number of threads, each with any operations one after the other to do, run in any order: in every state reached no lock is held twice, the flag has one owner at most, and some thread can go on exactly while one is unfinished. |
| `LockOrder.CanAlwaysFinish` | enterprise_rag/storage/vector_store.py:300-347 | From every state so reached some schedule lets all threads finish, with no lock held and the flag clear. |
| `LockOrder.StepKeepsInv` | enterprise_rag/storage/vector_store.py:333-347 | Mutual exclusion and a single owner of the destructive flag are kept by every step. |
| `CacheKey.EqualKeysMeanSameRequest` | enterprise_rag/services/cache_service.py:81-115 | Two requests share a key if and only if they asked the same question, after the same rewriting, with the same history, mode and generation, in the same directory; an original left out counts as the rewritten question. |
| `CacheKey.EqualKeysMeanSameVersions` | enterprise_rag/services/cache_service.py:81-115 | Two deployments that share a key have the same prompt, retrieval and model versions and mode, as soon as the labels and the mode of one of them hold no separator. |
| `CacheKey.SeparatedFromAllIff` | enterprise_rag/services/cache_service.py:81-115 | A deployment shares keys with no other one, in modes without the separator, if and only if none of its three labels holds the separator. |
| `CacheKey.VersionsCanBeConfused` | enterprise_rag/services/cache_service.py:81-115 | Otherwise every request has the same key in another deployment of the same directory: the separator is moved into the neighbouring label. |
| `AnswerCache.CacheService.Get` | enterprise_rag/services/cache_service.py:123-158 | A value returned for an expected generation was written by someone, is in the in-process tier, and the generation was the expected one at every instant from the first check to the last, under any concurrent commits and any use of both tiers by other requests between the locked sections. If nobody else uses the cache: what both tiers hold afterwards, and that a value held is found. A key whose generation is found moved at the last check is taken out, and nothing is touched if the first check finds it so. |
| `AnswerCache.CacheService.Set` | enterprise_rag/services/cache_service.py:160-193 | How a call ends is decided by the two checks and the table: switched off, stale at the first check, table failed, taken back at the last check, or stored. Stored means the generation was steady throughout, under interference of other requests; a working cache stores while nothing is committed. If nobody else uses the cache: stored means both tiers hold the value; switched off or stale, nothing was touched; otherwise the key is not in the in-process tier, and after a failed last check not in the table either unless its deletion failed. |
| `AnswerCache.CacheService.Put` | enterprise_rag/services/cache_service.py:166-169 | The key goes to the recent end, the least recent beyond the bound go. |
| `AnswerCache.CacheService.Assign` | enterprise_rag/services/cache_service.py:150-153 | A refill from the table is a plain assignment: a key that has come in meanwhile keeps its place, a new one goes to the recent end. |
| `AnswerCache.CacheService.TrimSessionCache` | enterprise_rag/services/cache_service.py:195-198 | Trimming keeps exactly the most recent entries. |
| `AnswerCache.KeptAreTheMostRecent` | enterprise_rag/services/cache_service.py:130-154 | After any sequence of touches, refills and removals the keys of the in-process tier are the most recently touched ones, in that order. |
| `AnswerCache.NothingElseIsDropped` | enterprise_rag/services/cache_service.py:130-198 | While nothing is removed it holds all of the MAX_CACHE_SIZE most recently touched keys: an entry leaves only when there are too many. |
| `AnswerCache.KeptIsBounded` | enterprise_rag/services/cache_service.py:195-198 | It never holds more than MAX_CACHE_SIZE keys, nor a key twice. |
| `Recency.OrderIsByLastTouch` | enterprise_rag/services/cache_service.py:130-154 | The recency order really is the order of last touches. |
| `AnswerCache.PersistentCache.Get` | enterprise_rag/storage/cache.py:59-86 | A hit is unexpired and refreshes its access time; an expired row is removed; anything else leaves the table. |
| `AnswerCache.PersistentCache.Set` | enterprise_rag/storage/cache.py:88-121 | One transaction: expired rows go, the row is upserted keeping its creation time, and the oldest accessed rows beyond the bound go. |
| `AnswerCache.PersistentCache.Evict` | enterprise_rag/storage/cache.py:103-119 | The rows evicted were accessed no later than any row kept. |
| `AnswerCache.WriteBounds` | enterprise_rag/storage/cache.py:88-121 | After every write no row is expired and the table is within its bound. |
| `AnswerCache.WriteKeeps` | enterprise_rag/storage/cache.py:88-121 | An unexpired row survives a write as it was, or is dropped because the table is full of rows accessed later, or at the same time and not older; the row rewritten keeps its creation time. |
| `AnswerCache.NewKeySurvives` | enterprise_rag/storage/cache.py:88-121 | If the clock moved since all other accesses, the row just written survives. |
| `AnswerStream.RagService.StreamFromDecision` | enterprise_rag/services/rag_service.py:265-466 | For every chunk sequence, failure position and point where the consumer leaves, whatever other requests do to the cache and whenever the knowledge base moves: the stale notice is shown only if the generation was not the decision's at the last instant before; a fresh stream or a replay only if it was the decision's at an instant before; while nothing moves there is no notice. The text shown is the text remembered, and only a complete non-blank answer is ever handed to the cache, with that text. While nothing moves, what a cache nobody else uses holds for the request is what is shown, and a complete new answer is handed to the cache, which then holds it if its table works. |
| `AnswerStream.RagService.StreamChunks` | enterprise_rag/services/rag_service.py:360-371 | The loop shows exactly the non-empty texts from the first non-blank one on, and accumulates their concatenation. |
| `AnswerStream.RagService.FromCache` | enterprise_rag/services/rag_service.py:305-355 | What the cache holds for the request is shown if the last check still finds the decision's generation, and is always found while nothing moves. |
| `AnswerStream.RagService.Conclude` | enterprise_rag/services/rag_service.py:372-466 | The closing text and the record after success, failure or an empty stream. |
| `AnswerStream.RagService.TryReplay` | enterprise_rag/services/rag_service.py:286-355 | A replayed answer is the whole text, with its sources, of an answer generated for the same questions, history, mode and generation, and the generation was the decision's from the first check on; the notice, a replay or neither each say what the generation was; while nothing moves an answer that is held is replayed. |
| `AnswerStream.RagService.AnswerStream` | enterprise_rag/services/rag_service.py:468-528 | Busy, unresolved, unavailable, rejected or answered: each branch with its own text, flags and record, and an answer that is current in the sense of the row above; only an answer with sources may be cached. |
| `AnswerStream.RagService.DraftStream` | enterprise_rag/services/rag_service.py:539-588 | Drafting: the same promises, branch by branch, with the history left out of the request and a mode of its own, so drafts and answers are never replayed for each other. |
| `AnswerStream.RagService.GeneralStream` | enterprise_rag/services/rag_service.py:590-652 | The same for the general answer, with its own texts and flags, which has no sources and no cache. |
| `AnswerStream.SolidOrNothing` | enterprise_rag/services/rag_service.py:365-371 | Something was shown exactly when the text is not blank, and exactly when it is not empty. |
| `AnswerStream.InterruptedIsNotTheError` | enterprise_rag/services/rag_service.py:379-403 | The text of an interrupted answer never equals the fixed error text that selects what is yielded. |
| `AnswerStream.WritesAreReplayable` | enterprise_rag/services/rag_service.py:306-355 | Whatever is cached under a request's key is a complete answer to that request. |
| `JsonText.QuoteRoundTrip` | backend/sse.py:7-10 | Every text printed as a JSON string is read back as that text. |
| `JsonText.QuoteIsOneLine` | backend/sse.py:7-10 | Such a string holds no control character, so no line break. |
| `Sse.ParseFrame` | frontend/src/api/sse.ts:129-168 | The frame loop computes the fields of the frame: last event name, data lines joined, and their effect. |
| `Sse.ConsumeFrames` | frontend/src/api/sse.ts:170-188 | The loop over complete frames computes the whole-text meaning of the buffer and what is left. |
| `Sse.StreamJson` | frontend/src/api/sse.ts:190-237 | For every text and every way of cutting it into chunks the read loop reports what a reader of the whole text reports. |
| `Sse.ConsumeInPieces` | frontend/src/api/sse.ts:170-188 | Reading in two pieces is reading at once, for all texts, carriage returns included. |
| `SseLineEnds.LineEndsDoNotMatter` | frontend/src/api/sse.ts:129-188 | A stream of frames is read alike with line feeds and with carriage returns and line feeds as line ends. |
| `SseLineEnds.DataLinesAreKept` | frontend/src/api/sse.ts:129-141 | A payload of several data lines is kept line by line, in order, under its event's name. |
| `SseLineEnds.JoinedLinesSplit` | frontend/src/api/sse.ts:145-147 | And joined so that splitting it gives the lines back. |
| `SseRoundTrip.PrintedStreamIsRead` | backend/sse.py:7-10 | Printed tokens and a terminal event are read back as exactly those tokens in order and then that event. |
| `SseRoundTrip.FrameFields` | frontend/src/api/sse.ts:129-141 | A printed event is read back with its name and payload. |
| `SseBreak.BrokenConnection` | frontend/src/api/sse.ts:214-237 | If the connection ends after any prefix of the printed text, the browser has heard a beginning of the tokens, each whole, and reports completion exactly if it heard everything. |
| `SseBreak.CutLiteral` | frontend/src/api/sse.ts:147-152 | No proper beginning of a JSON string literal parses. |
| `SseMiddleware.SseEvents` | backend/observability/middleware.py:90-111 | One message: the events of all frames complete by now, and the rest of the text. |
| `SseMiddleware.Forward` | backend/observability/middleware.py:161-164 | All messages of a response, each read together with what the ones before left over. |
| `SseMiddleware.CuttingDoesNotMatter` | backend/observability/middleware.py:90-111 | For every text in which two carriage returns precede a line feed at the very end at most, every cutting into messages gives the frames and the rest of the whole text. |
| `SseMiddleware.CuttingMattersIff` | backend/observability/middleware.py:99-100 | All cuttings of a text into messages give the same frames and rest if and only if it is such a text. |
| `SseSeen.CuttingCanMakeAnEvent` | backend/observability/middleware.py:99-110 | For the others even the events can differ: a name line that one cutting takes for an event and another does not. |
| `SseSeen.PrintedStreamIsSeenIff` | backend/observability/middleware.py:90-111 | However a printed stream is cut into messages nothing is left over, and the events seen are exactly the printed ones if and only if no payload holds a character that ends a line for splitlines. |
| `SseSeen.PrintedEventIsSeenIff` | backend/observability/middleware.py:103-111 | The same of one event: seen with its name and payload if and only if the payload is one line. |
| `SseSeen.TokenIsSeenIff` | backend/observability/middleware.py:103-111 | A printed token is seen if and only if its text holds no next line, line separator or paragraph separator, the line ends that JSON does not escape. |
| `SseSeen.TokenCanBeMistaken` | backend/observability/middleware.py:104-109 | Otherwise it can be seen as an event of another name: the printed token whose text is a name line between line separators. |
| `SseProtocol.RunKeepsInv` | backend/api/chat.py:103-239 | While the client is there, what it was sent and what is queued are together what the producer emitted, in order; afterwards the outcome tells the truth. |
| `SseProtocol.TokensThenOneTerminal` | backend/api/chat.py:114-159 | In every interleaving the client is sent a beginning of the generated tokens, then at most one terminal event, then nothing. |
| `SseProtocol.ConnectedClientIsAnswered` | backend/api/chat.py:200-239 | A client that stays gets every token and done or error, never an aborted stream. |
| `SseProtocol.DoneMeansEverything` | backend/api/chat.py:71-72 | The outcome done means all generated text was collected; only then is the history saved, with that text. |
| `SseProtocol.SavedForWhoeverStayed` | backend/api/chat.py:71-72 | The history can be saved if and only if the consumer has ended a successful answer that is not empty, in a run in which the client never left, and only once. |
| `SseProtocol.NeverStuck` | backend/api/chat.py:200-214 | A waiting consumer has a message or a producer still at work. |
| `SseProtocol.StepsAreFinite` | backend/api/chat.py:114-159 | Every producer step and every message taken brings the end nearer. |
| `SseProtocol.GoneSoonAfter` | backend/api/chat.py:114-159 | Over every run: once the consumer has ended the producer makes at most four more steps, however many texts are left to generate, and once late messages are refused nothing is queued any more. |
| `EndToEnd.StayingShowsEverything` | backend/api/chat.py:164-239 | Protocol, printer and parser together: whoever stays connected is shown every generated text and then how it ended, however the response was cut. |
| `EndToEnd.NothingFalseIsShown` | frontend/src/api/sse.ts:214-237 | Whatever happens to either side or the connection, what is shown is a beginning of the generated texts, and complete only if it is. |
| `Ranking.RetrieveContext` | enterprise_rag/rag/retriever.py:117-194 | The results are the selection, and of the hits themselves: each result is a hit with its own label and number, at or above the threshold, best first, at most top_k, and not outscored by any hit of its parent block; no parent comes twice, nor a text without parent; a hit at the threshold is left out only if top_k results score at least as much. |
| `Ranking.ChosenIsTheSelection` | enterprise_rag/rag/retriever.py:117-151 | Sort, dedupe, filter and cut meet the specification by champions, which does not mention them. |
| `Ranking.SelectionIsUnique` | enterprise_rag/rag/retriever.py:117-151 | There is only one list meeting that specification. |
| `Ranking.SelectionMeans` | enterprise_rag/rag/retriever.py:117-151 | What the specified selection means for the results, in terms of their parents, texts and scores alone. |
| `Ranking.SortIsByOrder` | enterprise_rag/rag/retriever.py:117-118 | The in-place sort lists the hits by score, ties in order of arrival. |
| `Ranking.Deduplicate` | enterprise_rag/rag/retriever.py:120-130 | The loop keeps the first hit of every block. |
| `Ranking.ResultsAreFromDifferentBlocks` | enterprise_rag/rag/retriever.py:120-130 | No two results have the same parent, and no two without a parent have the same text. |
| `Ranking.SourceRefs` | enterprise_rag/services/rag_service.py:144-151 | One reference per result, with its citation id and its label. |
| `Citations.CitedSourceIds` | enterprise_rag/llm/groundedness.py:18-28 | The loops find the source ids of all bracket groups, each once, in order of first appearance. |
| `Citations.CitedIffWritten` | enterprise_rag/llm/groundedness.py:18-28 | Source n is cited if and only if somewhere in the text its id stands in brackets, alone or between commas, in either case and with any white space around it. |
| `Citations.ValidateCitations` | enterprise_rag/llm/groundedness.py:31-41 | Valid exactly when every cited id is known; the unknown ones are listed. |
| `Citations.ValidMeansInRange` | enterprise_rag/llm/groundedness.py:31-41 | For the ids S1 to Sn, valid if and only if every number cited lies in 1..n. |
| `Citations.CitationMeta` | enterprise_rag/services/rag_service.py:153-159 | For results numbered from one, the citation data of an answer is valid if and only if it cites only numbers of its results. |
| `Citations.NumeralIsCanonical` | enterprise_rag/llm/groundedness.py:15-15 | A numeral without leading zero is the numeral of its value, so an id has one number and a number one id. |
| `Governance.LoadGovernance` | enterprise_rag/storage/document_governance.py:40-101 | The loader accepts a file if and only if it meets the stated conditions, whatever the order of the sources. |
| `Governance.AcceptedMeansOneVoice` | enterprise_rag/storage/document_governance.py:193-205 | With the authoritative default, at most one source of a family is retrievable, and authoritative and all_active select the same governed sources. |
| `Governance.ReplacedIsOutOfReach` | enterprise_rag/storage/document_governance.py:40-101 | What an authority of an accepted file replaces is of its family and not retrievable under any policy. |
| `Governance.AuthorityIsBacked` | enterprise_rag/storage/document_governance.py:40-101 | Every authority of an accepted file is active, dated and versioned, with approver, reference and evidence, and decides to replace exactly if it replaces something. |
| `Governance.PoliciesAgreeIffDecided` | enterprise_rag/storage/document_governance.py:193-205 | For every accepted file, whatever its default: authoritative and all_active select the same governed sources if and only if no active source is unconfirmed or a reference. |
| `Governance.AllActiveMayDisagree` | enterprise_rag/storage/document_governance.py:193-205 | With the all_active default an accepted file can have a source that only one of the policies selects. |
| `Governance.AllActiveSelects` | enterprise_rag/storage/document_governance.py:193-205 | Under all_active an accepted file selects exactly its active sources that are no drafts; a superseded one is never active. |
| `GovernanceWorkflow.Application.Create` | enterprise_rag/storage/document_governance_workflow.py:41-78 | Filing succeeds exactly when every text is given; the application starts pending HR with no approval. |
| `GovernanceWorkflow.FilingFailsOnlyFor` | enterprise_rag/storage/document_governance_workflow.py:41-78 | The reasons for which filing fails, one by one, and no others. |
| `GovernanceWorkflow.Application.Approve` | enterprise_rag/storage/document_governance_workflow.py:81-105 | Accepted exactly for the expected role, a new actor and given evidence; otherwise nothing changes. |
| `GovernanceWorkflow.EveryRunIsShaped` | enterprise_rag/storage/document_governance_workflow.py:81-105 | After any sequence of calls: pending HR with none, pending Legal with HR, or approved with HR and then Legal by different actors. |
| `GovernanceWorkflow.ReplacesItselfIff` | enterprise_rag/storage/document_governance_workflow.py:52-71 | A filed application has its target among the sources it replaces if and only if one of the names given differs from the target's and equals it once trimmed: names are compared before they are trimmed. |
| `GovernanceWorkflow.TrimmedNamesAreSafe` | enterprise_rag/storage/document_governance_workflow.py:52-71 | So filings whose names carry no white space around them never replace their own target. |
| `GovernanceWorkflow.OwnReplacementCanBeFiled` | enterprise_rag/storage/document_governance_workflow.py:52-71 | Every name can be filed as its own replacement, with a blank in front. |
| `GovernanceWorkflow.ApprovalEvents` | enterprise_rag/storage/document_governance_workflow.py:159-177 | Each line of the event file carries the hash of everything before it. |
| `GovernanceWorkflow.LastHashPinsApprovals` | enterprise_rag/storage/document_governance_workflow.py:168-177 | Equal last hashes mean equal lists of approvals. |
| `GovernanceCandidate.BuildCandidateConfig` | enterprise_rag/storage/document_governance_workflow.py:108-156 | The candidate is the base with the target promoted and the replaced sources retired, built only from an approved application whose sources exist. |
| `GovernanceCandidate.RolesAreHrAndLegal` | enterprise_rag/storage/document_governance_workflow.py:108-115 | The approvals looked at are those of HR and of Legal, both of them and nobody else's. |
| `GovernanceCandidate.CandidateNamesBoth` | enterprise_rag/storage/document_governance_workflow.py:122-148 | The new authority carries the application's texts, names both approvers, holds the evidence of both and replaces exactly the sources named. |
| `GovernanceCandidate.CandidateIsAcceptedIff` | enterprise_rag/storage/document_governance_workflow.py:108-156 | For every approved application built on an accepted base, the loader accepts the candidate if and only if no other source is left undecided and: version and date are valid, the replaced sources are of the application's family, and no other authority is of that family or claims to replace the target; or, when the target is among the replaced sources, every other authority that claims to replace it is of the application's family. |
| `GovernanceCandidate.ReplacingItselfPromotesNothing` | enterprise_rag/storage/document_governance_workflow.py:132-150 | In that last case the candidate has no authority but the ones the base had besides, and neither the target nor a replaced source can be retrieved. |
| `GovernanceCandidate.FamilyReplacementIsAccepted` | enterprise_rag/storage/document_governance_workflow.py:108-156 | On an accepted base, when target and replaced sources share the application's family, it is enough that no other source is its authority and none is left undecided. |
| `Alerts.Notifier.Notify` | scripts/health_check.py:544-617 | After every run log and stored state of each check are those of its own incidents, whatever the other checks do; each critical check has an alert in the log less than the cooldown old, and the log of every check alternates between alerts of one incident and its recovery. Nothing is written but alerts of critical checks and recoveries of checks critical the run before, in that run's time. |
| `Alerts.EveryHistoryIsSound` | scripts/health_check.py:557-608 | Over runs at increasing times each check's log is a sequence of incidents with one id each, alerts at least the cooldown apart, one recovery, and only the last one possibly open. |
| `Alerts.NeverSilent` | scripts/health_check.py:569-583 | And a lasting incident is repeated: after every run in which the check is critical its last alert is less than the cooldown old. |
| `Alerts.LogIsSound` | scripts/health_check.py:557-608 | The lines about one check: alerts of one incident at least the cooldown apart, then its recovery, then nothing before the next incident with an id of its own. |
| `Alerts.FirstCriticalRunAlerts` | scripts/health_check.py:557-594 | The first critical run of an incident alerts at once. |
| `Alerts.IdsDiffer` | scripts/health_check.py:470-474 | Different incidents of a check have different ids. |
| `Alerts.RunWritesIncident` | scripts/health_check.py:557-608 | One run of the code on the stored state is one step of the incidents. |
| `Feedback.FeedbackIsFair` | enterprise_rag/services/quality_service.py:256-306 | Over every run of the store, purges included, in which no submission carries a time further behind a purge that got the lock before it than the retention less an hour: feedback is on an eligible run of the same principal, at most one per run, and no principal has more accepted in any one-hour window than the limit. |
| `FeedbackClock.LimitHoldsIff` | enterprise_rag/services/quality_service.py:271-304 | For every lag: the limit holds in every hour of every run whose submissions are at most that far behind the purges before them, if and only if the lag is at most the retention less an hour; that is never less than 23 hours. |
| `FeedbackClock.LimitCanBeExceeded` | enterprise_rag/services/quality_service.py:392-402 | For every greater lag and every limit, a run that exceeds it by one: the limit is used up, purged, and one more is accepted in the same hour. |
| `Feedback.LimitHoldsInTime` | enterprise_rag/services/quality_service.py:256-306 | Whatever the clock does, feedback is on an eligible run of the same principal and one per run; and the limit holds if the hour before each submission had not been purged then. |
| `Feedback.FinishedForGood` | enterprise_rag/services/quality_service.py:202-236 | A finalised run never changes again; it can only be purged. |
| `Feedback.KnownEndingsAreKept` | enterprise_rag/services/quality_service.py:202-236 | The endings the code knows are stored as themselves, in any case and with any white space around them. |
| `Feedback.FinishedRunsStay` | enterprise_rag/services/quality_service.py:392-402 | A finished run disappears only in a purge, and only if it is older than the retention. |
| `Feedback.PurgeKeepsTheRetention` | enterprise_rag/services/quality_service.py:392-402 | A purge that is not refused keeps exactly the runs and the feedback no older than the configured days, one day at least, unchanged. |
| `Feedback.ClockIsInTime` | enterprise_rag/services/quality_service.py:93-96 | Over such a run that hour is always still in the table. |
| `Feedback.AcceptKeepsLimit` | enterprise_rag/services/quality_service.py:288-304 | A submission accepted by the count keeps every hour of every principal within the limit. |
| `Feedback.QualityService.SubmitFeedback` | enterprise_rag/services/quality_service.py:256-306 | The checks in their order and the one row a successful submission adds. |
| `Feedback.QualityService.FinalizeRun` | enterprise_rag/services/quality_service.py:202-236 | Only a running run is finalised, once, with a normalised terminal. |
| `Feedback.QualityService.ReserveRun` | enterprise_rag/services/quality_service.py:169-200 | A run is reserved only under a fresh id and a fresh message. |
| `Feedback.QualityService.ReviewFeedback` | enterprise_rag/services/quality_service.py:333-358 | Only pending feedback is reviewed, and nothing else changes. |
| `Feedback.QualityService.PurgeExpired` | enterprise_rag/services/quality_service.py:392-402 | All or nothing: refused exactly when younger feedback refers to a run that would go. |

## Left out

- Embeddings, reranker and BM25 scores, tokenisation, the text splitter and the language model: their results are arbitrary values of the right shape; scores are reals, so NaN and rounding are not modelled.
- SHA-256 is an injective constructor, `uuid4` a counter of fresh revisions, and each SQLite transaction one atomic step; a crash of the process between two calls is not modelled.
- `rebuild_knowledge_base`, the migration of stores older than the manifest, and the removal of staging files: a run starts from an initialised manifest.
- The plain vector `search` and the listing and counting functions of the vector store: they read the same snapshot and filter as the hybrid search.
- The page and paragraph of a chunk, in its metadata and in source labels, and the context text assembled for the prompt.
- Filters other than the one built for a request, and lists of metadata shorter than the list of ids: the index always publishes both together.
- The upload task table, its progress messages and its expiry, and the checks of file sizes before a slot is taken.
- VectorStore.KnowledgeBase.FinalizeBatch: a collection that cannot be opened is one of the failures of the refresh.
- LockOrder.ProgramsAreDisciplined: a thread whose delete or clear is refused leaves without the rest of its work; repeated acquisition of a lock already held is left out, since the locks are re-entrant; the wait on the condition variable is a blocking step.
- UploadGate.GivenBackOnce: says nothing of uploads whose process dies.
- AnswerCache.CacheService.Get: what it leaves in the two tiers, and that a value held is found, is stated for a cache nobody else uses meanwhile; entries of the in-process tier have no expiry, as in the code.
- AnswerCache.CacheService.Set: as for `Get`, what it leaves in the two tiers; a generation that cannot be read is not modelled.
- AnswerStream.RagService.StreamFromDecision: citation data is computed in `Citations`, not in the record.
- AnswerStream.RagService.AnswerStream: the retrieval, its rewriting of the query and its history summary are any `Decision`; the notice for an unresolved governance is its first sentence.
- Sse.StreamJson: chunks are decoded text, so byte sequences split inside a character are not modelled; `trim` strips what Python strips; objects are read by an arbitrary function, and what the interface picks from them is left out.
- SseMiddleware.SseEvents: the counters and log records fed from the events.
- SseMiddleware.CuttingMattersIff: the exact condition is for the frames and the rest; for the events alone it is sufficient, since frames that differ may still give equal events, for instance where a frame without a name is split.
- SseProtocol.RunKeepsInv: the check of the accept flag and the scheduling of a message are one step; the callbacks that record a run are one verdict, and in `/chat` that verdict is success even for a business failure, because the callback already replaced the failing metadata (`backend/api/chat.py:343`).
- Citations.CitedSourceIds: digits and upper case outside ASCII.
- Governance.LoadGovernance: values of the wrong JSON type; dates are recognised by an arbitrary predicate.
- GovernanceCandidate.BuildCandidateConfig: the lists of replaced sources and of evidence keep the order of mention instead of being sorted; the note appended to the file.
- Alerts.Notifier.Notify: the webhook, the migration of an older state file, and a run that dies between writing the log and the state.
- Feedback.QualityService.ReserveRun: encryption and truncation of texts, sessions and sources; listing and exporting.
- Restoring backups, routes and pages, sessions, login, configuration, metrics and log output.
