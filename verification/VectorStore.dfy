/** The knowledge base object: Chroma collection, manifest, keyword index and the module
    state kept under the mutation gate.  Each public method runs under the vector lock. */
module VectorStore {
  import opened Prelude
  import opened Acl
  import opened Chroma
  import opened Manifest
  import opened Hybrid
  import opened Sorting
  import opened Ingest
  import opened VectorStoreSpec
  import opened VectorStoreAccess
  import opened VectorStoreLaws

  function Ids(revision: nat, from: nat, n: nat): (r: seq<ChunkId>)
    ensures |r| == n
  {
    seq(n, k requires 0 <= k < n => ChunkId(revision, from + k))
  }

  /** The chunks waiting to be written are the next ones of the plan. */
  ghost predicate Pending(plan: seq<Record>, from: nat, chunks: seq<string>, metas: seq<ChunkMeta>) {
    && |chunks| == |metas|
    && from + |chunks| <= |plan|
    && forall i :: 0 <= i < |chunks| ==> Record(chunks[i], metas[i]) == plan[from + i]
  }

  /** The chapter's dictionary of parent numbers, given the blocks seen so far. */
  ghost predicate ParentTable(parents: map<string, nat>, seen: seq<ParentKey>, chapter: nat) {
    && (forall key :: key in parents <==> (chapter, key) in seen)
    && (forall key :: key in parents ==> parents[key] == IndexOf(seen, (chapter, key)))
  }

  lemma ExtendTable(parents: map<string, nat>, seen: seq<ParentKey>, chapter: nat, key: string)
    requires ParentTable(parents, seen, chapter) && key !in parents
    ensures ParentTable(parents[key := |seen|], seen + [(chapter, key)], chapter)
  {
    var more := seen + [(chapter, key)];
    forall other | other in parents[key := |seen|]
      ensures (chapter, other) in more && parents[key := |seen|][other] == IndexOf(more, (chapter, other))
    {
      if other == key {
        assert more[|seen|] == (chapter, key);
        assert forall j :: 0 <= j < |seen| ==> more[j] != (chapter, key);
      } else {
        IndexOfPrefix(seen, [(chapter, key)], (chapter, other));
      }
    }
    forall other | (chapter, other) in more ensures other in parents[key := |seen|] {
      if other != key { assert (chapter, other) in seen; }
    }
  }

  /** The local variables of the chunking loop. */
  datatype Work = Work(chunks: seq<string>, metas: seq<ChunkMeta>, chunkIndex: nat, globalParent: nat, added: seq<ChunkId>)

  /** So far: the written ones and the pending ones together are the beginning of the plan. */
  ghost predicate Underway(revision: nat, plan: seq<Record>, keys: seq<ParentKey>, work: Work, base: Store, store: Store) {
    var n := work.chunkIndex;
    && n <= |plan| == |keys|
    && work.globalParent == |Distinct(keys[..n])|
    && |work.added| + |work.chunks| == n
    && work.added == Ids(revision, 0, |work.added|)
    && Pending(plan, |work.added|, work.chunks, work.metas)
    && Staged(base, store, revision, plan)
    && (plan == [] ==> store == base)
  }

  /** The chunks of chapter `c` stand in the plan from position `first` on. */
  ghost predicate ChapterAt(job: Job, chapter: Chapter, c: nat, plan: seq<Record>, keys: seq<ParentKey>, first: nat) {
    && first + |chapter.children| <= |plan| == |keys|
    && forall j :: 0 <= j < |chapter.children| ==> RowAt(job, chapter, c, plan, keys, first, j)
  }

  ghost predicate RowAt(job: Job, chapter: Chapter, c: nat, plan: seq<Record>, keys: seq<ParentKey>, first: nat, j: nat)
    requires j < |chapter.children| && first + j < |plan| == |keys|
  {
    && keys[first + j] == (c, chapter.children[j].parentKey)
    && plan[first + j] == PlannedRecord(job, chapter, chapter.children[j], ParentNumber(keys, first + j), first + j)
  }

  function PlannedRecord(job: Job, chapter: Chapter, child: Child, parent: nat, n: nat): Record {
    Record(child.text, ChunkMeta(job.file, job.revision, ContentHash(job.content), chapter.title,
      ParentId(FileId(job), parent), child.parentText, n, job.governed, Staging))
  }

  lemma ChapterStands(job: Job, chapters: seq<Chapter>, c: nat)
    requires c < |chapters| && !Blank(chapters[c].text)
    ensures ChapterAt(job, chapters[c], c, Plan(job, chapters), Keys(Pieces(chapters)), |Pieces(chapters[..c])|)
  {
    OneMoreChapter(chapters, c);
    forall j | 0 <= j < |chapters[c].children| {
      ChapterRow(job, chapters, c, j);
    }
  }

  lemma ChapterRow(job: Job, chapters: seq<Chapter>, c: nat, j: nat)
    requires c < |chapters| && !Blank(chapters[c].text) && j < |chapters[c].children|
    ensures |Pieces(chapters[..c])| + j < |Pieces(chapters)|
    ensures RowAt(job, chapters[c], c, Plan(job, chapters), Keys(Pieces(chapters)), |Pieces(chapters[..c])|, j)
  {
    PieceAt(chapters, c, j);
    PieceRow(job, chapters, c, |Pieces(chapters[..c])|, j);
  }

  lemma PieceRow(job: Job, chapters: seq<Chapter>, c: nat, first: nat, j: nat)
    requires c < |chapters| && j < |chapters[c].children| && first + j < |Pieces(chapters)|
    requires Pieces(chapters)[first + j] == Piece(c, chapters[c].title, chapters[c].children[j])
    ensures RowAt(job, chapters[c], c, Plan(job, chapters), Keys(Pieces(chapters)), first, j)
  {
    PlanAt(job, chapters, first + j, c, chapters[c], chapters[c].children[j]);
  }

  lemma PlanAt(job: Job, chapters: seq<Chapter>, n: nat, c: nat, chapter: Chapter, child: Child)
    requires n < |Pieces(chapters)| && Pieces(chapters)[n] == Piece(c, chapter.title, child)
    ensures Keys(Pieces(chapters))[n] == (c, child.parentKey)
    ensures Plan(job, chapters)[n] == PlannedRecord(job, chapter, child, ParentNumber(Keys(Pieces(chapters)), n), n)
  {
  }

  lemma OneMoreChapter(chapters: seq<Chapter>, c: nat)
    requires c < |chapters|
    ensures Pieces(chapters[..c + 1]) <= Pieces(chapters)
    ensures |Pieces(chapters[..c + 1])| == |Pieces(chapters[..c])| + if Blank(chapters[c].text) then 0 else |chapters[c].children|
  {
    assert chapters[..c + 1][..c] == chapters[..c];
    PiecesOfPrefix(chapters, c + 1);
  }

  /** The table and the counter after the next chunk, and the number that chunk gets. */
  lemma NextRow(keys: seq<ParentKey>, n: nat, c: nat, key: string, globalParent: nat, parents: map<string, nat>)
    requires n < |keys| && keys[n] == (c, key)
    requires globalParent == |Distinct(keys[..n])| && ParentTable(parents, Distinct(keys[..n]), c)
    ensures var parents' := if key in parents then parents else parents[key := globalParent];
      && ParentTable(parents', Distinct(keys[..n + 1]), c)
      && |Distinct(keys[..n + 1])| == (if key in parents then globalParent else globalParent + 1)
      && parents'[key] == ParentNumber(keys, n)
  {
    NextParentNumber(keys, n);
    if key !in parents { ExtendTable(parents, Distinct(keys[..n]), c, key); }
  }

  ghost predicate OnlyIn(ids: seq<ChunkId>, store: Store, revision: nat) {
    forall id :: id in store && store[id].meta.revision == revision ==> id in ids
  }

  ghost predicate AllIn(ids: seq<ChunkId>, store: Store) {
    forall k :: 0 <= k < |ids| ==> ids[k] in store
  }

  /** What holds even when an exception ends the loop. */
  ghost predicate Stopped(revision: nat, plan: seq<Record>, work: Work, base: Store, store: Store) {
    && |work.added| <= |plan|
    && work.added == Ids(revision, 0, |work.added|)
    && Staged(base, store, revision, plan)
    && (plan == [] ==> store == base)
  }

  lemma MayStop(revision: nat, plan: seq<Record>, keys: seq<ParentKey>, work: Work, base: Store, store: Store, after: Store)
    requires Underway(revision, plan, keys, work, base, store)
    requires Staged(base, after, revision, plan) && (plan == [] ==> after == store)
    ensures Stopped(revision, plan, work, base, after)
  {
  }

  lemma StartWork(revision: nat, plan: seq<Record>, keys: seq<ParentKey>, base: Store)
    requires |plan| == |keys| && forall id :: id in base ==> id.revision != revision
    ensures Underway(revision, plan, keys, Work([], [], 0, 0, []), base, base)
  {
    assert keys[..0] == [];
  }

  lemma PushRow(revision: nat, plan: seq<Record>, keys: seq<ParentKey>, work: Work, row: Record, globalParent: nat, base: Store, store: Store)
    requires Underway(revision, plan, keys, work, base, store)
    requires work.chunkIndex < |plan| && row == plan[work.chunkIndex]
    requires globalParent == |Distinct(keys[..work.chunkIndex + 1])|
    ensures Underway(revision, plan, keys,
      Work(work.chunks + [row.document], work.metas + [row.meta], work.chunkIndex + 1, globalParent, work.added), base, store)
  {
  }

  lemma FlushedWork(revision: nat, plan: seq<Record>, keys: seq<ParentKey>, work: Work, batch: seq<ChunkId>, base: Store, store: Store, after: Store)
    requires Underway(revision, plan, keys, work, base, store)
    requires batch == Ids(revision, work.chunkIndex - |work.chunks|, |work.chunks|)
    requires Staged(base, after, revision, plan) && (plan == [] ==> after == base)
    ensures Underway(revision, plan, keys, Work([], [], work.chunkIndex, work.globalParent, work.added + batch), base, after)
  {
  }

  class KnowledgeBase {
    const config: Config
    const collection: Collection
    const manifest: KnowledgeBaseManifest
    const index: Bm25Index
    var dirty: bool
    var depth: nat
    var batchMutated: bool
    var destructive: bool
    var nextRevision: nat

    constructor (config: Config, reliable: bool)
      ensures this.config == config && collection.reliable == reliable
      ensures fresh(collection) && fresh(manifest) && fresh(index)
      ensures Value() == KbState(map[], Rows(map[], map[], 0), NO_LISTS, true, 0, false, false, 0)
      ensures Inv(Value())
    {
      this.config := config;
      collection := new Collection(reliable);
      manifest := new KnowledgeBaseManifest();
      index := new Bm25Index();
      dirty, depth, batchMutated, destructive, nextRevision := true, 0, false, false, 0;
    }

    ghost function Value(): KbState
      reads this, collection, manifest, index
    {
      KbState(collection.physical, manifest.Value(), index.lists, dirty, depth, batchMutated, destructive, nextRevision)
    }

    // ---- Physical deletion ----

    /** The only way chunks are removed: never from a revision that is active. */
    method DeleteInactive(ids: seq<ChunkId>) returns (ok: bool)
      requires forall i :: 0 <= i < |ids| ==> ids[i].revision !in ActiveRevisions(manifest.Value())
      modifies collection
      ensures Shrunk(old(collection.physical), collection.physical)
      ensures forall id :: id in old(collection.physical) && id !in ids ==> id in collection.physical
      ensures ok ==> forall id :: id in ids ==> id !in collection.physical
      ensures collection.reliable ==> ok
    {
      ok := collection.Delete(ids);
    }

    // ---- The derived index ----

    /** Revisions that the policy and the access list let through; reading metadata may fail. */
    method ActiveRevisionFilter(rows: Rows, policy: Policy, user: Option<User>) returns (ok: bool, revisions: set<nat>)
      requires policy != Unresolved
      ensures ok ==> revisions == AllowedRevisions(config, rows, policy, user)
      ensures ok ==> forall r :: r in revisions <==> exists s :: Open(config, rows, s, policy, user) && rows.sources[s].revision == r
      ensures collection.reliable ==> ok
    {
      revisions := {};
      var rest := rows.sources.Keys;
      while rest != {}
        invariant rest <= rows.sources.Keys
        invariant forall r :: r in revisions <==>
          exists s :: s in rows.sources && s !in rest && Retrievable(config, rows, s, policy, user) && rows.sources[s].revision == r
        decreases |rest|
      {
        var source :| source in rest;
        var readable := collection.Succeeds();
        if !readable {
          return false, {};
        }
        if Retrievable(config, rows, source, policy, user) {
          revisions := revisions + {rows.sources[source].revision};
        }
        rest := rest - {source};
      }
      ok := true;
      forall r { FilterIsOpen(config, rows, policy, user, r); }
    }

    /** Rebuild the index if it is dirty and no batch is open. */
    method EnsureIndex() returns (ok: bool)
      modifies this`dirty, index
      ensures EnsureSpec(config, old(Value()), ok, Value())
      ensures collection.reliable ==> ok
    {
      if !config.hybrid {
        return true;
      }
      if depth > 0 || !dirty {
        return true;
      }
      var rows := manifest.Snapshot();
      var revisions;
      ok, revisions := ActiveRevisionFilter(rows, AllActive, None);
      if ok {
        ok := index.Rebuild(collection, RevisionIn(revisions));
      }
      if ok {
        dirty := false;
      }
    }

    method RefreshIndexes()
      modifies this`dirty, index
      ensures Value() == old(Value()).(lists := index.lists, dirty := dirty)
      ensures Refreshed(config, old(Value()), Value())
      ensures collection.reliable && config.hybrid && depth == 0 ==> !dirty
    {
      dirty := true;
      var ok := EnsureIndex();
      if !ok {
        dirty := true;
      }
    }

    // ---- Uploading ----

    /** The largest batch that is written at once. */
    function BatchLimit(): nat { if config.batchSize < 1 then 1 else config.batchSize }

    /** There is room for one more chunk in the batch. */
    predicate HasRoom(work: Work) { |work.chunks| < BatchLimit() }

    /** Embed and write one small batch. */
    method Flush(revision: nat, chunkIndex: nat, chunks: seq<string>, metas: seq<ChunkMeta>, ghost base: Store, ghost plan: seq<Record>)
      returns (ok: bool, batchIds: seq<ChunkId>)
      requires |chunks| <= chunkIndex && |chunks| <= BatchLimit() && Pending(plan, chunkIndex - |chunks|, chunks, metas)
      requires Staged(base, collection.physical, revision, plan)
      modifies collection
      ensures Staged(base, collection.physical, revision, plan)
      ensures ok ==> batchIds == Ids(revision, chunkIndex - |chunks|, |chunks|)
      ensures chunks == [] ==> ok && collection.physical == old(collection.physical)
      ensures plan == [] ==> collection.physical == old(collection.physical)
      ensures forall id :: id in old(collection.physical) ==> id in collection.physical
      ensures collection.reliable ==> ok && forall k :: 0 <= k < |batchIds| ==> batchIds[k] in collection.physical
    {
      if chunks == [] {
        return true, [];
      }
      var start := chunkIndex - |chunks|;
      batchIds := Ids(revision, start, |chunks|);
      var embedded := collection.Succeeds();
      if !embedded {
        return false, [];
      }
      var records := seq(|chunks|, i requires 0 <= i < |chunks| && |chunks| == |metas| => Record(chunks[i], metas[i]));
      ok := collection.Add(batchIds, records);
    }

    /** Split the document chapter by chapter and write its chunks in batches.  `ok` is false
        when an exception ended the loop; `added` lists the batches that did not raise. */
    method StageChunks(job: Job, chapters: seq<Chapter>) returns (ok: bool, added: seq<ChunkId>)
      requires forall id :: id in collection.physical ==> id.revision != job.revision
      modifies collection
      ensures Staged(old(collection.physical), collection.physical, job.revision, Plan(job, chapters))
      ensures |added| <= |Plan(job, chapters)| && added == Ids(job.revision, 0, |added|)
      ensures ok ==> |added| == |Plan(job, chapters)|
      ensures Plan(job, chapters) == [] ==> collection.physical == old(collection.physical)
      ensures collection.reliable ==> ok && AllIn(added, collection.physical)
    {
      ghost var base, plan, keys := collection.physical, Plan(job, chapters), Keys(Pieces(chapters));
      var work := Work([], [], 0, 0, []);
      assert chapters[..0] == [];
      StartWork(job.revision, plan, keys, base);
      for c := 0 to |chapters|
        invariant work.chunkIndex == |Pieces(chapters[..c])| && HasRoom(work)
        invariant Underway(job.revision, plan, keys, work, base, collection.physical)
        invariant collection.reliable ==> AllIn(work.added, collection.physical)
      {
        OneMoreChapter(chapters, c);
        if !Blank(chapters[c].text) {
          ChapterStands(job, chapters, c);
          NewChapter(chapters, c);
          ok, work := StageChapter(job, chapters[c], c, work, base, plan, keys);
          if !ok {
            return false, work.added;
          }
        }
      }
      assert chapters[..|chapters|] == chapters;
      ok, work := FlushWork(job.revision, work, base, plan, keys);
      added := work.added;
    }

    method FlushWork(revision: nat, start: Work, ghost base: Store, ghost plan: seq<Record>, ghost keys: seq<ParentKey>)
      returns (ok: bool, work: Work)
      requires Underway(revision, plan, keys, start, base, collection.physical) && |start.chunks| <= BatchLimit()
      modifies collection
      ensures Stopped(revision, plan, work, base, collection.physical)
      ensures ok ==> Underway(revision, plan, keys, work, base, collection.physical)
      ensures ok ==> work == Work([], [], start.chunkIndex, start.globalParent, work.added)
      ensures collection.reliable ==> ok
      ensures collection.reliable && old(AllIn(start.added, collection.physical)) ==> AllIn(work.added, collection.physical)
    {
      work := start;
      ghost var before := collection.physical;
      var batch;
      ok, batch := Flush(revision, work.chunkIndex, work.chunks, work.metas, base, plan);
      if ok {
        FlushedWork(revision, plan, keys, work, batch, base, before, collection.physical);
        work := Work([], [], work.chunkIndex, work.globalParent, work.added + batch);
        before := collection.physical;
      }
      if ok {
        MayStop(revision, plan, keys, work, base, before, collection.physical);
      } else {
        MayStop(revision, plan, keys, start, base, before, collection.physical);
      }
    }

    /** Chunk one chapter; parent blocks get file-wide numbers through the chapter's own table. */
    method StageChapter(job: Job, chapter: Chapter, c: nat, start: Work, ghost base: Store, ghost plan: seq<Record>, ghost keys: seq<ParentKey>)
      returns (ok: bool, work: Work)
      requires Underway(job.revision, plan, keys, start, base, collection.physical) && HasRoom(start)
      requires ChapterAt(job, chapter, c, plan, keys, start.chunkIndex)
      requires ParentTable(map[], Distinct(keys[..start.chunkIndex]), c)
      modifies collection
      ensures Stopped(job.revision, plan, work, base, collection.physical)
      ensures ok ==> work.chunkIndex == start.chunkIndex + |chapter.children|
      ensures collection.reliable ==> ok
      ensures collection.reliable && old(AllIn(start.added, collection.physical)) ==> AllIn(work.added, collection.physical)
      ensures ok ==> Underway(job.revision, plan, keys, work, base, collection.physical) && HasRoom(work)
    {
      work := start;
      MayStop(job.revision, plan, keys, work, base, collection.physical, collection.physical);
      var split := collection.Succeeds();
      if !split {
        return false, work;
      }
      var parents: map<string, nat> := map[];
      for j := 0 to |chapter.children|
        invariant work.chunkIndex == start.chunkIndex + j && HasRoom(work)
        invariant Underway(job.revision, plan, keys, work, base, collection.physical)
        invariant collection.reliable && old(AllIn(start.added, collection.physical)) ==> AllIn(work.added, collection.physical)
        invariant ParentTable(parents, Distinct(keys[..work.chunkIndex]), c)
      {
        assert RowAt(job, chapter, c, plan, keys, start.chunkIndex, j);
        work, parents := AppendChild(job, chapter, c, j, work, parents, base, collection.physical, plan, keys);
        if |work.chunks| >= config.batchSize {
          ok, work := FlushWork(job.revision, work, base, plan, keys);
          if !ok {
            return;
          }
        }
      }
      MayStop(job.revision, plan, keys, work, base, collection.physical, collection.physical);
      ok := true;
    }

    /** Give the chunk its parent number and its metadata, and queue it. */
    static method AppendChild(job: Job, chapter: Chapter, c: nat, j: nat, work: Work, parents: map<string, nat>,
                              ghost base: Store, ghost store: Store, ghost plan: seq<Record>, ghost keys: seq<ParentKey>)
      returns (work': Work, parents': map<string, nat>)
      requires j < |chapter.children|
      requires Underway(job.revision, plan, keys, work, base, store) && work.chunkIndex < |plan|
      requires keys[work.chunkIndex] == (c, chapter.children[j].parentKey)
      requires plan[work.chunkIndex] ==
        PlannedRecord(job, chapter, chapter.children[j], ParentNumber(keys, work.chunkIndex), work.chunkIndex)
      requires ParentTable(parents, Distinct(keys[..work.chunkIndex]), c)
      ensures work'.chunkIndex == work.chunkIndex + 1 && work'.added == work.added
      ensures Underway(job.revision, plan, keys, work', base, store)
      ensures ParentTable(parents', Distinct(keys[..work'.chunkIndex]), c)
    {
      var child := chapter.children[j];
      NextRow(keys, work.chunkIndex, c, child.parentKey, work.globalParent, parents);
      var globalParent := work.globalParent;
      parents' := parents;
      if child.parentKey !in parents {
        parents' := parents[child.parentKey := globalParent];
        globalParent := globalParent + 1;
      }
      var row := PlannedRecord(job, chapter, child, parents'[child.parentKey], work.chunkIndex);
      PushRow(job.revision, plan, keys, work, row, globalParent, base, store);
      work' := Work(work.chunks + [row.document], work.metas + [row.meta], work.chunkIndex + 1, globalParent, work.added);
    }

    /** Read the staged revision back, and switch the source to it only if it is complete. */
    method VerifyAndCommit(job: Job, added: seq<ChunkId>) returns (ok: bool)
      requires added == Ids(job.revision, 0, |added|)
      modifies manifest
      ensures collection.reliable && AllIn(added, collection.physical) && OnlyIn(added, collection.physical, job.revision) && Labelled(collection.physical) ==> ok
      ensures ok ==> Committed(old(manifest.Value()), job.file, SourceRow(job.revision, ContentHash(job.content), |added|), job.governed) == manifest.Value()
      ensures manifest.Value() != old(manifest.Value()) ==>
        && manifest.Value() == Committed(old(manifest.Value()), job.file, SourceRow(job.revision, ContentHash(job.content), |added|), job.governed)
        && forall id :: id in added <==> id in Select(collection.physical, RevisionIn({job.revision}))
    {
      var staged;
      ok, staged := collection.Get(RevisionIn({job.revision}));
      if !ok {
        return;
      }
      var expected, actual := set id | id in added, set id | id in staged;
      ReadBackMatches(collection.physical, job.revision, added, staged);
      if |staged| != |added| || actual != expected {
        return false;
      }
      ghost var found := Select(collection.physical, RevisionIn({job.revision}));
      forall id ensures id in added <==> id in found {
        assert id in added <==> id in expected;
        assert id in staged <==> id in actual;
        assert id in staged <==> id in found;
      }
      var returned := collection.Succeeds();
      var applied: bool := *;
      if applied || returned {
        manifest.CommitSource(job.file, SourceRow(job.revision, ContentHash(job.content), |added|), job.governed);
      }
      ok := returned;
    }

    /** Best effort after the commit: set the label, then drop what the file has superseded. */
    method CleanUp(file: Source, added: seq<ChunkId>)
      requires Inv(Value()) && file in manifest.sources
      requires forall id :: id in added ==> id.revision == manifest.sources[file].revision
      modifies collection
      ensures Cleaned(old(collection.physical), collection.physical, file, manifest.sources[file].revision)
      ensures collection.reliable ==> Tidy(collection.physical, file, manifest.sources[file].revision, added)
    {
      var revision := manifest.sources[file].revision;
      ghost var st := Value();
      var _ := collection.MarkActive(added);
      ghost var labelled := collection.physical;
      var ok, obsolete := ListObsolete(file, revision);
      if ok && obsolete != [] {
        forall k | 0 <= k < |obsolete| ensures obsolete[k].revision !in ActiveRevisions(manifest.Value()) {
          assert obsolete[k] in obsolete;
          ObsoleteIsInactive(st, file, obsolete[k]);
        }
        var _ := DeleteInactive(obsolete);
      }
      forall id | id in collection.physical && collection.physical[id].meta.source == file && collection.reliable
        ensures id.revision == revision
      {
        assert Obsolete(labelled, file, revision, id) ==> id in obsolete;
      }
    }

    /** The chunks of the file outside its active revision, including leftovers of earlier failures. */
    method ListObsolete(file: Source, revision: nat) returns (ok: bool, obsolete: seq<ChunkId>)
      requires Labelled(collection.physical)
      ensures ok ==> forall id :: id in obsolete <==> Obsolete(collection.physical, file, revision, id)
      ensures collection.reliable ==> ok
    {
      var ids;
      ok, ids := collection.Get(SourceIs(file));
      obsolete := [];
      if !ok {
        return;
      }
      for i := 0 to |ids|
        invariant forall id :: id in obsolete <==> id in ids[..i] && Obsolete(collection.physical, file, revision, id)
      {
        assert ids[i] in ids;
        assert ids[..i + 1] == ids[..i] + [ids[i]];
        if collection.physical[ids[i]].meta.revision != revision {
          obsolete := obsolete + [ids[i]];
        }
      }
      assert ids[..|ids|] == ids;
    }

    /** The exception handler: undo an uncommitted attempt as far as possible and report. */
    method HandleFailure(job: Job, added: seq<ChunkId>) returns (outcome: AddOutcome)
      requires forall i :: 0 <= i < |added| ==> added[i].revision == job.revision
      requires job.revision in ActiveRevisions(manifest.Value()) ==>
        job.file in manifest.sources && manifest.sources[job.file].revision == job.revision
      modifies collection, this`dirty
      ensures Shrunk(old(collection.physical), collection.physical)
      ensures forall id :: id in old(collection.physical) && id.revision != job.revision ==> id in collection.physical
      ensures job.revision in ActiveRevisions(manifest.Value()) ==>
        collection.physical == old(collection.physical) && outcome in {IngestFailed(true), LookupFailed}
      ensures outcome in {IngestFailed(true), IngestFailed(false), LookupFailed}
      ensures dirty == (old(dirty) || outcome == IngestFailed(true))
      ensures outcome == IngestFailed(false) ==> forall id :: id in added ==> id !in collection.physical
      ensures forall id :: id in old(collection.physical) && id !in collection.physical ==> id in added
      ensures collection.reliable ==> (outcome == IngestFailed(false) <==> job.revision !in ActiveRevisions(manifest.Value()))
    {
      var readable := collection.Succeeds();
      if !readable {
        return LookupFailed;
      }
      var changed := false;
      if job.file in manifest.sources && manifest.sources[job.file].revision == job.revision {
        changed := true;
        assert job.revision in ActiveRevisions(manifest.Value());
      } else if added != [] {
        var ok := DeleteInactive(added);
        if !ok {
          changed := true;
        }
      }
      if changed {
        dirty := true;
      }
      outcome := IngestFailed(changed);
    }

    method AddDocument(up: Upload) returns (outcome: AddOutcome)
      requires Inv(Value())
      modifies this, collection, manifest, index
      ensures AddSpec(config, old(Value()), up, outcome, Value())
      ensures Inv(Value())
      ensures Finished(up, outcome, Value())
      ensures collection.reliable ==> HappyAdd(config, old(Value()), up, outcome, Value())
    {
      ghost var pre := Value();
      var readable := collection.Succeeds();
      if !readable || Normalize(up.acl).None? {
        return Refused;
      }
      var rows := manifest.Snapshot();
      if !MayUpload(config, rows, up) {
        return Unauthorized;
      }
      if AlreadyCurrent(config, rows, up) {
        AddFinishes(config, pre, up, Skipped, Value());
        return Skipped;
      }
      outcome := Ingest(up);
      AddFinishes(config, pre, up, outcome, Value());
    }

    method Ingest(up: Upload) returns (outcome: AddOutcome)
      requires Inv(Value()) && Normalize(up.acl).Some?
      requires MayUpload(config, manifest.Value(), up) && !AlreadyCurrent(config, manifest.Value(), up)
      modifies this`nextRevision, this`dirty, collection, manifest, index
      ensures outcome.Skipped? || Writes(outcome)
      ensures AddSpec(config, old(Value()), up, outcome, Value())
      ensures collection.reliable ==> HappyAdd(config, old(Value()), up, outcome, Value())
    {
      ghost var pre := Value();
      var job := Job(up.file, up.content, nextRevision, Combined(config, up));
      nextRevision := nextRevision + 1;
      var ok, added := StageChunks(job, up.chapters);
      if ok && added == [] {
        SkippedIsAllowed(config, pre, up, Value());
        return Skipped;
      }
      outcome := CommitOrFail(job, up, ok, added, pre);
    }

    method CommitOrFail(job: Job, up: Upload, staged: bool, added: seq<ChunkId>, ghost pre: KbState) returns (outcome: AddOutcome)
      requires Inv(pre) && Normalize(up.acl).Some? && Attempted(config, pre, up, Value())
      requires job == JobOf(config, pre, up)
      requires Value() == pre.(nextRevision := pre.nextRevision + 1, store := collection.physical)
      requires Staged(pre.store, collection.physical, pre.nextRevision, PlanOf(config, pre, up))
      requires added == Ids(pre.nextRevision, 0, |added|)
      requires staged ==> added != [] && |added| == |PlanOf(config, pre, up)|
      modifies this`dirty, collection, manifest, index
      ensures AddSpec(config, pre, up, outcome, Value()) && Writes(outcome)
      ensures collection.reliable && staged && AllIn(added, old(collection.physical)) ==> HappyAdd(config, pre, up, outcome, Value())
    {
      WholeReadBack(config, pre, up, Value(), added);
      var committed := false;
      if staged {
        committed := VerifyAndCommit(job, added);
        if manifest.Value() != pre.rows {
          ReadBackIsWhole(collection.physical, pre.nextRevision, PlanOf(config, pre, up), added);
        }
      }
      if committed {
        FinishUpload(up, added, pre);
        outcome := Added;
        if collection.reliable { AddedHappily(config, pre, up, Added, Value(), added); }
      } else {
        outcome := FailUpload(job, up, added, pre);
      }
    }

    method FinishUpload(up: Upload, added: seq<ChunkId>, ghost pre: KbState)
      requires Inv(pre) && Normalize(up.acl).Some? && Attempted(config, pre, up, Value()) && Untouched(pre, Value())
      requires Staged(pre.store, collection.physical, pre.nextRevision, PlanOf(config, pre, up))
      requires JustCommitted(config, pre, up, Value()) && index.lists == pre.lists
      requires forall id :: id in added ==> id.revision == pre.nextRevision
      modifies this`dirty, collection, index
      ensures AddedSpec(config, pre, up, Value()) && Untouched(pre, Value())
      ensures collection.reliable ==> Tidy(collection.physical, up.file, pre.nextRevision, added)
      ensures collection.reliable && up.refresh && config.hybrid && depth == 0 ==> !dirty
    {
      ghost var committed := Value();
      CommitKeepsInv(config, pre, up, committed);
      CleanUp(up.file, added);
      CleanedIsSwitched(pre.store, committed.store, collection.physical, up.file, pre.nextRevision, PlanOf(config, pre, up));
      ghost var cleaned := Value();
      if up.refresh {
        RefreshIndexes();
        RefreshedLater(config, pre, cleaned, Value());
      } else {
        dirty := true;
      }
    }

    method FailUpload(job: Job, up: Upload, added: seq<ChunkId>, ghost pre: KbState) returns (outcome: AddOutcome)
      requires Inv(pre) && Normalize(up.acl).Some? && Attempted(config, pre, up, Value()) && Untouched(pre, Value())
      requires job == JobOf(config, pre, up)
      requires Staged(pre.store, collection.physical, pre.nextRevision, PlanOf(config, pre, up))
      requires manifest.Value() == pre.rows || JustCommitted(config, pre, up, Value())
      requires index.lists == pre.lists && dirty == pre.dirty
      requires forall i :: 0 <= i < |added| ==> added[i].revision == pre.nextRevision
      modifies this`dirty, collection
      ensures AddSpec(config, pre, up, outcome, Value()) && Writes(outcome)
    {
      ghost var failed := Value();
      NewRevisionOnlyForFile(pre, failed, up.file);
      if manifest.Value() != pre.rows {
        assert job.revision in ActiveRevisions(manifest.Value());
      }
      outcome := HandleFailure(job, added);
      ShrunkStaysStaged(pre.store, failed.store, collection.physical, pre.nextRevision, PlanOf(config, pre, up));
      assert FailedSpec(config, pre, up, Value());
    }

    // ---- The gate ----

    method BeginBatch()
      requires !destructive   // the condition variable's wake-up condition
      modifies this`depth
      ensures BeginSpec(old(Value()), Value())
    {
      depth := depth + 1;
    }

    method FinalizeBatch(mutated: bool) returns (ok: bool)
      modifies this, index
      ensures FinalizeSpec(config, old(Value()), mutated, ok, Value())
      ensures collection.reliable ==> ok && (LastMutating(old(Value()), mutated) && config.hybrid ==> !dirty)
    {
      batchMutated := batchMutated || mutated;
      if depth > 0 {
        depth := depth - 1;
      }
      if depth > 0 || !batchMutated {
        return true;
      }
      batchMutated := false;
      var available := collection.Succeeds();
      if !available {
        return false;
      }
      RefreshIndexes();
      ok := true;
    }

    method TryBeginDestructive() returns (granted: bool)
      modifies this`destructive
      ensures granted <==> !old(Busy(Value()))
      ensures destructive == (old(destructive) || granted)
    {
      if destructive || depth > 0 {
        return false;
      }
      destructive := true;
      granted := true;
    }

    method EndDestructive()
      modifies this`destructive
      ensures !destructive
    {
      destructive := false;
    }

    // ---- Deleting and clearing ----

    method DeleteDocument(source: Source, user: Option<User>) returns (outcome: DeleteOutcome)
      requires Inv(Value())
      modifies this, collection, manifest, index
      ensures DeleteSpec(config, old(Value()), source, user, outcome, Value())
      ensures Inv(Value())
      ensures collection.reliable ==> HappyDelete(config, old(Value()), source, user, outcome, Value())
    {
      ghost var pre := Value();
      var granted := TryBeginDestructive();
      if !granted {
        return DeleteBusy;
      }
      outcome := DeleteUnderGate(source, user);
      EndDestructive();
      DeleteKeepsInv(config, pre, source, user, outcome, Value());
    }

    method DeleteUnderGate(source: Source, user: Option<User>) returns (outcome: DeleteOutcome)
      requires Inv(Value()) && destructive && depth == 0
      modifies this`dirty, collection, manifest, index
      ensures outcome != DeleteBusy && Untouched(old(Value()), Value())
      ensures DeleteSpec(config, old(Value()).(destructive := false), source, user, outcome, Value().(destructive := false))
      ensures collection.reliable ==> HappyDelete(config, old(Value()).(destructive := false), source, user, outcome, Value().(destructive := false))
    {
      var readable := collection.Succeeds();
      if !readable {
        return DeleteRefused;
      }
      var rows := manifest.Snapshot();
      if source !in rows.sources {
        return NotFound;
      }
      readable := collection.Succeeds();
      if !readable {
        return MetadataUnreadable;
      }
      if user.Some? && !CanDelete(user.value, ManifestAcl(rows, source)) {
        return Forbidden;
      }
      var applied := collection.Succeeds();
      if !applied {
        return DeleteRefused;
      }
      outcome := DropSource(source, rows.sources[source].revision);
    }

    method DropSource(source: Source, revision: nat) returns (outcome: DeleteOutcome)
      requires Inv(Value()) && depth == 0
      requires source in manifest.sources && manifest.sources[source].revision == revision
      modifies this`dirty, collection, manifest, index
      ensures outcome in {Deleted, DeleteReadFailed} && Untouched(old(Value()), Value()) && nextRevision == old(nextRevision)
      ensures manifest.Value() == WithoutSource(old(manifest.Value()), source)
      ensures outcome == Deleted ==>
        && Shrunk(old(collection.physical), collection.physical)
        && (forall id :: id in old(collection.physical) && id !in collection.physical ==> id.revision == revision)
        && Refreshed(config, old(Value()), Value())
      ensures outcome == DeleteReadFailed ==> Value() == old(Value()).(rows := manifest.Value())
      ensures collection.reliable ==>
        && outcome == Deleted
        && (forall id :: id in collection.physical ==> id.revision != revision)
        && (config.hybrid ==> !dirty)
    {
      ghost var pre := Value();
      var _ := manifest.DeleteSource(source);
      var ok, ids := collection.Get(RevisionIn({revision}));
      if !ok {
        return DeleteReadFailed;
      }
      if ids != [] {
        DroppedRevisionIsInactive(pre, source);
        forall i | 0 <= i < |ids| ensures ids[i].revision == revision {
          assert ids[i] in ids;
        }
        var _ := DeleteInactive(ids);
        assert forall id :: id in pre.store && id !in collection.physical ==> id in ids;
      }
      assert forall id :: id in pre.store && id.revision == revision ==> id in ids;
      ghost var mid := Value();
      RefreshIndexes();
      RefreshedLater(config, pre, mid, Value());
      outcome := Deleted;
    }

    method ClearAllDocuments() returns (outcome: ClearOutcome)
      requires Inv(Value())
      modifies this, collection, manifest, index
      ensures ClearSpec(config, old(Value()), outcome, Value())
      ensures Inv(Value())
      ensures collection.reliable && !old(Busy(Value())) ==> outcome == AllCleared && collection.physical == map[]
    {
      ghost var pre := Value();
      var granted := TryBeginDestructive();
      if !granted {
        return ClearBusy;
      }
      outcome := ClearUnderGate();
      EndDestructive();
      ClearKeepsInv(config, pre, outcome, Value());
    }

    method ClearUnderGate() returns (outcome: ClearOutcome)
      requires Inv(Value()) && destructive && depth == 0
      modifies this`dirty, collection, manifest, index
      ensures outcome != ClearBusy && Untouched(old(Value()), Value())
      ensures ClearSpec(config, old(Value()).(destructive := false), outcome, Value().(destructive := false))
      ensures collection.reliable ==> outcome == AllCleared && collection.physical == map[]
    {
      var readable := collection.Succeeds();
      if !readable {
        return ClearRefused;
      }
      var rows := manifest.Snapshot();
      var hadActiveData := rows.sources != map[];
      var _ := manifest.Clear();
      var ok, ids := collection.Get(Everything);
      if !ok {
        return ClearReadFailed;
      }
      ghost var _ := PurgeAll(ids);
      if hadActiveData {
        RefreshIndexes();
      }
      outcome := AllCleared;
    }

    /** Delete in slices of 10000, stopping at the first failure: the slices before it are gone, and
        nothing behind it is touched. */
    method PurgeAll(ids: seq<ChunkId>) returns (ghost done: nat)
      requires manifest.sources == map[]
      modifies collection
      ensures Shrunk(old(collection.physical), collection.physical)
      ensures forall k :: 0 <= k < done && k < |ids| ==> ids[k] !in collection.physical
      ensures forall id :: id in old(collection.physical) && id !in Take(ids, done + 10000) ==> id in collection.physical
      ensures collection.reliable ==> forall id :: id in ids ==> id !in collection.physical
    {
      var start := 0;
      done := 0;
      while start < |ids|
        invariant done == start && Shrunk(old(collection.physical), collection.physical)
        invariant forall k :: 0 <= k < start && k < |ids| ==> ids[k] !in collection.physical
        invariant forall id :: id in old(collection.physical) && id !in Take(ids, start) ==> id in collection.physical
        decreases |ids| - start
      {
        var end := if start + 10000 < |ids| then start + 10000 else |ids|;
        var ok := DeleteInactive(ids[start..end]);
        forall id | id in old(collection.physical) && id !in Take(ids, start + 10000) ensures id in collection.physical {
          SliceOfTake(ids, start, end, id);
        }
        if !ok {
          return;
        }
        assert forall k :: start <= k < end ==> ids[start..end][k - start] == ids[k];
        start := start + 10000;
        done := start;
      }
      assert Take(ids, start) == ids == Take(ids, start + 10000);
    }

    // ---- Searching ----

    /** Refused while the knowledge base changes; otherwise only permitted chunks, together
        with the generation they belong to. */
    method HybridSearch(policy: Policy, user: Option<User>, vector: seq<Scored<ChunkId>>, terms: seq<string>,
                        alpha: real, topK: nat) returns (result: SearchResult, ghost scores: seq<real>, ghost exact: seq<ChunkId>)
      requires NoDup(Items(vector)) && Aligned(index.lists)
      modifies this`dirty, index
      ensures result == KbBusy <==> Busy(old(Value()))
      ensures result == GovernanceUnresolved ==> policy == Unresolved && manifest.sources != map[]
      ensures policy == Unresolved && manifest.sources != map[] ==> !result.Found?
      ensures collection.reliable ==> result != SearchFailed
      ensures Value() == old(Value()) || EnsureSpec(config, old(Value()), true, Value())
      ensures Aligned(index.lists)
      ensures result.Found? ==>
        && result.generation == manifest.generation
        && |result.ids| <= topK && NoDup(result.ids)
        && (policy == Unresolved ==> result.ids == [])
        && (forall id :: id in result.ids ==> FoundIn(config, Value(), id, policy, user))
        && var where_ := RevisionIn(AllowedRevisions(config, manifest.Value(), policy, user));
           && (policy != Unresolved && where_ != RevisionIn({}) ==>
                 && Answers(result.ids, index.lists, vector, scores, terms, exact, collection.physical, where_, alpha, topK)
                 && forall id :: id in Chosen(index.lists, vector, scores, exact, where_, alpha, topK) && FoundIn(config, Value(), id, policy, user) ==>
                      id in result.ids)
    {
      if depth > 0 || destructive {
        return KbBusy, [], [];
      }
      var readable := collection.Succeeds();
      if !readable {
        return SearchFailed, [], [];
      }
      var rows := manifest.Snapshot();
      if policy == Unresolved {
        return if rows.sources != map[] then GovernanceUnresolved else Found([], rows.generation), [], [];
      }
      var ok, revisions := ActiveRevisionFilter(rows, policy, user);
      if !ok {
        return SearchFailed, [], [];
      }
      if revisions == {} {
        return Found([], rows.generation), [], [];
      }
      ok := EnsureIndex();
      if !ok {
        return SearchFailed, [], [];
      }
      AgreedIsAligned(index.lists, Corpus(config, Value()));
      var found := index.GetScores();
      scores := found;
      var ids;
      ok, ids, exact := index.Search(collection, vector, found, terms, alpha, topK, RevisionIn(revisions));
      result := if ok then Found(ids, rows.generation) else SearchFailed;
      forall id { SelectedIsFound(config, Value(), id, policy, user); }
    }
  }

  lemma SliceOfTake(ids: seq<ChunkId>, start: nat, end: nat, id: ChunkId)
    requires start < |ids| && end == (if start + 10000 < |ids| then start + 10000 else |ids|) && id !in Take(ids, start + 10000)
    ensures id !in Take(ids, start) && id !in ids[start..end]
  {
    assert Take(ids, start + 10000) == ids[..end];
    assert ids[..end] == Take(ids, start) + ids[start..end];
  }

  datatype SearchResult = KbBusy | GovernanceUnresolved | SearchFailed | Found(ids: seq<ChunkId>, generation: nat)

  predicate Obsolete(store: Store, file: Source, revision: nat, id: ChunkId) {
    id in store && store[id].meta.source == file && id.revision != revision
  }

  /** After a fault-free upload only the new revision of the file is left, and it is labelled active. */
  ghost predicate Tidy(store: Store, file: Source, revision: nat, added: seq<ChunkId>) {
    && (forall id :: id in store && store[id].meta.source == file ==> id.revision == revision)
    && (forall id :: id in store && id in added ==> store[id].meta.state == Active)
  }

  /** What an upload reports when nothing fails. */
  function ExpectedAdd(config: Config, pre: KbState, up: Upload): AddOutcome {
    if Normalize(up.acl).None? then Refused
    else if !MayUpload(config, pre.rows, up) then Unauthorized
    else if AlreadyCurrent(config, pre.rows, up) || PlanOf(config, pre, up) == [] then Skipped
    else Added
  }

  ghost predicate HappyAdd(config: Config, pre: KbState, up: Upload, outcome: AddOutcome, post: KbState) {
    && outcome == ExpectedAdd(config, pre, up)
    && (outcome == Added ==>
          && Tidy(post.store, up.file, pre.nextRevision, Ids(pre.nextRevision, 0, |PlanOf(config, pre, up)|))
          && (up.refresh && config.hybrid && post.depth == 0 ==> !post.dirty))
  }

  function ExpectedDelete(pre: KbState, source: Source, user: Option<User>): DeleteOutcome {
    if Busy(pre) then DeleteBusy
    else if source !in pre.rows.sources then NotFound
    else if !MayDelete(pre, source, user) then Forbidden
    else Deleted
  }

  ghost predicate HappyDelete(config: Config, pre: KbState, source: Source, user: Option<User>, outcome: DeleteOutcome, post: KbState) {
    && outcome == ExpectedDelete(pre, source, user)
    && (outcome == Deleted ==>
          && (forall id :: id in post.store ==> id.revision != pre.rows.sources[source].revision)
          && (config.hybrid ==> !post.dirty))
  }

  /** Label changes and removed chunks of `file` outside its new revision. */
  ghost predicate Cleaned(pre: Store, post: Store, file: Source, revision: nat) {
    && (forall id :: id in post ==> id in pre && SameChunk(post[id], pre[id]) && (id.revision != revision ==> post[id] == pre[id]))
    && (forall id :: id in pre && id !in post ==> id.revision != revision && pre[id].meta.source == file)
  }

  lemma CleanedIsSwitched(base: Store, staged: Store, post: Store, file: Source, revision: nat, plan: seq<Record>)
    requires Staged(base, staged, revision, plan) && Whole(staged, revision, plan)
    requires Cleaned(staged, post, file, revision)
    ensures Switched(base, post, file, revision, plan)
  {
    forall k: nat ensures ChunkId(revision, k) in post <==> k < |plan| {
      assert ChunkId(revision, k).revision == revision && ChunkId(revision, k).index == k;
    }
    forall k: nat | k < |plan| ensures SameChunk(post[ChunkId(revision, k)], plan[k]) {
      assert ChunkId(revision, k).index == k;
    }
  }

  lemma AddedHappily(config: Config, pre: KbState, up: Upload, outcome: AddOutcome, post: KbState, added: seq<ChunkId>)
    requires Normalize(up.acl).Some? && MayUpload(config, pre.rows, up) && !AlreadyCurrent(config, pre.rows, up)
    requires added != [] && |added| == |PlanOf(config, pre, up)| && added == Ids(pre.nextRevision, 0, |added|)
    requires outcome == Added && Tidy(post.store, up.file, pre.nextRevision, added)
    requires up.refresh && config.hybrid && post.depth == 0 ==> !post.dirty
    ensures HappyAdd(config, pre, up, outcome, post)
  {
  }

  lemma SkippedIsAllowed(config: Config, pre: KbState, up: Upload, post: KbState)
    requires Normalize(up.acl).Some? && MayUpload(config, pre.rows, up) && !AlreadyCurrent(config, pre.rows, up)
    requires PlanOf(config, pre, up) == [] && post == pre.(nextRevision := pre.nextRevision + 1)
    ensures AddSpec(config, pre, up, Skipped, post)
  {
  }

  lemma RefreshedLater(config: Config, pre: KbState, mid: KbState, post: KbState)
    requires Refreshed(config, mid, post) && mid.lists == pre.lists
    ensures Refreshed(config, pre, post)
  {
  }

  lemma ShrunkStaysStaged(base: Store, staged: Store, post: Store, revision: nat, plan: seq<Record>)
    requires Staged(base, staged, revision, plan) && Shrunk(staged, post)
    requires forall id :: id in staged && id.revision != revision ==> id in post
    ensures Staged(base, post, revision, plan)
  {
  }

  lemma ReadBackIsWhole(store: Store, revision: nat, plan: seq<Record>, added: seq<ChunkId>)
    requires added == Ids(revision, 0, |plan|)
    requires forall id :: id in added <==> id in Select(store, RevisionIn({revision}))
    ensures Whole(store, revision, plan)
  {
    forall k: nat | k < |plan| ensures ChunkId(revision, k) in store {
      assert added[k] == ChunkId(revision, k) && added[k] in added;
    }
  }

  /** If the store holds exactly the added ids of the revision, the check succeeds. */
  lemma ReadBackMatches(store: Store, revision: nat, added: seq<ChunkId>, staged: seq<ChunkId>)
    requires added == Ids(revision, 0, |added|)
    requires Enumerates(staged, Select(store, RevisionIn({revision})))
    ensures AllIn(added, store) && OnlyIn(added, store, revision) && Labelled(store) ==>
      |staged| == |added| && (set id | id in staged) == (set id | id in added)
  {
    if AllIn(added, store) && OnlyIn(added, store, revision) && Labelled(store) {
      forall id ensures id in staged <==> id in added {
        if id in added { assert id.revision == revision; }
      }
      NoDupSize(staged);
      NoDupSize(added);
      assert (set id | id in staged) == (set id | id in added);
    }
  }

  lemma WholeReadBack(config: Config, pre: KbState, up: Upload, staged: KbState, added: seq<ChunkId>)
    requires Inv(pre) && Normalize(up.acl).Some?
    requires Staged(pre.store, staged.store, pre.nextRevision, PlanOf(config, pre, up))
    requires added == Ids(pre.nextRevision, 0, |added|)
    ensures Labelled(staged.store)
    ensures |added| == |PlanOf(config, pre, up)| ==> OnlyIn(added, staged.store, pre.nextRevision)
  {
    PlanIsForFile(config, pre, up);
    forall id | id in staged.store && id.revision == pre.nextRevision && |added| == |PlanOf(config, pre, up)| ensures id in added {
      assert id == ChunkId(id.revision, id.index);
      assert added[id.index] == id;
    }
  }

  lemma FreshIsInactive(st: KbState)
    requires Inv(st)
    ensures forall r :: r in ActiveRevisions(st.rows) ==> r < st.nextRevision
  {
    forall s | s in st.rows.sources ensures st.rows.sources[s].revision < st.nextRevision {
      assert Intact(st, s);
    }
  }

  lemma NewRevisionOnlyForFile(pre: KbState, post: KbState, file: Source)
    requires Inv(pre)
    requires post.rows == pre.rows ||
      (file in post.rows.sources && post.rows.sources == pre.rows.sources[file := post.rows.sources[file]] &&
       post.rows.sources[file].revision == pre.nextRevision)
    ensures pre.nextRevision in ActiveRevisions(post.rows) ==>
      file in post.rows.sources && post.rows.sources[file].revision == pre.nextRevision
  {
    FreshIsInactive(pre);
    if pre.nextRevision in ActiveRevisions(post.rows) {
      var s :| s in post.rows.sources && post.rows.sources[s].revision == pre.nextRevision;
      assert s in pre.rows.sources && post.rows.sources[s] == pre.rows.sources[s] ==> pre.rows.sources[s].revision in ActiveRevisions(pre.rows);
    }
  }

  lemma DroppedRevisionIsInactive(st: KbState, source: Source)
    requires Inv(st) && source in st.rows.sources
    ensures st.rows.sources[source].revision !in ActiveRevisions(WithoutSource(st.rows, source))
  {
    var revision := st.rows.sources[source].revision;
    assert Intact(st, source);
    assert ChunkId(revision, 0) in st.store;
    forall s | s in st.rows.sources && s != source ensures st.rows.sources[s].revision != revision {
      assert Intact(st, s);
    }
  }

  lemma EarlierChapters(chapters: seq<Chapter>, c: nat)
    requires c < |chapters|
    ensures |Pieces(chapters[..c])| <= |Pieces(chapters)|
    ensures forall i :: 0 <= i < |Pieces(chapters[..c])| ==> Pieces(chapters)[i].chapter < c
  {
    PiecesOfPrefix(chapters, c);
    ChapterNumbers(chapters[..c]);
    forall i | 0 <= i < |Pieces(chapters[..c])| ensures Pieces(chapters)[i].chapter < c {
      assert Pieces(chapters)[i] == Pieces(chapters[..c])[i];
    }
  }

  lemma NewChapter(chapters: seq<Chapter>, c: nat)
    requires c < |chapters|
    ensures |Pieces(chapters[..c])| <= |Pieces(chapters)|
    ensures ParentTable(map[], Distinct(Keys(Pieces(chapters))[..|Pieces(chapters[..c])|]), c)
  {
    EarlierChapters(chapters, c);
    var n := |Pieces(chapters[..c])|;
    var keys := Keys(Pieces(chapters))[..n];
    assert forall i :: 0 <= i < n ==> keys[i].0 < c;
    TableStartsEmpty(keys, c);
  }

  lemma TableStartsEmpty(keys: seq<ParentKey>, c: nat)
    requires forall i :: 0 <= i < |keys| ==> keys[i].0 < c
    ensures ParentTable(map[], Distinct(keys), c)
  {
    DistinctKeepsAll(keys);
    var d := Distinct(keys);
    forall i | 0 <= i < |d| ensures d[i].0 < c {
      assert d[i] in keys;
    }
    NotYetSeen(d, c);
  }

  lemma NotYetSeen(seen: seq<ParentKey>, c: nat)
    requires forall i :: 0 <= i < |seen| ==> seen[i].0 < c
    ensures forall key :: (c, key) !in seen
  {
  }

  lemma PieceAt(chapters: seq<Chapter>, c: nat, j: nat)
    requires c < |chapters| && !Blank(chapters[c].text) && j < |chapters[c].children|
    ensures var n := |Pieces(chapters[..c])| + j;
      && n < |Pieces(chapters)|
      && Pieces(chapters)[n] == Piece(c, chapters[c].title, chapters[c].children[j])
  {
    OneMoreChapter(chapters, c);
    LastPiece(chapters, c, j);
    var n := |Pieces(chapters[..c])| + j;
    assert Pieces(chapters)[n] == Pieces(chapters[..c + 1])[n];
  }

  lemma LastPiece(chapters: seq<Chapter>, c: nat, j: nat)
    requires c < |chapters| && !Blank(chapters[c].text) && j < |chapters[c].children|
    ensures |Pieces(chapters[..c + 1])| == |Pieces(chapters[..c])| + |chapters[c].children|
    ensures Pieces(chapters[..c + 1])[|Pieces(chapters[..c])| + j] == Piece(c, chapters[c].title, chapters[c].children[j])
  {
    assert chapters[..c + 1][..c] == chapters[..c];
  }
}
