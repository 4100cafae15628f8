/** What every operation keeps: single steps of the knowledge base. */
module VectorStoreLaws {
  import opened Prelude
  import opened Acl
  import opened Chroma
  import opened Manifest
  import opened Hybrid
  import opened Ingest
  import opened VectorStoreSpec

  // ---- The physical store always holds every active revision completely ----

  /** Chunks of older revisions are as before, except that chunks of `file` may be gone. */
  ghost predicate Kept(pre: Store, post: Store, revision: nat, file: Option<Source>) {
    && (forall id :: id in post && id.revision != revision ==> id in pre && post[id] == pre[id])
    && (forall id :: id in pre && id.revision != revision && id !in post ==> file.Some? && pre[id].meta.source == file.value)
  }

  ghost predicate Labelled(store: Store) {
    forall id :: id in store ==> store[id].meta.revision == id.revision
  }

  ghost predicate MadeFrom(plan: seq<Record>, hash: Digest) {
    forall k: nat :: k < |plan| ==> plan[k].meta.contentHash == hash
  }

  /** What an upload that got as far as writing did to the store and to the source pointers. */
  ghost predicate Wrote(pre: KbState, post: KbState, file: Source, plan: seq<Record>, committed: bool) {
    var rev := pre.nextRevision;
    && post.nextRevision == rev + 1
    && Kept(pre.store, post.store, rev, if committed then Some(file) else None)
    && (forall id :: id in post.store && id.revision == rev ==> id.index < |plan| && SameChunk(post.store[id], plan[id.index]))
    && if committed then
         && plan != []
         && (forall k: nat :: k < |plan| ==> ChunkId(rev, k) in post.store)
         && file in post.rows.sources
         && post.rows.sources == pre.rows.sources[file := post.rows.sources[file]]
         && post.rows.sources[file].revision == rev
         && post.rows.sources[file].chunkCount == |plan|
         && MadeFrom(plan, post.rows.sources[file].contentHash)
       else post.rows.sources == pre.rows.sources
  }

  ghost predicate IsPlanFor(plan: seq<Record>, file: Source, revision: nat) {
    forall k: nat :: k < |plan| ==> plan[k].meta.source == file && plan[k].meta.revision == revision
  }

  predicate Writes(outcome: AddOutcome) { outcome.Added? || outcome.IngestFailed? || outcome.LookupFailed? }

  lemma SwitchedWrote(pre: KbState, post: KbState, file: Source, row: SourceRow, metadata: SourceMetadata, plan: seq<Record>)
    requires post.nextRevision == pre.nextRevision + 1
    requires plan != [] && row.revision == pre.nextRevision && row.chunkCount == |plan| && MadeFrom(plan, row.contentHash)
    requires post.rows == Committed(pre.rows, file, row, metadata)
    requires Switched(pre.store, post.store, file, pre.nextRevision, plan)
    ensures Wrote(pre, post, file, plan, true)
  {
    forall id | id in post.store && id.revision == pre.nextRevision
      ensures id.index < |plan| && SameChunk(post.store[id], plan[id.index])
    {
      assert id == ChunkId(id.revision, id.index);
    }
  }

  lemma StagedWrote(pre: KbState, post: KbState, file: Source, plan: seq<Record>)
    requires post.nextRevision == pre.nextRevision + 1 && post.rows == pre.rows
    requires Staged(pre.store, post.store, pre.nextRevision, plan)
    ensures Wrote(pre, post, file, plan, false)
  {
  }

  lemma CommittedWrote(pre: KbState, post: KbState, file: Source, row: SourceRow, metadata: SourceMetadata, plan: seq<Record>)
    requires post.nextRevision == pre.nextRevision + 1
    requires plan != [] && row.revision == pre.nextRevision && row.chunkCount == |plan| && MadeFrom(plan, row.contentHash)
    requires post.rows == Committed(pre.rows, file, row, metadata)
    requires Staged(pre.store, post.store, pre.nextRevision, plan) && Whole(post.store, pre.nextRevision, plan)
    ensures Wrote(pre, post, file, plan, true)
  {
  }

  lemma PlanIsForFile(config: Config, pre: KbState, up: Upload)
    requires Normalize(up.acl).Some?
    ensures IsPlanFor(PlanOf(config, pre, up), up.file, pre.nextRevision)
    ensures MadeFrom(PlanOf(config, pre, up), ContentHash(up.content))
  {
  }

  lemma AddWrote(config: Config, pre: KbState, up: Upload, outcome: AddOutcome, post: KbState)
    requires AddSpec(config, pre, up, outcome, post) && Writes(outcome)
    ensures Wrote(pre, post, up.file, PlanOf(config, pre, up), post.rows != pre.rows)
    ensures IsPlanFor(PlanOf(config, pre, up), up.file, pre.nextRevision)
  {
    PlanIsForFile(config, pre, up);
    var plan, row, metadata := PlanOf(config, pre, up), NewRow(config, pre, up), Combined(config, up);
    if outcome.Added? {
      assert AddedSpec(config, pre, up, post);
      assert post.rows.generation == pre.rows.generation + 1;
      SwitchedWrote(pre, post, up.file, row, metadata, plan);
    } else {
      assert FailedSpec(config, pre, up, post);
      if post.rows == pre.rows {
        StagedWrote(pre, post, up.file, plan);
      } else {
        CommittedWrote(pre, post, up.file, row, metadata, plan);
      }
    }
  }

  /** A source that is not being replaced keeps its chunks. */
  lemma KeptSource(pre: KbState, post: KbState, file: Option<Source>, s: Source)
    requires Inv(pre) && Labelled(post.store) && pre.nextRevision <= post.nextRevision
    requires Kept(pre.store, post.store, pre.nextRevision, file) && file != Some(s)
    requires s in pre.rows.sources && s in post.rows.sources && post.rows.sources[s] == pre.rows.sources[s]
    ensures Intact(post, s)
    ensures VisibleOf(post, s) == VisibleOf(pre, s)
  {
    assert Intact(pre, s);
    var rev := pre.rows.sources[s].revision;
    forall id: ChunkId | id.revision == rev
      ensures id in pre.store <==> id in post.store
      ensures id in pre.store ==> post.store[id] == pre.store[id]
    {
      assert id == ChunkId(rev, id.index);
    }
  }

  lemma WroteLabels(pre: KbState, post: KbState, file: Source, plan: seq<Record>, committed: bool)
    requires Inv(pre) && Wrote(pre, post, file, plan, committed) && IsPlanFor(plan, file, pre.nextRevision)
    ensures Labelled(post.store)
    ensures forall id :: id in post.store ==> id.revision < post.nextRevision
  {
    forall id | id in post.store ensures post.store[id].meta.revision == id.revision && id.revision < post.nextRevision {
      if id.revision == pre.nextRevision { assert SameChunk(post.store[id], plan[id.index]); }
    }
  }

  lemma WroteKeepsInv(pre: KbState, post: KbState, file: Source, plan: seq<Record>, committed: bool)
    requires Inv(pre) && Wrote(pre, post, file, plan, committed) && IsPlanFor(plan, file, pre.nextRevision)
    ensures Inv(post)
  {
    WroteLabels(pre, post, file, plan, committed);
    forall s | s in post.rows.sources ensures Intact(post, s) {
      if committed && s == file {
        NewRevisionIsIntact(pre, post, file, plan);
      } else {
        KeptSource(pre, post, if committed then Some(file) else None, s);
      }
    }
  }

  lemma NewRevisionIsIntact(pre: KbState, post: KbState, file: Source, plan: seq<Record>)
    requires Wrote(pre, post, file, plan, true) && IsPlanFor(plan, file, pre.nextRevision)
    ensures Intact(post, file)
  {
    var rev := pre.nextRevision;
    forall k: nat ensures ChunkId(rev, k) in post.store <==> k < |plan| {
      assert ChunkId(rev, k).revision == rev && ChunkId(rev, k).index == k;
    }
    forall k: nat | k < |plan|
      ensures post.store[ChunkId(rev, k)].meta.source == file
      ensures post.store[ChunkId(rev, k)].meta.contentHash == post.rows.sources[file].contentHash
    {
      assert SameChunk(post.store[ChunkId(rev, k)], plan[k]);
    }
  }

  /** A chunk that carries a source's name but not its active revision is in no active revision. */
  lemma ObsoleteIsInactive(st: KbState, file: Source, id: ChunkId)
    requires Inv(st) && file in st.rows.sources
    requires id in st.store && st.store[id].meta.source == file && id.revision != st.rows.sources[file].revision
    ensures id.revision !in ActiveRevisions(st.rows)
  {
    assert id == ChunkId(id.revision, id.index);
    forall s | s in st.rows.sources ensures st.rows.sources[s].revision != id.revision {
      assert Intact(st, s);
    }
  }

  lemma CommitKeepsInv(config: Config, pre: KbState, up: Upload, post: KbState)
    requires Inv(pre) && Normalize(up.acl).Some?
    requires post.nextRevision == pre.nextRevision + 1
    requires Staged(pre.store, post.store, pre.nextRevision, PlanOf(config, pre, up))
    requires JustCommitted(config, pre, up, post)
    ensures Inv(post)
  {
    PlanIsForFile(config, pre, up);
    CommittedWrote(pre, post, up.file, NewRow(config, pre, up), Combined(config, up), PlanOf(config, pre, up));
    WroteKeepsInv(pre, post, up.file, PlanOf(config, pre, up), true);
  }

  lemma IdleKeepsInv(pre: KbState, post: KbState)
    requires Inv(pre) && post.store == pre.store && post.rows.sources == pre.rows.sources
    requires pre.nextRevision <= post.nextRevision
    ensures Inv(post)
  {
    forall s | s in post.rows.sources ensures Intact(post, s) {
      assert Intact(pre, s);
    }
  }

  lemma AddKeepsInv(config: Config, pre: KbState, up: Upload, outcome: AddOutcome, post: KbState)
    requires Inv(pre) && AddSpec(config, pre, up, outcome, post)
    ensures Inv(post)
  {
    if Writes(outcome) {
      AddWrote(config, pre, up, outcome, post);
      WroteKeepsInv(pre, post, up.file, PlanOf(config, pre, up), post.rows != pre.rows);
    } else {
      assert post == pre || post == pre.(nextRevision := pre.nextRevision + 1);
      IdleKeepsInv(pre, post);
    }
  }

  lemma DeleteKeepsInv(config: Config, pre: KbState, source: Source, user: Option<User>, outcome: DeleteOutcome, post: KbState)
    requires Inv(pre) && DeleteSpec(config, pre, source, user, outcome, post)
    ensures Inv(post)
  {
    forall s | s in post.rows.sources ensures Intact(post, s) {
      assert Intact(pre, s);
      if outcome == Deleted {
        assert Intact(pre, source);
        assert ChunkId(pre.rows.sources[s].revision, 0) in pre.store;
        assert pre.rows.sources[s].revision != pre.rows.sources[source].revision;
        forall k: nat ensures ChunkId(pre.rows.sources[s].revision, k) in post.store <==> k < pre.rows.sources[s].chunkCount {
          assert ChunkId(pre.rows.sources[s].revision, k) in pre.store <==> k < pre.rows.sources[s].chunkCount;
        }
      }
    }
  }

  lemma ClearKeepsInv(config: Config, pre: KbState, outcome: ClearOutcome, post: KbState)
    requires Inv(pre) && ClearSpec(config, pre, outcome, post)
    ensures Inv(post)
  {
    forall s | s in post.rows.sources ensures Intact(post, s) {
      assert Intact(pre, s);
    }
  }

  // ---- A finished upload shows the uploaded content ----

  /** Something of the file is visible, all of it made from this content. */
  ghost predicate Shows(st: KbState, file: Source, content: string) {
    && VisibleOf(st, file) != map[]
    && forall id :: id in VisibleOf(st, file) ==>
         VisibleOf(st, file)[id].meta.contentHash == Sha256([content]) && VisibleOf(st, file)[id].meta.source == file
  }

  lemma RowIsShown(st: KbState, file: Source, content: string)
    requires Inv(st) && file in st.rows.sources
    ensures Shows(st, file, content) <==> st.rows.sources[file].contentHash == Sha256([content])
  {
    assert Intact(st, file);
    var first := ChunkId(st.rows.sources[file].revision, 0);
    assert first in VisibleOf(st, file);
    forall id | id in VisibleOf(st, file)
      ensures id.revision == st.rows.sources[file].revision && st.store[id].meta.contentHash == st.rows.sources[file].contentHash
      ensures st.store[id].meta.source == file
    {
      assert id == ChunkId(id.revision, id.index);
    }
  }

  /** An upload reported as added, or as skipped although the document has chunks, leaves the file
      showing exactly the uploaded content, with the access list that the request carried. */
  lemma FinishedUploadIsShown(config: Config, pre: KbState, up: Upload, outcome: AddOutcome, post: KbState)
    requires Inv(pre) && AddSpec(config, pre, up, outcome, post)
    requires outcome.Added? || (outcome.Skipped? && Pieces(up.chapters) != [])
    ensures Shows(post, up.file, up.content)
    ensures up.file in post.rows.metadata && Normalize(up.acl) == Some(post.rows.metadata[up.file].acl)
    ensures var m := post.rows.metadata[up.file];
      if up.file in config.governance then
        var g := config.governance[up.file];
        m.authority == g.authority && m.status == g.status && m.control == g.control
      else m.authority == "unconfirmed" && m.status == "active" && m.control == ""
  {
    AddKeepsInv(config, pre, up, outcome, post);
    RowIsShown(post, up.file, up.content);
  }

  /** What a finished upload leaves, in the words of its caller. */
  ghost predicate Finished(up: Upload, outcome: AddOutcome, post: KbState) {
    outcome.Added? || (outcome.Skipped? && Pieces(up.chapters) != []) ==>
      && Shows(post, up.file, up.content)
      && up.file in post.rows.metadata && Normalize(up.acl) == Some(post.rows.metadata[up.file].acl)
  }

  lemma AddFinishes(config: Config, pre: KbState, up: Upload, outcome: AddOutcome, post: KbState)
    requires Inv(pre) && AddSpec(config, pre, up, outcome, post)
    ensures Inv(post) && Finished(up, outcome, post)
  {
    AddKeepsInv(config, pre, up, outcome, post);
    if outcome.Added? || (outcome.Skipped? && Pieces(up.chapters) != []) {
      FinishedUploadIsShown(config, pre, up, outcome, post);
    }
  }

  /** And the other way round: an upload that would leave the file as it is shown, with the same
      metadata, writes nothing. */
  lemma SameUploadIsSkipped(config: Config, pre: KbState, up: Upload, outcome: AddOutcome, post: KbState)
    requires Inv(pre) && AddSpec(config, pre, up, outcome, post) && Normalize(up.acl).Some?
    requires up.file in pre.rows.sources && Shows(pre, up.file, up.content)
    requires up.file in pre.rows.metadata && pre.rows.metadata[up.file] == Combined(config, up)
    ensures outcome.Skipped? || outcome.Refused? || outcome.Unauthorized?
    ensures post == pre
  {
    RowIsShown(pre, up.file, up.content);
  }

  // ---- Ingestion is all or nothing ----

  /** Exactly the chunks of the plan, up to the auxiliary label. */
  ghost predicate IsPlan(found: Store, revision: nat, plan: seq<Record>) {
    && (forall id :: id in found <==> id.revision == revision && id.index < |plan|)
    && (forall id :: id in found ==> SameChunk(found[id], plan[id.index]))
  }

  lemma WroteIsAllOrNothing(pre: KbState, post: KbState, file: Source, plan: seq<Record>, committed: bool)
    requires Inv(pre) && Wrote(pre, post, file, plan, committed) && IsPlanFor(plan, file, pre.nextRevision)
    ensures forall s :: s != file || !committed ==> VisibleOf(post, s) == VisibleOf(pre, s)
    ensures committed ==> IsPlan(VisibleOf(post, file), pre.nextRevision, plan)
    ensures !committed ==> Visible(post) == Visible(pre)
  {
    WroteKeepsInv(pre, post, file, plan, committed);
    forall s | s != file || !committed ensures VisibleOf(post, s) == VisibleOf(pre, s) {
      if s in pre.rows.sources {
        KeptSource(pre, post, if committed then Some(file) else None, s);
      }
    }
    if committed {
      forall id ensures id in VisibleOf(post, file) <==> id.revision == pre.nextRevision && id.index < |plan| {
        assert id == ChunkId(id.revision, id.index);
      }
    } else {
      SameSourcesSameSelection(pre, post, ActiveRevisions(pre.rows));
    }
  }

  /** Whatever fails during an upload, the visible chunks of the file are afterwards either
      exactly the old ones or exactly the planned ones, no other source changes, and a failure
      that says the storage cannot have changed leaves the whole visible corpus as it was. */
  lemma AddIsAllOrNothing(config: Config, pre: KbState, up: Upload, outcome: AddOutcome, post: KbState)
    requires Inv(pre) && AddSpec(config, pre, up, outcome, post)
    ensures forall s :: s != up.file ==> VisibleOf(post, s) == VisibleOf(pre, s)
    ensures
      || VisibleOf(post, up.file) == VisibleOf(pre, up.file)
      || ((outcome.Added? || outcome == IngestFailed(true) || outcome.LookupFailed?) &&
          IsPlan(VisibleOf(post, up.file), pre.nextRevision, PlanOf(config, pre, up)))
    ensures outcome.Added? ==> IsPlan(VisibleOf(post, up.file), pre.nextRevision, PlanOf(config, pre, up))
    ensures outcome.Refused? || outcome.Unauthorized? || outcome.Skipped? || outcome == IngestFailed(false) ==>
      Visible(post) == Visible(pre)
  {
    if Writes(outcome) {
      AddWrote(config, pre, up, outcome, post);
      WroteIsAllOrNothing(pre, post, up.file, PlanOf(config, pre, up), post.rows != pre.rows);
    }
  }

  /** When every active revision keeps its chunks, so does every selection of active revisions. */
  lemma SameSourcesSameSelection(pre: KbState, post: KbState, revisions: set<nat>)
    requires Labelled(pre.store) && Labelled(post.store) && post.rows.sources == pre.rows.sources
    requires forall s :: s in pre.rows.sources ==> VisibleOf(post, s) == VisibleOf(pre, s)
    requires revisions <= ActiveRevisions(pre.rows)
    ensures Select(post.store, RevisionIn(revisions)) == Select(pre.store, RevisionIn(revisions))
  {
    forall id: ChunkId | id.revision in revisions
      ensures id in post.store <==> id in pre.store
      ensures id in pre.store ==> post.store[id] == pre.store[id]
    {
      var s :| s in pre.rows.sources && pre.rows.sources[s].revision == id.revision;
      assert id in VisibleOf(post, s) <==> id in post.store;
      assert id in VisibleOf(pre, s) <==> id in pre.store;
      if id in pre.store { assert VisibleOf(post, s)[id] == VisibleOf(pre, s)[id]; }
    }
  }
}
