/** Whole runs of the knowledge base: any sequence of operations with any faults. */
module VectorStoreRuns {
  import opened Prelude
  import opened Acl
  import opened Chroma
  import opened Manifest
  import opened Hybrid
  import opened Ingest
  import opened VectorStoreSpec
  import opened VectorStoreLaws

  datatype Event =
    | AddEvent(up: Upload, added: AddOutcome)
    | DeleteEvent(source: Source, user: Option<User>, deleted: DeleteOutcome)
    | ClearEvent(cleared: ClearOutcome)
    | BeginEvent
    | FinalizeEvent(mutated: bool, ok: bool)
    | EnsureEvent(ok: bool)
    | DescribeEvent(source: Source, metadata: SourceMetadata, bump: bool)   // the metadata synchronisation scripts

  ghost predicate Step(config: Config, pre: KbState, e: Event, post: KbState) {
    match e
    case AddEvent(up, outcome) => AddSpec(config, pre, up, outcome, post)
    case DeleteEvent(source, user, outcome) => DeleteSpec(config, pre, source, user, outcome, post)
    case ClearEvent(outcome) => ClearSpec(config, pre, outcome, post)
    case BeginEvent => BeginSpec(pre, post)
    case FinalizeEvent(mutated, ok) => FinalizeSpec(config, pre, mutated, ok, post)
    case EnsureEvent(ok) => EnsureSpec(config, pre, ok, post)
    case DescribeEvent(source, metadata, bump) => DescribeSpec(pre, source, metadata, bump, post)
  }

  ghost predicate Run(config: Config, states: seq<KbState>, events: seq<Event>) {
    && |states| == |events| + 1
    && forall i :: 0 <= i < |events| ==> Step(config, states[i], events[i], states[i + 1])
  }

  lemma StepKeepsInv(config: Config, pre: KbState, e: Event, post: KbState)
    requires Inv(pre) && Step(config, pre, e, post)
    ensures Inv(post)
  {
    match e
    case AddEvent(up, outcome) => AddKeepsInv(config, pre, up, outcome, post);
    case DeleteEvent(source, user, outcome) => DeleteKeepsInv(config, pre, source, user, outcome, post);
    case ClearEvent(outcome) => ClearKeepsInv(config, pre, outcome, post);
    case BeginEvent => IdleKeepsInv(pre, post);
    case FinalizeEvent(mutated, ok) => IdleKeepsInv(pre, post);
    case EnsureEvent(ok) => IdleKeepsInv(pre, post);
    case DescribeEvent(source, metadata, bump) => IdleKeepsInv(pre, post);
  }

  /** The generation never decreases, and a step that keeps it keeps the visible corpus. */
  lemma StepGeneration(config: Config, pre: KbState, e: Event, post: KbState)
    requires Inv(pre) && Step(config, pre, e, post)
    ensures pre.rows.generation <= post.rows.generation
    ensures pre.rows.generation == post.rows.generation ==> Visible(post) == Visible(pre)
  {
    match e
    case AddEvent(up, outcome) => AddGeneration(config, pre, up, outcome, post);
    case DeleteEvent(source, user, outcome) => DeleteGeneration(config, pre, source, user, outcome, post);
    case ClearEvent(outcome) => ClearGeneration(config, pre, outcome, post);
    case BeginEvent =>
    case FinalizeEvent(mutated, ok) =>
    case EnsureEvent(ok) =>
    case DescribeEvent(source, metadata, bump) =>
  }

  lemma DeleteGeneration(config: Config, pre: KbState, source: Source, user: Option<User>, outcome: DeleteOutcome, post: KbState)
    requires DeleteSpec(config, pre, source, user, outcome, post)
    ensures pre.rows.generation <= post.rows.generation
    ensures pre.rows.generation == post.rows.generation ==> post == pre
  {
  }

  lemma ClearGeneration(config: Config, pre: KbState, outcome: ClearOutcome, post: KbState)
    requires ClearSpec(config, pre, outcome, post)
    ensures pre.rows.generation <= post.rows.generation
    ensures pre.rows.generation == post.rows.generation ==> Visible(post) == Visible(pre)
  {
    if outcome == AllCleared && pre.rows.sources == map[] {
      assert ActiveRevisions(pre.rows) == {} && ActiveRevisions(post.rows) == {};
      assert Visible(pre) == map[] && Visible(post) == map[];
    }
  }

  lemma AddGeneration(config: Config, pre: KbState, up: Upload, outcome: AddOutcome, post: KbState)
    requires Inv(pre) && AddSpec(config, pre, up, outcome, post)
    ensures pre.rows.generation <= post.rows.generation
    ensures pre.rows.generation == post.rows.generation ==> Visible(post) == Visible(pre)
  {
    if Writes(outcome) {
      AddWrote(config, pre, up, outcome, post);
      WroteIsAllOrNothing(pre, post, up.file, PlanOf(config, pre, up), post.rows != pre.rows);
      assert post.rows != pre.rows ==> post.rows.generation == pre.rows.generation + 1;
    }
  }

  lemma {:induction false} RunKeepsInv(config: Config, states: seq<KbState>, events: seq<Event>, n: nat)
    requires Run(config, states, events) && Inv(states[0]) && n <= |events|
    ensures Inv(states[n])
  {
    if n > 0 {
      RunKeepsInv(config, states, events, n - 1);
      StepKeepsInv(config, states[n - 1], events[n - 1], states[n]);
    }
  }

  /** Between any two instants of a run the generation does not decrease, and when it is the
      same at both, so are all manifest-visible chunks; every state has its active revisions complete. */
  lemma {:induction false} RunIsSafe(config: Config, states: seq<KbState>, events: seq<Event>, i: nat, j: nat)
    requires Run(config, states, events) && Inv(states[0]) && i <= j <= |events|
    ensures Inv(states[i]) && Inv(states[j])
    ensures states[i].rows.generation <= states[j].rows.generation
    ensures states[i].rows.generation == states[j].rows.generation ==> Visible(states[i]) == Visible(states[j])
    decreases j - i
  {
    RunKeepsInv(config, states, events, i);
    if i < j {
      RunIsSafe(config, states, events, i, j - 1);
      StepKeepsInv(config, states[j - 1], events[j - 1], states[j]);
      StepGeneration(config, states[j - 1], events[j - 1], states[j]);
    }
  }

  // ---- The derived index over a run ----

  /** The step does not change the corpus behind the back of the dirty flag. */
  predicate Guarded(config: Config, pre: KbState, e: Event) {
    match e
    case AddEvent(_, outcome) => outcome != LookupFailed
    case DeleteEvent(_, _, outcome) => outcome != DeleteReadFailed
    case ClearEvent(outcome) => outcome != ClearReadFailed
    case DescribeEvent(source, metadata, _) =>
      source in pre.rows.sources ==> (Allowed(metadata, AllActive) <==> Retrievable(config, pre.rows, source, AllActive, None))
    case _ => true
  }

  lemma AllowedIsActive(config: Config, rows: Rows)
    ensures AllowedRevisions(config, rows, AllActive, None) <= ActiveRevisions(rows)
  {
  }

  lemma DescribedAllows(config: Config, pre: Rows, post: Rows, source: Source, metadata: SourceMetadata, bump: bool)
    requires post == Described(pre, source, metadata, bump)
    requires source in pre.sources ==> (Allowed(metadata, AllActive) <==> Retrievable(config, pre, source, AllActive, None))
    ensures AllowedRevisions(config, post, AllActive, None) == AllowedRevisions(config, pre, AllActive, None)
  {
    forall s | s in pre.sources
      ensures Retrievable(config, post, s, AllActive, None) <==> Retrievable(config, pre, s, AllActive, None)
    {
    }
  }

  lemma FailedAddKeepsCorpus(config: Config, pre: KbState, up: Upload, outcome: AddOutcome, post: KbState)
    requires Inv(pre) && AddSpec(config, pre, up, outcome, post) && post.rows == pre.rows
    ensures Corpus(config, post) == Corpus(config, pre)
  {
    if Writes(outcome) {
      AddWrote(config, pre, up, outcome, post);
      WroteIsAllOrNothing(pre, post, up.file, PlanOf(config, pre, up), false);
      WroteLabels(pre, post, up.file, PlanOf(config, pre, up), false);
      AllowedIsActive(config, pre.rows);
      SameSourcesSameSelection(pre, post, AllowedRevisions(config, pre.rows, AllActive, None));
    }
  }

  lemma AddKeepsAgreement(config: Config, pre: KbState, up: Upload, outcome: AddOutcome, post: KbState)
    requires Inv(pre) && AddSpec(config, pre, up, outcome, post)
    requires IndexAgrees(config, pre) && outcome != LookupFailed
    ensures IndexAgrees(config, post)
  {
    if outcome.Added? {
      assert AddedSpec(config, pre, up, post);
    } else if !post.dirty {
      FailedAddKeepsCorpus(config, pre, up, outcome, post);
    }
  }

  lemma ClearKeepsAgreement(config: Config, pre: KbState, outcome: ClearOutcome, post: KbState)
    requires Inv(pre) && ClearSpec(config, pre, outcome, post)
    requires IndexAgrees(config, pre) && outcome != ClearReadFailed
    ensures IndexAgrees(config, post)
  {
    if outcome == AllCleared && pre.rows.sources == map[] {
      assert AllowedRevisions(config, pre.rows, AllActive, None) == {};
      assert AllowedRevisions(config, post.rows, AllActive, None) == {};
      assert Corpus(config, pre) == map[] && Corpus(config, post) == map[];
    }
  }

  lemma StepKeepsAgreement(config: Config, pre: KbState, e: Event, post: KbState)
    requires Inv(pre) && Step(config, pre, e, post)
    requires IndexAgrees(config, pre) && Guarded(config, pre, e)
    ensures IndexAgrees(config, post)
  {
    match e
    case AddEvent(up, outcome) => AddKeepsAgreement(config, pre, up, outcome, post);
    case DeleteEvent(source, user, outcome) =>
    case ClearEvent(outcome) => ClearKeepsAgreement(config, pre, outcome, post);
    case BeginEvent =>
    case FinalizeEvent(mutated, ok) =>
    case EnsureEvent(ok) =>
    case DescribeEvent(source, metadata, bump) => DescribedAllows(config, pre.rows, post.rows, source, metadata, bump);
  }

  /** Over any run whose reads after a logical change succeed, and whose metadata synchronisations
      do not change which active sources are indexed, a clean flag means that the published lists
      are what a rebuild over the present corpus would publish. */
  lemma {:induction false} RunKeepsAgreement(config: Config, states: seq<KbState>, events: seq<Event>, n: nat)
    requires Run(config, states, events) && Inv(states[0]) && n <= |events|
    requires IndexAgrees(config, states[0])
    requires forall i :: 0 <= i < |events| ==> Guarded(config, states[i], events[i])
    ensures IndexAgrees(config, states[n])
  {
    if n > 0 {
      RunKeepsAgreement(config, states, events, n - 1);
      RunKeepsInv(config, states, events, n - 1);
      StepKeepsAgreement(config, states[n - 1], events[n - 1], states[n]);
    }
  }

  /** No two active sources share a revision. */
  ghost predicate Apart(rows: Rows) {
    forall s, t :: s in rows.sources && t in rows.sources && s != t ==> rows.sources[s].revision != rows.sources[t].revision
  }

  lemma InvMeansApart(st: KbState)
    requires Inv(st)
    ensures Apart(st.rows)
  {
    forall s, t | s in st.rows.sources && t in st.rows.sources && s != t
      ensures st.rows.sources[s].revision != st.rows.sources[t].revision
    {
      assert Intact(st, s) && Intact(st, t);
      assert ChunkId(st.rows.sources[s].revision, 0) in st.store;
    }
  }

  lemma DroppedAllows(config: Config, rows: Rows, source: Source)
    requires Apart(rows) && source in rows.sources
    ensures var before, after := AllowedRevisions(config, rows, AllActive, None), AllowedRevisions(config, WithoutSource(rows, source), AllActive, None);
      && after == before - {rows.sources[source].revision}
      && (rows.sources[source].revision in before <==> Retrievable(config, rows, source, AllActive, None))
  {
    var after := WithoutSource(rows, source);
    forall s | s in after.sources
      ensures Retrievable(config, after, s, AllActive, None) <==> Retrievable(config, rows, s, AllActive, None)
    {
    }
  }

  /** Exactly when a delete that could not list its chunks leaves the clean flag truthful. */
  lemma UnlistedDeleteAgrees(config: Config, pre: KbState, source: Source, user: Option<User>, post: KbState)
    requires Inv(pre) && DeleteSpec(config, pre, source, user, DeleteReadFailed, post)
    requires !pre.dirty && IndexAgrees(config, pre)
    ensures IndexAgrees(config, post) <==>
      (!Retrievable(config, pre.rows, source, AllActive, None) || Tokenless(Corpus(config, pre)))
  {
    var before, after := Corpus(config, pre), Corpus(config, post);
    ListsDetermineCorpus(pre.lists, before, after);
    DroppedCorpus(config, pre, source, post, before, after);
  }

  /** Dropping a source leaves the corpus alone only if it was not in it, and never adds to it. */
  lemma DroppedCorpus(config: Config, pre: KbState, source: Source, post: KbState, before: Store, after: Store)
    requires Inv(pre) && source in pre.rows.sources && post == pre.(rows := WithoutSource(pre.rows, source))
    requires before == Corpus(config, pre) && after == Corpus(config, post)
    ensures after == before <==> !Retrievable(config, pre.rows, source, AllActive, None)
    ensures forall id :: id in after ==> id in before && after[id] == before[id]
  {
    InvMeansApart(pre);
    DroppedAllows(config, pre.rows, source);
    var first := ChunkId(pre.rows.sources[source].revision, 0);
    assert first in pre.store && pre.store[first].meta.revision == first.revision by { assert Intact(pre, source); }
    if Retrievable(config, pre.rows, source, AllActive, None) {
      assert first in before && first !in after;
    }
  }

  /** Exactly when a clear that could not list the chunks leaves the clean flag truthful. */
  lemma UnlistedClearAgrees(config: Config, pre: KbState, post: KbState)
    requires Inv(pre) && ClearSpec(config, pre, ClearReadFailed, post)
    requires !pre.dirty && IndexAgrees(config, pre)
    ensures IndexAgrees(config, post) <==> Tokenless(Corpus(config, pre))
  {
    ListsDetermineCorpus(pre.lists, Corpus(config, pre), Corpus(config, post));
    assert AllowedRevisions(config, post.rows, AllActive, None) == {};
    assert Corpus(config, post) == map[];
  }

  /** Exactly when a failed upload whose handler could not read the manifest leaves the clean
      flag truthful: nothing was committed, or neither version of the file is indexed at all,
      or there is no token to index before or after. */
  lemma UnreadFailureAgrees(config: Config, pre: KbState, up: Upload, post: KbState)
    requires Inv(pre) && AddSpec(config, pre, up, LookupFailed, post)
    requires !pre.dirty && IndexAgrees(config, pre)
    ensures IndexAgrees(config, post) <==>
      || post.rows == pre.rows
      || ((up.file in pre.rows.sources ==> !Retrievable(config, pre.rows, up.file, AllActive, None)) && !Allowed(Combined(config, up), AllActive))
      || (Tokenless(Corpus(config, pre)) && Tokenless(Corpus(config, post)))
  {
    var before, after := Corpus(config, pre), Corpus(config, post);
    ListsDetermineCorpus(pre.lists, before, after);
    if post.rows == pre.rows {
      FailedAddKeepsCorpus(config, pre, up, LookupFailed, post);
    } else {
      CommittedCorpus(config, pre, up, post);
    }
  }

  /** A commit leaves the corpus alone only if neither the old nor the new version is in it. */
  lemma CommittedCorpus(config: Config, pre: KbState, up: Upload, post: KbState)
    requires Inv(pre) && AddSpec(config, pre, up, LookupFailed, post) && post.rows != pre.rows
    ensures Corpus(config, post) == Corpus(config, pre) <==>
      (up.file in pre.rows.sources ==> !Retrievable(config, pre.rows, up.file, AllActive, None)) && !Allowed(Combined(config, up), AllActive)
  {
    assert FailedSpec(config, pre, up, post);
    AddWrote(config, pre, up, LookupFailed, post);
    WroteKeepsInv(pre, post, up.file, PlanOf(config, pre, up), true);
    SwitchChangesCorpus(config, pre, post, up.file, NewRow(config, pre, up), Combined(config, up), PlanOf(config, pre, up));
  }

  lemma SwitchChangesCorpus(config: Config, pre: KbState, post: KbState, file: Source, row: SourceRow, metadata: SourceMetadata, plan: seq<Record>)
    requires Inv(pre) && Inv(post) && Staged(pre.store, post.store, pre.nextRevision, plan)
    requires post.rows == Committed(pre.rows, file, row, metadata) && row.revision == pre.nextRevision
    ensures Corpus(config, post) == Corpus(config, pre) <==>
      (file in pre.rows.sources ==> !Retrievable(config, pre.rows, file, AllActive, None)) && !Allowed(metadata, AllActive)
  {
    var before, after := Corpus(config, pre), Corpus(config, post);
    InvMeansApart(pre);
    InvMeansApart(post);
    CommittedAllows(config, pre.rows, file, row, metadata);
    var first := ChunkId(row.revision, 0);
    assert first in post.store && post.store[first].meta.revision == row.revision by { assert Intact(post, file); }
    assert first !in pre.store;
    if Allowed(metadata, AllActive) {
      assert first in after && first !in before;
    } else if file in pre.rows.sources && Retrievable(config, pre.rows, file, AllActive, None) {
      ReplacedLeaves(config, pre, post, file, row, metadata, plan);
    } else {
      NeitherIndexed(config, pre, post, file, row, metadata, plan);
    }
  }

  /** The first chunk of an indexed version is no longer in the corpus once it is replaced. */
  lemma ReplacedLeaves(config: Config, pre: KbState, post: KbState, file: Source, row: SourceRow, metadata: SourceMetadata, plan: seq<Record>)
    requires Inv(pre) && Staged(pre.store, post.store, pre.nextRevision, plan) && Labelled(post.store)
    requires post.rows == Committed(pre.rows, file, row, metadata) && row.revision == pre.nextRevision
    requires Apart(pre.rows) && Apart(post.rows)
    requires file in pre.rows.sources && Retrievable(config, pre.rows, file, AllActive, None)
    ensures Corpus(config, post) != Corpus(config, pre)
  {
    CommittedAllows(config, pre.rows, file, row, metadata);
    var replaced := ChunkId(pre.rows.sources[file].revision, 0);
    assert replaced in pre.store && replaced.revision < pre.nextRevision by { assert Intact(pre, file); }
    assert replaced in Corpus(config, pre);
    assert replaced !in Corpus(config, post);
  }

  lemma NeitherIndexed(config: Config, pre: KbState, post: KbState, file: Source, row: SourceRow, metadata: SourceMetadata, plan: seq<Record>)
    requires Inv(pre) && Staged(pre.store, post.store, pre.nextRevision, plan) && Labelled(post.store)
    requires post.rows == Committed(pre.rows, file, row, metadata) && row.revision == pre.nextRevision
    requires Apart(pre.rows) && Apart(post.rows)
    requires (file in pre.rows.sources ==> !Retrievable(config, pre.rows, file, AllActive, None)) && !Allowed(metadata, AllActive)
    ensures Corpus(config, post) == Corpus(config, pre)
  {
    NewRevisionWasUnknown(config, pre);
    SameAllowed(config, pre.rows, file, row, metadata);
    StagingIsUnselected(pre.store, post.store, pre.nextRevision, plan, AllowedRevisions(config, pre.rows, AllActive, None));
  }

  lemma SameAllowed(config: Config, rows: Rows, file: Source, row: SourceRow, metadata: SourceMetadata)
    requires Apart(rows) && Apart(Committed(rows, file, row, metadata))
    requires (file in rows.sources ==> !Retrievable(config, rows, file, AllActive, None)) && !Allowed(metadata, AllActive)
    requires row.revision !in AllowedRevisions(config, rows, AllActive, None)
    ensures AllowedRevisions(config, Committed(rows, file, row, metadata), AllActive, None) == AllowedRevisions(config, rows, AllActive, None)
  {
    CommittedAllows(config, rows, file, row, metadata);
    var before, after := AllowedRevisions(config, rows, AllActive, None), AllowedRevisions(config, Committed(rows, file, row, metadata), AllActive, None);
    assert after - {row.revision} == after && before - {row.revision} == before;
  }

  lemma StagingIsUnselected(pre: Store, post: Store, revision: nat, plan: seq<Record>, revisions: set<nat>)
    requires Staged(pre, post, revision, plan) && Labelled(pre) && Labelled(post) && revision !in revisions
    ensures Select(post, RevisionIn(revisions)) == Select(pre, RevisionIn(revisions))
  {
  }

  lemma NewRevisionWasUnknown(config: Config, pre: KbState)
    requires Inv(pre)
    ensures pre.nextRevision !in AllowedRevisions(config, pre.rows, AllActive, None)
  {
    forall s | s in pre.rows.sources ensures pre.rows.sources[s].revision != pre.nextRevision {
      assert Intact(pre, s);
    }
  }

  /** The new revision counts if the new metadata allows it; the one it replaces no longer does. */
  lemma CommittedAllows(config: Config, rows: Rows, file: Source, row: SourceRow, metadata: SourceMetadata)
    requires Apart(rows) && Apart(Committed(rows, file, row, metadata))
    ensures var before, after := AllowedRevisions(config, rows, AllActive, None), AllowedRevisions(config, Committed(rows, file, row, metadata), AllActive, None);
      && (row.revision in after <==> Allowed(metadata, AllActive))
      && (file in rows.sources ==> (rows.sources[file].revision in before <==> Retrievable(config, rows, file, AllActive, None)))
      && after - {row.revision} == (if file in rows.sources then before - {rows.sources[file].revision} else before) - {row.revision}
  {
    var later := Committed(rows, file, row, metadata);
    assert later.sources[file] == row && MetadataOf(config, later, file) == metadata;
    var before, after := AllowedRevisions(config, rows, AllActive, None), AllowedRevisions(config, later, AllActive, None);
    forall s | s in rows.sources && s != file
      ensures s in later.sources && later.sources[s] == rows.sources[s]
      ensures Retrievable(config, later, s, AllActive, None) <==> Retrievable(config, rows, s, AllActive, None)
    {
    }
    assert Retrievable(config, later, file, AllActive, None) <==> Allowed(metadata, AllActive);
    forall r | r != row.revision
      ensures r in after <==> r in before && (file in rows.sources ==> r != rows.sources[file].revision)
    {
      if r in after {
        var s :| s in later.sources && Retrievable(config, later, s, AllActive, None) && later.sources[s].revision == r;
        assert s != file;
      }
      if r in before && (file in rows.sources ==> r != rows.sources[file].revision) {
        var s :| s in rows.sources && Retrievable(config, rows, s, AllActive, None) && rows.sources[s].revision == r;
        assert s != file;
        assert s in later.sources && later.sources[s].revision == r;
      }
    }
  }

  /** What a metadata synchronisation does to the revision of one active source, and to the others. */
  lemma DescribedOne(config: Config, pre: Rows, post: Rows, source: Source, metadata: SourceMetadata, bump: bool)
    requires Apart(pre) && post == Described(pre, source, metadata, bump) && source in pre.sources
    ensures var revision := pre.sources[source].revision;
      && (revision in AllowedRevisions(config, pre, AllActive, None) <==> Retrievable(config, pre, source, AllActive, None))
      && (revision in AllowedRevisions(config, post, AllActive, None) <==> Allowed(metadata, AllActive))
  {
    assert MetadataOf(config, post, source) == metadata;
    forall s | s in pre.sources && s != source ensures pre.sources[s].revision != pre.sources[source].revision {
    }
  }

  /** The synchronisation never marks the index dirty.  Exactly when that leaves a clean flag
      truthful: the source is not active, or it is indexed after as before, or there is no token
      to index before or after. */
  lemma UnmarkedDescribeAgrees(config: Config, pre: KbState, source: Source, metadata: SourceMetadata, bump: bool, post: KbState)
    requires Inv(pre) && DescribeSpec(pre, source, metadata, bump, post)
    requires !pre.dirty && IndexAgrees(config, pre)
    ensures IndexAgrees(config, post) <==>
      || (source in pre.rows.sources ==> (Allowed(metadata, AllActive) <==> Retrievable(config, pre.rows, source, AllActive, None)))
      || (Tokenless(Corpus(config, pre)) && Tokenless(Corpus(config, post)))
  {
    var before, after := Corpus(config, pre), Corpus(config, post);
    ListsDetermineCorpus(pre.lists, before, after);
    if source in pre.rows.sources && (Allowed(metadata, AllActive) <==> !Retrievable(config, pre.rows, source, AllActive, None)) {
      InvMeansApart(pre);
      DescribedOne(config, pre.rows, post.rows, source, metadata, bump);
      var first := ChunkId(pre.rows.sources[source].revision, 0);
      assert first in pre.store && pre.store[first].meta.revision == first.revision by { assert Intact(pre, source); }
      assert first in before <==> first !in after;
    } else {
      DescribedAllows(config, pre.rows, post.rows, source, metadata, bump);
    }
  }

  /** One active source, indexed, under a clean flag. */
  lemma OneIndexedSource() returns (config: Config, st: KbState)
    ensures Inv(st) && !st.dirty && IndexAgrees(config, st)
    ensures "a.md" in st.rows.sources && Retrievable(config, st.rows, "a.md", AllActive, None)
    ensures !Tokenless(Corpus(config, st)) && !Busy(st)
  {
    config := Config(true, 1, map[]);
    var metadata := SourceMetadata("reference", "active", "", NO_ACL);
    var id := ChunkId(0, 0);
    var meta := ChunkMeta("a.md", 0, ContentHash("x"), "", ParentId(ContentHash("x"), 0), "x", 0, metadata, Active);
    var store: Store := map[id := Record("x", meta)];
    var rows := Rows(map["a.md" := SourceRow(0, ContentHash("x"), 1)], map["a.md" := metadata], 1);
    st := KbState(store, rows, Bm25Lists(Some(["x"]), [id], ["x"], [meta]), false, 0, false, false, 1);
    assert Intact(st, "a.md");
    assert Retrievable(config, rows, "a.md", AllActive, None);
    assert 0 in AllowedRevisions(config, rows, AllActive, None);
    assert Corpus(config, st) == store;
    assert store[id].document == "x";
    assert IndexAgrees(config, st);
    assert id in Corpus(config, st);
  }

  /** A delete that cannot list its chunks does break the agreement: one indexed source is enough. */
  lemma UnlistedDeleteCanDisagree()
    ensures exists config, pre: KbState, source, post: KbState ::
      && Inv(pre) && !pre.dirty && IndexAgrees(config, pre)
      && DeleteSpec(config, pre, source, None, DeleteReadFailed, post)
      && !IndexAgrees(config, post)
  {
    var config, pre := OneIndexedSource();
    var post := pre.(rows := WithoutSource(pre.rows, "a.md"));
    assert DeleteSpec(config, pre, "a.md", None, DeleteReadFailed, post);
    UnlistedDeleteAgrees(config, pre, "a.md", None, post);
  }

  /** So does archiving an indexed source by the synchronisation. */
  lemma UnmarkedDescribeCanDisagree()
    ensures exists config, pre: KbState, source, metadata, post: KbState ::
      && Inv(pre) && !pre.dirty && IndexAgrees(config, pre)
      && DescribeSpec(pre, source, metadata, true, post)
      && !IndexAgrees(config, post)
  {
    var config, pre := OneIndexedSource();
    var archived := SourceMetadata("reference", "archived", "", NO_ACL);
    var post := pre.(rows := Described(pre.rows, "a.md", archived, true));
    assert DescribeSpec(pre, "a.md", archived, true, post);
    UnmarkedDescribeAgrees(config, pre, "a.md", archived, true, post);
  }

  // ---- The lists over a run, dirty states included ----

  lemma StepKeepsAligned(config: Config, pre: KbState, e: Event, post: KbState)
    requires Step(config, pre, e, post) && Aligned(pre.lists)
    ensures Aligned(post.lists)
  {
    AgreedIsAligned(post.lists, Corpus(config, post));
    assert post.lists == pre.lists || Agrees(post.lists, Corpus(config, post)) by {
      ListsAreRebuiltWhole(config, pre, e, post);
    }
  }

  /** A step leaves the lists alone or publishes those of a rebuild. */
  lemma ListsAreRebuiltWhole(config: Config, pre: KbState, e: Event, post: KbState)
    requires Step(config, pre, e, post)
    ensures post.lists == pre.lists || Agrees(post.lists, Corpus(config, post))
  {
    match e
    case AddEvent(up, outcome) =>
    case DeleteEvent(source, user, outcome) =>
    case ClearEvent(outcome) =>
    case BeginEvent =>
    case FinalizeEvent(mutated, ok) =>
    case EnsureEvent(ok) =>
    case DescribeEvent(source, metadata, bump) =>
  }

  /** In every state of every run, however stale the index is, the four lists are aligned: what
      a search needs of them. */
  lemma {:induction false} RunKeepsAligned(config: Config, states: seq<KbState>, events: seq<Event>, n: nat)
    requires Run(config, states, events) && Aligned(states[0].lists) && n <= |events|
    ensures Aligned(states[n].lists)
  {
    if n > 0 {
      RunKeepsAligned(config, states, events, n - 1);
      StepKeepsAligned(config, states[n - 1], events[n - 1], states[n]);
    }
  }

  // ---- Overlapping batches ----

  predicate RefreshesAt(pre: KbState, e: Event) { e.FinalizeEvent? && LastMutating(pre, e.mutated) }

  ghost predicate SomeMutated(events: seq<Event>, n: nat) {
    exists i :: 0 <= i < n && i < |events| && events[i].FinalizeEvent? && events[i].mutated
  }

  /** While batches overlap, the pending flag records whether one of those that ended mutated. */
  lemma {:induction false} PendingFlag(config: Config, states: seq<KbState>, events: seq<Event>, n: nat)
    requires Run(config, states, events) && n <= |events|
    requires states[0].depth == 0 && !states[0].batchMutated
    requires forall i :: 0 < i <= n ==> states[i].depth > 0
    ensures states[n].batchMutated <==> SomeMutated(events, n)
  {
    if n > 0 {
      PendingFlag(config, states, events, n - 1);
      if events[n - 1].FinalizeEvent? {
        assert states[n - 1].depth > 0 ==> states[n].depth == states[n - 1].depth - 1;
      } else {
        assert states[n].batchMutated == states[n - 1].batchMutated;
      }
    }
  }

  /** From the first of a group of overlapping batches to the end of the last one, no batch
      but the last one refreshes the index, and that one does exactly if some batch of the group mutated. */
  lemma OneRefreshPerGroup(config: Config, states: seq<KbState>, events: seq<Event>)
    requires Run(config, states, events) && |events| > 0
    requires states[0].depth == 0 && !states[0].batchMutated
    requires forall i :: 0 < i < |events| ==> states[i].depth > 0
    requires states[|events|].depth == 0 && events[|events| - 1].FinalizeEvent?
    ensures forall i :: 0 <= i < |events| - 1 ==> !RefreshesAt(states[i], events[i])
    ensures RefreshesAt(states[|events| - 1], events[|events| - 1]) <==> SomeMutated(events, |events|)
    ensures !states[|events|].batchMutated
  {
    var n := |events| - 1;
    forall i | 0 <= i < n ensures !RefreshesAt(states[i], events[i]) {
      assert states[i + 1].depth > 0;
      assert Step(config, states[i], events[i], states[i + 1]);
    }
    if n == 0 {
      assert !SomeMutated(events, 0);
    } else {
      PendingFlag(config, states, events, n);
    }
    assert Step(config, states[n], events[n], states[n + 1]);
  }
}
