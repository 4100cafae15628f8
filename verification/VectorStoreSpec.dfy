/** The knowledge base as a value, and what each operation may do to it. */
module VectorStoreSpec {
  import opened Prelude
  import opened Acl
  import opened Chroma
  import opened Manifest
  import opened Hybrid
  import opened Ingest

  /** Deployment settings and the governance file, constant over a run. */
  datatype Config = Config(hybrid: bool, batchSize: nat, governance: map<Source, SourceMetadata>)

  datatype KbState = KbState(
    store: Store,
    rows: Rows,
    lists: Bm25Lists,
    dirty: bool,
    depth: nat,
    batchMutated: bool,
    destructive: bool,
    nextRevision: nat)

  const NO_ACL := AclMetadata("", "", "", "")

  /** `metadata_for_source` */
  function Governed(config: Config, source: Source): SourceMetadata {
    if source in config.governance then config.governance[source].(acl := NO_ACL)
    else SourceMetadata("unconfirmed", "active", "", NO_ACL)
  }

  function MetadataOf(config: Config, rows: Rows, source: Source): SourceMetadata {
    if source in rows.metadata then rows.metadata[source] else Governed(config, source)
  }

  predicate Retrievable(config: Config, rows: Rows, source: Source, policy: Policy, user: Option<User>) {
    var m := MetadataOf(config, rows, source);
    Allowed(m, policy) && (user.None? || VisibleTo(user.value, m.acl))
  }

  function ActiveRevisions(rows: Rows): set<nat> {
    set s | s in rows.sources :: rows.sources[s].revision
  }

  function AllowedRevisions(config: Config, rows: Rows, policy: Policy, user: Option<User>): set<nat> {
    set s | s in rows.sources && Retrievable(config, rows, s, policy, user) :: rows.sources[s].revision
  }

  /** The manifest-visible chunks. */
  function Visible(st: KbState): Store {
    Select(st.store, RevisionIn(ActiveRevisions(st.rows)))
  }

  /** The visible chunks of one source. */
  function VisibleOf(st: KbState, source: Source): Store {
    map id | id in st.store && source in st.rows.sources && st.store[id].meta.revision == st.rows.sources[source].revision
      :: st.store[id]
  }

  /** What the keyword index is derived from. */
  function Corpus(config: Config, st: KbState): Store {
    Select(st.store, RevisionIn(AllowedRevisions(config, st.rows, AllActive, None)))
  }

  /** The active revision of `source` is physically complete, belongs to it, and was made from
      the content whose hash the manifest keeps. */
  ghost predicate Intact(st: KbState, source: Source)
    requires source in st.rows.sources
  {
    var row := st.rows.sources[source];
    && 0 < row.chunkCount
    && row.revision < st.nextRevision
    && (forall k: nat :: ChunkId(row.revision, k) in st.store <==> k < row.chunkCount)
    && (forall k: nat :: k < row.chunkCount ==> st.store[ChunkId(row.revision, k)].meta.source == source)
    && (forall k: nat :: k < row.chunkCount ==> st.store[ChunkId(row.revision, k)].meta.contentHash == row.contentHash)
  }

  ghost predicate Inv(st: KbState) {
    && (forall id :: id in st.store ==> id.revision < st.nextRevision && st.store[id].meta.revision == id.revision)
    && (forall s :: s in st.rows.sources ==> Intact(st, s))
  }

  /** The index answers for the present corpus unless it is marked dirty. */
  ghost predicate IndexAgrees(config: Config, st: KbState) {
    !st.dirty ==> Agrees(st.lists, Corpus(config, st))
  }

  predicate Busy(st: KbState) { st.depth > 0 || st.destructive }

  // ---- Uploading one document ----

  /** `acl` is the raw metadata of the request, `actor` the principal attached to it. */
  datatype Upload = Upload(file: Source, content: string, chapters: seq<Chapter>, refresh: bool, acl: AclMetadata, actor: Option<User>)

  datatype AddOutcome =
    | Added
    | Skipped
    | Unauthorized
    | Refused                                  // failed before anything was written
    | IngestFailed(storageMayHaveChanged: bool)
    | LookupFailed                             // the failure handler itself could not read the manifest

  function Combined(config: Config, up: Upload): SourceMetadata
    requires Normalize(up.acl).Some?
  {
    Governed(config, up.file).(acl := Normalize(up.acl).value)
  }

  predicate MayUpload(config: Config, rows: Rows, up: Upload)
    requires Normalize(up.acl).Some?
  {
    || up.actor.None?
    || (&& CanCreate(up.actor.value, Combined(config, up).acl)
        && (up.file in rows.sources ==> CanUpdate(up.actor.value, ManifestAcl(rows, up.file))))
  }

  function ManifestAcl(rows: Rows, source: Source): AclMetadata {
    if source in rows.metadata then rows.metadata[source].acl else NO_ACL
  }

  predicate AlreadyCurrent(config: Config, rows: Rows, up: Upload)
    requires Normalize(up.acl).Some?
  {
    && up.file in rows.sources
    && rows.sources[up.file].contentHash == ContentHash(up.content)
    && up.file in rows.metadata
    && rows.metadata[up.file] == Combined(config, up)
  }

  function JobOf(config: Config, pre: KbState, up: Upload): Job
    requires Normalize(up.acl).Some?
  {
    Job(up.file, up.content, pre.nextRevision, Combined(config, up))
  }

  function PlanOf(config: Config, pre: KbState, up: Upload): seq<Record>
    requires Normalize(up.acl).Some?
  {
    Plan(JobOf(config, pre, up), up.chapters)
  }

  function NewRow(config: Config, pre: KbState, up: Upload): SourceRow
    requires Normalize(up.acl).Some?
  {
    SourceRow(pre.nextRevision, ContentHash(up.content), |PlanOf(config, pre, up)|)
  }

  /** Only chunks of the new revision were written, and each is the planned one. */
  ghost predicate Staged(pre: Store, post: Store, revision: nat, plan: seq<Record>) {
    && (forall id :: id in pre && id.revision != revision ==> id in post && post[id] == pre[id])
    && (forall id :: id in post && id.revision != revision ==> id in pre)
    && (forall id :: id in post && id.revision == revision ==> id.index < |plan| && post[id] == plan[id.index])
  }

  ghost predicate Whole(post: Store, revision: nat, plan: seq<Record>) {
    forall k: nat :: k < |plan| ==> ChunkId(revision, k) in post
  }

  /** Equal up to the auxiliary ingest label. */
  predicate SameChunk(a: Record, b: Record) { WithState(a, Active) == WithState(b, Active) }

  /** The new revision is exactly the plan; other chunks are untouched except that superseded
      chunks of the same file may be gone. */
  ghost predicate Switched(pre: Store, post: Store, file: Source, revision: nat, plan: seq<Record>) {
    && (forall k: nat :: ChunkId(revision, k) in post <==> k < |plan|)
    && (forall k: nat :: k < |plan| ==> SameChunk(post[ChunkId(revision, k)], plan[k]))
    && (forall id :: id in post && id.revision != revision ==> id in pre && post[id] == pre[id])
    && (forall id :: id in pre && id.revision != revision && id !in post ==> pre[id].meta.source == file)
  }

  /** A refresh was due: either the index is fresh for the new state or it is marked dirty. */
  ghost predicate Refreshed(config: Config, pre: KbState, post: KbState) {
    || (post.dirty && post.lists == pre.lists)
    || (!post.dirty && config.hybrid && post.depth == 0 && Agrees(post.lists, Corpus(config, post)))
  }

  ghost predicate Untouched(pre: KbState, post: KbState) {
    && post.depth == pre.depth
    && post.batchMutated == pre.batchMutated
    && post.destructive == pre.destructive
  }

  ghost predicate AddSpec(config: Config, pre: KbState, up: Upload, outcome: AddOutcome, post: KbState) {
    && Untouched(pre, post)
    && (outcome != Refused ==> Normalize(up.acl).Some?)
    && match outcome
       case Refused => post == pre
       case Unauthorized => post == pre && !MayUpload(config, pre.rows, up)
       case Skipped => SkippedSpec(config, pre, up, post)
       case Added => AddedSpec(config, pre, up, post)
       case IngestFailed(changed) =>
         && FailedSpec(config, pre, up, post)
         && post.dirty == (pre.dirty || changed)
         && (post.rows == pre.rows || changed)
       case LookupFailed =>
         && FailedSpec(config, pre, up, post)
         && post.dirty == pre.dirty
  }

  ghost predicate SkippedSpec(config: Config, pre: KbState, up: Upload, post: KbState)
    requires Normalize(up.acl).Some?
  {
    && MayUpload(config, pre.rows, up)
    && if AlreadyCurrent(config, pre.rows, up) then post == pre
       else PlanOf(config, pre, up) == [] && post == pre.(nextRevision := pre.nextRevision + 1)
  }

  ghost predicate AddedSpec(config: Config, pre: KbState, up: Upload, post: KbState)
    requires Normalize(up.acl).Some?
  {
    && Attempted(config, pre, up, post)
    && post.rows == Committed(pre.rows, up.file, NewRow(config, pre, up), Combined(config, up))
    && PlanOf(config, pre, up) != []
    && Switched(pre.store, post.store, up.file, pre.nextRevision, PlanOf(config, pre, up))
    && (if up.refresh then Refreshed(config, pre, post) else post.dirty && post.lists == pre.lists)
  }

  /** A failed attempt: nothing is committed, or all of it is. */
  ghost predicate FailedSpec(config: Config, pre: KbState, up: Upload, post: KbState)
    requires Normalize(up.acl).Some?
  {
    && Attempted(config, pre, up, post)
    && post.lists == pre.lists
    && Staged(pre.store, post.store, pre.nextRevision, PlanOf(config, pre, up))
    && (post.rows == pre.rows || JustCommitted(config, pre, up, post))
  }

  ghost predicate Attempted(config: Config, pre: KbState, up: Upload, post: KbState)
    requires Normalize(up.acl).Some?
  {
    && MayUpload(config, pre.rows, up)
    && !AlreadyCurrent(config, pre.rows, up)
    && post.nextRevision == pre.nextRevision + 1
  }

  ghost predicate JustCommitted(config: Config, pre: KbState, up: Upload, post: KbState)
    requires Normalize(up.acl).Some?
  {
    && PlanOf(config, pre, up) != []
    && Whole(post.store, pre.nextRevision, PlanOf(config, pre, up))
    && post.rows == Committed(pre.rows, up.file, NewRow(config, pre, up), Combined(config, up))
  }

  // ---- Deleting and clearing ----

  datatype DeleteOutcome =
    | Deleted
    | DeleteBusy
    | NotFound
    | MetadataUnreadable
    | Forbidden
    | DeleteRefused      // failed before anything was changed
    | DeleteReadFailed   // logically deleted, but the chunks could not be listed

  /** Some chunks are gone, none is new or different. */
  ghost predicate Shrunk(pre: Store, post: Store) {
    forall id :: id in post ==> id in pre && post[id] == pre[id]
  }

  ghost predicate DeleteSpec(config: Config, pre: KbState, source: Source, user: Option<User>, outcome: DeleteOutcome, post: KbState) {
    && Untouched(pre, post)
    && post.nextRevision == pre.nextRevision
    && (outcome == DeleteBusy <==> Busy(pre))
    && match outcome
       case DeleteBusy => post == pre
       case DeleteRefused => post == pre
       case NotFound => post == pre && source !in pre.rows.sources
       case MetadataUnreadable => post == pre && source in pre.rows.sources
       case Forbidden =>
         && post == pre
         && source in pre.rows.sources
         && user.Some? && !CanDelete(user.value, ManifestAcl(pre.rows, source))
       case Deleted =>
         && MayDelete(pre, source, user)
         && post.rows == WithoutSource(pre.rows, source)
         && Shrunk(pre.store, post.store)
         && (forall id :: id in pre.store && id !in post.store ==> id.revision == pre.rows.sources[source].revision)
         && Refreshed(config, pre, post)
       case DeleteReadFailed =>
         && MayDelete(pre, source, user)
         && post == pre.(rows := WithoutSource(pre.rows, source))
  }

  predicate MayDelete(pre: KbState, source: Source, user: Option<User>) {
    && source in pre.rows.sources
    && (user.Some? ==> CanDelete(user.value, ManifestAcl(pre.rows, source)))
  }

  datatype ClearOutcome = AllCleared | ClearBusy | ClearRefused | ClearReadFailed

  ghost predicate ClearSpec(config: Config, pre: KbState, outcome: ClearOutcome, post: KbState) {
    && Untouched(pre, post)
    && post.nextRevision == pre.nextRevision
    && (outcome == ClearBusy <==> Busy(pre))
    && match outcome
       case ClearBusy => post == pre
       case ClearRefused => post == pre
       case AllCleared =>
         && post.rows == Cleared(pre.rows)
         && Shrunk(pre.store, post.store)
         && (if pre.rows.sources != map[] then Refreshed(config, pre, post)
             else post.lists == pre.lists && post.dirty == pre.dirty)
       case ClearReadFailed => post == pre.(rows := Cleared(pre.rows))
  }

  // ---- Batches and the derived index ----

  ghost predicate EnsureSpec(config: Config, pre: KbState, ok: bool, post: KbState) {
    && post == pre.(lists := post.lists, dirty := post.dirty)
    && if !config.hybrid || pre.depth > 0 || !pre.dirty then ok && post == pre
       else if ok then !post.dirty && Agrees(post.lists, Corpus(config, post))
       else post == pre
  }

  ghost predicate BeginSpec(pre: KbState, post: KbState) {
    !pre.destructive && post == pre.(depth := pre.depth + 1)
  }

  /** Whether the batch that ends now has to refresh the index. */
  predicate LastMutating(pre: KbState, mutated: bool) {
    pre.depth <= 1 && (pre.batchMutated || mutated)
  }

  ghost predicate FinalizeSpec(config: Config, pre: KbState, mutated: bool, ok: bool, post: KbState) {
    var depth := if pre.depth > 0 then pre.depth - 1 else 0;
    if !LastMutating(pre, mutated) then
      ok && post == pre.(depth := depth, batchMutated := pre.batchMutated || mutated)
    else
      && post == pre.(depth := depth, batchMutated := false, lists := post.lists, dirty := post.dirty)
      && if ok then Refreshed(config, pre, post) else post.lists == pre.lists && post.dirty == pre.dirty
  }

  ghost predicate DescribeSpec(pre: KbState, source: Source, metadata: SourceMetadata, bump: bool, post: KbState) {
    post == pre.(rows := Described(pre.rows, source, metadata, bump))
  }
}
