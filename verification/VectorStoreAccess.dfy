/** Who may find, write and delete what: the access rules of the knowledge base in terms of the
    stored lists themselves, as reasons to refuse. */
module VectorStoreAccess {
  import opened Prelude
  import opened Acl
  import opened Chroma
  import opened Manifest
  import opened Ingest
  import opened VectorStoreSpec
  import opened VectorStoreLaws

  // ---- Reasons to withhold a source ----

  /** From a user who is no administrator: the list is not complete, or it keeps the document
      private to somebody else, or to another department. */
  predicate Withheld(user: User, m: AclMetadata) {
    var kind := Lower(Trim(m.visibility));
    || (kind != "all" && kind != "department" && kind != "private")
    || Blank(m.department)
    || (kind == "private" && (Blank(m.owner) || m.owner != user.id))
    || (kind == "department" && Lower(m.department) != Lower(user.department))
  }

  /** From everybody, because of what governance says about it. */
  predicate Shelved(m: SourceMetadata, policy: Policy) {
    || policy == Unresolved
    || (m.status != "active" && m.status != "")
    || m.authority == "draft" || m.authority == "superseded"
    || (policy == Authoritative && m.authority != "authoritative")
  }

  lemma VisibleUnlessWithheld(user: User, m: AclMetadata)
    ensures "admin" in user.roles ==> VisibleTo(user, m)
    ensures "admin" !in user.roles ==> (VisibleTo(user, m) <==> !Withheld(user, m))
  {
    BlankMeansNothingLeft(m.department);
    BlankMeansNothingLeft(m.owner);
  }

  lemma AllowedUnlessShelved(m: SourceMetadata, policy: Policy)
    ensures Allowed(m, policy) <==> !Shelved(m, policy)
  {
  }

  /** An active source that this request may find.  A source without stored metadata is judged by
      the governance file alone and is open to nobody but administrators and internal callers. */
  predicate Open(config: Config, rows: Rows, s: Source, policy: Policy, user: Option<User>) {
    && s in rows.sources
    && (s in rows.metadata ==> !Shelved(rows.metadata[s], policy))
    && (s !in rows.metadata && s in config.governance ==> !Shelved(config.governance[s], policy))
    && (s !in rows.metadata && s !in config.governance ==> policy == AllActive)
    && (user.Some? && "admin" !in user.value.roles ==> s in rows.metadata && !Withheld(user.value, rows.metadata[s].acl))
  }

  lemma OpenIsRetrievable(config: Config, rows: Rows, s: Source, policy: Policy, user: Option<User>)
    requires s in rows.sources
    ensures Retrievable(config, rows, s, policy, user) <==> Open(config, rows, s, policy, user)
  {
    AllowedUnlessShelved(MetadataOf(config, rows, s), policy);
    if s in config.governance { AllowedUnlessShelved(config.governance[s], policy); }
    if user.Some? { VisibleUnlessWithheld(user.value, MetadataOf(config, rows, s).acl); }
  }

  /** The filter of a request admits exactly the revisions of the sources open to it. */
  lemma FilterIsOpen(config: Config, rows: Rows, policy: Policy, user: Option<User>, r: nat)
    ensures r in AllowedRevisions(config, rows, policy, user) <==>
      exists s :: Open(config, rows, s, policy, user) && rows.sources[s].revision == r
  {
    forall s | s in rows.sources {
      OpenIsRetrievable(config, rows, s, policy, user);
    }
    if r in AllowedRevisions(config, rows, policy, user) {
      var s :| s in rows.sources && Retrievable(config, rows, s, policy, user) && rows.sources[s].revision == r;
      assert Open(config, rows, s, policy, user);
    }
  }

  /** A chunk that passes the filter is one of an open source, and carries that source's name. */
  ghost predicate FoundIn(config: Config, st: KbState, id: ChunkId, policy: Policy, user: Option<User>) {
    && id in st.store
    && exists s :: Open(config, st.rows, s, policy, user) && st.rows.sources[s].revision == st.store[id].meta.revision &&
         (Inv(st) ==> st.store[id].meta.source == s)
  }

  /** The store hands out under the filter of a request exactly the chunks of open sources. */
  lemma SelectedIsFound(config: Config, st: KbState, id: ChunkId, policy: Policy, user: Option<User>)
    ensures id in Select(st.store, RevisionIn(AllowedRevisions(config, st.rows, policy, user))) <==> FoundIn(config, st, id, policy, user)
  {
    if id !in st.store { return; }
    FilterIsOpen(config, st.rows, policy, user, st.store[id].meta.revision);
    if Inv(st) && id in Select(st.store, RevisionIn(AllowedRevisions(config, st.rows, policy, user))) {
      var s :| Open(config, st.rows, s, policy, user) && st.rows.sources[s].revision == st.store[id].meta.revision;
      assert Intact(st, s);
      assert id == ChunkId(id.revision, id.index);
    }
  }

  /** The keyword index is derived from the chunks that are open to every internal caller. */
  lemma CorpusIsOpen(config: Config, st: KbState, id: ChunkId)
    ensures id in Corpus(config, st) <==> FoundIn(config, st, id, AllActive, None)
    ensures id in Corpus(config, st) ==> Corpus(config, st)[id] == st.store[id]
  {
    SelectedIsFound(config, st, id, AllActive, None);
  }

  // ---- Lists as the normalisation leaves them ----

  lemma {:induction false} LowerTwice(s: string)
    ensures Lower(Lower(s)) == Lower(s)
  {
  }

  lemma CodeIsTrimmed(s: string)
    requires IsDepartmentCode(s)
    ensures Trim(s) == s && !Blank(s)
  {
    assert s[0] in s && s[|s| - 1] in s;
    TrimIsIdempotent(s);
  }

  lemma KindsAreTrimmed(kind: string)
    requires kind in VISIBILITIES
    ensures Lower(Trim(kind)) == kind
  {
    TrimIsIdempotent(kind);
    assert Lower("private") == "private" && Lower("department") == "department" && Lower("all") == "all";
  }

  /** A list is refused for these reasons and no others; otherwise it is kept stripped and in lower
      case, with an owner of at most 128 characters. */
  lemma NormalizeFailsOnlyFor(raw: AclMetadata)
    ensures var kind, code := Lower(Trim(OrElse(raw.visibility, "all"))), Lower(Trim(OrElse(raw.department, "general")));
      Normalize(raw).None? <==>
        || Lower(Trim(OrElse(raw.classification, "other"))) !in {"policy", "process", "benefit", "technical", "other"}
        || kind !in {"private", "department", "all"}
        || code == "" || |code| > 64 || code[0] in {'_', '-'} || (exists i :: 0 <= i < |code| && !IsCodeChar(code[i]))
        || (kind == "private" && Trim(raw.owner) == "")
    ensures Normalize(raw).Some? ==>
      var m := Normalize(raw).value;
      && m.classification == Lower(Trim(OrElse(raw.classification, "other"))) && m.visibility == Lower(Trim(OrElse(raw.visibility, "all")))
      && m.department == Lower(Trim(OrElse(raw.department, "general")))
      && m.owner <= Trim(raw.owner) && |m.owner| == (if |Trim(raw.owner)| > 128 then 128 else |Trim(raw.owner)|)
  {
    var code := Lower(Trim(OrElse(raw.department, "general")));
    assert forall c :: c in code <==> exists i :: 0 <= i < |code| && code[i] == c;
  }

  /** What later comparisons strip and lower is already so. */
  lemma NormalizedIsPlain(raw: AclMetadata, m: AclMetadata)
    requires Normalize(raw) == Some(m)
    ensures Lower(Trim(m.visibility)) == m.visibility && m.visibility in VISIBILITIES
    ensures Trim(m.department) == m.department == Lower(m.department) && !Blank(m.department)
    ensures m.visibility == "private" ==> !Blank(m.owner)
  {
    KindsAreTrimmed(m.visibility);
    CodeIsTrimmed(m.department);
    LowerTwice(Trim(OrElse(raw.department, "general")));
    var trimmed := Trim(raw.owner);
    TrimIsIdempotent(raw.owner);
    if m.owner != "" {
      assert m.owner[0] == trimmed[0] && !IsSpace(trimmed[0]);
    }
  }

  /** Whoever is no administrator may create only as an editor, only for his own department, and
      nothing for everybody; and replace or delete only what is his own besides. */
  lemma RightsOfOthers(user: User, raw: AclMetadata, m: AclMetadata)
    requires "admin" !in user.roles && Normalize(raw) == Some(m)
    ensures CanCreate(user, m) <==>
      "editor" in user.roles && m.visibility != "all" && m.department == Lower(Trim(user.department))
    ensures CanUpdate(user, m) <==> CanCreate(user, m) && m.owner == user.id
    ensures CanDelete(user, m) <==> CanUpdate(user, m)
  {
    NormalizedIsPlain(raw, m);
  }

  lemma {:induction false} ShorterWhenTrimmed(s: string)
    ensures |Trim(s)| <= |s| && (|Trim(s)| == |s| ==> Trim(s) == s)
  {
    TrimLeftShortens(s);
    TrimRightCuts(TrimLeft(s));
  }

  lemma {:induction false} TrimLeftShortens(s: string)
    ensures |TrimLeft(s)| <= |s| && (|TrimLeft(s)| == |s| ==> TrimLeft(s) == s)
  {
    if s != [] && IsSpace(s[0]) { TrimLeftShortens(s[1..]); }
  }

  /** Whether an editor can find what he may create in his own name: always if it is private, and
      if it is for his department exactly when his own record of it carries no white space. */
  lemma OwnIsVisible(user: User, raw: AclMetadata, m: AclMetadata)
    requires "admin" !in user.roles && Normalize(raw) == Some(m)
    requires CanCreate(user, m) && m.owner == user.id
    ensures !Withheld(user, m) <==> m.visibility == "private" || Trim(user.department) == user.department
  {
    NormalizedIsPlain(raw, m);
    ShorterWhenTrimmed(user.department);
    if Lower(user.department) == Lower(Trim(user.department)) {
      assert |user.department| == |Trim(user.department)|;
    }
  }

  // ---- Uploads and deletes ----

  /** An upload on behalf of a user who is no administrator writes only as an editor, for his own
      department and not for everybody, and replaces only what was his own. */
  lemma OnlyTheEntitledUpload(config: Config, pre: KbState, up: Upload, outcome: AddOutcome, post: KbState)
    requires AddSpec(config, pre, up, outcome, post) && post != pre
    requires up.actor.Some? && "admin" !in up.actor.value.roles
    ensures Normalize(up.acl).Some?
    ensures var user, m := up.actor.value, Normalize(up.acl).value;
      && "editor" in user.roles && m.visibility != "all" && m.department == Lower(Trim(user.department))
      && (up.file in pre.rows.sources ==> up.file in pre.rows.metadata && pre.rows.metadata[up.file].acl.owner == user.id)
  {
    var m := Normalize(up.acl).value;
    RightsOfOthers(up.actor.value, up.acl, m);
    assert MayUpload(config, pre.rows, up);
  }

  /** And nobody else is refused. */
  lemma OnlyTheUnentitledAreRefused(config: Config, pre: KbState, up: Upload, post: KbState)
    requires AddSpec(config, pre, up, Unauthorized, post)
    ensures post == pre && up.actor.Some? && "admin" !in up.actor.value.roles && Normalize(up.acl).Some?
    ensures var user, m := up.actor.value, Normalize(up.acl).value;
      || "editor" !in user.roles || m.visibility == "all" || m.department != Lower(Trim(user.department))
      || (up.file in pre.rows.sources &&
            (up.file in pre.rows.metadata ==>
               var stored := pre.rows.metadata[up.file].acl;
               || stored.owner != user.id || Lower(Trim(stored.visibility)) !in {"private", "department"}
               || Lower(Trim(stored.department)) != Lower(Trim(user.department))))
  {
    var m := Normalize(up.acl).value;
    RightsOfOthers(up.actor.value, up.acl, m);
  }

  /** A delete on behalf of a user who is no administrator removes only what is his own. */
  lemma OnlyTheEntitledDelete(config: Config, pre: KbState, source: Source, user: User, outcome: DeleteOutcome, post: KbState)
    requires DeleteSpec(config, pre, source, Some(user), outcome, post) && post.rows != pre.rows
    requires "admin" !in user.roles
    ensures source in pre.rows.sources && "editor" in user.roles
    ensures source in pre.rows.metadata && pre.rows.metadata[source].acl.owner == user.id
    ensures Lower(Trim(pre.rows.metadata[source].acl.visibility)) in {"private", "department"}
  {
  }

  /** And nobody else is forbidden it. */
  lemma OnlyTheUnentitledAreForbidden(config: Config, pre: KbState, source: Source, user: User, post: KbState)
    requires DeleteSpec(config, pre, source, Some(user), Forbidden, post)
    ensures post == pre && source in pre.rows.sources && "admin" !in user.roles
    ensures source in pre.rows.metadata ==>
      var stored := pre.rows.metadata[source].acl;
      || "editor" !in user.roles || stored.owner != user.id || Lower(Trim(stored.visibility)) !in {"private", "department"}
      || Lower(Trim(stored.department)) != Lower(Trim(user.department))
  {
  }

  /** What a user has uploaded in his own name is open to him as soon as governance admits it, with
      the one exception of a department that his record spells with white space. */
  lemma OwnUploadIsOpen(config: Config, pre: KbState, up: Upload, post: KbState, policy: Policy)
    requires Inv(pre) && AddSpec(config, pre, up, Added, post)
    requires up.actor.Some? && "admin" !in up.actor.value.roles
    requires Normalize(up.acl).Some? && Normalize(up.acl).value.owner == up.actor.value.id
    ensures up.file in post.rows.sources && up.file in post.rows.metadata
    ensures Open(config, post.rows, up.file, policy, up.actor) <==>
      && !Shelved(post.rows.metadata[up.file], policy)
      && (Normalize(up.acl).value.visibility == "private" || Trim(up.actor.value.department) == up.actor.value.department)
  {
    assert MayUpload(config, pre.rows, up);
    OwnIsVisible(up.actor.value, up.acl, Normalize(up.acl).value);
  }
}
