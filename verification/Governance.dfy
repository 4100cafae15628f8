/** The document-governance file: what is accepted, and what acceptance guarantees for retrieval. */
module Governance {
  import opened Prelude
  import opened Acl

  datatype Scope = Scope(legalEntities: seq<string>, regions: seq<string>, employeeTypes: seq<string>)

  datatype Control = Control(
    issuingDepartment: string,
    approver: string,
    approvalReference: string,
    noticeReference: string,
    replacementDecision: string,
    conflictPriority: string,
    evidenceRefs: seq<string>,
    scope: Option<Scope>)

  /** One governed source. A missing authority is "unconfirmed", a missing status "active". */
  datatype Entry = Entry(
    family: string,
    version: string,
    effectiveFrom: string,
    authority: string,
    status: string,
    supersedes: seq<string>,
    control: Option<Control>)

  datatype Config = Config(schemaVersion: int, policy: string, documents: map<string, Entry>)

  const AUTHORITY_LEVELS := {"authoritative", "reference", "superseded", "unconfirmed", "draft"}
  const STATUSES := {"active", "archived"}
  const POLICIES := {"unresolved", "authoritative", "all_active"}
  const DECISIONS := {"replaces", "does_not_replace", "scope_distinct"}

  const NO_CONFIG := Config(1, "unresolved", map[])

  // ---- What the validation demands ----

  /** Something is left when white space is stripped. */
  predicate Given(s: string) { !Blank(s) }

  lemma GivenText(s: string)
    ensures Given(s) <==> Trim(s) != ""
    ensures Given(s) ==> Trimmed(Trim(s))
    ensures Trimmed(s) ==> Given(s) && Trim(s) == s
  {
    BlankMeansNothingLeft(s);
    TrimIsIdempotent(s);
  }

  predicate AnyGiven(values: seq<string>) { exists i :: 0 <= i < |values| && Given(values[i]) }

  predicate AllGiven(values: seq<string>) { forall i :: 0 <= i < |values| ==> Given(values[i]) }

  predicate ControlComplete(c: Control) {
    && Given(c.issuingDepartment) && Given(c.approver) && Given(c.approvalReference)
    && Given(c.noticeReference) && Given(c.replacementDecision) && Given(c.conflictPriority)
    && c.replacementDecision in DECISIONS
    && AnyGiven(c.evidenceRefs)
    && c.scope.Some? && AnyGiven(c.scope.value.legalEntities) && AnyGiven(c.scope.value.regions) && AnyGiven(c.scope.value.employeeTypes)
  }

  /** A replaced source exists, belongs to the same family and is out of use. */
  predicate Replaced(documents: map<string, Entry>, family: string, source: string) {
    && source in documents
    && documents[source].family == family
    && documents[source].authority == "superseded" && documents[source].status == "archived"
  }

  predicate ReplacementsSound(e: Entry, documents: map<string, Entry>) {
    forall i :: 0 <= i < |e.supersedes| ==> Given(e.supersedes[i]) && Replaced(documents, e.family, e.supersedes[i])
  }

  /** The release evidence of an authoritative entry. `isDate` recognises ISO dates. */
  predicate Authorised(e: Entry, documents: map<string, Entry>, isDate: string -> bool) {
    && Given(e.version) && Trim(e.version) != "unconfirmed" && isDate(Trim(e.effectiveFrom))
    && e.control.Some? && ControlComplete(e.control.value)
    && (e.control.value.replacementDecision == "replaces" <==> e.supersedes != [])
    && ReplacementsSound(e, documents)
  }

  predicate EntryAccepted(source: string, e: Entry, documents: map<string, Entry>, isDate: string -> bool) {
    && Given(source)
    && e.authority in AUTHORITY_LEVELS && e.status in STATUSES && Given(e.family)
    && (e.authority == "superseded" ==> e.status == "archived")
    && (e.authority == "authoritative" ==> e.status == "active" && Authorised(e, documents, isDate))
  }

  predicate OpenQuestion(e: Entry) { e.status == "active" && (e.authority == "unconfirmed" || e.authority == "reference") }

  ghost predicate SameFamily(documents: map<string, Entry>, s: string, t: string)
    requires s in documents && t in documents
  {
    Trim(documents[s].family) == Trim(documents[t].family)
  }

  predicate IsAuthority(documents: map<string, Entry>, s: string) {
    s in documents && documents[s].authority == "authoritative"
  }

  ghost predicate OneAuthority(documents: map<string, Entry>) {
    forall s, t :: IsAuthority(documents, s) && IsAuthority(documents, t) && s != t ==> !SameFamily(documents, s, t)
  }

  /** A file that the loader accepts. */
  ghost predicate Accepted(c: Config, isDate: string -> bool) {
    && c.schemaVersion == 1 && c.policy in POLICIES
    && AllEntries(c, isDate) && OneAuthority(c.documents)
    && (c.policy == "authoritative" ==> Decided(c.documents))
  }

  ghost predicate AllEntries(c: Config, isDate: string -> bool) {
    forall s :: s in c.documents ==> EntryAccepted(s, c.documents[s], c.documents, isDate)
  }

  predicate Decided(documents: map<string, Entry>) {
    forall s :: s in documents ==> !OpenQuestion(documents[s])
  }

  // ---- The loader ----

  /** The sources come in the order of the file, that is in any order. */
  method LoadGovernance(file: Option<Config>, isDate: string -> bool) returns (loaded: Option<Config>)
    ensures file.None? ==> loaded == Some(NO_CONFIG)
    ensures file.Some? ==> loaded == if Accepted(file.value, isDate) then file else None
  {
    if file.None? { return Some(NO_CONFIG); }
    var c := file.value;
    if c.schemaVersion != 1 || c.policy !in POLICIES { return None; }
    var rest := c.documents.Keys;
    var families: map<string, string> := map[];
    var open := false;
    while rest != {}
      invariant rest <= c.documents.Keys
      invariant Examined(c, isDate, rest, families, open)
      decreases |rest|
    {
      var source := AnyOf(rest);
      var e := c.documents[source];
      if !EntryAccepted(source, e, c.documents, isDate) {
        OneBadEntry(c, isDate, source);
        return None;
      }
      OneMoreFamily(c, rest, families, source);
      OneMoreQuestion(c, rest, open, source);
      if e.authority == "authoritative" {
        var family := Trim(e.family);
        if family in families {
          TwoAuthorities(c, isDate, rest, families, open, source);
          return None;
        }
        families := families[family := source];
      }
      open := open || OpenQuestion(e);
      rest := rest - {source};
    }
    AllExamined(c, isDate, families, open);
    if c.policy == "authoritative" && open { return None; }
    return file;
  }

  /** What is known of the sources not in `rest`. */
  ghost predicate Examined(c: Config, isDate: string -> bool, rest: set<string>, families: map<string, string>, open: bool) {
    EntriesAccepted(c, isDate, rest) && FamiliesTaken(c, rest, families) && OpenSeen(c, rest, open)
  }

  ghost predicate EntriesAccepted(c: Config, isDate: string -> bool, rest: set<string>) {
    forall s :: s in c.documents && s !in rest ==> EntryAccepted(s, c.documents[s], c.documents, isDate)
  }

  ghost predicate OpenSeen(c: Config, rest: set<string>, open: bool) {
    open <==> exists s :: s in c.documents && s !in rest && OpenQuestion(c.documents[s])
  }

  /** `families` maps each family that has an authority among them to that authority. */
  ghost predicate FamiliesTaken(c: Config, rest: set<string>, families: map<string, string>) {
    && (forall s :: IsAuthority(c.documents, s) && s !in rest ==>
          Trim(c.documents[s].family) in families && families[Trim(c.documents[s].family)] == s)
    && (forall f :: f in families ==> IsAuthority(c.documents, families[f]) && families[f] !in rest)
    && (forall f :: f in families ==> families[f] in c.documents && Trim(c.documents[families[f]].family) == f)
  }

  lemma OneMoreFamily(c: Config, rest: set<string>, families: map<string, string>, source: string)
    requires FamiliesTaken(c, rest, families) && source in rest && source in c.documents
    ensures c.documents[source].authority != "authoritative" ==> FamiliesTaken(c, rest - {source}, families)
    ensures IsAuthority(c.documents, source) && Trim(c.documents[source].family) !in families ==>
      FamiliesTaken(c, rest - {source}, families[Trim(c.documents[source].family) := source])
  {
  }

  lemma OneMoreQuestion(c: Config, rest: set<string>, open: bool, source: string)
    requires OpenSeen(c, rest, open) && source in rest && source in c.documents
    ensures OpenSeen(c, rest - {source}, open || OpenQuestion(c.documents[source]))
  {
    if !open && OpenQuestion(c.documents[source]) { assert source !in rest - {source}; }
  }

  lemma OneBadEntry(c: Config, isDate: string -> bool, source: string)
    requires source in c.documents && !EntryAccepted(source, c.documents[source], c.documents, isDate)
    ensures !Accepted(c, isDate)
  {
  }

  lemma TwoAuthorities(c: Config, isDate: string -> bool, rest: set<string>, families: map<string, string>, open: bool, source: string)
    requires Examined(c, isDate, rest, families, open)
    requires source in rest && IsAuthority(c.documents, source)
    requires Trim(c.documents[source].family) in families
    ensures !Accepted(c, isDate)
  {
    var other := families[Trim(c.documents[source].family)];
    assert SameFamily(c.documents, source, other);
    assert !OneAuthority(c.documents);
  }

  lemma AllExamined(c: Config, isDate: string -> bool, families: map<string, string>, open: bool)
    requires Examined(c, isDate, {}, families, open) && c.schemaVersion == 1 && c.policy in POLICIES
    ensures Accepted(c, isDate) <==> !(c.policy == "authoritative" && open)
  {
    assert OneAuthority(c.documents);
  }

  // ---- What acceptance guarantees ----

  function MetadataOf(e: Entry): SourceMetadata {
    SourceMetadata(e.authority, e.status, "", AclMetadata("", "", "", ""))
  }

  predicate Retrievable(c: Config, s: string, policy: Policy) {
    s in c.documents && Allowed(MetadataOf(c.documents[s]), policy)
  }

  lemma OpenOrAuthority(source: string, e: Entry, documents: map<string, Entry>, isDate: string -> bool)
    requires EntryAccepted(source, e, documents, isDate) && !OpenQuestion(e)
    ensures Allowed(MetadataOf(e), AllActive) <==> e.authority == "authoritative"
    ensures Allowed(MetadataOf(e), Authoritative) <==> e.authority == "authoritative"
  {
  }

  lemma RetrievableIsAuthority(c: Config, isDate: string -> bool, s: string)
    requires Accepted(c, isDate) && c.policy == "authoritative"
    ensures Retrievable(c, s, AllActive) <==> IsAuthority(c.documents, s)
    ensures Retrievable(c, s, Authoritative) <==> IsAuthority(c.documents, s)
  {
    if s in c.documents { OpenOrAuthority(s, c.documents[s], c.documents, isDate); }
  }

  /** With the authoritative default, each family has at most one source that can be retrieved
      under either policy, and both policies select the same governed sources. */
  lemma AcceptedMeansOneVoice(c: Config, isDate: string -> bool, s: string, t: string)
    requires Accepted(c, isDate) && c.policy == "authoritative"
    ensures Retrievable(c, s, AllActive) <==> Retrievable(c, s, Authoritative)
    ensures Retrievable(c, s, AllActive) && Retrievable(c, t, AllActive) && SameFamily(c.documents, s, t) ==> s == t
  {
    RetrievableIsAuthority(c, isDate, s);
    RetrievableIsAuthority(c, isDate, t);
    assert OneAuthority(c.documents);
  }

  /** What an accepted file lets an authority replace is out of reach under every policy. */
  lemma ReplacedIsOutOfReach(c: Config, isDate: string -> bool, s: string, replaced: string, policy: Policy)
    requires Accepted(c, isDate) && IsAuthority(c.documents, s) && replaced in c.documents[s].supersedes
    ensures replaced in c.documents && !Retrievable(c, replaced, policy)
    ensures c.documents[replaced].family == c.documents[s].family
  {
    var e := c.documents[s];
    assert EntryAccepted(s, e, c.documents, isDate);
    var i :| 0 <= i < |e.supersedes| && e.supersedes[i] == replaced;
    assert Replaced(c.documents, e.family, e.supersedes[i]);
  }

  /** Under `all_active` an accepted file selects what is active and no draft; nothing superseded is. */
  lemma AllActiveSelects(c: Config, isDate: string -> bool, s: string)
    requires Accepted(c, isDate)
    ensures Retrievable(c, s, AllActive) <==> s in c.documents && c.documents[s].status == "active" && c.documents[s].authority != "draft"
  {
    if s in c.documents { assert EntryAccepted(s, c.documents[s], c.documents, isDate); }
  }

  /** Every authority of an accepted file is dated, versioned, active and approved on evidence. */
  lemma AuthorityIsBacked(c: Config, isDate: string -> bool, s: string)
    requires Accepted(c, isDate) && IsAuthority(c.documents, s)
    ensures var e := c.documents[s];
      && e.status == "active" && isDate(Trim(e.effectiveFrom)) && Trim(e.version) !in {"", "unconfirmed"} && Trim(e.family) != ""
      && e.control.Some? && Trim(e.control.value.approver) != "" && Trim(e.control.value.approvalReference) != ""
      && Trim(e.control.value.issuingDepartment) != "" && Trim(e.control.value.noticeReference) != "" && Trim(e.control.value.conflictPriority) != ""
      && (exists i :: 0 <= i < |e.control.value.evidenceRefs| && !Blank(e.control.value.evidenceRefs[i]))
      && e.control.value.replacementDecision in {"replaces", "does_not_replace", "scope_distinct"}
      && (e.control.value.replacementDecision == "replaces" <==> e.supersedes != [])
  {
    var e := c.documents[s];
    assert EntryAccepted(s, e, c.documents, isDate);
    GivenText(e.version);
    GivenText(e.family);
    GivenText(e.control.value.approver);
    GivenText(e.control.value.approvalReference);
    GivenText(e.control.value.issuingDepartment);
    GivenText(e.control.value.noticeReference);
    GivenText(e.control.value.conflictPriority);
  }

  /** Whatever the default: the policies select the same governed sources exactly when no active
      source is left unconfirmed or a mere reference. */
  lemma PoliciesAgreeIffDecided(c: Config, isDate: string -> bool)
    requires Accepted(c, isDate)
    ensures (forall s :: Retrievable(c, s, AllActive) <==> Retrievable(c, s, Authoritative)) <==> Decided(c.documents)
  {
    if Decided(c.documents) {
      forall s ensures Retrievable(c, s, AllActive) <==> Retrievable(c, s, Authoritative) {
        if s in c.documents { OpenOrAuthority(s, c.documents[s], c.documents, isDate); }
      }
    } else {
      var s :| s in c.documents && OpenQuestion(c.documents[s]);
      assert Retrievable(c, s, AllActive) && !Retrievable(c, s, Authoritative);
    }
  }

  /** Without the authoritative default it need not be so. */
  lemma AllActiveMayDisagree(isDate: string -> bool) returns (c: Config)
    ensures Accepted(c, isDate) && c.policy == "all_active"
    ensures exists s :: Retrievable(c, s, AllActive) && !Retrievable(c, s, Authoritative)
  {
    var e := Entry("f", "", "", "reference", "active", [], None);
    c := Config(1, "all_active", map["s" := e]);
    assert Trimmed("s") && Trimmed("f");
    assert EntryAccepted("s", e, c.documents, isDate);
    assert Retrievable(c, "s", AllActive);
  }
}
