/** The candidate configuration of an approved application: exactly when the loader accepts it. */
module GovernanceCandidate {
  import opened Prelude
  import opened Acl
  import opened Governance
  import opened GovernanceWorkflow

  function Actors(approvals: seq<Approval>): string {
    if approvals == [] then ""
    else if |approvals| == 1 then approvals[0].actor
    else approvals[0].actor + ", " + Actors(approvals[1..])
  }

  function Evidence(approvals: seq<Approval>): seq<string> {
    if approvals == [] then [] else approvals[0].evidence + Evidence(approvals[1..])
  }

  /** The new authority of the family. */
  function Promoted(e: Entry, f: Filing, approvals: seq<Approval>): Entry {
    e.(family := f.family, version := f.version, effectiveFrom := f.effectiveFrom,
       authority := "authoritative", status := "active", supersedes := Distinct(f.superseded),
       control := Some(Control("SIMULATION-HR", Actors(approvals), "SIM-" + f.id + "-APPROVAL", "SIM-" + f.id + "-NOTICE",
                               "replaces", f.priority, Evidence(approvals), Some(f.scope))))
  }

  function Retired(e: Entry): Entry { e.(authority := "superseded", status := "archived") }

  /** What becomes of one source. */
  function Revised(base: Config, f: Filing, approvals: seq<Approval>, s: string): Entry
    requires s in base.documents
  {
    var e := if s == f.target then Promoted(base.documents[s], f, approvals) else base.documents[s];
    if s in f.superseded then Retired(e) else e
  }

  predicate Roles(approvals: seq<Approval>) {
    && (forall i :: 0 <= i < |approvals| ==> approvals[i].role == "hr" || approvals[i].role == "legal")
    && (exists i :: 0 <= i < |approvals| && approvals[i].role == "hr")
    && (exists i :: 0 <= i < |approvals| && approvals[i].role == "legal")
  }

  /** Approvals of HR and of Legal, and of nobody else. */
  lemma RolesAreHrAndLegal(approvals: seq<Approval>)
    ensures Roles(approvals) <==> (set a | a in approvals :: a.role) == {"hr", "legal"}
  {
    var roles := set a | a in approvals :: a.role;
    assert forall i :: 0 <= i < |approvals| ==> approvals[i].role in roles;
    if roles == {"hr", "legal"} {
      assert "hr" in roles && "legal" in roles;
    }
  }

  predicate Buildable(base: Config, f: Filing, p: Progress) {
    && p.stage == Approved && Roles(p.approvals)
    && f.target in base.documents && forall i :: 0 <= i < |f.superseded| ==> f.superseded[i] in base.documents
  }

  function Candidate(base: Config, f: Filing, approvals: seq<Approval>): Config {
    Config(base.schemaVersion, "authoritative", map s | s in base.documents :: Revised(base, f, approvals, s))
  }

  /** The base is copied, the target promoted, then the replaced sources retired one by one. */
  method BuildCandidateConfig(base: Config, f: Filing, p: Progress) returns (r: Option<Config>)
    ensures r == if Buildable(base, f, p) then Some(Candidate(base, f, p.approvals)) else None
  {
    if p.stage != Approved || !Roles(p.approvals) { return None; }
    if f.target !in base.documents { return None; }
    if exists i :: 0 <= i < |f.superseded| && f.superseded[i] !in base.documents { return None; }
    var documents := base.documents[f.target := Promoted(base.documents[f.target], f, p.approvals)];
    ghost var promoted := documents;
    for i := 0 to |f.superseded|
      invariant documents.Keys == base.documents.Keys
      invariant forall s :: s in documents ==> documents[s] == if s in f.superseded[..i] then Retired(promoted[s]) else promoted[s]
    {
      var source := f.superseded[i];
      assert f.superseded[..i + 1] == f.superseded[..i] + [source];
      documents := documents[source := Retired(documents[source])];
    }
    assert f.superseded[..|f.superseded|] == f.superseded;
    assert documents == Candidate(base, f, p.approvals).documents;
    r := Some(Config(base.schemaVersion, "authoritative", documents));
  }

  /** The new authority names both approvers and carries the evidence of both. */
  lemma CandidateNamesBoth(base: Config, f: Filing, hr: Approval, legal: Approval)
    requires f.target in base.documents && f.target !in f.superseded
    ensures var e := Candidate(base, f, [hr, legal]).documents[f.target];
      && e.authority == "authoritative" && e.status == "active" && e.family == f.family && e.version == f.version && e.effectiveFrom == f.effectiveFrom
      && e.control.Some? && e.control.value.approver == hr.actor + ", " + legal.actor
      && e.control.value.evidenceRefs == hr.evidence + legal.evidence && e.control.value.scope == Some(f.scope)
      && e.control.value.conflictPriority == f.priority && e.control.value.replacementDecision == "replaces"
      && forall s :: s in e.supersedes <==> s in f.superseded
  {
    DistinctKeepsAll(f.superseded);
    assert [hr, legal][1..] == [legal] && [legal][1..] == [];
    assert Actors([hr, legal]) == hr.actor + ", " + Actors([legal]);
    assert Evidence([legal]) == legal.evidence;
    assert Evidence([hr, legal]) == hr.evidence + legal.evidence;
  }

  // ---- When the loader accepts it ----

  /** Sources the application does not touch. */
  predicate Bystander(base: Config, f: Filing, s: string) {
    s in base.documents && s != f.target && s !in f.superseded
  }

  /** The application itself is fit: a real version and date, and one family. */
  predicate Fit(base: Config, f: Filing, isDate: string -> bool) {
    && f.version != "unconfirmed" && isDate(f.effectiveFrom)
    && (forall i :: 0 <= i < |f.superseded| ==> f.superseded[i] in base.documents && base.documents[f.superseded[i]].family == f.family)
  }

  /** No other authority claims to replace the target. */
  predicate Yields(base: Config, f: Filing, s: string) {
    IsAuthority(base.documents, s) ==> f.target !in base.documents[s].supersedes
  }

  /** No other authority is of the application's family. */
  ghost predicate FamilyFree(base: Config, f: Filing) {
    forall s :: Bystander(base, f, s) && IsAuthority(base.documents, s) ==> Trim(base.documents[s].family) != f.family
  }

  /** Another authority that claims to replace the target is of the application's family. */
  predicate ClaimsInFamily(base: Config, f: Filing, s: string) {
    IsAuthority(base.documents, s) && f.target in base.documents[s].supersedes ==> base.documents[s].family == f.family
  }

  predicate Undecided(base: Config, f: Filing, s: string) { Bystander(base, f, s) && OpenQuestion(base.documents[s]) }

  /** What the others have to allow for. */
  predicate Agrees(base: Config, f: Filing, s: string) {
    if ReplacesItself(f) then ClaimsInFamily(base, f, s) else Yields(base, f, s)
  }

  /** A caller can check all of this on the base configuration. */
  ghost predicate Releasable(base: Config, f: Filing, isDate: string -> bool) {
    && (!ReplacesItself(f) ==> Fit(base, f, isDate) && FamilyFree(base, f))
    && (forall s :: Bystander(base, f, s) ==> Agrees(base, f, s))
    && (forall s :: !Undecided(base, f, s))
  }

  /** What the approval has settled. */
  ghost predicate Settled(base: Config, f: Filing, p: Progress, isDate: string -> bool) {
    Accepted(base, isDate) && Filed(f) && Shaped(p) && Buildable(base, f, p)
  }

  // ---- The target ----

  lemma SolidText(s: string, i: nat)
    requires i < |s| && !IsSpace(s[i])
    ensures Given(s)
  {
  }

  lemma ActorsAreGiven(approvals: seq<Approval>)
    requires approvals != [] && Trimmed(approvals[0].actor)
    ensures Given(Actors(approvals))
  {
    assert Actors(approvals)[0] == approvals[0].actor[0];
  }

  lemma EvidenceIsGiven(approvals: seq<Approval>)
    requires approvals != [] && Sound(approvals[0])
    ensures AnyGiven(Evidence(approvals))
  {
    assert Evidence(approvals)[0] == approvals[0].evidence[0];
    SolidText(Evidence(approvals)[0], 0);
  }

  lemma ControlIsComplete(e: Entry, f: Filing, approvals: seq<Approval>)
    requires Filed(f) && approvals != [] && Sound(approvals[0])
    ensures ControlComplete(Promoted(e, f, approvals).control.value)
  {
    ActorsAreGiven(approvals);
    EvidenceIsGiven(approvals);
    SolidText("SIMULATION-HR", 0);
    SolidText("SIM-" + f.id + "-APPROVAL", 0);
    SolidText("SIM-" + f.id + "-NOTICE", 0);
    SolidText("replaces", 0);
    SolidText(f.priority, 0);
  }

  /** The list of replaced sources, each once, is what the family condition speaks about. */
  lemma ReplacedListed(documents: map<string, Entry>, family: string, names: seq<string>)
    requires names != [] && forall i :: 0 <= i < |names| ==> Given(names[i])
    ensures Distinct(names) != []
    ensures (forall i :: 0 <= i < |Distinct(names)| ==> Given(Distinct(names)[i]) && Replaced(documents, family, Distinct(names)[i])) <==>
            (forall i :: 0 <= i < |names| ==> Replaced(documents, family, names[i]))
  {
    var listed := Distinct(names);
    DistinctKeepsAll(names);
    assert names[0] in listed;
    if forall i :: 0 <= i < |names| ==> Replaced(documents, family, names[i]) {
      forall i | 0 <= i < |listed| ensures Given(listed[i]) && Replaced(documents, family, listed[i]) {
        assert listed[i] in names;
      }
    }
    if forall i :: 0 <= i < |listed| ==> Given(listed[i]) && Replaced(documents, family, listed[i]) {
      forall i | 0 <= i < |names| ensures Replaced(documents, family, names[i]) {
        assert names[i] in listed;
      }
    }
  }

  lemma RetiredIsReplaced(base: Config, f: Filing, approvals: seq<Approval>, s: string)
    requires s in f.superseded && s != f.target && s in base.documents
    ensures Replaced(Candidate(base, f, approvals).documents, f.family, s) <==> base.documents[s].family == f.family
  {
    assert Candidate(base, f, approvals).documents[s] == Retired(base.documents[s]);
  }

  lemma TargetReplacements(base: Config, f: Filing, approvals: seq<Approval>)
    requires Filed(f) && f.target in base.documents && f.target !in f.superseded
    requires forall i :: 0 <= i < |f.superseded| ==> f.superseded[i] in base.documents
    ensures var e := Promoted(base.documents[f.target], f, approvals);
      && e.supersedes != []
      && (ReplacementsSound(e, Candidate(base, f, approvals).documents) <==>
          forall i :: 0 <= i < |f.superseded| ==> base.documents[f.superseded[i]].family == f.family)
  {
    forall i | 0 <= i < |f.superseded|
      ensures Given(f.superseded[i])
      ensures Replaced(Candidate(base, f, approvals).documents, f.family, f.superseded[i]) <==> base.documents[f.superseded[i]].family == f.family
    {
      SolidText(f.superseded[i], 0);
      RetiredIsReplaced(base, f, approvals, f.superseded[i]);
    }
    ReplacedListed(Candidate(base, f, approvals).documents, f.family, f.superseded);
  }

  lemma TargetAccepted(base: Config, f: Filing, approvals: seq<Approval>, isDate: string -> bool, documents: map<string, Entry>)
    requires Filed(f) && f.target in base.documents && f.target !in f.superseded && documents == Candidate(base, f, approvals).documents
    requires forall i :: 0 <= i < |f.superseded| ==> f.superseded[i] in base.documents
    requires approvals != [] && Sound(approvals[0])
    ensures f.target in documents && documents[f.target] == Promoted(base.documents[f.target], f, approvals)
    ensures EntryAccepted(f.target, documents[f.target], documents, isDate) <==> Fit(base, f, isDate)
  {
    ControlIsComplete(base.documents[f.target], f, approvals);
    TargetReplacements(base, f, approvals);
    GivenText(f.version);
    GivenText(f.effectiveFrom);
    SolidText(f.family, 0);
    SolidText(f.target, 0);
  }

  // ---- The others ----

  lemma RetiredAccepted(base: Config, f: Filing, approvals: seq<Approval>, isDate: string -> bool, documents: map<string, Entry>, s: string)
    requires s in base.documents && s in f.superseded && Filed(f) && documents == Candidate(base, f, approvals).documents
    requires EntryAccepted(s, base.documents[s], base.documents, isDate)
    ensures s in documents && EntryAccepted(s, documents[s], documents, isDate)
  {
    GivenText(f.family);
  }

  lemma BystanderReplacements(base: Config, f: Filing, approvals: seq<Approval>, s: string)
    requires Bystander(base, f, s) && f.target in base.documents && IsAuthority(base.documents, s)
    requires ReplacementsSound(base.documents[s], base.documents)
    ensures ReplacementsSound(base.documents[s], Candidate(base, f, approvals).documents) <==> Agrees(base, f, s)
  {
    var documents, e := Candidate(base, f, approvals).documents, base.documents[s];
    assert documents[f.target].family == f.family;
    assert documents[f.target].authority == if ReplacesItself(f) then "superseded" else "authoritative";
    forall i | 0 <= i < |e.supersedes|
      ensures Replaced(documents, e.family, e.supersedes[i]) <==>
        (e.supersedes[i] == f.target ==> ReplacesItself(f) && e.family == f.family)
    {
      var x := e.supersedes[i];
      assert Replaced(base.documents, e.family, x);
      assert x != f.target ==> documents[x] == base.documents[x] || documents[x] == Retired(base.documents[x]);
    }
    if f.target in e.supersedes {
      var i :| 0 <= i < |e.supersedes| && e.supersedes[i] == f.target;
      assert Given(e.supersedes[i]);
    }
  }

  lemma BystanderAccepted(base: Config, f: Filing, approvals: seq<Approval>, isDate: string -> bool, documents: map<string, Entry>, s: string)
    requires Bystander(base, f, s) && f.target in base.documents && documents == Candidate(base, f, approvals).documents
    requires EntryAccepted(s, base.documents[s], base.documents, isDate)
    ensures s in documents && documents[s] == base.documents[s]
    ensures EntryAccepted(s, documents[s], documents, isDate) <==> Agrees(base, f, s)
  {
    if IsAuthority(base.documents, s) { BystanderReplacements(base, f, approvals, s); }
  }

  /** Whether one source of the candidate passes. */
  predicate SourcePasses(base: Config, f: Filing, isDate: string -> bool, s: string) {
    (s == f.target && !ReplacesItself(f) ==> Fit(base, f, isDate)) && (Bystander(base, f, s) ==> Agrees(base, f, s))
  }

  lemma SourceAccepted(base: Config, f: Filing, p: Progress, isDate: string -> bool, documents: map<string, Entry>, s: string)
    requires Settled(base, f, p, isDate) && s in base.documents && documents == Candidate(base, f, p.approvals).documents
    ensures s in documents && (EntryAccepted(s, documents[s], documents, isDate) <==> SourcePasses(base, f, isDate, s))
  {
    assert Sound(p.approvals[0]);
    if s in f.superseded {
      RetiredAccepted(base, f, p.approvals, isDate, documents, s);
    } else if s == f.target {
      TargetAccepted(base, f, p.approvals, isDate, documents);
    } else {
      BystanderAccepted(base, f, p.approvals, isDate, documents, s);
    }
  }

  ghost predicate AllPass(base: Config, f: Filing, isDate: string -> bool) {
    forall s :: s in base.documents ==> SourcePasses(base, f, isDate, s)
  }

  lemma EntriesAcceptedIff(base: Config, f: Filing, p: Progress, isDate: string -> bool, c: Config)
    requires Settled(base, f, p, isDate) && c == Candidate(base, f, p.approvals)
    ensures AllEntries(c, isDate) <==> AllPass(base, f, isDate)
  {
    if AllEntries(c, isDate) {
      forall s | s in base.documents ensures SourcePasses(base, f, isDate, s) {
        SourceAccepted(base, f, p, isDate, c.documents, s);
        assert EntryAccepted(s, c.documents[s], c.documents, isDate);
      }
    } else {
      var s :| s in c.documents && !EntryAccepted(s, c.documents[s], c.documents, isDate);
      SourceAccepted(base, f, p, isDate, c.documents, s);
      assert !SourcePasses(base, f, isDate, s);
    }
  }

  lemma DecidedIff(base: Config, f: Filing, approvals: seq<Approval>)
    requires f.target in base.documents
    ensures Decided(Candidate(base, f, approvals).documents) <==> forall s :: !Undecided(base, f, s)
  {
    var documents := Candidate(base, f, approvals).documents;
    forall s | s in base.documents ensures OpenQuestion(documents[s]) <==> Undecided(base, f, s) {
    }
    assert forall s :: Undecided(base, f, s) ==> s in documents && OpenQuestion(documents[s]);
  }

  lemma AuthorityOf(base: Config, f: Filing, approvals: seq<Approval>, s: string)
    requires f.target in base.documents
    ensures var documents := Candidate(base, f, approvals).documents;
      && (IsAuthority(documents, s) <==>
          (s == f.target && !ReplacesItself(f)) || (Bystander(base, f, s) && IsAuthority(base.documents, s)))
      && (Bystander(base, f, s) ==> s in documents && documents[s] == base.documents[s])
  {
  }

  lemma OneAuthorityIff(base: Config, f: Filing, approvals: seq<Approval>, documents: map<string, Entry>)
    requires OneAuthority(base.documents) && Trim(f.family) == f.family
    requires f.target in base.documents && documents == Candidate(base, f, approvals).documents
    ensures OneAuthority(documents) <==> ReplacesItself(f) || FamilyFree(base, f)
  {
    forall s { AuthorityOf(base, f, approvals, s); }
    assert documents[f.target].family == f.family;
    if s :| !ReplacesItself(f) && Bystander(base, f, s) && IsAuthority(base.documents, s) && Trim(base.documents[s].family) == f.family {
      assert IsAuthority(documents, s) && SameFamily(documents, s, f.target);
    } else {
      forall s, t | IsAuthority(documents, s) && IsAuthority(documents, t) && s != t ensures !SameFamily(documents, s, t) {
        assert SameFamily(base.documents, s, t) ==> s == f.target || t == f.target;
      }
    }
  }

  /** The loader accepts the candidate of an approved application exactly when it is releasable. */
  lemma CandidateIsAcceptedIff(base: Config, f: Filing, p: Progress, isDate: string -> bool)
    requires Settled(base, f, p, isDate)
    ensures Accepted(Candidate(base, f, p.approvals), isDate) <==> Releasable(base, f, isDate)
  {
    var c := Candidate(base, f, p.approvals);
    EntriesAcceptedIff(base, f, p, isDate, c);
    DecidedIff(base, f, p.approvals);
    GivenText(f.family);
    OneAuthorityIff(base, f, p.approvals, c.documents);
    assert SourcePasses(base, f, isDate, f.target) <==> (!ReplacesItself(f) ==> Fit(base, f, isDate));
  }

  /** An application that replaces its own target retires it: whatever the fitness of the
      application, the candidate has no authority but the ones the base had besides. */
  lemma ReplacingItselfPromotesNothing(base: Config, f: Filing, p: Progress, isDate: string -> bool, s: string)
    requires Settled(base, f, p, isDate) && ReplacesItself(f)
    ensures var c := Candidate(base, f, p.approvals);
      && (IsAuthority(c.documents, s) <==> Bystander(base, f, s) && IsAuthority(base.documents, s))
      && (s in f.superseded ==> !Retrievable(c, s, Authoritative) && !Retrievable(c, s, AllActive))
  {
    AuthorityOf(base, f, p.approvals, s);
  }

  /** In particular: when target and replaced sources are all of the application's family, it is
      enough that no other source is its authority and none is left undecided. */
  lemma FamilyReplacementIsAccepted(base: Config, f: Filing, p: Progress, isDate: string -> bool)
    requires Settled(base, f, p, isDate)
    requires Fit(base, f, isDate) && base.documents[f.target].family == f.family
    requires FamilyFree(base, f) && forall s :: !Undecided(base, f, s)
    ensures Accepted(Candidate(base, f, p.approvals), isDate)
  {
    GivenText(f.family);
    forall s | Bystander(base, f, s) ensures Agrees(base, f, s) {
      if IsAuthority(base.documents, s) { AuthorityYields(base, f, isDate, s); }
    }
    CandidateIsAcceptedIff(base, f, p, isDate);
  }

  lemma AuthorityYields(base: Config, f: Filing, isDate: string -> bool, s: string)
    requires IsAuthority(base.documents, s) && EntryAccepted(s, base.documents[s], base.documents, isDate)
    requires f.target in base.documents && Trim(base.documents[s].family) != Trim(base.documents[f.target].family)
    ensures f.target !in base.documents[s].supersedes
  {
    var e := base.documents[s];
    forall i | 0 <= i < |e.supersedes| ensures e.supersedes[i] != f.target {
      assert Replaced(base.documents, e.family, e.supersedes[i]);
    }
  }
}
