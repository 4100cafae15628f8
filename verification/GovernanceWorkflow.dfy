/** The two-stage approval of a replacement, and the candidate configuration built from it. */
module GovernanceWorkflow {
  import opened Prelude
  import opened Governance

  datatype Stage = PendingHr | PendingLegal | Approved

  datatype Approval = Approval(role: string, actor: string, evidence: seq<string>)

  /** What an application asks for; it never changes once filed. */
  datatype Filing = Filing(
    id: string,
    family: string,
    target: string,
    superseded: seq<string>,
    version: string,
    effectiveFrom: string,
    scope: Scope,
    priority: string)

  function TrimAll(values: seq<string>): (r: seq<string>)
    ensures |r| == |values|
  {
    seq(|values|, i requires 0 <= i < |values| => Trim(values[i]))
  }

  predicate ScopeGiven(s: Scope) { AnyGiven(s.legalEntities) && AnyGiven(s.regions) && AnyGiven(s.employeeTypes) }

  /** Validation of a new application; the names are compared before they are trimmed. */
  function File(raw: Filing): Option<Filing> {
    if raw.superseded == [] || raw.target in raw.superseded || !ScopeGiven(raw.scope) then None
    else if !Given(raw.id) || !Given(raw.family) || !Given(raw.target) || !AllGiven(raw.superseded) then None
    else if !Given(raw.version) || !Given(raw.effectiveFrom) || !Given(raw.priority) then None
    else Some(Filing(Trim(raw.id), Trim(raw.family), Trim(raw.target), TrimAll(raw.superseded), Trim(raw.version),
                     Trim(raw.effectiveFrom), raw.scope, Trim(raw.priority)))
  }

  /** Every text of a filed application is given and trimmed. */
  predicate Filed(f: Filing) {
    && Trimmed(f.id) && Trimmed(f.family) && Trimmed(f.target) && Trimmed(f.version)
    && Trimmed(f.effectiveFrom) && Trimmed(f.priority)
    && f.superseded != [] && (forall i :: 0 <= i < |f.superseded| ==> Trimmed(f.superseded[i]))
    && ScopeGiven(f.scope)
  }

  /** Filing fails for these reasons and no others: a text of nothing but white space, no replaced
      source or the target itself among them, or a scope with an empty side. */
  lemma FilingFailsOnlyFor(raw: Filing)
    ensures File(raw).None? <==>
      || Trim(raw.id) == "" || Trim(raw.family) == "" || Trim(raw.target) == "" || Trim(raw.version) == ""
      || Trim(raw.effectiveFrom) == "" || Trim(raw.priority) == ""
      || raw.superseded == [] || raw.target in raw.superseded
      || (exists i :: 0 <= i < |raw.superseded| && Trim(raw.superseded[i]) == "")
      || OneSideMissing(raw.scope)
  {
    GivenText(raw.id);
    GivenText(raw.family);
    GivenText(raw.target);
    GivenText(raw.version);
    GivenText(raw.effectiveFrom);
    GivenText(raw.priority);
    forall i | 0 <= i < |raw.superseded| { GivenText(raw.superseded[i]); }
  }

  /** Nobody, nowhere, or no kind of employee. */
  predicate OneSideMissing(s: Scope) { AllBlank(s.legalEntities) || AllBlank(s.regions) || AllBlank(s.employeeTypes) }

  predicate AllBlank(values: seq<string>) { forall i :: 0 <= i < |values| ==> Blank(values[i]) }

  lemma FilingIsFiled(raw: Filing)
    requires File(raw).Some?
    ensures Filed(File(raw).value)
  {
    GivenText(raw.id);
    GivenText(raw.family);
    GivenText(raw.target);
    GivenText(raw.version);
    GivenText(raw.effectiveFrom);
    GivenText(raw.priority);
    forall i | 0 <= i < |raw.superseded| ensures Trimmed(Trim(raw.superseded[i])) {
      assert Given(raw.superseded[i]);
      GivenText(raw.superseded[i]);
    }
  }

  /** The filed target is one of the sources it is to replace. */
  predicate ReplacesItself(f: Filing) { f.target in f.superseded }

  /** Two names that the comparison takes for different ones and that are the same once trimmed. */
  predicate Lookalikes(s: string, t: string) { s != t && Trim(s) == Trim(t) }

  /** A source is filed as its own replacement exactly when one of the replaced names looks like
      the target's: the comparison does not trim. */
  lemma ReplacesItselfIff(raw: Filing)
    requires File(raw).Some?
    ensures ReplacesItself(File(raw).value) <==>
      exists i :: 0 <= i < |raw.superseded| && Lookalikes(raw.superseded[i], raw.target)
  {
    var filed := File(raw).value;
    if ReplacesItself(filed) {
      var i :| 0 <= i < |filed.superseded| && filed.superseded[i] == filed.target;
      assert raw.superseded[i] in raw.superseded;
      assert Lookalikes(raw.superseded[i], raw.target);
    }
    if i :| 0 <= i < |raw.superseded| && Lookalikes(raw.superseded[i], raw.target) {
      assert filed.superseded[i] == filed.target;
    }
  }

  /** Names without white space around them are safe. */
  lemma TrimmedNamesAreSafe(raw: Filing)
    requires File(raw).Some? && Trimmed(raw.target) && forall i :: 0 <= i < |raw.superseded| ==> Trimmed(raw.superseded[i])
    ensures !ReplacesItself(File(raw).value)
  {
    ReplacesItselfIff(raw);
    GivenText(raw.target);
    forall i | 0 <= i < |raw.superseded| ensures !Lookalikes(raw.superseded[i], raw.target) {
      GivenText(raw.superseded[i]);
    }
  }

  /** Such an application exists for every name. */
  lemma OwnReplacementCanBeFiled(f: Filing, name: string)
    requires Filed(f) && Trimmed(name)
    ensures var raw := f.(target := [' '] + name, superseded := [name]);
      File(raw).Some? && ReplacesItself(File(raw).value)
  {
    var spaced := [' '] + name;
    assert spaced[1..] == name && TrimLeft(spaced) == TrimLeft(name) == name;
    var raw := f.(target := spaced, superseded := [name]);
    assert !IsSpace(spaced[1]);
    GivenText(name);
    assert Given(f.id) && Given(f.family) && Given(f.version) && Given(f.effectiveFrom) && Given(f.priority);
    assert File(raw).value.superseded[0] == name;
  }

  // ---- Approval ----

  /** One call of `approve`. */
  datatype Call = Call(role: string, actor: string, evidence: seq<string>)

  datatype Progress = Progress(stage: Stage, approvals: seq<Approval>)

  function ApprovalOf(c: Call): Approval { Approval(Lower(Trim(c.role)), Trim(c.actor), TrimAll(c.evidence)) }

  predicate ExpectedRole(stage: Stage, role: string) {
    (stage == PendingHr && role == "hr") || (stage == PendingLegal && role == "legal")
  }

  predicate Acceptable(p: Progress, c: Call) {
    var a := ApprovalOf(c);
    && Given(c.role) && Given(c.actor) && AllGiven(c.evidence) && c.evidence != []
    && ExpectedRole(p.stage, a.role)
    && (forall i :: 0 <= i < |p.approvals| ==> p.approvals[i].actor != a.actor)
  }

  function ApproveStep(p: Progress, c: Call): Progress {
    if !Acceptable(p, c) then p
    else
      var a := ApprovalOf(c);
      Progress(if a.role == "hr" then PendingLegal else Approved, p.approvals + [a])
  }

  predicate Sound(a: Approval) {
    Trimmed(a.actor) && a.evidence != [] && forall i :: 0 <= i < |a.evidence| ==> Trimmed(a.evidence[i])
  }

  /** Nothing yet; HR alone; or HR and then Legal, by different people. */
  predicate Shaped(p: Progress) {
    && (forall i :: 0 <= i < |p.approvals| ==> Sound(p.approvals[i]))
    && match p.stage
       case PendingHr => p.approvals == []
       case PendingLegal => |p.approvals| == 1 && p.approvals[0].role == "hr"
       case Approved => |p.approvals| == 2 && p.approvals[0].role == "hr" && p.approvals[1].role == "legal" &&
                        p.approvals[0].actor != p.approvals[1].actor
  }

  lemma StepKeepsShape(p: Progress, c: Call)
    requires Shaped(p)
    ensures Shaped(ApproveStep(p, c))
  {
    if Acceptable(p, c) {
      GivenText(c.actor);
      forall i | 0 <= i < |c.evidence| ensures Trimmed(Trim(c.evidence[i])) {
        assert Given(c.evidence[i]);
        GivenText(c.evidence[i]);
      }
      assert Sound(ApprovalOf(c));
    }
  }

  function AfterCalls(calls: seq<Call>): Progress
    decreases |calls|
  {
    if calls == [] then Progress(PendingHr, []) else ApproveStep(AfterCalls(calls[..|calls| - 1]), calls[|calls| - 1])
  }

  /** Whatever is called in whatever order, an application is in one of the three shapes. */
  lemma {:induction false} EveryRunIsShaped(calls: seq<Call>)
    ensures Shaped(AfterCalls(calls))
    decreases |calls|
  {
    if calls != [] {
      EveryRunIsShaped(calls[..|calls| - 1]);
      StepKeepsShape(AfterCalls(calls[..|calls| - 1]), calls[|calls| - 1]);
    }
  }

  class Application {
    const filing: Filing
    var stage: Stage
    var approvals: seq<Approval>

    function State(): Progress
      reads this
    {
      Progress(stage, approvals)
    }

    ghost predicate Valid()
      reads this
    {
      Filed(filing) && Shaped(State())
    }

    constructor (filing: Filing)
      requires Filed(filing)
      ensures Valid() && this.filing == filing && State() == AfterCalls([])
    {
      this.filing, stage, approvals := filing, PendingHr, [];
    }

    static method Create(raw: Filing) returns (app: Application?)
      ensures app == null <==> File(raw) == None
      ensures app != null ==> fresh(app) && app.Valid() && app.filing == File(raw).value && app.State() == AfterCalls([])
    {
      var filing := File(raw);
      if filing.None? { return null; }
      FilingIsFiled(raw);
      app := new Application(filing.value);
    }

    method Approve(role: string, actor: string, evidence: seq<string>) returns (ok: bool)
      requires Valid()
      modifies this
      ensures Valid()
      ensures ok <==> Acceptable(old(State()), Call(role, actor, evidence))
      ensures State() == ApproveStep(old(State()), Call(role, actor, evidence))
    {
      ghost var call := Call(role, actor, evidence);
      StepKeepsShape(State(), call);
      GivenText(actor);
      var r, a, refs := Lower(Trim(role)), Trim(actor), TrimAll(evidence);
      if !Given(role) || a == "" || !AllGiven(evidence) || refs == [] { return false; }
      if !ExpectedRole(stage, r) { return false; }
      if exists i :: 0 <= i < |approvals| && approvals[i].actor == a { return false; }
      approvals := approvals + [Approval(r, a, refs)];
      stage := if r == "hr" then PendingLegal else Approved;
      ok := true;
    }
  }

  // ---- The event chain written for an application ----

  /** SHA-256 over the previous hash and the canonical event, taken as injective and never all zeros. */
  datatype Hash = Zeros | Sha256(previous: Hash, sequence: nat, approval: Approval)

  datatype ChainEvent = ChainEvent(sequence: nat, approval: Approval, previous: Hash, hash: Hash)

  function FinalHash(approvals: seq<Approval>): Hash
    decreases |approvals|
  {
    if approvals == [] then Zeros
    else Sha256(FinalHash(approvals[..|approvals| - 1]), |approvals|, approvals[|approvals| - 1])
  }

  method ApprovalEvents(approvals: seq<Approval>) returns (lines: seq<ChainEvent>)
    ensures |lines| == |approvals|
    ensures forall i :: 0 <= i < |lines| ==>
      lines[i] == ChainEvent(i + 1, approvals[i], FinalHash(approvals[..i]), FinalHash(approvals[..i + 1]))
  {
    var previous := Zeros;
    lines := [];
    for i := 0 to |approvals|
      invariant |lines| == i && previous == FinalHash(approvals[..i])
      invariant forall j :: 0 <= j < i ==>
        lines[j] == ChainEvent(j + 1, approvals[j], FinalHash(approvals[..j]), FinalHash(approvals[..j + 1]))
    {
      assert approvals[..i + 1][..i] == approvals[..i];
      var hash := Sha256(previous, i + 1, approvals[i]);
      lines := lines + [ChainEvent(i + 1, approvals[i], previous, hash)];
      previous := hash;
    }
  }

  /** The last hash pins the whole chain: no approval can be changed, dropped or reordered behind it. */
  lemma {:induction false} LastHashPinsApprovals(a: seq<Approval>, b: seq<Approval>)
    requires FinalHash(a) == FinalHash(b)
    ensures a == b
    decreases |a|
  {
    if a != [] && b != [] {
      LastHashPinsApprovals(a[..|a| - 1], b[..|b| - 1]);
      assert a == a[..|a| - 1] + [a[|a| - 1]] && b == b[..|b| - 1] + [b[|b| - 1]];
    }
  }
}
