/** The checks between a model's decision and its execution. */
module ValidationPipeline {
  import opened Text
  import opened EvidenceSet

  datatype Capability = RespondWithoutAction | Ask | Handoff | FullCatalog | RecordLead | CreateDraft | UpdateDraft | Unregistered

  /** The registry entry of a capability. */
  datatype Definition = Definition(terminal: bool, sends: bool, human: bool, sales: bool, state: string)

  function DefinitionOf(c: Capability): Option<Definition> {
    match c
    case RespondWithoutAction => Some(Definition(true, true, false, false, "waiting_customer"))
    case Ask => Some(Definition(true, true, false, false, "waiting_customer"))
    case Handoff => Some(Definition(true, true, true, false, "waiting_human"))
    case FullCatalog => Some(Definition(false, false, false, false, ""))
    case RecordLead => Some(Definition(true, false, false, true, ""))
    case CreateDraft => Some(Definition(true, false, false, true, ""))
    case UpdateDraft => Some(Definition(true, false, false, true, ""))
    case Unregistered => None
  }

  datatype Sales = Sales(evidence: seq<string>, workflowId: string, expectedVersion: int)
  datatype Decision = Decision(capability: Capability, text: string, selected: seq<Selection>, sales: Option<Sales>)

  datatype Workflow = Workflow(id: string, version: int)
  datatype SalesContext = SalesContext(enabled: bool, allowInteractions: bool, active: seq<Workflow>)

  /** What was shown to the model: `customerRefs` are the recent messages of the customer. */
  datatype Context = Context(sales: Option<SalesContext>, customerRefs: set<string>)

  datatype Input = Input(decision: Decision, context: Option<Context>, sourceRef: string, evidence: Evidence)

  /** A policy answer; Unsupported is anything outside the closed set. */
  datatype Verdict = Allowed | RequiresApproval | Denied | Unsupported

  datatype Effective = Effective(capability: Capability, verdict: Verdict, authorizedAt: Option<int>)

  /** The validators, None where one is not wired. */
  datatype Pipeline = Pipeline(
    salesOk: Decision -> bool,
    references: Option<(Selection, Evidence) -> bool>,
    tenant: Option<Selection -> bool>,
    policy: Option<Decision -> Verdict>,
    authorization: Option<(Input, Effective) -> Option<Effective>>)

  datatype Stage = Structure | References | Tenant | Policy | Authorization
  datatype Checked = Passed(effective: Effective) | Stopped(stage: Stage)

  // ---------------------------------------------------------------- what the stages demand

  ghost predicate StructureOk(p: Pipeline, d: Decision) {
    && DefinitionOf(d.capability).Some?
    && var def := DefinitionOf(d.capability).value;
    && def.terminal
    && (if def.sales then p.salesOk(d) else d.sales.None?)
    && (def.sends ==> Trim(d.text) != "")
    && forall i :: 0 <= i < |d.selected| ==> Trim(d.selected[i].itemId) != ""
  }

  predicate SalesWired(input: Input) {
    && input.context.Some? && input.context.value.sales.Some?
    && input.context.value.sales.value.enabled && input.context.value.sales.value.allowInteractions
  }

  /** The message was sent by the customer and shown to the model. */
  predicate Shown(input: Input, ref: string)
    requires input.context.Some?
  {
    Trim(ref) != "" && (ref == input.sourceRef || ref in input.context.value.customerRefs)
  }

  ghost predicate SalesGrounded(input: Input) {
    input.decision.sales.Some? ==>
      && SalesWired(input)
      && var s := input.decision.sales.value;
      && (forall i :: 0 <= i < |s.evidence| ==> Shown(input, s.evidence[i]))
      && (s.workflowId != "" ==> Workflow(s.workflowId, s.expectedVersion) in input.context.value.sales.value.active)
  }

  ghost predicate ReferencesOk(p: Pipeline, input: Input) {
    && SalesGrounded(input) && p.references.Some?
    && forall i :: 0 <= i < |input.decision.selected| ==> p.references.value(input.decision.selected[i], input.evidence)
  }

  ghost predicate TenantOk(p: Pipeline, input: Input) {
    p.tenant.Some? && forall i :: 0 <= i < |input.decision.selected| ==> p.tenant.value(input.decision.selected[i])
  }

  /** The policy gate; an answer outside the closed set becomes a request for approval. */
  function PolicyVerdict(p: Pipeline, d: Decision): Verdict
    requires p.policy.Some?
  {
    var v := p.policy.value(d);
    if v.Unsupported? then RequiresApproval else v
  }

  /** The final gate; an authorization service may tighten the policy's answer only. */
  function Authorized(p: Pipeline, input: Input, now: int): Option<Effective>
    requires p.policy.Some?
  {
    var e := Effective(input.decision.capability, PolicyVerdict(p, input.decision), None);
    if p.authorization.None? then Some(if e.verdict.Allowed? then e.(authorizedAt := Some(now)) else e)
    else
      match p.authorization.value(input, e)
      case None => None
      case Some(a) =>
        if a.verdict.Unsupported? || a.capability != input.decision.capability || (!e.verdict.Allowed? && a.verdict.Allowed?) then None
        else Some(a.(authorizedAt := if a.verdict.Allowed? then Some(now) else None))
  }

  ghost function Outcome(p: Pipeline, input: Input, now: int): Checked {
    if !StructureOk(p, input.decision) then Stopped(Structure)
    else if !ReferencesOk(p, input) then Stopped(References)
    else if !TenantOk(p, input) then Stopped(Tenant)
    else if p.policy.None? then Stopped(Policy)
    else if Authorized(p, input, now).None? then Stopped(Authorization)
    else Passed(Authorized(p, input, now).value)
  }

  // ---------------------------------------------------------------- fail closed

  /** The capabilities that answer the customer, and those of the sales workflow. */
  predicate Speaks(c: Capability) { c.RespondWithoutAction? || c.Ask? || c.Handoff? }

  predicate Sells(c: Capability) { c.RecordLead? || c.CreateDraft? || c.UpdateDraft? }

  /** A final capability with a text where one is sent, with sales arguments where they belong
      and no blank selection. */
  ghost predicate WellFormed(p: Pipeline, d: Decision) {
    && (if Sells(d.capability) then p.salesOk(d) else Speaks(d.capability) && d.sales.None? && Trim(d.text) != "")
    && forall s :: s in d.selected ==> Trim(s.itemId) != ""
  }

  /** Sales evidence was sent by the customer and shown to the model, with sales switched on; a
      workflow is continued only in the version that was shown. */
  ghost predicate Grounded(input: Input, s: Sales) {
    && input.context.Some? && input.context.value.sales.Some?
    && var c, sc := input.context.value, input.context.value.sales.value;
    && sc.enabled && sc.allowInteractions
    && (forall r :: r in s.evidence ==> Trim(r) != "" && (r == input.sourceRef || r in c.customerRefs))
    && (s.workflowId != "" ==> exists w :: w in sc.active && w.id == s.workflowId && w.version == s.expectedVersion)
  }

  /** All mandatory checks of a decision. */
  ghost predicate Checks(p: Pipeline, input: Input) {
    && WellFormed(p, input.decision)
    && (input.decision.sales.Some? ==> Grounded(input, input.decision.sales.value))
    && p.references.Some? && p.tenant.Some? && p.policy.Some?
    && forall s :: s in input.decision.selected ==> p.references.value(s, input.evidence) && p.tenant.value(s)
  }

  lemma StructureIs(p: Pipeline, d: Decision)
    ensures StructureOk(p, d) <==> WellFormed(p, d)
  {
    assert forall i :: 0 <= i < |d.selected| ==> d.selected[i] in d.selected;
  }

  lemma GroundedIs(input: Input)
    requires input.decision.sales.Some?
    ensures SalesGrounded(input) <==> Grounded(input, input.decision.sales.value)
  {
    var s := input.decision.sales.value;
    assert forall i :: 0 <= i < |s.evidence| ==> s.evidence[i] in s.evidence;
    if SalesWired(input) {
      var active := input.context.value.sales.value.active;
      assert forall w :: w in active && w.id == s.workflowId && w.version == s.expectedVersion ==> w == Workflow(s.workflowId, s.expectedVersion);
    }
  }

  lemma ChecksAre(p: Pipeline, input: Input)
    ensures Checks(p, input) <==> StructureOk(p, input.decision) && ReferencesOk(p, input) && TenantOk(p, input) && p.policy.Some?
  {
    StructureIs(p, input.decision);
    if input.decision.sales.Some? { GroundedIs(input); }
    assert forall i :: 0 <= i < |input.decision.selected| ==> input.decision.selected[i] in input.decision.selected;
  }

  /** The policy's answer, an answer outside the closed set read as a request for approval. */
  function Answer(p: Pipeline, d: Decision): Verdict
    requires p.policy.Some?
  {
    match p.policy.value(d)
    case Allowed => Allowed
    case Denied => Denied
    case _ => RequiresApproval
  }

  /** A decision passes exactly when every mandatory check is wired and accepts it and an
      authorization service, if any, agrees, which may only tighten the policy's answer; what
      passes keeps the capability and bears the verdict and the time of the authorization. */
  lemma FailClosed(p: Pipeline, input: Input, now: int)
    ensures Outcome(p, input, now).Passed? <==> Checks(p, input) && Agreed(p, input).Some?
    ensures var r := Outcome(p, input, now);
      r.Passed? ==>
        && r.effective.capability == input.decision.capability && r.effective.verdict == Agreed(p, input).value
        && !r.effective.verdict.Unsupported? && (r.effective.verdict.Allowed? ==> p.policy.value(input.decision).Allowed?)
        && r.effective.authorizedAt == if r.effective.verdict.Allowed? then Some(now) else None
  {
    ChecksAre(p, input);
  }

  /** The verdict the authorization agrees to. */
  ghost function Agreed(p: Pipeline, input: Input): Option<Verdict> {
    if p.policy.None? then None
    else
      var v := Answer(p, input.decision);
      if p.authorization.None? then Some(v)
      else
        var a := p.authorization.value(input, Effective(input.decision.capability, v, None));
        if a.Some? && a.value.capability == input.decision.capability && !a.value.verdict.Unsupported?
           && (a.value.verdict.Allowed? ==> v.Allowed?) then Some(a.value.verdict)
        else None
  }

  /** With a reference validator that insists on exposure, an allowed decision selects only
      what was exposed together under one item. */
  lemma AllowedSelectionsExposed(p: Pipeline, input: Input, now: int, bundles: seq<Bundle>, i: nat)
    requires p.references.Some? ==> forall s, e :: p.references.value(s, e) ==> Contains(e, s)
    requires input.evidence == Build(bundles) && i < |input.decision.selected| && Outcome(p, input, now).Passed?
    ensures var s := input.decision.selected[i];
      && ItemExposed(bundles, s.itemId)
      && (Chosen(s.variantId) != "" ==> VariantExposed(bundles, s.itemId, Chosen(s.variantId)))
      && (Chosen(s.offerId) != "" ==>
            && LastBinding(bundles, s.itemId, Chosen(s.offerId)).Some?
            && Compatible(LastBinding(bundles, s.itemId, Chosen(s.offerId)).value, Chosen(s.variantId)))
  {
    assert p.references.value(input.decision.selected[i], input.evidence);
    ContainsIffExposed(bundles, input.decision.selected[i]);
  }

  // ---------------------------------------------------------------- the chain of checks

  method CheckStructure(p: Pipeline, d: Decision) returns (ok: bool)
    ensures ok <==> StructureOk(p, d)
  {
    var def := DefinitionOf(d.capability);
    if def.None? || !def.value.terminal { return false; }
    if def.value.sales {
      if !p.salesOk(d) { return false; }
    } else if d.sales.Some? { return false; }
    if def.value.sends && Trim(d.text) == "" { return false; }
    for i := 0 to |d.selected|
      invariant forall j :: 0 <= j < i ==> Trim(d.selected[j].itemId) != ""
    {
      if Trim(d.selected[i].itemId) == "" { return false; }
    }
    return true;
  }

  method CheckSales(input: Input) returns (ok: bool)
    ensures ok <==> SalesGrounded(input)
  {
    if input.decision.sales.None? { return true; }
    if !SalesWired(input) { return false; }
    var s := input.decision.sales.value;
    for i := 0 to |s.evidence|
      invariant forall j :: 0 <= j < i ==> Shown(input, s.evidence[j])
    {
      if !Shown(input, s.evidence[i]) { return false; }
    }
    if s.workflowId == "" { return true; }
    var active, found := input.context.value.sales.value.active, false;
    for i := 0 to |active|
      invariant found <==> Workflow(s.workflowId, s.expectedVersion) in active[..i]
    {
      assert active[..i + 1] == active[..i] + [active[i]];
      if active[i].id == s.workflowId && active[i].version == s.expectedVersion { found := true; }
    }
    assert active[..|active|] == active;
    return found;
  }

  method CheckAll(selected: seq<Selection>, accept: Selection -> bool) returns (ok: bool)
    ensures ok <==> forall i :: 0 <= i < |selected| ==> accept(selected[i])
  {
    for i := 0 to |selected|
      invariant forall j :: 0 <= j < i ==> accept(selected[j])
    {
      if !accept(selected[i]) { return false; }
    }
    return true;
  }

  /** Validate: the first stage that fails stops the chain. */
  method Validate(p: Pipeline, input: Input, now: int) returns (r: Checked)
    ensures r == Outcome(p, input, now)
    ensures r.Passed? <==> Checks(p, input) && Agreed(p, input).Some?
  {
    FailClosed(p, input, now);
    var ok := CheckStructure(p, input.decision);
    if !ok { return Stopped(Structure); }
    ok := CheckSales(input);
    if !ok || p.references.None? { return Stopped(References); }
    ok := CheckAll(input.decision.selected, s => p.references.value(s, input.evidence));
    if !ok { return Stopped(References); }
    if p.tenant.None? { return Stopped(Tenant); }
    ok := CheckAll(input.decision.selected, p.tenant.value);
    if !ok { return Stopped(Tenant); }
    if p.policy.None? { return Stopped(Policy); }
    var e := Authorized(p, input, now);
    return if e.None? then Stopped(Authorization) else Passed(e.value);
  }
}
