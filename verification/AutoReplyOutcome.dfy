/** When a turn commits, from the answers of its ports alone. */
module AutoReplyOutcome {
  import opened Text
  import L = RunLifecycle
  import V = ValidationPipeline
  import opened ReplyMedia
  import opened AutoReply
  import opened AutoReplyProofs
  import opened AutoReplyAccounts

  // ---------------------------------------------------------------- the branches of the transaction

  /** The lifecycle takes the run to AUTHORIZED and to EXECUTING, when runs are recorded. */
  predicate Enters(t: Turn) { t.runsWired ==> t.lifecycle(L.Authorized) && t.lifecycle(L.Executing) }

  /** The rows of message i are all written. */
  predicate RowsWritten(t: Turn, images: seq<Link>, i: nat) {
    var key := KeyIn(t.ref, images, i);
    && (i < |images| ==> t.encodes(images[i]))
    && t.writes(OutboundRow, key) && (t.messagesWired ==> t.writes(MessageRow, key)) && t.writes(OutboxRow, key)
  }

  /** The sales executor is there, has what it needs and succeeds. */
  predicate SalesExecuted(t: Turn, d: V.Decision) { t.salesWired && d.sales.Some? && t.context.Some? && t.salesDone }

  /** The conversation moves on, the provider reference fits, and everything is written. */
  ghost predicate ReplyWritten(t: Turn, d: V.Decision, images: seq<Link>) {
    && (if d.capability.Handoff? then t.conversation == Some(true) else t.conversation != Some(false))
    && Trim(d.text) != "" && t.reference && t.executionStored
    && AllWritten(t, images)
  }

  ghost predicate AllWritten(t: Turn, images: seq<Link>) {
    forall i :: 0 <= i < (if images == [] then 1 else |images|) ==> RowsWritten(t, images, i)
  }

  /** Every port step of the decision's own branch succeeds. */
  ghost predicate StepsSucceed(t: Turn, d: V.Decision, verdict: V.Verdict, entered: bool, images: seq<Link>) {
    && t.guardInside.Open? && t.decisionStored
    && (verdict.RequiresApproval? ==> if V.Sells(d.capability) then SalesExecuted(t, d) else t.conversation != Some(false))
    && (verdict.Allowed? ==> entered && if V.Sells(d.capability) then SalesExecuted(t, d) else ReplyWritten(t, d, images))
  }

  lemma {:induction false} SendIff(t: Turn, s: Store, links: seq<Link>, n: nat)
    ensures Send(t, s, links, n).Some? <==> forall i :: 0 <= i < n ==> RowsWritten(t, links, i)
  {
    if n > 0 {
      SendIff(t, s, links, n - 1);
      if Send(t, s, links, n - 1).Some? { SendOneIff(t, Send(t, s, links, n - 1).value, links, n - 1); }
    }
  }

  lemma SendOneIff(t: Turn, s: Store, links: seq<Link>, i: nat)
    ensures SendOne(t, s, links, i).Some? <==> RowsWritten(t, links, i)
  {
    KeyIs(t, links, i);
  }

  lemma SendAllIff(t: Turn, s: Store, images: seq<Link>)
    ensures Send(t, s, images, MessageCount(images)).Some? <==> AllWritten(t, images)
  {
    SendIff(t, s, images, MessageCount(images));
  }

  lemma SpeaksDefinition(c: V.Capability)
    requires V.Speaks(c)
    ensures var def := V.DefinitionOf(c).value; def.state != "" && def.sends && !def.sales && (def.human <==> c.Handoff?)
  {
    assert V.DefinitionOf(c).value.state[0] == 'w';
  }

  lemma ReplyIff(t: Turn, s: Store, d: V.Decision, def: V.Definition, links: seq<Link>)
    requires def.state != "" && def.sends && (def.human <==> d.capability.Handoff?)
    ensures Reply(t, s, d, def, links).Commit? <==> ReplyWritten(t, d, Approved(t, links))
    ensures Reply(t, s, d, def, links).Commit? ==> Reply(t, s, d, def, links).enqueued
  {
    SendAllIff(t, s, Approved(t, links));
    if t.conversation.Some? { assert t.conversation == if t.conversation.value then Some(true) else Some(false); }
  }

  /** A decision of a final capability commits exactly when its steps succeed, and enqueues
      messages exactly when it is an allowed answer. */
  lemma TransactIff(t: Turn, s: Store, id: string, d: V.Decision, e: V.Effective, links: seq<Link>)
    requires (V.Sells(d.capability) || V.Speaks(d.capability)) && e.capability == d.capability && !e.verdict.Unsupported?
    ensures var tx := Transact(t, s, id, d, e, links);
      && (tx.Commit? <==> StepsSucceed(t, d, e.verdict, EnterExecution(t, s, id).Some?, Approved(t, links)))
      && (tx.Commit? ==> (tx.enqueued <==> e.verdict.Allowed? && V.Speaks(d.capability)))
  {
    var entered := EnterExecution(t, s, id);
    if V.Speaks(d.capability) {
      SpeaksDefinition(d.capability);
      if entered.Some? { ReplyIff(t, entered.value, d, V.DefinitionOf(d.capability).value, links); }
    }
  }

  lemma EntersIff(t: Turn, s: Store, id: string)
    requires t.runsWired ==> StatusIs(s, id, L.Validating)
    ensures EnterExecution(t, s, id).Some? <==> Enters(t)
  {
  }

  // ---------------------------------------------------------------- the whole turn

  /** The decision of a turn: the model's, or that of the catalog evaluation it asked for. */
  predicate Decides(t: Turn, d: V.Decision) {
    && t.decision.Some?
    && if t.decision.value.capability.FullCatalog? then t.catalogDecision == Some(d) else t.decision == Some(d)
  }

  /** The pipeline passes the decision. */
  ghost predicate Passes(t: Turn, d: V.Decision, e: V.Effective) {
    t.pipeline.Some? && V.Outcome(t.pipeline.value, V.Input(d, t.context, t.ref, t.evidence), t.now) == V.Passed(e)
  }

  /** The context is built, nobody has taken over or switched the assistant off, and the run,
      if recorded, comes to VALIDATING. */
  predicate Prepared(t: Turn) {
    && t.built.Ready? && t.guardBeforeModel.Open?
    && (t.runsWired ==> t.lifecycle(L.ContextBuilt) && t.lifecycle(L.Running) && t.lifecycle(L.Validating))
  }

  /** Informational replies are switched off, and this is one. */
  predicate Silenced(t: Turn, c: V.Capability) {
    && t.informationalOff
    && (c.RespondWithoutAction? || (c.Ask? && (t.context.None? || t.context.value.sales.None? || t.context.value.sales.value.active == [])))
  }

  /** The turn comes to its transaction with this decision. */
  ghost predicate Arrives(t: Turn, d: V.Decision, e: V.Effective) {
    Prepared(t) && Decides(t, d) && Passes(t, d, e) && !Silenced(t, d.capability)
  }

  ghost predicate Succeeds(t: Turn, d: V.Decision, e: V.Effective) {
    StepsSucceed(t, d, e.verdict, Enters(t), Images(t, d, e))
  }

  lemma PassedIsFinal(t: Turn, d: V.Decision, e: V.Effective)
    requires Passes(t, d, e)
    ensures e.capability == d.capability && !e.verdict.Unsupported? && (V.Sells(d.capability) || V.Speaks(d.capability))
    ensures Executable(d, e)
  {
    V.FailClosed(t.pipeline.value, InputOf(t, d), t.now);
  }

  lemma FinishIff(t: Turn, s: Store, id: string, d: V.Decision, e: V.Effective)
    requires Passes(t, d, e) && (t.runsWired ==> StatusIs(s, id, L.Validating))
    ensures var r := Finish(t, s, id, d, e).1;
      && r.exit == (if Succeeds(t, d, e) then Committed else RolledBack)
      && (r.enqueued <==> Succeeds(t, d, e) && e.verdict.Allowed? && V.Speaks(d.capability))
  {
    PassedIsFinal(t, d, e);
    EntersIff(t, s, id);
    TransactIff(t, s, id, d, e, Candidates(t, d, e));
  }

  lemma ValidatingIff(t: Turn, s: Store, id: string, s': Store)
    requires t.runsWired ==> StatusIs(s, id, L.Received)
    requires s' == MarkSafe(t, MarkSafe(t, s, id, L.ContextBuilt), id, L.Running)
    ensures var v := TransitionRun(t, s', id, L.Validating);
      && (v.Some? <==> (t.runsWired ==> t.lifecycle(L.ContextBuilt) && t.lifecycle(L.Running) && t.lifecycle(L.Validating)))
      && (v.Some? && t.runsWired ==> StatusIs(v.value, id, L.Validating))
  {
  }

  lemma JudgeIff(t: Turn, s: Store, id: string, d: V.Decision, e: V.Effective)
    requires Passes(t, d, e) && TransitionRun(t, s, id, L.Validating).Some?
    requires t.runsWired ==> StatusIs(TransitionRun(t, s, id, L.Validating).value, id, L.Validating)
    ensures var r, silent := Judge(t, s, id, d, Some(V.Passed(e))).1, Silenced(t, d.capability);
      && (r.exit.Committed? <==> !silent && Succeeds(t, d, e)) && (r.exit.RolledBack? <==> !silent && !Succeeds(t, d, e))
      && (r.enqueued <==> !silent && Succeeds(t, d, e) && e.verdict.Allowed? && V.Speaks(d.capability))
  {
    PassedIsFinal(t, d, e);
    FinishIff(t, TransitionRun(t, s, id, L.Validating).value, id, d, e);
  }

  lemma NotArrived(t: Turn, s: Store, id: string, d: V.Decision, e: V.Effective)
    requires (t.runsWired ==> StatusIs(s, id, L.Received)) && Decides(t, d) && Passes(t, d, e) && !Prepared(t)
    ensures var r := Run(t, s, id).1; !r.exit.Committed? && !r.exit.RolledBack? && !r.enqueued
  {
    ValidatingIff(t, s, id, MarkSafe(t, MarkSafe(t, s, id, L.ContextBuilt), id, L.Running));
  }

  /** From a fresh run on, a turn whose decision passes the pipeline commits exactly when it
      comes to its transaction and all steps of its branch succeed; if one fails the turn is
      rolled back; and it answers the customer exactly when an allowed answer commits. */
  lemma PassedTurn(t: Turn, s: Store, id: string, d: V.Decision, e: V.Effective)
    requires (t.runsWired ==> StatusIs(s, id, L.Received)) && Decides(t, d) && Passes(t, d, e)
    ensures var r := Run(t, s, id).1;
      && (r.exit.Committed? <==> Arrives(t, d, e) && Succeeds(t, d, e))
      && (r.exit.RolledBack? <==> Arrives(t, d, e) && !Succeeds(t, d, e))
      && (r.enqueued <==> Arrives(t, d, e) && Succeeds(t, d, e) && e.verdict.Allowed? && V.Speaks(d.capability))
  {
    if Prepared(t) {
      var m := MarkSafe(t, MarkSafe(t, s, id, L.ContextBuilt), id, L.Running);
      ValidatingIff(t, s, id, m);
      RunJudges(t, s, id, d, e, m);
      JudgeIff(t, m, id, d, e);
    } else {
      NotArrived(t, s, id, d, e);
    }
  }

  lemma RunJudges(t: Turn, s: Store, id: string, d: V.Decision, e: V.Effective, m: Store)
    requires Prepared(t) && Decides(t, d) && Passes(t, d, e) && m == MarkSafe(t, MarkSafe(t, s, id, L.ContextBuilt), id, L.Running)
    ensures Run(t, s, id) == Judge(t, m, id, d, Some(V.Passed(e)))
  {
    assert Proposal(t) == Some(d) && Checking(t, d) == Some(V.Passed(e));
  }

  /** Without a passed decision a turn neither commits nor comes to its transaction. */
  lemma OtherTurn(t: Turn, s: Store, id: string)
    requires forall d, e :: Decides(t, d) ==> !Passes(t, d, e)
    ensures var r := Run(t, s, id).1; !r.exit.Committed? && !r.exit.RolledBack? && !r.enqueued
  {
    if Proposal(t).Some? {
      var d := Proposal(t).value;
      assert Decides(t, d);
      var c := Checking(t, d);
      if c.Some? && c.value.Passed? { assert Passes(t, d, c.value.effective); }
    }
  }

  ghost predicate Commits(t: Turn) { exists d, e :: Arrives(t, d, e) && Succeeds(t, d, e) }

  ghost predicate RollsBack(t: Turn) { exists d, e :: Arrives(t, d, e) && !Succeeds(t, d, e) }

  ghost predicate Answers(t: Turn) {
    exists d, e :: Arrives(t, d, e) && Succeeds(t, d, e) && e.verdict.Allowed? && V.Speaks(d.capability)
  }

  /** The turn starts, and with runs recorded it starts a fresh one. */
  predicate FreshStart(t: Turn, s: Store) {
    Begin(t, s).1.Some? && (t.runsWired ==> StatusIs(Begin(t, s).0, RunIdOf(t, s), L.Received))
  }

  lemma OutcomeTheorem(t: Turn, s: Store)
    requires FreshStart(t, s)
    ensures var r := Handled(t, s).1;
      && (r.exit.Committed? <==> t.valid && t.guard.Open? && Commits(t))
      && (r.exit.RolledBack? <==> t.valid && t.guard.Open? && RollsBack(t))
      && (r.enqueued <==> t.valid && t.guard.Open? && Answers(t))
  {
    if t.valid && t.guard.Open? { RunOutcome(t, Begin(t, s).0, RunIdOf(t, s)); }
  }

  lemma RunOutcome(t: Turn, s: Store, id: string)
    requires t.runsWired ==> StatusIs(s, id, L.Received)
    ensures var r := Run(t, s, id).1;
      (r.exit.Committed? <==> Commits(t)) && (r.exit.RolledBack? <==> RollsBack(t)) && (r.enqueued <==> Answers(t))
  {
    if d, e :| Decides(t, d) && Passes(t, d, e) {
      PassedTurn(t, s, id, d, e);
      OneDecision(t, d, e);
    } else {
      OtherTurn(t, s, id);
    }
  }

  /** How the turns end that never come to a transaction. */
  lemma EarlyExits(t: Turn, s: Store)
    requires FreshStart(t, s)
    ensures var (s', r) := Handled(t, s);
      var begun, ready := t.valid && t.guard.Open?, t.built.Ready? && t.guardBeforeModel.Open?;
      && (!t.valid || !t.guard.Open? ==> s' == s && r == Quiet(if !t.valid then Invalid else if t.guard.Disabled? then Skipped else GuardFailed))
      && (r.exit.ContextFailed? <==> begun && t.built.NotBuilt?)
      && (r.exit.Cancelled? <==> begun && !t.built.NotBuilt? && !ready && (t.runsWired ==> t.lifecycle(L.Cancelled)))
      && (r.exit.ModelFailed? <==> begun && ready && forall d :: !Decides(t, d))
      && (r.exit.NoPipeline? <==> begun && Prepared(t) && t.pipeline.None? && exists d :: Decides(t, d))
      && (r.exit.Rejected? <==> begun && Prepared(t) && t.pipeline.Some? && exists d :: Decides(t, d) && forall e :: !Passes(t, d, e))
      && (r.exit.Suppressed? <==> begun && Prepared(t) && exists d, e :: Decides(t, d) && Passes(t, d, e) && Silenced(t, d.capability))
      && !r.exit.Mismatched?
  {
    if t.valid && t.guard.Open? { RunExits(t, Begin(t, s).0, RunIdOf(t, s)); }
  }

  lemma RunExits(t: Turn, s: Store, id: string)
    requires t.runsWired ==> StatusIs(s, id, L.Received)
    ensures var r, ready := Run(t, s, id).1, t.built.Ready? && t.guardBeforeModel.Open?;
      && (r.exit.ContextFailed? <==> t.built.NotBuilt?)
      && (r.exit.Cancelled? <==> !t.built.NotBuilt? && !ready && (t.runsWired ==> t.lifecycle(L.Cancelled)))
      && (r.exit.ModelFailed? <==> ready && forall d :: !Decides(t, d))
      && (r.exit.NoPipeline? <==> Prepared(t) && t.pipeline.None? && exists d :: Decides(t, d))
      && (r.exit.Rejected? <==> Prepared(t) && t.pipeline.Some? && exists d :: Decides(t, d) && forall e :: !Passes(t, d, e))
      && (r.exit.Suppressed? <==> Prepared(t) && exists d, e :: Decides(t, d) && Passes(t, d, e) && Silenced(t, d.capability))
      && !r.exit.Mismatched? && !r.exit.Invalid? && !r.exit.Skipped? && !r.exit.GuardFailed? && !r.exit.StartFailed?
  {
    if t.built.Ready? && t.guardBeforeModel.Open? { ReadyExits(t, s, id); }
  }

  lemma ReadyExits(t: Turn, s: Store, id: string)
    requires (t.runsWired ==> StatusIs(s, id, L.Received)) && t.built.Ready? && t.guardBeforeModel.Open?
    ensures var r := Run(t, s, id).1;
      && (r.exit.ModelFailed? <==> forall d :: !Decides(t, d))
      && (r.exit.NoPipeline? <==> Prepared(t) && t.pipeline.None? && exists d :: Decides(t, d))
      && (r.exit.Rejected? <==> Prepared(t) && t.pipeline.Some? && exists d :: Decides(t, d) && forall e :: !Passes(t, d, e))
      && (r.exit.Suppressed? <==> Prepared(t) && exists d, e :: Decides(t, d) && Passes(t, d, e) && Silenced(t, d.capability))
      && (r.exit.ModelFailed? || AfterModel(r.exit))
  {
    var m := MarkSafe(t, MarkSafe(t, s, id, L.ContextBuilt), id, L.Running);
    ValidatingIff(t, s, id, m);
    if Proposal(t).Some? {
      var d := Proposal(t).value;
      assert Decides(t, d) && forall d' :: Decides(t, d') ==> d' == d;
      JudgeExits(t, m, id, d);
    } else {
      assert forall d :: !Decides(t, d);
    }
  }

  predicate AfterModel(exit: Exit) {
    exit.NotValidating? || exit.NoPipeline? || exit.Rejected? || exit.Suppressed? || exit.Committed? || exit.RolledBack?
  }

  lemma JudgeExits(t: Turn, s: Store, id: string, d: V.Decision)
    ensures var r, v := Judge(t, s, id, d, Checking(t, d)).1, TransitionRun(t, s, id, L.Validating);
      && (r.exit.NotValidating? <==> v.None?)
      && (r.exit.NoPipeline? <==> v.Some? && t.pipeline.None?)
      && (r.exit.Rejected? <==> v.Some? && t.pipeline.Some? && forall e :: !Passes(t, d, e))
      && (r.exit.Suppressed? <==> v.Some? && exists e :: Passes(t, d, e) && Silenced(t, d.capability))
      && AfterModel(r.exit)
  {
    var c := Checking(t, d);
    if c.Some? && c.value.Passed? {
      var e := c.value.effective;
      assert Passes(t, d, e) && forall e' :: Passes(t, d, e') ==> e' == e;
      PassedIsFinal(t, d, e);
    }
  }

  lemma OneDecision(t: Turn, d: V.Decision, e: V.Effective)
    requires Decides(t, d) && Passes(t, d, e)
    ensures Commits(t) <==> Arrives(t, d, e) && Succeeds(t, d, e)
    ensures RollsBack(t) <==> Arrives(t, d, e) && !Succeeds(t, d, e)
    ensures Answers(t) <==> Arrives(t, d, e) && Succeeds(t, d, e) && e.verdict.Allowed? && V.Speaks(d.capability)
  {
    assert forall d', e' :: Arrives(t, d', e') ==> d' == d && e' == e;
  }
}
