/** Where a turn leaves its run, when it does reply, and what it is charged. */
module AutoReplyAccounts {
  import opened Text
  import L = RunLifecycle
  import V = ValidationPipeline
  import opened ReplyMedia
  import opened AutoReply
  import opened AutoReplyProofs

  // ---------------------------------------------------------------- the final status

  /** Lifecycle writes succeed. */
  ghost predicate Writable(t: Turn) { t.runsWired && forall to :: t.lifecycle(to) }

  predicate StatusIs(s: Store, id: string, status: L.Status) { id in s.runs && s.runs[id].status == status }

  /** The status in which an exit leaves a run that started with it. */
  function StatusAt(exit: Exit): L.Status {
    match exit
    case Committed => L.Completed
    case RolledBack => L.Failed
    case Rejected => L.Failed
    case NoPipeline => L.Failed
    case ModelFailed => L.Failed
    case ContextFailed => L.Failed
    case Cancelled => L.Cancelled
    case Suppressed => L.Validating
    case Mismatched => L.Validating
    case _ => L.Received
  }

  lemma Moves(t: Turn, s: Store, id: string, from: L.Status, to: L.Status)
    requires Writable(t) && StatusIs(s, id, from) && L.Legal(from, to)
    ensures TransitionRun(t, s, id, to) == Some(MarkSafe(t, s, id, to)) && StatusIs(MarkSafe(t, s, id, to), id, to)
  {
  }

  lemma EnterStatus(t: Turn, s: Store, id: string)
    requires Writable(t) && StatusIs(s, id, L.Validating)
    ensures EnterExecution(t, s, id).Some? && StatusIs(EnterExecution(t, s, id).value, id, L.Executing)
  {
    Moves(t, s, id, L.Validating, L.Authorized);
    Moves(t, MarkSafe(t, s, id, L.Authorized), id, L.Authorized, L.Executing);
  }

  /** A transaction that commits leaves the run where it can be completed. */
  lemma TransactStatus(t: Turn, s: Store, id: string, d: V.Decision, e: V.Effective, links: seq<Link>)
    requires Writable(t) && StatusIs(s, id, L.Validating)
    ensures var r := Transact(t, s, id, d, e, links);
      r.Commit? ==> StatusIs(r.store, id, L.Validating) || StatusIs(r.store, id, L.Executing)
  {
    EnterStatus(t, s, id);
    var a := Approved(t, links);
    SendAddsMessages(t, EnterExecution(t, s, id).value, a, MessageCount(a));
  }

  lemma SettleStatus(t: Turn, s: Store, id: string, tx: Tx)
    requires Writable(t) && StatusIs(s, id, L.Validating)
    requires tx.Commit? ==> StatusIs(tx.store, id, L.Validating) || StatusIs(tx.store, id, L.Executing)
    ensures StatusIs(Settle(t, s, id, tx).0, id, StatusAt(Settle(t, s, id, tx).1.exit))
  {
  }

  lemma FinishStatus(t: Turn, s: Store, id: string, d: V.Decision, e: V.Effective)
    requires Writable(t) && StatusIs(s, id, L.Validating)
    ensures StatusIs(Finish(t, s, id, d, e).0, id, StatusAt(Finish(t, s, id, d, e).1.exit))
  {
    TransactStatus(t, s, id, d, e, Candidates(t, d, e));
    SettleStatus(t, s, id, Transact(t, s, id, d, e, Candidates(t, d, e)));
  }

  lemma JudgeStatus(t: Turn, s: Store, id: string, d: V.Decision, c: Option<V.Checked>)
    requires Writable(t) && StatusIs(s, id, L.Running)
    ensures StatusIs(Judge(t, s, id, d, c).0, id, StatusAt(Judge(t, s, id, d, c).1.exit))
  {
    Moves(t, s, id, L.Running, L.Validating);
    var v := MarkSafe(t, s, id, L.Validating);
    Moves(t, v, id, L.Validating, L.Failed);
    if c.Some? && c.value.Passed? { FinishStatus(t, v, id, d, c.value.effective); }
  }

  /** From a fresh run whose lifecycle writes succeed, a committed transaction ends COMPLETED,
      a rolled-back one FAILED; a suppressed reply stays in VALIDATING. */
  lemma RunStatus(t: Turn, s: Store, id: string)
    requires Writable(t) && StatusIs(s, id, L.Received)
    ensures StatusIs(Run(t, s, id).0, id, StatusAt(Run(t, s, id).1.exit))
  {
    Moves(t, s, id, L.Received, L.Failed);
    Moves(t, s, id, L.Received, L.Cancelled);
    Moves(t, s, id, L.Received, L.ContextBuilt);
    var b := MarkSafe(t, s, id, L.ContextBuilt);
    Moves(t, b, id, L.ContextBuilt, L.Running);
    var m := MarkSafe(t, b, id, L.Running);
    Moves(t, m, id, L.Running, L.Failed);
    if Proposal(t).Some? { JudgeStatus(t, m, id, Proposal(t).value, Answer(t)); }
  }

  lemma StatusTheorem(t: Turn, s: Store)
    requires Writable(t) && t.valid && t.guard.Open? && Begin(t, s).1.Some?
    requires StatusIs(Begin(t, s).0, RunIdOf(t, s), L.Received)
    ensures StatusIs(Handled(t, s).0, RunIdOf(t, s), StatusAt(Handled(t, s).1.exit))
  {
    RunStatus(t, Begin(t, s).0, RunIdOf(t, s));
  }

  // ---------------------------------------------------------------- a reply does go out

  /** Every port answers well. */
  ghost predicate Healthy(t: Turn) {
    && Writable(t) && t.built.Ready? && t.guardBeforeModel.Open? && t.guardInside.Open?
    && t.decisionStored && t.conversation == Some(true) && t.reference && t.executionStored
    && (forall l :: t.encodes(l)) && (forall kind, key :: t.writes(kind, key))
  }

  lemma {:induction false} SendSucceeds(t: Turn, s: Store, links: seq<Link>, n: nat)
    requires Healthy(t)
    ensures Send(t, s, links, n).Some?
  {
    if n > 0 { SendSucceeds(t, s, links, n - 1); }
  }

  lemma ReplySucceeds(t: Turn, s: Store, d: V.Decision, def: V.Definition, links: seq<Link>)
    requires Healthy(t) && def.sends && Trim(d.text) != ""
    ensures Reply(t, s, d, def, links).Commit? && Reply(t, s, d, def, links).enqueued
  {
    var a := Approved(t, links);
    SendSucceeds(t, s, a, MessageCount(a));
  }

  lemma FinishReplies(t: Turn, s: Store, id: string, d: V.Decision, e: V.Effective)
    requires Healthy(t) && StatusIs(s, id, L.Validating) && e.verdict.Allowed? && Trim(d.text) != ""
    requires V.DefinitionOf(e.capability).Some? && V.DefinitionOf(e.capability).value.sends
    ensures Finish(t, s, id, d, e).1.enqueued
  {
    EnterStatus(t, s, id);
    ReplySucceeds(t, EnterExecution(t, s, id).value, d, V.DefinitionOf(e.capability).value, Selected(t.media, d));
  }

  /** With healthy ports, an allowed customer-facing decision that is not suppressed is
      answered. */
  lemma HealthyTurnReplies(t: Turn, s: Store, id: string, d: V.Decision, e: V.Effective)
    requires Healthy(t) && StatusIs(s, id, L.Received) && Proposal(t) == Some(d)
    requires Checking(t, d) == Some(V.Passed(e)) && e.verdict.Allowed? && e.capability == d.capability
    requires V.DefinitionOf(e.capability).Some? && V.DefinitionOf(e.capability).value.sends
    requires V.DefinitionOf(e.capability).value.terminal && Trim(d.text) != ""
    requires !(t.informationalOff && Informational(t, e))
    ensures Run(t, s, id).1.enqueued && Run(t, s, id).1.exit.Committed?
  {
    Moves(t, s, id, L.Received, L.ContextBuilt);
    var b := MarkSafe(t, s, id, L.ContextBuilt);
    Moves(t, b, id, L.ContextBuilt, L.Running);
    var m := MarkSafe(t, b, id, L.Running);
    Moves(t, m, id, L.Running, L.Validating);
    FinishReplies(t, MarkSafe(t, m, id, L.Validating), id, d, e);
  }

  // ---------------------------------------------------------------- accounting

  /** The tokens recorded add up to the tokens reported exactly when the cached ones are a
      part of them; the reply is charged whatever the pricing. */
  lemma AccountTheorem(a: Accounting, enqueued: bool)
    ensures var (u, failed) := Account(a, enqueued);
      && (u.Some? ==> (u.value.input + u.value.cached == a.input <==> a.cached <= a.input))
      && (if enqueued then 1 else 0) == (if u.Some? then u.value.finalReplies else 0) + (if enqueued && failed then 1 else 0)
      && Account(a.(priced := !a.priced), enqueued) == (if u.Some? then Some(u.value.(priced := !a.priced)) else None, failed)
      && (u.Some? <==> Records(a)) && (failed <==> AppendRefused(a) || (enqueued && !Records(a)))
      && (u.Some? ==> u.value == Usage(if a.cached > a.input then 0 else a.input - a.cached, a.cached, Bit(enqueued), a.priced))
  {
  }

  /** An active subscription is found and the repository takes the record. */
  predicate Records(a: Accounting) { a.usageWired && a.subscriptionsWired && a.active == Some(true) && a.appended }

  function Replies(us: seq<Usage>): int {
    if us == [] then 0 else Replies(us[..|us| - 1]) + us[|us| - 1].finalReplies
  }

  /** The store after a sequence of turns. */
  ghost function StoreAfter(ts: seq<Turn>, s: Store): Store {
    if ts == [] then s else Handled(ts[|ts| - 1], StoreAfter(ts[..|ts| - 1], s)).0
  }

  ghost function LastResult(ts: seq<Turn>, s: Store): Result
    requires ts != []
  {
    Handled(ts[|ts| - 1], StoreAfter(ts[..|ts| - 1], s)).1
  }

  function Bit(b: bool): nat { if b then 1 else 0 }

  /** Turns that enqueued a reply, that returned a usage error, and that did both. */
  ghost function Enqueued(ts: seq<Turn>, s: Store): nat {
    if ts == [] then 0 else Enqueued(ts[..|ts| - 1], s) + Bit(LastResult(ts, s).enqueued)
  }

  ghost function UsageErrors(ts: seq<Turn>, s: Store): nat {
    if ts == [] then 0 else UsageErrors(ts[..|ts| - 1], s) + Bit(LastResult(ts, s).usageError)
  }

  ghost function Drifts(ts: seq<Turn>, s: Store): nat {
    if ts == [] then 0 else Drifts(ts[..|ts| - 1], s) + Bit(LastResult(ts, s).usageError && LastResult(ts, s).enqueued)
  }

  /** What one turn appends to the usage records: a committed turn, with a reply or without, one
      record if it can be recorded, any other turn none. */
  predicate Charged(a: Accounting, s: Store, s': Store, r: Result) {
    if r.exit.Committed? && Records(a) then
      && s'.usage == s.usage + [Usage(if a.cached > a.input then 0 else a.input - a.cached, a.cached, Bit(r.enqueued), a.priced)]
      && !r.usageError
    else s'.usage == s.usage && (r.usageError <==> r.exit.Committed? && (r.enqueued || AppendRefused(a))) && (r.enqueued ==> r.usageError)
  }

  lemma SettleCharges(t: Turn, s: Store, id: string, tx: Tx)
    requires tx.Commit? ==> tx.store.usage == s.usage
    ensures Charged(t.accounting, s, Settle(t, s, id, tx).0, Settle(t, s, id, tx).1)
  {
    if tx.Commit? {
      AccountTheorem(t.accounting, tx.enqueued);
    }
  }

  lemma TransactKeepsUsage(t: Turn, s: Store, id: string, d: V.Decision, e: V.Effective, links: seq<Link>)
    ensures var tx := Transact(t, s, id, d, e, links); tx.Commit? ==> tx.store.usage == s.usage
  {
    var a, entered := Approved(t, links), EnterExecution(t, s, id);
    if entered.Some? { SendAddsMessages(t, entered.value, a, MessageCount(a)); }
  }

  lemma FinishCharges(t: Turn, s: Store, id: string, d: V.Decision, e: V.Effective)
    ensures Charged(t.accounting, s, Finish(t, s, id, d, e).0, Finish(t, s, id, d, e).1)
  {
    TransactKeepsUsage(t, s, id, d, e, Candidates(t, d, e));
    SettleCharges(t, s, id, Transact(t, s, id, d, e, Candidates(t, d, e)));
  }

  lemma JudgeCharges(t: Turn, s: Store, id: string, d: V.Decision, c: Option<V.Checked>)
    ensures Charged(t.accounting, s, Judge(t, s, id, d, c).0, Judge(t, s, id, d, c).1)
  {
    var v := TransitionRun(t, s, id, L.Validating);
    if v.Some? && c.Some? && c.value.Passed? { FinishCharges(t, v.value, id, d, c.value.effective); }
  }

  lemma ChargedFrom(a: Accounting, s: Store, mid: Store, s': Store, r: Result)
    requires Charged(a, mid, s', r) && mid.usage == s.usage
    ensures Charged(a, s, s', r)
  {
  }

  lemma RunCharges(t: Turn, s: Store, id: string)
    ensures Charged(t.accounting, s, Run(t, s, id).0, Run(t, s, id).1)
  {
    var (s', r) := Run(t, s, id);
    var m := MarkSafe(t, MarkSafe(t, s, id, L.ContextBuilt), id, L.Running);
    if Proposal(t).Some? && (s', r) == Judge(t, m, id, Proposal(t).value, Answer(t)) {
      JudgeCharges(t, m, id, Proposal(t).value, Answer(t));
      ChargedFrom(t.accounting, s, m, s', r);
    }
  }

  lemma TurnCharges(t: Turn, s: Store)
    ensures Charged(t.accounting, s, Handled(t, s).0, Handled(t, s).1)
  {
    var (b, id) := Begin(t, s);
    var (s', r) := Handled(t, s);
    if id.Some? && (s', r) == Run(t, b, id.value) {
      RunCharges(t, b, id.value);
      ChargedFrom(t.accounting, s, b, s', r);
    }
  }

  /** Entitlement conservation: over any sequence of turns, the replies enqueued are the
      replies charged plus the replies whose accounting failed with an error. */
  lemma {:induction false} EntitlementTheorem(ts: seq<Turn>, s: Store)
    ensures Enqueued(ts, s) == Replies(StoreAfter(ts, s).usage) - Replies(s.usage) + Drifts(ts, s)
  {
    if ts != [] {
      var init, mid := ts[..|ts| - 1], StoreAfter(ts[..|ts| - 1], s);
      EntitlementTheorem(init, s);
      TurnCharges(ts[|ts| - 1], mid);
      ChargedCounts(ts[|ts| - 1].accounting, mid, StoreAfter(ts, s), LastResult(ts, s));
    }
  }

  lemma ChargedCounts(a: Accounting, s: Store, s': Store, r: Result)
    requires Charged(a, s, s', r)
    ensures Bit(r.enqueued) == Replies(s'.usage) - Replies(s.usage) + Bit(r.usageError && r.enqueued)
  {
    if s'.usage != s.usage { assert s'.usage[..|s'.usage| - 1] == s.usage; }
  }

  // ---------------------------------------------------------------- errors without a reply

  /** The usage record is due and the repository refuses it. */
  predicate AppendRefused(a: Accounting) {
    a.usageWired && a.subscriptionsWired && a.active == Some(true) && !a.appended
  }

  /** A turn returns a usage error without a reply exactly when it commits without one while
      its record is refused. */
  ghost predicate ErrsQuietly(t: Turn, r: Result) {
    r.usageError && !r.enqueued <==> r.exit.Committed? && !r.enqueued && AppendRefused(t.accounting)
  }

  lemma SettleErrs(t: Turn, s: Store, id: string, tx: Tx)
    ensures ErrsQuietly(t, Settle(t, s, id, tx).1)
  {
  }

  lemma JudgeErrs(t: Turn, s: Store, id: string, d: V.Decision, c: Option<V.Checked>)
    ensures ErrsQuietly(t, Judge(t, s, id, d, c).1)
  {
    var v := TransitionRun(t, s, id, L.Validating);
    if v.Some? && c.Some? && c.value.Passed? {
      var e := c.value.effective;
      SettleErrs(t, v.value, id, Transact(t, v.value, id, d, e, Candidates(t, d, e)));
    }
  }

  lemma RunErrs(t: Turn, s: Store, id: string)
    ensures ErrsQuietly(t, Run(t, s, id).1)
  {
    var m := MarkSafe(t, MarkSafe(t, s, id, L.ContextBuilt), id, L.Running);
    if Proposal(t).Some? && Run(t, s, id) == Judge(t, m, id, Proposal(t).value, Answer(t)) {
      JudgeErrs(t, m, id, Proposal(t).value, Answer(t));
    }
  }

  lemma TurnErrs(t: Turn, s: Store)
    ensures ErrsQuietly(t, Handled(t, s).1)
  {
    var (b, id) := Begin(t, s);
    if id.Some? && Handled(t, s) == Run(t, b, id.value) { RunErrs(t, b, id.value); }
  }

  /** No turn commits without a reply while its usage record is refused. */
  ghost predicate NoSilentRefusal(ts: seq<Turn>, s: Store) {
    ts == []
    || (&& NoSilentRefusal(ts[..|ts| - 1], s)
        && (AppendRefused(ts[|ts| - 1].accounting) && LastResult(ts, s).exit.Committed? ==> LastResult(ts, s).enqueued))
  }

  lemma {:induction false} CountErrors(ts: seq<Turn>, s: Store)
    ensures Drifts(ts, s) <= UsageErrors(ts, s)
    ensures Drifts(ts, s) == UsageErrors(ts, s) <==> NoSilentRefusal(ts, s)
  {
    if ts != [] {
      CountErrors(ts[..|ts| - 1], s);
      TurnErrs(ts[|ts| - 1], StoreAfter(ts[..|ts| - 1], s));
    }
  }

  /** Counting every usage error balances the entitlement exactly when no turn commits without
      a reply while its usage record is refused. */
  lemma ErrorsTheorem(ts: seq<Turn>, s: Store)
    ensures Enqueued(ts, s) == Replies(StoreAfter(ts, s).usage) - Replies(s.usage) + UsageErrors(ts, s) <==> NoSilentRefusal(ts, s)
  {
    EntitlementTheorem(ts, s);
    CountErrors(ts, s);
  }

  /** A turn whose policy denies the answer of the model, and whose usage record is refused. */
  function DeniedTurn(): Turn {
    var d := V.Decision(V.RespondWithoutAction, "hello", [], None);
    var pipeline := V.Pipeline(_ => true, Some((_, _) => true), Some(_ => true), Some(_ => V.Denied), None);
    Turn(true, "b", "m", 0, Open, false, None, "", false, _ => true, Ready, None, map[], Open, Some(d), None, Some(pipeline), false, None,
         Open, true, false, false, None, true, _ => None, _ => true, false, (_, _) => true, true,
         Accounting(10, 0, true, true, Some(true), false, true))
  }

  /** It commits without a reply and returns the error, so the plain equation fails. */
  lemma ErrorWithoutReply(s: Store)
    ensures Handled(DeniedTurn(), s).1 == Result(Committed, false, true)
    ensures Enqueued([DeniedTurn()], s)
         != Replies(StoreAfter([DeniedTurn()], s).usage) - Replies(s.usage) + UsageErrors([DeniedTurn()], s)
  {
    var t := DeniedTurn();
    var d := Proposal(t).value;
    DeniedPasses(t, d);
    assert Handled(t, s) == Run(t, s, "");
    assert [t][..0] == [];
    assert LastResult([t], s) == Result(Committed, false, true);
    assert !NoSilentRefusal([t], s);
    ErrorsTheorem([t], s);
  }

  lemma DeniedPasses(t: Turn, d: V.Decision)
    requires t == DeniedTurn() && d == Proposal(t).value
    ensures Checking(t, d) == Some(V.Passed(V.Effective(V.RespondWithoutAction, V.Denied, None)))
  {
    assert d.text[0] == 'h' && !IsSpace('h') && !IsSpace('o');
    assert TrimLeft(d.text) == d.text && TrimRight(d.text) == d.text;
    assert V.StructureOk(t.pipeline.value, d);
    assert V.ReferencesOk(t.pipeline.value, InputOf(t, d)) && V.TenantOk(t.pipeline.value, InputOf(t, d));
  }
}
