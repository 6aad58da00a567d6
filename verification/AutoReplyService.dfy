/** The service that handles customer turns against the store. */
module AutoReplyServices {
  import opened Text
  import L = RunLifecycle
  import V = ValidationPipeline
  import opened ReplyMedia
  import opened AutoReply
  import opened AutoReplyProofs
  import opened AutoReplyAccounts
  import opened AutoReplyOutcome

  /** The candidates found approved again inside the transaction. */
  method Revalidate(t: Turn, links: seq<Link>) returns (r: seq<Link>)
    ensures r == Approved(t, links)
  {
    r := [];
    for i := 0 to |links|
      invariant r == Approved(t, links[..i])
    {
      assert links[..i + 1][..i] == links[..i];
      var current := t.freshLink(links[i].id);
      if t.media.None? || current.None? || current.value.mediaId != links[i].mediaId
         || current.value.itemId != links[i].itemId || current.value.variantId != links[i].variantId { continue; }
      r := r + [current.value];
    }
    assert links[..|links|] == links;
  }

  /** The reply and the further photos, one after the other. */
  method SendMessages(t: Turn, s: Store, links: seq<Link>) returns (r: Option<Store>)
    ensures r == Send(t, s, links, MessageCount(links))
  {
    var tx := s;
    for i := 0 to MessageCount(links)
      invariant Send(t, s, links, i) == Some(tx)
    {
      var next := SendOne(t, tx, links, i);
      if next.None? {
        SendStops(t, s, links, i + 1, MessageCount(links));
        return None;
      }
      tx := next.value;
    }
    return Some(tx);
  }

  lemma {:induction false} SendStops(t: Turn, s: Store, links: seq<Link>, i: nat, n: nat)
    requires i <= n && Send(t, s, links, i).None?
    ensures Send(t, s, links, n).None?
  {
    if i < n { SendStops(t, s, links, i, n - 1); }
  }

  /** The reply part of the transaction. */
  method SendReply(t: Turn, s: Store, d: V.Decision, def: V.Definition, links: seq<Link>) returns (r: Tx)
    ensures r == Reply(t, s, d, def, links)
  {
    if def.human && t.conversation.None? { return Rollback(false); }
    if t.conversation == Some(false) && def.state != "" { return Rollback(false); }
    if !def.sends { return Commit(s, false); }
    if Trim(d.text) == "" || !t.reference { return Rollback(false); }
    var approved := Revalidate(t, links);
    var sent := SendMessages(t, s, approved);
    if sent.None? || !t.executionStored { return Rollback(false); }
    return Commit(sent.value, true);
  }

  /** The body of the transaction, on a copy of the store. */
  method RunTransaction(t: Turn, s: Store, id: string, d: V.Decision, e: V.Effective, links: seq<Link>) returns (r: Tx)
    ensures r == Transact(t, s, id, d, e, links)
    // a decision of a final capability commits exactly when every step of its branch succeeds
    ensures (V.Sells(d.capability) || V.Speaks(d.capability)) && e.capability == d.capability && !e.verdict.Unsupported? ==>
      (r.Commit? <==> StepsSucceed(t, d, e.verdict, EnterExecution(t, s, id).Some?, Approved(t, links)))
    // what a commit may have added, and what it leaves to be completed
    ensures !e.verdict.Unsupported? ==> TxFaithful(t, s, id, e, Approved(t, links), r)
    ensures r.Commit? ==> r.store.usage == s.usage
  {
    if (V.Sells(d.capability) || V.Speaks(d.capability)) && e.capability == d.capability && !e.verdict.Unsupported? {
      TransactIff(t, s, id, d, e, links);
    }
    TransactKeepsUsage(t, s, id, d, e, links);
    if !e.verdict.Unsupported? { TransactMeans(t, s, id, d, e, links); }
    if !t.guardInside.Open? { return Rollback(t.guardInside.Disabled?); }
    var def := V.DefinitionOf(e.capability);
    if !t.decisionStored || def.None? { return Rollback(false); }
    if def.value.sales && !e.verdict.Denied? {
      if !t.salesWired || d.sales.None? || t.context.None? { return Rollback(false); }
      var entered := Some(s);
      if e.verdict.Allowed? {
        entered := EnterExecution(t, s, id);
        if entered.None? { return Rollback(false); }
      }
      return if t.salesDone then Commit(entered.value, false) else Rollback(false);
    }
    if e.verdict.Denied? { return Commit(s, false); }
    if e.verdict.RequiresApproval? {
      return if t.conversation == Some(false) then Rollback(false) else Commit(s, false);
    }
    var entered := EnterExecution(t, s, id);
    if entered.None? { return Rollback(false); }
    r := SendReply(t, entered.value, d, def.value, links);
  }

  /** recordAIUsage. Without a reply only a failing append is reported. */
  method RecordUsage(a: Accounting, enqueued: bool) returns (record: Option<Usage>, failed: bool)
    ensures (record, failed) == Account(a, enqueued)
    // a reply is charged or its error reported, and never both
    ensures Bit(enqueued) == (if record.Some? then record.value.finalReplies else 0) + Bit(enqueued && failed)
    ensures failed ==> record.None?
    // a record is made whenever it can be, with or without a reply
    ensures record.Some? <==> Records(a)
    // an error without a reply is a refused record
    ensures failed && !enqueued <==> AppendRefused(a) && !enqueued
    ensures record.Some? ==> (record.value.input + record.value.cached == a.input <==> a.cached <= a.input)
  {
    AccountTheorem(a, enqueued);
    if !a.usageWired { return None, enqueued; }
    if !a.subscriptionsWired { return None, enqueued; }
    if a.active.None? { return None, enqueued; }
    if !a.active.value { return None, enqueued; }
    var uncached := a.input - a.cached;
    if uncached < 0 { uncached := 0; }
    var replies := 0;
    if enqueued { replies := 1; }
    if !a.appended { return None, true; }
    return Some(Usage(uncached, a.cached, replies, a.priced)), false;
  }

  class AutoReplyService {
    var store: Store

    constructor (store: Store)
      ensures this.store == store
    {
      this.store := store;
    }

    /** From the validation on, for a run that is RUNNING. */
    method Decide(t: Turn, id: string, d: V.Decision) returns (r: Result)
      modifies this
      ensures (store, r) == Judge(t, old(store), id, d, Checking(t, d))
    {
      var validating := TransitionRun(t, store, id, L.Validating);
      if validating.None? { return Quiet(NotValidating); }
      store := validating.value;
      if t.pipeline.None? {
        store := MarkSafe(t, store, id, L.Failed);
        return Quiet(NoPipeline);
      }
      var checked := V.Validate(t.pipeline.value, InputOf(t, d), t.now);
      if checked.Stopped? {
        store := MarkSafe(t, store, id, L.Failed);
        return Quiet(Rejected);
      }
      var e := checked.effective;
      if t.informationalOff && Informational(t, e) { return Quiet(Suppressed); }
      if !Executable(d, e) { return Quiet(Mismatched); }
      r := Execute(t, id, d, e);
    }

    /** The transaction and what follows it. */
    method Execute(t: Turn, id: string, d: V.Decision, e: V.Effective) returns (r: Result)
      modifies this
      ensures (store, r) == Finish(t, old(store), id, d, e)
    {
      var links := [];
      if e.verdict.Allowed? {
        var reply;
        links, reply := SelectReplyMedia(t.media, d);
      }
      var tx := RunTransaction(t, store, id, d, e, links);
      if tx.Rollback? {
        store := MarkSafe(t, store, id, L.Failed);
        return Quiet(RolledBack);
      }
      store := MarkSafe(t, tx.store, id, L.Completed);
      var record, failed := RecordUsage(t.accounting, tx.enqueued);
      if record.Some? { store := store.(usage := store.usage + [record.value]); }
      return Result(Committed, tx.enqueued, failed);
    }

    /** One customer turn. */
    method Handle(t: Turn) returns (r: Result)
      modifies this
      ensures (store, r) == Handled(t, old(store))
      // from a fresh run on, the ports alone decide whether the turn commits and answers
      ensures FreshStart(t, old(store)) ==>
        && (r.exit.Committed? <==> t.valid && t.guard.Open? && Commits(t))
        && (r.exit.RolledBack? <==> t.valid && t.guard.Open? && RollsBack(t))
        && (r.enqueued <==> t.valid && t.guard.Open? && Answers(t))
      ensures Charged(t.accounting, old(store), store, r)
    {
      TurnCharges(t, store);
      if FreshStart(t, store) { OutcomeTheorem(t, store); }
      if !t.valid { return Quiet(Invalid); }
      if t.guard.Disabled? { return Quiet(Skipped); }
      if t.guard.Broken? { return Quiet(GuardFailed); }
      var begun := Begin(t, store);
      store := begun.0;
      if begun.1.None? { return Quiet(StartFailed); }
      var id := begun.1.value;
      if t.built.NotBuilt? {
        store := MarkSafe(t, store, id, L.Failed);
        return Quiet(ContextFailed);
      }
      if t.built.HumanOwned? || !t.guardBeforeModel.Open? {
        var ended := TransitionRun(t, store, id, L.Cancelled);
        if ended.None? { return Quiet(CancelFailed); }
        store := ended.value;
        return Quiet(Cancelled);
      }
      store := MarkSafe(t, store, id, L.ContextBuilt);
      store := MarkSafe(t, store, id, L.Running);
      var d := Proposal(t);
      if d.None? {
        store := MarkSafe(t, store, id, L.Failed);
        return Quiet(ModelFailed);
      }
      r := Decide(t, id, d.value);
    }
  }
}
