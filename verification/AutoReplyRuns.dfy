/** The runs of all turns together. */
module AutoReplyRuns {
  import opened Text
  import L = RunLifecycle
  import V = ValidationPipeline
  import opened ReplyMedia
  import opened AutoReply
  import opened AutoReplyProofs
  import opened AutoReplyAccounts

  /** At most one open run per customer message. */
  ghost predicate OneOpen(s: Store) { L.OneLive(s.runs) }

  lemma MarkOpen(t: Turn, s: Store, id: string, to: L.Status)
    requires OneOpen(s)
    ensures OneOpen(MarkSafe(t, s, id, to))
    ensures TransitionRun(t, s, id, to).Some? ==> TransitionRun(t, s, id, to).value == MarkSafe(t, s, id, to)
  {
    L.MarkKeepsOneLive(s.runs, id, CallOf(t, to));
  }

  /** A transaction leaves the runs alone or enters the execution. */
  lemma TransactRuns(t: Turn, s: Store, id: string, d: V.Decision, e: V.Effective, links: seq<Link>)
    ensures var tx := Transact(t, s, id, d, e, links);
      tx.Commit? ==> tx.store.runs == s.runs || (EnterExecution(t, s, id).Some? && tx.store.runs == EnterExecution(t, s, id).value.runs)
  {
    var a, entered := Approved(t, links), EnterExecution(t, s, id);
    if entered.Some? { SendAddsMessages(t, entered.value, a, MessageCount(a)); }
  }

  lemma EnterOpen(t: Turn, s: Store, id: string)
    requires OneOpen(s)
    ensures EnterExecution(t, s, id).Some? ==> OneOpen(EnterExecution(t, s, id).value)
  {
    MarkOpen(t, s, id, L.Authorized);
    MarkOpen(t, MarkSafe(t, s, id, L.Authorized), id, L.Executing);
  }

  lemma SettleOpen(t: Turn, s: Store, id: string, tx: Tx)
    requires OneOpen(s) && (tx.Commit? ==> OneOpen(tx.store))
    ensures OneOpen(Settle(t, s, id, tx).0)
  {
    MarkOpen(t, s, id, L.Failed);
    if tx.Commit? { MarkOpen(t, tx.store, id, L.Completed); }
  }

  lemma FinishOpen(t: Turn, s: Store, id: string, d: V.Decision, e: V.Effective)
    requires OneOpen(s)
    ensures OneOpen(Finish(t, s, id, d, e).0)
  {
    EnterOpen(t, s, id);
    TransactRuns(t, s, id, d, e, Candidates(t, d, e));
    SettleOpen(t, s, id, Transact(t, s, id, d, e, Candidates(t, d, e)));
  }

  lemma JudgeOpen(t: Turn, s: Store, id: string, d: V.Decision, c: Option<V.Checked>)
    requires OneOpen(s)
    ensures OneOpen(Judge(t, s, id, d, c).0)
  {
    MarkOpen(t, s, id, L.Validating);
    var v := MarkSafe(t, s, id, L.Validating);
    MarkOpen(t, v, id, L.Failed);
    if c.Some? && c.value.Passed? { FinishOpen(t, v, id, d, c.value.effective); }
  }

  lemma RunOpen(t: Turn, s: Store, id: string)
    requires OneOpen(s)
    ensures OneOpen(Run(t, s, id).0)
  {
    MarkOpen(t, s, id, L.Failed);
    MarkOpen(t, s, id, L.Cancelled);
    MarkOpen(t, s, id, L.ContextBuilt);
    var b := MarkSafe(t, s, id, L.ContextBuilt);
    MarkOpen(t, b, id, L.Running);
    var m := MarkSafe(t, b, id, L.Running);
    MarkOpen(t, m, id, L.Failed);
    if Proposal(t).Some? { JudgeOpen(t, m, id, Proposal(t).value, Answer(t)); }
  }

  /** The repository's unique index of open runs answered this turn. */
  ghost predicate Indexed(t: Turn, s: Store) { L.UniqueIndex(s.runs, RunKey(t), t.newId, t.created) }

  ghost predicate AllIndexed(ts: seq<Turn>, s: Store) {
    ts == [] || (AllIndexed(ts[..|ts| - 1], s) && Indexed(ts[|ts| - 1], StoreAfter(ts[..|ts| - 1], s)))
  }

  lemma TurnOpen(t: Turn, s: Store)
    requires OneOpen(s) && Indexed(t, s)
    ensures OneOpen(Handled(t, s).0)
  {
    var (b, id) := Begin(t, s);
    L.StartKeepsOneLive(s.runs, RunKey(t), t.found, t.newId, t.now, t.created);
    if id.Some? { RunOpen(t, b, id.value); }
  }

  /** Given the index, no customer message has two open runs after any sequence of turns. */
  lemma {:induction false} OneOpenTheorem(ts: seq<Turn>, s: Store)
    requires OneOpen(s) && AllIndexed(ts, s)
    ensures OneOpen(StoreAfter(ts, s))
  {
    if ts != [] {
      OneOpenTheorem(ts[..|ts| - 1], s);
      TurnOpen(ts[|ts| - 1], StoreAfter(ts[..|ts| - 1], s));
    }
  }
}
