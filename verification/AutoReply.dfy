/** One customer turn of the automatic reply: from the guard to the committed messages. */
module AutoReply {
  import opened Text
  import L = RunLifecycle
  import opened EvidenceSet
  import V = ValidationPipeline
  import opened ReplyMedia

  // ---------------------------------------------------------------- what is stored

  /** Rows are identified by the idempotency key of the message they belong to. */
  datatype Outbound = Outbound(key: string, image: Option<string>)
  datatype Entry = Entry(key: string, availableAt: int)
  datatype Usage = Usage(input: int, cached: int, finalReplies: int, priced: bool)

  datatype Store = Store(runs: L.Runs, outbound: seq<Outbound>, messages: seq<string>, outbox: seq<Entry>, usage: seq<Usage>)

  // ---------------------------------------------------------------- one turn

  datatype Guard = Open | Disabled | Broken
  datatype Built = NotBuilt | HumanOwned | Ready
  datatype Kind = OutboundRow | MessageRow | OutboxRow

  /** Token counts of a turn and how the accounting ports answer: whether the usage and the
      subscription repository are wired, the lookup of an active subscription (None: it
      failed), whether the record is written, and whether the cost is known. */
  datatype Accounting = Accounting(
    input: int, cached: int, usageWired: bool, subscriptionsWired: bool, active: Option<bool>, appended: bool, priced: bool)

  /** A command with everything the ports answer during it. */
  datatype Turn = Turn(
    valid: bool, business: string, ref: string, now: int, guard: Guard,
    runsWired: bool, found: Option<string>, newId: string, created: bool, lifecycle: L.Status -> bool,
    built: Built, context: Option<V.Context>, evidence: Evidence, guardBeforeModel: Guard,
    decision: Option<V.Decision>, catalogDecision: Option<V.Decision>,
    pipeline: Option<V.Pipeline>, informationalOff: bool, media: Option<Media>,
    guardInside: Guard, decisionStored: bool, salesWired: bool, salesDone: bool, conversation: Option<bool>,
    reference: bool, freshLink: string -> Option<Link>, encodes: Link -> bool,
    messagesWired: bool, writes: (Kind, string) -> bool, executionStored: bool,
    accounting: Accounting)

  /** How a turn ended. */
  datatype Exit =
    | Invalid | Skipped | GuardFailed | StartFailed | ContextFailed | CancelFailed | Cancelled
    | ModelFailed | NotValidating | Rejected | NoPipeline | Suppressed | Mismatched | RolledBack | Committed

  datatype Result = Result(exit: Exit, enqueued: bool, usageError: bool)

  // ---------------------------------------------------------------- the run of the turn

  /** The key of the reply to a customer message. */
  function ReplyKey(t: Turn): string { "auto-reply:" + t.ref }

  function RunKey(t: Turn): L.RunKey { L.RunKey(t.business, ReplyKey(t)) }

  function CallOf(t: Turn, to: L.Status): L.Call { L.Call(to, t.now, t.lifecycle(to)) }

  /** The Mark…Safe helpers: a failing transition is only logged. */
  function MarkSafe(t: Turn, s: Store, id: string, to: L.Status): Store {
    if t.runsWired then s.(runs := L.Mark(s.runs, id, CallOf(t, to))) else s
  }

  /** transitionRun: a failing transition is an error. */
  function TransitionRun(t: Turn, s: Store, id: string, to: L.Status): Option<Store> {
    if !t.runsWired then Some(s)
    else if id in s.runs && L.Transition(s.runs[id], CallOf(t, to)).Some? then Some(MarkSafe(t, s, id, to))
    else None
  }

  /** AUTHORIZED, then EXECUTING. */
  function EnterExecution(t: Turn, s: Store, id: string): Option<Store> {
    match TransitionRun(t, s, id, L.Authorized)
    case None => None
    case Some(s') => TransitionRun(t, s', id, L.Executing)
  }

  // ---------------------------------------------------------------- the messages

  function Decimal(n: nat): string {
    if n < 10 then [('0' as int + n) as char] else Decimal(n / 10) + Decimal(n % 10)
  }

  /** The key of the reply, or of one of its further photos. */
  function MessageKey(t: Turn, links: seq<Link>, i: nat): string {
    if i == 0 || i >= |links| then ReplyKey(t) else ReplyKey(t) + ":photo:" + Decimal(i) + ":" + links[i].id
  }

  /** The candidates that are still approved inside the transaction. */
  function Approved(t: Turn, links: seq<Link>): seq<Link> {
    if links == [] then []
    else
      var l := links[|links| - 1];
      var current := t.freshLink(l.id);
      Approved(t, links[..|links| - 1])
      + if t.media.Some? && current.Some? && current.value.mediaId == l.mediaId && current.value.itemId == l.itemId
           && current.value.variantId == l.variantId then [current.value] else []
  }

  /** One message: outbound row, message row when wired, outbox entry. */
  function SendOne(t: Turn, s: Store, links: seq<Link>, i: nat): Option<Store> {
    var key := MessageKey(t, links, i);
    if i < |links| && !t.encodes(links[i]) then None
    else if !t.writes(OutboundRow, key) || (t.messagesWired && !t.writes(MessageRow, key)) || !t.writes(OutboxRow, key) then None
    else
      Some(s.(outbound := s.outbound + [Outbound(key, if i < |links| then Some(links[i].id) else None)],
              messages := if t.messagesWired then s.messages + [key] else s.messages,
              outbox := s.outbox + [Entry(key, t.now + 3 * i)]))
  }

  /** The first n messages. */
  function Send(t: Turn, s: Store, links: seq<Link>, n: nat): Option<Store> {
    if n == 0 then Some(s)
    else
      match Send(t, s, links, n - 1)
      case None => None
      case Some(s') => SendOne(t, s', links, n - 1)
  }

  /** The reply, with the first image if there is one, and a message per further image. */
  function MessageCount(links: seq<Link>): nat { if links == [] then 1 else |links| }

  // ---------------------------------------------------------------- the transaction

  datatype Tx = Commit(store: Store, enqueued: bool) | Rollback(disabled: bool)

  function Transact(t: Turn, s: Store, id: string, d: V.Decision, e: V.Effective, links: seq<Link>): Tx {
    var def := V.DefinitionOf(e.capability);
    if !t.guardInside.Open? then Rollback(t.guardInside.Disabled?)
    else if !t.decisionStored || def.None? then Rollback(false)
    else if def.value.sales && !e.verdict.Denied? then
      if !t.salesWired || d.sales.None? || t.context.None? || !t.salesDone then Rollback(false)
      else if e.verdict.Allowed? then
        match EnterExecution(t, s, id)
        case None => Rollback(false)
        case Some(s') => Commit(s', false)
      else Commit(s, false)
    else if e.verdict.Denied? then Commit(s, false)
    else if e.verdict.RequiresApproval? then
      if t.conversation == Some(false) then Rollback(false) else Commit(s, false)
    else
      match EnterExecution(t, s, id)
      case None => Rollback(false)
      case Some(s') => Reply(t, s', d, def.value, links)
  }

  /** The part behind the authorization. */
  function Reply(t: Turn, s: Store, d: V.Decision, def: V.Definition, links: seq<Link>): Tx {
    if def.human && t.conversation.None? then Rollback(false)
    else if t.conversation == Some(false) && def.state != "" then Rollback(false)
    else if !def.sends then Commit(s, false)
    else if Trim(d.text) == "" || !t.reference then Rollback(false)
    else
      var approved := Approved(t, links);
      match Send(t, s, approved, MessageCount(approved))
      case None => Rollback(false)
      case Some(s') => if t.executionStored then Commit(s', true) else Rollback(false)
  }

  // ---------------------------------------------------------------- accounting

  /** recordAIUsage: the record appended, if any, and whether an error is returned. */
  function Account(a: Accounting, enqueued: bool): (Option<Usage>, bool) {
    if !a.usageWired || !a.subscriptionsWired || a.active != Some(true) then (None, enqueued)
    else if !a.appended then (None, true)
    else
      var uncached := a.input - a.cached;
      (Some(Usage(if uncached < 0 then 0 else uncached, a.cached, if enqueued then 1 else 0, a.priced)), false)
  }

  // ---------------------------------------------------------------- Handle

  /** The decision to validate: that of the catalog evaluation if the model asked for one. */
  function Proposal(t: Turn): Option<V.Decision> {
    if t.decision.Some? && t.decision.value.capability.FullCatalog? then t.catalogDecision else t.decision
  }

  function InputOf(t: Turn, d: V.Decision): V.Input { V.Input(d, t.context, t.ref, t.evidence) }

  predicate Informational(t: Turn, e: V.Effective) {
    || e.capability.RespondWithoutAction?
    || (e.capability.Ask? && (t.context.None? || t.context.value.sales.None? || t.context.value.sales.value.active == []))
  }

  function Quiet(exit: Exit): Result { Result(exit, false, false) }

  /** Behind the transaction: the final status, and the accounting of a committed one. */
  function Settle(t: Turn, s: Store, id: string, tx: Tx): (Store, Result) {
    match tx
    case Rollback(_) => (MarkSafe(t, s, id, L.Failed), Quiet(RolledBack))
    case Commit(s', enqueued) =>
      var done := MarkSafe(t, s', id, L.Completed);
      var (record, failed) := Account(t.accounting, enqueued);
      (if record.Some? then done.(usage := done.usage + [record.value]) else done, Result(Committed, enqueued, failed))
  }

  /** The images a reply may carry: chosen only once the decision is allowed. */
  function Candidates(t: Turn, d: V.Decision, e: V.Effective): seq<Link> {
    if e.verdict.Allowed? then Selected(t.media, d) else []
  }

  /** From the transaction on. */
  function Finish(t: Turn, s: Store, id: string, d: V.Decision, e: V.Effective): (Store, Result) {
    Settle(t, s, id, Transact(t, s, id, d, e, Candidates(t, d, e)))
  }

  /** The pipeline's answer to a decision, None when there is no pipeline. */
  ghost function Checking(t: Turn, d: V.Decision): Option<V.Checked> {
    if t.pipeline.None? then None else Some(V.Outcome(t.pipeline.value, InputOf(t, d), t.now))
  }

  /** From the model's answer to the transaction. */
  function Judge(t: Turn, s: Store, id: string, d: V.Decision, c: Option<V.Checked>): (Store, Result) {
    match TransitionRun(t, s, id, L.Validating)
    case None => (s, Quiet(NotValidating))
    case Some(s') =>
      if c.None? then (MarkSafe(t, s', id, L.Failed), Quiet(NoPipeline))
      else
        match c.value
        case Stopped(_) => (MarkSafe(t, s', id, L.Failed), Quiet(Rejected))
        case Passed(e) =>
          if t.informationalOff && Informational(t, e) then (s', Quiet(Suppressed))
          else if !Executable(d, e) then (s', Quiet(Mismatched))
          else Finish(t, s', id, d, e)
  }

  predicate Executable(d: V.Decision, e: V.Effective) {
    V.DefinitionOf(e.capability).Some? && V.DefinitionOf(e.capability).value.terminal && e.capability == d.capability
  }

  /** From the started run to the model's answer. */
  ghost function Run(t: Turn, s: Store, id: string): (Store, Result) {
    if t.built.NotBuilt? then (MarkSafe(t, s, id, L.Failed), Quiet(ContextFailed))
    else if t.built.HumanOwned? || !t.guardBeforeModel.Open? then
      match TransitionRun(t, s, id, L.Cancelled)
      case None => (s, Quiet(CancelFailed))
      case Some(s') => (s', Quiet(Cancelled))
    else
      var s' := MarkSafe(t, MarkSafe(t, s, id, L.ContextBuilt), id, L.Running);
      match Proposal(t)
      case None => (MarkSafe(t, s', id, L.Failed), Quiet(ModelFailed))
      case Some(d) => Judge(t, s', id, d, Checking(t, d))
  }

  /** StartRun, when runs are recorded at all. */
  function Begin(t: Turn, s: Store): (Store, Option<string>) {
    if !t.runsWired then (s, Some(""))
    else
      var (runs, started) := L.Start(s.runs, RunKey(t), t.found, t.newId, t.now, t.created);
      if started.Started? then (s.(runs := runs), Some(started.id)) else (s, None)
  }

  ghost function Handled(t: Turn, s: Store): (Store, Result) {
    if !t.valid then (s, Quiet(Invalid))
    else if t.guard.Disabled? then (s, Quiet(Skipped))
    else if t.guard.Broken? then (s, Quiet(GuardFailed))
    else
      var (s', id) := Begin(t, s);
      if id.None? then (s', Quiet(StartFailed)) else Run(t, s', id.value)
  }
}
