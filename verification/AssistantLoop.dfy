/** The merchant assistant's tool loop as a function of what the untrusted model and the
    readers answer. The state is a value; `AssistantService` runs the same loop in place. */
module AssistantLoop {
  import opened Text
  import opened ToolContract

  const MAX_TOTAL_EVIDENCE := 65000
  const MAX_READ_EVIDENCE := 28000

  // ---------------------------------------------------------------- what the ports return

  datatype ReadError = Denied | BadEvidence | BadRequest | OtherFailure

  /** Identifiers in one sample row; None when the row has no such string field. */
  datatype Row = Row(id: Option<string>, customerId: Option<string>)

  datatype Rows = Opaque | Sample(rows: seq<Row>) | Activity(conversations: seq<Row>, transactions: seq<Row>)

  /** What a reader does with a call that reaches it. `encoded` is the JSON of the evidence,
      None when it cannot be encoded. */
  datatype Outcome =
    | Cancelled
    | Unsanitizable
    | Failed(error: ReadError)
    | Read(rows: Rows, reported: string, links: seq<string>, encoded: Option<string>)

  datatype Call = Call(id: string, name: string, arguments: RawArgs)

  /** One answer of the model; `readers(i)` is what the reader of call i would do. */
  datatype Turn =
    | ModelFailed
    | Reply(provider: string, finish: string, content: string, calls: seq<Call>, readers: nat -> Outcome)

  // ---------------------------------------------------------------- the conversation

  datatype Body =
    | Failure(code: Code, kind: Option<Kind>)
    | Cached(previous: string, coverage: string)
    | Evidence(content: string)
    | Unanswered // the reader ran, and what it did ended the conversation

  datatype Message = User(text: string) | AssistantTurn(calls: seq<Call>) | ToolReply(callId: string, body: Body)

  datatype CacheEntry = CacheEntry(callId: string, coverage: string)

  datatype Known = Known(customer: set<string>, conversation: set<string>, transaction: set<string>, lead: set<string>) {
    function Of(kind: Kind): set<string> {
      match kind
      case Customer => customer
      case Conversation => conversation
      case Transaction => transaction
      case Lead => lead
    }
  }

  /** The answer to one call, with the validated request it answers and, when a reader ran,
      what that reader returned. */
  datatype Entry = Entry(callId: string, request: Option<Request>, read: Option<Outcome>, body: Body)

  /** What the loop has learnt from reads. */
  datatype Memory = Memory(
    known: Known,
    cache: map<string, CacheEntry>,
    links: seq<string>,
    coverages: seq<string>,
    evidenceBytes: nat)

  /** `log` records every call that was answered or reached a reader; the last `unsent` entries
      belong to the batch that ended the conversation and are not in the transcript. Both are
      history, the loop never reads them. */
  datatype State = State(
    messages: seq<Message>,
    memory: Memory,
    seenIds: set<string>,
    pinned: string,
    log: seq<Entry>,
    unsent: nat)

  datatype Error = Canceled | ModelRouting | InvalidPlan | InvalidSourceEvidence

  datatype Verdict =
    | Continue
    | Answer(answer: string, links: seq<string>, coverages: seq<string>)
    | Abort(error: Error)

  /** The record open on the merchant's screen, if it names a known kind. */
  datatype Screen = NoRecord | OnScreen(kind: Kind, id: string)

  datatype Setup = Setup(offer: Offer, screen: Screen, prompt: string, redact: string -> string)

  function Initial(s: Setup): State {
    var seen := (kind: Kind) => if s.screen.OnScreen? && s.screen.kind == kind then {s.screen.id} else {};
    var known := Known(seen(Customer), seen(Conversation), seen(Transaction), seen(Lead));
    State([User(s.prompt)], Memory(known, map[], [], [], 0), {}, "", [], 0)
  }

  // ---------------------------------------------------------------- failure codes

  datatype Code =
    | PermissionDenied | SourceEvidenceIncomplete | InvalidArguments | SourceUnavailable
    | ToolUnavailable | BatchRejected | UnverifiedRecordReference

  function ErrorCode(e: ReadError): Code {
    match e
    case Denied => PermissionDenied
    case BadEvidence => SourceEvidenceIncomplete
    case BadRequest => InvalidArguments
    case OtherFailure => SourceUnavailable
  }

  function CodeText(c: Code): string {
    match c
    case PermissionDenied => "permission_denied"
    case SourceEvidenceIncomplete => "source_evidence_incomplete"
    case InvalidArguments => "invalid_arguments"
    case SourceUnavailable => "source_unavailable"
    case ToolUnavailable => "tool_unavailable"
    case BatchRejected => "batch_rejected"
    case UnverifiedRecordReference => "unverified_record_reference"
  }

  /** A cached label that stands for a failed read, not for a coverage. */
  function CachedFailure(coverage: string): Option<Code> {
    if coverage == "source_evidence_incomplete" then Some(SourceEvidenceIncomplete)
    else if coverage == "source_unavailable" then Some(SourceUnavailable)
    else if coverage == "permission_denied" then Some(PermissionDenied)
    else if coverage == "invalid_arguments" then Some(InvalidArguments)
    else None
  }

  /** The labels the discovery and history readers report. */
  predicate IsReportedLabel(coverage: string) {
    coverage in ["bounded_list_not_all_records", "verified_navigation_with_actor_permissions", "dashboard_aggregates",
                 "all_pages_scanned_non_snapshot", "all_authorized_related_pages_scanned_non_snapshot",
                 "specific_verified_transaction_and_customer", "subscription_snapshot", "partial_has_more_pages",
                 "partial_recent_history", "complete_after_checkpoint", "complete_history"]
  }

  function CoverageOf(tool: Tool, reported: string): string {
    match tool.source
    case PublishedReader => "published_matches_only"
    case RecordReader => "single_record_verified"
    case LeadReader => "single_lead_verified"
    case _ => reported
  }

  // ---------------------------------------------------------------- verified record IDs

  function Ids(rows: seq<Row>): set<string> {
    set i | 0 <= i < |rows| && rows[i].id.Some? :: rows[i].id.value
  }

  function CustomerIds(rows: seq<Row>): set<string> {
    set i | 0 <= i < |rows| && rows[i].customerId.Some? :: rows[i].customerId.value
  }

  /** The IDs of one kind that a successful read makes known. */
  function Discovered(tool: Tool, rows: Rows, kind: Kind): set<string> {
    if tool.source.CustomerActivity? then
      if !rows.Activity? then {}
      else if kind.Conversation? then Ids(rows.conversations)
      else if kind.Transaction? then Ids(rows.transactions)
      else {}
    else if !rows.Sample? || tool.finds.None? then {}
    else
      (if tool.finds.value == kind then Ids(rows.rows) - {""} else {})
      + (if tool.linksCustomers && kind.Customer? then CustomerIds(rows.rows) - {""} else {})
  }

  function Remember(known: Known, tool: Tool, rows: Rows): Known {
    Known(known.customer + Discovered(tool, rows, Customer),
          known.conversation + Discovered(tool, rows, Conversation),
          known.transaction + Discovered(tool, rows, Transaction),
          known.lead + Discovered(tool, rows, Lead))
  }

  // ---------------------------------------------------------------- one call

  function Fits(evidenceBytes: nat, encoded: Option<string>): bool {
    encoded.Some? && 0 < ByteLen(encoded.value) <= MAX_READ_EVIDENCE
    && evidenceBytes + ByteLen(encoded.value) <= MAX_TOTAL_EVIDENCE
  }

  datatype Progress = Ok(memory: Memory, entry: Entry) | Stop(error: Error, entry: Entry)

  /** A reader ran and failed, or returned evidence that does not fit. */
  function FailRead(m: Memory, call: Call, tool: Tool, req: Request, o: Outcome, code: Code): Progress {
    Ok(m.(cache := m.cache[Signature(req) := CacheEntry(call.id, CodeText(code))]),
       Entry(call.id, Some(req), Some(o), Failure(code, tool.kind)))
  }

  function ReadLinks(tool: Tool, req: Request, o: Outcome): seq<string>
    requires o.Read?
  {
    match tool.source
    case HistoryReader => ["/chat?conversation_id=" + req.args.recordId]
    case Discovery => o.links
    case CustomerActivity => o.links
    case _ => []
  }

  /** A reader returned: its IDs become known and its links are kept even if the evidence
      then turns out not to fit. */
  function KeepRead(m: Memory, call: Call, tool: Tool, req: Request, o: Outcome): Progress
    requires o.Read?
  {
    var m' := m.(known := Remember(m.known, tool, o.rows), links := m.links + ReadLinks(tool, req, o));
    if !Fits(m.evidenceBytes, o.encoded) then
      FailRead(m', call, tool, req, o, SourceEvidenceIncomplete)
    else
      var coverage := CoverageOf(tool, o.reported);
      Ok(m'.(evidenceBytes := m.evidenceBytes + ByteLen(o.encoded.value),
             coverages := m.coverages + [coverage],
             cache := m.cache[Signature(req) := CacheEntry(call.id, coverage)]),
         Entry(call.id, Some(req), Some(o), Evidence(o.encoded.value)))
  }

  predicate Unverified(m: Memory, tool: Tool, args: Args) {
    tool.kind.Some? && (args.recordId == "" || args.recordId !in m.known.Of(tool.kind.value))
  }

  /** A call that passed the batch check. */
  function AnswerCall(m: Memory, call: Call, tool: Tool, args: Args, o: Outcome): Progress {
    var req := Request(call.name, args);
    if Unverified(m, tool, args) then
      Ok(m, Entry(call.id, Some(req), None, Failure(UnverifiedRecordReference, tool.kind)))
    else if Signature(req) in m.cache then
      var prior := m.cache[Signature(req)];
      var failure := CachedFailure(prior.coverage);
      var body := if failure.Some? then Failure(failure.value, tool.kind) else Cached(prior.callId, prior.coverage);
      Ok(m, Entry(call.id, Some(req), None, body))
    else
      match o
      case Cancelled => Stop(Canceled, Entry(call.id, Some(req), Some(o), Unanswered))
      case Unsanitizable => Stop(InvalidSourceEvidence, Entry(call.id, Some(req), Some(o), Unanswered))
      case Failed(e) => FailRead(m, call, tool, req, o, ErrorCode(e))
      case Read(_, _, _, _) => KeepRead(m, call, tool, req, o)
  }

  // ---------------------------------------------------------------- one batch

  ghost predicate WellFormed(offer: Offer, call: Call) {
    call.name in offer && ArgsAccepted(offer[call.name], call.arguments)
  }

  ghost predicate SafeBatch(offer: Offer, calls: seq<Call>) {
    forall i :: 0 <= i < |calls| ==> WellFormed(offer, calls[i])
  }

  /** Every call of a batch has an ID, and none repeats one of this batch or of the past. */
  ghost predicate FreshIds(seen: set<string>, calls: seq<Call>) {
    && (forall i :: 0 <= i < |calls| ==> calls[i].id != "" && calls[i].id !in seen)
    && (forall i, j :: 0 <= i < j < |calls| ==> calls[i].id != calls[j].id)
  }

  function CallIds(calls: seq<Call>): set<string> {
    set i | 0 <= i < |calls| :: calls[i].id
  }

  ghost function Refusal(offer: Offer, call: Call): Entry {
    var code := if call.name !in offer then ToolUnavailable
                else if !WellFormed(offer, call) then InvalidArguments
                else BatchRejected;
    Entry(call.id, None, None, Failure(code, None))
  }

  /** The answer to call k of a batch. */
  ghost function AnswerAt(offer: Offer, m: Memory, calls: seq<Call>, k: nat, o: Outcome): Progress
    requires k < |calls|
  {
    if SafeBatch(offer, calls) then
      var tool := offer[calls[k].name];
      AnswerCall(m, calls[k], tool, DecodedArgs(tool, calls[k].arguments).value, o)
    else Ok(m, Refusal(offer, calls[k]))
  }

  /** A batch in progress, or ended by its last entry: what is known now and the answers
      given so far. */
  datatype Batch = Going(memory: Memory, entries: seq<Entry>) | Stopped(error: Error, memory: Memory, entries: seq<Entry>)

  /** The answers to the first n calls. */
  ghost function AnswerCalls(offer: Offer, m: Memory, calls: seq<Call>, readers: nat -> Outcome, n: nat): Batch
    requires n <= |calls|
  {
    if n == 0 then Going(m, [])
    else
      var before := AnswerCalls(offer, m, calls, readers, n - 1);
      if before.Stopped? then before
      else Extend(before, AnswerAt(offer, before.memory, calls, n - 1, readers(n - 1)))
  }

  function Extend(before: Batch, r: Progress): Batch {
    match r
    case Ok(m, e) => Going(m, before.entries + [e])
    case Stop(error, e) => Stopped(error, before.memory, before.entries + [e])
  }

  function Replies(entries: seq<Entry>): seq<Message> {
    seq(|entries|, i requires 0 <= i < |entries| => ToolReply(entries[i].callId, entries[i].body))
  }

  /** The assistant turn and one tool message per call join the transcript. */
  function Close(s: State, calls: seq<Call>, m: Memory, entries: seq<Entry>): State {
    s.(messages := s.messages + [AssistantTurn(calls)] + Replies(entries), memory := m, log := s.log + entries)
  }

  function FinalAnswer(setup: Setup, s: State, content: string): Verdict {
    var answer := Trim(setup.redact(content));
    if answer == "" || ByteLen(answer) > 4000 then Abort(InvalidSourceEvidence)
    else Answer(answer, if |s.memory.links| > 15 then s.memory.links[..15] else s.memory.links, s.memory.coverages)
  }

  /** One iteration of the loop. */
  ghost function Round(setup: Setup, s: State, turn: Turn): (State, Verdict) {
    if turn.ModelFailed? then (s, Abort(ModelRouting))
    else if turn.provider == "" || (s.pinned != "" && s.pinned != turn.provider) then (s, Abort(InvalidSourceEvidence))
    else
      var p := s.(pinned := turn.provider);
      if turn.calls == [] then
        (p, if turn.finish != "stop" then Abort(InvalidPlan) else FinalAnswer(setup, p, turn.content))
      else if turn.finish != "tool_calls" || !FreshIds(s.seenIds, turn.calls) then (p, Abort(InvalidPlan))
      else CallRound(setup.offer, p.(seenIds := p.seenIds + CallIds(turn.calls)), turn.calls, turn.readers)
  }

  /** A batch of calls with fresh IDs. */
  ghost function CallRound(offer: Offer, s: State, calls: seq<Call>, readers: nat -> Outcome): (State, Verdict) {
    match AnswerCalls(offer, s.memory, calls, readers, |calls|)
    case Stopped(error, m, entries) => (s.(memory := m, log := s.log + entries, unsent := |entries|), Abort(error))
    case Going(m, entries) => (Close(s, calls, m, entries), Continue)
  }

  /** The loop over the model's answers; when they run out the caller has cancelled. */
  ghost function Converse(setup: Setup, s: State, turns: seq<Turn>): (State, Verdict)
    decreases |turns|
  {
    if turns == [] then (s, Abort(Canceled))
    else
      var (t, verdict) := Round(setup, s, turns[0]);
      if verdict.Continue? then Converse(setup, t, turns[1..]) else (t, verdict)
  }
}
