/** What every conversation keeps, whatever the model asks and whatever the readers return. */
module AssistantProofs {
  import opened Text
  import opened ToolContract
  import opened AssistantLoop

  // ---------------------------------------------------------------- the invariant

  /** Entry p is a successful read whose rows named this ID as a record of this kind. */
  ghost predicate Reveals(offer: Offer, p: Entry, kind: Kind, id: string) {
    && p.request.Some? && p.request.value.name in offer
    && p.read.Some? && p.read.value.Read?
    && id in Discovered(offer[p.request.value.name], p.read.value.rows, kind)
  }

  /** The ID is on the merchant's screen or came from an earlier successful read. */
  ghost predicate Traced(setup: Setup, past: seq<Entry>, kind: Kind, id: string) {
    || setup.screen == OnScreen(kind, id)
    || exists p :: p in past && Reveals(setup.offer, p, kind, id)
  }

  /** Entry p holds the full evidence for a request, under this coverage label. */
  ghost predicate HoldsEvidence(offer: Offer, p: Entry, req: Request, coverage: string) {
    && p.request == Some(req) && req.name in offer
    && p.read.Some? && p.read.value.Read?
    && p.body.Evidence? && p.read.value.encoded == Some(p.body.content)
    && coverage == CoverageOf(offer[req.name], p.read.value.reported)
  }

  /** A reader ran: the request was validated, never read before, and its record is traced. */
  ghost predicate ReadOk(setup: Setup, past: seq<Entry>, e: Entry) {
    && e.request.Some? && ValidRequest(setup.offer, e.request.value)
    && (forall p :: p in past && p.read.Some? ==> p.request != e.request)
    && var tool := setup.offer[e.request.value.name];
       tool.kind.Some? ==> Traced(setup, past, tool.kind.value, e.request.value.args.recordId)
  }

  ghost predicate CachedOk(setup: Setup, past: seq<Entry>, e: Entry)
    requires e.body.Cached?
  {
    && e.request.Some?
    && exists p :: p in past && p.callId == e.body.previous && HoldsEvidence(setup.offer, p, e.request.value, e.body.coverage)
  }

  /** The reader labelled its result outside its fixed vocabulary. */
  predicate Mislabelled(p: Entry) {
    p.read.Some? && p.read.value.Read? && !IsReportedLabel(p.read.value.reported)
  }

  /** A failure given without reading again is the verdict of an earlier read of the request. */
  ghost predicate ReplayOk(past: seq<Entry>, e: Entry) {
    exists p :: p in past && p.read.Some? && p.request == e.request && (p.body == e.body || Mislabelled(p))
  }

  predicate IsReplay(e: Entry) {
    e.request.Some? && e.read.None? && e.body.Failure? && e.body.code != UnverifiedRecordReference
  }

  ghost predicate EvidenceOk(e: Entry)
    requires e.body.Evidence?
  {
    && e.read.Some? && e.read.value.Read? && e.read.value.encoded == Some(e.body.content)
    && 0 < ByteLen(e.body.content) <= MAX_READ_EVIDENCE
  }

  ghost predicate EntryOk(setup: Setup, past: seq<Entry>, e: Entry) {
    && (e.read.Some? ==> ReadOk(setup, past, e))
    && (e.body.Cached? ==> CachedOk(setup, past, e))
    && (e.body.Evidence? ==> EvidenceOk(e))
    && (IsReplay(e) ==> ReplayOk(past, e))
  }

  /** A checked call is refused over its record exactly when the tool takes one and the ID is
      empty or traced nowhere; its reader runs exactly when it is not refused and the same
      request was never read; and what the reader did decides the answer. */
  ghost predicate EntryLaw(setup: Setup, past: seq<Entry>, e: Entry) {
    e.request.Some? ==>
      && e.request.value.name in setup.offer
      && var tool := setup.offer[e.request.value.name];
      && (IsRefusal(e) <==> tool.kind.Some? && Untraced(setup, past, tool.kind.value, e.request.value.args.recordId))
      && (e.read.Some? <==> !IsRefusal(e) && Unread(past, e.request.value))
      && (e.read.Some? ==> OutcomeLaw(tool.kind, EvidenceBytes(past), e.read.value, e.body))
  }

  predicate IsRefusal(e: Entry) { e.read.None? && e.body.Failure? && e.body.code == UnverifiedRecordReference }

  ghost predicate Untraced(setup: Setup, past: seq<Entry>, kind: Kind, id: string) { id == "" || !Traced(setup, past, kind, id) }

  ghost predicate Unread(past: seq<Entry>, req: Request) {
    forall p :: p in past && p.read.Some? ==> p.request != Some(req)
  }

  /** The answer to a read, given the bytes handed out before it. */
  predicate OutcomeLaw(kind: Option<Kind>, bytes: nat, o: Outcome, body: Body) {
    match o
    case Read(_, _, _, encoded) =>
      if encoded.Some? && 1 <= ByteLen(encoded.value) <= 28000 && bytes + ByteLen(encoded.value) <= 65000
      then body == Evidence(encoded.value)
      else body == Failure(SourceEvidenceIncomplete, kind)
    case Failed(Denied) => body == Failure(PermissionDenied, kind)
    case Failed(BadEvidence) => body == Failure(SourceEvidenceIncomplete, kind)
    case Failed(BadRequest) => body == Failure(InvalidArguments, kind)
    case Failed(OtherFailure) => body == Failure(SourceUnavailable, kind)
    case _ => body == Unanswered
  }

  ghost predicate LogOk(setup: Setup, log: seq<Entry>) {
    log == []
    || (var past, e := log[..|log| - 1], log[|log| - 1];
        LogOk(setup, past) && EntryOk(setup, past, e) && EntryLaw(setup, past, e))
  }

  /** A cache line points at the read that filled it. */
  ghost predicate Backed(offer: Offer, p: Entry, signature: string, line: CacheEntry) {
    && p.callId == line.callId && p.read.Some?
    && p.request.Some? && ValidRequest(offer, p.request.value) && Signature(p.request.value) == signature
    && match CachedFailure(line.coverage)
       case Some(code) => p.body == Failure(code, offer[p.request.value.name].kind) || Mislabelled(p)
       case None => HoldsEvidence(offer, p, p.request.value, line.coverage)
  }

  ghost predicate CacheOk(offer: Offer, cache: map<string, CacheEntry>, log: seq<Entry>) {
    && (forall g :: g in cache ==> exists p :: p in log && Backed(offer, p, g, cache[g]))
    && (forall p :: p in log && p.read.Some? ==> p.request.Some? && Signature(p.request.value) in cache)
  }

  ghost predicate KnownOk(setup: Setup, known: Known, log: seq<Entry>) {
    forall kind, id :: id in known.Of(kind) <==> Traced(setup, log, kind, id)
  }

  /** A read that reveals nothing: there was none, or it failed. */
  predicate Silent(e: Entry) { e.read.None? || !e.read.value.Read? }

  function EvidenceBytes(log: seq<Entry>): nat {
    if log == [] then 0
    else
      var e := log[|log| - 1];
      EvidenceBytes(log[..|log| - 1]) + if e.body.Evidence? then ByteLen(e.body.content) else 0
  }

  /** The coverage labels of the evidence given so far, in order. */
  function Labels(offer: Offer, log: seq<Entry>): seq<string> {
    if log == [] then []
    else Labels(offer, log[..|log| - 1]) + LabelOf(offer, log[|log| - 1])
  }

  function LabelOf(offer: Offer, e: Entry): seq<string> {
    if e.body.Evidence? && e.request.Some? && e.request.value.name in offer && e.read.Some? && e.read.value.Read? then
      [CoverageOf(offer[e.request.value.name], e.read.value.reported)]
    else []
  }

  /** The links of the reads that succeeded so far, in order. */
  function LogLinks(offer: Offer, log: seq<Entry>): seq<string> {
    if log == [] then []
    else LogLinks(offer, log[..|log| - 1]) + LinksOf(offer, log[|log| - 1])
  }

  function LinksOf(offer: Offer, e: Entry): seq<string> {
    if e.request.Some? && e.request.value.name in offer && e.read.Some? && e.read.value.Read? then
      ReadLinks(offer[e.request.value.name], e.request.value, e.read.value)
    else []
  }

  ghost predicate MemoryOk(setup: Setup, m: Memory, log: seq<Entry>) {
    && m.coverages == Labels(setup.offer, log)
    && m.links == LogLinks(setup.offer, log)
    && CacheOk(setup.offer, m.cache, log)
    && KnownOk(setup, m.known, log)
    && m.evidenceBytes == EvidenceBytes(log) <= MAX_TOTAL_EVIDENCE
  }

  // ---------------------------------------------------------------- labels

  /** Failure codes never coincide with a success coverage, so a cached failure is always
      told apart from cached evidence. */
  lemma CoverageIsNotFailure(tool: Tool, reported: string)
    requires IsReportedLabel(reported)
    ensures CachedFailure(CoverageOf(tool, reported)).None?
  {
    ReportedIsNotFailure(reported);
  }

  lemma ReportedIsNotFailure(coverage: string)
    requires IsReportedLabel(coverage)
    ensures CachedFailure(coverage).None?
  {
  }

  lemma ReadFailureIsCached(e: ReadError)
    ensures CachedFailure(CodeText(ErrorCode(e))) == Some(ErrorCode(e))
  {
  }

  // ---------------------------------------------------------------- one answer

  /** One more entry traces what it reveals and nothing else. */
  lemma TracedNext(setup: Setup, log: seq<Entry>, e: Entry, kind: Kind, id: string)
    ensures Traced(setup, log + [e], kind, id) <==> Traced(setup, log, kind, id) || Reveals(setup.offer, e, kind, id)
  {
    assert forall p :: p in log + [e] <==> p in log || p == e;
  }

  lemma GrowKnown(setup: Setup, known: Known, log: seq<Entry>, e: Entry)
    requires KnownOk(setup, known, log) && Silent(e)
    ensures KnownOk(setup, known, log + [e])
  {
    forall kind, id ensures id in known.Of(kind) <==> Traced(setup, log + [e], kind, id) {
      TracedNext(setup, log, e, kind, id);
    }
  }

  lemma GrowCache(offer: Offer, cache: map<string, CacheEntry>, log: seq<Entry>, e: Entry)
    requires CacheOk(offer, cache, log) && e.read.None?
    ensures CacheOk(offer, cache, log + [e])
  {
    forall g | g in cache ensures exists p :: p in log + [e] && Backed(offer, p, g, cache[g]) {
      var p :| p in log && Backed(offer, p, g, cache[g]);
      assert p in log + [e];
    }
  }

  /** A read adds the cache line for its own signature. */
  lemma FillCache(offer: Offer, cache: map<string, CacheEntry>, log: seq<Entry>, e: Entry, line: CacheEntry)
    requires CacheOk(offer, cache, log)
    requires e.request.Some? && Backed(offer, e, Signature(e.request.value), line)
    ensures CacheOk(offer, cache[Signature(e.request.value) := line], log + [e])
  {
    var cache' := cache[Signature(e.request.value) := line];
    forall g | g in cache' ensures exists p :: p in log + [e] && Backed(offer, p, g, cache'[g]) {
      if g == Signature(e.request.value) {
        assert e in log + [e];
      } else {
        var p :| p in log && Backed(offer, p, g, cache[g]);
        assert p in log + [e];
      }
    }
  }

  lemma LearnKnown(setup: Setup, known: Known, log: seq<Entry>, e: Entry, tool: Tool)
    requires KnownOk(setup, known, log)
    requires e.request.Some? && e.request.value.name in setup.offer && setup.offer[e.request.value.name] == tool
    requires e.read.Some? && e.read.value.Read?
    ensures KnownOk(setup, Remember(known, tool, e.read.value.rows), log + [e])
  {
    var known' := Remember(known, tool, e.read.value.rows);
    forall kind, id ensures id in known'.Of(kind) <==> Traced(setup, log + [e], kind, id) {
      TracedNext(setup, log, e, kind, id);
      assert id in known'.Of(kind) <==> id in known.Of(kind) || id in Discovered(tool, e.read.value.rows, kind);
    }
  }

  lemma AppendTotals(offer: Offer, log: seq<Entry>, e: Entry)
    ensures EvidenceBytes(log + [e]) == EvidenceBytes(log) + if e.body.Evidence? then ByteLen(e.body.content) else 0
    ensures Labels(offer, log + [e]) == Labels(offer, log) + LabelOf(offer, e)
    ensures LogLinks(offer, log + [e]) == LogLinks(offer, log) + LinksOf(offer, e)
  {
    assert (log + [e])[..|log|] == log;
  }

  /** A validated request that is not cached has never been read. */
  lemma UncachedIsUnread(offer: Offer, cache: map<string, CacheEntry>, log: seq<Entry>, req: Request)
    requires CacheOk(offer, cache, log) && Signature(req) !in cache
    ensures forall p :: p in log && p.read.Some? ==> p.request != Some(req)
  {
  }

  /** A cache hit on a success label is backed by evidence for this very request. */
  lemma HitIsBacked(setup: Setup, m: Memory, log: seq<Entry>, req: Request)
    requires ValidOffer(setup.offer) && CacheOk(setup.offer, m.cache, log)
    requires ValidRequest(setup.offer, req) && Signature(req) in m.cache
    requires CachedFailure(m.cache[Signature(req)].coverage).None?
    ensures exists p :: p in log && p.callId == m.cache[Signature(req)].callId
              && HoldsEvidence(setup.offer, p, req, m.cache[Signature(req)].coverage)
  {
    var line := m.cache[Signature(req)];
    var p :| p in log && Backed(setup.offer, p, Signature(req), line);
    SignatureInjective(setup.offer, p.request.value, req);
    assert HoldsEvidence(setup.offer, p, req, line.coverage);
  }

  /** A cache hit on a failure code repeats the verdict of the read that failed. */
  lemma HitIsReplay(setup: Setup, m: Memory, log: seq<Entry>, req: Request, e: Entry)
    requires ValidOffer(setup.offer) && CacheOk(setup.offer, m.cache, log)
    requires ValidRequest(setup.offer, req) && Signature(req) in m.cache && e.request == Some(req)
    requires CachedFailure(m.cache[Signature(req)].coverage).Some?
    requires e.body == Failure(CachedFailure(m.cache[Signature(req)].coverage).value, setup.offer[req.name].kind)
    ensures ReplayOk(log, e)
  {
    var p :| p in log && Backed(setup.offer, p, Signature(req), m.cache[Signature(req)]);
    SignatureInjective(setup.offer, p.request.value, req);
  }

  lemma QuietAnswer(setup: Setup, m: Memory, log: seq<Entry>, e: Entry)
    requires MemoryOk(setup, m, log) && e.read.None? && !e.body.Evidence?
    ensures MemoryOk(setup, m, log + [e])
  {
    GrowKnown(setup, m.known, log, e);
    GrowCache(setup.offer, m.cache, log, e);
    AppendTotals(setup.offer, log, e);
  }

  lemma FailedReadOk(setup: Setup, m: Memory, known: Known, links: seq<string>, log: seq<Entry>, e: Entry, code: Code)
    requires MemoryOk(setup, m, log) && KnownOk(setup, known, log + [e]) && links == m.links + LinksOf(setup.offer, e)
    requires e.read.Some? && e.request.Some? && ValidRequest(setup.offer, e.request.value)
    requires e.body == Failure(code, setup.offer[e.request.value.name].kind) && CachedFailure(CodeText(code)) == Some(code)
    ensures MemoryOk(setup, m.(known := known, links := links,
              cache := m.cache[Signature(e.request.value) := CacheEntry(e.callId, CodeText(code))]), log + [e])
  {
    FillCache(setup.offer, m.cache, log, e, CacheEntry(e.callId, CodeText(code)));
    AppendTotals(setup.offer, log, e);
  }

  /** The batch-checked call a model made, as the loop sees it. */
  ghost predicate Checked(setup: Setup, call: Call, tool: Tool, args: Args) {
    && call.name in setup.offer && setup.offer[call.name] == tool
    && ValidRequest(setup.offer, Request(call.name, args))
  }

  lemma KeepReadOk(setup: Setup, m: Memory, log: seq<Entry>, call: Call, tool: Tool, args: Args, o: Outcome)
    requires ValidOffer(setup.offer) && Checked(setup, call, tool, args)
    requires MemoryOk(setup, m, log) && o.Read?
    ensures var r := KeepRead(m, call, tool, Request(call.name, args), o);
      r.Ok? && MemoryOk(setup, r.memory, log + [r.entry]) && (r.entry.body.Evidence? ==> EvidenceOk(r.entry))
  {
    var r := KeepRead(m, call, tool, Request(call.name, args), o);
    LearnKnown(setup, m.known, log, r.entry, tool);
    if Fits(m.evidenceBytes, o.encoded) {
      FitsCache(setup, m, log, call, tool, r.entry);
      AppendTotals(setup.offer, log, r.entry);
    } else {
      ReadFailureIsCached(BadEvidence);
      FailedReadOk(setup, m, r.memory.known, r.memory.links, log, r.entry, SourceEvidenceIncomplete);
    }
  }

  lemma FitsCache(setup: Setup, m: Memory, log: seq<Entry>, call: Call, tool: Tool, e: Entry)
    requires e.request.Some? && Checked(setup, call, tool, e.request.value.args) && CacheOk(setup.offer, m.cache, log)
    requires e.callId == call.id && e.request.value.name == call.name
    requires e.read.Some? && e.read.value.Read? && e.body.Evidence? && e.read.value.encoded == Some(e.body.content)
    ensures CacheOk(setup.offer, m.cache[Signature(e.request.value) := CacheEntry(call.id, CoverageOf(tool, e.read.value.reported))],
                    log + [e])
  {
    if IsReportedLabel(e.read.value.reported) { CoverageIsNotFailure(tool, e.read.value.reported); }
    FillCache(setup.offer, m.cache, log, e, CacheEntry(call.id, CoverageOf(tool, e.read.value.reported)));
  }

  /** A reader ran and ended the conversation. */
  predicate Aborts(e: Entry) { e.read.Some? && e.body.Unanswered? }

  /** What an answer must satisfy when it is given after `log`. */
  ghost predicate AnswerCore(setup: Setup, log: seq<Entry>, call: Call, r: Progress) {
    && r.entry.callId == call.id && EntryOk(setup, log, r.entry)
    && (if r.Ok? then MemoryOk(setup, r.memory, log + [r.entry]) else Aborts(r.entry))
  }

  lemma CacheHitOk(setup: Setup, m: Memory, log: seq<Entry>, call: Call, tool: Tool, args: Args, o: Outcome)
    requires ValidOffer(setup.offer) && Checked(setup, call, tool, args)
    requires MemoryOk(setup, m, log)
    requires !Unverified(m, tool, args) && Signature(Request(call.name, args)) in m.cache
    ensures AnswerCore(setup, log, call, AnswerCall(m, call, tool, args, o))
  {
    var req := Request(call.name, args);
    var r := AnswerCall(m, call, tool, args, o);
    if CachedFailure(m.cache[Signature(req)].coverage).None? {
      HitIsBacked(setup, m, log, req);
    } else {
      HitIsReplay(setup, m, log, req, r.entry);
    }
    QuietAnswer(setup, m, log, r.entry);
  }

  lemma FreshReadOk(setup: Setup, m: Memory, log: seq<Entry>, call: Call, tool: Tool, args: Args, o: Outcome)
    requires ValidOffer(setup.offer) && Checked(setup, call, tool, args)
    requires MemoryOk(setup, m, log)
    requires !Unverified(m, tool, args) && Signature(Request(call.name, args)) !in m.cache
    ensures AnswerCore(setup, log, call, AnswerCall(m, call, tool, args, o))
  {
    var r := AnswerCall(m, call, tool, args, o);
    UncachedIsUnread(setup.offer, m.cache, log, Request(call.name, args));
    assert ReadOk(setup, log, r.entry);
    if o.Failed? {
      FailedCallOk(setup, m, log, call, tool, args, o);
    } else if o.Read? {
      KeepReadOk(setup, m, log, call, tool, args, o);
    }
  }

  lemma FailedCallOk(setup: Setup, m: Memory, log: seq<Entry>, call: Call, tool: Tool, args: Args, o: Outcome)
    requires Checked(setup, call, tool, args) && MemoryOk(setup, m, log) && o.Failed?
    ensures var r := FailRead(m, call, tool, Request(call.name, args), o, ErrorCode(o.error));
      r.Ok? && MemoryOk(setup, r.memory, log + [r.entry])
  {
    var r := FailRead(m, call, tool, Request(call.name, args), o, ErrorCode(o.error));
    ReadFailureIsCached(o.error);
    GrowKnown(setup, m.known, log, r.entry);
    FailedReadOk(setup, m, m.known, m.links, log, r.entry, ErrorCode(o.error));
  }

  lemma AnswerCallOk(setup: Setup, m: Memory, log: seq<Entry>, call: Call, tool: Tool, args: Args, o: Outcome)
    requires ValidOffer(setup.offer) && Checked(setup, call, tool, args)
    requires MemoryOk(setup, m, log)
    ensures AnswerCore(setup, log, call, AnswerCall(m, call, tool, args, o))
  {
    if Unverified(m, tool, args) {
      QuietAnswer(setup, m, log, AnswerCall(m, call, tool, args, o).entry);
    } else if Signature(Request(call.name, args)) in m.cache {
      CacheHitOk(setup, m, log, call, tool, args, o);
    } else {
      FreshReadOk(setup, m, log, call, tool, args, o);
    }
  }

  // ---------------------------------------------------------------- one batch

  ghost predicate AnswerOk(setup: Setup, log: seq<Entry>, call: Call, r: Progress) {
    AnswerCore(setup, log, call, r) && EntryLaw(setup, log, r.entry)
  }

  /** A request is in the cache exactly when it was read before. */
  lemma CachedIffRead(setup: Setup, m: Memory, log: seq<Entry>, req: Request)
    requires ValidOffer(setup.offer) && CacheOk(setup.offer, m.cache, log) && ValidRequest(setup.offer, req)
    ensures Signature(req) in m.cache <==> !Unread(log, req)
  {
    if Signature(req) in m.cache {
      var p :| p in log && Backed(setup.offer, p, Signature(req), m.cache[Signature(req)]);
      SignatureInjective(setup.offer, p.request.value, req);
    }
  }

  lemma AnswerCallLaw(setup: Setup, m: Memory, log: seq<Entry>, call: Call, tool: Tool, args: Args, o: Outcome)
    requires ValidOffer(setup.offer) && Checked(setup, call, tool, args) && MemoryOk(setup, m, log)
    ensures EntryLaw(setup, log, AnswerCall(m, call, tool, args, o).entry)
  {
    var req := Request(call.name, args);
    CachedIffRead(setup, m, log, req);
    if Signature(req) in m.cache { CachedCodes(m, req); }
    assert Unverified(m, tool, args) <==> tool.kind.Some? && Untraced(setup, log, tool.kind.value, args.recordId);
  }

  /** No cached failure is a refusal over a record. */
  lemma CachedCodes(m: Memory, req: Request)
    requires Signature(req) in m.cache
    ensures CachedFailure(m.cache[Signature(req)].coverage) != Some(UnverifiedRecordReference)
  {
  }

  lemma AppendLog(setup: Setup, log: seq<Entry>, e: Entry)
    requires LogOk(setup, log) && EntryOk(setup, log, e) && EntryLaw(setup, log, e)
    ensures LogOk(setup, log + [e])
  {
    assert (log + [e])[..|log|] == log;
  }

  lemma AnswerAtOk(setup: Setup, m: Memory, log: seq<Entry>, calls: seq<Call>, k: nat, o: Outcome)
    requires ValidOffer(setup.offer) && k < |calls|
    requires MemoryOk(setup, m, log)
    ensures AnswerOk(setup, log, calls[k], AnswerAt(setup.offer, m, calls, k, o))
  {
    if SafeBatch(setup.offer, calls) {
      assert WellFormed(setup.offer, calls[k]);
      var tool := setup.offer[calls[k].name];
      DecodedShape(tool, calls[k].arguments);
      AnswerCallOk(setup, m, log, calls[k], tool, DecodedArgs(tool, calls[k].arguments).value, o);
      AnswerCallLaw(setup, m, log, calls[k], tool, DecodedArgs(tool, calls[k].arguments).value, o);
    } else {
      QuietAnswer(setup, m, log, Refusal(setup.offer, calls[k]));
    }
  }

  /** The first n answers of a batch, given after `log`. */
  ghost predicate BatchInv(setup: Setup, log: seq<Entry>, calls: seq<Call>, m: Memory, entries: seq<Entry>) {
    && |entries| <= |calls| && (forall i :: 0 <= i < |entries| ==> entries[i].callId == calls[i].id)
    && LogOk(setup, log + entries) && MemoryOk(setup, m, log + entries)
  }

  lemma BatchStep(setup: Setup, log: seq<Entry>, calls: seq<Call>, m: Memory, entries: seq<Entry>, m': Memory, e: Entry)
    requires BatchInv(setup, log, calls, m, entries) && |entries| < |calls|
    requires e.callId == calls[|entries|].id
    requires EntryOk(setup, log + entries, e) && EntryLaw(setup, log + entries, e) && MemoryOk(setup, m', log + entries + [e])
    ensures BatchInv(setup, log, calls, m', entries + [e])
  {
    AppendLog(setup, log + entries, e);
    Regroup(log, entries, e);
  }

  lemma Regroup(log: seq<Entry>, entries: seq<Entry>, e: Entry)
    ensures log + (entries + [e]) == log + entries + [e]
  {
  }

  lemma BatchNext(setup: Setup, log: seq<Entry>, calls: seq<Call>, m: Memory, entries: seq<Entry>, o: Outcome)
    requires ValidOffer(setup.offer) && BatchInv(setup, log, calls, m, entries) && |entries| < |calls|
    ensures BatchResult(setup, log, calls, |entries| + 1, Extend(Going(m, entries), AnswerAt(setup.offer, m, calls, |entries|, o)))
  {
    AnswerAtOk(setup, m, log + entries, calls, |entries|, o);
    var r := AnswerAt(setup.offer, m, calls, |entries|, o);
    if r.Ok? {
      BatchStep(setup, log, calls, m, entries, r.memory, r.entry);
    } else {
      BatchEnds(setup, log, calls, m, entries, r.entry);
    }
  }

  /** The batch was ended by the read of its last entry. */
  ghost predicate BatchEnded(setup: Setup, log: seq<Entry>, calls: seq<Call>, m: Memory, entries: seq<Entry>) {
    && entries != [] && |entries| <= |calls| && (forall i :: 0 <= i < |entries| ==> entries[i].callId == calls[i].id)
    && LogOk(setup, log + entries) && Aborts(entries[|entries| - 1]) && MemoryOk(setup, m, log + entries[..|entries| - 1])
  }

  lemma BatchEnds(setup: Setup, log: seq<Entry>, calls: seq<Call>, m: Memory, entries: seq<Entry>, e: Entry)
    requires BatchInv(setup, log, calls, m, entries) && |entries| < |calls|
    requires e.callId == calls[|entries|].id && EntryOk(setup, log + entries, e) && EntryLaw(setup, log + entries, e) && Aborts(e)
    ensures BatchEnded(setup, log, calls, m, entries + [e])
  {
    AppendLog(setup, log + entries, e);
    Regroup(log, entries, e);
    assert (entries + [e])[..|entries|] == entries;
  }

  ghost predicate BatchResult(setup: Setup, log: seq<Entry>, calls: seq<Call>, n: nat, b: Batch) {
    if b.Going? then |b.entries| == n && BatchInv(setup, log, calls, b.memory, b.entries)
    else BatchEnded(setup, log, calls, b.memory, b.entries)
  }

  lemma {:induction false} BatchOk(setup: Setup, m: Memory, log: seq<Entry>, calls: seq<Call>, readers: nat -> Outcome, n: nat)
    requires ValidOffer(setup.offer) && n <= |calls|
    requires LogOk(setup, log) && MemoryOk(setup, m, log)
    ensures BatchResult(setup, log, calls, n, AnswerCalls(setup.offer, m, calls, readers, n))
  {
    if n == 0 {
      BatchStart(setup, m, log, calls);
    } else {
      BatchOk(setup, m, log, calls, readers, n - 1);
      var before := AnswerCalls(setup.offer, m, calls, readers, n - 1);
      BatchGrows(setup, log, calls, n, before, AnswerCalls(setup.offer, m, calls, readers, n), readers(n - 1));
    }
  }

  lemma BatchStart(setup: Setup, m: Memory, log: seq<Entry>, calls: seq<Call>)
    requires LogOk(setup, log) && MemoryOk(setup, m, log)
    ensures BatchResult(setup, log, calls, 0, Going(m, []))
  {
    assert log + [] == log;
  }

  lemma BatchGrows(setup: Setup, log: seq<Entry>, calls: seq<Call>, n: nat, before: Batch, after: Batch, o: Outcome)
    requires ValidOffer(setup.offer) && 0 < n <= |calls| && BatchResult(setup, log, calls, n - 1, before)
    requires after == if before.Stopped? then before else Extend(before, AnswerAt(setup.offer, before.memory, calls, n - 1, o))
    ensures BatchResult(setup, log, calls, n, after)
  {
    if before.Going? { BatchNext(setup, log, calls, before.memory, before.entries, o); }
  }

  // ---------------------------------------------------------------- the whole conversation

  /** An assistant turn with the answers to its calls, one per call, in call order. */
  datatype Block = Block(calls: seq<Call>, entries: seq<Entry>)

  ghost predicate BlockOk(b: Block) {
    && b.calls != [] && |b.entries| == |b.calls|
    && forall i :: 0 <= i < |b.calls| ==> b.entries[i].callId == b.calls[i].id
  }

  function Render(blocks: seq<Block>): seq<Message> {
    if blocks == [] then []
    else
      var b := blocks[|blocks| - 1];
      Render(blocks[..|blocks| - 1]) + ([AssistantTurn(b.calls)]
      + seq(|b.entries|, i requires 0 <= i < |b.entries| => ToolReply(b.entries[i].callId, b.entries[i].body)))
  }

  function AllEntries(blocks: seq<Block>): seq<Entry> {
    if blocks == [] then [] else AllEntries(blocks[..|blocks| - 1]) + blocks[|blocks| - 1].entries
  }

  /** The transcript is the merchant's message followed by complete blocks. */
  ghost predicate Structured(setup: Setup, messages: seq<Message>, log: seq<Entry>, blocks: seq<Block>) {
    && (forall k :: 0 <= k < |blocks| ==> BlockOk(blocks[k]))
    && messages == [User(setup.prompt)] + Render(blocks)
    && log == AllEntries(blocks)
  }

  ghost predicate DistinctIds(log: seq<Entry>) {
    && (forall i :: 0 <= i < |log| ==> log[i].callId != "")
    && (forall i, j :: 0 <= i < j < |log| ==> log[i].callId != log[j].callId)
  }

  /** The part of the log whose answers are in the transcript. */
  function Sent(s: State): seq<Entry>
    requires s.unsent <= |s.log|
  {
    s.log[..|s.log| - s.unsent]
  }

  /** A conversation that goes on has all its answers in the transcript; one ended by a read
      has that read last in its log. */
  ghost predicate Inv(setup: Setup, s: State) {
    && LogInv(setup, s)
    && s.unsent <= |s.log| && (exists blocks :: Structured(setup, s.messages, Sent(s), blocks))
    && MemoryInv(setup, s.memory, s.log, s.unsent)
  }

  ghost predicate MemoryInv(setup: Setup, m: Memory, log: seq<Entry>, unsent: nat) {
    if unsent == 0 then MemoryOk(setup, m, log)
    else log != [] && Aborts(log[|log| - 1]) && MemoryOk(setup, m, log[..|log| - 1])
  }

  lemma InitialInv(setup: Setup)
    ensures Inv(setup, Initial(setup))
  {
    var s := Initial(setup);
    assert Structured(setup, s.messages, Sent(s), []);
    forall kind, id ensures id in s.memory.known.Of(kind) <==> Traced(setup, s.log, kind, id) {
      assert id in s.memory.known.Of(kind) <==> setup.screen == OnScreen(kind, id);
    }
  }

  lemma AddBlock(setup: Setup, messages: seq<Message>, log: seq<Entry>, blocks: seq<Block>, b: Block)
    requires Structured(setup, messages, log, blocks) && BlockOk(b)
    ensures Structured(setup, messages + [AssistantTurn(b.calls)] + Replies(b.entries), log + b.entries, blocks + [b])
  {
    assert (blocks + [b])[..|blocks|] == blocks;
    assert messages + [AssistantTurn(b.calls)] + Replies(b.entries)
        == [User(setup.prompt)] + (Render(blocks) + ([AssistantTurn(b.calls)] + Replies(b.entries)));
  }

  lemma AddFreshIds(log: seq<Entry>, seen: set<string>, calls: seq<Call>, entries: seq<Entry>)
    requires DistinctIds(log) && (forall i :: 0 <= i < |log| ==> log[i].callId in seen)
    requires FreshIds(seen, calls) && |entries| <= |calls|
    requires forall i :: 0 <= i < |entries| ==> entries[i].callId == calls[i].id
    ensures DistinctIds(log + entries)
    ensures forall i :: 0 <= i < |log + entries| ==> (log + entries)[i].callId in seen + CallIds(calls)
  {
    var all := log + entries;
    assert forall i :: |log| <= i < |all| ==> all[i] == entries[i - |log|];
    forall i | |log| <= i < |all| ensures all[i].callId != "" && all[i].callId in CallIds(calls) && all[i].callId !in seen {
      assert calls[i - |log|].id == all[i].callId;
    }
    forall i, j | 0 <= i < j < |all| ensures all[i].callId != all[j].callId {
      if i >= |log| { assert calls[i - |log|].id != calls[j - |log|].id; }
    }
  }

  lemma Ends(a: seq<Entry>, b: seq<Entry>)
    requires b != []
    ensures var s := a + b; s[..|s| - 1] == a + b[..|b| - 1] && s[..|s| - |b|] == a && s[|s| - 1] == b[|b| - 1]
  {
  }

  /** The log side of the invariant, apart from the transcript. */
  ghost predicate LogInv(setup: Setup, s: State) {
    LogOk(setup, s.log) && DistinctIds(s.log) && forall i :: 0 <= i < |s.log| ==> s.log[i].callId in s.seenIds
  }

  lemma EndedMemory(setup: Setup, log: seq<Entry>, calls: seq<Call>, m: Memory, entries: seq<Entry>)
    requires BatchEnded(setup, log, calls, m, entries)
    ensures MemoryInv(setup, m, log + entries, |entries|)
  {
    Ends(log, entries);
  }

  lemma EndedSent(log: seq<Entry>, entries: seq<Entry>)
    ensures (log + entries)[..|log + entries| - |entries|] == log == log[..|log| - 0]
  {
  }

  lemma EndedInv(setup: Setup, s: State, calls: seq<Call>, m: Memory, entries: seq<Entry>, q: State)
    requires Inv(setup, s) && s.unsent == 0 && FreshIds(s.seenIds, calls) && BatchEnded(setup, s.log, calls, m, entries)
    requires q == State(s.messages, m, s.seenIds + CallIds(calls), q.pinned, s.log + entries, |entries|)
    ensures Inv(setup, q)
  {
    AddFreshIds(s.log, s.seenIds, calls, entries);
    EndedMemory(setup, s.log, calls, m, entries);
    EndedSent(s.log, entries);
    assert LogInv(setup, q) && Sent(q) == Sent(s);
  }

  lemma GoingInv(setup: Setup, s: State, calls: seq<Call>, m: Memory, entries: seq<Entry>, q: State)
    requires Inv(setup, s) && s.unsent == 0 && calls != [] && |entries| == |calls|
    requires FreshIds(s.seenIds, calls) && BatchInv(setup, s.log, calls, m, entries)
    requires q == Close(s.(pinned := q.pinned, seenIds := s.seenIds + CallIds(calls)), calls, m, entries)
    ensures Inv(setup, q)
  {
    AddFreshIds(s.log, s.seenIds, calls, entries);
    GoingStructured(setup, s, Block(calls, entries), q);
    assert LogInv(setup, q);
  }

  lemma GoingStructured(setup: Setup, s: State, b: Block, q: State)
    requires s.unsent == 0 && q.unsent == 0 && BlockOk(b)
    requires exists blocks :: Structured(setup, s.messages, Sent(s), blocks)
    requires q.messages == s.messages + [AssistantTurn(b.calls)] + Replies(b.entries) && q.log == s.log + b.entries
    ensures exists blocks :: Structured(setup, q.messages, Sent(q), blocks)
  {
    assert Sent(s) == s.log && Sent(q) == s.log + b.entries;
    var blocks :| Structured(setup, s.messages, s.log, blocks);
    AddBlock(setup, s.messages, s.log, blocks, b);
  }

  /** The model's answer is a batch of calls that is taken up. */
  ghost predicate Batched(s: State, turn: Turn) {
    && turn.Reply? && turn.provider != "" && (s.pinned == "" || s.pinned == turn.provider)
    && turn.calls != [] && turn.finish == "tool_calls" && FreshIds(s.seenIds, turn.calls)
  }

  lemma PinnedInv(setup: Setup, s: State, pinned: string)
    requires Inv(setup, s)
    ensures Inv(setup, s.(pinned := pinned))
  {
    var q := s.(pinned := pinned);
    assert LogInv(setup, q) && Sent(q) == Sent(s);
  }

  lemma RoundInv(setup: Setup, s: State, turn: Turn)
    requires ValidOffer(setup.offer) && Inv(setup, s) && s.unsent == 0
    ensures Inv(setup, Round(setup, s, turn).0)
    ensures Round(setup, s, turn).1.Continue? ==> Round(setup, s, turn).0.unsent == 0
  {
    var (q, verdict) := Round(setup, s, turn);
    if Batched(s, turn) {
      BatchOk(setup, s.memory, s.log, turn.calls, turn.readers, |turn.calls|);
      var b := AnswerCalls(setup.offer, s.memory, turn.calls, turn.readers, |turn.calls|);
      if b.Going? {
        GoingInv(setup, s, turn.calls, b.memory, b.entries, q);
      } else {
        EndedInv(setup, s, turn.calls, b.memory, b.entries, q);
      }
    } else {
      assert q == s.(pinned := q.pinned);
      PinnedInv(setup, s, q.pinned);
    }
  }

  lemma {:induction false} ConversationInv(setup: Setup, s: State, turns: seq<Turn>)
    requires ValidOffer(setup.offer) && Inv(setup, s) && s.unsent == 0
    ensures Inv(setup, Converse(setup, s, turns).0)
    decreases |turns|
  {
    if turns != [] {
      RoundInv(setup, s, turns[0]);
      var (t, verdict) := Round(setup, s, turns[0]);
      if verdict.Continue? { ConversationInv(setup, t, turns[1..]); }
    }
  }

  /** The state in which a conversation ends, for any model and any readers. */
  ghost function Final(setup: Setup, turns: seq<Turn>): State {
    Converse(setup, Initial(setup), turns).0
  }

  lemma {:induction false} LogOkAt(setup: Setup, log: seq<Entry>, i: nat)
    requires LogOk(setup, log) && i < |log|
    ensures EntryOk(setup, log[..i], log[i]) && EntryLaw(setup, log[..i], log[i])
  {
    if i < |log| - 1 {
      LogOkAt(setup, log[..|log| - 1], i);
      assert log[..|log| - 1][..i] == log[..i];
    }
  }

  lemma CachedAt(setup: Setup, log: seq<Entry>, j: nat) returns (i: nat)
    requires LogOk(setup, log) && j < |log| && log[j].body.Cached?
    ensures i < j && log[i].callId == log[j].body.previous && log[j].request.Some?
    ensures HoldsEvidence(setup.offer, log[i], log[j].request.value, log[j].body.coverage)
  {
    LogOkAt(setup, log, j);
    var p :| p in log[..j] && p.callId == log[j].body.previous
             && HoldsEvidence(setup.offer, p, log[j].request.value, log[j].body.coverage);
    i :| 0 <= i < j && log[..j][i] == p;
  }

  lemma FinalInv(setup: Setup, turns: seq<Turn>)
    requires ValidOffer(setup.offer)
    ensures Inv(setup, Final(setup, turns))
  {
    InitialInv(setup);
    ConversationInv(setup, Initial(setup), turns);
  }

  // ---------------------------------------------------------------- theorems

  /** Every assistant turn is followed by exactly one tool message per call, in call order,
      and no call ID occurs twice in the conversation, a batch that ended it included. */
  lemma TranscriptTheorem(setup: Setup, turns: seq<Turn>) returns (blocks: seq<Block>)
    requires ValidOffer(setup.offer)
    ensures var s := Final(setup, turns);
      s.unsent <= |s.log| && Structured(setup, s.messages, Sent(s), blocks) && DistinctIds(s.log)
  {
    FinalInv(setup, turns);
    var s := Final(setup, turns);
    blocks :| Structured(setup, s.messages, Sent(s), blocks);
  }

  /** A failure answered without reading again repeats the failure of an earlier read of the
      same request, as long as the readers keep to their coverage labels. */
  lemma ReplayTheorem(setup: Setup, turns: seq<Turn>, j: nat) returns (i: nat)
    requires ValidOffer(setup.offer)
    requires j < |Final(setup, turns).log| && IsReplay(Final(setup, turns).log[j])
    requires forall k :: 0 <= k < j ==> !Mislabelled(Final(setup, turns).log[k])
    ensures var log := Final(setup, turns).log;
      i < j && log[i].read.Some? && log[i].request == log[j].request && log[i].body == log[j].body
  {
    FinalInv(setup, turns);
    var log := Final(setup, turns).log;
    LogOkAt(setup, log, j);
    var p :| p in log[..j] && p.read.Some? && p.request == log[j].request && (p.body == log[j].body || Mislabelled(p));
    i :| 0 <= i < j && log[..j][i] == p;
    assert log[i] == p;
  }

  /** Each distinct request reaches a reader at most once per conversation. */
  lemma ReadOnceTheorem(setup: Setup, turns: seq<Turn>, i: nat, j: nat)
    requires ValidOffer(setup.offer)
    requires i < j < |Final(setup, turns).log|
    requires Final(setup, turns).log[i].read.Some? && Final(setup, turns).log[j].read.Some?
    ensures Final(setup, turns).log[i].request != Final(setup, turns).log[j].request
  {
    FinalInv(setup, turns);
    var log := Final(setup, turns).log;
    LogOkAt(setup, log, j);
    assert log[i] == log[..j][i];
  }

  /** One malformed or unavailable call rejects the whole batch: no reader runs, nothing is
      learnt, and every call of the batch is answered with a failure that says whether its
      tool is unavailable, its arguments are malformed, or another call is to blame. */
  lemma {:induction false} RejectedBatchTheorem(offer: Offer, m: Memory, calls: seq<Call>, readers: nat -> Outcome, n: nat)
    requires n <= |calls|
    requires exists i :: 0 <= i < |calls| && !(calls[i].name in offer && ArgsAccepted(offer[calls[i].name], calls[i].arguments))
    ensures var b := AnswerCalls(offer, m, calls, readers, n);
      b.Going? && b.memory == m && |b.entries| == n && forall i :: 0 <= i < n ==> Rejected(offer, calls[i], b.entries[i])
  {
    if n > 0 { RejectedBatchTheorem(offer, m, calls, readers, n - 1); }
  }

  ghost predicate Rejected(offer: Offer, call: Call, e: Entry) {
    && e.callId == call.id && e.request.None? && e.read.None? && e.body.Failure? && e.body.kind.None?
    && (e.body.code == ToolUnavailable <==> call.name !in offer)
    && (e.body.code == InvalidArguments <==> call.name in offer && !ArgsAccepted(offer[call.name], call.arguments))
    && (e.body.code == BatchRejected <==> call.name in offer && ArgsAccepted(offer[call.name], call.arguments))
  }

  /** In any other batch every call that is answered is answered as the request it decodes to. */
  lemma DecodedBatchTheorem(offer: Offer, m: Memory, calls: seq<Call>, readers: nat -> Outcome, n: nat)
    requires n <= |calls|
    requires forall i :: 0 <= i < |calls| ==> calls[i].name in offer && ArgsAccepted(offer[calls[i].name], calls[i].arguments)
    ensures AllDecoded(offer, calls, n, AnswerCalls(offer, m, calls, readers, n))
  {
    assert SafeBatch(offer, calls);
    AnswersDecoded(offer, m, calls, readers, n);
  }

  ghost predicate AllDecoded(offer: Offer, calls: seq<Call>, n: nat, b: Batch) {
    && |b.entries| <= n <= |calls| && (b.Going? ==> |b.entries| == n)
    && forall i :: 0 <= i < |b.entries| ==> AsDecoded(offer, calls[i], b.entries[i])
  }

  lemma {:induction false} AnswersDecoded(offer: Offer, m: Memory, calls: seq<Call>, readers: nat -> Outcome, n: nat)
    requires n <= |calls| && SafeBatch(offer, calls)
    ensures AllDecoded(offer, calls, n, AnswerCalls(offer, m, calls, readers, n))
  {
    if n > 0 {
      AnswersDecoded(offer, m, calls, readers, n - 1);
      var before := AnswerCalls(offer, m, calls, readers, n - 1);
      if before.Going? {
        DecodedAnswer(offer, before.memory, calls, n - 1, readers(n - 1));
        DecodedNext(offer, calls, n, before, AnswerAt(offer, before.memory, calls, n - 1, readers(n - 1)));
      }
    }
  }

  lemma DecodedNext(offer: Offer, calls: seq<Call>, n: nat, before: Batch, r: Progress)
    requires 0 < n <= |calls| && before.Going? && AllDecoded(offer, calls, n - 1, before) && AsDecoded(offer, calls[n - 1], r.entry)
    ensures AllDecoded(offer, calls, n, Extend(before, r))
  {
  }

  lemma DecodedAnswer(offer: Offer, m: Memory, calls: seq<Call>, k: nat, o: Outcome)
    requires SafeBatch(offer, calls) && k < |calls|
    ensures AsDecoded(offer, calls[k], AnswerAt(offer, m, calls, k, o).entry)
  {
    assert WellFormed(offer, calls[k]);
  }

  ghost predicate AsDecoded(offer: Offer, call: Call, e: Entry) {
    && call.name in offer && ArgsAccepted(offer[call.name], call.arguments)
    && e.callId == call.id && e.request == Some(Request(call.name, DecodedArgs(offer[call.name], call.arguments).value))
  }
}
