/** What a conversation may read, what the model is shown and what the merchant is answered,
    stated over the log of calls by tool names and row fields. */
module AssistantLaws {
  import opened Text
  import opened ToolContract
  import opened AssistantLoop
  import opened RecordNames
  import opened AssistantProofs

  // ---------------------------------------------------------------- where an ID comes from

  /** Entry p is a successful read whose rows name this ID as a record of this kind. */
  ghost predicate Names(p: Entry, kind: Kind, id: string) {
    p.request.Some? && p.read.Some? && p.read.value.Read? && NamedBy(p.request.value.name, p.read.value.rows, kind, id)
  }

  /** The ID is on the merchant's screen or was named by an earlier successful read. */
  ghost predicate Seen(screen: Screen, past: seq<Entry>, kind: Kind, id: string) {
    screen == OnScreen(kind, id) || exists p :: p in past && Names(p, kind, id)
  }

  /** Every request in the log is for an offered tool. */
  ghost predicate Offered(offer: Offer, log: seq<Entry>) {
    forall p :: p in log && p.request.Some? ==> p.request.value.name in offer
  }

  lemma RevealsIsNames(offer: Offer, p: Entry, kind: Kind, id: string)
    requires FromTable(offer) && (p.request.Some? ==> p.request.value.name in offer)
    ensures Reveals(offer, p, kind, id) <==> Names(p, kind, id)
  {
    if p.request.Some? && p.read.Some? && p.read.value.Read? {
      DiscoveredIsNamed(p.request.value.name, p.read.value.rows, kind, id);
    }
  }

  lemma TracedIsSeen(setup: Setup, log: seq<Entry>, kind: Kind, id: string)
    requires FromTable(setup.offer) && Offered(setup.offer, log)
    ensures Traced(setup, log, kind, id) <==> Seen(setup.screen, log, kind, id)
  {
    forall p | p in log ensures Reveals(setup.offer, p, kind, id) <==> Names(p, kind, id) {
      RevealsIsNames(setup.offer, p, kind, id);
    }
  }

  lemma FinalLog(setup: Setup, turns: seq<Turn>, n: nat)
    requires FromTable(setup.offer) && n <= |Final(setup, turns).log|
    ensures ValidOffer(setup.offer) && Inv(setup, Final(setup, turns))
    ensures Offered(setup.offer, Final(setup, turns).log[..n])
  {
    TableOfferValid(setup.offer);
    FinalInv(setup, turns);
    var log := Final(setup, turns).log;
    forall p | p in log[..n] && p.request.Some? ensures p.request.value.name in setup.offer {
      var i :| 0 <= i < n && log[..n][i] == p;
      LogOkAt(setup, log, i);
    }
  }

  // ---------------------------------------------------------------- theorems

  /** A checked call is refused over its record exactly when the tool of that name takes a
      record and the ID is empty or neither on the merchant's screen nor named by an earlier
      successful read as a record of that kind; its reader runs exactly when it is not refused
      and the same request was never read. The log holds every reader that ran, also in a
      batch that ended the conversation. */
  lemma ProvenanceTheorem(setup: Setup, turns: seq<Turn>, j: nat)
    requires FromTable(setup.offer)
    requires j < |Final(setup, turns).log| && Final(setup, turns).log[j].request.Some?
    ensures var log := Final(setup, turns).log;
      var req := log[j].request.value;
      var kind := RecordKind(req.name);
      && req.name in setup.offer
      && (IsRefusal(log[j])
          <==> kind.Some? && (req.args.recordId == "" || !Seen(setup.screen, log[..j], kind.value, req.args.recordId)))
      && (log[j].read.Some?
          <==> !IsRefusal(log[j]) && forall i :: 0 <= i < j && log[i].read.Some? ==> log[i].request != log[j].request)
      && (log[j].read.Some? && kind.Some? ==> Seen(setup.screen, log[..j], kind.value, req.args.recordId))
  {
    FinalLog(setup, turns, j);
    var log := Final(setup, turns).log;
    LogOkAt(setup, log, j);
    var req := log[j].request.value;
    TableLaw(req.name);
    if RecordKind(req.name).Some? { TracedIsSeen(setup, log[..j], RecordKind(req.name).value, req.args.recordId); }
    UnreadBefore(log, j, req);
  }

  lemma UnreadBefore(log: seq<Entry>, j: nat, req: Request)
    requires j < |log|
    ensures Unread(log[..j], req) <==> forall i :: 0 <= i < j && log[i].read.Some? ==> log[i].request != Some(req)
  {
    assert forall i :: 0 <= i < j ==> log[i] == log[..j][i] && log[i] in log[..j];
  }

  /** An ID is known at the end exactly when it was on the screen or some read named it. */
  lemma KnownTheorem(setup: Setup, turns: seq<Turn>, kind: Kind, id: string)
    requires FromTable(setup.offer)
    ensures var s := Final(setup, turns); id in s.memory.known.Of(kind) <==> Seen(setup.screen, s.log, kind, id)
  {
    var s := Final(setup, turns);
    FinalLog(setup, turns, |s.log|);
    assert s.log[..|s.log|] == s.log;
    TracedIsSeen(setup, s.log, kind, id);
    KnownIsTraced(setup, s, kind, id);
  }

  lemma KnownIsTraced(setup: Setup, s: State, kind: Kind, id: string)
    requires Inv(setup, s)
    ensures id in s.memory.known.Of(kind) <==> Traced(setup, s.log, kind, id)
  {
    if s.unsent > 0 {
      var init, last := s.log[..|s.log| - 1], s.log[|s.log| - 1];
      LastRead(setup, s);
      assert s.log == init + [last];
      TracedNext(setup, init, last, kind, id);
    }
  }

  /** The read that ended a conversation returned nothing. */
  lemma LastRead(setup: Setup, s: State)
    requires Inv(setup, s) && s.unsent > 0
    ensures s.log != [] && Silent(s.log[|s.log| - 1]) && !s.log[|s.log| - 1].body.Evidence?
    ensures MemoryOk(setup, s.memory, s.log[..|s.log| - 1])
  {
    LastSilent(setup, s.log);
  }

  lemma LastSilent(setup: Setup, log: seq<Entry>)
    requires log != [] && LogOk(setup, log) && Aborts(log[|log| - 1])
    ensures Silent(log[|log| - 1]) && !log[|log| - 1].body.Evidence?
  {
    UnansweredIsSilent(setup, log[..|log| - 1], log[|log| - 1]);
  }

  lemma UnansweredIsSilent(setup: Setup, past: seq<Entry>, e: Entry)
    requires ReadOk(setup, past, e) && EntryLaw(setup, past, e) && Aborts(e)
    ensures Silent(e) && !e.body.Evidence?
  {
  }

  /** What a reader did decides the answer: evidence is shown in full exactly when it is not
      empty and keeps both byte limits, a failure is named by its code and the record kind of
      the tool, and a cancelled or unsanitizable read is not answered. */
  lemma EvidenceTheorem(setup: Setup, turns: seq<Turn>, j: nat)
    requires FromTable(setup.offer)
    requires j < |Final(setup, turns).log| && Final(setup, turns).log[j].read.Some?
    ensures var log := Final(setup, turns).log;
      log[j].request.Some? && OutcomeLaw(RecordKind(log[j].request.value.name), EvidenceBytes(log[..j]), log[j].read.value, log[j].body)
  {
    FinalLog(setup, turns, j);
    var log := Final(setup, turns).log;
    LogOkAt(setup, log, j);
    TableLaw(log[j].request.value.name);
  }

  /** A "cached" reply names an earlier tool message, and that message carries the full
      evidence of a successful read of the same request. */
  lemma CachedTheorem(setup: Setup, turns: seq<Turn>, j: nat) returns (i: nat)
    requires FromTable(setup.offer)
    requires j < |Final(setup, turns).log| && Final(setup, turns).log[j].body.Cached?
    ensures var log := Final(setup, turns).log;
      && i < j && log[i].callId == log[j].body.previous
      && log[i].request == log[j].request && log[i].request.Some?
      && log[i].read.Some? && log[i].read.value.Read?
      && log[i].body.Evidence? && log[i].read.value.encoded == Some(log[i].body.content)
      && log[j].body.coverage == CoverageLabel(log[j].request.value.name, log[i].read.value.reported)
  {
    FinalLog(setup, turns, j);
    var log := Final(setup, turns).log;
    i := CachedAt(setup, log, j);
    CoverageByName(log[j].request.value.name, log[i].read.value.reported);
  }

  // ---------------------------------------------------------------- coverage and links

  /** The coverage labels of the evidence given so far, in order. */
  function Coverages(log: seq<Entry>): seq<string> {
    if log == [] then []
    else
      var e := log[|log| - 1];
      Coverages(log[..|log| - 1])
      + if e.body.Evidence? && e.request.Some? && e.read.Some? && e.read.value.Read?
        then [CoverageLabel(e.request.value.name, e.read.value.reported)] else []
  }

  /** The links of the reads that succeeded so far, in order. */
  function LinkList(log: seq<Entry>): seq<string> {
    if log == [] then []
    else
      var e := log[|log| - 1];
      LinkList(log[..|log| - 1])
      + if e.request.Some? && e.read.Some? && e.read.value.Read? then LinksByName(e.request.value, e.read.value.links) else []
  }

  lemma {:induction false} ListsByName(offer: Offer, log: seq<Entry>)
    requires FromTable(offer) && Offered(offer, log)
    ensures Labels(offer, log) == Coverages(log) && LogLinks(offer, log) == LinkList(log)
  {
    if log != [] {
      var e := log[|log| - 1];
      ListsByName(offer, log[..|log| - 1]);
      if e.request.Some? && e.read.Some? && e.read.value.Read? {
        assert e in log;
        CoverageByName(e.request.value.name, e.read.value.reported);
        LinksAreByName(e.request.value, e.read.value);
      }
    }
  }

  /** The evidence handed to the model stays within 65000 bytes in all and 28000 per read, and
      the coverage labels and links kept for the answer are those of the reads, in order. */
  lemma BudgetTheorem(setup: Setup, turns: seq<Turn>)
    requires FromTable(setup.offer)
    ensures var s := Final(setup, turns);
      && EvidenceBytes(s.log) <= 65000
      && (forall i :: 0 <= i < |s.log| && s.log[i].body.Evidence? ==> ByteLen(s.log[i].body.content) <= 28000)
      && s.memory.coverages == Coverages(s.log) && s.memory.links == LinkList(s.log)
  {
    var s := Final(setup, turns);
    FinalLog(setup, turns, |s.log|);
    assert s.log[..|s.log|] == s.log;
    ListsByName(setup.offer, s.log);
    Totals(setup, s);
    forall i | 0 <= i < |s.log| && s.log[i].body.Evidence? ensures ByteLen(s.log[i].body.content) <= 28000 {
      EvidenceSize(setup, s.log, i);
    }
  }

  lemma EvidenceSize(setup: Setup, log: seq<Entry>, i: nat)
    requires LogOk(setup, log) && i < |log| && log[i].body.Evidence?
    ensures ByteLen(log[i].body.content) <= 28000
  {
    LogOkAt(setup, log, i);
  }

  lemma Totals(setup: Setup, s: State)
    requires Inv(setup, s)
    ensures EvidenceBytes(s.log) <= 65000
    ensures s.memory.coverages == Labels(setup.offer, s.log) && s.memory.links == LogLinks(setup.offer, s.log)
  {
    if s.unsent > 0 {
      LastRead(setup, s);
      AppendTotals(setup.offer, s.log[..|s.log| - 1], s.log[|s.log| - 1]);
      assert s.log == s.log[..|s.log| - 1] + [s.log[|s.log| - 1]];
    }
  }

  // ---------------------------------------------------------------- the answer

  /** A reply of the model without calls, from the provider that answered so far. */
  predicate FinalReply(s: State, turn: Turn) {
    turn.Reply? && turn.provider != "" && (s.pinned == "" || s.pinned == turn.provider) && turn.calls == [] && turn.finish == "stop"
  }

  /** The answer shown to the merchant after these reads, if there is one: the redacted and
      trimmed text, not empty and at most 4000 bytes, the first fifteen links of the reads
      and the coverage labels of the evidence. */
  predicate Shows(setup: Setup, log: seq<Entry>, content: string, verdict: Verdict) {
    var text := Trim(setup.redact(content));
    if 1 <= ByteLen(text) <= 4000 then
      && verdict.Answer? && verdict.answer == text && verdict.coverages == Coverages(log)
      && verdict.links == LinkList(log)[..if |LinkList(log)| < 15 then |LinkList(log)| else 15]
    else verdict == Abort(InvalidSourceEvidence)
  }

  lemma FinalReplyLaw(setup: Setup, s: State, turn: Turn)
    requires FromTable(setup.offer) && Inv(setup, s) && s.unsent == 0 && Offered(setup.offer, s.log) && FinalReply(s, turn)
    ensures Shows(setup, s.log, turn.content, Round(setup, s, turn).1)
  {
    ListsByName(setup.offer, s.log);
  }

  /** Any other turn goes on or ends the conversation without an answer. */
  lemma OtherTurnLaw(setup: Setup, s: State, turn: Turn)
    requires !FinalReply(s, turn)
    ensures !Round(setup, s, turn).1.Answer?
  {
  }

  lemma InvOffered(setup: Setup, s: State)
    requires Inv(setup, s)
    ensures Offered(setup.offer, s.log)
  {
    forall p | p in s.log && p.request.Some? ensures p.request.value.name in setup.offer {
      var i :| 0 <= i < |s.log| && s.log[i] == p;
      LogOkAt(setup, s.log, i);
    }
  }

  /** Turn k is the model's last word after k batches of calls, all from one provider. */
  ghost predicate LastWord(turns: seq<Turn>, k: nat) {
    && k < |turns| && turns[k].Reply? && turns[k].calls == [] && turns[k].finish == "stop" && turns[k].provider != ""
    && forall i :: 0 <= i < k ==>
         turns[i].Reply? && turns[i].calls != [] && turns[i].finish == "tool_calls" && turns[i].provider == turns[k].provider
  }

  /** A conversation that ends with an answer shows the last word of the model, with the links
      and the coverage of all its reads. */
  lemma AnswerTheorem(setup: Setup, turns: seq<Turn>) returns (k: nat)
    requires FromTable(setup.offer) && Converse(setup, Initial(setup), turns).1.Answer?
    ensures LastWord(turns, k)
    ensures Shows(setup, Final(setup, turns).log, turns[k].content, Converse(setup, Initial(setup), turns).1)
  {
    InitialInv(setup);
    TableOfferValid(setup.offer);
    k := AnswerFrom(setup, Initial(setup), turns);
  }

  /** The answer, when there is one, shows the last word of these turns. */
  ghost predicate AnswersWith(setup: Setup, pinned: string, turns: seq<Turn>, end: (State, Verdict), k: nat) {
    && LastWord(turns, k) && (pinned == "" || pinned == turns[k].provider)
    && Shows(setup, end.0.log, turns[k].content, end.1)
  }

  lemma {:induction false} AnswerFrom(setup: Setup, s: State, turns: seq<Turn>) returns (k: nat)
    requires FromTable(setup.offer) && ValidOffer(setup.offer) && Inv(setup, s) && s.unsent == 0
    requires Converse(setup, s, turns).1.Answer?
    ensures AnswersWith(setup, s.pinned, turns, Converse(setup, s, turns), k)
    decreases |turns|
  {
    var (t, verdict) := Round(setup, s, turns[0]);
    if verdict.Continue? {
      RoundInv(setup, s, turns[0]);
      k := AnswerFrom(setup, t, turns[1..]);
      ContinueLaw(setup, s, turns[0]);
      AnswersLater(setup, s.pinned, t.pinned, turns, Converse(setup, t, turns[1..]), k);
      k := k + 1;
    } else {
      k := 0;
      AnswerLaw(setup, s, turns[0]);
    }
  }

  lemma AnswersLater(setup: Setup, before: string, pinned: string, turns: seq<Turn>, end: (State, Verdict), k: nat)
    requires turns != [] && AnswersWith(setup, pinned, turns[1..], end, k) && pinned != ""
    requires turns[0].Reply? && turns[0].calls != [] && turns[0].finish == "tool_calls" && turns[0].provider == pinned
    requires before == "" || before == pinned
    ensures AnswersWith(setup, before, turns, end, k + 1)
  {
    LastWordLater(turns, k);
  }

  lemma AnswerLaw(setup: Setup, s: State, turn: Turn)
    requires FromTable(setup.offer) && Inv(setup, s) && s.unsent == 0 && Round(setup, s, turn).1.Answer?
    ensures FinalReply(s, turn) && Round(setup, s, turn).0.log == s.log
    ensures Shows(setup, s.log, turn.content, Round(setup, s, turn).1)
  {
    if !FinalReply(s, turn) { OtherTurnLaw(setup, s, turn); }
    InvOffered(setup, s);
    FinalReplyLaw(setup, s, turn);
  }

  lemma ContinueLaw(setup: Setup, s: State, turn: Turn)
    requires Round(setup, s, turn).1.Continue?
    ensures turn.Reply? && turn.calls != [] && turn.finish == "tool_calls" && turn.provider != ""
    ensures (s.pinned == "" || s.pinned == turn.provider) && Round(setup, s, turn).0.pinned == turn.provider
  {
  }

  lemma LastWordLater(turns: seq<Turn>, k: nat)
    requires turns != [] && LastWord(turns[1..], k)
    requires turns[0].Reply? && turns[0].calls != [] && turns[0].finish == "tool_calls" && turns[0].provider == turns[k + 1].provider
    ensures LastWord(turns, k + 1)
  {
    var rest := turns[1..];
    assert forall i :: 0 < i <= k + 1 ==> turns[i] == rest[i - 1];
  }
}
