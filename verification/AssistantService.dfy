/** The tool loop as it runs: one object whose fields the loop updates in place, proved
    against the functions of `AssistantLoop`. */
module AssistantService {
  import opened Text
  import opened ToolContract
  import opened AssistantLoop
  import opened RecordNames

  class Assistant {
    const setup: Setup
    var messages: seq<Message>
    var known: Known
    var cache: map<string, CacheEntry>
    var seenIds: set<string>
    var links: seq<string>
    var coverages: seq<string>
    var evidenceBytes: nat
    var pinned: string
    ghost var log: seq<Entry>
    ghost var unsent: nat

    ghost function Mem(): Memory
      reads this
    {
      Memory(known, cache, links, coverages, evidenceBytes)
    }

    ghost function Abs(): State
      reads this
    {
      State(messages, Mem(), seenIds, pinned, log, unsent)
    }

    constructor (setup: Setup)
      ensures this.setup == setup && Abs() == Initial(setup)
    {
      this.setup := setup;
      messages := [User(setup.prompt)];
      known := Initial(setup).memory.known;
      cache, seenIds, links, coverages, evidenceBytes, pinned, log, unsent := map[], {}, [], [], 0, "", [], 0;
    }

    method Know(kind: Kind, id: string)
      modifies `known
      ensures known == Remembered(old(known), kind, {id})
    {
      match kind
      case Customer => known := known.(customer := known.customer + {id});
      case Conversation => known := known.(conversation := known.conversation + {id});
      case Transaction => known := known.(transaction := known.transaction + {id});
      case Lead => known := known.(lead := known.lead + {id});
    }

    /** The string IDs of an activity block, empty ones included. */
    method KnowActivity(kind: Kind, rows: seq<Row>)
      modifies `known
      ensures known == Remembered(old(known), kind, Ids(rows))
    {
      for i := 0 to |rows|
        invariant known == Remembered(old(known), kind, Ids(rows[..i]))
      {
        IdsNext(rows, i);
        if rows[i].id.Some? {
          Know(kind, rows[i].id.value);
        }
      }
      assert rows[..|rows|] == rows;
    }

    /** rememberIDs: the sample rows of a listing, and the customers they refer to. */
    method KnowSample(tool: Tool, kind: Kind, rows: seq<Row>)
      modifies `known
      ensures known == Remembered(
                         Remembered(old(known), kind, Ids(rows) - {""}),
                         Customer, if tool.linksCustomers then CustomerIds(rows) - {""} else {})
    {
      ghost var ids, customers: set<string> := {}, {};
      for i := 0 to |rows|
        invariant ids == Ids(rows[..i]) - {""}
        invariant customers == if tool.linksCustomers then CustomerIds(rows[..i]) - {""} else {}
        invariant known == Remembered(Remembered(old(known), kind, ids), Customer, customers)
      {
        IdsNext(rows, i);
        if rows[i].id.Some? && rows[i].id.value != "" {
          Know(kind, rows[i].id.value);
          RememberedNext(old(known), kind, ids, customers, rows[i].id.value);
          ids := ids + {rows[i].id.value};
        }
        if tool.linksCustomers && rows[i].customerId.Some? && rows[i].customerId.value != "" {
          Know(Customer, rows[i].customerId.value);
          RememberedNext(old(known), kind, ids, customers, rows[i].customerId.value);
          customers := customers + {rows[i].customerId.value};
        }
      }
      assert rows[..|rows|] == rows;
    }

    method RememberIds(tool: Tool, rows: Rows)
      modifies `known
      ensures known == Remember(old(known), tool, rows)
      ensures Defined(tool.name) == Some(tool) ==>
        forall kind, id :: id in known.Of(kind) <==> id in old(known).Of(kind) || NamedBy(tool.name, rows, kind, id)
    {
      if Defined(tool.name) == Some(tool) { RememberedByName(known, tool, rows); }
      if tool.source.CustomerActivity? {
        if rows.Activity? {
          KnowActivity(Conversation, rows.conversations);
          KnowActivity(Transaction, rows.transactions);
        }
      } else if tool.finds.Some? && rows.Sample? {
        KnowSample(tool, tool.finds.value, rows.rows);
      }
    }

    /** A call that passed the batch check: verified ID, then cache, then reader. */
    method RunCall(call: Call, tool: Tool, args: Args, o: Outcome) returns (stopped: Option<Error>, entry: Entry)
      modifies `known, `cache, `links, `coverages, `evidenceBytes
      ensures match AnswerCall(old(Mem()), call, tool, args, o)
              case Ok(m, e) => stopped == None && entry == e && Mem() == m
              case Stop(error, e) => stopped == Some(error) && entry == e && Mem() == old(Mem())
    {
      stopped := None;
      var req := Request(call.name, args);
      var signature := Signature(req);
      entry := Entry(call.id, Some(req), None, Failure(UnverifiedRecordReference, tool.kind));
      if tool.kind.Some? && (args.recordId == "" || args.recordId !in known.Of(tool.kind.value)) {
        return;
      }
      if signature in cache {
        var prior := cache[signature];
        var failure := CachedFailure(prior.coverage);
        entry := entry.(body := if failure.Some? then Failure(failure.value, tool.kind) else Cached(prior.callId, prior.coverage));
        return;
      }
      match o
      case Cancelled =>
        stopped, entry := Some(Canceled), Entry(call.id, Some(req), Some(o), Unanswered);
      case Unsanitizable =>
        stopped, entry := Some(InvalidSourceEvidence), Entry(call.id, Some(req), Some(o), Unanswered);
      case Failed(e) =>
        entry := Entry(call.id, Some(req), Some(o), Failure(ErrorCode(e), tool.kind));
        cache := cache[signature := CacheEntry(call.id, CodeText(ErrorCode(e)))];
      case Read(rows, reported, _, encoded) =>
        RememberIds(tool, rows);
        links := links + ReadLinks(tool, req, o);
        if encoded.None? || ByteLen(encoded.value) == 0 || ByteLen(encoded.value) > MAX_READ_EVIDENCE
           || evidenceBytes + ByteLen(encoded.value) > MAX_TOTAL_EVIDENCE {
          entry := Entry(call.id, Some(req), Some(o), Failure(SourceEvidenceIncomplete, tool.kind));
          cache := cache[signature := CacheEntry(call.id, CodeText(SourceEvidenceIncomplete))];
        } else {
          var coverage := CoverageOf(tool, reported);
          evidenceBytes := evidenceBytes + ByteLen(encoded.value);
          coverages := coverages + [coverage];
          entry := Entry(call.id, Some(req), Some(o), Evidence(encoded.value));
          cache := cache[signature := CacheEntry(call.id, coverage)];
        }
    }

    /** The check of the whole batch, before anything runs. */
    method CheckBatch(calls: seq<Call>) returns (idsOk: bool, decoded: seq<Option<Args>>, unsafeBatch: bool)
      modifies `seenIds
      ensures idsOk <==> FreshIds(old(seenIds), calls)
      ensures seenIds == if idsOk then old(seenIds) + CallIds(calls) else old(seenIds)
      ensures idsOk ==> |decoded| == |calls| && (unsafeBatch <==> !SafeBatch(setup.offer, calls))
      ensures idsOk ==> forall i :: 0 <= i < |calls| ==> decoded[i] == Decoded(setup.offer, calls[i])
    {
      decoded, unsafeBatch := [], false;
      var seen := seenIds;
      for i := 0 to |calls|
        invariant seenIds == old(seenIds)
        invariant CheckedTo(setup.offer, seenIds, calls, i, seen, decoded, unsafeBatch)
      {
        var call := calls[i];
        NextId(seenIds, calls, i);
        if call.id == "" || call.id in seen { return false, decoded, unsafeBatch; }
        var args: Option<Args> := None;
        if call.name in setup.offer {
          args := DecodeReadArgs(setup.offer[call.name], call.arguments);
        }
        CheckedNext(setup.offer, seenIds, calls, i, seen, decoded, unsafeBatch, args);
        seen, decoded, unsafeBatch := seen + {call.id}, decoded + [args], unsafeBatch || args.None?;
      }
      assert calls[..|calls|] == calls;
      seenIds := seen;
      return true, decoded, unsafeBatch;
    }

    method RefuseCall(call: Call, args: Option<Args>) returns (entry: Entry)
      requires args == Decoded(setup.offer, call)
      ensures entry == Refusal(setup.offer, call)
    {
      var code := if call.name !in setup.offer then ToolUnavailable
                  else if args.None? then InvalidArguments
                  else BatchRejected;
      entry := Entry(call.id, None, None, Failure(code, None));
    }

    /** The answer to one call of a batch. */
    method AnswerOne(calls: seq<Call>, i: nat, args: Option<Args>, unsafeBatch: bool, o: Outcome)
      returns (stopped: Option<Error>, entry: Entry)
      requires i < |calls| && (unsafeBatch <==> !SafeBatch(setup.offer, calls)) && args == Decoded(setup.offer, calls[i])
      modifies `known, `cache, `links, `coverages, `evidenceBytes
      ensures match AnswerAt(setup.offer, old(Mem()), calls, i, o)
              case Ok(m, e) => stopped == None && entry == e && Mem() == m
              case Stop(error, e) => stopped == Some(error) && entry == e && Mem() == old(Mem())
    {
      if unsafeBatch {
        entry := RefuseCall(calls[i], args);
        return None, entry;
      }
      assert WellFormed(setup.offer, calls[i]);
      stopped, entry := RunCall(calls[i], setup.offer[calls[i].name], args.value, o);
    }

    /** The second loop over a batch: one answer per call. */
    method RunBatch(calls: seq<Call>, decoded: seq<Option<Args>>, unsafeBatch: bool, readers: nat -> Outcome)
      returns (stopped: Option<Error>, entries: seq<Entry>)
      requires |decoded| == |calls| && (unsafeBatch <==> !SafeBatch(setup.offer, calls))
      requires forall i :: 0 <= i < |calls| ==> decoded[i] == Decoded(setup.offer, calls[i])
      modifies `known, `cache, `links, `coverages, `evidenceBytes
      ensures match AnswerCalls(setup.offer, old(Mem()), calls, readers, |calls|)
              case Going(m, es) => stopped == None && entries == es && Mem() == m
              case Stopped(error, m, es) => stopped == Some(error) && entries == es && Mem() == m
    {
      stopped, entries := None, [];
      for i := 0 to |calls|
        invariant stopped == None
        invariant AnswerCalls(setup.offer, old(Mem()), calls, readers, i) == Going(Mem(), entries)
      {
        var entry;
        stopped, entry := AnswerOne(calls, i, decoded[i], unsafeBatch, readers(i));
        entries := entries + [entry];
        if stopped.Some? {
          StoppedStays(setup.offer, old(Mem()), calls, readers, i + 1, |calls|);
          return;
        }
      }
    }

    /** A checked batch: its answers join the transcript, unless a read ends the conversation. */
    method TakeBatch(calls: seq<Call>, decoded: seq<Option<Args>>, unsafeBatch: bool, readers: nat -> Outcome) returns (verdict: Verdict)
      requires |decoded| == |calls| && (unsafeBatch <==> !SafeBatch(setup.offer, calls))
      requires forall i :: 0 <= i < |calls| ==> decoded[i] == Decoded(setup.offer, calls[i])
      modifies `known, `cache, `links, `coverages, `evidenceBytes, `messages, `log, `unsent
      ensures (Abs(), verdict) == CallRound(setup.offer, old(Abs()), calls, readers)
    {
      var stopped, entries := RunBatch(calls, decoded, unsafeBatch, readers);
      if stopped.Some? {
        log, unsent := log + entries, |entries|;
        return Abort(stopped.value);
      }
      messages := messages + [AssistantTurn(calls)];
      messages := messages + Replies(entries);
      log := log + entries;
      return Continue;
    }

    /** One iteration of the loop. */
    method Step(turn: Turn) returns (verdict: Verdict)
      modifies this
      ensures (Abs(), verdict) == Round(setup, old(Abs()), turn)
    {
      if turn.ModelFailed? { return Abort(ModelRouting); }
      if turn.provider == "" || (pinned != "" && pinned != turn.provider) { return Abort(InvalidSourceEvidence); }
      pinned := turn.provider;
      if turn.calls == [] {
        if turn.finish != "stop" { return Abort(InvalidPlan); }
        var answer := Trim(setup.redact(turn.content));
        if answer == "" || ByteLen(answer) > 4000 { return Abort(InvalidSourceEvidence); }
        return Answer(answer, if |links| > 15 then links[..15] else links, coverages);
      }
      if turn.finish != "tool_calls" { return Abort(InvalidPlan); }
      var idsOk, decoded, unsafeBatch := CheckBatch(turn.calls);
      if !idsOk { return Abort(InvalidPlan); }
      verdict := TakeBatch(turn.calls, decoded, unsafeBatch, turn.readers);
    }

    /** assistConversational: loop until the model answers, something aborts, or the caller
        cancels, which is when the given turns run out. */
    method Assist(turns: seq<Turn>) returns (verdict: Verdict)
      modifies this
      ensures (Abs(), verdict) == Converse(setup, old(Abs()), turns)
    {
      var i := 0;
      while i < |turns|
        invariant 0 <= i <= |turns|
        invariant Converse(setup, old(Abs()), turns) == Converse(setup, Abs(), turns[i..])
      {
        assert turns[i..][1..] == turns[i + 1..];
        verdict := Step(turns[i]);
        if !verdict.Continue? { return; }
        i := i + 1;
      }
      return Abort(Canceled);
    }
  }

  // ---------------------------------------------------------------- helpers

  /** One kind of the table gains these IDs. */
  ghost function Remembered(known: Known, kind: Kind, ids: set<string>): Known {
    match kind
    case Customer => known.(customer := known.customer + ids)
    case Conversation => known.(conversation := known.conversation + ids)
    case Transaction => known.(transaction := known.transaction + ids)
    case Lead => known.(lead := known.lead + ids)
  }

  lemma RememberedByName(known: Known, tool: Tool, rows: Rows)
    requires Defined(tool.name) == Some(tool)
    ensures forall kind, id :: id in Remember(known, tool, rows).Of(kind) <==> id in known.Of(kind) || NamedBy(tool.name, rows, kind, id)
  {
    forall kind, id ensures id in Remember(known, tool, rows).Of(kind) <==> id in known.Of(kind) || NamedBy(tool.name, rows, kind, id) {
      DiscoveredIsNamed(tool.name, rows, kind, id);
    }
  }

  lemma RememberedNext(known: Known, kind: Kind, ids: set<string>, customers: set<string>, x: string)
    ensures var both := Remembered(Remembered(known, kind, ids), Customer, customers);
      && Remembered(both, kind, {x}) == Remembered(Remembered(known, kind, ids + {x}), Customer, customers)
      && Remembered(both, Customer, {x}) == Remembered(Remembered(known, kind, ids), Customer, customers + {x})
  {
  }

  ghost function Decoded(offer: Offer, call: Call): Option<Args> {
    if call.name in offer then DecodedArgs(offer[call.name], call.arguments) else None
  }

  lemma IdsNext(rows: seq<Row>, i: nat)
    requires i < |rows|
    ensures Ids(rows[..i + 1]) == Ids(rows[..i]) + (if rows[i].id.Some? then {rows[i].id.value} else {})
    ensures CustomerIds(rows[..i + 1])
         == CustomerIds(rows[..i]) + (if rows[i].customerId.Some? then {rows[i].customerId.value} else {})
  {
    var a, b := rows[..i], rows[..i + 1];
    assert forall j :: 0 <= j < i ==> b[j] == a[j] == rows[j];
    assert b[i] == rows[i];
    forall x | x in Ids(a) ensures x in Ids(b) {
      var j :| 0 <= j < |a| && a[j].id.Some? && a[j].id.value == x;
      assert b[j].id.value == x;
    }
    forall x | x in CustomerIds(a) ensures x in CustomerIds(b) {
      var j :| 0 <= j < |a| && a[j].customerId.Some? && a[j].customerId.value == x;
      assert b[j].customerId.value == x;
    }
  }

  /** The first i calls of a batch are checked. */
  ghost predicate CheckedTo(offer: Offer, before: set<string>, calls: seq<Call>, i: nat,
                            seen: set<string>, decoded: seq<Option<Args>>, unsafeBatch: bool) {
    && i <= |calls| && FreshIds(before, calls[..i]) && seen == before + CallIds(calls[..i])
    && |decoded| == i && (forall j :: 0 <= j < i ==> decoded[j] == Decoded(offer, calls[j]))
    && (unsafeBatch <==> exists j :: 0 <= j < i && !WellFormed(offer, calls[j]))
  }

  lemma CheckedNext(offer: Offer, before: set<string>, calls: seq<Call>, i: nat,
                    seen: set<string>, decoded: seq<Option<Args>>, unsafeBatch: bool, args: Option<Args>)
    requires i < |calls| && CheckedTo(offer, before, calls, i, seen, decoded, unsafeBatch)
    requires calls[i].id != "" && calls[i].id !in seen && args == Decoded(offer, calls[i])
    ensures CheckedTo(offer, before, calls, i + 1, seen + {calls[i].id}, decoded + [args], unsafeBatch || args.None?)
  {
    NextId(before, calls, i);
    assert args.None? <==> !WellFormed(offer, calls[i]);
  }

  lemma NextId(seen: set<string>, calls: seq<Call>, i: nat)
    requires i < |calls|
    ensures CallIds(calls[..i + 1]) == CallIds(calls[..i]) + {calls[i].id}
    ensures FreshIds(seen, calls[..i]) && calls[i].id != "" && calls[i].id !in seen + CallIds(calls[..i])
        ==> FreshIds(seen, calls[..i + 1])
    ensures FreshIds(seen, calls) ==> calls[i].id != "" && calls[i].id !in seen + CallIds(calls[..i])
  {
    var a, b := calls[..i], calls[..i + 1];
    assert forall j :: 0 <= j < i ==> b[j] == a[j] == calls[j];
    assert b[i] == calls[i];
    forall x | x in CallIds(a) ensures x in CallIds(b) {
      var j :| 0 <= j < |a| && a[j].id == x;
      assert b[j].id == x;
    }
    forall j | 0 <= j < i ensures calls[j].id in CallIds(a) {
      assert a[j].id == calls[j].id;
    }
  }

  lemma {:induction false} StoppedStays(offer: Offer, m: Memory, calls: seq<Call>, readers: nat -> Outcome, i: nat, n: nat)
    requires i <= n <= |calls| && AnswerCalls(offer, m, calls, readers, i).Stopped?
    ensures AnswerCalls(offer, m, calls, readers, n) == AnswerCalls(offer, m, calls, readers, i)
  {
    if i < n { StoppedStays(offer, m, calls, readers, i, n - 1); }
  }
}
