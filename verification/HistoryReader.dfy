/** ConversationHistoryReader.Read, from the state lookup on: the newest public texts after a
    summary checkpoint, with a coverage label that never claims more than was read. */
module HistoryReader {
  import opened Text
  import opened Paging
  import opened MessagePaging

  const PAGE_SIZE := 25
  const MAX_SCANNED := 200
  const MAX_PUBLIC_TEXTS := 16
  const MAX_TEXT_BYTES := 1200
  const MAX_TOTAL_BYTES := 24576

  datatype Coverage = PartialRecentHistory | CompleteAfterCheckpoint | CompleteHistory

  datatype ConversationState = ConversationState(
    businessId: string, conversationId: string, version: int, summary: string, lastMessageId: string, turnCount: int)

  datatype Summary = Summary(text: string, lastCovered: string, turnCount: int, version: int)

  datatype Evidence = Evidence(message: Message, text: string)

  datatype History = History(coverage: Coverage, summary: Option<Summary>, messages: seq<Evidence>)

  datatype Error = Canceled | ReadUnavailable | InvalidSourceEvidence

  datatype Result = Ok(history: History) | Err(error: Error)

  /** The ports: cancellation before page n, the message repository, the two state lookups
      (None when they fail), the sanitizer, the contract checks and the JSON size. */
  datatype Ports = Ports(
    cancelled: nat -> bool,
    source: Source,
    state: Option<ConversationState>,
    latest: Option<ConversationState>,
    sanitize: string -> Option<string>,
    validSummary: Summary -> bool,
    validMessage: Evidence -> bool,
    encodedSize: History -> Option<nat>)

  datatype Request = Request(businessId: string, conversationId: string)

  predicate PublicText(m: Message) {
    m.visibility == "public" && m.contentType == "text" && m.text.Some? && Trim(m.text.value) != ""
  }

  function PublicTexts(ms: seq<Message>): seq<Message> {
    if ms == [] then []
    else PublicTexts(ms[..|ms| - 1]) + if PublicText(ms[|ms| - 1]) then [ms[|ms| - 1]] else []
  }

  predicate Scoped(req: Request, m: Message) {
    m.businessId == req.businessId && m.conversationId == req.conversationId && Trim(m.id) != ""
  }

  // ---------------------------------------------------------------- scanning the pages

  /** Why the scan ended: the checkpoint, a seventeenth public text, or the end of the chat. */
  datatype Stop = Running | AtCheckpoint | AtLimit | AtEnd

  ghost predicate DistinctMessages(ms: seq<Message>) {
    forall i, j :: 0 <= i < j < |ms| ==> ms[i].id != ms[j].id
  }

  function IdSet(ms: seq<Message>): set<string> { set i | 0 <= i < |ms| :: ms[i].id }

  /** `scanned` are the messages examined and kept or skipped, newest first. */
  ghost predicate Scanned(req: Request, checkpoint: string, scanned: seq<Message>, newer: seq<Message>) {
    && newer == PublicTexts(scanned) && |newer| <= MAX_PUBLIC_TEXTS && |scanned| <= MAX_SCANNED
    && DistinctMessages(scanned)
    && forall i :: 0 <= i < |scanned| ==> Scoped(req, scanned[i]) && (checkpoint != "" ==> scanned[i].id != checkpoint)
  }

  /** Message `next` is where the scan stopped. */
  ghost predicate StopsAt(stop: Stop, checkpoint: string, newer: seq<Message>, next: Message) {
    match stop
    case AtCheckpoint => checkpoint != "" && next.id == checkpoint
    case AtLimit => |newer| == 16 && PublicText(next)
    case _ => false
  }

  lemma NextScanned(ms: seq<Message>, m: Message)
    ensures PublicTexts(ms + [m]) == PublicTexts(ms) + if PublicText(m) then [m] else []
    ensures IdSet(ms + [m]) == IdSet(ms) + {m.id}
    ensures DistinctMessages(ms) && m.id !in IdSet(ms) ==> DistinctMessages(ms + [m])
  {
    var all := ms + [m];
    assert all[..|ms|] == ms && all[|ms|] == m;
    forall x | x in IdSet(ms) ensures x in IdSet(all) {
      var i :| 0 <= i < |ms| && ms[i].id == x;
      assert all[i].id == x;
    }
    forall i | 0 <= i < |ms| ensures ms[i].id in IdSet(ms) {}
  }

  /** A conversation the reader has no reason to refuse. */
  ghost predicate WellFormedChat(req: Request, ms: seq<Message>) {
    |ms| <= 200 && DistinctMessages(ms) && forall i :: 0 <= i < |ms| ==> Scoped(req, ms[i])
  }

  lemma UnseenInChat(req: Request, ms: seq<Message>, n: nat)
    requires WellFormedChat(req, ms) && n < |ms|
    ensures Scoped(req, ms[n]) && ms[n].id !in IdSet(ms[..n])
  {
    forall i | 0 <= i < n ensures ms[..n][i].id != ms[n].id { assert ms[i].id != ms[n].id; }
  }

  lemma ChatPrefix(req: Request, ms: seq<Message>, n: nat)
    requires WellFormedChat(req, ms) && n <= |ms|
    ensures WellFormedChat(req, ms[..n])
  {
    var part := ms[..n];
    assert forall i :: 0 <= i < n ==> part[i] == ms[i];
  }

  /** The loop over one page. On Running the whole page was scanned. */
  method ScanItems(req: Request, checkpoint: string, items: seq<Message>, startNewer: seq<Message>, startIds: set<string>,
                   count: nat, ghost before: seq<Message>)
    returns (ok: bool, stop: Stop, newer: seq<Message>, seenIds: set<string>, ghost scanned: seq<Message>)
    requires Scanned(req, checkpoint, before, startNewer) && startIds == IdSet(before) && count == |before|
    ensures ok ==> Scanned(req, checkpoint, scanned, newer) && before <= scanned
    ensures WellFormedChat(req, before + items) ==> ok
    ensures ok ==> stop.Running? || stop.AtCheckpoint? || stop.AtLimit?
    ensures ok && stop.Running? ==> scanned == before + items && seenIds == IdSet(scanned)
    ensures ok && !stop.Running? ==>
      |before| <= |scanned| < |before + items| && scanned == (before + items)[..|scanned|]
      && StopsAt(stop, checkpoint, newer, (before + items)[|scanned|])
  {
    ok, stop, newer, seenIds, scanned := true, Running, startNewer, startIds, before;
    assert before + items[..0] == before;
    for n := 0 to |items|
      invariant ok && stop.Running? && scanned == before + items[..n]
      invariant Scanned(req, checkpoint, scanned, newer) && seenIds == IdSet(scanned)
    {
      var m := items[n];
      assert before + items[..n + 1] == scanned + [m];
      assert (before + items)[|scanned|] == m && (before + items)[..|scanned|] == scanned;
      if count + n + 1 > MAX_SCANNED || !Scoped(req, m) || m.id in seenIds {
        if WellFormedChat(req, before + items) { UnseenInChat(req, before + items, |scanned|); }
        ok := false;
        return;
      }
      NextScanned(scanned, m);
      if checkpoint != "" && m.id == checkpoint {
        stop := AtCheckpoint;
        return;
      }
      if PublicText(m) {
        if |newer| == MAX_PUBLIC_TEXTS {
          stop := AtLimit;
          return;
        }
        newer := newer + [m];
      }
      seenIds := seenIds + {m.id};
      scanned := scanned + [m];
    }
    assert items[..|items|] == items;
  }

  /** The repository faithfully pages a well-formed conversation, 25 messages at a time. */
  ghost predicate Served(cancelled: nat -> bool, source: Source, req: Request, chat: seq<Message>, offset: string -> nat) {
    && (forall n :: !cancelled(n)) && WellFormedChat(req, chat) && Faithful(source, chat, offset)
    && (forall n, c :: source(n, c).Page? ==> |source(n, c).items| <= 25)
  }

  /** What is wrong with the source's answer to the next request. */
  ghost predicate Refused(cancelled: nat -> bool, source: Source, req: Request, visits: seq<Visit<Message>>) {
    var c := NextCursor(visits);
    var page := source(|visits|, c);
    || cancelled(|visits|) || page.LoadFailed? || |page.items| > 25 || (page.items == [] && page.hasMore)
    || !WellFormedChat(req, Delivered(visits) + page.items)
    || (page.hasMore && (page.next == "" || page.next == c || page.next in CursorSet(visits)))
  }

  lemma {:induction false} OffsetsGrow(source: Source, chat: seq<Message>, offset: string -> nat, visits: seq<Visit<Message>>)
    requires Faithful(source, chat, offset) && Followed(source, visits) && !Exhausted(visits)
    ensures forall k :: 0 <= k < |visits| ==> offset(visits[k].cursor) <= offset(NextCursor(visits))
  {
    if visits != [] {
      var last := |visits| - 1;
      var init := visits[..last];
      if last > 0 { assert init[last - 1] == visits[last - 1]; }
      FaithfulNext(source, chat, offset, init);
      OffsetsGrow(source, chat, offset, init);
      assert forall k :: 0 <= k < last ==> visits[k] == init[k];
    }
  }

  /** A served conversation is never refused. */
  lemma ServedNotRefused(cancelled: nat -> bool, source: Source, req: Request, chat: seq<Message>, offset: string -> nat, visits: seq<Visit<Message>>)
    requires Served(cancelled, source, req, chat, offset) && Followed(source, visits) && !Exhausted(visits)
    ensures !Refused(cancelled, source, req, visits)
  {
    FaithfulNext(source, chat, offset, visits);
    var c := NextCursor(visits);
    var page := source(|visits|, c);
    ChatPrefix(req, chat, offset(c) + |page.items|);
    if page.hasMore { NextIsNew(source, chat, offset, visits, page.next); }
  }

  /** A cursor that stands for a later offset has not been used. */
  lemma NextIsNew(source: Source, chat: seq<Message>, offset: string -> nat, visits: seq<Visit<Message>>, next: string)
    requires Faithful(source, chat, offset) && Followed(source, visits) && !Exhausted(visits)
    requires offset(next) > offset(NextCursor(visits))
    ensures next != NextCursor(visits) && next !in CursorSet(visits)
  {
    OffsetsGrow(source, chat, offset, visits);
  }

  /** The scan is between two pages. */
  ghost predicate Between(source: Source, req: Request, checkpoint: string, visits: seq<Visit<Message>>, scanned: seq<Message>,
                          newer: seq<Message>, cursor: string, seenIds: set<string>, seenCursors: set<string>) {
    && Followed(source, visits) && scanned == Delivered(visits) && cursor == NextCursor(visits)
    && (visits != [] ==> visits[|visits| - 1].page.Page? && visits[|visits| - 1].page.hasMore)
    && Scanned(req, checkpoint, scanned, newer) && seenIds == IdSet(scanned) && |visits| <= |scanned|
    && seenCursors <= CursorSet(visits) + {cursor}
  }

  /** One page: the checks on the page as a whole, its messages, and the cursor it hands out. */
  method ScanPage(cancelled: nat -> bool, source: Source, req: Request, checkpoint: string, n: nat, cursor: string, count: nat,
                  startNewer: seq<Message>, startIds: set<string>, seenCursors: set<string>,
                  ghost visits: seq<Visit<Message>>, ghost before: seq<Message>)
    returns (error: Option<Error>, stop: Stop, newer: seq<Message>, seenIds: set<string>, page: Load<Message>, ghost scanned: seq<Message>)
    requires n == |visits| && count == |before| && Between(source, req, checkpoint, visits, before, startNewer, cursor, startIds, seenCursors)
    ensures error.Some? ==> Refused(cancelled, source, req, visits)
    ensures error.None? ==> page.Page? && page == source(n, cursor) && Scanned(req, checkpoint, scanned, newer)
    ensures error.None? && stop.Running? ==> scanned == before + page.items && seenIds == IdSet(scanned)
    ensures error.None? && stop.Running? && page.hasMore ==> page.items != []
    ensures error.None? ==> stop.Running? || stop.AtCheckpoint? || stop.AtLimit?
    ensures error.None? && !stop.Running? ==>
      |scanned| < |before + page.items| && scanned == (before + page.items)[..|scanned|]
      && StopsAt(stop, checkpoint, newer, (before + page.items)[|scanned|])
  {
    stop, newer, seenIds, scanned, page := Running, startNewer, startIds, before, LoadFailed;
    if cancelled(n) { return Some(Canceled), stop, newer, seenIds, page, scanned; }
    page := source(n, cursor);
    if page.LoadFailed? { return Some(ReadUnavailable), stop, newer, seenIds, page, scanned; }
    error := Some(InvalidSourceEvidence);
    if |page.items| > PAGE_SIZE || (page.items == [] && page.hasMore) { return; }
    var ok;
    ok, stop, newer, seenIds, scanned := ScanItems(req, checkpoint, page.items, startNewer, startIds, count, before);
    if !ok { return; }
    if stop.Running? && page.hasMore && (page.next == "" || page.next == cursor || page.next in seenCursors) { return; }
    error := None;
  }

  lemma BetweenNext(source: Source, req: Request, checkpoint: string, visits: seq<Visit<Message>>, scanned: seq<Message>, newer: seq<Message>,
                    cursor: string, seenIds: set<string>, seenCursors: set<string>,
                    page: Load<Message>, scanned': seq<Message>, newer': seq<Message>, seenIds': set<string>)
    requires Between(source, req, checkpoint, visits, scanned, newer, cursor, seenIds, seenCursors)
    requires page.Page? && page.hasMore && page.items != [] && page == source(|visits|, cursor) && scanned' == scanned + page.items
    requires Scanned(req, checkpoint, scanned', newer') && seenIds' == IdSet(scanned')
    ensures Between(source, req, checkpoint, visits + [Visit(cursor, page)], scanned', newer', page.next, seenIds', seenCursors + {page.next})
  {
    AppendVisit(source, visits, Visit(cursor, page));
    AppendCursor(visits, Visit(cursor, page));
  }

  /** The paging loop. `visits` are the pages read and `scanned` the messages examined. */
  method ScanPages(cancelled: nat -> bool, source: Source, req: Request, checkpoint: string)
    returns (error: Option<Error>, stop: Stop, newer: seq<Message>, ghost visits: seq<Visit<Message>>, ghost scanned: seq<Message>)
    ensures Followed(source, visits)
    ensures error.None? ==> |newer| <= 16 && |scanned| <= 200 && Scanned(req, checkpoint, scanned, newer)
    // the messages kept are exactly the public texts among those examined
    ensures error.None? ==> forall m :: m in newer <==>
      (m in scanned && m.visibility == "public" && m.contentType == "text" && m.text.Some? && Trim(m.text.value) != "")
    ensures error.None? && stop.AtEnd? ==> Exhausted(visits) && scanned == Delivered(visits)
    ensures error.None? && !stop.AtEnd? ==>
      |scanned| < |Delivered(visits)| && scanned == Delivered(visits)[..|scanned|]
      && StopsAt(stop, checkpoint, newer, Delivered(visits)[|scanned|])
    ensures error.Some? ==> !Exhausted(visits) && Refused(cancelled, source, req, visits)
  {
    var cursor, seenCursors, seenIds: set<string> := "", {}, {};
    var n, count: nat := 0, 0;
    newer, visits, scanned := [], [], [];
    while true
      invariant n == |visits| && count == |scanned|
      invariant Between(source, req, checkpoint, visits, scanned, newer, cursor, seenIds, seenCursors)
      decreases MAX_SCANNED - n
    {
      ghost var before, start, startNewer, startIds := visits, scanned, newer, seenIds;
      var page;
      error, stop, newer, seenIds, page, scanned :=
        ScanPage(cancelled, source, req, checkpoint, n, cursor, count, newer, seenIds, seenCursors, before, start);
      if error.Some? { return; }
      AppendVisit(source, before, Visit(cursor, page));
      visits := before + [Visit(cursor, page)];
      TextsAre(scanned);
      if !stop.Running? { return; }
      if !page.hasMore {
        stop := AtEnd;
        return;
      }
      BetweenNext(source, req, checkpoint, before, start, startNewer, cursor, startIds, seenCursors, page, scanned, newer, seenIds);
      seenCursors, cursor, count, n := seenCursors + {page.next}, page.next, count + |page.items|, n + 1;
    }
  }

  lemma TextsAre(ms: seq<Message>)
    ensures forall m :: m in PublicTexts(ms) <==> m in ms && PublicText(m)
  {
    AllPublic(ms);
    forall m | m in ms && PublicText(m) ensures m in PublicTexts(ms) {
      var k :| 0 <= k < |ms| && ms[k] == m;
      PublicKept(ms, k);
    }
  }

  // ---------------------------------------------------------------- evidence and budget

  /** sanitizeText: what the sanitizer returns must be text of at most 1200 bytes. */
  function Sanitized(sanitize: string -> Option<string>, text: string): Option<string> {
    match sanitize(text)
    case None => None
    case Some(safe) => if Trim(safe) == "" || ByteLen(safe) > MAX_TEXT_BYTES then None else Some(safe)
  }

  lemma SanitizedIs(sanitize: string -> Option<string>, text: string, safe: string)
    ensures Sanitized(sanitize, text) == Some(safe) <==> sanitize(text) == Some(safe) && Trim(safe) != "" && ByteLen(safe) <= 1200
  {
  }

  /** The chronological evidence for messages given newest first. */
  ghost predicate Chronological(ports: Ports, newer: seq<Message>, es: seq<Evidence>) {
    && |es| == |newer|
    && forall i :: 0 <= i < |es| ==>
         && es[i].message == newer[|newer| - 1 - i] && es[i].message.text.Some?
         && Sanitized(ports.sanitize, es[i].message.text.value) == Some(es[i].text) && ports.validMessage(es[i])
  }

  /** The sanitizer and the contract check accept this message. */
  predicate TextAccepted(ports: Ports, m: Message) {
    && m.text.Some? && Sanitized(ports.sanitize, m.text.value).Some?
    && ports.validMessage(Evidence(m, Sanitized(ports.sanitize, m.text.value).value))
  }

  /** They accept the summary of this state. */
  predicate SummaryAccepted(ports: Ports, s: ConversationState) {
    && Sanitized(ports.sanitize, s.summary).Some?
    && ports.validSummary(Summary(Sanitized(ports.sanitize, s.summary).value, s.lastMessageId, s.turnCount, s.version))
  }

  predicate Fits(size: Option<nat>) { size.Some? && size.value <= 24576 }

  lemma ChronologicalNext(ports: Ports, newer: seq<Message>, i: nat, es: seq<Evidence>, e: Evidence)
    requires i < |newer| && Chronological(ports, newer[i + 1..], es)
    requires e.message == newer[i] && e.message.text.Some?
    requires Sanitized(ports.sanitize, e.message.text.value) == Some(e.text) && ports.validMessage(e)
    ensures Chronological(ports, newer[i..], es + [e])
  {
    var all, rest := newer[i..], newer[i + 1..];
    assert all == [newer[i]] + rest;
    assert forall k :: 0 <= k < |es| ==> (es + [e])[k] == es[k];
  }

  method BuildMessages(ports: Ports, newer: seq<Message>) returns (r: Option<seq<Evidence>>)
    requires forall i :: 0 <= i < |newer| ==> PublicText(newer[i])
    ensures r.Some? ==> Chronological(ports, newer, r.value)
    ensures r.Some? <==> forall i :: 0 <= i < |newer| ==> TextAccepted(ports, newer[i])
  {
    var es: seq<Evidence> := [];
    var i := |newer|;
    while i > 0
      invariant 0 <= i <= |newer| && |es| == |newer| - i
      invariant Chronological(ports, newer[i..], es)
      invariant forall j :: i <= j < |newer| ==> TextAccepted(ports, newer[j])
    {
      i := i - 1;
      var m := newer[i];
      var safe := Sanitized(ports.sanitize, m.text.value);
      if safe.None? || !ports.validMessage(Evidence(m, safe.value)) { return None; }
      ChronologicalNext(ports, newer, i, es, Evidence(m, safe.value));
      es := es + [Evidence(m, safe.value)];
    }
    assert newer[0..] == newer;
    return Some(es);
  }

  lemma {:induction false} AllPublic(ms: seq<Message>)
    ensures forall i :: 0 <= i < |PublicTexts(ms)| ==> PublicText(PublicTexts(ms)[i]) && PublicTexts(ms)[i] in ms
  {
    if ms != [] { AllPublic(ms[..|ms| - 1]); }
  }

  /** A message of the list is shown as evidence. */
  predicate ShownIn(es: seq<Evidence>, m: Message) { exists i :: 0 <= i < |es| && es[i].message == m }

  lemma {:induction false} PublicKept(ms: seq<Message>, k: nat)
    requires k < |ms| && PublicText(ms[k])
    ensures ms[k] in PublicTexts(ms)
  {
    if k < |ms| - 1 { PublicKept(ms[..|ms| - 1], k); }
  }

  lemma KeptShown(ports: Ports, newer: seq<Message>, es: seq<Evidence>, m: Message)
    requires Chronological(ports, newer, es) && m in newer
    ensures ShownIn(es, m)
  {
    var j :| 0 <= j < |newer| && newer[j] == m;
    assert es[|newer| - 1 - j].message == m;
  }

  /** In the list, newest first, x stands behind y. */
  ghost predicate Older(ms: seq<Message>, x: Message, y: Message) {
    forall a, b :: 0 <= a < |ms| && 0 <= b < |ms| && ms[a] == x && ms[b] == y ==> b < a
  }

  lemma {:induction false} PublicInOrder(ms: seq<Message>, i: nat, j: nat)
    requires DistinctMessages(ms) && i < j < |PublicTexts(ms)|
    ensures Older(ms, PublicTexts(ms)[j], PublicTexts(ms)[i])
  {
    var init, last := ms[..|ms| - 1], |ms| - 1;
    AllPublic(init);
    if j < |PublicTexts(init)| {
      PublicInOrder(init, i, j);
      Below(ms, PublicTexts(init)[i]);
      Below(ms, PublicTexts(init)[j]);
      assert forall a :: 0 <= a < last ==> ms[a] == init[a];
    } else {
      Below(ms, PublicTexts(init)[i]);
    }
  }

  /** A message of the list without its last one stands before the last. */
  lemma Below(ms: seq<Message>, m: Message)
    requires ms != [] && DistinctMessages(ms) && m in ms[..|ms| - 1]
    ensures forall a :: 0 <= a < |ms| && ms[a] == m ==> a < |ms| - 1
  {
    var k :| 0 <= k < |ms| - 1 && ms[..|ms| - 1][k] == m;
    assert ms[k].id != ms[|ms| - 1].id;
  }

  /** Only the newest messages of h are left, and no claim of completeness. */
  predicate Shortened(h: History, g: History) {
    && g.coverage.PartialRecentHistory? && g.summary.None? && |g.messages| < |h.messages|
    && g.messages == h.messages[|h.messages| - |g.messages|..]
  }

  /** Histories have sizes, and what is left without messages fits. */
  ghost predicate EmptyFits(encodedSize: History -> Option<nat>, start: History) {
    && (forall h: History :: encodedSize(h).Some?) && Fits(encodedSize(History(PartialRecentHistory, None, [])))
    && (start.messages == [] ==> Fits(encodedSize(start)))
  }

  /** Drops the oldest messages, and any claim of completeness, until the result fits. */
  method FitBudget(encodedSize: History -> Option<nat>, start: History) returns (r: Option<History>)
    ensures r.Some? ==> encodedSize(r.value).Some? && encodedSize(r.value).value <= MAX_TOTAL_BYTES
    ensures r.Some? ==> r.value == start || Shortened(start, r.value)
    ensures encodedSize(start).Some? && encodedSize(start).value <= MAX_TOTAL_BYTES ==> r == Some(start)
    ensures EmptyFits(encodedSize, start) ==> r.Some?
  {
    var h, size := start, encodedSize(start);
    var dropped := 0;
    if size.None? { return None; }
    while size.value > MAX_TOTAL_BYTES && h.messages != []
      invariant 0 <= dropped <= |start.messages| && h.messages == start.messages[dropped..] && size.Some? && size == encodedSize(h)
      invariant dropped == 0 ==> h == start
      invariant dropped > 0 ==> h.coverage.PartialRecentHistory? && h.summary.None?
      invariant dropped > 0 ==> encodedSize(start).value > MAX_TOTAL_BYTES
      decreases |h.messages|
    {
      h := History(PartialRecentHistory, None, h.messages[1..]);
      dropped := dropped + 1;
      size := encodedSize(h);
      if size.None? { return None; }
    }
    if size.value > MAX_TOTAL_BYTES { return None; }
    return Some(h);
  }

  // ---------------------------------------------------------------- the reader

  predicate ConsistentState(req: Request, s: ConversationState) {
    && s.businessId == req.businessId && s.conversationId == req.conversationId && s.version > 0
    && (s.summary != "" <==> s.lastMessageId != "")
  }

  /** What a returned history guarantees about the conversation it was read from. */
  ghost predicate Truthful(ports: Ports, req: Request, h: History, visits: seq<Visit<Message>>, scanned: seq<Message>, all: seq<Evidence>) {
    && ports.state.Some? && Followed(ports.source, visits)
    && Scanned(req, ports.state.value.lastMessageId, scanned, PublicTexts(scanned))
    && scanned <= Delivered(visits)
    // the messages are the newest ones of the chronological evidence, all of it if complete
    && Chronological(ports, PublicTexts(scanned), all)
    && Newest(h.messages, all)
    && LabelTrue(ports, h, visits, scanned, all)
    // a summary accompanies only a complete delta of an unchanged state
    && (h.summary.Some? ==> h.coverage.CompleteAfterCheckpoint? && SummaryOf(ports, h.summary.value))
  }

  predicate Newest(messages: seq<Evidence>, all: seq<Evidence>) {
    |messages| <= |all| && messages == all[|all| - |messages|..]
  }

  /** The coverage label says what was read. */
  ghost predicate LabelTrue(ports: Ports, h: History, visits: seq<Visit<Message>>, scanned: seq<Message>, all: seq<Evidence>)
    requires ports.state.Some?
  {
    match h.coverage
    case CompleteAfterCheckpoint => h.messages == all && ReachesCheckpoint(ports.state.value.lastMessageId, visits, scanned)
    case CompleteHistory =>
      h.messages == all && ports.state.value.lastMessageId == "" && Exhausted(visits) && scanned == Delivered(visits)
    // partial means that a public text really was left out
    case PartialRecentHistory => |h.messages| < |all| || (|all| == MAX_PUBLIC_TEXTS && AnotherText(visits, scanned))
  }

  ghost predicate AnotherText(visits: seq<Visit<Message>>, scanned: seq<Message>) {
    |scanned| < |Delivered(visits)| && PublicText(Delivered(visits)[|scanned|])
  }

  predicate SummaryOf(ports: Ports, s: Summary)
    requires ports.state.Some?
  {
    var state := ports.state.value;
    && ports.latest == ports.state && Sanitized(ports.sanitize, state.summary) == Some(s.text)
    && s.lastCovered == state.lastMessageId && s.turnCount == state.turnCount && s.version == state.version
  }

  ghost predicate ReachesCheckpoint(checkpoint: string, visits: seq<Visit<Message>>, scanned: seq<Message>) {
    checkpoint != "" && |scanned| < |Delivered(visits)| && Delivered(visits)[|scanned|].id == checkpoint
  }

  /** A checkpoint the reader will meet: there is none, or it is one of the messages. */
  ghost predicate CheckpointInReach(checkpoint: string, chat: seq<Message>) {
    checkpoint == "" || exists i :: 0 <= i < |chat| && chat[i].id == checkpoint
  }

  ghost predicate Readable(ports: Ports, req: Request, chat: seq<Message>, offset: string -> nat) {
    && Served(ports.cancelled, ports.source, req, chat, offset)
    && ports.state.Some? && ConsistentState(req, ports.state.value) && ports.latest == ports.state
    && CheckpointInReach(ports.state.value.lastMessageId, chat)
    && Acceptable(ports, chat) && Encodes(ports)
  }

  /** Nothing objects to the public texts of this conversation, nor to its summary. */
  ghost predicate Acceptable(ports: Ports, chat: seq<Message>)
    requires ports.state.Some?
  {
    && (forall i :: 0 <= i < |chat| && PublicText(chat[i]) ==> TextAccepted(ports, chat[i]))
    && (ports.state.value.summary != "" ==> SummaryAccepted(ports, ports.state.value))
  }

  /** Histories have a JSON size, and without messages, with no summary but that of the state,
      they fit the budget. */
  ghost predicate Encodes(ports: Ports)
    requires ports.state.Some?
  {
    && (forall h: History :: ports.encodedSize(h).Some?)
    && (forall h: History :: h.messages == [] && (h.summary.Some? ==> SummaryOf(ports, h.summary.value)) ==> Fits(ports.encodedSize(h)))
  }

  /** Such conversations exist, with a sanitizer that rejects empty and very long texts. */
  lemma ReadableExists() returns (ports: Ports, req: Request, chat: seq<Message>, offset: string -> nat)
    ensures Readable(ports, req, chat, offset) && |chat| == 1 && PublicText(chat[0])
    ensures forall t :: t == "" || ByteLen(t) > 4800 ==> ports.sanitize(t).None?
  {
    var m := Message("m", "b", "c", None, "public", "text", Some("hi"), "inbound", "customer", 0);
    chat, req, offset := [m], Request("b", "c"), _ => 0;
    var state := Some(ConversationState("b", "c", 1, "", "", 0));
    ports := Ports(_ => false, (_, _) => Page([m], false, ""), state, state,
                   t => if t == "" || ByteLen(t) > 4800 then None else Some(t),
                   _ => true, _ => true, (h: History) => Some(|h.messages|));
    assert "hi"[..1] == "h" && !IsSpace('h') && !IsSpace('i');
    assert Trim("hi") == "hi" && "hi"[1..] == "i" && ByteLen("i"[1..]) == 0 && ByteLen("hi") == 2;
    assert !IsSpace('m') && Trim("m") == "m";
  }

  lemma NewerAccepted(ports: Ports, req: Request, chat: seq<Message>, offset: string -> nat, visits: seq<Visit<Message>>, scanned: seq<Message>)
    requires Readable(ports, req, chat, offset) && Followed(ports.source, visits) && scanned <= Delivered(visits)
    ensures forall i :: 0 <= i < |PublicTexts(scanned)| ==> TextAccepted(ports, PublicTexts(scanned)[i])
  {
    FaithfulDelivery(ports.source, chat, offset, visits);
    AllPublic(scanned);
    assert scanned <= chat;
    forall i | 0 <= i < |PublicTexts(scanned)| ensures TextAccepted(ports, PublicTexts(scanned)[i]) {
      var k :| 0 <= k < |scanned| && scanned[k] == PublicTexts(scanned)[i];
      assert chat[k] == scanned[k];
    }
  }

  /** A readable chat does not end before its checkpoint. */
  lemma NoMissedCheckpoint(ports: Ports, req: Request, chat: seq<Message>, offset: string -> nat,
                           visits: seq<Visit<Message>>, newer: seq<Message>)
    requires Readable(ports, req, chat, offset) && Followed(ports.source, visits) && Exhausted(visits)
    requires Scanned(req, ports.state.value.lastMessageId, Delivered(visits), newer)
    ensures ports.state.value.lastMessageId == ""
  {
    FaithfulDelivery(ports.source, chat, offset, visits);
  }

  function CoverageAt(stop: Stop): Coverage {
    if stop.AtLimit? then PartialRecentHistory else if stop.AtCheckpoint? then CompleteAfterCheckpoint else CompleteHistory
  }

  /** The summary that accompanies a complete delta; ok is false when it is refused. */
  method BuildSummary(ports: Ports, stop: Stop) returns (ok: bool, summary: Option<Summary>)
    requires ports.state.Some?
    ensures ok && summary.Some? ==> !stop.AtLimit? && ports.state.value.summary != ""
    ensures ok && summary.Some? && ports.latest == ports.state ==> SummaryOf(ports, summary.value)
    ensures ok && ports.state.value.summary != "" && !stop.AtLimit? ==> summary.Some?
    ensures ok <==> (ports.state.value.summary != "" && !stop.AtLimit? ==> SummaryAccepted(ports, ports.state.value))
  {
    ok, summary := true, None;
    var state := ports.state.value;
    if state.summary != "" && !stop.AtLimit? {
      var safe := Sanitized(ports.sanitize, state.summary);
      if safe.None? { return false, None; }
      summary := Some(Summary(safe.value, state.lastMessageId, state.turnCount, state.version));
      ok := ports.validSummary(summary.value);
    }
  }

  /** Dropping the oldest messages, with the claims, keeps a true label true. */
  lemma FittedLabel(ports: Ports, h: History, g: History, visits: seq<Visit<Message>>, scanned: seq<Message>)
    requires ports.state.Some? && LabelTrue(ports, h, visits, scanned, h.messages) && (g == h || Shortened(h, g))
    ensures Newest(g.messages, h.messages) && LabelTrue(ports, g, visits, scanned, h.messages)
  {
  }

  method ReadTruthfully(ports: Ports, req: Request, ghost chat: seq<Message>, ghost offset: string -> nat)
    returns (r: Result, ghost visits: seq<Visit<Message>>, ghost scanned: seq<Message>, ghost all: seq<Evidence>)
    ensures r.Ok? ==> Truthful(ports, req, r.history, visits, scanned, all)
    ensures r.Ok? ==> ports.encodedSize(r.history).Some? && ports.encodedSize(r.history).value <= MAX_TOTAL_BYTES
    // a well-formed conversation that nothing objects to is never refused
    ensures Readable(ports, req, chat, offset) ==> r.Ok?
  {
    visits, scanned, all := [], [], [];
    r := Err(ReadUnavailable);
    if ports.state.None? { return; }
    var state := ports.state.value;
    r := Err(InvalidSourceEvidence);
    if !ConsistentState(req, state) { return; }
    var error, stop, newer;
    error, stop, newer, visits, scanned := ScanPages(ports.cancelled, ports.source, req, state.lastMessageId);
    if error.Some? {
      if Readable(ports, req, chat, offset) { ServedNotRefused(ports.cancelled, ports.source, req, chat, offset, visits); }
      r := Err(error.value);
      return;
    }
    if state.lastMessageId != "" && stop.AtEnd? {
      if Readable(ports, req, chat, offset) { NoMissedCheckpoint(ports, req, chat, offset, visits, newer); }
      return;
    }
    r, all := BuildHistory(ports, req, stop, newer, visits, scanned, chat, offset);
  }

  /** How far the scan came, by the reason why it ended. */
  ghost predicate Ended(ports: Ports, req: Request, stop: Stop, newer: seq<Message>, visits: seq<Visit<Message>>, scanned: seq<Message>)
    requires ports.state.Some?
  {
    && Followed(ports.source, visits) && Scanned(req, ports.state.value.lastMessageId, scanned, newer) && scanned <= Delivered(visits)
    && match stop
       case Running => false
       case AtEnd => ports.state.value.lastMessageId == "" && Exhausted(visits) && scanned == Delivered(visits)
       case AtCheckpoint => ReachesCheckpoint(ports.state.value.lastMessageId, visits, scanned)
       case AtLimit => |newer| == MAX_PUBLIC_TEXTS && AnotherText(visits, scanned)
  }

  /** The history for the messages found, unless the state has changed meanwhile. */
  method BuildHistory(ports: Ports, req: Request, stop: Stop, newer: seq<Message>, ghost visits: seq<Visit<Message>>, ghost scanned: seq<Message>,
                      ghost chat: seq<Message>, ghost offset: string -> nat)
    returns (r: Result, ghost all: seq<Evidence>)
    requires ports.state.Some? && ConsistentState(req, ports.state.value) && Ended(ports, req, stop, newer, visits, scanned)
    ensures r.Ok? ==> Truthful(ports, req, r.history, visits, scanned, all)
    ensures r.Ok? ==> ports.encodedSize(r.history).Some? && ports.encodedSize(r.history).value <= MAX_TOTAL_BYTES
    ensures Readable(ports, req, chat, offset) ==> r.Ok?
  {
    r, all := Err(InvalidSourceEvidence), [];
    var ok, summary := BuildSummary(ports, stop);
    if !ok { return; }
    AllPublic(scanned);
    if Readable(ports, req, chat, offset) { NewerAccepted(ports, req, chat, offset, visits, scanned); }
    var messages := BuildMessages(ports, newer);
    if messages.None? { return; }
    all := messages.value;
    if ports.latest.None? { r := Err(ReadUnavailable); return; }
    if ports.latest.value != ports.state.value { return; }
    var h := History(CoverageAt(stop), summary, messages.value);
    var fitted := FitBudget(ports.encodedSize, h);
    if fitted.None? { return; }
    FittedLabel(ports, h, fitted.value, visits, scanned);
    r := Ok(fitted.value);
  }

  method Read(ports: Ports, req: Request, ghost chat: seq<Message>, ghost offset: string -> nat)
    returns (r: Result, ghost visits: seq<Visit<Message>>, ghost scanned: seq<Message>, ghost all: seq<Evidence>)
    ensures r.Ok? ==> Truthful(ports, req, r.history, visits, scanned, all)
    // only public texts of this conversation are shown, sanitized and short
    ensures r.Ok? ==> |r.history.messages| <= 16
    ensures r.Ok? ==> forall i :: 0 <= i < |r.history.messages| ==>
      var m, safe := r.history.messages[i].message, r.history.messages[i].text;
      && m.visibility == "public" && m.contentType == "text" && m.text.Some? && Trim(m.text.value) != ""
      && m in Delivered(visits) && m.businessId == req.businessId && m.conversationId == req.conversationId
      && ports.sanitize(m.text.value) == Some(safe) && Trim(safe) != "" && ByteLen(safe) <= 1200
    // with a complete label every public text is, up to the checkpoint if there is one
    ensures r.Ok? && !r.history.coverage.PartialRecentHistory? ==> forall k :: 0 <= k < |scanned| ==>
      var m := scanned[k];
      m.visibility == "public" && m.contentType == "text" && m.text.Some? && Trim(m.text.value) != "" ==> ShownIn(r.history.messages, m)
    ensures r.Ok? && r.history.coverage.CompleteHistory? ==>
      ports.state.value.lastMessageId == "" && Exhausted(visits) && scanned == Delivered(visits)
    ensures r.Ok? && r.history.coverage.CompleteAfterCheckpoint? ==>
      scanned < Delivered(visits) && Delivered(visits)[|scanned|].id == ports.state.value.lastMessageId != ""
    // the oldest comes first
    ensures r.Ok? ==> OldestFirst(r.history.messages, scanned)
    ensures r.Ok? ==> ports.encodedSize(r.history).Some? && ports.encodedSize(r.history).value <= 24576
    // a well-formed conversation that nothing objects to is never refused
    ensures Readable(ports, req, chat, offset) ==> r.Ok?
  {
    r, visits, scanned, all := ReadTruthfully(ports, req, chat, offset);
    if r.Ok? {
      ShownLaw(ports, req, r.history, visits, scanned, all);
      OrderLaw(ports, req, r.history, visits, scanned, all);
    }
  }

  lemma ShownLaw(ports: Ports, req: Request, h: History, visits: seq<Visit<Message>>, scanned: seq<Message>, all: seq<Evidence>)
    requires Truthful(ports, req, h, visits, scanned, all)
    ensures |h.messages| <= 16
    ensures forall i :: 0 <= i < |h.messages| ==> ShowsText(ports, req, visits, h.messages[i])
    ensures !h.coverage.PartialRecentHistory? ==>
      forall k :: 0 <= k < |scanned| && PublicText(scanned[k]) ==> ShownIn(h.messages, scanned[k])
  {
    forall i | 0 <= i < |h.messages| ensures ShowsText(ports, req, visits, h.messages[i]) {
      ShownText(ports, req, h, visits, scanned, all, i);
    }
    if !h.coverage.PartialRecentHistory? {
      forall k | 0 <= k < |scanned| && PublicText(scanned[k]) ensures ShownIn(h.messages, scanned[k]) {
        PublicKept(scanned, k);
        KeptShown(ports, PublicTexts(scanned), all, scanned[k]);
      }
    }
  }

  lemma ShownText(ports: Ports, req: Request, h: History, visits: seq<Visit<Message>>, scanned: seq<Message>, all: seq<Evidence>, i: nat)
    requires Truthful(ports, req, h, visits, scanned, all) && i < |h.messages|
    ensures ShowsText(ports, req, visits, h.messages[i])
  {
    AllPublic(scanned);
    var e := all[|all| - |h.messages| + i];
    assert e == h.messages[i] && e.message in PublicTexts(scanned);
    var k :| 0 <= k < |scanned| && scanned[k] == e.message;
    assert Delivered(visits)[k] == e.message;
  }

  ghost predicate ShowsText(ports: Ports, req: Request, visits: seq<Visit<Message>>, e: Evidence) {
    && PublicText(e.message) && e.message in Delivered(visits) && Scoped(req, e.message)
    && Sanitized(ports.sanitize, e.message.text.value) == Some(e.text)
  }

  ghost predicate OldestFirst(es: seq<Evidence>, ms: seq<Message>) {
    forall i, j :: 0 <= i < j < |es| ==> Older(ms, es[i].message, es[j].message)
  }

  lemma ChronologicalOrder(ports: Ports, ms: seq<Message>, all: seq<Evidence>, i: nat, j: nat)
    requires DistinctMessages(ms) && Chronological(ports, PublicTexts(ms), all) && i < j < |all|
    ensures Older(ms, all[i].message, all[j].message)
  {
    PublicInOrder(ms, |all| - 1 - j, |all| - 1 - i);
  }

  lemma OrderLaw(ports: Ports, req: Request, h: History, visits: seq<Visit<Message>>, scanned: seq<Message>, all: seq<Evidence>)
    requires Truthful(ports, req, h, visits, scanned, all)
    ensures OldestFirst(h.messages, scanned)
  {
    var off := |all| - |h.messages|;
    forall i, j | 0 <= i < j < |h.messages| ensures Older(scanned, h.messages[i].message, h.messages[j].message) {
      ChronologicalOrder(ports, scanned, all, off + i, off + j);
    }
  }

  /** The messages shown are exactly the public texts of the list, the oldest first. */
  ghost predicate ShowsAll(h: History, ms: seq<Message>) {
    && OldestFirst(h.messages, ms)
    && forall m :: ShownIn(h.messages, m)
         <==> m in ms && m.visibility == "public" && m.contentType == "text" && m.text.Some? && Trim(m.text.value) != ""
  }

  lemma CompleteShowsAll(ports: Ports, req: Request, h: History, visits: seq<Visit<Message>>, scanned: seq<Message>, all: seq<Evidence>)
    requires Truthful(ports, req, h, visits, scanned, all) && !h.coverage.PartialRecentHistory?
    ensures ShowsAll(h, scanned)
  {
    ShownLaw(ports, req, h, visits, scanned, all);
    OrderLaw(ports, req, h, visits, scanned, all);
    AllPublic(scanned);
    forall m | ShownIn(h.messages, m) ensures m in scanned {
      var i :| 0 <= i < |h.messages| && h.messages[i].message == m;
      assert m in PublicTexts(scanned);
    }
  }

  /** A complete label means every public text of the conversation: all of them, or all that
      are newer than the checkpoint, which is one of its messages. */
  ghost predicate CoversChat(ports: Ports, h: History, scanned: seq<Message>, chat: seq<Message>)
    requires ports.state.Some?
  {
    && scanned <= chat
    && match h.coverage
       case CompleteHistory => ShowsAll(h, chat)
       case CompleteAfterCheckpoint =>
         && |scanned| < |chat| && chat[|scanned|].id == ports.state.value.lastMessageId
         && (forall i :: 0 <= i < |scanned| ==> chat[i].id != ports.state.value.lastMessageId)
         && ShowsAll(h, chat[..|scanned|])
       case PartialRecentHistory => true
  }

  /** What a truthful history says of the messages delivered, it says of the whole chat when
      those are its newest part. */
  lemma DeliveredCovers(ports: Ports, req: Request, h: History, visits: seq<Visit<Message>>, scanned: seq<Message>, all: seq<Evidence>, chat: seq<Message>)
    requires Truthful(ports, req, h, visits, scanned, all)
    requires Delivered(visits) <= chat && (Exhausted(visits) ==> Delivered(visits) == chat)
    ensures CoversChat(ports, h, scanned, chat)
  {
    PrefixOfPrefix(scanned, Delivered(visits), chat);
    if !h.coverage.PartialRecentHistory? { CompleteShowsAll(ports, req, h, visits, scanned, all); }
  }

  /** Over a repository that faithfully pages the conversation `chat` newest first, a complete
      label means every public text. */
  lemma FaithfulHistory(ports: Ports, req: Request, h: History, visits: seq<Visit<Message>>, scanned: seq<Message>, all: seq<Evidence>,
                        chat: seq<Message>, offset: string -> nat)
    requires Truthful(ports, req, h, visits, scanned, all) && Faithful(ports.source, chat, offset)
    ensures CoversChat(ports, h, scanned, chat)
  {
    FaithfulDelivery(ports.source, chat, offset, visits);
    DeliveredCovers(ports, req, h, visits, scanned, all, chat);
  }

  lemma PrefixOfPrefix(a: seq<Message>, b: seq<Message>, c: seq<Message>)
    requires a <= b && b <= c
    ensures a <= c && a == c[..|a|]
    ensures forall i :: 0 <= i < |a| ==> c[i] == a[i]
    ensures |a| < |b| ==> c[|a|] == b[|a|]
  {
  }
}
