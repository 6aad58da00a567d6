/** The customer-sales context's view of a conversation: every message since the summary's
    checkpoint, and the evidence built from them. */
module CheckpointDelta {
  import opened Text
  import opened Paging
  import opened MessagePaging

  const MAX_UNCOVERED := 256

  datatype Error = Unavailable | TooManyUncovered | CheckpointNotFound | CursorStuck

  datatype Result = Ok(messages: seq<Message>) | Err(error: Error)

  function Reversed(ms: seq<Message>): seq<Message> {
    seq(|ms|, i requires 0 <= i < |ms| => ms[|ms| - 1 - i])
  }

  /** The position of the checkpoint in a newest-first list, or its length. */
  function CheckpointAt(ms: seq<Message>, checkpoint: string): nat
    ensures CheckpointAt(ms, checkpoint) <= |ms|
  {
    if ms == [] || ms[0].id == checkpoint then 0 else 1 + CheckpointAt(ms[1..], checkpoint)
  }

  /** What the delta of the list `chat` is. */
  function Delta(chat: seq<Message>, checkpoint: string): Result {
    var k := CheckpointAt(chat, checkpoint);
    if k > MAX_UNCOVERED then Err(TooManyUncovered)
    else if k == |chat| then Err(CheckpointNotFound)
    else Ok(Reversed(chat[..k]))
  }

  lemma {:induction false} CheckpointBounds(ms: seq<Message>, checkpoint: string)
    ensures var k := CheckpointAt(ms, checkpoint);
      && (forall i :: 0 <= i < k ==> ms[i].id != checkpoint)
      && (k < |ms| ==> ms[k].id == checkpoint)
  {
    if ms != [] && ms[0].id != checkpoint {
      CheckpointBounds(ms[1..], checkpoint);
      var k := CheckpointAt(ms, checkpoint);
      forall i | 0 <= i < k ensures ms[i].id != checkpoint {
        if i > 0 { assert ms[i] == ms[1..][i - 1]; }
      }
    }
  }

  /** The position is determined by its neighbours. */
  lemma CheckpointIs(ms: seq<Message>, checkpoint: string, k: nat)
    requires k <= |ms| && (forall i :: 0 <= i < k ==> ms[i].id != checkpoint) && (k < |ms| ==> ms[k].id == checkpoint)
    ensures CheckpointAt(ms, checkpoint) == k
  {
    CheckpointBounds(ms, checkpoint);
  }

  /** The delta from the messages alone: what is newer than the first checkpoint met, oldest
      first, as long as those are at most 256; otherwise too many, or no checkpoint at all. */
  lemma DeltaLaw(chat: seq<Message>, checkpoint: string, k: nat)
    requires k <= |chat| && (forall i :: 0 <= i < k ==> chat[i].id != checkpoint) && (k < |chat| ==> chat[k].id == checkpoint)
    ensures var r := Delta(chat, checkpoint);
      && (r.Ok? <==> k <= 256 && k < |chat|)
      && (r.Ok? ==> |r.messages| == k && forall i :: 0 <= i < k ==> r.messages[i] == chat[k - 1 - i])
      && (r == Err(TooManyUncovered) <==> k > 256) && (r == Err(CheckpointNotFound) <==> k <= 256 && k == |chat|)
  {
    CheckpointIs(chat, checkpoint, k);
  }

  // ---------------------------------------------------------------- collecting the delta

  ghost predicate Avoids(ms: seq<Message>, checkpoint: string) {
    forall i :: 0 <= i < |ms| ==> ms[i].id != checkpoint
  }

  /** The loop over one page. */
  method Collect(items: seq<Message>, checkpoint: string, start: seq<Message>)
    returns (found: bool, tooMany: bool, collected: seq<Message>)
    requires |start| <= MAX_UNCOVERED && Avoids(start, checkpoint)
    ensures tooMany ==> Delta(start + items, checkpoint) == Err(TooManyUncovered)
    ensures !tooMany && found ==> Delta(start + items, checkpoint) == Ok(Reversed(collected))
    ensures !tooMany && !found ==> collected == start + items && |collected| <= MAX_UNCOVERED && Avoids(collected, checkpoint)
    ensures !tooMany && !found ==> Delta(collected, checkpoint) == Err(CheckpointNotFound)
  {
    found, tooMany, collected := false, false, start;
    for i := 0 to |items|
      invariant collected == start + items[..i] && |collected| <= MAX_UNCOVERED && Avoids(collected, checkpoint)
    {
      assert (start + items)[|collected|] == items[i] && start + items[..i + 1] == collected + [items[i]];
      if items[i].id == checkpoint {
        found := true;
        DeltaFound(start + items, collected, checkpoint);
        return;
      }
      collected := collected + [items[i]];
      if |collected| > MAX_UNCOVERED {
        tooMany := true;
        assert (start + items)[..MAX_UNCOVERED + 1] == collected;
        DeltaTooMany(start + items, checkpoint);
        return;
      }
    }
    assert items[..|items|] == items;
    DeltaMissing(collected, checkpoint);
  }

  lemma DeltaFound(chat: seq<Message>, newer: seq<Message>, checkpoint: string)
    requires newer < chat && Avoids(newer, checkpoint) && chat[|newer|].id == checkpoint && |newer| <= MAX_UNCOVERED
    ensures Delta(chat, checkpoint) == Ok(Reversed(newer))
  {
    CheckpointIs(chat, checkpoint, |newer|);
    assert chat[..|newer|] == newer;
  }

  lemma DeltaTooMany(chat: seq<Message>, checkpoint: string)
    requires |chat| > MAX_UNCOVERED && Avoids(chat[..MAX_UNCOVERED + 1], checkpoint)
    ensures Delta(chat, checkpoint) == Err(TooManyUncovered)
  {
    CheckpointBounds(chat, checkpoint);
    assert forall i :: 0 <= i <= MAX_UNCOVERED ==> chat[i] == chat[..MAX_UNCOVERED + 1][i];
  }

  lemma DeltaMissing(chat: seq<Message>, checkpoint: string)
    requires Avoids(chat, checkpoint) && |chat| <= MAX_UNCOVERED
    ensures Delta(chat, checkpoint) == Err(CheckpointNotFound)
  {
    CheckpointBounds(chat, checkpoint);
  }

  /** A decision taken on the newest part of a list stands for the whole list. */
  lemma DeltaExtends(part: seq<Message>, chat: seq<Message>, checkpoint: string)
    requires part <= chat && (Delta(part, checkpoint).Ok? || Delta(part, checkpoint) == Err(TooManyUncovered))
    ensures Delta(chat, checkpoint) == Delta(part, checkpoint)
  {
    var k := CheckpointAt(part, checkpoint);
    CheckpointBounds(part, checkpoint);
    if Delta(part, checkpoint).Ok? {
      assert part[..k] < chat && chat[k] == part[k];
      DeltaFound(chat, part[..k], checkpoint);
    } else {
      assert chat[..MAX_UNCOVERED + 1] == part[..MAX_UNCOVERED + 1];
      DeltaTooMany(chat, checkpoint);
    }
  }

  /** What the loop's result says about the pages it has read. */
  ghost predicate Explains(r: Result, deadline: nat, source: Source, checkpoint: string, visits: seq<Visit<Message>>) {
    match r
    case Ok(_) => Delta(Delivered(visits), checkpoint) == r
    case Err(TooManyUncovered) => Delta(Delivered(visits), checkpoint) == r
    case Err(CheckpointNotFound) => Exhausted(visits) && Delta(Delivered(visits), checkpoint) == r
    case Err(CursorStuck) =>
      && !Exhausted(visits) && visits != []
      && (NextCursor(visits) == "" || NextCursor(visits) == visits[|visits| - 1].cursor)
    case Err(Unavailable) =>
      !Exhausted(visits) && (|visits| == deadline || source(|visits|, NextCursor(visits)).LoadFailed?)
  }

  /** An empty page that promises more. */
  predicate Stalls(page: Load<Message>) { page.Page? && page.items == [] && page.hasMore }

  function EmptyPages(visits: seq<Visit<Message>>): nat {
    if visits == [] then 0 else EmptyPages(visits[..|visits| - 1]) + if Stalls(visits[|visits| - 1].page) then 1 else 0
  }

  lemma CountEmpty(visits: seq<Visit<Message>>, v: Visit<Message>)
    ensures EmptyPages(visits + [v]) == EmptyPages(visits) + if Stalls(v.page) then 1 else 0
  {
    assert (visits + [v])[..|visits|] == visits;
  }

  /** A source that never promises more behind an empty page. */
  ghost predicate Advances(source: Source) { forall n, c :: !Stalls(source(n, c)) }

  lemma {:induction false} NoEmptyPages(source: Source, visits: seq<Visit<Message>>)
    requires Advances(source) && Followed(source, visits)
    ensures EmptyPages(visits) == 0
  {
    if visits != [] {
      NoEmptyPages(source, visits[..|visits| - 1]);
      assert visits[|visits| - 1].page == source(|visits| - 1, visits[|visits| - 1].cursor);
    }
  }

  /** Such a source needs no deadline: 257 page loads decide, and the result stands for
      every deadline that allows them, unless the repository itself fails. */
  lemma AdvancingNeedsNoDeadline(r: Result, deadline: nat, source: Source, checkpoint: string, visits: seq<Visit<Message>>)
    requires Advances(source) && Followed(source, visits) && |visits| <= MAX_UNCOVERED + 1 + EmptyPages(visits)
    requires Explains(r, deadline, source, checkpoint, visits)
    ensures |visits| <= 257
    ensures r == Err(Unavailable) && deadline > 257 ==> source(|visits|, NextCursor(visits)).LoadFailed?
  {
    NoEmptyPages(source, visits);
  }

  /** listMessagesAfterCheckpoint. `deadline` is how many page loads the context allows: the
      repository reports an error when it has expired. */
  method ListAfterCheckpoint(deadline: nat, source: Source, checkpoint: string) returns (r: Result)
    // whatever the source: the result follows from the pages read, of which there are few
    ensures exists visits ::
      && Followed(source, visits) && |visits| <= deadline && |visits| <= MAX_UNCOVERED + 1 + EmptyPages(visits)
      && Explains(r, deadline, source, checkpoint, visits)
    // a source that never promises more behind an empty page needs at most 257 loads
    ensures Advances(source) && deadline > 257 && r == Err(Unavailable) ==>
      exists visits :: Followed(source, visits) && |visits| <= 257 && source(|visits|, NextCursor(visits)).LoadFailed?
    // over a faithful source: exactly the delta of the conversation
    ensures forall chat, offset :: Faithful(source, chat, offset) && deadline > |chat| ==> r == Delta(chat, checkpoint)
  {
    ghost var visits;
    r, visits := PageToCheckpoint(deadline, source, checkpoint);
    if Advances(source) { AdvancingNeedsNoDeadline(r, deadline, source, checkpoint, visits); }
    forall chat, offset | Faithful(source, chat, offset) && deadline > |chat| ensures r == Delta(chat, checkpoint) {
      FaithfulDelta(r, deadline, source, checkpoint, visits, chat, offset);
    }
  }

  /** A page that hands the loop on: it promises more, under a cursor that moves. */
  predicate GoesOn(v: Visit<Message>) { v.page.Page? && v.page.hasMore && v.page.next != "" && v.page.next != v.cursor }

  /** After these loads the loop has met no reason to stop. */
  ghost predicate Undecided(source: Source, checkpoint: string, visits: seq<Visit<Message>>) {
    visits == []
    || (var last := |visits| - 1;
        && Undecided(source, checkpoint, visits[..last])
        && visits[last] == Visit(NextCursor(visits[..last]), source(last, NextCursor(visits[..last])))
        && GoesOn(visits[last]) && Delta(Delivered(visits), checkpoint) == Err(CheckpointNotFound))
  }

  lemma UndecidedNext(source: Source, checkpoint: string, visits: seq<Visit<Message>>, page: Load<Message>)
    requires Undecided(source, checkpoint, visits) && page == source(|visits|, NextCursor(visits))
    ensures var all := visits + [Visit(NextCursor(visits), page)];
      && all[..|visits|] == visits
      && (Undecided(source, checkpoint, all) <==>
            GoesOn(Visit(NextCursor(visits), page)) && Delta(Delivered(all), checkpoint) == Err(CheckpointNotFound))
  {
    var all := visits + [Visit(NextCursor(visits), page)];
    assert all[..|visits|] == visits;
  }

  /** The loop is between two pages. */
  ghost predicate Paged(source: Source, checkpoint: string, visits: seq<Visit<Message>>, cursor: string, collected: seq<Message>) {
    && Followed(source, visits) && cursor == NextCursor(visits) && Undecided(source, checkpoint, visits)
    && (visits != [] ==> visits[|visits| - 1].page.Page? && visits[|visits| - 1].page.hasMore && Undecided(source, checkpoint, visits[..|visits| - 1]))
    && collected == Delivered(visits) && |collected| <= MAX_UNCOVERED && Avoids(collected, checkpoint)
    && |visits| <= |collected| + EmptyPages(visits)
  }

  /** The loop is over, with the pages it has read. */
  ghost predicate Finished(r: Result, deadline: nat, source: Source, checkpoint: string, visits: seq<Visit<Message>>) {
    && Followed(source, visits) && |visits| <= deadline && Explains(r, deadline, source, checkpoint, visits)
    // every page load but the last counts towards the 256 messages unless it is empty
    && |visits| <= MAX_UNCOVERED + 1 + EmptyPages(visits)
    // only the deadline and the repository stop an undecided loop
    && (r == Err(Unavailable) <==> Undecided(source, checkpoint, visits))
    && (visits != [] ==> Undecided(source, checkpoint, visits[..|visits| - 1]))
  }

  /** What is known after one more page, before its messages are looked at. */
  ghost predicate OneMore(source: Source, checkpoint: string, before: seq<Visit<Message>>, all: seq<Visit<Message>>, v: Visit<Message>, collected: seq<Message>) {
    && |all| == |before| + 1 && all[..|before|] == before && all[|before|] == v && Followed(source, all)
    && Delivered(all) == collected + v.page.items && NextCursor(all) == v.page.next
    && EmptyPages(all) == EmptyPages(before) + (if Stalls(v.page) then 1 else 0)
    && (Undecided(source, checkpoint, all) <==> GoesOn(v) && Delta(Delivered(all), checkpoint) == Err(CheckpointNotFound))
  }

  lemma NextPage(source: Source, checkpoint: string, visits: seq<Visit<Message>>, cursor: string, collected: seq<Message>, page: Load<Message>)
    requires Paged(source, checkpoint, visits, cursor, collected) && page.Page? && page == source(|visits|, cursor)
    ensures OneMore(source, checkpoint, visits, visits + [Visit(cursor, page)], Visit(cursor, page), collected)
  {
    AppendVisit(source, visits, Visit(cursor, page));
    CountEmpty(visits, Visit(cursor, page));
    UndecidedNext(source, checkpoint, visits, page);
  }

  /** One page: its messages, then its cursor. */
  method TakePage(deadline: nat, source: Source, checkpoint: string, cursor: string, start: seq<Message>, page: Load<Message>, ghost visits: seq<Visit<Message>>)
    returns (r: Option<Result>, collected: seq<Message>)
    requires Paged(source, checkpoint, visits, cursor, start) && page.Page? && page == source(|visits|, cursor) && |visits| < deadline
    ensures r.Some? ==> Finished(r.value, deadline, source, checkpoint, visits + [Visit(cursor, page)])
    ensures r.None? ==> Paged(source, checkpoint, visits + [Visit(cursor, page)], page.next, collected)
  {
    NextPage(source, checkpoint, visits, cursor, start, page);
    var found, tooMany;
    found, tooMany, collected := Collect(page.items, checkpoint, start);
    if tooMany { return Some(Err(TooManyUncovered)), collected; }
    if found { return Some(Ok(Reversed(collected))), collected; }
    if !page.hasMore { return Some(Err(CheckpointNotFound)), collected; }
    if page.next == "" || page.next == cursor { return Some(Err(CursorStuck)), collected; }
    return None, collected;
  }

  /** The paging loop; `visits` are the pages read. */
  method PageToCheckpoint(deadline: nat, source: Source, checkpoint: string) returns (r: Result, ghost visits: seq<Visit<Message>>)
    ensures Finished(r, deadline, source, checkpoint, visits)
  {
    var cursor, collected: seq<Message> := "", [];
    var n: nat := 0;
    visits := [];
    while n < deadline
      invariant n == |visits| <= deadline && Paged(source, checkpoint, visits, cursor, collected)
    {
      var page := source(n, cursor);
      if page.LoadFailed? { return Err(Unavailable), visits; }
      ghost var before := visits;
      visits := before + [Visit(cursor, page)];
      var done;
      done, collected := TakePage(deadline, source, checkpoint, cursor, collected, page, before);
      if done.Some? { return done.value, visits; }
      cursor := page.next;
      n := n + 1;
    }
    return Err(Unavailable), visits;
  }

  /** Over a repository that faithfully pages `chat` newest first, and with time for one load
      per message, the result is exactly the delta of the chat. */
  lemma FaithfulDelta(r: Result, deadline: nat, source: Source, checkpoint: string, visits: seq<Visit<Message>>,
                      chat: seq<Message>, offset: string -> nat)
    requires Faithful(source, chat, offset) && deadline > |chat|
    requires Followed(source, visits) && Explains(r, deadline, source, checkpoint, visits)
    ensures r == Delta(chat, checkpoint)
  {
    FaithfulDelivery(source, chat, offset, visits);
    if r.Ok? || r == Err(TooManyUncovered) {
      DeltaExtends(Delivered(visits), chat, checkpoint);
    } else if r != Err(CheckpointNotFound) {
      FaithfulNext(source, chat, offset, visits);
      FaithfulProgress(source, chat, offset, visits);
    }
  }

  /** Each visit to a faithful repository delivers something and moves the cursor. */
  lemma {:induction false} FaithfulProgress(source: Source, chat: seq<Message>, offset: string -> nat, visits: seq<Visit<Message>>)
    requires Faithful(source, chat, offset) && Followed(source, visits) && !Exhausted(visits)
    ensures |visits| <= |Delivered(visits)| <= |chat|
    ensures visits != [] ==> NextCursor(visits) != "" && NextCursor(visits) != visits[|visits| - 1].cursor
  {
    FaithfulDelivery(source, chat, offset, visits);
    if visits != [] {
      var last := |visits| - 1;
      var init := visits[..last];
      if last > 0 { assert init[last - 1] == visits[last - 1]; }
      FaithfulProgress(source, chat, offset, init);
      FaithfulNext(source, chat, offset, init);
      assert Delivered(visits) == Delivered(init) + visits[last].page.items;
    }
  }

  /** A source whose every page is empty, promises more, and hands out "b" after "a" and "a"
      after anything else. */
  function PingPong(): Source {
    (n, c) => Page([], true, if c == "a" then "b" else "a")
  }

  lemma {:induction false} PingPongPages(visits: seq<Visit<Message>>)
    requires Followed(PingPong(), visits)
    ensures Delivered(visits) == [] && !Exhausted(visits) && EmptyPages(visits) == |visits|
    ensures visits != [] ==> NextCursor(visits) != "" && NextCursor(visits) != visits[|visits| - 1].cursor
  {
    if visits != [] {
      var last := |visits| - 1;
      PingPongPages(visits[..last]);
      assert visits[last].page == PingPong()(last, visits[last].cursor);
    }
  }

  /** Against such a source the loop never meets a reason to stop: for every deadline it loads
      exactly as many pages as the deadline allows and then reports the failure of the last. */
  method PingPongNeverStops(deadline: nat, checkpoint: string) returns (r: Result, ghost visits: seq<Visit<Message>>)
    ensures r == Err(Unavailable) && |visits| == deadline && Followed(PingPong(), visits)
  {
    r, visits := PageToCheckpoint(deadline, PingPong(), checkpoint);
    PingPongPages(visits);
  }

  // ---------------------------------------------------------------- the evidence

  datatype Evidence = Evidence(reference: string, direction: string, origin: string, text: string, occurredAt: int)

  /** Private, blank and current-source messages are not evidence. */
  predicate IsEvidence(m: Message, sourceReference: string) {
    && m.visibility != "private"
    && !(m.providerMessageId.Some? && Trim(m.providerMessageId.value) == Trim(sourceReference))
    && m.text.Some? && Trim(m.text.value) != ""
  }

  function EvidenceOf(m: Message): Evidence {
    Evidence(m.id, m.direction, m.origin, if m.text.Some? then Trim(m.text.value) else "", m.occurredAt)
  }

  function Selected(ms: seq<Message>, sourceReference: string): seq<Evidence> {
    if ms == [] then []
    else
      var m := ms[|ms| - 1];
      Selected(ms[..|ms| - 1], sourceReference) + if IsEvidence(m, sourceReference) then [EvidenceOf(m)] else []
  }

  predicate InOrder(es: seq<Evidence>) {
    forall i, j :: 0 <= i < j < |es| ==> es[i].occurredAt <= es[j].occurredAt
  }

  /** The elements of one instant, in order. */
  function AtTime(es: seq<Evidence>, t: int): seq<Evidence> {
    if es == [] then []
    else AtTime(es[..|es| - 1], t) + if es[|es| - 1].occurredAt == t then [es[|es| - 1]] else []
  }

  /** sort.SliceStable by time: each element goes after those that are not later. */
  function StableSort(es: seq<Evidence>): seq<Evidence> {
    if es == [] then [] else Insert(StableSort(es[..|es| - 1]), es[|es| - 1])
  }

  function Insert(es: seq<Evidence>, e: Evidence): seq<Evidence> {
    if es == [] || es[|es| - 1].occurredAt <= e.occurredAt then es + [e]
    else Insert(es[..|es| - 1], e) + [es[|es| - 1]]
  }

  lemma {:induction false} InsertSorts(es: seq<Evidence>, e: Evidence)
    requires InOrder(es)
    ensures InOrder(Insert(es, e))
    ensures forall x :: x in Insert(es, e) ==> x in es || x == e
  {
    if es != [] && es[|es| - 1].occurredAt > e.occurredAt {
      var init, last := es[..|es| - 1], es[|es| - 1];
      InsertSorts(init, e);
      assert forall x :: x in init ==> x in es && x.occurredAt <= last.occurredAt;
    }
  }

  lemma {:induction false} InsertKeeps(es: seq<Evidence>, e: Evidence, t: int)
    ensures AtTime(Insert(es, e), t) == AtTime(es, t) + if e.occurredAt == t then [e] else []
  {
    if es == [] || es[|es| - 1].occurredAt <= e.occurredAt {
      assert (es + [e])[..|es|] == es;
    } else {
      var init, last := es[..|es| - 1], es[|es| - 1];
      InsertKeeps(init, e, t);
      assert (Insert(init, e) + [last])[..|Insert(init, e)|] == Insert(init, e);
    }
  }

  /** The result is in time order and keeps the order of simultaneous messages. */
  lemma {:induction false} StableSortSorts(es: seq<Evidence>)
    ensures InOrder(StableSort(es))
    ensures forall t :: AtTime(StableSort(es), t) == AtTime(es, t)
  {
    if es != [] {
      var init, last := es[..|es| - 1], es[|es| - 1];
      StableSortSorts(init);
      InsertSorts(StableSort(init), last);
      forall t ensures AtTime(StableSort(es), t) == AtTime(es, t) { InsertKeeps(StableSort(init), last, t); }
    }
  }

  lemma {:induction false} SortedStays(es: seq<Evidence>)
    requires InOrder(es)
    ensures StableSort(es) == es
  {
    if es != [] {
      var init, last := es[..|es| - 1], es[|es| - 1];
      assert InOrder(init);
      SortedStays(init);
      assert init != [] ==> init[|init| - 1].occurredAt <= last.occurredAt;
      assert Insert(init, last) == init + [last];
    }
  }

  method BuildEvidence(records: seq<Message>, sourceReference: string) returns (items: seq<Evidence>)
    ensures items == StableSort(Selected(records, sourceReference))
    // from the fields: exactly the evidence of the messages that speak, in time order
    ensures InOrder(items) && forall e :: e in items <==> exists i :: 0 <= i < |records| && Speaks(records[i], sourceReference, e)
  {
    items := [];
    for i := 0 to |records|
      invariant items == Selected(records[..i], sourceReference)
    {
      var m := records[i];
      assert records[..i + 1][..i] == records[..i];
      if m.visibility == "private" { continue; }
      if m.providerMessageId.Some? && Trim(m.providerMessageId.value) == Trim(sourceReference) { continue; }
      var text := if m.text.Some? then Trim(m.text.value) else "";
      if text == "" { continue; }
      items := items + [Evidence(m.id, m.direction, m.origin, text, m.occurredAt)];
    }
    assert records[..|records|] == records;
    StableSortSorts(items);
    forall e ensures e in StableSort(items) <==> exists j :: 0 <= j < |records| && Speaks(records[j], sourceReference, e) {
      SortKeeps(items, e);
      SelectedIs(records, sourceReference, e);
    }
    items := StableSort(items);
  }

  lemma {:induction false} SelectedInOrder(ms: seq<Message>, sourceReference: string)
    requires forall i, j :: 0 <= i < j < |ms| ==> ms[i].occurredAt <= ms[j].occurredAt
    ensures InOrder(Selected(ms, sourceReference))
    ensures forall e :: e in Selected(ms, sourceReference) ==> exists i :: 0 <= i < |ms| && ms[i].occurredAt == e.occurredAt
  {
    if ms != [] {
      var init := ms[..|ms| - 1];
      SelectedInOrder(init, sourceReference);
      forall e | e in Selected(init, sourceReference) ensures exists i :: 0 <= i < |ms| - 1 && ms[i].occurredAt == e.occurredAt {
        var i :| 0 <= i < |init| && init[i].occurredAt == e.occurredAt;
        assert ms[i].occurredAt == e.occurredAt;
      }
    }
  }

  /** The evidence is that of the messages that are not private, not the current one and not
      blank, and of no other. */
  lemma {:induction false} SelectedIs(ms: seq<Message>, sourceReference: string, e: Evidence)
    ensures e in Selected(ms, sourceReference) <==> exists i :: 0 <= i < |ms| && Speaks(ms[i], sourceReference, e)
  {
    if ms != [] {
      SelectedIs(ms[..|ms| - 1], sourceReference, e);
      SpeaksNext(ms, sourceReference, e);
      assert Speaks(ms[|ms| - 1], sourceReference, e) <==> IsEvidence(ms[|ms| - 1], sourceReference) && e == EvidenceOf(ms[|ms| - 1]);
    }
  }

  lemma SpeaksNext(ms: seq<Message>, sourceReference: string, e: Evidence)
    requires ms != []
    ensures var init := ms[..|ms| - 1];
      (exists i :: 0 <= i < |ms| && Speaks(ms[i], sourceReference, e))
      <==> (exists i :: 0 <= i < |init| && Speaks(init[i], sourceReference, e)) || Speaks(ms[|ms| - 1], sourceReference, e)
  {
    var init := ms[..|ms| - 1];
    if i :| 0 <= i < |ms| && Speaks(ms[i], sourceReference, e) {
      if i < |init| { assert init[i] == ms[i]; }
    }
    if i :| 0 <= i < |init| && Speaks(init[i], sourceReference, e) { assert ms[i] == init[i]; }
  }

  predicate Speaks(m: Message, sourceReference: string, e: Evidence) {
    && m.visibility != "private" && m.text.Some? && Trim(m.text.value) != ""
    && (m.providerMessageId.Some? ==> Trim(m.providerMessageId.value) != Trim(sourceReference))
    && e == Evidence(m.id, m.direction, m.origin, Trim(m.text.value), m.occurredAt)
  }

  lemma {:induction false} SortKeeps(es: seq<Evidence>, e: Evidence)
    ensures e in StableSort(es) <==> e in es
  {
    StableSortSorts(es);
    AtTimeIn(es, e);
    AtTimeIn(StableSort(es), e);
  }

  lemma {:induction false} AtTimeIn(es: seq<Evidence>, e: Evidence)
    ensures e in AtTime(es, e.occurredAt) <==> e in es
  {
    if es != [] {
      AtTimeIn(es[..|es| - 1], e);
      assert es == es[..|es| - 1] + [es[|es| - 1]];
    }
  }

  /** Over a chat listed newest first, the evidence built from the delta is exactly the
      admissible messages newer than the checkpoint, oldest first. */
  lemma DeltaEvidence(chat: seq<Message>, checkpoint: string, sourceReference: string)
    requires forall i, j :: 0 <= i < j < |chat| ==> chat[i].occurredAt >= chat[j].occurredAt
    requires Delta(chat, checkpoint).Ok?
    ensures var newer := chat[..CheckpointAt(chat, checkpoint)];
      StableSort(Selected(Delta(chat, checkpoint).messages, sourceReference)) == Selected(Reversed(newer), sourceReference)
  {
    var delta := Delta(chat, checkpoint).messages;
    SelectedInOrder(delta, sourceReference);
    SortedStays(Selected(delta, sourceReference));
  }
}
