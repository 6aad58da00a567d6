/** A conversation's messages, paged newest first by an opaque cursor. */
module MessagePaging {
  import opened Text
  import opened Paging

  datatype Message = Message(
    id: string,
    businessId: string,
    conversationId: string,
    providerMessageId: Option<string>,
    visibility: string,
    contentType: string,
    text: Option<string>,
    direction: string,
    origin: string,
    occurredAt: int)

  /** The repository may answer each request differently. */
  type Source = (nat, string) -> Load<Message>

  /** The visits follow the source's own cursors from the start. */
  ghost predicate Followed(source: Source, visits: seq<Visit<Message>>) {
    visits == []
    || (var last := |visits| - 1;
        && Followed(source, visits[..last])
        && (last > 0 ==> visits[last - 1].page.Page? && visits[last - 1].page.hasMore)
        && visits[last].page.Page?
        && visits[last].cursor == NextCursor(visits[..last])
        && visits[last].page == source(last, visits[last].cursor))
  }

  ghost predicate Exhausted(visits: seq<Visit<Message>>) {
    visits != [] && visits[|visits| - 1].page.Page? && !visits[|visits| - 1].page.hasMore
  }

  lemma AppendVisit(source: Source, visits: seq<Visit<Message>>, v: Visit<Message>)
    requires Followed(source, visits) && v.page.Page? && v.cursor == NextCursor(visits) && v.page == source(|visits|, v.cursor)
    requires visits != [] ==> visits[|visits| - 1].page.Page? && visits[|visits| - 1].page.hasMore
    ensures Followed(source, visits + [v]) && Delivered(visits + [v]) == Delivered(visits) + v.page.items
    ensures NextCursor(visits + [v]) == v.page.next
  {
    assert (visits + [v])[..|visits|] == visits;
  }

  // ---------------------------------------------------------------- a faithful repository

  /** The repository pages the list `all` by keyset: a cursor stands for an offset. */
  ghost predicate Faithful(source: Source, all: seq<Message>, offset: string -> nat) {
    && offset("") == 0
    && forall n, c :: offset(c) <= |all| && (c == "" || offset(c) > 0) ==> Serves(source(n, c), all, offset(c), offset)
  }

  ghost predicate Serves(page: Load<Message>, all: seq<Message>, at: nat, offset: string -> nat)
    requires at <= |all|
  {
    && page.Page? && at + |page.items| <= |all| && page.items == all[at..at + |page.items|]
    && (page.hasMore <==> at + |page.items| < |all|)
    && (page.hasMore ==> page.items != [] && page.next != "" && offset(page.next) == at + |page.items|)
  }

  /** Whatever has been read from a faithful repository is the newest part of the list, and
      an exhausted one has delivered all of it. */
  lemma {:induction false} FaithfulDelivery(source: Source, all: seq<Message>, offset: string -> nat, visits: seq<Visit<Message>>)
    requires Faithful(source, all, offset) && Followed(source, visits)
    ensures Delivered(visits) <= all
    ensures Exhausted(visits) ==> Delivered(visits) == all
    ensures !Exhausted(visits) ==> |Delivered(visits)| == offset(NextCursor(visits))
    ensures !Exhausted(visits) && visits != [] ==> offset(NextCursor(visits)) > 0
  {
    if visits != [] {
      var last := |visits| - 1;
      var init := visits[..last];
      FaithfulDelivery(source, all, offset, init);
      if last > 0 { assert init[last - 1] == visits[last - 1]; }
      assert !Exhausted(init);
      var c := visits[last].cursor;
      assert Serves(source(last, c), all, offset(c), offset);
      var page := visits[last].page;
      Glue(all, Delivered(init), offset(c), offset(c) + |page.items|);
    }
  }

  /** The next page of a faithful repository continues the list where the visits left off. */
  lemma FaithfulNext(source: Source, all: seq<Message>, offset: string -> nat, visits: seq<Visit<Message>>)
    requires Faithful(source, all, offset) && Followed(source, visits) && !Exhausted(visits)
    ensures var c := NextCursor(visits); var page := source(|visits|, c);
      && offset(c) <= |all| && Serves(page, all, offset(c), offset)
      && Delivered(visits) + page.items == all[..offset(c) + |page.items|]
  {
    FaithfulDelivery(source, all, offset, visits);
    var c := NextCursor(visits);
    var page := source(|visits|, c);
    assert Serves(page, all, offset(c), offset);
    Glue(all, Delivered(visits), offset(c), offset(c) + |page.items|);
  }

  lemma Glue(all: seq<Message>, head: seq<Message>, a: nat, b: nat)
    requires a <= b <= |all| && head <= all && |head| == a
    ensures head + all[a..b] == all[..b]
  {
  }
}
