/** scanAllPages: exhausting a cursor of an untrusted source to report complete totals. */
module PageScan {
  import opened Text
  import opened Paging

  const PAGE_SIZE := 250
  const MAX_RECORDS := 20000
  const SAMPLE_SIZE := 40
  const LINK_LIMIT := 12

  /** A row handed to the model, as encoded text. */
  type Row = string

  /** What the caller's projection makes of a record; `row` is None for a nil row. */
  datatype Record = Refused | Record(row: Option<Row>, id: string, status: string, link: Option<string>)

  datatype Scan = Scan(total: nat, statuses: map<string, nat>, sample: seq<Row>, links: seq<string>)

  datatype Error = Canceled | ReadUnavailable | InvalidSourceEvidence | RefusedRecord | ScanTooLarge

  datatype Result = Complete(scan: Scan) | Failed(error: Error)

  /** The source may answer each request differently, so it also sees how many came before.
      Its records are already projected. */
  type Source = (nat, string) -> Load<Record>

  // ---------------------------------------------------------------- the simple fold

  predicate GoodRecord(p: Record) { p.Record? && p.id != "" && p.row.Some? }

  function CountStatus(rs: seq<Record>, status: string): nat {
    if rs == [] then 0
    else
      var r := rs[|rs| - 1];
      CountStatus(rs[..|rs| - 1], status) + if r.Record? && r.status == status then 1 else 0
  }

  function AllLinks(rs: seq<Record>): seq<string> {
    if rs == [] then []
    else
      var r := rs[|rs| - 1];
      AllLinks(rs[..|rs| - 1]) + if r.Record? && r.link.Some? then [r.link.value] else []
  }

  ghost predicate NoRepeats(s: seq<string>) {
    forall i, j :: 0 <= i < j < |s| ==> s[i] != s[j]
  }

  ghost predicate DistinctIds(rs: seq<Record>) {
    && (forall i :: 0 <= i < |rs| ==> rs[i].Record? && rs[i].id != "" && rs[i].row.Some?)
    && forall i, j :: 0 <= i < j < |rs| ==> rs[i].id != rs[j].id
  }

  /** The scan is what one pass over all records would report. */
  ghost predicate Summarizes(s: Scan, rs: seq<Record>) {
    && s.total == |rs|
    && (forall st :: st in s.statuses <==> st != "" && CountStatus(rs, st) > 0)
    && (forall st :: st in s.statuses ==> s.statuses[st] == CountStatus(rs, st))
    && |s.sample| == (if |rs| <= 40 then |rs| else 40)
    && (forall i :: 0 <= i < |s.sample| ==> rs[i].Record? && rs[i].row == Some(s.sample[i]))
    && s.links == (if |AllLinks(rs)| <= 12 then AllLinks(rs) else AllLinks(rs)[..12])
  }

  // ---------------------------------------------------------------- an acceptable source

  ghost predicate Accepted(cancelled: nat -> bool, source: Source, visits: seq<Visit<Record>>, k: nat)
    requires k < |visits|
  {
    && !cancelled(k) && source(k, visits[k].cursor) == visits[k].page
    && visits[k].page.Page? && |visits[k].page.items| <= 250
  }

  /** Visit k leads on: its page is not empty and its next cursor is new. */
  ghost predicate Advances(visits: seq<Visit<Record>>, k: nat)
    requires k < |visits|
  {
    && visits[k].page.Page? && visits[k].page.hasMore && visits[k].page.items != [] && visits[k].page.next != ""
    && forall j :: 0 <= j <= k ==> visits[j].cursor != visits[k].page.next
  }

  /** Visit k + 1 uses the cursor that visit k handed out. */
  ghost predicate Linked(visits: seq<Visit<Record>>, k: nat)
    requires k < |visits| - 1
  {
    Advances(visits, k) && visits[k + 1].cursor == visits[k].page.next
  }

  /** Visits that follow the source's own cursors from the start, all acceptable so far. */
  ghost predicate Chain(cancelled: nat -> bool, source: Source, visits: seq<Visit<Record>>) {
    && (forall k :: 0 <= k < |visits| ==> Accepted(cancelled, source, visits, k))
    && (visits != [] ==> visits[0].cursor == "")
    && (forall k :: 0 <= k < |visits| - 1 ==> Linked(visits, k))
    && DistinctIds(Delivered(visits)) && |Delivered(visits)| <= 20000
  }

  ghost predicate Open(visits: seq<Visit<Record>>) { visits != [] ==> Advances(visits, |visits| - 1) }

  /** The source hands out a finite, consistent listing and then says it is exhausted. */
  ghost predicate Listing(cancelled: nat -> bool, source: Source, visits: seq<Visit<Record>>) {
    visits != [] && Chain(cancelled, source, visits) && visits[|visits| - 1].page.Page? && !visits[|visits| - 1].page.hasMore
  }

  // ---------------------------------------------------------------- one record, one page

  /** One record joins the totals. */
  function Added(s: Scan, p: Record): Scan
    requires GoodRecord(p)
  {
    Scan(s.total + 1,
         if p.status == "" then s.statuses
         else s.statuses[p.status := 1 + if p.status in s.statuses then s.statuses[p.status] else 0],
         if |s.sample| < SAMPLE_SIZE then s.sample + [p.row.value] else s.sample,
         if p.link.Some? && |s.links| < LINK_LIMIT then s.links + [p.link.value] else s.links)
  }

  lemma AddRecord(s: Scan, rs: seq<Record>, p: Record)
    requires Summarizes(s, rs) && GoodRecord(p)
    ensures Summarizes(Added(s, p), rs + [p])
  {
    var all := rs + [p];
    assert all[..|rs|] == rs && all[|rs|] == p;
    forall st ensures CountStatus(all, st) == CountStatus(rs, st) + if p.status == st then 1 else 0 {}
    assert AllLinks(all) == AllLinks(rs) + if p.link.Some? then [p.link.value] else [];
  }

  function IdSet(rs: seq<Record>): set<string> {
    set i | 0 <= i < |rs| && rs[i].Record? :: rs[i].id
  }

  lemma AddId(rs: seq<Record>, p: Record)
    requires DistinctIds(rs) && p.Record?
    ensures IdSet(rs + [p]) == IdSet(rs) + {p.id}
    ensures DistinctIds(rs + [p]) <==> GoodRecord(p) && p.id !in IdSet(rs)
  {
    var all := rs + [p];
    assert all[|rs|] == p && forall i :: 0 <= i < |rs| ==> all[i] == rs[i];
    forall x | x in IdSet(rs) ensures x in IdSet(all) {
      var i :| 0 <= i < |rs| && rs[i].Record? && rs[i].id == x;
      assert all[i].id == x;
    }
    forall i | 0 <= i < |rs| ensures rs[i].id in IdSet(rs) { assert rs[i].Record?; }
    if DistinctIds(all) {
      assert GoodRecord(all[|rs|]);
      forall i | 0 <= i < |rs| ensures rs[i].id != p.id { assert all[i].id != all[|rs|].id; }
    }
  }

  lemma PrefixDistinct(rs: seq<Record>, n: nat)
    requires n <= |rs| && DistinctIds(rs)
    ensures DistinctIds(rs[..n])
  {
  }

  lemma NextRecord(before: seq<Record>, items: seq<Record>, n: nat)
    requires n < |items|
    ensures before + items[..n + 1] == before + items[..n] + [items[n]]
    ensures DistinctIds(before + items) ==> items[n].Record? && DistinctIds(before + items[..n] + [items[n]])
  {
    var part := before + items[..n] + [items[n]];
    assert (before + items)[..|part|] == part;
    if DistinctIds(before + items) {
      PrefixDistinct(before + items, |part|);
      assert GoodRecord(part[|part| - 1]);
    }
  }

  /** Adds one page's records to the scan; `before` are the records already in it. */
  method ScanPage(items: seq<Record>, start: Scan, startIds: set<string>, ghost before: seq<Record>)
    returns (error: Option<Error>, out: Scan, seenIds: set<string>)
    requires DistinctIds(before) && Summarizes(start, before) && |before| <= MAX_RECORDS && startIds == IdSet(before)
    ensures error.None? <==> DistinctIds(before + items) && |before + items| <= MAX_RECORDS
    ensures error.None? ==> Summarizes(out, before + items) && seenIds == IdSet(before + items)
    ensures error.Some? ==> error.value in {RefusedRecord, InvalidSourceEvidence, ScanTooLarge}
    ensures error == Some(ScanTooLarge) ==> |before + items| > MAX_RECORDS
  {
    out, seenIds, error := start, startIds, None;
    ghost var done := before;
    assert before + items[..0] == before;
    for n := 0 to |items|
      invariant error.None? && done == before + items[..n] && |done| <= MAX_RECORDS
      invariant DistinctIds(done) && Summarizes(out, done) && seenIds == IdSet(done)
    {
      var p := items[n];
      NextRecord(before, items, n);
      if p.Refused? {
        error := Some(RefusedRecord);
        return;
      }
      AddId(done, p);
      if p.id == "" || p.id in seenIds || p.row.None? {
        error := Some(InvalidSourceEvidence);
        return;
      }
      seenIds := seenIds + {p.id};
      if out.total + 1 > MAX_RECORDS {
        error := Some(ScanTooLarge);
        return;
      }
      AddRecord(out, done, p);
      out := Added(out, p);
      done := done + [p];
    }
    assert items[..|items|] == items;
  }

  // ---------------------------------------------------------------- the scan

  /** What the loop knows after n acceptable pages, all of which lead on. */
  ghost predicate Scanned(cancelled: nat -> bool, source: Source, visits: seq<Visit<Record>>,
                          cursor: string, seenCursors: set<string>, seenIds: set<string>, out: Scan) {
    && Chain(cancelled, source, visits) && Open(visits) && |visits| <= |Delivered(visits)|
    && cursor == NextCursor(visits) && seenCursors + {""} == CursorSet(visits) + {"", cursor}
    && Summarizes(out, Delivered(visits)) && seenIds == IdSet(Delivered(visits))
  }

  /** One iteration: load the page at the cursor, check it, and add its records. */
  method VisitPage(cancelled: nat -> bool, source: Source, n: nat, cursor: string, seenCursors: set<string>,
                   startIds: set<string>, start: Scan, ghost visits: seq<Visit<Record>>)
    returns (error: Option<Error>, page: Load<Record>, out: Scan, seenIds: set<string>)
    requires n == |visits| && Scanned(cancelled, source, visits, cursor, seenCursors, startIds, start)
    ensures error.None? <==>
      var all := visits + [Visit(cursor, source(n, cursor))]; Chain(cancelled, source, all) && Leads(all)
    ensures error == Some(Canceled) <==> cancelled(n)
    ensures error == Some(ReadUnavailable) <==> !cancelled(n) && source(n, cursor).LoadFailed?
    ensures error == Some(ScanTooLarge) ==>
      source(n, cursor).Page? && |Delivered(visits)| + |source(n, cursor).items| > MAX_RECORDS
    ensures error.None? ==> page == source(n, cursor) && page.Page?
    ensures error.None? ==> var all := visits + [Visit(cursor, page)];
      Summarizes(out, Delivered(all)) && seenIds == IdSet(Delivered(all))
  {
    error, page, out, seenIds := None, LoadFailed, start, startIds;
    ghost var all := visits + [Visit(cursor, source(n, cursor))];
    assert all[n] == Visit(cursor, source(n, cursor));
    assert Chain(cancelled, source, all) ==> Accepted(cancelled, source, all, n);
    if cancelled(n) { return Some(Canceled), page, out, seenIds; }
    page := source(n, cursor);
    if page.LoadFailed? { return Some(ReadUnavailable), page, out, seenIds; }
    AppendVisit(visits, Visit(cursor, page));
    if |page.items| > PAGE_SIZE
       || (page.hasMore && (|page.items| == 0 || page.next == "" || page.next == cursor || page.next in seenCursors)) {
      if |page.items| <= PAGE_SIZE { BadAdvance(visits, cursor, page, seenCursors); }
      return Some(InvalidSourceEvidence), page, out, seenIds;
    }
    error, out, seenIds := ScanPage(page.items, out, seenIds, Delivered(visits));
    if error.None? {
      ExtendChain(cancelled, source, visits, Visit(cursor, page));
      GoodAdvance(visits, cursor, page, seenCursors);
    }
  }

  lemma ScannedNext(cancelled: nat -> bool, source: Source, visits: seq<Visit<Record>>, cursor: string, seenCursors: set<string>,
                    page: Load<Record>, out: Scan, seenIds: set<string>)
    requires |visits| <= |Delivered(visits)| && seenCursors + {""} == CursorSet(visits) + {"", cursor}
    requires page.Page? && page.hasMore
    requires var all := visits + [Visit(cursor, page)];
      Chain(cancelled, source, all) && Leads(all) && Summarizes(out, Delivered(all)) && seenIds == IdSet(Delivered(all))
    ensures Scanned(cancelled, source, visits + [Visit(cursor, page)], page.next, seenCursors + {page.next}, seenIds, out)
  {
    AppendVisit(visits, Visit(cursor, page));
  }

  /** The last visit ends the listing or leads on. */
  ghost predicate Leads(visits: seq<Visit<Record>>) {
    visits != [] && visits[|visits| - 1].page.Page? && (visits[|visits| - 1].page.hasMore ==> Advances(visits, |visits| - 1))
  }

  lemma GoodAdvance(visits: seq<Visit<Record>>, cursor: string, page: Load<Record>, seenCursors: set<string>)
    requires seenCursors + {""} == CursorSet(visits) + {"", cursor} && page.Page?
    requires page.hasMore ==> page.items != [] && page.next != "" && page.next != cursor && page.next !in seenCursors
    ensures Leads(visits + [Visit(cursor, page)])
  {
    var all := visits + [Visit(cursor, page)];
    if page.hasMore {
      forall j | 0 <= j < |all| ensures all[j].cursor != page.next {
        if j < |visits| { assert visits[j].cursor in CursorSet(visits); }
      }
    }
  }

  lemma BadAdvance(visits: seq<Visit<Record>>, cursor: string, page: Load<Record>, seenCursors: set<string>)
    requires seenCursors + {""} == CursorSet(visits) + {"", cursor} && page.Page?
    requires page.hasMore && (page.items == [] || page.next == "" || page.next == cursor || page.next in seenCursors)
    ensures !Leads(visits + [Visit(cursor, page)])
  {
    var all := visits + [Visit(cursor, page)];
    if page.next != "" {
      if page.next == cursor {
        assert all[|visits|].cursor == page.next;
      } else if page.next in seenCursors {
        var j :| 0 <= j < |visits| && visits[j].cursor == page.next;
        assert all[j].cursor == page.next;
      }
    }
  }

  /** The next answer of the source cannot continue the visits. */
  ghost predicate Stuck(cancelled: nat -> bool, source: Source, visits: seq<Visit<Record>>) {
    && Chain(cancelled, source, visits) && Open(visits)
    && var all := visits + [Visit(NextCursor(visits), source(|visits|, NextCursor(visits)))];
       !(Chain(cancelled, source, all) && Leads(all))
  }

  ghost predicate HasListing(cancelled: nat -> bool, source: Source) {
    exists listing :: Listing(cancelled, source, listing)
  }

  lemma NoListing(cancelled: nat -> bool, source: Source, visits: seq<Visit<Record>>)
    requires Stuck(cancelled, source, visits)
    ensures !HasListing(cancelled, source)
  {
    forall listing ensures !Listing(cancelled, source, listing) {
      StuckHasNoListing(cancelled, source, visits, listing);
    }
  }

  method ScanAllPages(cancelled: nat -> bool, source: Source)
    returns (r: Result, ghost visits: seq<Visit<Record>>, ghost asked: seq<string>)
    // no cursor is requested twice, and there is at most one request more than records
    ensures NoRepeats(asked)
    ensures |asked| <= MAX_RECORDS + 1
    // the scan succeeds exactly when the source hands out a complete listing of distinct
    // records, and then summarizes it by a simple fold
    ensures r.Complete? <==> HasListing(cancelled, source)
    ensures r.Complete? ==> Listing(cancelled, source, visits) && Summarizes(r.scan, Delivered(visits))
    ensures r.Failed? ==> Stuck(cancelled, source, visits)
    ensures r == Failed(Canceled) ==> cancelled(|visits|)
    ensures r == Failed(ReadUnavailable) ==> source(|visits|, NextCursor(visits)).LoadFailed?
    ensures r == Failed(ScanTooLarge) ==>
      var page := source(|visits|, NextCursor(visits)); page.Page? && |Delivered(visits)| + |page.items| > MAX_RECORDS
  {
    r, visits, asked := ScanPages(cancelled, source);
    if r.Failed? { NoListing(cancelled, source, visits); }
  }

  /** The paging loop. */
  method ScanPages(cancelled: nat -> bool, source: Source)
    returns (r: Result, ghost visits: seq<Visit<Record>>, ghost asked: seq<string>)
    // no cursor is requested twice, and there is at most one request more than records
    ensures NoRepeats(asked)
    ensures |asked| <= MAX_RECORDS + 1
    ensures r.Complete? ==> Listing(cancelled, source, visits) && Summarizes(r.scan, Delivered(visits))
    ensures r.Failed? ==> Stuck(cancelled, source, visits)
    ensures r == Failed(Canceled) ==> cancelled(|visits|)
    ensures r == Failed(ReadUnavailable) ==> source(|visits|, NextCursor(visits)).LoadFailed?
    ensures r == Failed(ScanTooLarge) ==>
      var page := source(|visits|, NextCursor(visits)); page.Page? && |Delivered(visits)| + |page.items| > MAX_RECORDS
  {
    var out := Scan(0, map[], [], []);
    var cursor, seenCursors, seenIds := "", {}, {};
    var n: nat := 0;
    visits, asked := [], [];
    while true
      invariant n == |visits| && Scanned(cancelled, source, visits, cursor, seenCursors, seenIds, out)
      decreases MAX_RECORDS - n
    {
      CursorIsNew(cancelled, source, visits);
      asked := Cursors(visits) + [cursor];
      var error, page;
      error, page, out, seenIds := VisitPage(cancelled, source, n, cursor, seenCursors, seenIds, out, visits);
      if error.Some? { return Failed(error.value), visits, asked; }
      ghost var before := visits;
      visits := before + [Visit(cursor, page)];
      if !page.hasMore {
        return Complete(out), visits, asked;
      }
      ScannedNext(cancelled, source, before, cursor, seenCursors, page, out, seenIds);
      seenCursors := seenCursors + {page.next};
      cursor := page.next;
      n := n + 1;
    }
  }

  // ---------------------------------------------------------------- lemmas

  function Cursors(visits: seq<Visit<Record>>): seq<string> {
    seq(|visits|, k requires 0 <= k < |visits| => visits[k].cursor)
  }

  lemma AppendVisit(visits: seq<Visit<Record>>, v: Visit<Record>)
    requires v.page.Page?
    ensures Delivered(visits + [v]) == Delivered(visits) + v.page.items
    ensures Cursors(visits + [v]) == Cursors(visits) + [v.cursor]
    ensures CursorSet(visits + [v]) == CursorSet(visits) + {v.cursor}
  {
    assert (visits + [v])[..|visits|] == visits;
    AppendCursor(visits, v);
  }

  lemma ExtendChain(cancelled: nat -> bool, source: Source, visits: seq<Visit<Record>>, v: Visit<Record>)
    requires Chain(cancelled, source, visits) && Open(visits) && v.cursor == NextCursor(visits)
    requires !cancelled(|visits|) && source(|visits|, v.cursor) == v.page && v.page.Page? && |v.page.items| <= PAGE_SIZE
    requires DistinctIds(Delivered(visits + [v])) && |Delivered(visits + [v])| <= MAX_RECORDS
    ensures Chain(cancelled, source, visits + [v])
  {
    var all := visits + [v];
    forall k | 0 <= k < |all| ensures Accepted(cancelled, source, all, k) {
      if k < |visits| { assert Accepted(cancelled, source, visits, k); }
    }
    forall k | 0 <= k < |all| - 1 ensures Linked(all, k) {
      if k < |visits| - 1 { assert Linked(visits, k); }
    }
  }

  /** Along a chain every cursor is new. */
  lemma CursorIsNew(cancelled: nat -> bool, source: Source, visits: seq<Visit<Record>>)
    requires Chain(cancelled, source, visits) && Open(visits)
    ensures NoRepeats(Cursors(visits) + [NextCursor(visits)])
  {
    forall i, j | 0 <= i < j < |visits| ensures visits[i].cursor != visits[j].cursor {
      assert Linked(visits, j - 1);
    }
  }

  lemma {:induction false} RecordsPrefix(visits: seq<Visit<Record>>, n: nat)
    requires n <= |visits|
    ensures Delivered(visits[..n]) <= Delivered(visits)
  {
    if n < |visits| {
      RecordsPrefix(visits[..|visits| - 1], n);
      assert visits[..|visits| - 1][..n] == visits[..n];
    } else {
      assert visits[..n] == visits;
    }
  }

  /** What a complete listing promises about the page the scan is about to read. */
  lemma ListingStep(cancelled: nat -> bool, source: Source, listing: seq<Visit<Record>>, n: nat)
    requires Listing(cancelled, source, listing) && n < |listing|
    ensures listing[n] == Visit(NextCursor(listing[..n]), source(n, NextCursor(listing[..n]))) && listing[n].page.Page?
    ensures listing[..n + 1] == listing[..n] + [listing[n]]
    ensures Chain(cancelled, source, listing[..n + 1]) && Leads(listing[..n + 1])
    ensures listing[n].page.hasMore <==> n < |listing| - 1
  {
    var part := listing[..n + 1];
    RecordsPrefix(listing, n + 1);
    PrefixDistinct(Delivered(listing), |Delivered(listing[..n + 1])|);
    assert Accepted(cancelled, source, listing, n);
    if n > 0 { assert Linked(listing, n - 1); }
    if n < |listing| - 1 { assert Linked(listing, n); }
    forall k | 0 <= k < |part| ensures Accepted(cancelled, source, part, k) { assert Accepted(cancelled, source, listing, k); }
    forall k | 0 <= k < |part| - 1 ensures Linked(part, k) { assert Linked(listing, k); }
  }

  /** A listing begins with whatever visits the scan has made. */
  lemma {:induction false} SameStart(cancelled: nat -> bool, source: Source, visits: seq<Visit<Record>>, listing: seq<Visit<Record>>, n: nat)
    requires Chain(cancelled, source, visits) && Open(visits) && Listing(cancelled, source, listing) && n <= |visits|
    ensures n < |listing| && listing[..n] == visits[..n]
  {
    if n > 0 {
      SameStart(cancelled, source, visits, listing, n - 1);
      ListingStep(cancelled, source, listing, n - 1);
      assert Accepted(cancelled, source, visits, n - 1);
      if n > 1 { assert Linked(visits, n - 2); }
      assert NextCursor(visits[..n - 1]) == visits[n - 1].cursor;
      assert visits[..n] == visits[..n - 1] + [visits[n - 1]];
      if n < |visits| { assert Linked(visits, n - 1); }
    }
  }

  /** When the scan fails, the source hands out no complete listing at all: together with the
      contract of ScanAllPages, the scan succeeds exactly when there is one. */
  lemma StuckHasNoListing(cancelled: nat -> bool, source: Source, visits: seq<Visit<Record>>, listing: seq<Visit<Record>>)
    requires Stuck(cancelled, source, visits)
    ensures !Listing(cancelled, source, listing)
  {
    var n := |visits|;
    assert visits[..n] == visits;
    if Listing(cancelled, source, listing) {
      SameStart(cancelled, source, visits, listing, n);
      ListingStep(cancelled, source, listing, n);
    }
  }
}
