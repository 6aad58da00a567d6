/** A listing read page by page: a request names a cursor, and a page hands out the next. */
module Paging {

  datatype Load<+T> = LoadFailed | Page(items: seq<T>, hasMore: bool, next: string)

  /** One request and its answer. */
  datatype Visit<+T> = Visit(cursor: string, page: Load<T>)

  function PageItems<T>(v: Visit<T>): seq<T> { if v.page.Page? then v.page.items else [] }

  /** Everything the visited pages contained, in order. */
  function Delivered<T>(visits: seq<Visit<T>>): seq<T> {
    if visits == [] then [] else Delivered(visits[..|visits| - 1]) + PageItems(visits[|visits| - 1])
  }

  /** The cursor to ask for after the visits. */
  function NextCursor<T>(visits: seq<Visit<T>>): string {
    if visits == [] || visits[|visits| - 1].page.LoadFailed? then "" else visits[|visits| - 1].page.next
  }

  function CursorSet<T>(visits: seq<Visit<T>>): set<string> { set k | 0 <= k < |visits| :: visits[k].cursor }

  lemma AppendCursor<T>(visits: seq<Visit<T>>, v: Visit<T>)
    ensures CursorSet(visits + [v]) == CursorSet(visits) + {v.cursor}
  {
    var all := visits + [v];
    assert all[|visits|] == v;
    forall c | c in CursorSet(visits) ensures c in CursorSet(all) {
      var k :| 0 <= k < |visits| && visits[k].cursor == c;
      assert all[k].cursor == c;
    }
  }
}
