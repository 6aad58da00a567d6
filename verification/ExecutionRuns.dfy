/** A list of writes in closed form: when the transaction goes through, which rows it adds and
    what it answers, in terms of the catalog it started from. */
module ExecutionRuns {
  import opened Text
  import opened CatalogAttributes
  import opened KeyRenaming
  import opened Execution
  import opened ExecutionProofs
  import opened ExecutionEffects

  predicate Adds(w: Write) { w.AddItem? || w.AddVariant? || w.AddOffer? }

  /** How many IDs the writes draw. */
  function Draws(ws: seq<Write>): nat {
    if ws == [] then 0 else Draws(ws[..|ws| - 1]) + if Adds(ws[|ws| - 1]) then 1 else 0
  }

  /** The row a write is about, when n IDs were drawn before it. */
  function KeyOf(st: Stages, id: string, item: string, n: nat, w: Write): Key {
    match w
    case AddItem => Item(st.newId(id, n))
    case PatchItem(_) => Item(item)
    case Archive => Item(item)
    case PatchOffer(o) => Offer(o.id)
    case PatchVariant(v) => Variant(v.id)
    case AddVariant(_) => Variant(st.newId(id, n))
    case AddOffer(_) => Offer(st.newId(id, n))
  }

  /** The IDs of the variants added, by their references. */
  function Refs(st: Stages, id: string, n: nat, ws: seq<Write>): map<string, string> {
    if ws == [] then map[]
    else
      var init, w := ws[..|ws| - 1], ws[|ws| - 1];
      if w.AddVariant? then Refs(st, id, n, init)[w.newVariant.ref := st.newId(id, n + Draws(init))] else Refs(st, id, n, init)
  }

  /** The IDs of the variants, or of the offers, that are patched or added, in order. */
  function Ids(st: Stages, id: string, n: nat, variants: bool, ws: seq<Write>): seq<string> {
    if ws == [] then []
    else
      var init, w := ws[..|ws| - 1], ws[|ws| - 1];
      Ids(st, id, n, variants, init)
      + if OfKind(variants, w) then [KeyOf(st, id, "", n + Draws(init), w).id] else []
  }

  predicate OfKind(variants: bool, w: Write) {
    if variants then w.PatchVariant? || w.AddVariant? else w.PatchOffer? || w.AddOffer?
  }

  function NewKeys(st: Stages, id: string, n: nat, ws: seq<Write>): set<Key> {
    if ws == [] then {}
    else
      var init, w := ws[..|ws| - 1], ws[|ws| - 1];
      NewKeys(st, id, n, init) + if Adds(w) then {KeyOf(st, id, "", n + Draws(init), w)} else {}
  }

  /** Offers are patched before anything is added. */
  predicate PatchesFirst(ws: seq<Write>) { forall i, j :: 0 <= i < j < |ws| && Adds(ws[i]) ==> !ws[j].PatchOffer? }

  predicate NoneCreates(ws: seq<Write>) { forall i :: 0 <= i < |ws| ==> !Creates(ws[i]) }

  // ---------------------------------------------------------------- what a run counts

  ghost predicate Booked(st: Stages, id: string, tx: Tx, ws: seq<Write>, t: Tx) {
    && t.drawn == tx.drawn + Draws(ws) && t.refs == Refs(st, id, tx.drawn, ws)
    && Answered(st, id, tx, ws, t) && Extended(st, id, tx, ws, t)
  }

  ghost predicate Answered(st: Stages, id: string, tx: Tx, ws: seq<Write>, t: Tx) {
    && t.result.itemId == tx.result.itemId
    && t.result.variantIds == tx.result.variantIds + Ids(st, id, tx.drawn, true, ws)
    && t.result.offerIds == tx.result.offerIds + Ids(st, id, tx.drawn, false, ws)
  }

  /** The rows of the transaction are those it found and those it added. */
  ghost predicate Extended(st: Stages, id: string, tx: Tx, ws: seq<Write>, t: Tx) {
    && t.db.rows.Keys == tx.db.rows.Keys + NewKeys(st, id, tx.drawn, ws)
    && t.db.used == tx.db.used + NewKeys(st, id, tx.drawn, ws)
  }

  lemma {:induction false} RunBooks(st: Stages, id: string, p: StoredProposal, tx: Tx, ws: seq<Write>)
    requires NoneCreates(ws) && tx.refs == map[] && Run(st, id, p, tx, ws).Some?
    ensures Booked(st, id, tx, ws, Run(st, id, p, tx, ws).value)
  {
    if ws != [] {
      var init := ws[..|ws| - 1];
      RunBooks(st, id, p, tx, init);
      var t := Run(st, id, p, tx, init).value;
      AnswerNext(st, id, p, tx, ws, t);
      KeysNext(st, id, p, tx, ws, t);
    }
  }

  lemma AnswerNext(st: Stages, id: string, p: StoredProposal, tx: Tx, ws: seq<Write>, t: Tx)
    requires ws != [] && !Creates(ws[|ws| - 1]) && Booked(st, id, tx, ws[..|ws| - 1], t) && Do(st, id, p, t, ws[|ws| - 1]).Some?
    ensures var t' := Do(st, id, p, t, ws[|ws| - 1]).value;
      t'.drawn == tx.drawn + Draws(ws) && t'.refs == Refs(st, id, tx.drawn, ws) && Answered(st, id, tx, ws, t')
  {
  }

  lemma KeysNext(st: Stages, id: string, p: StoredProposal, tx: Tx, ws: seq<Write>, t: Tx)
    requires ws != [] && !Creates(ws[|ws| - 1]) && Booked(st, id, tx, ws[..|ws| - 1], t) && Do(st, id, p, t, ws[|ws| - 1]).Some?
    ensures Extended(st, id, tx, ws, Do(st, id, p, t, ws[|ws| - 1]).value)
  {
  }

  // ---------------------------------------------------------------- when a run goes through

  predicate NotTouched(item: string, past: seq<Write>, key: Key) {
    forall i :: 0 <= i < |past| ==> Touches(item, past[i]) != Some(key)
  }

  /** The row a write adds. */
  function NewRow(st: Stages, q: Proposal, item: string, refs: map<string, string>, w: Write): Row {
    match w
    case AddVariant(v) =>
      Row(item, 1, Stored(map[], if st.rename(q, v.attrs).Some? then st.rename(q, v.attrs).value else None), v.fields, None)
    case AddOffer(o) => Row(item, 1, map[], o.fields, BoundTo(refs, o))
    case _ => Row("", 1, map[], "", None)
  }

  /** What the checks of one write come to, on the row as the transaction found it. */
  predicate ChecksOk(st: Stages, q: Proposal, item: string, db: Database, refs: map<string, string>, w: Write) {
    match w
    case AddItem => false
    case PatchItem(_) => Item(item) in db.rows && st.itemAttrs(db.rows[Item(item)].attrs, q).Some?
    case Archive => true
    case PatchOffer(o) =>
      && Owned(db, Offer(o.id), item) && st.offerOk(db.rows[Offer(o.id)], o)
      && (o.variantId.Some? ==> Owned(db, Variant(o.variantId.value), item))
    case PatchVariant(v) =>
      && Variant(v.id) in db.rows && st.rename(q, v.attrs).Some?
      && (st.rename(q, v.attrs).value.Some? ==> st.attrsOk(q, db.rows[Variant(v.id)].attrs + st.rename(q, v.attrs).value.value))
    case AddVariant(v) => st.rename(q, v.attrs).Some? && st.attrsOk(q, Stored(map[], st.rename(q, v.attrs).value))
    case AddOffer(o) => o.variantRef.Some? ==> o.variantRef.value in refs
  }

  /** A write goes through after others: its checks hold, it is the first about its row, and
      the repository accepts the row it leaves. */
  predicate WriteOk(st: Stages, id: string, p: StoredProposal, tx: Tx, past: seq<Write>, w: Write) {
    var item, key := tx.result.itemId, KeyOf(st, id, tx.result.itemId, tx.drawn + Draws(past), w);
    var refs := Refs(st, id, tx.drawn, past);
    && ChecksOk(st, p.proposal, item, tx.db, refs, w)
    && if Adds(w) then key !in tx.db.used && key !in NewKeys(st, id, tx.drawn, past) && st.accepts(key, NewRow(st, p.proposal, item, refs, w))
       else
         && key in tx.db.rows && NotTouched(item, past, key)
         && st.accepts(key, Patched(st, p.proposal, w, tx.db.rows[key]))
  }

  predicate AllOk(st: Stages, id: string, p: StoredProposal, tx: Tx, ws: seq<Write>) {
    ws == [] || (AllOk(st, id, p, tx, ws[..|ws| - 1]) && WriteOk(st, id, p, tx, ws[..|ws| - 1], ws[|ws| - 1]))
  }

  /** The transaction starts from a catalog whose reviewed rows are as they were reviewed. */
  ghost predicate Starts(p: StoredProposal, tx: Tx, ws: seq<Write>) {
    && DbOk(tx.db) && tx.refs == map[] && p.versions.Keys <= tx.db.used && NoneCreates(ws) && PatchesFirst(ws)
    && forall i :: 0 <= i < |ws| ==> StartsFor(p, tx, ws[i])
  }

  ghost predicate StartsFor(p: StoredProposal, tx: Tx, w: Write) {
    && MergesCurrent(p, tx.db, w)
    && match Touches(tx.result.itemId, w)
       case None => true
       case Some(key) => key in tx.db.rows && tx.db.rows[key].version == VersionIn(p.versions, key)
  }

  lemma {:induction false} NoDraws(st: Stages, id: string, n: nat, ws: seq<Write>)
    requires forall i :: 0 <= i < |ws| ==> !Adds(ws[i])
    ensures Draws(ws) == 0 && NewKeys(st, id, n, ws) == {} && Refs(st, id, n, ws) == map[]
  {
    if ws != [] { NoDraws(st, id, n, ws[..|ws| - 1]); }
  }

  lemma {:induction false} RunOwners(st: Stages, id: string, p: StoredProposal, tx: Tx, ws: seq<Write>, key: Key)
    requires DbOk(tx.db) && Run(st, id, p, tx, ws).Some? && key in tx.db.rows
    ensures var db := Run(st, id, p, tx, ws).value.db; key in db.rows && db.rows[key].owner == tx.db.rows[key].owner
  {
    if ws != [] {
      RunOwners(st, id, p, tx, ws[..|ws| - 1], key);
      RunGood(st, id, p, tx, ws[..|ws| - 1]);
      DoOwners(st, id, p, Run(st, id, p, tx, ws[..|ws| - 1]).value, ws[|ws| - 1], key);
    }
  }

  lemma DoOwners(st: Stages, id: string, p: StoredProposal, t: Tx, w: Write, key: Key)
    requires DbOk(t.db) && key in t.db.rows && Do(st, id, p, t, w).Some?
    ensures var db := Do(st, id, p, t, w).value.db; key in db.rows && db.rows[key].owner == t.db.rows[key].owner
  {
  }

  /** A patch goes through on a row that is still as the transaction found it, and on no other. */
  lemma PatchIff(st: Stages, id: string, p: StoredProposal, tx: Tx, t: Tx, w: Write, key: Key)
    requires DbOk(tx.db) && DbOk(t.db) && t.result.itemId == tx.result.itemId && Touches(tx.result.itemId, w) == Some(key)
    requires StartsFor(p, tx, w) && key in t.db.rows
    requires w.PatchOffer? && w.offer.variantId.Some? ==>
      (Owned(t.db, Variant(w.offer.variantId.value), tx.result.itemId) <==> Owned(tx.db, Variant(w.offer.variantId.value), tx.result.itemId))
    ensures t.db.rows[key] == tx.db.rows[key] ==>
      (Do(st, id, p, t, w).Some?
       <==> ChecksOk(st, p.proposal, tx.result.itemId, tx.db, t.refs, w) && st.accepts(key, Patched(st, p.proposal, w, tx.db.rows[key])))
    ensures t.db.rows[key].version != tx.db.rows[key].version ==> Do(st, id, p, t, w).None?
  {
  }

  lemma AddIff(st: Stages, id: string, p: StoredProposal, t: Tx, w: Write)
    requires Adds(w) && !Creates(w)
    ensures var key := KeyOf(st, id, t.result.itemId, t.drawn, w);
      Do(st, id, p, t, w).Some?
      <==> && ChecksOk(st, p.proposal, t.result.itemId, t.db, t.refs, w) && key !in t.db.used
           && st.accepts(key, NewRow(st, p.proposal, t.result.itemId, t.refs, w))
  {
  }

  lemma StartsInit(p: StoredProposal, tx: Tx, ws: seq<Write>, n: nat)
    requires Starts(p, tx, ws) && n <= |ws|
    ensures Starts(p, tx, ws[..n])
  {
  }

  lemma TouchedBefore(st: Stages, id: string, p: StoredProposal, tx: Tx, past: seq<Write>, i: nat, key: Key)
    requires Starts(p, tx, past) && Run(st, id, p, tx, past).Some? && i < |past| && Touches(tx.result.itemId, past[i]) == Some(key)
    ensures var db := Run(st, id, p, tx, past).value.db;
      key in tx.db.rows && key in db.rows && db.rows[key].version == tx.db.rows[key].version + 1
  {
    assert StartsFor(p, tx, past[i]);
    assert forall j :: 0 <= j < |past| ==> !Creates(past[j]) && StartsFor(p, tx, past[j]) && MergesCurrent(p, tx.db, past[j]);
    RunPatches(st, id, p, tx, past, i, key);
  }

  lemma OfferOwners(st: Stages, id: string, p: StoredProposal, tx: Tx, past: seq<Write>, w: Write)
    requires Starts(p, tx, past + [w]) && Run(st, id, p, tx, past).Some? && w.PatchOffer?
    ensures forall key :: Owned(Run(st, id, p, tx, past).value.db, key, tx.result.itemId) <==> Owned(tx.db, key, tx.result.itemId)
  {
    var ws, t := past + [w], Run(st, id, p, tx, past).value;
    forall i | 0 <= i < |past| ensures !Adds(past[i]) { assert past[i] == ws[i] && w == ws[|past|]; }
    NoDraws(st, id, tx.drawn, past);
    RunBooks(st, id, p, tx, past);
    forall key ensures Owned(t.db, key, tx.result.itemId) <==> Owned(tx.db, key, tx.result.itemId) {
      if key in tx.db.rows { RunOwners(st, id, p, tx, past, key); }
    }
  }

  lemma PatchLastIff(st: Stages, id: string, p: StoredProposal, tx: Tx, past: seq<Write>, w: Write)
    requires Starts(p, tx, past + [w]) && Starts(p, tx, past) && Run(st, id, p, tx, past).Some? && !Adds(w)
    ensures Do(st, id, p, Run(st, id, p, tx, past).value, w).Some? <==> WriteOk(st, id, p, tx, past, w)
  {
    var t, item := Run(st, id, p, tx, past).value, tx.result.itemId;
    var key := KeyOf(st, id, item, tx.drawn + Draws(past), w);
    assert Touches(item, w) == Some(key);
    assert (past + [w])[|past|] == w;
    assert StartsFor(p, tx, w);
    RunBooks(st, id, p, tx, past);
    RunGood(st, id, p, tx, past);
    if w.PatchOffer? { OfferOwners(st, id, p, tx, past, w); }
    PatchIff(st, id, p, tx, t, w, key);
    if NotTouched(item, past, key) {
      RunSpares(st, id, p, tx, past, key);
    } else {
      var i :| 0 <= i < |past| && Touches(item, past[i]) == Some(key);
      TouchedBefore(st, id, p, tx, past, i, key);
    }
  }

  lemma AddLastIff(st: Stages, id: string, p: StoredProposal, tx: Tx, past: seq<Write>, w: Write)
    requires Starts(p, tx, past) && Run(st, id, p, tx, past).Some? && Adds(w) && !Creates(w)
    ensures Do(st, id, p, Run(st, id, p, tx, past).value, w).Some? <==> WriteOk(st, id, p, tx, past, w)
  {
    RunBooks(st, id, p, tx, past);
    AddIff(st, id, p, Run(st, id, p, tx, past).value, w);
  }

  /** The transaction goes through exactly when every write does. */
  lemma {:induction false} RunIff(st: Stages, id: string, p: StoredProposal, tx: Tx, ws: seq<Write>)
    requires Starts(p, tx, ws)
    ensures Run(st, id, p, tx, ws).Some? <==> AllOk(st, id, p, tx, ws)
  {
    if ws != [] {
      var init, w := ws[..|ws| - 1], ws[|ws| - 1];
      StartsInit(p, tx, ws, |ws| - 1);
      RunIff(st, id, p, tx, init);
      if Run(st, id, p, tx, init).Some? {
        assert init + [w] == ws;
        if Adds(w) { AddLastIff(st, id, p, tx, init, w); } else { PatchLastIff(st, id, p, tx, init, w); }
      }
    }
  }

  predicate OkAt(st: Stages, id: string, p: StoredProposal, tx: Tx, ws: seq<Write>, i: nat)
    requires i < |ws|
  {
    WriteOk(st, id, p, tx, ws[..i], ws[i])
  }

  ghost predicate OkBetween(st: Stages, id: string, p: StoredProposal, tx: Tx, ws: seq<Write>, a: nat, b: nat)
    requires a <= b <= |ws|
  {
    forall i :: a <= i < b ==> OkAt(st, id, p, tx, ws, i)
  }

  lemma OkSplit(st: Stages, id: string, p: StoredProposal, tx: Tx, ws: seq<Write>, a: nat, b: nat, c: nat)
    requires a <= b <= c <= |ws|
    ensures OkBetween(st, id, p, tx, ws, a, c) <==> OkBetween(st, id, p, tx, ws, a, b) && OkBetween(st, id, p, tx, ws, b, c)
  {
  }

  lemma {:induction false} AllOkIff(st: Stages, id: string, p: StoredProposal, tx: Tx, ws: seq<Write>)
    ensures AllOk(st, id, p, tx, ws) <==> OkBetween(st, id, p, tx, ws, 0, |ws|)
  {
    if ws != [] {
      var init := ws[..|ws| - 1];
      AllOkIff(st, id, p, tx, init);
      forall i | 0 <= i < |init| ensures OkAt(st, id, p, tx, init, i) == OkAt(st, id, p, tx, ws, i) {
        assert init[..i] == ws[..i];
      }
      OkSplit(st, id, p, tx, ws, 0, |init|, |ws|);
      assert OkAt(st, id, p, tx, ws, |init|) == WriteOk(st, id, p, tx, init, ws[|init|]);
    }
  }

  // ---------------------------------------------------------------- the rows added

  lemma DoAdds(st: Stages, id: string, p: StoredProposal, t: Tx, w: Write)
    requires Adds(w) && !Creates(w) && Do(st, id, p, t, w).Some?
    ensures var key, db := KeyOf(st, id, t.result.itemId, t.drawn, w), Do(st, id, p, t, w).value.db;
      key !in t.db.used && key in db.rows && db.rows[key] == NewRow(st, p.proposal, t.result.itemId, t.refs, w)
  {
  }

  /** Write i added its row, under an unused ID, and the row is there as it was added. */
  ghost predicate AddedAs(st: Stages, id: string, p: StoredProposal, tx: Tx, past: seq<Write>, w: Write, db: Database) {
    var key := KeyOf(st, id, tx.result.itemId, tx.drawn + Draws(past), w);
    && key !in tx.db.used && key in db.rows
    && db.rows[key] == NewRow(st, p.proposal, tx.result.itemId, Refs(st, id, tx.drawn, past), w)
  }

  lemma AddedLast(st: Stages, id: string, p: StoredProposal, tx: Tx, past: seq<Write>, t: Tx, w: Write)
    requires Booked(st, id, tx, past, t) && Adds(w) && !Creates(w) && Do(st, id, p, t, w).Some?
    ensures AddedAs(st, id, p, tx, past, w, Do(st, id, p, t, w).value.db)
  {
    DoAdds(st, id, p, t, w);
  }

  lemma AddedStays(st: Stages, id: string, p: StoredProposal, tx: Tx, past: seq<Write>, added: Write, t: Tx, w: Write)
    requires DbOk(t.db) && p.versions.Keys <= tx.db.used && AddedAs(st, id, p, tx, past, added, t.db) && Do(st, id, p, t, w).Some?
    ensures AddedAs(st, id, p, tx, past, added, Do(st, id, p, t, w).value.db)
  {
    var key := KeyOf(st, id, tx.result.itemId, tx.drawn + Draws(past), added);
    assert VersionIn(p.versions, key) == 0;
    DoSettled(st, id, p, t, w, key);
  }

  lemma {:induction false} RunAdds(st: Stages, id: string, p: StoredProposal, tx: Tx, ws: seq<Write>, i: nat)
    requires Starts(p, tx, ws) && Run(st, id, p, tx, ws).Some? && i < |ws| && Adds(ws[i])
    ensures AddedAs(st, id, p, tx, ws[..i], ws[i], Run(st, id, p, tx, ws).value.db)
  {
    var init, w := ws[..|ws| - 1], ws[|ws| - 1];
    StartsInit(p, tx, ws, |ws| - 1);
    var t := Run(st, id, p, tx, init).value;
    if i < |init| {
      assert init[..i] == ws[..i];
      RunAdds(st, id, p, tx, init, i);
      RunGood(st, id, p, tx, init);
      AddedStays(st, id, p, tx, ws[..i], ws[i], t, w);
    } else {
      RunBooks(st, id, p, tx, init);
      AddedLast(st, id, p, tx, init, t, w);
    }
  }
}
