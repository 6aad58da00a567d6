/** The catalog and the answer after a committed execution, in terms of the proposal. */
module ExecutionResults {
  import opened Text
  import opened CatalogAttributes
  import opened KeyRenaming
  import opened Execution
  import opened ExecutionProofs
  import opened ExecutionEffects
  import opened ExecutionRuns
  import opened ExecutionOutcome

  // ---------------------------------------------------------------- the answer

  lemma {:induction false} IdsSkip(st: Stages, id: string, n: nat, variants: bool, ws: seq<Write>, a: nat, b: nat)
    requires a <= b <= |ws| && forall i :: a <= i < b ==> !OfKind(variants, ws[i])
    ensures Ids(st, id, n, variants, ws[..b]) == Ids(st, id, n, variants, ws[..a])
  {
    if a < b {
      IdsSkip(st, id, n, variants, ws, a, b - 1);
      assert ws[..b][..b - 1] == ws[..b - 1];
    }
  }

  /** Write i answers with this ID. */
  predicate Gives(st: Stages, id: string, n: nat, variants: bool, ws: seq<Write>, i: nat, x: string) {
    i < |ws| && OfKind(variants, ws[i]) && KeyOf(st, id, "", n + Draws(ws[..i]), ws[i]).id == x
  }

  lemma {:induction false} IdsTake(st: Stages, id: string, n: nat, variants: bool, ws: seq<Write>, a: nat, b: nat, ids: seq<string>)
    requires a <= b <= |ws| && |ids| == b - a
    requires forall i :: 0 <= i < |ids| ==> Gives(st, id, n, variants, ws, a + i, ids[i])
    ensures Ids(st, id, n, variants, ws[..b]) == Ids(st, id, n, variants, ws[..a]) + ids
  {
    if a < b {
      var init, last := ids[..b - 1 - a], ids[b - 1 - a];
      assert forall i :: 0 <= i < |init| ==> init[i] == ids[i];
      IdsTake(st, id, n, variants, ws, a, b - 1, init);
      IdsLast(st, id, n, variants, ws, b, last);
      assert ids == init + [last];
      Assoc(Ids(st, id, n, variants, ws[..a]), init, last);
    }
  }

  lemma IdsLast(st: Stages, id: string, n: nat, variants: bool, ws: seq<Write>, b: nat, x: string)
    requires 0 < b <= |ws| && Gives(st, id, n, variants, ws, b - 1, x)
    ensures Ids(st, id, n, variants, ws[..b]) == Ids(st, id, n, variants, ws[..b - 1]) + [x]
  {
    assert ws[..b][..b - 1] == ws[..b - 1];
  }

  lemma Assoc(a: seq<string>, b: seq<string>, x: string)
    ensures a + b + [x] == a + (b + [x])
  {
  }

  function VariantIds(vs: seq<VariantChange>): seq<string> { seq(|vs|, i requires 0 <= i < |vs| => vs[i].id) }

  function OfferIds(os: seq<OfferChange>): seq<string> { seq(|os|, i requires 0 <= i < |os| => os[i].id) }

  /** IDs n to n + m - 1 of those drawn for a proposal. */
  function NewIds(st: Stages, id: string, n: nat, m: nat): seq<string> { seq(m, i requires 0 <= i < m => st.newId(id, n + i)) }

  lemma TailIds(st: Stages, id: string, n: nat, ws: seq<Write>, P: nat, vs: seq<NewVariant>, os: seq<NewOffer>)
    requires NewTail(ws, P, vs, os)
    ensures Ids(st, id, n, true, ws) == Ids(st, id, n, true, ws[..P]) + NewIds(st, id, n, |vs|)
    ensures Ids(st, id, n, false, ws) == Ids(st, id, n, false, ws[..P]) + NewIds(st, id, n + |vs|, |os|)
  {
    var Q := P + |vs|;
    forall i | P <= i < |ws| ensures OfKind(true, ws[i]) == (i < Q) && OfKind(false, ws[i]) == (i >= Q) { AddsAt(ws, P, vs, os, i); }
    var vids, oids := NewIds(st, id, n, |vs|), NewIds(st, id, n + |vs|, |os|);
    forall i | 0 <= i < |vs| ensures Gives(st, id, n, true, ws, P + i, vids[i]) { TailGives(st, id, n, ws, P, vs, os, P + i); }
    forall i | 0 <= i < |os| ensures Gives(st, id, n, false, ws, Q + i, oids[i]) { TailGives(st, id, n, ws, P, vs, os, Q + i); }
    IdsTake(st, id, n, true, ws, P, Q, vids);
    IdsSkip(st, id, n, true, ws, Q, |ws|);
    IdsSkip(st, id, n, false, ws, P, Q);
    IdsTake(st, id, n, false, ws, Q, |ws|, oids);
    assert ws[..|ws|] == ws;
  }

  lemma TailGives(st: Stages, id: string, n: nat, ws: seq<Write>, P: nat, vs: seq<NewVariant>, os: seq<NewOffer>, i: nat)
    requires NewTail(ws, P, vs, os) && P <= i < |ws|
    ensures Gives(st, id, n, i < P + |vs|, ws, i, st.newId(id, n + (i - P)))
  {
    AddsAt(ws, P, vs, os, i);
    DrawsAt(ws, P, vs, os, i);
  }

  lemma PatchIds(st: Stages, id: string, n: nat, ws: seq<Write>, h: nat, q: Proposal)
    requires q.Update? && Layout(ws, h, q)
    ensures var P := h + |q.offers| + |q.variants|;
      Ids(st, id, n, true, ws[..P]) == VariantIds(q.variants) && Ids(st, id, n, false, ws[..P]) == OfferIds(q.offers)
  {
    var o := h + |q.offers|;
    var P := o + |q.variants|;
    forall i | 0 <= i < P ensures OfKind(true, ws[i]) == (i >= o) && OfKind(false, ws[i]) == (h <= i < o) { PatchAt(ws, h, q, i); }
    forall i | 0 <= i < |q.variants| ensures Gives(st, id, n, true, ws, o + i, VariantIds(q.variants)[i]) { PatchAt(ws, h, q, o + i); }
    forall i | 0 <= i < |q.offers| ensures Gives(st, id, n, false, ws, h + i, OfferIds(q.offers)[i]) { PatchAt(ws, h, q, h + i); }
    IdsSkip(st, id, n, true, ws, 0, o);
    IdsTake(st, id, n, true, ws, o, P, VariantIds(q.variants));
    IdsSkip(st, id, n, false, ws, 0, h);
    IdsTake(st, id, n, false, ws, h, o, OfferIds(q.offers));
    IdsSkip(st, id, n, false, ws, o, P);
  }

  lemma PatchAt(ws: seq<Write>, h: nat, q: Proposal, i: nat)
    requires q.Update? && Layout(ws, h, q) && i < h + |q.offers| + |q.variants|
    ensures ws[i] == if i < h then PatchItem(q.changes)
                     else if i < h + |q.offers| then PatchOffer(q.offers[i - h])
                     else PatchVariant(q.variants[i - h - |q.offers|])
  {
    if h <= i < h + |q.offers| {
      assert ws[h + (i - h)] == PatchOffer(q.offers[i - h]);
    } else if h <= i {
      assert ws[h + |q.offers| + (i - h - |q.offers|)] == PatchVariant(q.variants[i - h - |q.offers|]);
    }
  }

  // ---------------------------------------------------------------- the rows

  /** New variant k and new offer k each have their own row below the item. */
  ghost predicate NewRowsThere(st: Stages, id: string, n: nat, q: Proposal, item: string, was: Database, db: Database)
    requires !q.Delete?
  {
    && (forall k :: 0 <= k < |q.newVariants| ==> VariantThere(st, id, n, q, item, was, db, k))
    && (forall k :: 0 <= k < |q.newOffers| ==> OfferThere(st, id, n, q, item, was, db, k))
  }

  ghost predicate VariantThere(st: Stages, id: string, n: nat, q: Proposal, item: string, was: Database, db: Database, k: nat)
    requires !q.Delete? && k < |q.newVariants|
  {
    var key := Variant(st.newId(id, n + k));
    key !in was.used && key in db.rows && db.rows[key] == VariantRow(st, q, item, q.newVariants[k])
  }

  ghost predicate OfferThere(st: Stages, id: string, n: nat, q: Proposal, item: string, was: Database, db: Database, k: nat)
    requires !q.Delete? && k < |q.newOffers|
  {
    var key := Offer(st.newId(id, n + |q.newVariants| + k));
    key !in was.used && key in db.rows && db.rows[key] == OfferRow(st, id, n, item, q.newVariants, q.newOffers[k])
  }

  lemma NewRows(st: Stages, id: string, p: StoredProposal, tx: Tx, ws: seq<Write>, P: nat)
    requires !p.proposal.Delete? && NewTail(ws, P, p.proposal.newVariants, p.proposal.newOffers)
    requires Starts(p, tx, ws) && Run(st, id, p, tx, ws).Some?
    ensures NewRowsThere(st, id, tx.drawn, p.proposal, tx.result.itemId, tx.db, Run(st, id, p, tx, ws).value.db)
  {
    var q, db := p.proposal, Run(st, id, p, tx, ws).value.db;
    forall k | 0 <= k < |q.newVariants| ensures VariantThere(st, id, tx.drawn, q, tx.result.itemId, tx.db, db, k) {
      NewVariantRow(st, id, p, tx, ws, P, k);
    }
    forall k | 0 <= k < |q.newOffers| ensures OfferThere(st, id, tx.drawn, q, tx.result.itemId, tx.db, db, k) {
      NewOfferRow(st, id, p, tx, ws, P, k);
    }
  }

  lemma NewVariantRow(st: Stages, id: string, p: StoredProposal, tx: Tx, ws: seq<Write>, P: nat, k: nat)
    requires !p.proposal.Delete? && NewTail(ws, P, p.proposal.newVariants, p.proposal.newOffers) && k < |p.proposal.newVariants|
    requires Starts(p, tx, ws) && Run(st, id, p, tx, ws).Some?
    ensures VariantThere(st, id, tx.drawn, p.proposal, tx.result.itemId, tx.db, Run(st, id, p, tx, ws).value.db, k)
  {
    AddsAt(ws, P, p.proposal.newVariants, p.proposal.newOffers, P + k);
    DrawsAt(ws, P, p.proposal.newVariants, p.proposal.newOffers, P + k);
    RunAdds(st, id, p, tx, ws, P + k);
    VariantIsThere(st, id, p, tx, ws[..P + k], k, Run(st, id, p, tx, ws).value.db);
  }

  lemma VariantIsThere(st: Stages, id: string, p: StoredProposal, tx: Tx, past: seq<Write>, k: nat, db: Database)
    requires !p.proposal.Delete? && k < |p.proposal.newVariants| && Draws(past) == k
    requires AddedAs(st, id, p, tx, past, AddVariant(p.proposal.newVariants[k]), db)
    ensures VariantThere(st, id, tx.drawn, p.proposal, tx.result.itemId, tx.db, db, k)
  {
  }

  lemma NewOfferRow(st: Stages, id: string, p: StoredProposal, tx: Tx, ws: seq<Write>, P: nat, k: nat)
    requires !p.proposal.Delete? && NewTail(ws, P, p.proposal.newVariants, p.proposal.newOffers) && k < |p.proposal.newOffers|
    requires Starts(p, tx, ws) && Run(st, id, p, tx, ws).Some?
    ensures OfferThere(st, id, tx.drawn, p.proposal, tx.result.itemId, tx.db, Run(st, id, p, tx, ws).value.db, k)
  {
    var vs, os := p.proposal.newVariants, p.proposal.newOffers;
    var i := P + |vs| + k;
    AddsAt(ws, P, vs, os, i);
    DrawsAt(ws, P, vs, os, i);
    RunAdds(st, id, p, tx, ws, i);
    RefKnown(st, id, p, tx, ws, i);
    BoundAt(st, id, tx.drawn, ws, P, vs, os, k);
    OfferIsThere(st, id, p, tx, ws[..i], k, Run(st, id, p, tx, ws).value.db);
  }

  lemma OfferIsThere(st: Stages, id: string, p: StoredProposal, tx: Tx, past: seq<Write>, k: nat, db: Database)
    requires !p.proposal.Delete? && k < |p.proposal.newOffers| && Draws(past) == |p.proposal.newVariants| + k
    requires AddedAs(st, id, p, tx, past, AddOffer(p.proposal.newOffers[k]), db)
    requires BoundTo(Refs(st, id, tx.drawn, past), p.proposal.newOffers[k])
          == Binding(st, id, tx.drawn, p.proposal.newVariants, p.proposal.newOffers[k])
    ensures OfferThere(st, id, tx.drawn, p.proposal, tx.result.itemId, tx.db, db, k)
  {
  }

  lemma RefKnown(st: Stages, id: string, p: StoredProposal, tx: Tx, ws: seq<Write>, i: nat)
    requires Starts(p, tx, ws) && Run(st, id, p, tx, ws).Some? && i < |ws| && ws[i].AddOffer?
    ensures ws[i].newOffer.variantRef.Some? ==> ws[i].newOffer.variantRef.value in Refs(st, id, tx.drawn, ws[..i])
  {
    RunIff(st, id, p, tx, ws);
    AllOkIff(st, id, p, tx, ws);
    assert OkAt(st, id, p, tx, ws, i);
  }

  /** A row is new: that of a variant or of an offer the proposal adds. */
  ghost predicate IsNew(st: Stages, id: string, n: nat, q: Proposal, key: Key)
    requires !q.Delete?
  {
    || (exists k :: 0 <= k < |q.newVariants| && key.Variant? && Repeats(st, id, n, 0, k, key.id))
    || (exists k :: 0 <= k < |q.newOffers| && key.Offer? && Repeats(st, id, n, |q.newVariants|, k, key.id))
  }

  lemma NewKeysAre(st: Stages, id: string, n: nat, q: Proposal, ws: seq<Write>, P: nat, key: Key)
    requires !q.Delete? && NewTail(ws, P, q.newVariants, q.newOffers)
    ensures key in NewKeys(st, id, n, ws) <==> IsNew(st, id, n, q, key)
  {
    var Q := P + |q.newVariants|;
    assert ws[..|ws|] == ws;
    NewKeysAt(st, id, n, ws, P, q.newVariants, q.newOffers, |ws|, key);
    forall j | P <= j < |ws|
      ensures Drawn(st, id, n, ws, P, j) == key
         <==> if j < Q then key.Variant? && Repeats(st, id, n, 0, j - P, key.id) else key.Offer? && Repeats(st, id, n, |q.newVariants|, j - Q, key.id)
    {
      AddsAt(ws, P, q.newVariants, q.newOffers, j);
    }
    if k :| 0 <= k < |q.newVariants| && key.Variant? && Repeats(st, id, n, 0, k, key.id) { assert Drawn(st, id, n, ws, P, P + k) == key; }
    if k :| 0 <= k < |q.newOffers| && key.Offer? && Repeats(st, id, n, |q.newVariants|, k, key.id) { assert Drawn(st, id, n, ws, P, Q + k) == key; }
  }

  // ---------------------------------------------------------------- updates

  /** Every change of the update is in the catalog, made from the row as it was reviewed. */
  ghost predicate ChangesThere(st: Stages, q: Proposal, was: Database, db: Database, written: bool)
    requires q.Update?
  {
    && (written ==> ItemChanged(st, q, was, db))
    && (forall o :: o in q.offers ==> OfferChanged(o, was, db))
    && (forall v :: v in q.variants ==> VariantChanged(st, q, v, was, db))
  }

  ghost predicate ItemChanged(st: Stages, q: Proposal, was: Database, db: Database)
    requires q.Update?
  {
    var key := Item(q.itemId);
    key in was.rows && key in db.rows && db.rows[key] == ItemAfter(st, q, was.rows[key])
  }

  ghost predicate OfferChanged(o: OfferChange, was: Database, db: Database) {
    var key := Offer(o.id);
    key in was.rows && key in db.rows && db.rows[key] == OfferAfter(o, was.rows[key])
  }

  ghost predicate VariantChanged(st: Stages, q: Proposal, v: VariantChange, was: Database, db: Database) {
    var key := Variant(v.id);
    key in was.rows && key in db.rows && db.rows[key] == VariantAfter(st, q, v, was.rows[key])
  }

  /** The update says nothing about this row. */
  ghost predicate NotChanged(q: Proposal, key: Key, written: bool)
    requires q.Update?
  {
    && (written ==> key != Item(q.itemId))
    && (forall o :: o in q.offers ==> key != Offer(o.id))
    && (forall v :: v in q.variants ==> key != Variant(v.id))
  }

  lemma ChangeMade(st: Stages, w: World, id: string, ws: seq<Write>, i: nat, key: Key)
    requires Inv(w) && id in w.proposals && !w.proposals[id].proposal.Create? && AllUnchanged(w, id)
    requires ws == Writes(st, w.db, w.proposals[id].proposal) && i < |ws| && Touches(w.proposals[id].proposal.itemId, ws[i]) == Some(key)
    requires Apply(st, id, w.proposals[id], w.db).Some?
    ensures key in w.reviews[id].rows && key in Apply(st, id, w.proposals[id], w.db).value.db.rows
    ensures Apply(st, id, w.proposals[id], w.db).value.db.rows[key]
         == Patched(st, w.proposals[id].proposal, ws[i], w.reviews[id].rows[key])
  {
    var p := w.proposals[id];
    Named(st, w, id, ws[i], i, key);
    AllMergeCurrent(st, w, id);
    RunPatches(st, id, p, StartTx(w.db, p.proposal), ws, i, key);
    NamedKey(st, w.db, p.proposal, i, key);
    if p.proposal.Update? { MentionsPart(p.proposal, key); }
    ReviewTheorem(w, id, key);
    assert Unchanged(w, id, key);
  }

  /** An update whose reviewed rows are unchanged and whose writes went through. */
  ghost predicate Applied(st: Stages, w: World, id: string, h: nat, ws: seq<Write>, db: Database) {
    && Inv(w) && id in w.proposals && w.proposals[id].proposal.Update? && AllUnchanged(w, id)
    && ws == Writes(st, w.db, w.proposals[id].proposal) && Layout(ws, h, w.proposals[id].proposal)
    && Apply(st, id, w.proposals[id], w.db).Some? && db == Apply(st, id, w.proposals[id], w.db).value.db
  }

  lemma PatchedIs(st: Stages, q: Proposal, row: Row)
    requires q.Update?
    ensures Patched(st, q, PatchItem(q.changes), row) == ItemAfter(st, q, row)
    ensures forall o :: Patched(st, q, PatchOffer(o), row) == OfferAfter(o, row)
    ensures forall v :: Patched(st, q, PatchVariant(v), row) == VariantAfter(st, q, v, row)
  {
  }

  /** Every row a write is about is the patch of the row as it was. */
  ghost predicate AllMade(st: Stages, q: Proposal, ws: seq<Write>, was: Database, db: Database)
    requires q.Update?
  {
    forall i :: 0 <= i < |ws| && Touches(q.itemId, ws[i]).Some? ==> Made(st, q, ws[i], was, db)
  }

  ghost predicate Made(st: Stages, q: Proposal, x: Write, was: Database, db: Database)
    requires q.Update? && Touches(q.itemId, x).Some?
  {
    var key := Touches(q.itemId, x).value;
    key in was.rows && key in db.rows && db.rows[key] == Patched(st, q, x, was.rows[key])
  }

  lemma UpdateMade(st: Stages, w: World, id: string, h: nat, ws: seq<Write>, db: Database)
    requires Applied(st, w, id, h, ws, db)
    ensures AllMade(st, w.proposals[id].proposal, ws, w.reviews[id], db)
  {
    var q := w.proposals[id].proposal;
    forall i | 0 <= i < |ws| && Touches(q.itemId, ws[i]).Some? ensures Made(st, q, ws[i], w.reviews[id], db) {
      ChangeMade(st, w, id, ws, i, Touches(q.itemId, ws[i]).value);
    }
  }

  lemma ItemMade(st: Stages, q: Proposal, h: nat, ws: seq<Write>, was: Database, db: Database)
    requires q.Update? && Layout(ws, h, q) && AllMade(st, q, ws, was, db) && h == 1
    ensures ItemChanged(st, q, was, db)
  {
    assert Made(st, q, ws[0], was, db);
    PatchedIs(st, q, was.rows[Item(q.itemId)]);
  }

  lemma OfferMade(st: Stages, q: Proposal, h: nat, ws: seq<Write>, was: Database, db: Database, j: nat)
    requires q.Update? && Layout(ws, h, q) && AllMade(st, q, ws, was, db) && j < |q.offers|
    ensures OfferChanged(q.offers[j], was, db)
  {
    PatchAt(ws, h, q, h + j);
    assert Made(st, q, ws[h + j], was, db);
    PatchedIs(st, q, was.rows[Offer(q.offers[j].id)]);
  }

  lemma VariantMade(st: Stages, q: Proposal, h: nat, ws: seq<Write>, was: Database, db: Database, j: nat)
    requires q.Update? && Layout(ws, h, q) && AllMade(st, q, ws, was, db) && j < |q.variants|
    ensures VariantChanged(st, q, q.variants[j], was, db)
  {
    PatchAt(ws, h, q, h + |q.offers| + j);
    assert Made(st, q, ws[h + |q.offers| + j], was, db);
    PatchedIs(st, q, was.rows[Variant(q.variants[j].id)]);
  }

  lemma UpdateChanges(st: Stages, q: Proposal, h: nat, ws: seq<Write>, was: Database, db: Database)
    requires q.Update? && Layout(ws, h, q) && AllMade(st, q, ws, was, db)
    ensures ChangesThere(st, q, was, db, h == 1)
  {
    if h == 1 { ItemMade(st, q, h, ws, was, db); }
    forall o | o in q.offers ensures OfferChanged(o, was, db) {
      var j :| 0 <= j < |q.offers| && q.offers[j] == o;
      OfferMade(st, q, h, ws, was, db, j);
    }
    forall v | v in q.variants ensures VariantChanged(st, q, v, was, db) {
      var j :| 0 <= j < |q.variants| && q.variants[j] == v;
      VariantMade(st, q, h, ws, was, db, j);
    }
  }

  lemma NotTouchedAt(ws: seq<Write>, h: nat, q: Proposal, key: Key, i: nat)
    requires q.Update? && Layout(ws, h, q) && i < |ws| && NotChanged(q, key, h == 1)
    ensures !Creates(ws[i]) && Touches(q.itemId, ws[i]) != Some(key)
  {
    if i < h + |q.offers| + |q.variants| {
      PatchAt(ws, h, q, i);
    } else {
      AddsAt(ws, h + |q.offers| + |q.variants|, q.newVariants, q.newOffers, i);
    }
  }

  lemma UpdateSpares(st: Stages, w: World, id: string, h: nat, ws: seq<Write>, db: Database, key: Key)
    requires Applied(st, w, id, h, ws, db) && key in w.db.rows && NotChanged(w.proposals[id].proposal, key, h == 1)
    ensures key in db.rows && db.rows[key] == w.db.rows[key]
  {
    var q := w.proposals[id].proposal;
    forall i | 0 <= i < |ws| ensures !Creates(ws[i]) && Touches(q.itemId, ws[i]) != Some(key) { NotTouchedAt(ws, h, q, key, i); }
    RunSpares(st, id, w.proposals[id], StartTx(w.db, q), ws, key);
  }

  ghost predicate AnswerIs(st: Stages, id: string, q: Proposal, r: Result)
    requires q.Update?
  {
    && r.itemId == q.itemId
    && r.variantIds == VariantIds(q.variants) + NewIds(st, id, 0, |q.newVariants|)
    && r.offerIds == OfferIds(q.offers) + NewIds(st, id, |q.newVariants|, |q.newOffers|)
  }

  lemma UpdateKeys(st: Stages, id: string, p: StoredProposal, tx: Tx, ws: seq<Write>, P: nat)
    requires !p.proposal.Delete? && NewTail(ws, P, p.proposal.newVariants, p.proposal.newOffers)
    requires Starts(p, tx, ws) && Run(st, id, p, tx, ws).Some?
    ensures forall key :: key in Run(st, id, p, tx, ws).value.db.rows
                     <==> key in tx.db.rows || IsNew(st, id, tx.drawn, p.proposal, key)
  {
    RunBooks(st, id, p, tx, ws);
    forall key ensures key in NewKeys(st, id, tx.drawn, ws) <==> IsNew(st, id, tx.drawn, p.proposal, key) {
      NewKeysAre(st, id, tx.drawn, p.proposal, ws, P, key);
    }
  }

  lemma UpdateAnswer(st: Stages, id: string, p: StoredProposal, tx: Tx, ws: seq<Write>, h: nat)
    requires p.proposal.Update? && Layout(ws, h, p.proposal) && NoneCreates(ws) && Run(st, id, p, tx, ws).Some?
    requires tx == StartTx(tx.db, p.proposal)
    ensures AnswerIs(st, id, p.proposal, Run(st, id, p, tx, ws).value.result)
  {
    var q := p.proposal;
    RunBooks(st, id, p, tx, ws);
    TailIds(st, id, 0, ws, h + |q.offers| + |q.variants|, q.newVariants, q.newOffers);
    PatchIds(st, id, 0, ws, h, q);
  }

  lemma UpdateAdds(st: Stages, id: string, p: StoredProposal, tx: Tx, ws: seq<Write>, h: nat)
    requires p.proposal.Update? && Layout(ws, h, p.proposal) && Starts(p, tx, ws) && Run(st, id, p, tx, ws).Some?
    requires tx == StartTx(tx.db, p.proposal)
    ensures var q, t := p.proposal, Run(st, id, p, tx, ws).value;
      && NewRowsThere(st, id, 0, q, q.itemId, tx.db, t.db) && AnswerIs(st, id, q, t.result)
      && (forall key :: key in t.db.rows <==> key in tx.db.rows || IsNew(st, id, 0, q, key))
  {
    var P := h + |p.proposal.offers| + |p.proposal.variants|;
    NewRows(st, id, p, tx, ws, P);
    UpdateKeys(st, id, p, tx, ws, P);
    UpdateAnswer(st, id, p, tx, ws, h);
  }

  /** A committed update, over the proposal's own lists: every changed row is the reviewed row
      with that change, every new variant and offer has a row of its own under the item, every
      other row is as it was, and the answer lists the changed IDs followed by the new ones. */
  lemma UpdateTheorem(st: Stages, w: World, id: string, principal: string, guard: bool, closed: bool)
    requires Inv(w) && id in w.proposals && w.proposals[id].proposal.Update?
    requires Executed(st, w, id, principal, guard, closed).0 != w
    ensures var q, (w', r) := w.proposals[id].proposal, Executed(st, w, id, principal, guard, closed);
      var written := ItemWritten(st, w.db, q);
      && ChangesThere(st, q, w.reviews[id], w'.db, written)
      && NewRowsThere(st, id, 0, q, q.itemId, w.db, w'.db)
      && (forall key :: key in w'.db.rows <==> key in w.db.rows || IsNew(st, id, 0, q, key))
      && (forall key :: key in w.db.rows && NotChanged(q, key, written) ==> key in w'.db.rows && w'.db.rows[key] == w.db.rows[key])
      && r.Some? && AnswerIs(st, id, q, r.value)
  {
    var p := w.proposals[id];
    UpdateCommitIff(st, w, id, principal, guard, closed);
    var ws, h := Writes(st, w.db, p.proposal), if ItemWritten(st, w.db, p.proposal) then 1 else 0;
    var db := Executed(st, w, id, principal, guard, closed).0.db;
    WritesLayout(st, w.db, p.proposal);
    StartsNow(st, w, id);
    UpdateAdds(st, id, p, StartTx(w.db, p.proposal), ws, h);
    UpdateMade(st, w, id, h, ws, db);
    UpdateChanges(st, p.proposal, h, ws, w.reviews[id], db);
    forall key | key in w.db.rows && NotChanged(p.proposal, key, h == 1) ensures key in db.rows && db.rows[key] == w.db.rows[key] {
      UpdateSpares(st, w, id, h, ws, db, key);
    }
  }

  // ---------------------------------------------------------------- creations

  lemma {:induction false} RunAppend(st: Stages, id: string, p: StoredProposal, tx: Tx, a: seq<Write>, b: seq<Write>)
    ensures Run(st, id, p, tx, a + b)
         == match Run(st, id, p, tx, a) case None => None case Some(t) => Run(st, id, p, t, b)
  {
    if b == [] {
      assert a + b == a;
    } else {
      RunAppend(st, id, p, tx, a, b[..|b| - 1]);
      assert (a + b)[..|a + b| - 1] == a + b[..|b| - 1];
    }
  }

  function ItemRow(st: Stages, catalog: string, q: Proposal): Row
    requires q.Create?
  {
    var attrs := st.itemAttrs(map[], q);
    Row(catalog, 1, if attrs.Some? && attrs.value.Some? then attrs.value.value else map[], q.fields, None)
  }

  /** The item of a creation passes: its attributes are accepted, its ID is unused, and the
      repository takes the row. */
  predicate NewItemPasses(st: Stages, db: Database, id: string, catalog: string, q: Proposal)
    requires q.Create?
  {
    var key := Item(st.newId(id, 0));
    st.itemAttrs(map[], q).Some? && key !in db.used && st.accepts(key, ItemRow(st, catalog, q))
  }

  /** The transaction after the item was added. */
  function WithItem(st: Stages, id: string, p: StoredProposal, db: Database): Tx
    requires p.proposal.Create?
  {
    var key := Item(st.newId(id, 0));
    Tx(Database(db.rows[key := ItemRow(st, p.catalog, p.proposal)], db.used + {key}), 1, map[], Result(key.id, [], []))
  }

  lemma CreateRuns(st: Stages, id: string, p: StoredProposal, db: Database)
    requires p.proposal.Create?
    ensures Apply(st, id, p, db)
         == if NewItemPasses(st, db, id, p.catalog, p.proposal)
            then Run(st, id, p, WithItem(st, id, p, db), NewWrites(p.proposal.newVariants, p.proposal.newOffers)) else None
  {
    var q, tx := p.proposal, StartTx(db, p.proposal);
    RunAppend(st, id, p, tx, [AddItem], NewWrites(q.newVariants, q.newOffers));
    assert [AddItem][..0] == [];
    assert Run(st, id, p, tx, [AddItem]) == Do(st, id, p, tx, AddItem);
  }

  lemma NewWritesTail(vs: seq<NewVariant>, os: seq<NewOffer>)
    ensures NewTail(NewWrites(vs, os), 0, vs, os)
  {
  }

  lemma CreateStarts(st: Stages, w: World, id: string)
    requires Inv(w) && id in w.proposals && w.proposals[id].proposal.Create?
    ensures var p := w.proposals[id];
      Starts(p, WithItem(st, id, p, w.db), NewWrites(p.proposal.newVariants, p.proposal.newOffers))
  {
    var p := w.proposals[id];
    assert ProposalOk(w, id);
    var vs, os := p.proposal.newVariants, p.proposal.newOffers;
    var ws := NewWrites(vs, os);
    NewWritesTail(vs, os);
    forall i | 0 <= i < |ws| ensures Adds(ws[i]) && !Creates(ws[i]) && !ws[i].PatchOffer? { AddsAt(ws, 0, vs, os, i); }
  }

  /** A creation commits exactly when the caller may execute it, it was not executed before, and
      the item and everything added with it pass. */
  lemma CreateCommitIff(st: Stages, w: World, id: string, principal: string, guard: bool, closed: bool)
    requires Inv(w) && id in w.proposals && w.proposals[id].proposal.Create?
    ensures var p := w.proposals[id];
      Executed(st, w, id, principal, guard, closed).0 != w
      <==> && guard && closed && principal == p.principal && p.result.None? && st.valid(p.proposal)
           && NewItemPasses(st, w.db, id, p.catalog, p.proposal)
           && NewPasses(st, w.db, id, 1, p.proposal, st.newId(id, 0))
  {
    var p := w.proposals[id];
    assert ProposalOk(w, id);
    CreateRuns(st, id, p, w.db);
    CreateApplies(st, w, id);
  }

  lemma CreateApplies(st: Stages, w: World, id: string)
    requires Inv(w) && id in w.proposals && w.proposals[id].proposal.Create?
    ensures var p := w.proposals[id];
      Run(st, id, p, WithItem(st, id, p, w.db), NewWrites(p.proposal.newVariants, p.proposal.newOffers)).Some?
      <==> NewPasses(st, w.db, id, 1, p.proposal, st.newId(id, 0))
  {
    var p := w.proposals[id];
    var q, tx := p.proposal, WithItem(st, id, p, w.db);
    var ws := NewWrites(q.newVariants, q.newOffers);
    CreateStarts(st, w, id);
    NewWritesTail(q.newVariants, q.newOffers);
    RunIff(st, id, p, tx, ws);
    AllOkIff(st, id, p, tx, ws);
    NewIff(st, id, p, tx, ws, 0);
    SamePasses(st, w.db, tx.db, id, q, tx.result.itemId);
  }

  /** Whether the added rows pass does not depend on the item's own row. */
  lemma SamePasses(st: Stages, a: Database, b: Database, id: string, q: Proposal, item: string)
    requires !q.Delete? && forall key: Key :: !key.Item? ==> (key in a.used <==> key in b.used)
    ensures NewPasses(st, a, id, 1, q, item) <==> NewPasses(st, b, id, 1, q, item)
  {
    assert forall k :: 0 <= k < |q.newVariants| ==>
      (NewVariantPasses(st, a, id, 1, q, item, q.newVariants, k) <==> NewVariantPasses(st, b, id, 1, q, item, q.newVariants, k));
    assert forall k :: 0 <= k < |q.newOffers| ==>
      (NewOfferPasses(st, a, id, 1, item, q.newVariants, q.newOffers, k) <==> NewOfferPasses(st, b, id, 1, item, q.newVariants, q.newOffers, k));
  }

  /** The item has a row of its own in the catalog, every variant and offer one under the item,
      every row that was there is as it was, and the answer lists the new IDs in the order of
      the proposal. */
  ghost predicate CreationThere(st: Stages, id: string, p: StoredProposal, was: Database, db: Database, r: Result)
    requires p.proposal.Create?
  {
    var q, item := p.proposal, st.newId(id, 0);
    && Item(item) !in was.used && Item(item) in db.rows && db.rows[Item(item)] == ItemRow(st, p.catalog, q)
    && NewRowsThere(st, id, 1, q, item, was, db)
    && (forall key :: key in db.rows <==> key in was.rows || key == Item(item) || IsNew(st, id, 1, q, key))
    && (forall key :: key in was.rows ==> key in db.rows && db.rows[key] == was.rows[key])
    && r == Result(item, NewIds(st, id, 1, |q.newVariants|), NewIds(st, id, 1 + |q.newVariants|, |q.newOffers|))
  }

  lemma CreateTheorem(st: Stages, w: World, id: string, principal: string, guard: bool, closed: bool)
    requires Inv(w) && id in w.proposals && w.proposals[id].proposal.Create?
    requires Executed(st, w, id, principal, guard, closed).0 != w
    ensures var (w', r) := Executed(st, w, id, principal, guard, closed);
      r.Some? && CreationThere(st, id, w.proposals[id], w.db, w'.db, r.value)
  {
    var p := w.proposals[id];
    assert ProposalOk(w, id);
    CreateCommitIff(st, w, id, principal, guard, closed);
    CreateRuns(st, id, p, w.db);
    CreateStarts(st, w, id);
    CreateLeaves(st, id, p, w.db, WithItem(st, id, p, w.db), NewWrites(p.proposal.newVariants, p.proposal.newOffers));
  }

  lemma CreateLeaves(st: Stages, id: string, p: StoredProposal, was: Database, tx: Tx, ws: seq<Write>)
    requires p.proposal.Create? && ws == NewWrites(p.proposal.newVariants, p.proposal.newOffers) && p.versions == map[]
    requires NewItemPasses(st, was, id, p.catalog, p.proposal) && tx == WithItem(st, id, p, was) && DbOk(was)
    requires Starts(p, tx, ws) && Run(st, id, p, tx, ws).Some?
    ensures var t := Run(st, id, p, tx, ws).value; CreationThere(st, id, p, was, t.db, t.result)
  {
    CreateAdds(st, id, p, tx, ws);
    var db := Run(st, id, p, tx, ws).value.db;
    StillNew(st, id, p.proposal, tx.result.itemId, tx.db, was, db);
    assert forall key :: key in was.rows ==> key in tx.db.rows && tx.db.rows[key] == was.rows[key];
  }

  lemma StillNew(st: Stages, id: string, q: Proposal, item: string, after: Database, was: Database, db: Database)
    requires !q.Delete? && was.used <= after.used && NewRowsThere(st, id, 1, q, item, after, db)
    ensures NewRowsThere(st, id, 1, q, item, was, db)
  {
    forall k | 0 <= k < |q.newVariants| ensures VariantThere(st, id, 1, q, item, was, db, k) {
      assert VariantThere(st, id, 1, q, item, after, db, k);
    }
    forall k | 0 <= k < |q.newOffers| ensures OfferThere(st, id, 1, q, item, was, db, k) {
      assert OfferThere(st, id, 1, q, item, after, db, k);
    }
  }

  lemma CreateAdds(st: Stages, id: string, p: StoredProposal, tx: Tx, ws: seq<Write>)
    requires p.proposal.Create? && ws == NewWrites(p.proposal.newVariants, p.proposal.newOffers) && p.versions == map[]
    requires Starts(p, tx, ws) && Run(st, id, p, tx, ws).Some? && tx.drawn == 1 && tx.result.variantIds == [] && tx.result.offerIds == []
    ensures var q, t := p.proposal, Run(st, id, p, tx, ws).value;
      && NewRowsThere(st, id, 1, q, tx.result.itemId, tx.db, t.db)
      && (forall key :: key in t.db.rows <==> key in tx.db.rows || IsNew(st, id, 1, q, key))
      && (forall key :: key in tx.db.rows ==> key in t.db.rows && t.db.rows[key] == tx.db.rows[key])
      && t.result == Result(tx.result.itemId, NewIds(st, id, 1, |q.newVariants|), NewIds(st, id, 1 + |q.newVariants|, |q.newOffers|))
  {
    var vs, os := p.proposal.newVariants, p.proposal.newOffers;
    NewWritesTail(vs, os);
    NewRows(st, id, p, tx, ws, 0);
    UpdateKeys(st, id, p, tx, ws, 0);
    RunGood(st, id, p, tx, ws);
    RunBooks(st, id, p, tx, ws);
    TailIds(st, id, 1, ws, 0, vs, os);
  }

  // ---------------------------------------------------------------- deletions

  function Archived(st: Stages, row: Row): Row { Row(row.owner, row.version + 1, row.attrs, st.archived(row.fields), row.variant) }

  /** A deletion commits exactly when the caller may execute it, it was not executed before, the
      item is unchanged since its review and the repository takes the archived row; it archives
      the item and touches nothing else. */
  lemma DeleteTheorem(st: Stages, w: World, id: string, principal: string, guard: bool, closed: bool)
    requires Inv(w) && id in w.proposals && w.proposals[id].proposal.Delete?
    ensures var p, (w', r) := w.proposals[id], Executed(st, w, id, principal, guard, closed);
      var key := Item(p.proposal.itemId);
      && (w' != w <==> && guard && closed && principal == p.principal && p.result.None? && st.valid(p.proposal)
                       && Unchanged(w, id, key) && st.accepts(key, Archived(st, w.db.rows[key])))
      && (w' != w ==> && w'.db == w.db.(rows := w.db.rows[key := Archived(st, w.db.rows[key])])
                      && r == Some(Result(p.proposal.itemId, [], [])))
  {
    var p := w.proposals[id];
    var key := Item(p.proposal.itemId);
    FreshIff(w, id);
    ReviewTheorem(w, id, key);
    forall k ensures k in p.versions <==> k == key { ReviewTheorem(w, id, k); }
    DeleteRuns(st, id, p, w.db);
  }

  lemma DeleteRuns(st: Stages, id: string, p: StoredProposal, db: Database)
    requires p.proposal.Delete?
    ensures Apply(st, id, p, db) == Do(st, id, p, StartTx(db, p.proposal), Archive)
  {
    var tx := StartTx(db, p.proposal);
    assert [Archive][..0] == [];
    assert Run(st, id, p, tx, [Archive]) == Do(st, id, p, tx, Archive);
  }
}
