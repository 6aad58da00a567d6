/** What a committed execution leaves in the catalog. */
module ExecutionEffects {
  import opened Text
  import opened CatalogAttributes
  import opened KeyRenaming
  import opened Execution
  import opened ExecutionProofs

  /** The existing row a write changes. */
  function Touches(item: string, w: Write): Option<Key> {
    match w
    case PatchItem(_) => Some(Item(item))
    case Archive => Some(Item(item))
    case PatchOffer(o) => Some(Offer(o.id))
    case PatchVariant(v) => Some(Variant(v.id))
    case _ => None
  }

  /** The row that a write makes of the row it finds. */
  function Patched(st: Stages, q: Proposal, w: Write, row: Row): Row {
    Rewritten(row,
      match w
      case PatchItem(change) =>
        Patch(change, if st.itemAttrs(row.attrs, q).Some? then st.itemAttrs(row.attrs, q).value else None, None)
      case Archive => Patch(Some(st.archived(row.fields)), None, None)
      case PatchOffer(o) => Patch(o.fields, None, Rebinding(o))
      case PatchVariant(v) =>
        Patch(v.fields, Merge(row.attrs, if st.rename(q, v.attrs).Some? then st.rename(q, v.attrs).value else None), None)
      case _ => Patch(None, None, None))
  }

  /** A row that no longer has its reviewed version, or that the write is not about, stays. */
  lemma DoSettled(st: Stages, id: string, p: StoredProposal, tx: Tx, w: Write, key: Key)
    requires DbOk(tx.db) && key in tx.db.rows && Do(st, id, p, tx, w).Some?
    requires tx.db.rows[key].version != VersionIn(p.versions, key) || Touches(tx.result.itemId, w) != Some(key)
    ensures key in Do(st, id, p, tx, w).value.db.rows && Do(st, id, p, tx, w).value.db.rows[key] == tx.db.rows[key]
  {
  }

  /** A patching write finds the reviewed version and leaves the patched row. */
  lemma DoPatches(st: Stages, id: string, p: StoredProposal, tx: Tx, w: Write, key: Key)
    requires Do(st, id, p, tx, w).Some? && Touches(tx.result.itemId, w) == Some(key)
    requires w.PatchVariant? && key in tx.db.rows ==> Reviewed(p, w.variant.id) == tx.db.rows[key].attrs
    ensures key in tx.db.rows && tx.db.rows[key].version == VersionIn(p.versions, key)
    ensures key in Do(st, id, p, tx, w).value.db.rows
    ensures Do(st, id, p, tx, w).value.db.rows[key] == Patched(st, p.proposal, w, tx.db.rows[key])
  {
  }

  predicate Creates(w: Write) { w.AddItem? }

  lemma {:induction false} RunKeepsItem(st: Stages, id: string, p: StoredProposal, tx: Tx, ws: seq<Write>)
    requires forall i :: 0 <= i < |ws| ==> !Creates(ws[i])
    ensures Run(st, id, p, tx, ws).Some? ==> Run(st, id, p, tx, ws).value.result.itemId == tx.result.itemId
  {
    if ws != [] { RunKeepsItem(st, id, p, tx, ws[..|ws| - 1]); }
  }

  ghost predicate MergesCurrent(p: StoredProposal, db: Database, w: Write) {
    w.PatchVariant? && Variant(w.variant.id) in db.rows ==> Reviewed(p, w.variant.id) == db.rows[Variant(w.variant.id)].attrs
  }

  /** Every row named by a write ends up patched once, from the row the transaction found. */
  lemma {:induction false} RunPatches(st: Stages, id: string, p: StoredProposal, tx: Tx, ws: seq<Write>, i: nat, key: Key)
    requires DbOk(tx.db) && Run(st, id, p, tx, ws).Some? && i < |ws| && key in tx.db.rows
    requires forall j :: 0 <= j < |ws| ==> !Creates(ws[j]) && MergesCurrent(p, tx.db, ws[j])
    requires Touches(tx.result.itemId, ws[i]) == Some(key) && tx.db.rows[key].version == VersionIn(p.versions, key)
    ensures var db := Run(st, id, p, tx, ws).value.db;
      key in db.rows && db.rows[key] == Patched(st, p.proposal, ws[i], tx.db.rows[key])
  {
    var init, last := ws[..|ws| - 1], ws[|ws| - 1];
    var t := Run(st, id, p, tx, init).value;
    RunGood(st, id, p, tx, init);
    RunKeepsItem(st, id, p, tx, init);
    if i < |init| {
      RunPatches(st, id, p, tx, init, i, key);
      DoSettled(st, id, p, t, last, key);
    } else {
      assert KeyEvolves(tx.db, t.db, key);
      assert key in t.db.rows;
      assert MergesCurrent(p, tx.db, last);
      PatchLast(st, id, p, tx, t, last, key);
    }
  }

  lemma PatchLast(st: Stages, id: string, p: StoredProposal, tx: Tx, t: Tx, w: Write, key: Key)
    requires Do(st, id, p, t, w).Some? && Touches(t.result.itemId, w) == Some(key) && MergesCurrent(p, tx.db, w)
    requires key in tx.db.rows && key in t.db.rows && tx.db.rows[key].version == VersionIn(p.versions, key)
    requires tx.db.rows[key].version == t.db.rows[key].version ==> tx.db.rows[key] == t.db.rows[key]
    ensures var db := Do(st, id, p, t, w).value.db;
      key in db.rows && db.rows[key] == Patched(st, p.proposal, w, tx.db.rows[key])
  {
    assert t.db.rows[key].version == VersionIn(p.versions, key);
    DoPatches(st, id, p, t, w, key);
  }

  /** Rows that no write names stay as they are. */
  lemma {:induction false} RunSpares(st: Stages, id: string, p: StoredProposal, tx: Tx, ws: seq<Write>, key: Key)
    requires DbOk(tx.db) && Run(st, id, p, tx, ws).Some? && key in tx.db.rows
    requires forall j :: 0 <= j < |ws| ==> !Creates(ws[j]) && Touches(tx.result.itemId, ws[j]) != Some(key)
    ensures var db := Run(st, id, p, tx, ws).value.db;
      key in db.rows && db.rows[key] == tx.db.rows[key]
  {
    if ws != [] {
      var init := ws[..|ws| - 1];
      RunSpares(st, id, p, tx, init, key);
      RunGood(st, id, p, tx, init);
      RunKeepsItem(st, id, p, tx, init);
      DoSettled(st, id, p, Run(st, id, p, tx, init).value, ws[|ws| - 1], key);
    }
  }

  // ---------------------------------------------------------------- the effect of an update

  lemma WritesAreKnown(st: Stages, db: Database, q: Proposal, i: nat)
    requires !q.Create? && i < |Writes(st, db, q)|
    ensures !Creates(Writes(st, db, q)[i])
  {
  }

  lemma ReviewedNow(st: Stages, w: World, id: string, x: Write)
    requires Inv(w) && id in w.proposals && x.PatchVariant? && w.proposals[id].proposal.Update?
    requires x.variant in w.proposals[id].proposal.variants
    requires forall key :: key in w.proposals[id].versions ==> Unchanged(w, id, key)
    ensures MergesCurrent(w.proposals[id], w.db, x)
  {
    var key := Variant(x.variant.id);
    VariantReviewed(w, id, x.variant);
    assert Unchanged(w, id, key);
    SameRows(w, id, key);
    EvolvesReflexive(w.db);
    ReviewedIsCurrent(w, id, w.db, x.variant.id);
  }

  lemma AllMergeCurrent(st: Stages, w: World, id: string)
    requires Inv(w) && id in w.proposals && !w.proposals[id].proposal.Create?
    requires forall key :: key in w.proposals[id].versions ==> Unchanged(w, id, key)
    ensures var ws := Writes(st, w.db, w.proposals[id].proposal);
      forall j :: 0 <= j < |ws| ==> !Creates(ws[j]) && MergesCurrent(w.proposals[id], w.db, ws[j])
  {
    var q := w.proposals[id].proposal;
    var ws := Writes(st, w.db, q);
    forall j | 0 <= j < |ws| ensures !Creates(ws[j]) && MergesCurrent(w.proposals[id], w.db, ws[j]) {
      WritesAreKnown(st, w.db, q, j);
      if ws[j].PatchVariant? {
        VariantWritesOf(st, w.db, q, j);
        ReviewedNow(st, w, id, ws[j]);
      }
    }
  }

  /** A committed update or deletion turns every row it names into the patch of the row as it
      was, once, and leaves all other rows of the catalog as they were. */
  lemma EffectTheorem(st: Stages, w: World, id: string, principal: string, guard: bool, closed: bool, key: Key)
    requires Inv(w) && Executed(st, w, id, principal, guard, closed).0 != w
    requires !w.proposals[id].proposal.Create? && key in w.db.rows
    ensures var q := w.proposals[id].proposal;
      var ws, db := Writes(st, w.db, q), Executed(st, w, id, principal, guard, closed).0.db;
      && key in db.rows
      && (forall i :: 0 <= i < |ws| && Touches(q.itemId, ws[i]) == Some(key) ==> db.rows[key] == Patched(st, q, ws[i], w.db.rows[key]))
      && ((forall i :: 0 <= i < |ws| ==> Touches(q.itemId, ws[i]) != Some(key)) ==> db.rows[key] == w.db.rows[key])
  {
    var p := w.proposals[id];
    var q := p.proposal;
    var ws, tx := Writes(st, w.db, q), StartTx(w.db, q);
    FreshCommit(st, w, id, principal, guard, closed);
    AllMergeCurrent(st, w, id);
    RunGood(st, id, p, tx, ws);
    forall i | 0 <= i < |ws| && Touches(q.itemId, ws[i]) == Some(key)
      ensures Run(st, id, p, tx, ws).value.db.rows[key] == Patched(st, q, ws[i], w.db.rows[key])
    {
      Named(st, w, id, ws[i], i, key);
      RunPatches(st, id, p, tx, ws, i, key);
    }
    if forall i :: 0 <= i < |ws| ==> Touches(q.itemId, ws[i]) != Some(key) { RunSpares(st, id, p, tx, ws, key); }
  }

  /** What a write names was reviewed, so it has its reviewed version. */
  lemma Named(st: Stages, w: World, id: string, x: Write, i: nat, key: Key)
    requires Inv(w) && id in w.proposals && !w.proposals[id].proposal.Create?
    requires forall k :: k in w.proposals[id].versions ==> Unchanged(w, id, k)
    requires i < |Writes(st, w.db, w.proposals[id].proposal)| && x == Writes(st, w.db, w.proposals[id].proposal)[i]
    requires Touches(w.proposals[id].proposal.itemId, x) == Some(key)
    ensures key in w.db.rows && w.db.rows[key].version == VersionIn(w.proposals[id].versions, key)
  {
    var q := w.proposals[id].proposal;
    assert ProposalOk(w, id);
    NamedKey(st, w.db, q, i, key);
    assert key in w.proposals[id].versions;
    assert Unchanged(w, id, key);
    SameRows(w, id, key);
  }

  lemma NamedKey(st: Stages, db: Database, q: Proposal, i: nat, key: Key)
    requires !q.Create? && i < |Writes(st, db, q)| && Touches(q.itemId, Writes(st, db, q)[i]) == Some(key)
    ensures key == Item(q.itemId) || (q.Update? && key in PartKeys(q))
  {
    var x := Writes(st, db, q)[i];
    if x.PatchVariant? {
      VariantWritesOf(st, db, q, i);
      PartOf(q, key);
    } else if x.PatchOffer? {
      OfferWritesOf(st, db, q, i);
      PartOf(q, key);
    }
  }

  lemma PartOf(q: Proposal, key: Key)
    requires q.Update? && ((exists o :: o in q.offers && key == Offer(o.id)) || (exists v :: v in q.variants && key == Variant(v.id)))
    ensures key in PartKeys(q)
  {
  }

  lemma OfferWritesOf(st: Stages, db: Database, q: Proposal, i: nat)
    requires i < |Writes(st, db, q)| && Writes(st, db, q)[i].PatchOffer?
    ensures q.Update? && Writes(st, db, q)[i].offer in q.offers
  {
    if q.Update? { WriteAt(st, db, q, i); }
  }
}
