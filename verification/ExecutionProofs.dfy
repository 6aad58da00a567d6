/** Exactly-once execution of approved proposals, over every sequence of reviews, executions
    and outside edits. */
module ExecutionProofs {
  import opened Text
  import opened CatalogAttributes
  import opened KeyRenaming
  import opened Execution

  // ---------------------------------------------------------------- how the catalog evolves

  ghost predicate DbOk(db: Database) {
    forall key :: key in db.rows ==> key in db.used && db.rows[key].version >= 1
  }

  /** A key once used stays used; a row still there has the same version only if it is the same. */
  ghost predicate KeyEvolves(a: Database, b: Database, key: Key) {
    && (key in a.used ==> key in b.used)
    && (key in a.used && key in b.rows ==>
          && key in a.rows && a.rows[key].version <= b.rows[key].version
          && (a.rows[key].version == b.rows[key].version ==> a.rows[key] == b.rows[key]))
  }

  ghost predicate Evolves(a: Database, b: Database) { forall key :: KeyEvolves(a, b, key) }

  lemma EvolvesTransitive(a: Database, b: Database, c: Database)
    requires Evolves(a, b) && Evolves(b, c)
    ensures Evolves(a, c)
  {
    forall key ensures KeyEvolves(a, c, key) {
      assert KeyEvolves(a, b, key) && KeyEvolves(b, c, key);
    }
  }

  lemma EvolvesReflexive(a: Database)
    requires DbOk(a)
    ensures Evolves(a, a)
  {
    assert forall key :: key in a.used && key in a.rows ==> KeyEvolves(a, a, key);
  }

  lemma EditEvolves(db: Database, e: Edit)
    requires DbOk(db)
    ensures DbOk(Edited(db, e)) && Evolves(db, Edited(db, e))
  {
    forall key ensures KeyEvolves(db, Edited(db, e), key) {}
  }

  // ---------------------------------------------------------------- what a transaction writes

  /** Rows outside `mine` are only added, never changed or removed. */
  ghost predicate Confined(a: Database, b: Database, mine: set<Key>) {
    forall key :: key in a.rows ==> key in b.rows && (key !in mine ==> b.rows[key] == a.rows[key])
  }

  ghost predicate Good(a: Database, b: Database, mine: set<Key>) {
    DbOk(b) && Evolves(a, b) && Confined(a, b, mine)
  }

  lemma PatchGood(st: Stages, p: StoredProposal, db: Database, key: Key, patch: Patch)
    requires DbOk(db)
    ensures var r := PatchRow(st, db, key, VersionIn(p.versions, key), patch);
      r.Some? ==> Good(db, r.value, p.versions.Keys)
  {
    var r := PatchRow(st, db, key, VersionIn(p.versions, key), patch);
    if r.Some? {
      forall k ensures KeyEvolves(db, r.value, k) {}
    }
  }

  lemma CreateGood(st: Stages, p: StoredProposal, db: Database, key: Key, row: Row)
    requires DbOk(db)
    ensures var r := CreateRow(st, db, key, row); r.Some? ==> Good(db, r.value, p.versions.Keys)
  {
    var r := CreateRow(st, db, key, row);
    if r.Some? {
      forall k ensures KeyEvolves(db, r.value, k) {}
    }
  }

  lemma DoGood(st: Stages, id: string, p: StoredProposal, tx: Tx, w: Write)
    requires DbOk(tx.db)
    ensures Do(st, id, p, tx, w).Some? ==> Good(tx.db, Do(st, id, p, tx, w).value.db, p.versions.Keys)
  {
    var new_ := st.newId(id, tx.drawn);
    match w
    case AddItem =>
      var attrs := st.itemAttrs(map[], p.proposal);
      if attrs.Some? {
        CreateGood(st, p, tx.db, Item(new_), Row(p.catalog, 1, Stored(map[], attrs.value), if p.proposal.Create? then p.proposal.fields else "", None));
      }
    case PatchItem(change) =>
      var key := Item(tx.result.itemId);
      if key in tx.db.rows && st.itemAttrs(tx.db.rows[key].attrs, p.proposal).Some? {
        PatchGood(st, p, tx.db, key, Patch(change, st.itemAttrs(tx.db.rows[key].attrs, p.proposal).value, None));
      }
    case Archive =>
      var key := Item(tx.result.itemId);
      if key in tx.db.rows { PatchGood(st, p, tx.db, key, Patch(Some(st.archived(tx.db.rows[key].fields)), None, None)); }
    case PatchOffer(o) => PatchGood(st, p, tx.db, Offer(o.id), Patch(o.fields, None, Rebinding(o)));
    case PatchVariant(v) =>
      var changes := st.rename(p.proposal, v.attrs);
      if changes.Some? { PatchGood(st, p, tx.db, Variant(v.id), Patch(v.fields, Merge(Reviewed(p, v.id), changes.value), None)); }
    case AddVariant(v) =>
      var changes := st.rename(p.proposal, v.attrs);
      if changes.Some? { CreateGood(st, p, tx.db, Variant(new_), Row(tx.result.itemId, 1, Stored(map[], changes.value), v.fields, None)); }
    case AddOffer(o) => CreateGood(st, p, tx.db, Offer(new_), Row(tx.result.itemId, 1, map[], o.fields, BoundTo(tx.refs, o)));
  }

  lemma GoodTransitive(a: Database, b: Database, c: Database, mine: set<Key>)
    requires Good(a, b, mine) && Good(b, c, mine)
    ensures Good(a, c, mine)
  {
    EvolvesTransitive(a, b, c);
  }

  lemma {:induction false} RunGood(st: Stages, id: string, p: StoredProposal, tx: Tx, ws: seq<Write>)
    requires DbOk(tx.db)
    ensures Run(st, id, p, tx, ws).Some? ==> Good(tx.db, Run(st, id, p, tx, ws).value.db, p.versions.Keys)
  {
    if ws == [] {
      EvolvesReflexive(tx.db);
    } else {
      var init := ws[..|ws| - 1];
      RunGood(st, id, p, tx, init);
      var t := Run(st, id, p, tx, init);
      if t.Some? {
        DoGood(st, id, p, t.value, ws[|ws| - 1]);
        var t' := Do(st, id, p, t.value, ws[|ws| - 1]);
        if t'.Some? { GoodTransitive(tx.db, t.value.db, t'.value.db, p.versions.Keys); }
      }
    }
  }

  lemma {:induction false} RunFails(st: Stages, id: string, p: StoredProposal, tx: Tx, ws: seq<Write>, n: nat)
    requires n <= |ws| && Run(st, id, p, tx, ws[..n]).None?
    ensures Run(st, id, p, tx, ws).None?
  {
    if n < |ws| {
      assert ws[..|ws| - 1][..n] == ws[..n];
      RunFails(st, id, p, tx, ws[..|ws| - 1], n);
    } else {
      assert ws[..n] == ws;
    }
  }

  // ---------------------------------------------------------------- the invariant

  /** What is known of one stored proposal. */
  ghost predicate ProposalOk(w: World, id: string)
    requires id in w.proposals && id in w.reviews
  {
    var p := w.proposals[id];
    && DbOk(w.reviews[id]) && Evolves(w.reviews[id], w.db)
    && TakeSnapshot(w.reviews[id], p.catalog, p.proposal) == Some(Snapshot(p.versions, p.variantAttrs))
  }

  /** How often a proposal was committed, according to its record. */
  function Recorded(w: World, id: string): nat {
    if id in w.proposals && w.proposals[id].result.Some? then 1 else 0
  }

  ghost predicate Inv(w: World) {
    && DbOk(w.db) && w.proposals.Keys == w.reviews.Keys
    && (forall id :: id in w.proposals ==> ProposalOk(w, id))
    && (forall id :: multiset(w.commits)[id] == Recorded(w, id))
  }

  lemma Moved(w: World, db: Database)
    requires Inv(w) && DbOk(db) && Evolves(w.db, db)
    ensures Inv(w.(db := db))
  {
    var w' := w.(db := db);
    forall id | id in w'.proposals ensures ProposalOk(w', id) {
      assert ProposalOk(w, id);
      EvolvesTransitive(w.reviews[id], w.db, db);
    }
    assert forall id :: Recorded(w', id) == Recorded(w, id);
  }

  lemma PrepareInv(st: Stages, w: World, id: string, principal: string, catalog: string, q: Proposal, guard: bool)
    requires Inv(w)
    ensures Inv(Prepared(st, w, id, principal, catalog, q, guard).0)
  {
    var w' := Prepared(st, w, id, principal, catalog, q, guard).0;
    if Prepared(st, w, id, principal, catalog, q, guard).1 {
      EvolvesReflexive(w.db);
      forall i | i in w'.proposals ensures ProposalOk(w', i) {
        assert i != id ==> ProposalOk(w, i);
      }
      assert forall i :: Recorded(w', i) == Recorded(w, i);
    }
  }

  lemma Committed(w: World, id: string, r: Result)
    requires Inv(w) && id in w.proposals && w.proposals[id].result.None?
    ensures Inv(w.(proposals := w.proposals[id := w.proposals[id].(result := Some(r))], commits := w.commits + [id]))
  {
    var w' := w.(proposals := w.proposals[id := w.proposals[id].(result := Some(r))], commits := w.commits + [id]);
    forall i | i in w'.proposals ensures ProposalOk(w', i) {
      assert ProposalOk(w, i);
    }
    forall i ensures multiset(w'.commits)[i] == Recorded(w', i) {
      assert multiset(w.commits)[i] == Recorded(w, i);
    }
  }

  lemma ExecuteInv(st: Stages, w: World, id: string, principal: string, guard: bool, closed: bool)
    requires Inv(w)
    ensures Inv(Executed(st, w, id, principal, guard, closed).0)
  {
    var w' := Executed(st, w, id, principal, guard, closed).0;
    if w' != w {
      var p := w.proposals[id];
      RunGood(st, id, p, StartTx(w.db, p.proposal), Writes(st, w.db, p.proposal));
      Moved(w, w'.db);
      Committed(w.(db := w'.db), id, Apply(st, id, p, w.db).value.result);
    }
  }

  lemma StepInv(w: World, op: Op)
    requires Inv(w)
    ensures Inv(Step(w, op))
  {
    match op
    case Prepare(st, id, principal, catalog, q, guard) => PrepareInv(st, w, id, principal, catalog, q, guard);
    case Execute(st, id, principal, guard, closed) => ExecuteInv(st, w, id, principal, guard, closed);
    case Outside(e) => EditEvolves(w.db, e); Moved(w, Edited(w.db, e));
  }

  predicate Initial(w: World) { w == World(Database(map[], {}), map[], map[], []) }

  lemma {:induction false} RunInv(w: World, ops: seq<Op>)
    requires Initial(w)
    ensures Inv(Steps(w, ops))
  {
    if ops != [] {
      RunInv(w, ops[..|ops| - 1]);
      StepInv(Steps(w, ops[..|ops| - 1]), ops[|ops| - 1]);
    }
  }

  // ---------------------------------------------------------------- theorems

  /** In every run each proposal's writes are committed at most once, and its record says so. */
  lemma {:induction false} CommittedAtMostOnce(w: World, ops: seq<Op>, id: string)
    requires Initial(w)
    ensures var w' := Steps(w, ops);
      && multiset(w'.commits)[id] <= 1
      && (multiset(w'.commits)[id] == 1 <==> id in w'.proposals && w'.proposals[id].result.Some?)
  {
    RunInv(w, ops);
  }

  /** A recorded result survives every later operation, and executing again answers with it
      and writes nothing. */
  lemma {:induction false} ReplayTheorem(w: World, ops: seq<Op>, id: string, st: Stages, closed: bool)
    requires id in w.proposals && w.proposals[id].result.Some?
    ensures var w' := Steps(w, ops);
      && id in w'.proposals && w'.proposals[id] == w.proposals[id]
      && Executed(st, w', id, w.proposals[id].principal, true, closed) == (w', w.proposals[id].result)
  {
    if ops != [] { ReplayTheorem(w, ops[..|ops| - 1], id, st, closed); }
  }

  /** The rows of a snapshot, found again at the same versions, are the rows reviewed. */
  lemma SameRows(w: World, id: string, key: Key)
    requires Inv(w) && id in w.proposals && key in w.proposals[id].versions
    ensures key in w.reviews[id].rows && w.reviews[id].rows[key].version == w.proposals[id].versions[key]
    ensures key in w.db.rows && w.db.rows[key].version == w.proposals[id].versions[key] ==> w.db.rows[key] == w.reviews[id].rows[key]
  {
    assert ProposalOk(w, id);
    assert KeyEvolves(w.reviews[id], w.db, key);
  }

  ghost predicate Unchanged(w: World, id: string, key: Key)
    requires id in w.reviews
  {
    key in w.db.rows && key in w.reviews[id].rows && w.db.rows[key] == w.reviews[id].rows[key]
  }

  /** A first execution commits only if every reviewed row is unchanged, and then changes no
      row that was not reviewed. */
  lemma FreshCommit(st: Stages, w: World, id: string, principal: string, guard: bool, closed: bool)
    requires Inv(w)
    ensures var w' := Executed(st, w, id, principal, guard, closed).0;
      w' != w ==>
        && id in w.proposals && w.proposals[id].result.None? && id in w.reviews
        && (forall key :: key in w.proposals[id].versions ==> Unchanged(w, id, key))
        && Good(w.db, w'.db, w.proposals[id].versions.Keys)
  {
    var w' := Executed(st, w, id, principal, guard, closed).0;
    if w' != w {
      var p := w.proposals[id];
      RunGood(st, id, p, StartTx(w.db, p.proposal), Writes(st, w.db, p.proposal));
      var now := TakeSnapshot(w.db, p.catalog, p.proposal).value;
      forall key | key in p.versions ensures Unchanged(w, id, key) {
        SameRows(w, id, key);
        assert VersionIn(now.versions, key) == p.versions[key];
      }
    }
  }

  lemma {:induction false} StaysStale(w: World, ops: seq<Op>, id: string, key: Key)
    requires Inv(w) && id in w.proposals && w.proposals[id].result.None?
    requires key in w.proposals[id].versions && !Unchanged(w, id, key)
    ensures var w' := Steps(w, ops);
      && Inv(w') && id in w'.proposals && w'.proposals[id] == w.proposals[id] && w'.reviews[id] == w.reviews[id]
      && !Unchanged(w', id, key)
  {
    if ops != [] {
      var mid, op := Steps(w, ops[..|ops| - 1]), ops[|ops| - 1];
      StaysStale(w, ops[..|ops| - 1], id, key);
      StepInv(mid, op);
      StaleStep(mid, op, id, key);
    }
  }

  /** A changed or removed row makes every proposal reviewed before unexecutable for good:
      after any further operations, executing it answers nothing and changes nothing. */
  lemma StaleForever(w: World, ops: seq<Op>, id: string, key: Key, st: Stages, principal: string, guard: bool, closed: bool)
    requires Inv(w) && id in w.proposals && w.proposals[id].result.None?
    requires key in w.proposals[id].versions && !Unchanged(w, id, key)
    ensures Executed(st, Steps(w, ops), id, principal, guard, closed) == (Steps(w, ops), None)
  {
    StaysStale(w, ops, id, key);
    FreshIff(Steps(w, ops), id);
  }

  lemma StaleStep(w: World, op: Op, id: string, key: Key)
    requires Inv(w) && id in w.proposals && w.proposals[id].result.None?
    requires key in w.proposals[id].versions && !Unchanged(w, id, key)
    ensures var w' := Step(w, op);
      && id in w'.proposals && w'.proposals[id] == w.proposals[id] && id in w'.reviews && w'.reviews[id] == w.reviews[id]
      && !Unchanged(w', id, key)
  {
    var w' := Step(w, op);
    StepEvolves(w, op);
    if op.Execute? { FreshCommit(op.st, w, op.id, op.principal, op.guard, op.closed); }
    assert ProposalOk(w, id);
    assert KeyEvolves(w.db, w'.db, key) && KeyEvolves(w.reviews[id], w.db, key);
  }

  lemma StepEvolves(w: World, op: Op)
    requires Inv(w)
    ensures Evolves(w.db, Step(w, op).db)
  {
    EvolvesReflexive(w.db);
    if op.Execute? { FreshCommit(op.st, w, op.id, op.principal, op.guard, op.closed); }
    if op.Outside? { EditEvolves(w.db, op.edit); }
  }

  // ---------------------------------------------------------------- merging variants

  /** The reference: a variant is merged with the attributes its row has at that moment. */
  function DoFromRows(st: Stages, id: string, p: StoredProposal, tx: Tx, w: Write): Option<Tx> {
    if w.PatchVariant? && Variant(w.variant.id) in tx.db.rows
    then MergeVariant(st, p, tx, w.variant, tx.db.rows[Variant(w.variant.id)].attrs)
    else Do(st, id, p, tx, w)
  }

  function RunFromRows(st: Stages, id: string, p: StoredProposal, tx: Tx, ws: seq<Write>): Option<Tx> {
    if ws == [] then Some(tx)
    else
      match RunFromRows(st, id, p, tx, ws[..|ws| - 1])
      case None => None
      case Some(t) => DoFromRows(st, id, p, t, ws[|ws| - 1])
  }

  /** The review's attributes of a variant are those of its row, if the row has its version. */
  lemma ReviewedIsCurrent(w: World, id: string, db: Database, v: string)
    requires Inv(w) && id in w.proposals && Evolves(w.db, db)
    requires Variant(v) in w.proposals[id].versions && Variant(v) in db.rows
    requires db.rows[Variant(v)].version == w.proposals[id].versions[Variant(v)]
    requires w.proposals[id].proposal.Update? && NeedsVariants(w.proposals[id].proposal)
    ensures Reviewed(w.proposals[id], v) == db.rows[Variant(v)].attrs
  {
    assert ProposalOk(w, id);
    EvolvesTransitive(w.reviews[id], w.db, db);
    assert KeyEvolves(w.reviews[id], db, Variant(v));
    SameRows(w, id, Variant(v));
    var q := w.proposals[id].proposal;
    assert Owned(w.reviews[id], Variant(v), q.itemId) by { assert Variant(v) in PartKeys(q); }
    assert Variant(v) in w.reviews[id].rows;
    assert w.proposals[id].variantAttrs == VariantAttrs(w.reviews[id], q.itemId);
  }

  /** Merging from the review-time snapshot equals merging from the current rows. */
  lemma {:induction false} MergeTheorem(st: Stages, w: World, id: string, tx: Tx, ws: seq<Write>)
    requires Inv(w) && id in w.proposals && Evolves(w.db, tx.db) && DbOk(tx.db)
    requires forall i :: 0 <= i < |ws| && ws[i].PatchVariant? ==>
      w.proposals[id].proposal.Update? && ws[i].variant in w.proposals[id].proposal.variants
    ensures Run(st, id, w.proposals[id], tx, ws) == RunFromRows(st, id, w.proposals[id], tx, ws)
  {
    if ws != [] {
      var p, init, last := w.proposals[id], ws[..|ws| - 1], ws[|ws| - 1];
      MergeTheorem(st, w, id, tx, init);
      RunGood(st, id, p, tx, init);
      var t := Run(st, id, p, tx, init);
      if t.Some? && last.PatchVariant? {
        EvolvesTransitive(w.db, tx.db, t.value.db);
        MergeOne(st, w, id, t.value, last.variant);
      }
    }
  }

  lemma MergeOne(st: Stages, w: World, id: string, tx: Tx, v: VariantChange)
    requires Inv(w) && id in w.proposals && Evolves(w.db, tx.db)
    requires w.proposals[id].proposal.Update? && v in w.proposals[id].proposal.variants
    ensures Do(st, id, w.proposals[id], tx, PatchVariant(v)) == DoFromRows(st, id, w.proposals[id], tx, PatchVariant(v))
  {
    var p, key := w.proposals[id], Variant(v.id);
    if key in tx.db.rows {
      if tx.db.rows[key].version == VersionIn(p.versions, key) {
        MergeBase(w, id, tx.db, v);
      } else {
        StaleMerge(st, p, tx, v, Reviewed(p, v.id));
        StaleMerge(st, p, tx, v, tx.db.rows[key].attrs);
      }
    }
  }

  lemma MergeBase(w: World, id: string, db: Database, v: VariantChange)
    requires Inv(w) && id in w.proposals && Evolves(w.db, db)
    requires w.proposals[id].proposal.Update? && v in w.proposals[id].proposal.variants
    requires Variant(v.id) in db.rows && db.rows[Variant(v.id)].version == VersionIn(w.proposals[id].versions, Variant(v.id))
    ensures Reviewed(w.proposals[id], v.id) == db.rows[Variant(v.id)].attrs
  {
    VariantReviewed(w, id, v);
    ReviewedIsCurrent(w, id, db, v.id);
  }

  lemma StaleMerge(st: Stages, p: StoredProposal, tx: Tx, v: VariantChange, base: Attributes)
    requires Variant(v.id) in tx.db.rows && tx.db.rows[Variant(v.id)].version != VersionIn(p.versions, Variant(v.id))
    ensures MergeVariant(st, p, tx, v, base).None?
  {
  }

  lemma VariantReviewed(w: World, id: string, v: VariantChange)
    requires Inv(w) && id in w.proposals && w.proposals[id].proposal.Update? && v in w.proposals[id].proposal.variants
    ensures Variant(v.id) in w.proposals[id].versions && NeedsVariants(w.proposals[id].proposal)
  {
    assert ProposalOk(w, id);
    assert Variant(v.id) in PartKeys(w.proposals[id].proposal);
  }

  /** The write of an update at a position, section by section. */
  lemma WriteAt(st: Stages, db: Database, q: Proposal, i: nat)
    requires q.Update? && i < |Writes(st, db, q)|
    ensures var x := Writes(st, db, q)[i];
      || x == PatchItem(q.changes)
      || (exists o :: o in q.offers && x == PatchOffer(o))
      || (exists v :: v in q.variants && x == PatchVariant(v))
      || x.AddVariant? || x.AddOffer?
  {
    var head := if q.changes.Some? || q.attrs.Some? || st.moved(db, q) then [PatchItem(q.changes)] else [];
    SectionAt(head, OfferWrites(q.offers), VariantWrites(q.variants), NewWrites(q.newVariants, q.newOffers), i);
  }

  lemma SectionAt(a: seq<Write>, b: seq<Write>, c: seq<Write>, d: seq<Write>, i: nat)
    requires i < |a + b + c + d|
    ensures (a + b + c + d)[i] in a || (a + b + c + d)[i] in b || (a + b + c + d)[i] in c || (a + b + c + d)[i] in d
  {
  }

  lemma VariantWritesOf(st: Stages, db: Database, q: Proposal, i: nat)
    requires i < |Writes(st, db, q)| && Writes(st, db, q)[i].PatchVariant?
    ensures q.Update? && Writes(st, db, q)[i].variant in q.variants
  {
    if q.Update? { WriteAt(st, db, q, i); }
  }

  /** The whole of `apply` may read the variants' attributes from the review or from the rows. */
  lemma ApplyFromRows(st: Stages, w: World, id: string)
    requires Inv(w) && id in w.proposals
    ensures var p := w.proposals[id];
      Apply(st, id, p, w.db) == RunFromRows(st, id, p, StartTx(w.db, p.proposal), Writes(st, w.db, p.proposal))
  {
    var q := w.proposals[id].proposal;
    var ws := Writes(st, w.db, q);
    forall i | 0 <= i < |ws| && ws[i].PatchVariant? ensures q.Update? && ws[i].variant in q.variants {
      VariantWritesOf(st, w.db, q, i);
    }
    EvolvesReflexive(w.db);
    MergeTheorem(st, w, id, StartTx(w.db, q), ws);
  }

  /** The version check passes exactly when every reviewed row is unchanged. */
  lemma FreshIff(w: World, id: string)
    requires Inv(w) && id in w.proposals
    ensures var p := w.proposals[id];
      var now := TakeSnapshot(w.db, p.catalog, p.proposal);
      now.Some? && Fresh(p.versions, now.value.versions) <==> forall key :: key in p.versions ==> Unchanged(w, id, key)
  {
    var p := w.proposals[id];
    var now := TakeSnapshot(w.db, p.catalog, p.proposal);
    assert ProposalOk(w, id);
    if now.Some? && Fresh(p.versions, now.value.versions) {
      forall key | key in p.versions ensures Unchanged(w, id, key) {
        SameRows(w, id, key);
        assert VersionIn(now.value.versions, key) == p.versions[key];
      }
    }
    if forall key :: key in p.versions ==> Unchanged(w, id, key) {
      if !p.proposal.Create? { assert Unchanged(w, id, Item(p.proposal.itemId)); }
      if p.proposal.Update? {
        forall key | key in PartKeys(p.proposal) ensures Owned(w.db, key, p.proposal.itemId) {
          assert Owned(w.reviews[id], key, p.proposal.itemId);
          assert Unchanged(w, id, key);
        }
      }
      assert now.Some?;
      forall key | key in p.versions ensures VersionIn(now.value.versions, key) == p.versions[key] {
        assert Unchanged(w, id, key);
        SameRows(w, id, key);
      }
    }
  }
}
