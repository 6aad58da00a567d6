/** What executing an approved proposal does, in terms of the proposal's own lists: when it
    commits, the rows it leaves, and the result it answers. */
module ExecutionOutcome {
  import opened Text
  import opened CatalogAttributes
  import opened KeyRenaming
  import opened Execution
  import opened ExecutionProofs
  import opened ExecutionEffects
  import opened ExecutionRuns

  // ---------------------------------------------------------------- new variants and offers

  /** The last variant added under a reference; -1 when there is none. */
  function LastRef(vs: seq<NewVariant>, ref: string): int {
    if vs == [] then -1
    else if vs[|vs| - 1].ref == ref then |vs| - 1
    else LastRef(vs[..|vs| - 1], ref)
  }

  /** The variant a new offer is bound to, when the first new variant gets ID n. */
  function Binding(st: Stages, id: string, n: nat, vs: seq<NewVariant>, o: NewOffer): Option<string> {
    if o.variantRef.None? then o.variantId
    else if LastRef(vs, o.variantRef.value) < 0 then None
    else Some(st.newId(id, n + LastRef(vs, o.variantRef.value)))
  }

  function VariantRow(st: Stages, q: Proposal, item: string, v: NewVariant): Row {
    var attrs := st.rename(q, v.attrs);
    Row(item, 1, if attrs.Some? && attrs.value.Some? then attrs.value.value else map[], v.fields, None)
  }

  function OfferRow(st: Stages, id: string, n: nat, item: string, vs: seq<NewVariant>, o: NewOffer): Row {
    Row(item, 1, map[], o.fields, Binding(st, id, n, vs, o))
  }

  /** The i-th ID from n + m on is this one. */
  predicate Repeats(st: Stages, id: string, n: nat, m: nat, i: nat, x: string) { st.newId(id, n + m + i) == x }

  /** New variant k passes: its attributes are renamed and checked, its ID is unused, and the
      repository takes the row. */
  predicate NewVariantPasses(st: Stages, db: Database, id: string, n: nat, q: Proposal, item: string, vs: seq<NewVariant>, k: nat)
    requires k < |vs|
  {
    var key, row := Variant(st.newId(id, n + k)), VariantRow(st, q, item, vs[k]);
    && st.rename(q, vs[k].attrs).Some? && st.attrsOk(q, row.attrs)
    && key !in db.used && (forall i :: 0 <= i < k ==> !Repeats(st, id, n, 0, i, key.id)) && st.accepts(key, row)
  }

  predicate NewOfferPasses(st: Stages, db: Database, id: string, n: nat, item: string, vs: seq<NewVariant>, os: seq<NewOffer>, k: nat)
    requires k < |os|
  {
    var key := Offer(st.newId(id, n + |vs| + k));
    && (os[k].variantRef.Some? ==> LastRef(vs, os[k].variantRef.value) >= 0)
    && key !in db.used && (forall i :: 0 <= i < k ==> !Repeats(st, id, n, |vs|, i, key.id))
    && st.accepts(key, OfferRow(st, id, n, item, vs, os[k]))
  }

  /** The writes end with the new variants and the new offers, and add nothing before. */
  predicate NewTail(ws: seq<Write>, P: nat, vs: seq<NewVariant>, os: seq<NewOffer>) {
    && |ws| == P + |vs| + |os|
    && (forall i :: 0 <= i < P ==> !Adds(ws[i]))
    && (forall k :: 0 <= k < |vs| ==> ws[P + k] == AddVariant(vs[k]))
    && (forall k :: 0 <= k < |os| ==> ws[P + |vs| + k] == AddOffer(os[k]))
  }

  lemma {:induction false} DrawsAt(ws: seq<Write>, P: nat, vs: seq<NewVariant>, os: seq<NewOffer>, i: nat)
    requires NewTail(ws, P, vs, os) && i <= |ws|
    ensures Draws(ws[..i]) == if i <= P then 0 else i - P
  {
    if i > 0 {
      DrawsAt(ws, P, vs, os, i - 1);
      assert ws[..i][..i - 1] == ws[..i - 1];
      AddsAt(ws, P, vs, os, i - 1);
    }
  }

  lemma AddsAt(ws: seq<Write>, P: nat, vs: seq<NewVariant>, os: seq<NewOffer>, i: nat)
    requires NewTail(ws, P, vs, os) && i < |ws|
    ensures Adds(ws[i]) <==> i >= P
    ensures P <= i < P + |vs| ==> ws[i] == AddVariant(vs[i - P])
    ensures P + |vs| <= i ==> ws[i] == AddOffer(os[i - P - |vs|])
  {
    if P <= i < P + |vs| { assert ws[P + (i - P)] == AddVariant(vs[i - P]); }
    if P + |vs| <= i { assert ws[P + |vs| + (i - P - |vs|)] == AddOffer(os[i - P - |vs|]); }
  }

  /** The references known after i writes. */
  lemma {:induction false} RefsAt(st: Stages, id: string, n: nat, ws: seq<Write>, P: nat, vs: seq<NewVariant>, os: seq<NewOffer>, i: nat, r: string)
    requires NewTail(ws, P, vs, os) && i <= |ws|
    ensures var known := vs[..if i <= P then 0 else if i <= P + |vs| then i - P else |vs|];
      var refs := Refs(st, id, n, ws[..i]);
      && (r in refs <==> LastRef(known, r) >= 0)
      && (r in refs ==> refs[r] == st.newId(id, n + LastRef(known, r)))
  {
    if i > 0 {
      RefsAt(st, id, n, ws, P, vs, os, i - 1, r);
      assert ws[..i][..i - 1] == ws[..i - 1];
      AddsAt(ws, P, vs, os, i - 1);
      DrawsAt(ws, P, vs, os, i - 1);
      if P < i <= P + |vs| { assert vs[..i - P][..i - 1 - P] == vs[..i - 1 - P]; }
    }
  }

  lemma {:induction false} NewKeysAt(st: Stages, id: string, n: nat, ws: seq<Write>, P: nat, vs: seq<NewVariant>, os: seq<NewOffer>, i: nat, key: Key)
    requires NewTail(ws, P, vs, os) && i <= |ws|
    ensures key in NewKeys(st, id, n, ws[..i])
       <==> exists j :: P <= j < i && Drawn(st, id, n, ws, P, j) == key
  {
    if i > 0 {
      NewKeysAt(st, id, n, ws, P, vs, os, i - 1, key);
      assert ws[..i][..i - 1] == ws[..i - 1];
      AddsAt(ws, P, vs, os, i - 1);
      DrawsAt(ws, P, vs, os, i - 1);
      if i > P { assert Drawn(st, id, n, ws, P, i - 1) == KeyOf(st, id, "", n + Draws(ws[..i - 1]), ws[i - 1]); }
    }
  }

  /** The row that write j of the new part adds. */
  function Drawn(st: Stages, id: string, n: nat, ws: seq<Write>, P: nat, j: nat): Key
    requires P <= j < |ws|
  {
    if ws[j].AddVariant? then Variant(st.newId(id, n + (j - P))) else Offer(st.newId(id, n + (j - P)))
  }

  lemma NewVariantFresh(st: Stages, id: string, n: nat, ws: seq<Write>, P: nat, vs: seq<NewVariant>, os: seq<NewOffer>, k: nat)
    requires NewTail(ws, P, vs, os) && k < |vs|
    ensures var x := st.newId(id, n + k);
      Variant(x) in NewKeys(st, id, n, ws[..P + k]) <==> exists i :: 0 <= i < k && Repeats(st, id, n, 0, i, x)
  {
    var x := st.newId(id, n + k);
    NewKeysAt(st, id, n, ws, P, vs, os, P + k, Variant(x));
    forall j | P <= j < P + k ensures Drawn(st, id, n, ws, P, j) == Variant(x) <==> Repeats(st, id, n, 0, j - P, x) {
      AddsAt(ws, P, vs, os, j);
    }
    if i :| 0 <= i < k && Repeats(st, id, n, 0, i, x) { assert Drawn(st, id, n, ws, P, P + i) == Variant(x); }
  }

  lemma NewOfferFresh(st: Stages, id: string, n: nat, ws: seq<Write>, P: nat, vs: seq<NewVariant>, os: seq<NewOffer>, k: nat)
    requires NewTail(ws, P, vs, os) && k < |os|
    ensures var x := st.newId(id, n + |vs| + k);
      Offer(x) in NewKeys(st, id, n, ws[..P + |vs| + k]) <==> exists i :: 0 <= i < k && Repeats(st, id, n, |vs|, i, x)
  {
    var x, Q := st.newId(id, n + |vs| + k), P + |vs|;
    NewKeysAt(st, id, n, ws, P, vs, os, Q + k, Offer(x));
    forall j | P <= j < Q + k ensures Drawn(st, id, n, ws, P, j) == Offer(x) <==> j >= Q && Repeats(st, id, n, |vs|, j - Q, x) {
      AddsAt(ws, P, vs, os, j);
    }
    if i :| 0 <= i < k && Repeats(st, id, n, |vs|, i, x) { assert Drawn(st, id, n, ws, P, Q + i) == Offer(x); }
  }

  lemma NewVariantIff(st: Stages, id: string, p: StoredProposal, tx: Tx, ws: seq<Write>, P: nat, vs: seq<NewVariant>, os: seq<NewOffer>, k: nat)
    requires NewTail(ws, P, vs, os) && k < |vs|
    ensures OkAt(st, id, p, tx, ws, P + k) <==> NewVariantPasses(st, tx.db, id, tx.drawn, p.proposal, tx.result.itemId, vs, k)
  {
    AddsAt(ws, P, vs, os, P + k);
    DrawsAt(ws, P, vs, os, P + k);
    NewVariantFresh(st, id, tx.drawn, ws, P, vs, os, k);
  }

  lemma BoundAt(st: Stages, id: string, n: nat, ws: seq<Write>, P: nat, vs: seq<NewVariant>, os: seq<NewOffer>, k: nat)
    requires NewTail(ws, P, vs, os) && k < |os|
    ensures var refs := Refs(st, id, n, ws[..P + |vs| + k]);
      && (os[k].variantRef.Some? ==> (os[k].variantRef.value in refs <==> LastRef(vs, os[k].variantRef.value) >= 0))
      && ((os[k].variantRef.Some? ==> os[k].variantRef.value in refs) ==> BoundTo(refs, os[k]) == Binding(st, id, n, vs, os[k]))
  {
    if os[k].variantRef.Some? { RefsAt(st, id, n, ws, P, vs, os, P + |vs| + k, os[k].variantRef.value); }
    assert vs[..|vs|] == vs;
  }

  lemma NewOfferIff(st: Stages, id: string, p: StoredProposal, tx: Tx, ws: seq<Write>, P: nat, vs: seq<NewVariant>, os: seq<NewOffer>, k: nat)
    requires NewTail(ws, P, vs, os) && k < |os|
    ensures OkAt(st, id, p, tx, ws, P + |vs| + k) <==> NewOfferPasses(st, tx.db, id, tx.drawn, tx.result.itemId, vs, os, k)
  {
    AddsAt(ws, P, vs, os, P + |vs| + k);
    DrawsAt(ws, P, vs, os, P + |vs| + k);
    NewOfferFresh(st, id, tx.drawn, ws, P, vs, os, k);
    BoundAt(st, id, tx.drawn, ws, P, vs, os, k);
  }

  // ---------------------------------------------------------------- changed rows

  /** The item is written when a column, its attributes or its template change. */
  predicate ItemWritten(st: Stages, db: Database, q: Proposal)
    requires q.Update?
  {
    q.changes.Some? || q.attrs.Some? || st.moved(db, q)
  }

  function ItemAfter(st: Stages, q: Proposal, row: Row): Row
    requires q.Update?
  {
    var attrs := st.itemAttrs(row.attrs, q);
    Row(row.owner, row.version + 1, if attrs.Some? && attrs.value.Some? then attrs.value.value else row.attrs,
        if q.changes.Some? then q.changes.value else row.fields, row.variant)
  }

  function OfferAfter(o: OfferChange, row: Row): Row {
    Row(row.owner, row.version + 1, row.attrs, if o.fields.Some? then o.fields.value else row.fields,
        if o.variantId.Some? then o.variantId else if o.clearVariant then None else row.variant)
  }

  function VariantAfter(st: Stages, q: Proposal, v: VariantChange, row: Row): Row {
    var changes := st.rename(q, v.attrs);
    Row(row.owner, row.version + 1, if changes.Some? && changes.value.Some? then row.attrs + changes.value.value else row.attrs,
        if v.fields.Some? then v.fields.value else row.fields, row.variant)
  }

  predicate ItemPasses(st: Stages, db: Database, q: Proposal)
    requires q.Update?
  {
    var key := Item(q.itemId);
    key in db.rows && st.itemAttrs(db.rows[key].attrs, q).Some? && st.accepts(key, ItemAfter(st, q, db.rows[key]))
  }

  /** Changed offer j passes: it is named once, its values are valid, and the repository takes
      the row. */
  predicate OfferPasses(st: Stages, db: Database, os: seq<OfferChange>, j: nat)
    requires j < |os|
  {
    var key := Offer(os[j].id);
    && (forall i :: 0 <= i < j ==> os[i].id != os[j].id)
    && key in db.rows && st.offerOk(db.rows[key], os[j]) && st.accepts(key, OfferAfter(os[j], db.rows[key]))
  }

  predicate VariantPasses(st: Stages, db: Database, q: Proposal, vs: seq<VariantChange>, j: nat)
    requires j < |vs|
  {
    var key, changes := Variant(vs[j].id), st.rename(q, vs[j].attrs);
    && (forall i :: 0 <= i < j ==> vs[i].id != vs[j].id)
    && key in db.rows && changes.Some? && (changes.value.Some? ==> st.attrsOk(q, db.rows[key].attrs + changes.value.value))
    && st.accepts(key, VariantAfter(st, q, vs[j], db.rows[key]))
  }

  /** How the writes of an update are laid out: the item's, if any, the offers', the
      variants', then the new rows. */
  predicate Layout(ws: seq<Write>, h: nat, q: Proposal)
    requires q.Update?
  {
    && h <= 1 && NewTail(ws, h + |q.offers| + |q.variants|, q.newVariants, q.newOffers)
    && (h == 1 ==> ws[0] == PatchItem(q.changes))
    && (forall j :: 0 <= j < |q.offers| ==> ws[h + j] == PatchOffer(q.offers[j]))
    && (forall j :: 0 <= j < |q.variants| ==> ws[h + |q.offers| + j] == PatchVariant(q.variants[j]))
  }

  lemma WritesLayout(st: Stages, db: Database, q: Proposal)
    requires q.Update?
    ensures Layout(Writes(st, db, q), if ItemWritten(st, db, q) then 1 else 0, q)
  {
  }

  lemma OfferUntouched(item: string, ws: seq<Write>, h: nat, q: Proposal, j: nat)
    requires q.Update? && Layout(ws, h, q) && j < |q.offers|
    ensures NotTouched(item, ws[..h + j], Offer(q.offers[j].id)) <==> forall i :: 0 <= i < j ==> q.offers[i].id != q.offers[j].id
  {
    var past, key := ws[..h + j], Offer(q.offers[j].id);
    if NotTouched(item, past, key) {
      forall i | 0 <= i < j ensures q.offers[i].id != q.offers[j].id { assert past[h + i] == PatchOffer(q.offers[i]); }
    }
    forall i | 0 <= i < h + j && Touches(item, past[i]) == Some(key) ensures exists k :: 0 <= k < j && q.offers[k].id == q.offers[j].id {
      if i >= h { assert past[h + (i - h)] == PatchOffer(q.offers[i - h]); }
    }
  }

  lemma VariantUntouched(item: string, ws: seq<Write>, h: nat, q: Proposal, j: nat)
    requires q.Update? && Layout(ws, h, q) && j < |q.variants|
    ensures NotTouched(item, ws[..h + |q.offers| + j], Variant(q.variants[j].id))
       <==> forall i :: 0 <= i < j ==> q.variants[i].id != q.variants[j].id
  {
    var o := h + |q.offers|;
    var past, key := ws[..o + j], Variant(q.variants[j].id);
    if NotTouched(item, past, key) {
      forall i | 0 <= i < j ensures q.variants[i].id != q.variants[j].id { assert past[o + i] == PatchVariant(q.variants[i]); }
    }
    assert forall i :: h <= i < o ==> past[i] == ws[h + (i - h)] == PatchOffer(q.offers[i - h]);
    forall i | 0 <= i < o + j && Touches(item, past[i]) == Some(key) ensures exists k :: 0 <= k < j && q.variants[k].id == q.variants[j].id {
      if i >= o {
        assert past[o + (i - o)] == PatchVariant(q.variants[i - o]);
      }
    }
  }

  lemma ItemIff(st: Stages, id: string, p: StoredProposal, tx: Tx, ws: seq<Write>, h: nat)
    requires p.proposal.Update? && Layout(ws, h, p.proposal) && h == 1 && tx.result.itemId == p.proposal.itemId
    ensures OkAt(st, id, p, tx, ws, 0) <==> ItemPasses(st, tx.db, p.proposal)
  {
  }

  lemma OfferIff(st: Stages, id: string, p: StoredProposal, tx: Tx, ws: seq<Write>, h: nat, j: nat)
    requires p.proposal.Update? && Layout(ws, h, p.proposal) && j < |p.proposal.offers| && tx.result.itemId == p.proposal.itemId
    requires forall key :: key in PartKeys(p.proposal) ==> Owned(tx.db, key, p.proposal.itemId)
    ensures OkAt(st, id, p, tx, ws, h + j) <==> OfferPasses(st, tx.db, p.proposal.offers, j)
  {
    var o := p.proposal.offers[j];
    assert Offer(o.id) in PartKeys(p.proposal) && (o.variantId.Some? ==> Variant(o.variantId.value) in PartKeys(p.proposal));
    OfferUntouched(tx.result.itemId, ws, h, p.proposal, j);
  }

  lemma VariantIff(st: Stages, id: string, p: StoredProposal, tx: Tx, ws: seq<Write>, h: nat, j: nat)
    requires p.proposal.Update? && Layout(ws, h, p.proposal) && j < |p.proposal.variants|
    ensures OkAt(st, id, p, tx, ws, h + |p.proposal.offers| + j) <==> VariantPasses(st, tx.db, p.proposal, p.proposal.variants, j)
  {
    VariantUntouched(tx.result.itemId, ws, h, p.proposal, j);
  }

  /** Every change of an update passes on the catalog as it is. */
  predicate UpdatePasses(st: Stages, db: Database, id: string, q: Proposal)
    requires q.Update?
  {
    && (ItemWritten(st, db, q) ==> ItemPasses(st, db, q))
    && (forall j :: 0 <= j < |q.offers| ==> OfferPasses(st, db, q.offers, j))
    && (forall j :: 0 <= j < |q.variants| ==> VariantPasses(st, db, q, q.variants, j))
    && NewPasses(st, db, id, 0, q, q.itemId)
  }

  predicate NewPasses(st: Stages, db: Database, id: string, n: nat, q: Proposal, item: string)
    requires !q.Delete?
  {
    && (forall k :: 0 <= k < |q.newVariants| ==> NewVariantPasses(st, db, id, n, q, item, q.newVariants, k))
    && (forall k :: 0 <= k < |q.newOffers| ==> NewOfferPasses(st, db, id, n, item, q.newVariants, q.newOffers, k))
  }

  lemma NewIff(st: Stages, id: string, p: StoredProposal, tx: Tx, ws: seq<Write>, P: nat)
    requires !p.proposal.Delete? && NewTail(ws, P, p.proposal.newVariants, p.proposal.newOffers)
    ensures OkBetween(st, id, p, tx, ws, P, |ws|) <==> NewPasses(st, tx.db, id, tx.drawn, p.proposal, tx.result.itemId)
  {
    var q := p.proposal;
    var Q := P + |q.newVariants|;
    forall i | P <= i < Q ensures OkAt(st, id, p, tx, ws, i) <==> NewVariantPasses(st, tx.db, id, tx.drawn, q, tx.result.itemId, q.newVariants, i - P) {
      NewVariantIff(st, id, p, tx, ws, P, q.newVariants, q.newOffers, i - P);
    }
    forall i | Q <= i < |ws| ensures OkAt(st, id, p, tx, ws, i) <==> NewOfferPasses(st, tx.db, id, tx.drawn, tx.result.itemId, q.newVariants, q.newOffers, i - Q) {
      NewOfferIff(st, id, p, tx, ws, P, q.newVariants, q.newOffers, i - Q);
    }
    if OkBetween(st, id, p, tx, ws, P, |ws|) {
      forall k | 0 <= k < |q.newVariants| ensures NewVariantPasses(st, tx.db, id, tx.drawn, q, tx.result.itemId, q.newVariants, k) {
        assert OkAt(st, id, p, tx, ws, P + k);
      }
      forall k | 0 <= k < |q.newOffers| ensures NewOfferPasses(st, tx.db, id, tx.drawn, tx.result.itemId, q.newVariants, q.newOffers, k) {
        assert OkAt(st, id, p, tx, ws, Q + k);
      }
    }
  }

  lemma OffersIff(st: Stages, id: string, p: StoredProposal, tx: Tx, ws: seq<Write>, h: nat)
    requires p.proposal.Update? && Layout(ws, h, p.proposal) && tx.result.itemId == p.proposal.itemId
    requires forall key :: key in PartKeys(p.proposal) ==> Owned(tx.db, key, p.proposal.itemId)
    ensures var os := p.proposal.offers;
      OkBetween(st, id, p, tx, ws, h, h + |os|) <==> forall j :: 0 <= j < |os| ==> OfferPasses(st, tx.db, os, j)
  {
    var os := p.proposal.offers;
    forall i | h <= i < h + |os| ensures OkAt(st, id, p, tx, ws, i) <==> OfferPasses(st, tx.db, os, i - h) {
      OfferIff(st, id, p, tx, ws, h, i - h);
    }
    if OkBetween(st, id, p, tx, ws, h, h + |os|) {
      forall j | 0 <= j < |os| ensures OfferPasses(st, tx.db, os, j) { assert OkAt(st, id, p, tx, ws, h + j); }
    }
  }

  lemma VariantsIff(st: Stages, id: string, p: StoredProposal, tx: Tx, ws: seq<Write>, h: nat)
    requires p.proposal.Update? && Layout(ws, h, p.proposal)
    ensures var o, vs := h + |p.proposal.offers|, p.proposal.variants;
      OkBetween(st, id, p, tx, ws, o, o + |vs|) <==> forall j :: 0 <= j < |vs| ==> VariantPasses(st, tx.db, p.proposal, vs, j)
  {
    var o, vs := h + |p.proposal.offers|, p.proposal.variants;
    forall i | o <= i < o + |vs| ensures OkAt(st, id, p, tx, ws, i) <==> VariantPasses(st, tx.db, p.proposal, vs, i - o) {
      VariantIff(st, id, p, tx, ws, h, i - o);
    }
    if OkBetween(st, id, p, tx, ws, o, o + |vs|) {
      forall j | 0 <= j < |vs| ensures VariantPasses(st, tx.db, p.proposal, vs, j) { assert OkAt(st, id, p, tx, ws, o + j); }
    }
  }

  lemma PatchesIff(st: Stages, id: string, p: StoredProposal, tx: Tx, ws: seq<Write>, h: nat)
    requires p.proposal.Update? && Layout(ws, h, p.proposal) && tx.result.itemId == p.proposal.itemId
    requires forall key :: key in PartKeys(p.proposal) ==> Owned(tx.db, key, p.proposal.itemId)
    ensures var q := p.proposal;
      OkBetween(st, id, p, tx, ws, 0, h + |q.offers| + |q.variants|)
      <==> && (h == 1 ==> ItemPasses(st, tx.db, q))
           && (forall j :: 0 <= j < |q.offers| ==> OfferPasses(st, tx.db, q.offers, j))
           && (forall j :: 0 <= j < |q.variants| ==> VariantPasses(st, tx.db, q, q.variants, j))
  {
    if h == 1 { ItemIff(st, id, p, tx, ws, h); }
    OffersIff(st, id, p, tx, ws, h);
    VariantsIff(st, id, p, tx, ws, h);
    var o := h + |p.proposal.offers|;
    OkSplit(st, id, p, tx, ws, 0, h, o);
    OkSplit(st, id, p, tx, ws, 0, o, o + |p.proposal.variants|);
  }

  // ---------------------------------------------------------------- the review

  /** The parts of the item that an update names. */
  ghost predicate Mentions(q: Proposal, key: Key)
    requires q.Update?
  {
    || (exists o :: o in q.offers && (key == Offer(o.id) || (o.variantId.Some? && key == Variant(o.variantId.value))))
    || (exists v :: v in q.variants && key == Variant(v.id))
    || (exists o :: o in q.newOffers && o.variantId.Some? && key == Variant(o.variantId.value))
  }

  lemma MentionsPart(q: Proposal, key: Key)
    requires q.Update?
    ensures Mentions(q, key) <==> key in PartKeys(q)
  {
  }

  /** The rows a proposal may be about: all there, the item in the catalog, its parts below it. */
  ghost predicate InScope(db: Database, catalog: string, q: Proposal) {
    && (!q.Create? ==> Item(q.itemId) in db.rows && db.rows[Item(q.itemId)].owner == catalog)
    && (q.Update? ==> forall key :: Mentions(q, key) ==> key in db.rows && db.rows[key].owner == q.itemId)
  }

  /** A proposal is stored exactly when the guard, its validation and the preflight let it pass,
      everything it names is in scope, and its ID is new. */
  lemma PrepareIff(st: Stages, w: World, id: string, principal: string, catalog: string, q: Proposal, guard: bool)
    ensures Prepared(st, w, id, principal, catalog, q, guard).1
       <==> guard && st.valid(q) && st.preflight(w.db, q) && id !in w.proposals && InScope(w.db, catalog, q)
  {
    if q.Update? {
      forall key ensures Mentions(q, key) <==> key in PartKeys(q) { MentionsPart(q, key); }
    }
  }

  /** What is stored of a review: the version of exactly the rows the proposal names, which
      were in scope. */
  lemma ReviewTheorem(w: World, id: string, key: Key)
    requires Inv(w) && id in w.proposals
    ensures var p, was := w.proposals[id], w.reviews[id];
      && InScope(was, p.catalog, p.proposal)
      && (key in p.versions
          <==> !p.proposal.Create? && (key == Item(p.proposal.itemId) || (p.proposal.Update? && Mentions(p.proposal, key))))
      && (key in p.versions ==> key in was.rows && p.versions[key] == was.rows[key].version)
  {
    var q := w.proposals[id].proposal;
    assert ProposalOk(w, id);
    if q.Update? {
      forall k ensures Mentions(q, k) <==> k in PartKeys(q) { MentionsPart(q, k); }
    }
    if key in w.proposals[id].versions { SameRows(w, id, key); }
  }

  // ---------------------------------------------------------------- when an execution commits

  ghost predicate AllUnchanged(w: World, id: string)
    requires id in w.proposals && id in w.reviews
  {
    forall key :: key in w.proposals[id].versions ==> Unchanged(w, id, key)
  }

  lemma VersionsUsed(w: World, id: string)
    requires Inv(w) && id in w.proposals
    ensures w.proposals[id].versions.Keys <= w.db.used
  {
    assert ProposalOk(w, id);
    forall key | key in w.proposals[id].versions ensures key in w.db.used {
      SameRows(w, id, key);
      assert KeyEvolves(w.reviews[id], w.db, key);
    }
  }

  lemma PartsOwned(w: World, id: string, key: Key)
    requires Inv(w) && id in w.proposals && w.proposals[id].proposal.Update? && AllUnchanged(w, id)
    requires key in PartKeys(w.proposals[id].proposal)
    ensures Owned(w.db, key, w.proposals[id].proposal.itemId)
  {
    MentionsPart(w.proposals[id].proposal, key);
    ReviewTheorem(w, id, key);
    assert Unchanged(w, id, key);
  }

  lemma WritesOrdered(st: Stages, db: Database, q: Proposal)
    requires !q.Create?
    ensures PatchesFirst(Writes(st, db, q)) && NoneCreates(Writes(st, db, q))
  {
    if q.Update? {
      WritesLayout(st, db, q);
      var ws, P := Writes(st, db, q), (if ItemWritten(st, db, q) then 1 else 0) + |q.offers| + |q.variants|;
      forall i | 0 <= i < |ws| ensures (Adds(ws[i]) <==> i >= P) && (i >= P ==> !ws[i].PatchOffer?) && !Creates(ws[i]) {
        AddsAt(ws, P, q.newVariants, q.newOffers, i);
      }
    }
  }

  lemma StartsNow(st: Stages, w: World, id: string)
    requires Inv(w) && id in w.proposals && !w.proposals[id].proposal.Create? && AllUnchanged(w, id)
    ensures var p := w.proposals[id]; Starts(p, StartTx(w.db, p.proposal), Writes(st, w.db, p.proposal))
  {
    var p := w.proposals[id];
    var ws, tx := Writes(st, w.db, p.proposal), StartTx(w.db, p.proposal);
    VersionsUsed(w, id);
    WritesOrdered(st, w.db, p.proposal);
    AllMergeCurrent(st, w, id);
    forall i | 0 <= i < |ws| ensures StartsFor(p, tx, ws[i]) {
      if Touches(tx.result.itemId, ws[i]).Some? { Named(st, w, id, ws[i], i, Touches(tx.result.itemId, ws[i]).value); }
    }
  }

  lemma UpdateRuns(st: Stages, id: string, p: StoredProposal, tx: Tx, ws: seq<Write>, h: nat)
    requires p.proposal.Update? && Layout(ws, h, p.proposal) && Starts(p, tx, ws) && tx.result.itemId == p.proposal.itemId
    requires tx.drawn == 0 && (h == 1 <==> ItemWritten(st, tx.db, p.proposal))
    requires forall key :: key in PartKeys(p.proposal) ==> Owned(tx.db, key, p.proposal.itemId)
    ensures Run(st, id, p, tx, ws).Some? <==> UpdatePasses(st, tx.db, id, p.proposal)
  {
    var q := p.proposal;
    RunIff(st, id, p, tx, ws);
    AllOkIff(st, id, p, tx, ws);
    var P := h + |q.offers| + |q.variants|;
    PatchesIff(st, id, p, tx, ws, h);
    NewIff(st, id, p, tx, ws, P);
    OkSplit(st, id, p, tx, ws, 0, P, |ws|);
  }

  lemma UpdateApplies(st: Stages, w: World, id: string)
    requires Inv(w) && id in w.proposals && w.proposals[id].proposal.Update? && AllUnchanged(w, id)
    ensures Apply(st, id, w.proposals[id], w.db).Some? <==> UpdatePasses(st, w.db, id, w.proposals[id].proposal)
  {
    var p := w.proposals[id];
    StartsNow(st, w, id);
    WritesLayout(st, w.db, p.proposal);
    forall key | key in PartKeys(p.proposal) ensures Owned(w.db, key, p.proposal.itemId) { PartsOwned(w, id, key); }
    UpdateRuns(st, id, p, StartTx(w.db, p.proposal), Writes(st, w.db, p.proposal), if ItemWritten(st, w.db, p.proposal) then 1 else 0);
  }

  /** An update commits exactly when the caller may execute it, it was not executed before,
      every row it was reviewed with is unchanged, and each of its changes passes. */
  lemma UpdateCommitIff(st: Stages, w: World, id: string, principal: string, guard: bool, closed: bool)
    requires Inv(w) && id in w.proposals && w.proposals[id].proposal.Update?
    ensures Executed(st, w, id, principal, guard, closed).0 != w
       <==> && guard && closed && principal == w.proposals[id].principal && w.proposals[id].result.None?
            && st.valid(w.proposals[id].proposal) && AllUnchanged(w, id)
            && UpdatePasses(st, w.db, id, w.proposals[id].proposal)
  {
    FreshIff(w, id);
    if AllUnchanged(w, id) { UpdateApplies(st, w, id); }
  }
}
