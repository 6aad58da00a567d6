/** The catalog evidence exposed to the model: items with their variants and offers. */
module EvidenceSet {
  import opened Text

  datatype VariantRow = VariantRow(id: string, itemId: string)
  datatype OfferRow = OfferRow(id: string, itemId: string, variantId: Option<string>)

  /** One projected item with the rows sent beside it, which may belong to other items. */
  datatype Bundle = Bundle(itemId: string, variants: seq<VariantRow>, offers: seq<OfferRow>)

  /** Offers are kept with the variant they are bound to, "" when bound to none. */
  datatype EvidenceItem = EvidenceItem(variants: set<string>, offers: map<string, string>)

  type Evidence = map<string, EvidenceItem>

  datatype Selection = Selection(itemId: string, variantId: Option<string>, offerId: Option<string>)

  // ---------------------------------------------------------------- specification

  const NoEvidence := EvidenceItem({}, map[])

  function At(e: Evidence, id: string): EvidenceItem { if id in e then e[id] else NoEvidence }

  /** The second item's rows added to the first's; its offers win. */
  function Join(a: EvidenceItem, b: EvidenceItem): EvidenceItem {
    EvidenceItem(a.variants + b.variants, a.offers + b.offers)
  }

  function OwnVariants(itemId: string, rows: seq<VariantRow>): set<string> {
    set v | v in rows && v.itemId == itemId :: v.id
  }

  function OwnOffers(itemId: string, rows: seq<OfferRow>): map<string, string> {
    if rows == [] then map[]
    else
      var m, o := OwnOffers(itemId, rows[..|rows| - 1]), rows[|rows| - 1];
      if o.itemId == itemId then m[o.id := if o.variantId.Some? then o.variantId.value else ""] else m
  }

  function ItemOf(b: Bundle): EvidenceItem {
    EvidenceItem(OwnVariants(b.itemId, b.variants), OwnOffers(b.itemId, b.offers))
  }

  function Added(e: Evidence, b: Bundle): Evidence { e[b.itemId := Join(At(e, b.itemId), ItemOf(b))] }

  function Build(bs: seq<Bundle>): Evidence {
    if bs == [] then map[] else Added(Build(bs[..|bs| - 1]), bs[|bs| - 1])
  }

  function Merged(e: Evidence, other: Evidence): Evidence {
    map id | id in e.Keys + other.Keys :: if id in other then Join(At(e, id), other[id]) else At(e, id)
  }

  function Chosen(id: Option<string>): string { if id.Some? then id.value else "" }

  predicate Compatible(bound: string, chosen: string) { chosen == "" || bound == "" || bound == chosen }

  predicate Contains(e: Evidence, ref: Selection) {
    var variant, offer := Chosen(ref.variantId), Chosen(ref.offerId);
    && ref.itemId in e
    && (variant != "" ==> variant in e[ref.itemId].variants)
    && (offer != "" ==> offer in e[ref.itemId].offers && Compatible(e[ref.itemId].offers[offer], variant))
  }

  // ---------------------------------------------------------------- merging is building

  lemma JoinLaws(a: EvidenceItem, b: EvidenceItem, c: EvidenceItem)
    ensures Join(Join(a, b), c) == Join(a, Join(b, c)) && Join(a, NoEvidence) == a
  {
  }

  lemma AddThroughMerge(e: Evidence, other: Evidence, b: Bundle)
    ensures Merged(e, Added(other, b)) == Added(Merged(e, other), b)
  {
    var l, r, id := Merged(e, Added(other, b)), Added(Merged(e, other), b), b.itemId;
    JoinLaws(At(e, id), At(other, id), ItemOf(b));
    assert l.Keys == r.Keys;
    assert l[id] == Join(At(e, id), Join(At(other, id), ItemOf(b)));
    assert r[id] == Join(At(Merged(e, other), id), ItemOf(b));
  }

  /** Merging two built sets is building from the concatenation. */
  lemma {:induction false} MergeHomomorphism(a: seq<Bundle>, b: seq<Bundle>)
    ensures Merged(Build(a), Build(b)) == Build(a + b)
  {
    if b == [] {
      assert a + b == a;
      assert Merged(Build(a), map[]) == Build(a);
    } else {
      var init, last := b[..|b| - 1], b[|b| - 1];
      MergeHomomorphism(a, init);
      AddThroughMerge(Build(a), Build(init), last);
      assert (a + b)[..|a + b| - 1] == a + init;
    }
  }

  // ---------------------------------------------------------------- what a selection rests on

  ghost predicate ItemExposed(bs: seq<Bundle>, id: string) { exists b :: b in bs && b.itemId == id }

  ghost predicate VariantExposed(bs: seq<Bundle>, id: string, variant: string) {
    exists b :: b in bs && b.itemId == id && VariantRow(variant, id) in b.variants
  }

  /** The variant binding an offer had when it was last exposed under an item. */
  ghost function LastBinding(bs: seq<Bundle>, id: string, offer: string): Option<string> {
    if bs == [] then None
    else
      var init, last := bs[..|bs| - 1], bs[|bs| - 1];
      if last.itemId == id && offer in OwnOffers(id, last.offers) then Some(OwnOffers(id, last.offers)[offer])
      else LastBinding(init, id, offer)
  }

  /** OwnOffers holds rows of the bundle that name the item. */
  lemma {:induction false} OwnOfferRow(id: string, rows: seq<OfferRow>, offer: string)
    requires offer in OwnOffers(id, rows)
    ensures exists o :: o in rows && o.id == offer && o.itemId == id && Chosen(o.variantId) == OwnOffers(id, rows)[offer]
  {
    var o := rows[|rows| - 1];
    if o.itemId != id || o.id != offer { OwnOfferRow(id, rows[..|rows| - 1], offer); }
  }

  /** Row r exposes the offer under the item, and no later row does. */
  ghost predicate LastRow(rows: seq<OfferRow>, id: string, offer: string, r: int) {
    && 0 <= r < |rows| && rows[r].id == offer && rows[r].itemId == id
    && forall q :: r < q < |rows| ==> !(rows[q].id == offer && rows[q].itemId == id)
  }

  lemma {:induction false} OwnOffersLast(id: string, rows: seq<OfferRow>, offer: string)
    ensures offer in OwnOffers(id, rows) <==> exists r :: LastRow(rows, id, offer, r)
    ensures forall r :: LastRow(rows, id, offer, r) ==>
      offer in OwnOffers(id, rows) && OwnOffers(id, rows)[offer] == (if rows[r].variantId.Some? then rows[r].variantId.value else "")
  {
    if rows != [] {
      var init, n := rows[..|rows| - 1], |rows| - 1;
      OwnOffersLast(id, init, offer);
      if rows[n].id == offer && rows[n].itemId == id {
        assert LastRow(rows, id, offer, n);
      } else {
        forall r ensures LastRow(rows, id, offer, r) <==> LastRow(init, id, offer, r) {}
      }
    }
  }

  /** Bundle i is of the item and exposes the offer, and no later bundle of the item does. */
  ghost predicate LastExposure(bs: seq<Bundle>, id: string, offer: string, i: int, r: int) {
    && 0 <= i < |bs| && bs[i].itemId == id && LastRow(bs[i].offers, id, offer, r)
    && forall j, q :: i < j < |bs| && bs[j].itemId == id ==> !LastRow(bs[j].offers, id, offer, q)
  }

  /** The binding of an offer is that of the row which exposed it last under its item. */
  lemma {:induction false} BindingLaw(bs: seq<Bundle>, id: string, offer: string)
    ensures LastBinding(bs, id, offer).Some? <==> exists i, r :: LastExposure(bs, id, offer, i, r)
    ensures forall i, r :: LastExposure(bs, id, offer, i, r) ==>
      LastBinding(bs, id, offer) == Some(Chosen(bs[i].offers[r].variantId))
  {
    if bs != [] {
      var init, n := bs[..|bs| - 1], |bs| - 1;
      BindingLaw(init, id, offer);
      OwnOffersLast(id, bs[n].offers, offer);
      if bs[n].itemId == id && offer in OwnOffers(id, bs[n].offers) {
        var r :| LastRow(bs[n].offers, id, offer, r);
        ExposedLast(bs, n, id, offer, r);
      } else {
        forall i, r ensures LastExposure(bs, id, offer, i, r) <==> LastExposure(init, id, offer, i, r) {
          ExposedBefore(bs, n, bs[n].offers, id, offer, i, r);
        }
      }
    }
  }

  lemma ExposedLast(bs: seq<Bundle>, n: nat, id: string, offer: string, r: int)
    requires |bs| == n + 1 && bs[n].itemId == id && LastRow(bs[n].offers, id, offer, r)
    ensures LastExposure(bs, id, offer, n, r)
    ensures forall i, q :: LastExposure(bs, id, offer, i, q) ==> i == n
  {
  }

  lemma ExposedBefore(bs: seq<Bundle>, n: nat, rows: seq<OfferRow>, id: string, offer: string, i: int, r: int)
    requires |bs| == n + 1 && bs[n].offers == rows && (bs[n].itemId == id ==> forall q :: !LastRow(rows, id, offer, q))
    ensures LastExposure(bs, id, offer, i, r) <==> LastExposure(bs[..n], id, offer, i, r)
  {
    var init := bs[..n];
    assert forall j :: 0 <= j < n ==> init[j] == bs[j];
  }

  ghost predicate OfferRowIn(b: Bundle, id: string, offer: string, bound: string) {
    exists o :: o in b.offers && o.id == offer && o.itemId == id && Chosen(o.variantId) == bound
  }

  /** A binding comes from a row exposed in a bundle of that very item. */
  lemma {:induction false} BindingExposed(bs: seq<Bundle>, id: string, offer: string)
    requires LastBinding(bs, id, offer).Some?
    ensures exists b :: b in bs && b.itemId == id && OfferRowIn(b, id, offer, LastBinding(bs, id, offer).value)
  {
    var init, last := bs[..|bs| - 1], bs[|bs| - 1];
    if last.itemId == id && offer in OwnOffers(id, last.offers) {
      OwnOfferRow(id, last.offers, offer);
      assert last in bs && OfferRowIn(last, id, offer, LastBinding(bs, id, offer).value);
    } else {
      BindingExposed(init, id, offer);
      var b :| b in init && b.itemId == id && OfferRowIn(b, id, offer, LastBinding(init, id, offer).value);
      assert b in bs;
    }
  }

  lemma {:induction false} BuildItems(bs: seq<Bundle>, id: string)
    ensures id in Build(bs) <==> ItemExposed(bs, id)
  {
    if bs != [] {
      var init, last := bs[..|bs| - 1], bs[|bs| - 1];
      BuildItems(init, id);
      assert bs == init + [last];
      assert forall b :: b in bs <==> b in init || b == last;
    }
  }

  lemma OwnVariantRow(id: string, rows: seq<VariantRow>, variant: string)
    ensures variant in OwnVariants(id, rows) <==> VariantRow(variant, id) in rows
  {
  }

  lemma {:induction false} BuildVariants(bs: seq<Bundle>, id: string, variant: string)
    ensures variant in At(Build(bs), id).variants <==> VariantExposed(bs, id, variant)
  {
    if bs != [] {
      var init, last := bs[..|bs| - 1], bs[|bs| - 1];
      BuildVariants(init, id, variant);
      OwnVariantRow(id, last.variants, variant);
      assert bs == init + [last];
      assert forall b :: b in bs <==> b in init || b == last;
    }
  }

  lemma {:induction false} BuildOffers(bs: seq<Bundle>, id: string, offer: string)
    ensures offer in At(Build(bs), id).offers <==> LastBinding(bs, id, offer).Some?
    ensures offer in At(Build(bs), id).offers ==> At(Build(bs), id).offers[offer] == LastBinding(bs, id, offer).value
  {
    if bs != [] { BuildOffers(bs[..|bs| - 1], id, offer); }
  }

  /** A selection is contained exactly when its item, variant and offer were exposed under that
      one item, and the offer's last binding fits the variant. */
  lemma ContainsIffExposed(bs: seq<Bundle>, ref: Selection)
    ensures var variant, offer := Chosen(ref.variantId), Chosen(ref.offerId);
      Contains(Build(bs), ref) <==>
        && ItemExposed(bs, ref.itemId)
        && (variant != "" ==> VariantExposed(bs, ref.itemId, variant))
        && (offer != "" ==>
              && LastBinding(bs, ref.itemId, offer).Some?
              && var bound := LastBinding(bs, ref.itemId, offer).value; variant == "" || bound == "" || bound == variant)
  {
    BuildItems(bs, ref.itemId);
    BuildVariants(bs, ref.itemId, Chosen(ref.variantId));
    BuildOffers(bs, ref.itemId, Chosen(ref.offerId));
  }

  /** Merging keeps a selection exactly when the other set does not rebind its offer to a
      variant that was not selected. */
  lemma ContainsMonotone(e: Evidence, other: Evidence, ref: Selection)
    requires Contains(e, ref)
    ensures var offer := Chosen(ref.offerId);
      Contains(Merged(e, other), ref) <==>
        (offer != "" && offer in At(other, ref.itemId).offers ==> Compatible(At(other, ref.itemId).offers[offer], Chosen(ref.variantId)))
  {
    var m := Merged(e, other);
    assert ref.itemId in m && m[ref.itemId] == Join(At(e, ref.itemId), At(other, ref.itemId));
  }

  // ---------------------------------------------------------------- the mutable set

  method AddVariants(start: set<string>, itemId: string, rows: seq<VariantRow>) returns (variants: set<string>)
    ensures variants == start + OwnVariants(itemId, rows)
  {
    variants := start;
    for i := 0 to |rows|
      invariant variants == start + OwnVariants(itemId, rows[..i])
    {
      assert rows[..i + 1] == rows[..i] + [rows[i]];
      if rows[i].itemId == itemId { variants := variants + {rows[i].id}; }
    }
    assert rows[..|rows|] == rows;
  }

  method AddOffers(start: map<string, string>, itemId: string, rows: seq<OfferRow>) returns (offers: map<string, string>)
    ensures offers == start + OwnOffers(itemId, rows)
  {
    offers := start;
    for i := 0 to |rows|
      invariant offers == start + OwnOffers(itemId, rows[..i])
    {
      assert rows[..i + 1][..i] == rows[..i];
      if rows[i].itemId != itemId { continue; }
      offers := offers[rows[i].id := if rows[i].variantId.Some? then rows[i].variantId.value else ""];
    }
    assert rows[..|rows|] == rows;
  }

  class CatalogAIEvidenceSet {
    var items: Evidence

    constructor ()
      ensures items == map[]
    {
      items := map[];
    }

    method AddBundle(b: Bundle)
      modifies this
      ensures items == Added(old(items), b)
    {
      var item := At(items, b.itemId);
      var variants := AddVariants(item.variants, b.itemId, b.variants);
      var offers := AddOffers(item.offers, b.itemId, b.offers);
      items := items[b.itemId := EvidenceItem(variants, offers)];
    }

    method Merge(other: Evidence)
      modifies this
      ensures items == Merged(old(items), other)
    {
      var rest := other.Keys;
      while rest != {}
        invariant rest <= other.Keys
        invariant forall id :: id in items <==> id in old(items) || (id in other && id !in rest)
        invariant forall id :: id in items ==>
          items[id] == if id in other && id !in rest then Join(At(old(items), id), other[id]) else At(old(items), id)
        decreases rest
      {
        var id :| id in rest;
        rest := rest - {id};
        items := items[id := Join(At(items, id), other[id])];
      }
    }

    method ContainsSelection(ref: Selection) returns (ok: bool)
      ensures ok <==> Contains(items, ref)
    {
      if ref.itemId !in items { return false; }
      var item := items[ref.itemId];
      var variant := "";
      if ref.variantId.Some? {
        variant := ref.variantId.value;
        if variant != "" && variant !in item.variants { return false; }
      }
      if ref.offerId.Some? && ref.offerId.value != "" {
        if ref.offerId.value !in item.offers { return false; }
        var bound := item.offers[ref.offerId.value];
        if variant != "" && bound != "" && bound != variant { return false; }
      }
      return true;
    }
  }
}
