/** The service over the catalog and the proposal store. */
module ExecutionServices {
  import opened Text
  import opened CatalogAttributes
  import opened Execution
  import opened ExecutionProofs
  import opened ExecutionOutcome
  import opened ExecutionResults

  predicate Listed(db: Database, item: string, variants: bool, key: Key) {
    !key.Item? && key.Variant? == variants && Owned(db, key, item)
  }

  /** The repository's listing of an item's variants or offers. */
  method ListKeys(db: Database, item: string, variants: bool) returns (keys: seq<Key>)
    ensures forall key :: key in keys <==> Listed(db, item, variants, key)
  {
    keys := [];
    var rest := db.rows.Keys;
    while rest != {}
      invariant rest <= db.rows.Keys
      invariant forall key :: key in keys <==> Listed(db, item, variants, key) && key !in rest
      decreases rest
    {
      var key :| key in rest;
      rest := rest - {key};
      if Listed(db, item, variants, key) { keys := keys + [key]; }
    }
  }

  ghost predicate Loaded(db: Database, keys: seq<Key>, found: map<Key, int>) {
    && (forall key :: key in found <==> key in keys)
    && (forall key :: key in found ==> key in db.rows && found[key] == db.rows[key].version)
  }

  ghost predicate AttrsLoaded(db: Database, keys: seq<Key>, attrs: map<string, Attributes>) {
    && (forall id :: id in attrs <==> Variant(id) in keys)
    && (forall id :: id in attrs ==> Variant(id) in db.rows && attrs[id] == db.rows[Variant(id)].attrs)
  }

  lemma LoadStep(db: Database, keys: seq<Key>, i: nat, found: map<Key, int>, attrs: map<string, Attributes>)
    requires i < |keys| && Loaded(db, keys[..i], found) && AttrsLoaded(db, keys[..i], attrs) && keys[i] in db.rows
    ensures Loaded(db, keys[..i + 1], found[keys[i] := db.rows[keys[i]].version])
    ensures AttrsLoaded(db, keys[..i + 1], if keys[i].Variant? then attrs[keys[i].id := db.rows[keys[i]].attrs] else attrs)
  {
    assert keys[..i + 1] == keys[..i] + [keys[i]];
  }

  ghost predicate AllLoaded(db: Database, keys: seq<Key>, found: map<Key, int>, attrs: map<string, Attributes>) {
    Loaded(db, keys, found) && AttrsLoaded(db, keys, attrs)
  }

  /** One page of the listing. */
  method LoadPage(db: Database, keys: seq<Key>, from: nat, end: nat, found0: map<Key, int>, attrs0: map<string, Attributes>)
    returns (found: map<Key, int>, attrs: map<string, Attributes>)
    requires from <= end <= |keys| && AllLoaded(db, keys[..from], found0, attrs0) && forall key :: key in keys ==> key in db.rows
    ensures AllLoaded(db, keys[..end], found, attrs)
  {
    found, attrs := found0, attrs0;
    for i := from to end
      invariant AllLoaded(db, keys[..i], found, attrs)
    {
      assert keys[i] in keys;
      LoadStep(db, keys, i, found, attrs);
      found := found[keys[i] := db.rows[keys[i]].version];
      if keys[i].Variant? { attrs := attrs[keys[i].id := db.rows[keys[i]].attrs]; }
    }
  }

  /** Pages of a hundred rows, until the listing has no more. */
  method LoadVersions(db: Database, item: string, variants: bool) returns (found: map<Key, int>, attrs: map<string, Attributes>)
    ensures forall key :: key in found <==> Listed(db, item, variants, key)
    ensures forall key :: key in found ==> key in db.rows && found[key] == db.rows[key].version
    ensures attrs == if variants then VariantAttrs(db, item) else map[]
  {
    var keys := ListKeys(db, item, variants);
    found, attrs := map[], map[];
    var cursor := 0;
    while true
      invariant 0 <= cursor <= |keys|
      invariant AllLoaded(db, keys[..cursor], found, attrs)
      decreases |keys| - cursor
    {
      var end := if cursor + 100 < |keys| then cursor + 100 else |keys|;
      found, attrs := LoadPage(db, keys, cursor, end, found, attrs);
      cursor := end;
      if cursor == |keys| { break; }
    }
    assert keys[..cursor] == keys;
  }

  /** Adds the versions of the wanted keys, all of which must have been found. */
  method Collect(found: map<Key, int>, wanted: seq<Key>, into: map<Key, int>) returns (r: Option<map<Key, int>>)
    ensures r.Some? <==> forall key :: key in wanted ==> key in found
    ensures r.Some? ==> r.value.Keys == into.Keys + set key | key in wanted
    ensures r.Some? ==> forall key :: key in r.value ==> if key in wanted then key in found && r.value[key] == found[key] else r.value[key] == into[key]
  {
    var out := into;
    for i := 0 to |wanted|
      invariant forall key :: key in wanted[..i] ==> key in found
      invariant out.Keys == into.Keys + set key | key in wanted[..i]
      invariant forall key :: key in out ==> if key in wanted[..i] then out[key] == found[key] else out[key] == into[key]
    {
      assert wanted[..i + 1] == wanted[..i] + [wanted[i]];
      if wanted[i] !in found { assert wanted[i] in wanted; return None; }
      out := out[wanted[i] := found[wanted[i]]];
    }
    assert wanted[..|wanted|] == wanted;
    return Some(out);
  }

  function OffersOf(os: seq<OfferChange>): (r: seq<Key>)
    ensures forall key :: key in r <==> key in set o | o in os :: Offer(o.id)
  {
    if os == [] then []
    else
      assert os == os[..|os| - 1] + [os[|os| - 1]];
      OffersOf(os[..|os| - 1]) + [Offer(os[|os| - 1].id)]
  }

  /** The variants that offers are bound to. */
  function BoundVariants(os: seq<OfferChange>): (r: seq<Key>)
    ensures forall key :: key in r <==> key in set o | o in os && o.variantId.Some? :: Variant(o.variantId.value)
  {
    if os == [] then []
    else
      assert os == os[..|os| - 1] + [os[|os| - 1]];
      BoundVariants(os[..|os| - 1]) + if os[|os| - 1].variantId.Some? then [Variant(os[|os| - 1].variantId.value)] else []
  }

  function NamedVariants(os: seq<NewOffer>): (r: seq<Key>)
    ensures forall key :: key in r <==> key in set o | o in os && o.variantId.Some? :: Variant(o.variantId.value)
  {
    if os == [] then []
    else
      assert os == os[..|os| - 1] + [os[|os| - 1]];
      NamedVariants(os[..|os| - 1]) + if os[|os| - 1].variantId.Some? then [Variant(os[|os| - 1].variantId.value)] else []
  }

  function ChangedVariants(vs: seq<VariantChange>): (r: seq<Key>)
    ensures forall key :: key in r <==> key in set v | v in vs :: Variant(v.id)
  {
    if vs == [] then []
    else
      assert vs == vs[..|vs| - 1] + [vs[|vs| - 1]];
      ChangedVariants(vs[..|vs| - 1]) + [Variant(vs[|vs| - 1].id)]
  }

  /** All parts an update names, in the order in which the snapshot looks them up. */
  function Wanted(q: Proposal): (r: seq<Key>)
    requires q.Update?
    ensures forall key :: key in r <==> key in PartKeys(q)
  {
    OffersOf(q.offers) + BoundVariants(q.offers) + ChangedVariants(q.variants) + NamedVariants(q.newOffers)
  }

  lemma PartKinds(q: Proposal, key: Key)
    requires q.Update? && key in PartKeys(q)
    ensures !key.Item? && (key.Variant? ==> NeedsVariants(q)) && (key.Offer? ==> q.offers != [])
  {
  }

  lemma SnapshotIs(db: Database, catalog: string, q: Proposal, found: map<Key, int>, versions: map<Key, int>, attrs: map<string, Attributes>)
    requires q.Update? && Owned(db, Item(q.itemId), catalog)
    requires forall key :: key in PartKeys(q) ==> Owned(db, key, q.itemId) && key in found && found[key] == db.rows[key].version
    requires versions.Keys == {Item(q.itemId)} + PartKeys(q)
    requires forall key :: key in versions ==> versions[key] == if key in PartKeys(q) then found[key] else db.rows[Item(q.itemId)].version
    requires attrs == if NeedsVariants(q) then VariantAttrs(db, q.itemId) else map[]
    ensures TakeSnapshot(db, catalog, q) == Some(Snapshot(versions, attrs))
  {
    assert forall key :: key in PartKeys(q) ==> Owned(db, key, q.itemId);
    var want := map key | key in PartKeys(q) + {Item(q.itemId)} :: if key in db.rows then db.rows[key].version else 0;
    assert want == versions;
  }

  /** snapshot: lists what is needed page by page and looks up every part. */
  method LoadSnapshot(db: Database, catalog: string, q: Proposal) returns (r: Option<Snapshot>)
    ensures r == TakeSnapshot(db, catalog, q)
  {
    if q.Create? { return Some(Snapshot(map[], map[])); }
    if !Owned(db, Item(q.itemId), catalog) { return None; }
    var versions := map[Item(q.itemId) := db.rows[Item(q.itemId)].version];
    if q.Delete? { return Some(Snapshot(versions, map[])); }
    var found: map<Key, int>, attrs: map<string, Attributes> := map[], map[];
    if q.offers != [] { found, attrs := LoadVersions(db, q.itemId, false); }
    if NeedsVariants(q) {
      var more;
      more, attrs := LoadVersions(db, q.itemId, true);
      found := found + more;
    }
    var wanted := Wanted(q);
    forall key | key in wanted ensures key in found <==> Owned(db, key, q.itemId) { PartKinds(q, key); }
    var all := Collect(found, wanted, versions);
    if all.None? { return None; }
    SnapshotIs(db, catalog, q, found, all.value, attrs);
    return Some(Snapshot(all.value, attrs));
  }

  method ApplyWrites(st: Stages, id: string, p: StoredProposal, db: Database) returns (r: Option<Tx>)
    ensures r == Apply(st, id, p, db)
  {
    var ws := Writes(st, db, p.proposal);
    var tx := StartTx(db, p.proposal);
    for i := 0 to |ws|
      invariant Run(st, id, p, StartTx(db, p.proposal), ws[..i]) == Some(tx)
    {
      assert ws[..i + 1][..i] == ws[..i];
      var next := Do(st, id, p, tx, ws[i]);
      if next.None? {
        RunFails(st, id, p, StartTx(db, p.proposal), ws, i + 1);
        return None;
      }
      tx := next.value;
    }
    assert ws[..|ws|] == ws;
    return Some(tx);
  }

  class ExecutionService {
    var world: World

    constructor ()
      ensures Initial(world) && Inv(world)
    {
      world := World(Database(map[], {}), map[], map[], []);
    }

    method Prepare(st: Stages, id: string, principal: string, catalog: string, q: Proposal, guard: bool) returns (ok: bool)
      modifies this
      ensures (world, ok) == Prepared(st, old(world), id, principal, catalog, q, guard)
      // a proposal is stored once, under a new ID, and the catalog is not touched
      ensures world.db == old(world).db && (!ok ==> world == old(world)) && (ok ==> id !in old(world).proposals)
      ensures Inv(old(world)) ==> Inv(world)
    {
      if Inv(world) { PrepareInv(st, world, id, principal, catalog, q, guard); }
      if !guard || !st.valid(q) || !st.preflight(world.db, q) { return false; }
      var s := LoadSnapshot(world.db, catalog, q);
      if s.None? || id in world.proposals { return false; }
      var p := StoredProposal(principal, catalog, q, s.value.versions, s.value.variantAttrs, None);
      world := world.(proposals := world.proposals[id := p], reviews := world.reviews[id := world.db]);
      return true;
    }

    /** The transaction works on a copy that replaces the world only at the end. */
    method ExecuteApproved(st: Stages, id: string, principal: string, guard: bool, closed: bool) returns (r: Option<Result>)
      modifies this
      ensures (world, r) == Executed(st, old(world), id, principal, guard, closed)
      // the answer is the recorded result; no answer, no change
      ensures if r.None? then world == old(world) else id in world.proposals && world.proposals[id].result == r
      ensures Inv(old(world)) ==> Inv(world)
      // a committed update leaves every change and every new row of the proposal, and answers with their IDs
      ensures Inv(old(world)) && world != old(world) && old(world).proposals[id].proposal.Update? ==>
        var q := old(world).proposals[id].proposal;
        && ChangesThere(st, q, old(world).reviews[id], world.db, ItemWritten(st, old(world).db, q))
        && NewRowsThere(st, id, 0, q, q.itemId, old(world).db, world.db)
        && r.Some? && AnswerIs(st, id, q, r.value)
    {
      if Inv(world) {
        ExecuteInv(st, world, id, principal, guard, closed);
        if Executed(st, world, id, principal, guard, closed).0 != world && world.proposals[id].proposal.Update? {
          UpdateTheorem(st, world, id, principal, guard, closed);
        }
      }
      if !guard || id !in world.proposals || world.proposals[id].principal != principal { return None; }
      var p := world.proposals[id];
      if p.result.Some? { return p.result; }
      if !st.valid(p.proposal) { return None; }
      var now := LoadSnapshot(world.db, p.catalog, p.proposal);
      if now.None? || exists key :: key in p.versions && VersionIn(now.value.versions, key) != p.versions[key] { return None; }
      var tx := ApplyWrites(st, id, p, world.db);
      if tx.None? || !closed { return None; }
      p := p.(result := Some(tx.value.result));
      world := world.(db := tx.value.db, proposals := world.proposals[id := p], commits := world.commits + [id]);
      return p.result;
    }

    method OutsideEdit(e: Edit)
      modifies this
      ensures world == old(world).(db := Edited(old(world).db, e))
      // no row changes without its version, and no ID comes back
      ensures Inv(old(world)) ==> Inv(world) && Evolves(old(world).db, world.db)
    {
      if Inv(world) {
        EditEvolves(world.db, e);
        Moved(world, Edited(world.db, e));
      }
      world := world.(db := Edited(world.db, e));
    }
  }
}
