/** Stored catalog proposals: review against a version snapshot, and execution in one
    transaction. */
module Execution {
  import opened Text
  import opened CatalogAttributes
  import opened KeyRenaming

  // ---------------------------------------------------------------- the catalog

  /** Snapshot keys: "item:", "offer:" and "variant:" with the ID behind. */
  datatype Key = Item(id: string) | Offer(id: string) | Variant(id: string)

  /** A catalog row. The owner of an item is its catalog, that of the others their item; an
      offer may be bound to a variant; `fields` stands for all other columns. */
  datatype Row = Row(owner: string, version: int, attrs: Attributes, fields: string, variant: Option<string>)

  /** The rows, and every key that was ever used: IDs are not handed out twice. */
  datatype Database = Database(rows: map<Key, Row>, used: set<Key>)

  predicate Owned(db: Database, key: Key, owner: string) { key in db.rows && db.rows[key].owner == owner }

  // ---------------------------------------------------------------- proposals

  datatype OfferChange = OfferChange(id: string, variantId: Option<string>, clearVariant: bool, fields: Option<string>)
  datatype VariantChange = VariantChange(id: string, fields: Option<string>, attrs: Option<Attributes>)
  datatype NewVariant = NewVariant(ref: string, fields: string, attrs: Option<Attributes>)
  datatype NewOffer = NewOffer(variantId: Option<string>, variantRef: Option<string>, fields: string)

  datatype Proposal =
    | Create(fields: string, attrs: Option<Attributes>, newVariants: seq<NewVariant>, newOffers: seq<NewOffer>)
    | Update(itemId: string, changes: Option<string>, attrs: Option<Attributes>, offers: seq<OfferChange>,
             variants: seq<VariantChange>, newVariants: seq<NewVariant>, newOffers: seq<NewOffer>)
    | Delete(itemId: string)

  datatype Result = Result(itemId: string, variantIds: seq<string>, offerIds: seq<string>)

  datatype StoredProposal = StoredProposal(
    principal: string, catalog: string, proposal: Proposal,
    versions: map<Key, int>, variantAttrs: map<string, Attributes>, result: Option<Result>)

  /** The steps this model leaves open: the proposal's own validation, the schema preflight,
      the renaming of attributes, the attributes of a patched or created item (None: refused),
      whether the item is written although no field changes, the checks of attributes and
      offers, the columns of an item once its status is archived, what else the repository may
      object to, and the IDs of new rows. */
  datatype Stages = Stages(
    valid: Proposal -> bool,
    preflight: (Database, Proposal) -> bool,
    rename: (Proposal, Option<Attributes>) -> Option<Option<Attributes>>,
    itemAttrs: (Attributes, Proposal) -> Option<Option<Attributes>>,
    moved: (Database, Proposal) -> bool,
    attrsOk: (Proposal, Attributes) -> bool,
    offerOk: (Row, OfferChange) -> bool,
    archived: string -> string,
    accepts: (Key, Row) -> bool,
    newId: (string, nat) -> string)

  // ---------------------------------------------------------------- the snapshot

  datatype Snapshot = Snapshot(versions: map<Key, int>, variantAttrs: map<string, Attributes>)

  function OfferKeys(offers: seq<OfferChange>): set<Key> {
    (set o | o in offers :: Offer(o.id)) + (set o | o in offers && o.variantId.Some? :: Variant(o.variantId.value))
  }

  /** The rows below the item that an update touches or refers to. */
  function PartKeys(q: Proposal): set<Key>
    requires q.Update?
  {
    OfferKeys(q.offers) + (set v | v in q.variants :: Variant(v.id))
    + (set o | o in q.newOffers && o.variantId.Some? :: Variant(o.variantId.value))
  }

  predicate NeedsVariants(q: Proposal)
    requires q.Update?
  {
    q.variants != [] || q.newOffers != [] || exists o :: o in q.offers && o.variantId.Some?
  }

  /** The attributes of all variants of an item. */
  function VariantAttrs(db: Database, item: string): map<string, Attributes> {
    map key | key in db.rows && key.Variant? && db.rows[key].owner == item :: key.id := db.rows[key].attrs
  }

  /** The versions of everything a proposal touches; None when a row is missing or belongs
      elsewhere. */
  function TakeSnapshot(db: Database, catalog: string, q: Proposal): Option<Snapshot> {
    if q.Create? then Some(Snapshot(map[], map[]))
    else if !Owned(db, Item(q.itemId), catalog) then None
    else if q.Delete? then Some(Snapshot(map[Item(q.itemId) := db.rows[Item(q.itemId)].version], map[]))
    else if exists key :: key in PartKeys(q) && !Owned(db, key, q.itemId) then None
    else
      Some(Snapshot(
        map key | key in PartKeys(q) + {Item(q.itemId)} :: if key in db.rows then db.rows[key].version else 0,
        if NeedsVariants(q) then VariantAttrs(db, q.itemId) else map[]))
  }

  // ---------------------------------------------------------------- writes

  function VersionIn(versions: map<Key, int>, key: Key): int { if key in versions then versions[key] else 0 }

  /** The columns an update writes; those that are None stay. */
  datatype Patch = Patch(fields: Option<string>, attrs: Option<Attributes>, variant: Option<Option<string>>)

  function Rewritten(row: Row, patch: Patch): Row {
    Row(row.owner, row.version + 1, Stored(row.attrs, patch.attrs),
        if patch.fields.Some? then patch.fields.value else row.fields,
        if patch.variant.Some? then patch.variant.value else row.variant)
  }

  /** An update guarded by the expected version, which it bumps. */
  function PatchRow(st: Stages, db: Database, key: Key, expected: int, patch: Patch): Option<Database> {
    if key !in db.rows || expected <= 0 || db.rows[key].version != expected then None
    else
      var row' := Rewritten(db.rows[key], patch);
      if st.accepts(key, row') then Some(db.(rows := db.rows[key := row'])) else None
  }

  function CreateRow(st: Stages, db: Database, key: Key, row: Row): Option<Database> {
    if key in db.used || row.version != 1 || !st.accepts(key, row) then None
    else Some(Database(db.rows[key := row], db.used + {key}))
  }

  /** One write of `apply`. */
  datatype Write =
    | AddItem | PatchItem(change: Option<string>) | Archive
    | PatchOffer(offer: OfferChange) | PatchVariant(variant: VariantChange)
    | AddVariant(newVariant: NewVariant) | AddOffer(newOffer: NewOffer)

  function OfferWrites(xs: seq<OfferChange>): seq<Write> { seq(|xs|, i requires 0 <= i < |xs| => PatchOffer(xs[i])) }
  function VariantWrites(xs: seq<VariantChange>): seq<Write> { seq(|xs|, i requires 0 <= i < |xs| => PatchVariant(xs[i])) }
  function NewWrites(vs: seq<NewVariant>, os: seq<NewOffer>): seq<Write> {
    seq(|vs|, i requires 0 <= i < |vs| => AddVariant(vs[i])) + seq(|os|, i requires 0 <= i < |os| => AddOffer(os[i]))
  }

  /** The writes of a proposal in their order. */
  function Writes(st: Stages, db: Database, q: Proposal): seq<Write> {
    match q
    case Create(_, _, vs, os) => [AddItem] + NewWrites(vs, os)
    case Delete(_) => [Archive]
    case Update(_, change, attrs, os, vs, nvs, nos) =>
      (if change.Some? || attrs.Some? || st.moved(db, q) then [PatchItem(change)] else [])
      + OfferWrites(os) + VariantWrites(vs) + NewWrites(nvs, nos)
  }

  /** The transaction so far: `refs` gives the IDs of the variants added. */
  datatype Tx = Tx(db: Database, drawn: nat, refs: map<string, string>, result: Result)

  function WithDb(tx: Tx, db: Option<Database>): Option<Tx> {
    if db.None? then None else Some(tx.(db := db.value))
  }

  function DoPatchItem(st: Stages, p: StoredProposal, tx: Tx, change: Option<string>): Option<Tx> {
    var key := Item(tx.result.itemId);
    if key !in tx.db.rows then None
    else
      match st.itemAttrs(tx.db.rows[key].attrs, p.proposal)
      case None => None
      case Some(attrs) => WithDb(tx, PatchRow(st, tx.db, key, VersionIn(p.versions, key), Patch(change, attrs, None)))
  }

  function DoPatchOffer(st: Stages, p: StoredProposal, tx: Tx, o: OfferChange): Option<Tx> {
    var key := Offer(o.id);
    if !Owned(tx.db, key, tx.result.itemId) || !st.offerOk(tx.db.rows[key], o) then None
    else if o.variantId.Some? && !Owned(tx.db, Variant(o.variantId.value), tx.result.itemId) then None
    else
      WithDb(tx.(result := tx.result.(offerIds := tx.result.offerIds + [o.id])),
             PatchRow(st, tx.db, key, VersionIn(p.versions, key), Patch(o.fields, None, Rebinding(o))))
  }

  /** An offer is bound to the variant given, or released, or left as it is. */
  function Rebinding(o: OfferChange): Option<Option<string>> {
    if o.variantId.Some? || o.clearVariant then Some(o.variantId) else None
  }

  /** The merge starts from the attributes given as `base`. */
  function MergeVariant(st: Stages, p: StoredProposal, tx: Tx, v: VariantChange, base: Attributes): Option<Tx> {
    match st.rename(p.proposal, v.attrs)
    case None => None
    case Some(changes) =>
      var attrs := Merge(base, changes);
      if attrs.Some? && !st.attrsOk(p.proposal, attrs.value) then None
      else
        WithDb(tx.(result := tx.result.(variantIds := tx.result.variantIds + [v.id])),
               PatchRow(st, tx.db, Variant(v.id), VersionIn(p.versions, Variant(v.id)), Patch(v.fields, attrs, None)))
  }

  function Reviewed(p: StoredProposal, id: string): Attributes {
    if id in p.variantAttrs then p.variantAttrs[id] else map[]
  }

  function DoAddVariant(st: Stages, p: StoredProposal, tx: Tx, id: string, v: NewVariant): Option<Tx> {
    match st.rename(p.proposal, v.attrs)
    case None => None
    case Some(changes) =>
      var attrs := Stored(map[], changes);
      if !st.attrsOk(p.proposal, attrs) then None
      else
        WithDb(Tx(tx.db, tx.drawn + 1, tx.refs[v.ref := id], tx.result.(variantIds := tx.result.variantIds + [id])),
               CreateRow(st, tx.db, Variant(id), Row(tx.result.itemId, 1, attrs, v.fields, None)))
  }

  function DoAddOffer(st: Stages, p: StoredProposal, tx: Tx, id: string, o: NewOffer): Option<Tx> {
    if o.variantRef.Some? && o.variantRef.value !in tx.refs then None
    else
      WithDb(Tx(tx.db, tx.drawn + 1, tx.refs, tx.result.(offerIds := tx.result.offerIds + [id])),
             CreateRow(st, tx.db, Offer(id), Row(tx.result.itemId, 1, map[], o.fields, BoundTo(tx.refs, o))))
  }

  /** A new offer names a variant by its ID, or one added with it by its reference. */
  function BoundTo(refs: map<string, string>, o: NewOffer): Option<string> {
    if o.variantRef.Some? && o.variantRef.value in refs then Some(refs[o.variantRef.value]) else o.variantId
  }

  function DoAddItem(st: Stages, p: StoredProposal, tx: Tx, id: string): Option<Tx> {
    match st.itemAttrs(map[], p.proposal)
    case None => None
    case Some(attrs) =>
      WithDb(Tx(tx.db, tx.drawn + 1, tx.refs, tx.result.(itemId := id)),
             CreateRow(st, tx.db, Item(id), Row(p.catalog, 1, Stored(map[], attrs), if p.proposal.Create? then p.proposal.fields else "", None)))
  }

  /** One write; a variant is merged with its attributes from the review. */
  function Do(st: Stages, id: string, p: StoredProposal, tx: Tx, w: Write): Option<Tx> {
    match w
    case AddItem => DoAddItem(st, p, tx, st.newId(id, tx.drawn))
    case PatchItem(change) => DoPatchItem(st, p, tx, change)
    case Archive =>
      var key := Item(tx.result.itemId);
      if key !in tx.db.rows then None
      else WithDb(tx, PatchRow(st, tx.db, key, VersionIn(p.versions, key), Patch(Some(st.archived(tx.db.rows[key].fields)), None, None)))
    case PatchOffer(o) => DoPatchOffer(st, p, tx, o)
    case PatchVariant(v) => MergeVariant(st, p, tx, v, Reviewed(p, v.id))
    case AddVariant(v) => DoAddVariant(st, p, tx, st.newId(id, tx.drawn), v)
    case AddOffer(o) => DoAddOffer(st, p, tx, st.newId(id, tx.drawn), o)
  }

  function Run(st: Stages, id: string, p: StoredProposal, tx: Tx, ws: seq<Write>): Option<Tx> {
    if ws == [] then Some(tx)
    else
      match Run(st, id, p, tx, ws[..|ws| - 1])
      case None => None
      case Some(t) => Do(st, id, p, t, ws[|ws| - 1])
  }

  function StartTx(db: Database, q: Proposal): Tx {
    Tx(db, 0, map[], Result(if q.Create? then "" else q.itemId, [], []))
  }

  function Apply(st: Stages, id: string, p: StoredProposal, db: Database): Option<Tx> {
    Run(st, id, p, StartTx(db, p.proposal), Writes(st, db, p.proposal))
  }

  // ---------------------------------------------------------------- the operations

  /** Catalog and proposal store. `reviews` (the database each proposal was reviewed against)
      and `commits` (the proposals whose writes were committed, in order) are history that
      no operation reads. */
  datatype World = World(db: Database, proposals: map<string, StoredProposal>, reviews: map<string, Database>, commits: seq<string>)

  /** An edit by anyone else: writes bump the version, new rows take unused IDs. */
  datatype Edit = Put(key: Key, row: Row) | Remove(key: Key)

  function Edited(db: Database, e: Edit): Database {
    match e
    case Put(key, row) =>
      if key in db.rows then db.(rows := db.rows[key := row.(version := db.rows[key].version + 1)])
      else if key in db.used then db
      else Database(db.rows[key := row.(version := 1)], db.used + {key})
    case Remove(key) => db.(rows := db.rows - {key})
  }

  /** An operation with the answers its open steps get; they may differ from call to call. */
  datatype Op =
    | Prepare(st: Stages, id: string, principal: string, catalog: string, q: Proposal, guard: bool)
    | Execute(st: Stages, id: string, principal: string, guard: bool, closed: bool)
    | Outside(edit: Edit)

  /** Prepare stores a proposal under a new ID with the snapshot of what it touches. */
  function Prepared(st: Stages, w: World, id: string, principal: string, catalog: string, q: Proposal, guard: bool): (World, bool) {
    if !guard || !st.valid(q) || !st.preflight(w.db, q) then (w, false)
    else
      match TakeSnapshot(w.db, catalog, q)
      case None => (w, false)
      case Some(s) =>
        if id in w.proposals then (w, false)
        else
          (w.(proposals := w.proposals[id := StoredProposal(principal, catalog, q, s.versions, s.variantAttrs, None)],
              reviews := w.reviews[id := w.db]), true)
  }

  predicate Fresh(versions: map<Key, int>, now: map<Key, int>) {
    forall key :: key in versions ==> VersionIn(now, key) == versions[key]
  }

  /** ExecuteApproved; `guard` is the business guard, `closed` whether recording the result
      and announcing it succeed. A failure leaves everything as it was. */
  function Executed(st: Stages, w: World, id: string, principal: string, guard: bool, closed: bool): (World, Option<Result>) {
    if !guard || id !in w.proposals || w.proposals[id].principal != principal then (w, None)
    else
      var p := w.proposals[id];
      if p.result.Some? then (w, p.result)
      else if !st.valid(p.proposal) then (w, None)
      else
        match TakeSnapshot(w.db, p.catalog, p.proposal)
        case None => (w, None)
        case Some(now) =>
          if !Fresh(p.versions, now.versions) then (w, None)
          else
            match Apply(st, id, p, w.db)
            case None => (w, None)
            case Some(tx) =>
              if !closed then (w, None)
              else
                (w.(db := tx.db, proposals := w.proposals[id := p.(result := Some(tx.result))], commits := w.commits + [id]),
                 Some(tx.result))
  }

  function Step(w: World, op: Op): World {
    match op
    case Prepare(st, id, principal, catalog, q, guard) => Prepared(st, w, id, principal, catalog, q, guard).0
    case Execute(st, id, principal, guard, closed) => Executed(st, w, id, principal, guard, closed).0
    case Outside(e) => w.(db := Edited(w.db, e))
  }

  function Steps(w: World, ops: seq<Op>): World {
    if ops == [] then w else Step(Steps(w, ops[..|ops| - 1]), ops[|ops| - 1])
  }
}
