/** The attribute part of an item update, from the preflight to apply: what the preflight
    accepts, what apply accepts, and exactly where they part. */
module UpdateDecision {
  import opened Text
  import opened CatalogAttributes
  import opened AttributeDefinitions
  import opened KeyRenaming
  import opened Approval
  import opened UpdateApproval

  /** An update of an item's attributes. `current` is the item's template, or the one the
      update attaches as the item's first; `changes` is None when the update carries no item
      attributes. */
  datatype ItemUpdate = ItemUpdate(current: Option<Schema>, attached: bool, was: Attributes, changes: Option<Attributes>)

  // ---------------------------------------------------------------- the preflight

  /** Nothing is looked at without a template, nor when the update carries no item attributes
      and attaches no template. */
  ghost predicate PreflightAccepts(lib: Library, aliases: map<string, string>, u: ItemUpdate) {
    u.current.None?
    || match u.changes
       case None => u.attached ==> AttributesOk(lib, u.current, u.was, true)
       case Some(changes) =>
         Injective(aliases, changes.Keys) && exists v :: Renames(aliases, changes, v) && AttributesOk(lib, u.current, u.was + v, true)
  }

  method PreflightItem(lib: Library, aliases: map<string, string>, u: ItemUpdate) returns (ok: bool)
    ensures ok <==> PreflightAccepts(lib, aliases, u)
  {
    if u.current.None? { return true; }
    var renamed := Remap(u.changes, aliases);
    if renamed.Collision? { return false; }
    if u.changes.None? && !u.attached { return true; }
    var merged := Merge(u.was, renamed.attrs);
    if u.changes.None? { merged := Some(u.was); }
    var verdict := PreflightSchemaAttributes(lib, u.current, merged.value, true);
    ok := verdict.Accepted?;
    if u.changes.Some? {
      forall v | Renames(aliases, u.changes.value, v) ensures v == renamed.attrs.value {
        RenamesOnce(aliases, u.changes.value, v, renamed.attrs.value);
      }
    }
  }

  // ---------------------------------------------------------------- apply

  /** The item is moved to another template: its first, or a version minted for it. */
  predicate Moved(u: ItemUpdate, after: Option<Schema>) {
    || (u.attached && u.current.Some?)
    || (after.Some? && (u.current.None? || after.value.id != u.current.value.id))
  }

  ghost predicate ApplyAccepts(lib: Library, keys: map<string, string>, after: Option<Schema>, u: ItemUpdate) {
    match u.changes
    case None => Moved(u, after) ==> AttributesOk(lib, after, map[], true)
    case Some(changes) =>
      && Mergeable(keys, u.was, changes)
      && exists stored :: Overlaid(keys, u.was, changes, stored) && AttributesOk(lib, after, stored, true)
  }

  lemma OverlaidOnce(keys: map<string, string>, was: Attributes, changes: Attributes, a: Attributes, b: Attributes)
    requires Overlaid(keys, was, changes, a) && Overlaid(keys, was, changes, b)
    ensures a == b
  {
    var w, n :| Renames(keys, was, w) && Renames(keys, changes, n) && a == w + n;
    var w', n' :| Renames(keys, was, w') && Renames(keys, changes, n') && b == w' + n';
    RenamesOnce(keys, was, w, w');
    RenamesOnce(keys, changes, n, n');
  }

  /** The attributes of the patch; None when apply refuses them. */
  method ApplyItem(lib: Library, keys: map<string, string>, after: Option<Schema>, u: ItemUpdate) returns (r: Option<Option<Attributes>>)
    requires Idempotent(keys)
    ensures r.Some? <==> ApplyAccepts(lib, keys, after, u)
    ensures r.Some? && u.changes.Some? ==> r.value.Some? && Overlaid(keys, u.was, u.changes.value, r.value.value)
  {
    var patch := PatchItemAttributes(u.was, u.changes, keys);
    if patch.Collision? { return None; }
    if u.changes.Some? || Moved(u, after) {
      var attrs := if patch.attrs.Some? then patch.attrs.value else map[];
      var ok := ValidateAttributes(lib, after, attrs, true);
      if u.changes.Some? {
        forall s | Overlaid(keys, u.was, u.changes.value, s) ensures s == attrs {
          OverlaidOnce(keys, u.was, u.changes.value, s, attrs);
        }
      }
      if !ok { return None; }
    }
    return Some(patch.attrs);
  }

  // ---------------------------------------------------------------- exactly when apply accepts

  /** What has been established before approval: the proposal's own validation, with the maps
      of its variants, the definition preflight, and the attribute preflight of the item. */
  ghost predicate Reviewed(r: Resolved, u: ItemUpdate, schemaName: string, variants: seq<Attributes>) {
    && r.ds == DefinitionsOf(u.current)
    && ProposalValid(r.lib, r.specs, (if u.changes.Some? then [u.changes.value] else []) + variants)
    && PreflightOk(r.lib, u.current, schemaName, r.specs) && PreflightAccepts(r.lib, Reused(r), u)
  }

  predicate NoRequired(ds: seq<Definition>) { forall i :: 0 <= i < |ds| ==> !ds[i].required }

  /** The condition, in terms of the item, the changes and the keys.
      With item attributes: the names do not collide, every old attribute that bears an alias
      fits the definition it is moved to and, without a template, the other names are
      admissible. Without: the item is not moved, or its template is valid and requires nothing. */
  ghost predicate WillBeAccepted(r: Resolved, u: ItemUpdate, after: Option<Schema>) {
    match u.changes
    case None => Moved(u, after) ==> SchemaOk(r.lib, r.ds) && NoRequired(r.ds)
    case Some(changes) =>
      && Mergeable(r.keys, u.was, changes) && OldFit(r, u.was)
      && (u.current.None? ==> KeptFit(r, u.was, changes))
  }

  lemma EmptyAccepted(r: Resolved, after: Option<Schema>)
    requires Sound(r.lib) && Valid(r) && DefinitionsOf(after) == r.ds + r.minted
    ensures AttributesOk(r.lib, after, map[], true) <==> SchemaOk(r.lib, r.ds) && NoRequired(r.ds)
  {
    ResolutionExtends(r.lib, r.ds, r.specs, r.keys, r.minted);
    Extended(r.lib, r.ds, r.minted, map[]);
    assert RequiredOk(r.ds, map[]) ==> forall i :: 0 <= i < |r.ds| ==> Supplied(r.ds[i], map[]) && !r.ds[i].required;
    assert NoRequired(r.ds) ==> forall i :: 0 <= i < |r.ds| ==> Supplied(r.ds[i], map[]);
  }

  lemma AfterDefinitions(r: Resolved, current: Option<Schema>, schemaName: string, repo: Repository, after: Option<Schema>)
    requires r.ds == DefinitionsOf(current) && SchemaAfter(current, schemaName, repo, r.minted, after)
    ensures DefinitionsOf(after) == r.ds + r.minted
  {
    assert r.minted == [] ==> r.ds + r.minted == r.ds;
  }

  lemma ChangesValid(r: Resolved, u: ItemUpdate, schemaName: string, variants: seq<Attributes>)
    requires Reviewed(r, u, schemaName, variants) && u.changes.Some?
    ensures ValuesFit(r.lib, r.specs, u.changes.value)
  {
    var maps := [u.changes.value] + variants;
    assert maps[0] == u.changes.value && MapOk(r.lib, r.specs, maps[0]);
  }

  lemma StoredAccepted(r: Resolved, u: ItemUpdate, schemaName: string, variants: seq<Attributes>, after: Option<Schema>, was': Attributes, new_: Attributes)
    requires Sound(r.lib) && Valid(r) && Reviewed(r, u, schemaName, variants) && u.changes.Some?
    requires DefinitionsOf(after) == r.ds + r.minted && Stores(r.keys, u.was, u.changes.value, was', new_)
    requires Compatible(r.keys, u.was.Keys, u.changes.value.Keys)
    ensures AttributesOk(r.lib, after, was' + new_, true) <==>
      OldFit(r, u.was) && (u.current.None? ==> KeptFit(r, u.was, u.changes.value))
  {
    ChangesValid(r, u, schemaName, variants);
    if u.current.None? {
      assert r.ds + r.minted == r.minted;
      AcceptedWithoutTemplate(r, u.was, u.changes.value, was', new_);
    } else {
      var v :| Renames(Reused(r), u.changes.value, v) && AttributesOk(r.lib, u.current, u.was + v, true);
      AcceptedUnderTemplate(r, u.was, u.changes.value, v, was', new_);
    }
  }

  /** After a passed validation and preflight, with the item and the template unchanged and the
      definitions resolved, apply accepts the item's attributes exactly under this condition. */
  lemma ApplyAcceptsIff(r: Resolved, u: ItemUpdate, schemaName: string, variants: seq<Attributes>, repo: Repository, after: Option<Schema>)
    requires Sound(r.lib) && Valid(r) && Reviewed(r, u, schemaName, variants) && SchemaAfter(u.current, schemaName, repo, r.minted, after)
    ensures ApplyAccepts(r.lib, r.keys, after, u) <==> WillBeAccepted(r, u, after)
  {
    AfterDefinitions(r, u.current, schemaName, repo, after);
    if u.changes.None? {
      EmptyAccepted(r, after);
    } else if Mergeable(r.keys, u.was, u.changes.value) {
      var was' := RenamesExist(r.keys, u.was);
      var new_ := RenamesExist(r.keys, u.changes.value);
      assert Overlaid(r.keys, u.was, u.changes.value, was' + new_);
      forall s | Overlaid(r.keys, u.was, u.changes.value, s) ensures s == was' + new_ {
        OverlaidOnce(r.keys, u.was, u.changes.value, s, was' + new_);
      }
      StoredAccepted(r, u, schemaName, variants, after, was', new_);
    }
  }

  // ---------------------------------------------------------------- variants and creations

  lemma {:induction false} LabelsDiffer(lib: Library, ds: seq<Definition>, specs: seq<Spec>, i: nat, j: nat)
    requires SpecsPreflight(lib, ds, specs) && i < j < |specs|
    ensures Trim(specs[i].label_) != Trim(specs[j].label_)
  {
    if j == |specs| - 1 {
      InSets(Init(specs), i);
    } else {
      LabelsDiffer(lib, ds, Init(specs), i, j);
    }
  }

  /** Two new aliases have two keys. */
  lemma NewKeysDiffer(r: Resolved, a: string, b: string)
    requires Valid(r) && SpecsPreflight(r.lib, r.ds, r.specs) && NewAlias(r, a) && NewAlias(r, b) && r.keys[a] == r.keys[b]
    ensures a == b
  {
    BindingsAgree(r.lib, r.ds, r.specs, r.keys, r.minted);
    var i := MintedFor(r.lib, r.ds, r.specs, r.keys, r.minted, a);
    var j := MintedFor(r.lib, r.ds, r.specs, r.keys, r.minted, b);
    SameDefinition(r.lib, r.specs[i], r.specs[j], r.keys[a]);
    SameLabel(r.lib, r.ds, r.specs, i, j);
  }

  lemma SameDefinition(lib: Library, s: Spec, t: Spec, key: string)
    requires NewDefinition(lib, s, key) == NewDefinition(lib, t, key)
    ensures Trim(s.label_) == Trim(t.label_)
  {
  }

  lemma SameLabel(lib: Library, ds: seq<Definition>, specs: seq<Spec>, i: nat, j: nat)
    requires SpecsPreflight(lib, ds, specs) && i < |specs| && j < |specs| && Trim(specs[i].label_) == Trim(specs[j].label_)
    ensures i == j
  {
    if i < j { LabelsDiffer(lib, ds, specs, i, j); }
    if j < i { LabelsDiffer(lib, ds, specs, j, i); }
  }

  lemma ReservedIsNotFree(key: string)
    requires Reserved(key)
    ensures !CustomKeyOk(key)
  {
    TrimKeepsPrefix("attr_", key);
  }

  /** The key of a new alias is the name of nothing that a template accepted. */
  lemma NewKeyUnused(r: Resolved, was: Attributes, changes: Attributes, validated: Attributes, a: string, b: string)
    requires Valid(r) && Passed(r, was, changes, validated) && NewAlias(r, a) && b in changes && !NewAlias(r, b)
    ensures Target(r.keys, a) != Target(r.keys, b)
  {
    AliasFacts(r, a);
    AliasFacts(r, b);
    assert Carried(Reused(r), changes, validated, b);
    var t := Target(r.keys, b);
    assert t in was + validated && EntryOk(r.lib, r.ds, t, (was + validated)[t]);
    if Reserved(t) { ReservedIsNotFree(t); }
  }

  /** Names that do not collide in the preflight do not collide at approval. */
  lemma InjectiveChanges(r: Resolved, was: Attributes, changes: Attributes, validated: Attributes)
    requires Valid(r) && Passed(r, was, changes, validated) && Injective(Reused(r), changes.Keys)
    ensures Injective(r.keys, changes.Keys)
  {
    forall a, b | a in changes.Keys && b in changes.Keys && Target(r.keys, b) == Target(r.keys, a) ensures a == b {
      AliasFacts(r, a);
      AliasFacts(r, b);
      if NewAlias(r, a) && NewAlias(r, b) {
        NewKeysDiffer(r, a, b);
      } else if NewAlias(r, a) {
        NewKeyUnused(r, was, changes, validated, a, b);
      } else if NewAlias(r, b) {
        NewKeyUnused(r, was, changes, validated, b, a);
      } else {
        assert Alone(Reused(r), changes.Keys, a);
      }
    }
    assert forall a :: a in changes.Keys ==> Alone(r.keys, changes.Keys, a);
  }

  lemma {:induction false} MintedReserved(lib: Library, ds: seq<Definition>, minted: seq<Definition>, key: string)
    requires Extends(lib, ds, minted) && !Reserved(key)
    ensures Find(minted, key).None?
  {
    if minted != [] { MintedReserved(lib, ds, minted[..|minted| - 1], key); }
  }

  /** An old attribute of a variant keeps its name, even under a new alias. */
  lemma VariantKept(r: Resolved, was: Attributes, changes: Attributes, validated: Attributes, new_: Attributes, t: string)
    requires Sound(r.lib) && Valid(r) && Passed(r, was, changes, validated) && Renames(r.keys, changes, new_) && t in was && t !in new_
    ensures EntryOk(r.lib, r.ds + r.minted, t, was[t])
  {
    Unmoved(r, was + validated, t);
    if t in validated {
      assert Hit(Reused(r), changes.Keys, t);
      var c :| c in changes.Keys && Target(Reused(r), c) == t;
      AliasFacts(r, c);
      assert Carried(r.keys, changes, new_, c);
      assert NewAlias(r, t);
      BindingsAgree(r.lib, r.ds, r.specs, r.keys, r.minted);
      AliasesFree(r.lib, r.ds, r.specs, t);
      if Find(r.ds, t).Some? { StoredIsReused(r, t); }
      ResolutionExtends(r.lib, r.ds, r.specs, r.keys, r.minted);
      MintedReserved(r.lib, r.ds, r.minted, t);
      FindSplit(r.ds, r.minted, t);
    }
  }

  /** Variants under a template, existing ones with their old attributes and new ones with none:
      what the preflight accepted neither collides nor is refused by apply. */
  lemma VariantAccepted(r: Resolved, after: Option<Schema>, was: Attributes, changes: Attributes, validated: Attributes, new_: Attributes)
    requires Sound(r.lib) && Valid(r) && DefinitionsOf(after) == r.ds + r.minted && SchemaOk(r.lib, r.ds)
    requires Passed(r, was, changes, validated) && Injective(Reused(r), changes.Keys) && Renames(r.keys, changes, new_)
    ensures Injective(r.keys, changes.Keys) && AttributesOk(r.lib, after, was + new_, false)
  {
    InjectiveChanges(r, was, changes, validated);
    ResolutionExtends(r.lib, r.ds, r.specs, r.keys, r.minted);
    Extended(r.lib, r.ds, r.minted, map[]);
    forall t | t in was + new_ ensures EntryOk(r.lib, r.ds + r.minted, t, (was + new_)[t]) {
      if t in new_ {
        ChangeAccepted(r, was, changes, validated, new_, t);
      } else {
        VariantKept(r, was, changes, validated, new_, t);
      }
    }
  }

  /** A created item under a template: the same, with the required keys. */
  lemma CreationAccepted(r: Resolved, after: Option<Schema>, attrs: Attributes, validated: Attributes, new_: Attributes)
    requires Sound(r.lib) && Valid(r) && DefinitionsOf(after) == r.ds + r.minted && SchemaOk(r.lib, r.ds)
    requires Passed(r, map[], attrs, validated) && Injective(Reused(r), attrs.Keys) && Renames(r.keys, attrs, new_)
    requires RequiredOk(r.ds, validated)
    ensures Injective(r.keys, attrs.Keys) && AttributesOk(r.lib, after, new_, true)
  {
    NoOld(new_);
    VariantAccepted(r, after, map[], attrs, validated, new_);
    CreationRequired(r, attrs, validated, new_);
  }

  lemma NoOld(attrs: Attributes)
    ensures map[] + attrs == attrs
  {
  }

  lemma CreationRequired(r: Resolved, attrs: Attributes, validated: Attributes, new_: Attributes)
    requires Sound(r.lib) && Valid(r) && Renames(Reused(r), attrs, validated) && Renames(r.keys, attrs, new_) && RequiredOk(r.ds, validated)
    ensures RequiredOk(r.ds + r.minted, new_)
  {
    NoOld(validated);
    NoOld(new_);
    RequiredKept(r, map[], attrs, validated, map[], new_);
    ResolutionExtends(r.lib, r.ds, r.specs, r.keys, r.minted);
    Extended(r.lib, r.ds, r.minted, new_);
  }

  /** Variants and creations without a template, which the preflight does not look at: what is
      stored is accepted exactly when the names that keep their place are admissible. */
  lemma VariantWithoutTemplate(r: Resolved, was: Attributes, changes: Attributes, new_: Attributes)
    requires Valid(r) && r.ds == [] && SpecsPreflight(r.lib, [], r.specs) && ValuesFit(r.lib, r.specs, changes) && Renames(r.keys, changes, new_)
    ensures EntriesOk(r.lib, r.minted, was + new_) <==>
      && (forall c :: c in changes && Fixed(r.keys, c) ==> EntryOk(r.lib, r.minted, c, changes[c]))
      && (forall k :: k in was && !Hit(r.keys, changes.Keys, k) ==> EntryOk(r.lib, r.minted, k, was[k]))
  {
    assert r.ds + r.minted == r.minted;
    NothingReused(r.specs);
    forall c | c in changes ensures Target(r.keys, c) in new_ && new_[Target(r.keys, c)] == changes[c] {
      assert Carried(r.keys, changes, new_, c);
    }
    forall c | c in changes && !Fixed(r.keys, c) ensures EntryOk(r.lib, r.minted, Target(r.keys, c), changes[c]) {
      NewAliasFits(r, changes, c);
    }
    forall k ensures k in new_ <==> Hit(r.keys, changes.Keys, k) { HitIff(r.keys, changes, new_, k); }
    if EntriesOk(r.lib, r.minted, was + new_) {
      assert forall c :: c in changes && Fixed(r.keys, c) ==> c in was + new_;
      assert forall k :: k in was ==> k in was + new_;
    }
  }
}
