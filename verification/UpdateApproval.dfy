/** What the preflight of an update says about the attributes that approval stores. The
    preflight renames with the aliases that reuse a stored key; approval renames with all. */
module UpdateApproval {
  import opened Text
  import opened CatalogAttributes
  import opened AttributeDefinitions
  import opened KeyRenaming
  import opened Approval

  /** A proposal's definitions as approval resolved them. */
  datatype Resolved = Resolved(lib: Library, ds: seq<Definition>, specs: seq<Spec>, keys: map<string, string>, minted: seq<Definition>)

  ghost predicate Valid(r: Resolved) {
    SpecsApproved(r.lib, r.ds, r.specs) && Resolution(r.lib, r.ds, r.specs, r.keys, r.minted)
  }

  /** The renaming of the preflight. */
  function Reused(r: Resolved): map<string, string> { AliasMap(r.ds, r.specs) }

  /** An alias that the preflight leaves as a free-form name and approval gives a new key. */
  predicate NewAlias(r: Resolved, key: string) { key in r.keys && key !in Reused(r) }

  lemma AliasFacts(r: Resolved, key: string)
    requires Valid(r)
    ensures Idempotent(r.keys)
    ensures !NewAlias(r, key) ==> Target(Reused(r), key) == Target(r.keys, key)
    ensures NewAlias(r, key) ==>
      Target(Reused(r), key) == key && Target(r.keys, key) != key && Reserved(Target(r.keys, key)) && Find(r.ds, Target(r.keys, key)).None?
  {
    AliasMapIdempotent(r.lib, r.ds, r.specs, r.keys, r.minted);
    BindingsAgree(r.lib, r.ds, r.specs, r.keys, r.minted);
    if NewAlias(r, key) { AliasesFree(r.lib, r.ds, r.specs, key); }
  }

  /** Whatever approval renames something to, it renames no further. */
  lemma HitIsFixed(keys: map<string, string>, names: set<string>, t: string)
    requires Idempotent(keys) && Hit(keys, names, t)
    ensures Fixed(keys, t)
  {
    var k :| k in names && Target(keys, k) == t;
    if k in keys { assert Fixed(keys, keys[k]); }
  }

  /** Both renamings of the changes agree when no changed name is a new alias. */
  lemma SameRenaming(r: Resolved, changes: Attributes, validated: Attributes)
    requires Valid(r) && Renames(Reused(r), changes, validated) && forall c :: c in changes ==> !NewAlias(r, c)
    ensures Renames(r.keys, changes, validated)
  {
    forall c | c in changes ensures Carried(r.keys, changes, validated, c) {
      AliasFacts(r, c);
      assert Carried(Reused(r), changes, validated, c);
    }
    forall t | t in validated ensures Hit(r.keys, changes.Keys, t) {
      assert Hit(Reused(r), changes.Keys, t);
      var c :| c in changes.Keys && Target(Reused(r), c) == t;
      AliasFacts(r, c);
      assert c in changes.Keys && Target(r.keys, c) == t;
    }
  }

  // ---------------------------------------------------------------- what is stored

  /** No old attribute bears an alias that is renamed away. */
  ghost predicate NoAliasLeft(keys: map<string, string>, was: Attributes, renamed: Attributes) {
    forall k :: k in was && k !in renamed ==> Fixed(keys, k)
  }

  lemma KeptNames(keys: map<string, string>, was: Attributes, was': Attributes, changes: Attributes, renamed: Attributes)
    requires Idempotent(keys) && Renames(keys, changes, renamed) && Renames(keys, was, was') && NoAliasLeft(keys, was, renamed)
    ensures was' + renamed == was + renamed
  {
    forall t | t in was && t !in renamed ensures t in was' && was'[t] == was[t] {
      assert Carried(keys, was, was', t);
    }
    forall t | t in was' && t !in renamed ensures t in was {
      var k :| k in was.Keys && Target(keys, k) == t;
      if k in renamed { RenamedFixed(keys, changes, renamed, k); }
    }
  }

  lemma NamesKept(keys: map<string, string>, was: Attributes, was': Attributes, renamed: Attributes)
    requires Idempotent(keys) && Renames(keys, was, was') && was' + renamed == was + renamed
    ensures NoAliasLeft(keys, was, renamed)
  {
    forall k | k in was && k !in renamed ensures Fixed(keys, k) {
      assert k in was + renamed;
      HitIsFixed(keys, was.Keys, k);
    }
  }

  lemma SameMapAgreement(keys: map<string, string>, was: Attributes, changes: Attributes, renamed: Attributes, stored: Attributes)
    requires Idempotent(keys) && Renames(keys, changes, renamed) && Overlaid(keys, was, changes, stored)
    ensures stored == was + renamed <==> NoAliasLeft(keys, was, renamed)
  {
    var was', new_ :| Renames(keys, was, was') && Renames(keys, changes, new_) && stored == was' + new_;
    RenamesOnce(keys, changes, renamed, new_);
    if NoAliasLeft(keys, was, renamed) { KeptNames(keys, was, was', changes, renamed); }
    if stored == was + renamed { NamesKept(keys, was, was', renamed); }
  }

  /** A changed name that is a new alias is validated under that name and not stored under it. */
  lemma NewAliasDiffers(r: Resolved, was: Attributes, changes: Attributes, validated: Attributes, stored: Attributes, c: string)
    requires Valid(r) && Renames(Reused(r), changes, validated) && Overlaid(r.keys, was, changes, stored)
    requires c in changes && NewAlias(r, c)
    ensures c in was + validated && c !in stored
  {
    AliasFacts(r, c);
    assert Carried(Reused(r), changes, validated, c);
    var was', new_ :| Renames(r.keys, was, was') && Renames(r.keys, changes, new_) && stored == was' + new_;
    if c in new_ { HitIsFixed(r.keys, changes.Keys, c); }
    if c in was' { HitIsFixed(r.keys, was.Keys, c); }
  }

  /** What approval stores is what the preflight validated exactly when no changed name is a
      new alias and no alias is left among the old names. */
  lemma UpdateAgreement(r: Resolved, was: Attributes, changes: Attributes, validated: Attributes, stored: Attributes)
    requires Valid(r) && Renames(Reused(r), changes, validated) && Overlaid(r.keys, was, changes, stored)
    ensures stored == was + validated <==> (forall c :: c in changes ==> !NewAlias(r, c)) && NoAliasLeft(r.keys, was, validated)
  {
    AliasFacts(r, "");
    if forall c :: c in changes ==> !NewAlias(r, c) {
      SameRenaming(r, changes, validated);
      SameMapAgreement(r.keys, was, changes, validated, stored);
    } else {
      var c :| c in changes && NewAlias(r, c);
      NewAliasDiffers(r, was, changes, validated, stored, c);
    }
  }

  /** With reused definitions only, what is left to check is the old names. */
  lemma ReusedUpdate(r: Resolved, was: Attributes, changes: Attributes, validated: Attributes, stored: Attributes)
    requires Valid(r) && !HasNew(r.ds, r.specs)
    requires Renames(Reused(r), changes, validated) && Overlaid(r.keys, was, changes, stored)
    ensures stored == was + validated <==> NoAliasLeft(r.keys, was, validated)
  {
    ReuseAgreement(r.lib, r.ds, r.specs, r.keys, r.minted);
    UpdateAgreement(r, was, changes, validated, stored);
  }

  // ---------------------------------------------------------------- what the validation in apply accepts

  /** The parts of an update that approval stores. */
  ghost predicate Stores(keys: map<string, string>, was: Attributes, changes: Attributes, was': Attributes, new_: Attributes) {
    Renames(keys, was, was') && Renames(keys, changes, new_)
  }

  /** Both renamings bring the same changes to a stored key, or neither does. */
  lemma ChangeOfStored(r: Resolved, changes: Attributes, validated: Attributes, new_: Attributes, t: string)
    requires Valid(r) && Renames(Reused(r), changes, validated) && Renames(r.keys, changes, new_) && Find(r.ds, t).Some?
    ensures t in validated <==> t in new_
    ensures t in validated ==> validated[t] == new_[t]
  {
    if t in validated {
      assert Hit(Reused(r), changes.Keys, t);
      var c :| c in changes.Keys && Target(Reused(r), c) == t;
      AliasFacts(r, c);
      if NewAlias(r, c) { StoredIsReused(r, c); }
      assert Carried(Reused(r), changes, validated, c) && Carried(r.keys, changes, new_, c);
    }
    if t in new_ {
      assert Hit(r.keys, changes.Keys, t);
      var c :| c in changes.Keys && Target(r.keys, c) == t;
      AliasFacts(r, c);
      assert Carried(Reused(r), changes, validated, c);
    }
  }

  /** An alias that is itself a stored key reuses it. */
  lemma StoredIsReused(r: Resolved, key: string)
    requires Valid(r) && key in r.keys && Find(r.ds, key).Some?
    ensures !NewAlias(r, key) && Target(r.keys, key) == key
  {
    BindingsAgree(r.lib, r.ds, r.specs, r.keys, r.minted);
    StoredAliasFixed(r.ds, r.specs, key);
  }

  /** Under a stored key, approval stores the value that was validated. */
  lemma StoredValue(r: Resolved, was: Attributes, changes: Attributes, validated: Attributes, was': Attributes, new_: Attributes, t: string)
    requires Valid(r) && Renames(Reused(r), changes, validated) && Stores(r.keys, was, changes, was', new_)
    requires Find(r.ds, t).Some? && t in was + validated
    ensures t in was' + new_ && (was' + new_)[t] == (was + validated)[t]
  {
    ChangeOfStored(r, changes, validated, new_, t);
    if t !in validated {
      if t in r.keys { StoredIsReused(r, t); }
      assert Carried(r.keys, was, was', t);
    }
  }

  lemma RequiredKept(r: Resolved, was: Attributes, changes: Attributes, validated: Attributes, was': Attributes, new_: Attributes)
    requires Valid(r) && Renames(Reused(r), changes, validated) && Stores(r.keys, was, changes, was', new_)
    requires RequiredOk(r.ds, was + validated)
    ensures RequiredOk(r.ds, was' + new_)
  {
    forall i | 0 <= i < |r.ds| ensures Supplied(r.ds[i], was' + new_) {
      assert Supplied(r.ds[i], was + validated);
      FindIn(r.ds, r.ds[i].key);
      if r.ds[i].required { StoredValue(r, was, changes, validated, was', new_, r.ds[i].key); }
    }
  }

  // ---------------------------------------------------------------- values under a new alias

  /** With every label proposed once, a new alias gets the definition proposed for it. */
  lemma {:induction false} MintedFor(lib: Library, ds: seq<Definition>, specs: seq<Spec>, keys: map<string, string>, minted: seq<Definition>, c: string)
    returns (i: nat)
    requires Resolution(lib, ds, specs, keys, minted) && SpecsPreflight(lib, ds, specs)
    requires c in keys && c in AliasSet(specs) && c !in AliasMap(ds, specs)
    ensures i < |specs| && specs[i].key == c && Find(ds + minted, keys[c]) == Some(NewDefinition(lib, specs[i], keys[c]))
  {
    var s, before := Last(specs), Init(specs);
    LabelOfNew(ds, before, Trim(s.label_));
    if s.key == c {
      i := |specs| - 1;
      FindLast(ds, minted, keys[c]);
    } else if Existing(ds, s).Some? {
      i := MintedFor(lib, ds, before, keys - {s.key}, minted, c);
    } else {
      i := MintedFor(lib, ds, before, keys - {s.key}, minted[..|minted| - 1], c);
      FindLast(ds, minted, keys[c]);
    }
  }

  lemma FindLast(ds: seq<Definition>, minted: seq<Definition>, key: string)
    requires minted != []
    ensures var rest, last := minted[..|minted| - 1], minted[|minted| - 1];
      Find(ds + minted, key) == if last.key == key then Some(last) else Find(ds + rest, key)
  {
    var rest, last := minted[..|minted| - 1], minted[|minted| - 1];
    FindAppended(ds + rest, last, key);
    assert ds + minted == (ds + rest) + [last];
  }

  /** The value of a new alias, validated with the proposal, fits the definition minted for it. */
  lemma NewAliasFits(r: Resolved, changes: Attributes, c: string)
    requires Valid(r) && SpecsPreflight(r.lib, r.ds, r.specs) && ValuesFit(r.lib, r.specs, changes)
    requires c in changes && NewAlias(r, c)
    ensures EntryOk(r.lib, r.ds + r.minted, Target(r.keys, c), changes[c])
  {
    BindingsAgree(r.lib, r.ds, r.specs, r.keys, r.minted);
    var i := MintedFor(r.lib, r.ds, r.specs, r.keys, r.minted, c);
    assert SpecAccepts(r.lib, r.specs[i], changes[c]);
  }

  // ---------------------------------------------------------------- old attributes

  /** Every old attribute that bears an alias fits the definition approval moves it to. */
  ghost predicate OldFit(r: Resolved, was: Attributes) {
    forall k :: k in was && !Fixed(r.keys, k) ==> EntryOk(r.lib, r.ds + r.minted, Target(r.keys, k), was[k])
  }

  /** A value stored under the key it was validated under is accepted again. */
  lemma Unmoved(r: Resolved, attrs: Attributes, t: string)
    requires Sound(r.lib) && Valid(r) && EntriesOk(r.lib, r.ds, attrs) && t in attrs
    ensures EntryOk(r.lib, r.ds + r.minted, t, attrs[t])
  {
    ResolutionExtends(r.lib, r.ds, r.specs, r.keys, r.minted);
    Extended(r.lib, r.ds, r.minted, attrs);
  }

  /** What validation and preflight established about an update of an item's attributes. */
  ghost predicate Passed(r: Resolved, was: Attributes, changes: Attributes, validated: Attributes) {
    && SpecsPreflight(r.lib, r.ds, r.specs) && ValuesFit(r.lib, r.specs, changes)
    && Renames(Reused(r), changes, validated) && EntriesOk(r.lib, r.ds, was + validated)
  }

  lemma ChangeAccepted(r: Resolved, was: Attributes, changes: Attributes, validated: Attributes, new_: Attributes, t: string)
    requires Sound(r.lib) && Valid(r) && Passed(r, was, changes, validated) && Renames(r.keys, changes, new_) && t in new_
    ensures EntryOk(r.lib, r.ds + r.minted, t, new_[t])
  {
    assert Hit(r.keys, changes.Keys, t);
    var c :| c in changes.Keys && Target(r.keys, c) == t;
    assert Carried(r.keys, changes, new_, c);
    if NewAlias(r, c) {
      NewAliasFits(r, changes, c);
    } else {
      AliasFacts(r, c);
      assert Carried(Reused(r), changes, validated, c);
      Unmoved(r, was + validated, t);
    }
  }

  /** A name that approval keeps, and that the preflight saw changed, is changed. */
  lemma ChangedIfValidated(r: Resolved, changes: Attributes, validated: Attributes, new_: Attributes, t: string)
    requires Valid(r) && Renames(Reused(r), changes, validated) && Renames(r.keys, changes, new_)
    requires Fixed(r.keys, t) && t in validated
    ensures t in new_
  {
    assert Hit(Reused(r), changes.Keys, t);
    var c :| c in changes.Keys && Target(Reused(r), c) == t;
    AliasFacts(r, c);
    assert Carried(r.keys, changes, new_, c);
  }

  lemma OldAccepted(r: Resolved, was: Attributes, changes: Attributes, validated: Attributes, was': Attributes, new_: Attributes, t: string)
    requires Sound(r.lib) && Valid(r) && Passed(r, was, changes, validated) && Stores(r.keys, was, changes, was', new_)
    requires OldFit(r, was) && t in was' && t !in new_
    ensures EntryOk(r.lib, r.ds + r.minted, t, was'[t])
  {
    assert Hit(r.keys, was.Keys, t);
    var k :| k in was.Keys && Target(r.keys, k) == t;
    assert Carried(r.keys, was, was', k);
    if Fixed(r.keys, k) {
      if t in validated { ChangedIfValidated(r, changes, validated, new_, t); }
      Unmoved(r, was + validated, t);
    }
  }

  /** Entries stored at approval that were not overwritten name their old attribute. */
  lemma OldMustFit(r: Resolved, was: Attributes, changes: Attributes, was': Attributes, new_: Attributes, k: string)
    requires Stores(r.keys, was, changes, was', new_) && Compatible(r.keys, was.Keys, changes.Keys)
    requires EntriesOk(r.lib, r.ds + r.minted, was' + new_) && k in was && !Fixed(r.keys, k)
    ensures EntryOk(r.lib, r.ds + r.minted, Target(r.keys, k), was[k])
  {
    assert Carried(r.keys, was, was', k);
    HitIff(r.keys, changes, new_, Target(r.keys, k));
    assert Target(r.keys, k) in was' + new_ && (was' + new_)[Target(r.keys, k)] == was[k];
  }

  /** The entries of what is stored are accepted exactly when the old attributes fit. */
  lemma EntriesIffFit(r: Resolved, was: Attributes, changes: Attributes, validated: Attributes, was': Attributes, new_: Attributes)
    requires Sound(r.lib) && Valid(r) && Passed(r, was, changes, validated) && Stores(r.keys, was, changes, was', new_)
    requires Compatible(r.keys, was.Keys, changes.Keys)
    ensures EntriesOk(r.lib, r.ds + r.minted, was' + new_) <==> OldFit(r, was)
  {
    var stored := was' + new_;
    if OldFit(r, was) {
      forall t | t in stored ensures EntryOk(r.lib, r.ds + r.minted, t, stored[t]) {
        if t in new_ {
          ChangeAccepted(r, was, changes, validated, new_, t);
        } else {
          OldAccepted(r, was, changes, validated, was', new_, t);
        }
      }
    }
    if EntriesOk(r.lib, r.ds + r.minted, stored) {
      forall k | k in was && !Fixed(r.keys, k) ensures EntryOk(r.lib, r.ds + r.minted, Target(r.keys, k), was[k]) {
        OldMustFit(r, was, changes, was', new_, k);
      }
    }
  }

  /** Under a template: what is stored is accepted exactly when the old attributes fit. */
  lemma AcceptedUnderTemplate(r: Resolved, was: Attributes, changes: Attributes, validated: Attributes, was': Attributes, new_: Attributes)
    requires Sound(r.lib) && Valid(r) && Passed(r, was, changes, validated) && Stores(r.keys, was, changes, was', new_)
    requires SchemaOk(r.lib, r.ds) && RequiredOk(r.ds, was + validated) && Compatible(r.keys, was.Keys, changes.Keys)
    ensures SchemaOk(r.lib, r.ds + r.minted) && RequiredOk(r.ds + r.minted, was' + new_)
    ensures EntriesOk(r.lib, r.ds + r.minted, was' + new_) <==> OldFit(r, was)
  {
    EntriesIffFit(r, was, changes, validated, was', new_);
    RequiredKept(r, was, changes, validated, was', new_);
    ResolutionExtends(r.lib, r.ds, r.specs, r.keys, r.minted);
    Extended(r.lib, r.ds, r.minted, was' + new_);
  }

  // ---------------------------------------------------------------- without a template

  lemma {:induction false} NothingReused(specs: seq<Spec>)
    ensures AliasMap([], specs) == map[]
  {
    if specs != [] { NothingReused(Init(specs)); }
  }

  /** The names that keep their place are admissible: free-form ones, since no template is
      there to define them. The preflight does not look at them. */
  ghost predicate KeptFit(r: Resolved, was: Attributes, changes: Attributes) {
    && (forall c :: c in changes && Fixed(r.keys, c) ==> EntryOk(r.lib, r.minted, c, changes[c]))
    && (forall k :: k in was && Fixed(r.keys, k) && !Hit(r.keys, changes.Keys, k) ==> EntryOk(r.lib, r.minted, k, was[k]))
  }

  lemma KeptAccepted(r: Resolved, was: Attributes, changes: Attributes, was': Attributes, new_: Attributes, t: string)
    requires Valid(r) && r.ds == [] && SpecsPreflight(r.lib, [], r.specs) && ValuesFit(r.lib, r.specs, changes)
    requires Stores(r.keys, was, changes, was', new_) && OldFit(r, was) && KeptFit(r, was, changes) && t in was' + new_
    ensures EntryOk(r.lib, r.minted, t, (was' + new_)[t])
  {
    assert r.ds + r.minted == r.minted;
    HitIff(r.keys, changes, new_, t);
    if t in new_ {
      var c :| c in changes.Keys && Target(r.keys, c) == t;
      assert Carried(r.keys, changes, new_, c);
      NothingReused(r.specs);
      if NewAlias(r, c) { NewAliasFits(r, changes, c); }
    } else {
      assert Hit(r.keys, was.Keys, t);
      var k :| k in was.Keys && Target(r.keys, k) == t;
      assert Carried(r.keys, was, was', k);
    }
  }

  lemma KeptMustFit(r: Resolved, was: Attributes, changes: Attributes, was': Attributes, new_: Attributes)
    requires r.ds == [] && Stores(r.keys, was, changes, was', new_) && EntriesOk(r.lib, r.minted, was' + new_)
    ensures KeptFit(r, was, changes)
  {
    forall c | c in changes && Fixed(r.keys, c) ensures EntryOk(r.lib, r.minted, c, changes[c]) {
      assert Carried(r.keys, changes, new_, c);
      assert c in was' + new_;
    }
    forall k | k in was && Fixed(r.keys, k) && !Hit(r.keys, changes.Keys, k) ensures EntryOk(r.lib, r.minted, k, was[k]) {
      assert Carried(r.keys, was, was', k);
      HitIff(r.keys, changes, new_, k);
      assert k in was' + new_;
    }
  }

  /** Without a template: what is stored is accepted exactly when the old attributes fit and the
      names that keep their place are admissible. */
  lemma AcceptedWithoutTemplate(r: Resolved, was: Attributes, changes: Attributes, was': Attributes, new_: Attributes)
    requires Sound(r.lib) && Valid(r) && r.ds == [] && SpecsPreflight(r.lib, [], r.specs) && ValuesFit(r.lib, r.specs, changes)
    requires Stores(r.keys, was, changes, was', new_) && Compatible(r.keys, was.Keys, changes.Keys)
    ensures SchemaOk(r.lib, r.minted) && RequiredOk(r.minted, was' + new_)
    ensures EntriesOk(r.lib, r.minted, was' + new_) <==> OldFit(r, was) && KeptFit(r, was, changes)
  {
    assert r.ds + r.minted == r.minted;
    var stored := was' + new_;
    ResolutionExtends(r.lib, r.ds, r.specs, r.keys, r.minted);
    Extended(r.lib, [], r.minted, stored);
    if OldFit(r, was) && KeptFit(r, was, changes) {
      forall t | t in stored ensures EntryOk(r.lib, r.minted, t, stored[t]) {
        KeptAccepted(r, was, changes, was', new_, t);
      }
    }
    if EntriesOk(r.lib, r.minted, stored) {
      KeptMustFit(r, was, changes, was', new_);
      forall k | k in was && !Fixed(r.keys, k) ensures EntryOk(r.lib, r.ds + r.minted, Target(r.keys, k), was[k]) {
        OldMustFit(r, was, changes, was', new_, k);
      }
    }
  }
}
