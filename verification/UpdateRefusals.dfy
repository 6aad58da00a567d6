/** Updates that pass validation and preflight and that apply refuses, one for each part of the
    condition in `UpdateDecision`. */
module UpdateRefusals {
  import opened Text
  import opened CatalogAttributes
  import opened AttributeDefinitions
  import opened KeyRenaming
  import opened Approval
  import opened UpdateApproval
  import opened UpdateDecision

  // ---------------------------------------------------------------- the setting

  /** A library under which a number is a number. */
  ghost predicate Usual(lib: Library) {
    && Sound(lib) && lib.isArabic('م') && lib.aiRulesOk("number", map[]) && lib.aiRulesOk("text", map[])
    && lib.valueOk("number", map[], Number("1")) && lib.valueOk("text", map[], Str("x")) && !lib.valueOk("number", map[], Str("x"))
  }

  /** Such a library exists; the assumption on encoding does not depend on the check of values. */
  lemma UsualLibraryExists() returns (lib: Library)
    ensures Usual(lib)
  {
    var sound := SoundLibraryExists();
    lib := sound.(valueOk := (t: string, r: Rules, v: Value) => t != "number" || v.Number?);
  }

  function WeightSpec(): Spec { Spec("weight", "م", "number", None) }
  function Sku(lib: Library): Definition { Definition("sku", "s", "text", true, lib.encodeRules(map[])) }

  function Template(ds: seq<Definition>): Option<Schema> { Some(Schema("s", "t", 1, ds)) }
  function Repo(): Repository { Repository(_ => Some(false), _ => Some(2), Some("n")) }

  /** A proposal that defines the number "weight", resolved under a template. */
  function WeightCase(lib: Library, ds: seq<Definition>): Resolved {
    Resolved.Resolved(lib, ds, [WeightSpec()], map["weight" := "attr_1"], [NewDefinition(lib, WeightSpec(), "attr_1")])
  }

  function PlainCase(lib: Library, ds: seq<Definition>): Resolved { Resolved.Resolved(lib, ds, [], map[], []) }

  function Minted(lib: Library, ds: seq<Definition>): Option<Schema> {
    Some(Schema("n", "t", 2, ds + [NewDefinition(lib, WeightSpec(), "attr_1")]))
  }

  function One(key: string, v: Value): Attributes { map[key := v] }

  /** The update was reviewed and its new variants passed the preflight too; the definitions
      are resolved; apply refuses. */
  ghost predicate Refused(r: Resolved, u: ItemUpdate, variants: seq<Attributes>, after: Option<Schema>) {
    && Valid(r) && Reviewed(r, u, "", variants) && SchemaAfter(u.current, "", Repo(), r.minted, after)
    && (forall j :: 0 <= j < |variants| ==> u.current.None? || AttributesOk(r.lib, u.current, variants[j], false))
    && !ApplyAccepts(r.lib, r.keys, after, u)
  }

  lemma PlainKeys()
    ensures AliasOk("weight") && KeyPattern("color") && KeyPattern("attr_x")
    ensures CustomKeyOk("weight") && CustomKeyOk("color")
  {
    PlainTrims();
  }

  lemma PlainTrims()
    ensures Trim("weight") == "weight" && Trim("color") == "color" && Trim("sku") == "sku" && Trim("s") == "s" && Trim("م") == "م"
  {
  }

  lemma SkuTemplate(lib: Library)
    requires Usual(lib)
    ensures SchemaOk(lib, [Sku(lib)]) && Find([Sku(lib)], "sku") == Some(Sku(lib))
    ensures Find([Sku(lib)], "weight").None? && Find([Sku(lib)], "attr_1").None? && FindLabel([Sku(lib)], "م").None?
  {
    PlainTrims();
    assert [Sku(lib)][..0] == [];
    assert SchemaOk(lib, []) && Find([], "sku").None? && FindLabel([], "م").None?;
    assert Find([], "weight").None? && Find([], "attr_1").None?;
  }

  lemma WeightSpecValid(lib: Library)
    requires Usual(lib)
    ensures SpecValid(lib, WeightSpec()) && ArabicText(lib, "م") && Trim(WeightSpec().label_) == "م"
  {
    PlainKeys();
    PlainTrims();
    assert "م"[0] == 'م';
  }

  lemma WeightIsNew(lib: Library, ds: seq<Definition>)
    requires Usual(lib) && (ds == [] || ds == [Sku(lib)])
    ensures Find(ds, "weight").None? && FindLabel(ds, "م").None? && Find(ds, "attr_1").None?
    ensures Existing(ds, WeightSpec()).None? && NewWithLabel(ds, [], "م").None?
  {
    SkuTemplate(lib);
    WeightSpecValid(lib);
  }

  lemma WeightResolution(lib: Library, ds: seq<Definition>)
    requires Usual(lib) && (ds == [] || ds == [Sku(lib)])
    ensures Resolution(lib, ds, [WeightSpec()], map["weight" := "attr_1"], [NewDefinition(lib, WeightSpec(), "attr_1")])
  {
    WeightIsNew(lib, ds);
    WeightSpecValid(lib);
    var r := WeightCase(lib, ds);
    assert Init(r.specs) == [] && Last(r.specs) == WeightSpec();
    assert r.keys - {"weight"} == map[] && r.minted[..0] == [] && ds + r.minted[..0] == ds;
    assert Resolution(lib, ds, [], map[], []);
  }

  lemma WeightPreflight(lib: Library, ds: seq<Definition>)
    requires Usual(lib) && (ds == [] || ds == [Sku(lib)])
    ensures SpecsApproved(lib, ds, [WeightSpec()]) && SpecsPreflight(lib, ds, [WeightSpec()]) && AliasMap(ds, [WeightSpec()]) == map[]
    ensures Validated(lib, [WeightSpec()])
  {
    WeightIsNew(lib, ds);
    WeightSpecValid(lib);
    var s, specs := WeightSpec(), [WeightSpec()];
    assert Init(specs) == [] && Last(specs) == s;
    assert SpecApproved(lib, ds, [], s) && Objection(lib, ds, {}, {}, s).None?;
    assert SpecsApproved(lib, ds, []) && SpecsPreflight(lib, ds, []) && SpecsValid(lib, []);
  }

  lemma WeightResolved(lib: Library, ds: seq<Definition>)
    requires Usual(lib) && (ds == [] || ds == [Sku(lib)])
    ensures Validated(lib, [WeightSpec()]) && Valid(WeightCase(lib, ds)) && PreflightOk(lib, Template(ds), "", [WeightSpec()])
    ensures Reused(WeightCase(lib, ds)) == map[] && SchemaAfter(Template(ds), "", Repo(), WeightCase(lib, ds).minted, Minted(lib, ds))
  {
    WeightResolution(lib, ds);
    WeightPreflight(lib, ds);
  }

  /** The number itself, in the item or in a variant, is valid. */
  lemma WeightFits(lib: Library)
    requires Usual(lib)
    ensures MapOk(lib, [WeightSpec()], One("weight", Number("1"))) && MapOk(lib, [WeightSpec()], One("color", Str("x")))
  {
    PlainKeys();
    assert SpecAccepts(lib, WeightSpec(), Number("1"));
  }

  /** A proposal that uses the definition in its only or its last attribute map. */
  lemma WeightValid(lib: Library, maps: seq<Attributes>)
    requires Usual(lib) && Validated(lib, [WeightSpec()]) && 1 <= |maps| <= 2
    requires maps[|maps| - 1] == One("weight", Number("1")) && (|maps| == 2 ==> maps[0] == One("color", Str("x")))
    ensures ProposalValid(lib, [WeightSpec()], maps)
  {
    WeightFits(lib);
    assert "weight" in maps[|maps| - 1] && UsedIn("weight", maps);
  }

  // ---------------------------------------------------------------- the refusals

  /** No template: the preflight looks at nothing, apply refuses a reserved name. */
  lemma ReservedNameRefused(lib: Library) returns (u: ItemUpdate)
    requires Usual(lib)
    ensures u == ItemUpdate(None, false, map[], Some(One("attr_x", Str("x")))) && Refused(PlainCase(lib, []), u, [], None)
  {
    var r := PlainCase(lib, []);
    var changes := One("attr_x", Str("x"));
    u := ItemUpdate(None, false, map[], Some(changes));
    PlainKeys();
    assert [changes] + [] == [changes];
    assert Reviewed(r, u, "", []);
    assert !CustomKeyOk("attr_x") by { TrimKeepsPrefix("attr_", "attr_x"); }
    assert "attr_x" in changes && Fixed(r.keys, "attr_x") && !EntryOk(lib, r.minted, "attr_x", changes["attr_x"]);
    ApplyAcceptsIff(r, u, "", [], Repo(), None);
  }

  /** No item attributes, and a definition that only a variant uses: the item is moved to the
      minted version, and apply checks the required keys on an empty map. */
  lemma RequiredKeyRefused(lib: Library) returns (u: ItemUpdate)
    requires Usual(lib)
    ensures u == ItemUpdate(Template([Sku(lib)]), false, One("sku", Str("x")), None)
    ensures Refused(WeightCase(lib, [Sku(lib)]), u, [One("weight", Number("1"))], Minted(lib, [Sku(lib)]))
  {
    var ds := [Sku(lib)];
    var r, v := WeightCase(lib, ds), One("weight", Number("1"));
    u := ItemUpdate(Template(ds), false, One("sku", Str("x")), None);
    PlainKeys();
    SkuTemplate(lib);
    WeightResolved(lib, ds);
    assert [] + [v] == [v];
    WeightValid(lib, [v]);
    assert EntryOk(lib, ds, "weight", Number("1"));
    assert AttributesOk(lib, u.current, v, false);
    assert ds[0].required && !NoRequired(ds);
    ApplyAcceptsIff(r, u, "", [v], Repo(), Minted(lib, ds));
  }

  /** No item attributes, and a first template attached: the preflight validates the item's own
      attributes, apply an empty map. */
  lemma FirstTemplateRefused(lib: Library) returns (u: ItemUpdate)
    requires Usual(lib)
    ensures u == ItemUpdate(Template([Sku(lib)]), true, One("sku", Str("x")), None)
    ensures Refused(PlainCase(lib, [Sku(lib)]), u, [], Template([Sku(lib)]))
  {
    var ds := [Sku(lib)];
    var r, was := PlainCase(lib, ds), One("sku", Str("x"));
    u := ItemUpdate(Template(ds), true, was, None);
    PlainKeys();
    SkuTemplate(lib);
    assert was["sku"] == Str("x") && !EmptyRequired(Str("x")) by { assert Trim("x") == "x"; }
    assert ValueAccepted(lib, Sku(lib), Str("x"));
    assert AttributesOk(lib, u.current, was, true);
    assert ds[0].required && !NoRequired(ds);
    ApplyAcceptsIff(r, u, "", [], Repo(), Template(ds));
  }

  /** A new alias among the old names and among the changes: renaming collides. */
  lemma NewAliasCollides(lib: Library) returns (u: ItemUpdate)
    requires Usual(lib)
    ensures u == ItemUpdate(Template([]), false, One("weight", Str("x")), Some(One("weight", Number("1"))))
    ensures Refused(WeightCase(lib, []), u, [], Minted(lib, []))
  {
    var r, was, changes := WeightCase(lib, []), One("weight", Str("x")), One("weight", Number("1"));
    u := ItemUpdate(Template([]), false, was, Some(changes));
    PlainKeys();
    WeightResolved(lib, []);
    assert [changes] + [] == [changes];
    WeightValid(lib, [changes]);
    Untouched(changes);
    assert was + changes == changes && EntryOk(lib, [], "weight", Number("1"));
    assert AttributesOk(lib, u.current, was + changes, true);
    assert "weight" in changes.Keys && Hit(r.keys, changes.Keys, "attr_1");
    assert "weight" in was.Keys && !Fixed(r.keys, "weight") && Target(r.keys, "weight") == "attr_1";
    assert !Compatible(r.keys, was.Keys, changes.Keys);
    ApplyAcceptsIff(r, u, "", [], Repo(), Minted(lib, []));
  }

  /** A new variant carries the number, the item an old text of that name: nothing collides, and
      the text does not fit the number it becomes. */
  lemma OldAliasRefused(lib: Library) returns (u: ItemUpdate)
    requires Usual(lib)
    ensures u == ItemUpdate(Template([]), false, One("weight", Str("x")), Some(One("color", Str("x"))))
    ensures Refused(WeightCase(lib, []), u, [One("weight", Number("1"))], Minted(lib, []))
    ensures Mergeable(WeightCase(lib, []).keys, u.was, u.changes.value)
  {
    var v := One("weight", Number("1"));
    u := ItemUpdate(Template([]), false, One("weight", Str("x")), Some(One("color", Str("x"))));
    WeightResolved(lib, []);
    OldAliasReviewed(lib, u, v);
    WeightMergeable(lib, u.was, u.changes.value);
    WeightMisfit(lib, u.was);
    ApplyAcceptsIff(WeightCase(lib, []), u, "", [v], Repo(), Minted(lib, []));
  }

  lemma OldAliasReviewed(lib: Library, u: ItemUpdate, v: Attributes)
    requires Usual(lib) && v == One("weight", Number("1"))
    requires u == ItemUpdate(Template([]), false, One("weight", Str("x")), Some(One("color", Str("x"))))
    ensures Reviewed(WeightCase(lib, []), u, "", [v]) && AttributesOk(lib, u.current, v, false)
  {
    WeightResolved(lib, []);
    assert [u.changes.value] + [v] == [u.changes.value, v];
    WeightValid(lib, [u.changes.value, v]);
    PlainAccepted(lib, u.was, u.changes.value);
    FreeNames(lib, v);
  }

  lemma PlainAccepted(lib: Library, was: Attributes, changes: Attributes)
    requires was == One("weight", Str("x")) && changes == One("color", Str("x"))
    ensures PreflightAccepts(lib, map[], ItemUpdate(Template([]), false, was, Some(changes)))
  {
    Untouched(changes);
    FreeNames(lib, was + changes);
  }

  /** The names used here are admissible under an empty template. */
  lemma FreeNames(lib: Library, attrs: Attributes)
    requires forall k :: k in attrs ==> k == "weight" || k == "color"
    ensures AttributesOk(lib, Template([]), attrs, true) && AttributesOk(lib, Template([]), attrs, false)
  {
    PlainKeys();
  }

  lemma WeightMisfit(lib: Library, was: Attributes)
    requires Usual(lib) && was == One("weight", Str("x"))
    ensures !OldFit(WeightCase(lib, []), was)
  {
    var r := WeightCase(lib, []);
    assert r.ds + r.minted == r.minted && Find(r.minted, "attr_1") == Some(r.minted[0]);
    assert "weight" in was && !Fixed(r.keys, "weight") && !EntryOk(lib, r.ds + r.minted, "attr_1", was["weight"]);
  }

  lemma WeightMergeable(lib: Library, was: Attributes, changes: Attributes)
    requires was == One("weight", Str("x")) && changes == One("color", Str("x"))
    ensures Mergeable(WeightCase(lib, []).keys, was, changes)
  {
    var keys := WeightCase(lib, []).keys;
    assert Target(keys, "weight") == "attr_1" && Target(keys, "color") == "color";
    assert Alone(keys, was.Keys, "weight") && Alone(keys, changes.Keys, "color");
    assert !Hit(keys, changes.Keys, "attr_1");
  }
}
