/** Attribute definitions an AI proposal brings along: their validation, the read-only
    preflight, and the resolution at approval that may mint a new schema version. */
module AttributeDefinitions {
  import opened Text
  import opened CatalogAttributes

  /** A proposed definition; `rules` is None when the model supplied none. */
  datatype Spec = Spec(key: string, label_: string, dataType: string, rules: Option<Rules>)

  function RulesOf(s: Spec): Rules { if s.rules.Some? then s.rules.value else map[] }

  /** ^[a-z][a-z0-9]*(?:_[a-z0-9]+)*$ */
  predicate KeyPattern(s: string) {
    && s != "" && 'a' <= s[0] <= 'z' && s[|s| - 1] != '_'
    && (forall i :: 0 <= i < |s| ==> 'a' <= s[i] <= 'z' || '0' <= s[i] <= '9' || s[i] == '_')
    && (forall i :: 0 <= i < |s| - 1 && s[i] == '_' ==> s[i + 1] != '_')
  }

  predicate AliasOk(key: string) { KeyPattern(key) && !Reserved(key) }

  predicate HasArabic(lib: Library, s: string) { exists i :: 0 <= i < |s| && lib.isArabic(s[i]) }

  /** The form a display label or template name must have. */
  predicate ArabicText(lib: Library, s: string) {
    |s| <= 120 && HasArabic(lib, s) && !HasControl(s)
  }

  // ---------------------------------------------------------------- lists of specs

  function Init(specs: seq<Spec>): seq<Spec>
    requires specs != []
  {
    specs[..|specs| - 1]
  }

  function Last(specs: seq<Spec>): Spec
    requires specs != []
  {
    specs[|specs| - 1]
  }

  function AliasSet(specs: seq<Spec>): set<string> {
    if specs == [] then {} else AliasSet(Init(specs)) + {Last(specs).key}
  }

  function LabelSet(specs: seq<Spec>): set<string> {
    if specs == [] then {} else LabelSet(Init(specs)) + {Trim(Last(specs).label_)}
  }

  lemma {:induction false} InSets(specs: seq<Spec>, i: nat)
    requires i < |specs|
    ensures specs[i].key in AliasSet(specs) && Trim(specs[i].label_) in LabelSet(specs)
  {
    if i < |specs| - 1 { InSets(Init(specs), i); }
  }

  // ---------------------------------------------------------------- Proposal.ValidateAttributeDefinitions

  predicate SpecValid(lib: Library, s: Spec) {
    && AliasOk(s.key) && Trim(s.label_) != "" && ArabicText(lib, s.label_) && lib.aiRulesOk(s.dataType, RulesOf(s))
  }

  /** Every spec is valid and no alias occurs twice. */
  predicate SpecsValid(lib: Library, specs: seq<Spec>) {
    specs == [] || (SpecsValid(lib, Init(specs)) && SpecValid(lib, Last(specs)) && Last(specs).key !in AliasSet(Init(specs)))
  }

  predicate Validated(lib: Library, specs: seq<Spec>) { |specs| <= 100 && SpecsValid(lib, specs) }

  lemma {:induction false} ValidPrefix(lib: Library, specs: seq<Spec>, n: nat)
    requires SpecsValid(lib, specs) && n <= |specs|
    ensures SpecsValid(lib, specs[..n])
  {
    if n < |specs| {
      ValidPrefix(lib, Init(specs), n);
      assert Init(specs)[..n] == specs[..n];
    } else {
      assert specs[..n] == specs;
    }
  }

  /** The definitions part of the proposal's own validation. */
  method ValidateDefinitions(lib: Library, specs: seq<Spec>) returns (ok: bool)
    ensures ok <==> Validated(lib, specs)
  {
    if |specs| > 100 { return false; }
    var seen: set<string> := {};
    for i := 0 to |specs|
      invariant seen == AliasSet(specs[..i]) && SpecsValid(lib, specs[..i])
    {
      assert Init(specs[..i + 1]) == specs[..i] && Last(specs[..i + 1]) == specs[i];
      if !SpecValid(lib, specs[i]) || specs[i].key in seen {
        if SpecsValid(lib, specs) { ValidPrefix(lib, specs, i + 1); }
        return false;
      }
      seen := seen + {specs[i].key};
    }
    assert specs[..|specs|] == specs;
    return true;
  }

  /** The values given under a proposed alias fit the proposed definition. */
  predicate SpecAccepts(lib: Library, s: Spec, v: Value) {
    v.Null? || (DefinitionOk(lib, NewDefinition(lib, s, s.key)) && ValueAccepted(lib, NewDefinition(lib, s, s.key), v))
  }

  ghost predicate ValuesFit(lib: Library, specs: seq<Spec>, attrs: Attributes) {
    forall i :: 0 <= i < |specs| && specs[i].key in attrs ==> SpecAccepts(lib, specs[i], attrs[specs[i].key])
  }

  /** A one-definition schema accepts the value exactly when the spec does. */
  lemma OneDefinition(lib: Library, s: Spec, v: Value)
    requires !v.Null?
    ensures AttributesOk(lib, Some(Schema("", "", 0, [NewDefinition(lib, s, s.key)])), map[s.key := v], false) <==> SpecAccepts(lib, s, v)
  {
    var d := NewDefinition(lib, s, s.key);
    var attrs: Attributes := map[s.key := v];
    assert [d][..0] == [] && Find([d], s.key) == Some(d);
    assert s.key in attrs && attrs[s.key] == v;
    assert EntriesOk(lib, [d], attrs) <==> EntryOk(lib, [d], s.key, v);
    assert Find([], d.key).None? && SchemaOk(lib, []);
    assert SchemaOk(lib, [d]) <==> DefinitionOk(lib, d);
  }

  /** The part of the proposal's validation that looks at one attribute map. */
  method ValidateValues(lib: Library, specs: seq<Spec>, attrs: Attributes) returns (ok: bool)
    ensures ok <==> ValuesFit(lib, specs, attrs)
  {
    for i := 0 to |specs|
      invariant forall j :: 0 <= j < i && specs[j].key in attrs ==> SpecAccepts(lib, specs[j], attrs[specs[j].key])
    {
      var s := specs[i];
      if s.key in attrs && !attrs[s.key].Null? {
        OneDefinition(lib, s, attrs[s.key]);
        var fits := ValidateAttributes(lib, Some(Schema("", "", 0, [NewDefinition(lib, s, s.key)])), map[s.key := attrs[s.key]], false);
        if !fits { return false; }
      }
    }
    return true;
  }

  /** The attribute names a proposal may use; reserved ones are among them. */
  ghost predicate NamesOk(attrs: Attributes) { forall k :: k in attrs ==> KeyPattern(k) }

  predicate UsedIn(key: string, maps: seq<Attributes>) { exists j :: 0 <= j < |maps| && key in maps[j] }

  /** Every proposed definition is used by one of the proposal's attribute maps. */
  ghost predicate AllUsed(specs: seq<Spec>, maps: seq<Attributes>) {
    forall i :: 0 <= i < |specs| ==> UsedIn(specs[i].key, maps)
  }

  ghost predicate MapOk(lib: Library, specs: seq<Spec>, attrs: Attributes) { NamesOk(attrs) && ValuesFit(lib, specs, attrs) }

  /** The proposal's own validation, as far as definitions and attributes go; `maps` are the
      attributes of the item and of all variants that the proposal carries. */
  ghost predicate ProposalValid(lib: Library, specs: seq<Spec>, maps: seq<Attributes>) {
    Validated(lib, specs) && (forall j :: 0 <= j < |maps| ==> MapOk(lib, specs, maps[j])) && AllUsed(specs, maps)
  }

  method ValidateNames(attrs: Attributes) returns (ok: bool)
    ensures ok <==> NamesOk(attrs)
  {
    var rest := attrs.Keys;
    while rest != {}
      invariant rest <= attrs.Keys && forall k :: k in attrs && k !in rest ==> KeyPattern(k)
      decreases rest
    {
      var k :| k in rest;
      rest := rest - {k};
      if !KeyPattern(k) { return false; }
    }
    return true;
  }

  method ValidateProposal(lib: Library, specs: seq<Spec>, maps: seq<Attributes>) returns (ok: bool)
    ensures ok <==> ProposalValid(lib, specs, maps)
  {
    ok := ValidateDefinitions(lib, specs);
    if !ok { return; }
    for j := 0 to |maps|
      invariant forall k :: 0 <= k < j ==> MapOk(lib, specs, maps[k])
    {
      var names := ValidateNames(maps[j]);
      var fits := ValidateValues(lib, specs, maps[j]);
      if !names || !fits { return false; }
    }
    for i := 0 to |specs|
      invariant forall k :: 0 <= k < i ==> UsedIn(specs[k].key, maps)
    {
      if !UsedIn(specs[i].key, maps) { return false; }
    }
    return true;
  }

  // ---------------------------------------------------------------- stored definitions

  /** The definition a map filled in order keeps for a trimmed label. */
  function FindLabel(ds: seq<Definition>, words: string): Option<Definition> {
    if ds == [] then None
    else if Trim(ds[|ds| - 1].label_) == words then Some(ds[|ds| - 1])
    else FindLabel(ds[..|ds| - 1], words)
  }

  /** The stored definition a spec reuses: by key first, then by label. */
  function Existing(ds: seq<Definition>, s: Spec): Option<Definition> {
    if Find(ds, s.key).Some? then Find(ds, s.key) else FindLabel(ds, Trim(s.label_))
  }

  /** verifyExistingAttributeRules: omitted rules keep the stored ones, others must match. */
  predicate RulesCompatible(lib: Library, stored: string, proposed: Rules) {
    proposed == map[]
    || (var original := if stored == "" then Some(map[]) else lib.decodeRules(stored);
        original.Some? && lib.encodeRules(original.value) == lib.encodeRules(proposed))
  }

  method IndexSchema(ds: seq<Definition>) returns (byKey: map<string, Definition>, byLabel: map<string, Definition>)
    ensures |byKey| <= |ds|
    ensures forall k :: k in byKey <==> Find(ds, k).Some?
    ensures forall k :: k in byKey ==> Find(ds, k) == Some(byKey[k])
    ensures forall t :: t in byLabel <==> FindLabel(ds, t).Some?
    ensures forall t :: t in byLabel ==> FindLabel(ds, t) == Some(byLabel[t])
  {
    byKey, byLabel := map[], map[];
    for i := 0 to |ds|
      invariant |byKey| <= i
      invariant forall k :: k in byKey <==> Find(ds[..i], k).Some?
      invariant forall k :: k in byKey ==> Find(ds[..i], k) == Some(byKey[k])
      invariant forall t :: t in byLabel <==> FindLabel(ds[..i], t).Some?
      invariant forall t :: t in byLabel ==> FindLabel(ds[..i], t) == Some(byLabel[t])
    {
      assert ds[..i + 1][..i] == ds[..i] && ds[..i + 1][i] == ds[i];
      byKey := byKey[ds[i].key := ds[i]];
      byLabel := byLabel[Trim(ds[i].label_) := ds[i]];
    }
    assert ds[..|ds|] == ds;
  }

  // ---------------------------------------------------------------- the preflight

  datatype Reason =
    | InvalidAlias | DuplicateAlias | MissingLabel | DuplicateLabel | InvalidRules
    | ExistingKeyConflict | ExistingTypeConflict | ExistingRulesConflict
    | SchemaNameConflict | SchemaNameRequired

  datatype Binding = Bound(aliases: map<string, string>, hasNew: bool) | Rejected(index: int, reason: Reason)

  predicate NamePreflight(current: Option<Schema>, schemaName: string) {
    match current
    case Some(schema) => schemaName == "" || Trim(schemaName) == schema.name
    case None => Trim(schemaName) != ""
  }

  /** Why one spec is rejected, in the order of the checks; None when it passes. */
  function Objection(lib: Library, ds: seq<Definition>, seenAliases: set<string>, seenLabels: set<string>, s: Spec): Option<Reason> {
    var words := Trim(s.label_);
    if !AliasOk(s.key) then Some(InvalidAlias)
    else if s.key in seenAliases then Some(DuplicateAlias)
    else if words == "" then Some(MissingLabel)
    else if words in seenLabels then Some(DuplicateLabel)
    else if !lib.aiRulesOk(s.dataType, RulesOf(s)) then Some(InvalidRules)
    else
      match Find(ds, s.key)
      case Some(d) =>
        if Trim(d.label_) != words || d.dataType != s.dataType then Some(ExistingKeyConflict)
        else if !RulesCompatible(lib, d.rules, RulesOf(s)) then Some(ExistingRulesConflict)
        else None
      case None =>
        match FindLabel(ds, words)
        case Some(d) =>
          if d.dataType != s.dataType then Some(ExistingTypeConflict)
          else if !RulesCompatible(lib, d.rules, RulesOf(s)) then Some(ExistingRulesConflict)
          else None
        case None => None
  }

  /** No spec is objected to, given those before it. */
  predicate SpecsPreflight(lib: Library, ds: seq<Definition>, specs: seq<Spec>) {
    specs == []
    || (&& SpecsPreflight(lib, ds, Init(specs))
        && Objection(lib, ds, AliasSet(Init(specs)), LabelSet(Init(specs)), Last(specs)).None?)
  }

  /** Some spec reuses no stored definition. */
  predicate HasNew(ds: seq<Definition>, specs: seq<Spec>) {
    specs != [] && (HasNew(ds, Init(specs)) || Existing(ds, Last(specs)).None?)
  }

  /** The aliases that reuse a stored key, with that key. */
  function AliasMap(ds: seq<Definition>, specs: seq<Spec>): map<string, string> {
    if specs == [] then map[]
    else
      var m := AliasMap(ds, Init(specs));
      match Existing(ds, Last(specs))
      case Some(d) => m[Last(specs).key := d.key]
      case None => m
  }

  predicate PreflightOk(lib: Library, current: Option<Schema>, schemaName: string, specs: seq<Spec>) {
    && SpecsPreflight(lib, DefinitionsOf(current), specs)
    && (HasNew(DefinitionsOf(current), specs) ==> NamePreflight(current, schemaName))
  }

  lemma {:induction false} PreflightPrefix(lib: Library, ds: seq<Definition>, specs: seq<Spec>, n: nat)
    requires SpecsPreflight(lib, ds, specs) && n <= |specs|
    ensures SpecsPreflight(lib, ds, specs[..n])
  {
    if n < |specs| {
      PreflightPrefix(lib, ds, Init(specs), n);
      assert Init(specs)[..n] == specs[..n];
    } else {
      assert specs[..n] == specs;
    }
  }

  /** preflightAttributeDefinitionBindings: the bindings to stored keys, or the first spec
      that is objected to. */
  method PreflightBindings(lib: Library, current: Option<Schema>, schemaName: string, specs: seq<Spec>) returns (r: Binding)
    ensures r.Bound? <==> PreflightOk(lib, current, schemaName, specs)
    ensures r.Bound? ==> r.aliases == AliasMap(DefinitionsOf(current), specs) && r.hasNew == HasNew(DefinitionsOf(current), specs)
    ensures r.Rejected? ==> -1 <= r.index < |specs|
    ensures r.Rejected? && r.index >= 0 ==>
      var before := specs[..r.index];
      && SpecsPreflight(lib, DefinitionsOf(current), before)
      && Objection(lib, DefinitionsOf(current), AliasSet(before), LabelSet(before), specs[r.index]) == Some(r.reason)
  {
    var ds := DefinitionsOf(current);
    var aliases: map<string, string> := map[];
    var seenAliases, seenLabels: set<string>, hasNew := {}, {}, false;
    for i := 0 to |specs|
      invariant seenAliases == AliasSet(specs[..i]) && seenLabels == LabelSet(specs[..i])
      invariant SpecsPreflight(lib, ds, specs[..i])
      invariant aliases == AliasMap(ds, specs[..i]) && hasNew == HasNew(ds, specs[..i])
    {
      var spec := specs[i];
      assert Init(specs[..i + 1]) == specs[..i] && Last(specs[..i + 1]) == spec;
      var objection := Objection(lib, ds, seenAliases, seenLabels, spec);
      if objection.Some? {
        if SpecsPreflight(lib, ds, specs) { PreflightPrefix(lib, ds, specs, i + 1); }
        return Rejected(i, objection.value);
      }
      seenAliases, seenLabels := seenAliases + {spec.key}, seenLabels + {Trim(spec.label_)};
      var existing := Existing(ds, spec);
      if existing.Some? {
        aliases := aliases[spec.key := existing.value.key];
      } else {
        hasNew := true;
      }
    }
    assert specs[..|specs|] == specs;
    if hasNew && !NamePreflight(current, schemaName) {
      return Rejected(-1, if current.Some? then SchemaNameConflict else SchemaNameRequired);
    }
    return Bound(aliases, hasNew);
  }

  // ---------------------------------------------------------------- resolution at approval

  /** The repository calls of the resolution: whether a template name is in use, the next
      version of a name, and the ID of the created version; None when a call fails. */
  datatype Repository = Repository(nameTaken: string -> Option<bool>, nextVersion: string -> Option<int>, createId: Option<string>)

  /** The n-th random key, a hash of a fresh ID in the reserved space. */
  function MintedKey(draw: nat -> string, n: nat): string { "attr_" + draw(n) }

  ghost predicate FreshFrom(draw: nat -> string, taken: set<string>, from: nat) {
    exists n: nat :: n >= from && MintedKey(draw, n) !in taken
  }

  /** Sets of up to `size` keys never exhaust the random keys. */
  ghost predicate Random(draw: nat -> string, size: nat) {
    forall taken: set<string>, from: nat :: |taken| <= size ==> FreshFrom(draw, taken, from)
  }

  /** The first of the specs that introduces a new definition under this label. */
  function NewWithLabel(ds: seq<Definition>, specs: seq<Spec>, words: string): Option<Spec> {
    if specs == [] then None
    else if NewWithLabel(ds, Init(specs), words).Some? then NewWithLabel(ds, Init(specs), words)
    else if Existing(ds, Last(specs)).None? && Trim(Last(specs).label_) == words then Some(Last(specs))
    else None
  }

  /** What approval asks of one spec, given those before it. Stored labels are not trimmed
      here, and a definition minted for an earlier spec carries no rules to compare with. */
  predicate SpecApproved(lib: Library, ds: seq<Definition>, before: seq<Spec>, s: Spec) {
    var words := Trim(s.label_);
    && AliasOk(s.key) && words != "" && ArabicText(lib, words) && s.key !in AliasSet(before)
    && lib.aiRulesOk(s.dataType, RulesOf(s))
    && match Find(ds, s.key)
       case Some(d) => d.label_ == words && d.dataType == s.dataType && RulesCompatible(lib, d.rules, RulesOf(s))
       case None =>
         match FindLabel(ds, words)
         case Some(d) => d.dataType == s.dataType && RulesCompatible(lib, d.rules, RulesOf(s))
         case None =>
           match NewWithLabel(ds, before, words)
           case Some(first) => first.dataType == s.dataType && RulesCompatible(lib, "", RulesOf(s))
           case None => true
  }

  predicate SpecsApproved(lib: Library, ds: seq<Definition>, specs: seq<Spec>) {
    specs == [] || (SpecsApproved(lib, ds, Init(specs)) && SpecApproved(lib, ds, Init(specs), Last(specs)))
  }

  function TemplateName(current: Option<Schema>, schemaName: string): string {
    if current.Some? then current.value.name else Trim(schemaName)
  }

  /** When a new schema version may be created and the repository does create it. */
  predicate NameApproved(lib: Library, current: Option<Schema>, schemaName: string, repo: Repository) {
    var name := Trim(schemaName);
    && (if current.Some? then name == "" || name == current.value.name
        else name != "" && ArabicText(lib, name) && repo.nameTaken(name) == Some(false))
    && repo.nextVersion(TemplateName(current, schemaName)).Some? && repo.createId.Some?
  }

  predicate Approvable(lib: Library, current: Option<Schema>, schemaName: string, specs: seq<Spec>, repo: Repository) {
    && |specs| <= 100 && SpecsApproved(lib, DefinitionsOf(current), specs)
    && (HasNew(DefinitionsOf(current), specs) ==> NameApproved(lib, current, schemaName, repo))
  }

  function NewDefinition(lib: Library, s: Spec, key: string): Definition {
    Definition(key, Trim(s.label_), s.dataType, false, lib.encodeRules(RulesOf(s)))
  }

  /** How the specs were resolved: each alias goes to the stored key it reuses, to the key
      minted for an earlier spec with the same label, or to a fresh reserved key of its own. */
  ghost predicate Resolution(lib: Library, ds: seq<Definition>, specs: seq<Spec>, keys: map<string, string>, minted: seq<Definition>) {
    if specs == [] then keys == map[] && minted == []
    else
      var s, before := Last(specs), Init(specs);
      && s.key in keys && s.key !in AliasSet(before)
      && match Existing(ds, s)
         case Some(d) => keys[s.key] == d.key && Resolution(lib, ds, before, keys - {s.key}, minted)
         case None =>
           match NewWithLabel(ds, before, Trim(s.label_))
           case Some(first) =>
             && first.key in keys && keys[s.key] == keys[first.key]
             && Resolution(lib, ds, before, keys - {s.key}, minted)
           case None =>
             && minted != [] && minted[|minted| - 1] == NewDefinition(lib, s, keys[s.key])
             && Reserved(keys[s.key]) && Find(ds + minted[..|minted| - 1], keys[s.key]).None?
             && Resolution(lib, ds, before, keys - {s.key}, minted[..|minted| - 1])
  }

  /** The maps the resolution fills while it walks over the specs. */
  datatype Progress = Progress(byKey: map<string, Definition>, byLabel: map<string, Definition>, keys: map<string, string>, minted: seq<Definition>)

  /** What the key index holds for one key. */
  ghost predicate KeyIndexed(ds: seq<Definition>, minted: seq<Definition>, byKey: map<string, Definition>, k: string) {
    && (k in byKey <==> Find(ds + minted, k).Some?)
    && (Find(ds, k).Some? ==> k in byKey && byKey[k] == Find(ds, k).value)
    && (k in byKey && !Reserved(k) ==> Find(ds, k).Some?)
  }

  ghost predicate KeysIndexed(ds: seq<Definition>, minted: seq<Definition>, byKey: map<string, Definition>) {
    forall k :: KeyIndexed(ds, minted, byKey, k)
  }

  /** What the label index holds for one label. */
  ghost predicate LabelIndexed(ds: seq<Definition>, before: seq<Spec>, p: Progress, t: string) {
    match FindLabel(ds, t)
    case Some(d) => t in p.byLabel && p.byLabel[t] == d
    case None =>
      match NewWithLabel(ds, before, t)
      case Some(first) => t in p.byLabel && first.key in p.keys && p.byLabel[t] == Definition(p.keys[first.key], t, first.dataType, false, "")
      case None => t !in p.byLabel
  }

  ghost predicate LabelsIndexed(ds: seq<Definition>, before: seq<Spec>, p: Progress) {
    forall t :: LabelIndexed(ds, before, p, t)
  }

  ghost predicate Coherent(lib: Library, ds: seq<Definition>, before: seq<Spec>, p: Progress) {
    && KeysIndexed(ds, p.minted, p.byKey) && LabelsIndexed(ds, before, p)
    && Resolution(lib, ds, before, p.keys, p.minted) && p.keys.Keys == AliasSet(before)
    && |p.byKey| <= |ds| + |before| && (p.minted != [] <==> HasNew(ds, before))
  }

  lemma FindAppended(ds: seq<Definition>, d: Definition, key: string)
    ensures Find(ds + [d], key) == if d.key == key then Some(d) else Find(ds, key)
  {
    assert (ds + [d])[..|ds|] == ds;
  }

  lemma {:induction false} NewIfLabelled(ds: seq<Definition>, before: seq<Spec>, words: string)
    requires NewWithLabel(ds, before, words).Some?
    ensures HasNew(ds, before)
  {
    if NewWithLabel(ds, Init(before), words).Some? { NewIfLabelled(ds, Init(before), words); }
  }

  /** The key of an alias that needs no new definition. */
  ghost predicate BoundTo(ds: seq<Definition>, before: seq<Spec>, keys: map<string, string>, s: Spec, key: string) {
    match Existing(ds, s)
    case Some(d) => key == d.key
    case None =>
      match NewWithLabel(ds, before, Trim(s.label_))
      case Some(first) => first.key in keys && key == keys[first.key]
      case None => false
  }

  lemma BindKeepsLabels(ds: seq<Definition>, before: seq<Spec>, p: Progress, s: Spec, key: string)
    requires LabelsIndexed(ds, before, p) && s.key !in p.keys && BoundTo(ds, before, p.keys, s, key)
    ensures LabelsIndexed(ds, before + [s], p.(keys := p.keys[s.key := key]))
  {
    var specs, q := before + [s], p.(keys := p.keys[s.key := key]);
    assert Init(specs) == before && Last(specs) == s;
    forall t ensures LabelIndexed(ds, specs, q, t) {
      assert LabelIndexed(ds, before, p, t);
    }
  }

  lemma BindKeepsResolution(lib: Library, ds: seq<Definition>, before: seq<Spec>, keys: map<string, string>, minted: seq<Definition>, s: Spec, key: string)
    requires Resolution(lib, ds, before, keys, minted) && keys.Keys == AliasSet(before)
    requires s.key !in keys && BoundTo(ds, before, keys, s, key)
    ensures Resolution(lib, ds, before + [s], keys[s.key := key], minted)
    ensures keys[s.key := key].Keys == AliasSet(before + [s])
    ensures HasNew(ds, before + [s]) <==> HasNew(ds, before)
  {
    var specs := before + [s];
    assert Init(specs) == before && Last(specs) == s;
    assert keys[s.key := key] - {s.key} == keys;
    if Existing(ds, s).None? { NewIfLabelled(ds, before, Trim(s.label_)); }
  }

  lemma MintKeepsLabels(ds: seq<Definition>, before: seq<Spec>, p: Progress, s: Spec, d: Definition, q: Progress)
    requires LabelsIndexed(ds, before, p) && s.key !in p.keys
    requires Existing(ds, s).None? && NewWithLabel(ds, before, Trim(s.label_)).None?
    requires d == Definition(d.key, Trim(s.label_), s.dataType, false, "")
    requires q.byLabel == p.byLabel[d.label_ := d] && q.keys == p.keys[s.key := d.key]
    ensures LabelsIndexed(ds, before + [s], q)
  {
    var specs := before + [s];
    assert Init(specs) == before && Last(specs) == s;
    forall t ensures LabelIndexed(ds, specs, q, t) {
      assert LabelIndexed(ds, before, p, t);
    }
  }

  lemma MintKeepsResolution(lib: Library, ds: seq<Definition>, before: seq<Spec>, keys: map<string, string>, minted: seq<Definition>, s: Spec, key: string)
    requires Resolution(lib, ds, before, keys, minted) && keys.Keys == AliasSet(before) && s.key !in keys
    requires Existing(ds, s).None? && NewWithLabel(ds, before, Trim(s.label_)).None?
    requires Reserved(key) && Find(ds + minted, key).None?
    ensures Resolution(lib, ds, before + [s], keys[s.key := key], minted + [NewDefinition(lib, s, key)])
    ensures keys[s.key := key].Keys == AliasSet(before + [s])
    ensures HasNew(ds, before + [s])
  {
    var specs, all, more := before + [s], minted + [NewDefinition(lib, s, key)], keys[s.key := key];
    assert Init(specs) == before && Last(specs) == s;
    assert more - {s.key} == keys && s.key in more && more[s.key] == key;
    assert all[..|all| - 1] == minted && all[|all| - 1] == NewDefinition(lib, s, key);
    assert Resolution(lib, ds, Init(specs), more - {s.key}, all[..|all| - 1]);
  }

  lemma MintKeepsKeys(ds: seq<Definition>, minted: seq<Definition>, byKey: map<string, Definition>, d: Definition, stub: Definition)
    requires KeysIndexed(ds, minted, byKey) && Reserved(d.key) && d.key !in byKey
    ensures KeysIndexed(ds, minted + [d], byKey[d.key := stub])
    ensures |byKey[d.key := stub]| == |byKey| + 1
  {
    var more, index := minted + [d], byKey[d.key := stub];
    assert ds + more == (ds + minted) + [d];
    forall k ensures KeyIndexed(ds, more, index, k) {
      assert KeyIndexed(ds, minted, byKey, k);
      FindAppended(ds + minted, d, k);
    }
  }

  lemma BindKeepsCoherent(lib: Library, ds: seq<Definition>, before: seq<Spec>, p: Progress, s: Spec, key: string)
    requires Coherent(lib, ds, before, p) && s.key !in p.keys && BoundTo(ds, before, p.keys, s, key)
    ensures Coherent(lib, ds, before + [s], p.(keys := p.keys[s.key := key]))
  {
    BindKeepsLabels(ds, before, p, s, key);
    BindKeepsResolution(lib, ds, before, p.keys, p.minted, s, key);
  }

  function Mint(lib: Library, p: Progress, s: Spec, key: string): Progress {
    var stub := Definition(key, Trim(s.label_), s.dataType, false, "");
    Progress(p.byKey[key := stub], p.byLabel[stub.label_ := stub], p.keys[s.key := key], p.minted + [NewDefinition(lib, s, key)])
  }

  lemma MintKeepsCoherent(lib: Library, ds: seq<Definition>, before: seq<Spec>, p: Progress, s: Spec, key: string)
    requires Coherent(lib, ds, before, p) && s.key !in p.keys && Reserved(key) && key !in p.byKey
    requires Existing(ds, s).None? && NewWithLabel(ds, before, Trim(s.label_)).None?
    ensures Coherent(lib, ds, before + [s], Mint(lib, p, s, key))
  {
    var stub := Definition(key, Trim(s.label_), s.dataType, false, "");
    assert KeyIndexed(ds, p.minted, p.byKey, key);
    MintKeepsKeys(ds, p.minted, p.byKey, NewDefinition(lib, s, key), stub);
    MintKeepsLabels(ds, before, p, s, stub, Mint(lib, p, s, key));
    MintKeepsResolution(lib, ds, before, p.keys, p.minted, s, key);
  }

  /** Draws random keys until one is not in use. */
  method DrawKey(taken: map<string, Definition>, draw: nat -> string, drawn: nat) returns (key: string, drawn': nat)
    requires FreshFrom(draw, taken.Keys, drawn)
    ensures key !in taken && Reserved(key) && drawn < drawn' && key == MintedKey(draw, drawn' - 1)
  {
    ghost var goal: nat :| goal >= drawn && MintedKey(draw, goal) !in taken.Keys;
    var n := drawn;
    while MintedKey(draw, n) in taken
      invariant drawn <= n <= goal
      decreases goal - n
    {
      n := n + 1;
    }
    return MintedKey(draw, n), n + 1;
  }

  /** One turn of the resolution loop. */
  method ResolveOne(lib: Library, ds: seq<Definition>, ghost before: seq<Spec>, p: Progress, s: Spec, draw: nat -> string, drawn: nat)
    returns (r: Option<Progress>, drawn': nat)
    requires Coherent(lib, ds, before, p) && Random(draw, |ds| + |before|)
    ensures r.Some? <==> SpecApproved(lib, ds, before, s)
    ensures r.Some? ==> Coherent(lib, ds, before + [s], r.value)
  {
    drawn' := drawn;
    var words := Trim(s.label_);
    if !AliasOk(s.key) || words == "" || !ArabicText(lib, words) || s.key in p.keys { return None, drawn'; }
    var rules := RulesOf(s);
    if !lib.aiRulesOk(s.dataType, rules) { return None, drawn'; }
    assert KeyIndexed(ds, p.minted, p.byKey, s.key);
    assert LabelIndexed(ds, before, p, words);
    if s.key in p.byKey || words in p.byLabel {
      var existing := if s.key in p.byKey then p.byKey[s.key] else p.byLabel[words];
      if s.key in p.byKey && existing.label_ != words { return None, drawn'; }
      if existing.dataType != s.dataType || !RulesCompatible(lib, existing.rules, rules) { return None, drawn'; }
      FindIn(ds, s.key);
      BindKeepsCoherent(lib, ds, before, p, s, existing.key);
      return Some(p.(keys := p.keys[s.key := existing.key])), drawn';
    }
    assert |p.byKey.Keys| == |p.byKey|;
    var key;
    key, drawn' := DrawKey(p.byKey, draw, drawn');
    MintKeepsCoherent(lib, ds, before, p, s, key);
    return Some(Mint(lib, p, s, key)), drawn';
  }

  lemma {:induction false} ApprovedPrefix(lib: Library, ds: seq<Definition>, specs: seq<Spec>, n: nat)
    requires SpecsApproved(lib, ds, specs) && n <= |specs|
    ensures SpecsApproved(lib, ds, specs[..n])
  {
    if n < |specs| {
      ApprovedPrefix(lib, ds, Init(specs), n);
      assert Init(specs)[..n] == specs[..n];
    } else {
      assert specs[..n] == specs;
    }
  }

  lemma ApprovedNext(lib: Library, ds: seq<Definition>, specs: seq<Spec>, i: nat)
    requires i < |specs|
    ensures specs[..i + 1] == specs[..i] + [specs[i]]
    ensures SpecsApproved(lib, ds, specs[..i + 1]) <==> SpecsApproved(lib, ds, specs[..i]) && SpecApproved(lib, ds, specs[..i], specs[i])
  {
    assert Init(specs[..i + 1]) == specs[..i] && Last(specs[..i + 1]) == specs[i];
  }

  method StartProgress(lib: Library, ds: seq<Definition>) returns (p: Progress)
    ensures Coherent(lib, ds, [], p)
  {
    var byKey, byLabel := IndexSchema(ds);
    p := Progress(byKey, byLabel, map[], []);
    assert ds + [] == ds;
    assert forall k :: KeyIndexed(ds, [], byKey, k);
    assert forall t :: LabelIndexed(ds, [], p, t);
  }

  /** The first i specs are resolved. */
  ghost predicate ResolvedTo(lib: Library, ds: seq<Definition>, specs: seq<Spec>, i: nat, p: Progress) {
    i <= |specs| && Coherent(lib, ds, specs[..i], p) && SpecsApproved(lib, ds, specs[..i])
  }

  method ResolveNext(lib: Library, ds: seq<Definition>, specs: seq<Spec>, i: nat, p: Progress, draw: nat -> string, drawn: nat)
    returns (r: Option<Progress>, drawn': nat)
    requires i < |specs| && ResolvedTo(lib, ds, specs, i, p) && Random(draw, |ds| + |specs|)
    ensures if r.Some? then ResolvedTo(lib, ds, specs, i + 1, r.value) else !SpecsApproved(lib, ds, specs)
  {
    ApprovedNext(lib, ds, specs, i);
    r, drawn' := ResolveOne(lib, ds, specs[..i], p, specs[i], draw, drawn);
    if r.None? && SpecsApproved(lib, ds, specs) { ApprovedPrefix(lib, ds, specs, i + 1); }
  }

  /** The loop over the specs. */
  method ResolveAll(lib: Library, ds: seq<Definition>, specs: seq<Spec>, draw: nat -> string) returns (r: Option<Progress>)
    requires Random(draw, |ds| + |specs|)
    ensures r.Some? <==> SpecsApproved(lib, ds, specs)
    ensures r.Some? ==> Coherent(lib, ds, specs, r.value)
  {
    var drawn := 0;
    var p := StartProgress(lib, ds);
    assert specs[..0] == [];
    for i := 0 to |specs|
      invariant ResolvedTo(lib, ds, specs, i, p)
    {
      var next;
      next, drawn := ResolveNext(lib, ds, specs, i, p, draw, drawn);
      if next.None? { return None; }
      p := next.value;
    }
    assert specs[..|specs|] == specs;
    return Some(p);
  }

  datatype Outcome = Resolved(schema: Option<Schema>, keys: map<string, string>) | Refused

  /** The schema in force after a resolution that minted these definitions. */
  ghost predicate SchemaAfter(current: Option<Schema>, schemaName: string, repo: Repository, minted: seq<Definition>, after: Option<Schema>) {
    if minted == [] then after == current
    else
      && repo.createId.Some? && repo.nextVersion(TemplateName(current, schemaName)).Some?
      && after == Some(Schema(repo.createId.value, TemplateName(current, schemaName),
                              repo.nextVersion(TemplateName(current, schemaName)).value, DefinitionsOf(current) + minted))
  }

  /** resolveApprovedAttributeDefinitions. */
  method ResolveDefinitions(lib: Library, current: Option<Schema>, schemaName: string, specs: seq<Spec>, repo: Repository, draw: nat -> string)
    returns (r: Outcome)
    requires Random(draw, |DefinitionsOf(current)| + 100)
    ensures r.Resolved? <==> Approvable(lib, current, schemaName, specs, repo)
    ensures r.Resolved? ==> exists minted ::
      && Resolution(lib, DefinitionsOf(current), specs, r.keys, minted)
      && SchemaAfter(current, schemaName, repo, minted, r.schema)
  {
    if specs == [] {
      assert Resolution(lib, DefinitionsOf(current), specs, map[], []);
      return Resolved(current, map[]);
    }
    if |specs| > 100 { return Refused; }
    var ds := DefinitionsOf(current);
    var p := ResolveAll(lib, ds, specs, draw);
    if p.None? { return Refused; }
    if p.value.minted == [] {
      assert SchemaAfter(current, schemaName, repo, [], current);
      return Resolved(current, p.value.keys);
    }
    var name := Trim(schemaName);
    if current.Some? {
      if name != "" && name != current.value.name { return Refused; }
      name := current.value.name;
    } else {
      if name == "" || !ArabicText(lib, name) || repo.nameTaken(name) != Some(false) { return Refused; }
    }
    var version := repo.nextVersion(name);
    if version.None? || repo.createId.None? { return Refused; }
    var schema := Some(Schema(repo.createId.value, name, version.value, ds + p.value.minted));
    assert SchemaAfter(current, schemaName, repo, p.value.minted, schema);
    return Resolved(schema, p.value.keys);
  }
}
