/** Attribute schemas and the validation of attribute maps against them. */
module CatalogAttributes {
  import opened Text

  /** A decoded attribute value; a number is known by its literal. TypedList is a Go slice other than the generic []any that
      JSON decoding produces. */
  datatype Value =
    | Null | Bool(b: bool) | Number(literal: string) | Str(s: string)
    | List(items: seq<Value>) | TypedList(items: seq<Value>) | Object(fields: map<string, Value>)

  type Attributes = map<string, Value>
  type Rules = map<string, Value>

  datatype Definition = Definition(key: string, label_: string, dataType: string, required: bool, rules: string)

  datatype Schema = Schema(id: string, name: string, version: int, definitions: seq<Definition>)

  /** Behaviour the catalog code relies on and this model leaves open: JSON of validation
      rules, the checks of a definition, of the rules an AI may propose, and of one value, and
      the Arabic script. */
  datatype Library = Library(
    decodeRules: string -> Option<Rules>,
    encodeRules: Rules -> string,
    definitionOk: (string, Rules) -> bool,
    aiRulesOk: (string, Rules) -> bool,
    valueOk: (string, Rules, Value) -> bool,
    isArabic: char -> bool)

  /** Rules that an AI may propose survive their JSON encoding and are valid rules. */
  ghost predicate Sound(lib: Library) {
    forall t: string, r: Rules :: lib.aiRulesOk(t, r) ==> lib.definitionOk(t, r) && lib.decodeRules(lib.encodeRules(r)) == Some(r)
  }

  /** No white space is Arabic script. */
  ghost predicate ArabicIsVisible(lib: Library) { forall c :: IsSpace(c) ==> !lib.isArabic(c) }

  // ---------------------------------------------------------------- a library that exists

  predicate SampleRules(r: Rules) { r == map[] || (r.Keys == {"min"} && r["min"].Number?) }

  function SampleEncode(r: Rules): string {
    if "min" in r && r["min"].Number? then "{\"min\":" + r["min"].literal + "}" else "{}"
  }

  function SampleDecode(s: string): Option<Rules> {
    if s == "{}" then Some(map[])
    else if |s| >= 8 && s[..7] == "{\"min\":" then Some(map["min" := Number(s[7..|s| - 1])])
    else None
  }

  /** The assumptions on the library can be met, with empty and with non-empty rules. */
  lemma SoundLibraryExists() returns (lib: Library)
    ensures Sound(lib) && ArabicIsVisible(lib)
    ensures lib.aiRulesOk("text", map[]) && lib.aiRulesOk("number", map[]) && lib.isArabic('م')
    ensures lib.aiRulesOk("number", map["min" := Number("1")])
  {
    lib := Library(SampleDecode, SampleEncode, (t, r) => true, (t, r) => SampleRules(r), (t, r, v) => true, c => c == 'م');
    forall t: string, r: Rules | lib.aiRulesOk(t, r) ensures lib.decodeRules(lib.encodeRules(r)) == Some(r) {
      if r != map[] {
        var n := r["min"].literal;
        var s := SampleEncode(r);
        assert s == "{\"min\":" + n + "}";
        assert s[..7] == "{\"min\":" && s[7..|s| - 1] == n;
        assert r == map["min" := Number(n)];
      }
    }
  }

  // ---------------------------------------------------------------- what is valid

  predicate HasControl(s: string) { exists i :: 0 <= i < |s| && IsControl(s[i]) }

  predicate Reserved(key: string) { "attr_" <= key }

  /** A free-form attribute name. */
  predicate CustomKeyOk(key: string) {
    var t := Trim(key);
    t != "" && !Reserved(t) && |t| <= 120 && !HasControl(t)
  }

  predicate DefinitionOk(lib: Library, d: Definition) {
    && Trim(d.key) != ""
    && lib.decodeRules(d.rules).Some? && lib.definitionOk(d.dataType, lib.decodeRules(d.rules).value)
  }

  /** The definition a map filled in order keeps for a key. */
  function Find(ds: seq<Definition>, key: string): Option<Definition> {
    if ds == [] then None
    else if ds[|ds| - 1].key == key then Some(ds[|ds| - 1])
    else Find(ds[..|ds| - 1], key)
  }

  /** Every definition is valid and no key is defined twice. */
  predicate SchemaOk(lib: Library, ds: seq<Definition>) {
    ds == []
    || (var init, last := ds[..|ds| - 1], ds[|ds| - 1];
        SchemaOk(lib, init) && DefinitionOk(lib, last) && Find(init, last.key).None?)
  }

  predicate ValueAccepted(lib: Library, d: Definition, v: Value) {
    if v.Null? then !d.required
    else lib.decodeRules(d.rules).Some? && lib.valueOk(d.dataType, lib.decodeRules(d.rules).value, v)
  }

  predicate EntryOk(lib: Library, ds: seq<Definition>, key: string, v: Value) {
    match Find(ds, key)
    case Some(d) => ValueAccepted(lib, d, v)
    case None => CustomKeyOk(key)
  }

  predicate EmptyRequired(v: Value) {
    match v
    case Null => true
    case Str(s) => Trim(s) == ""
    case List(xs) => xs == []
    case TypedList(xs) => xs == []
    case _ => false
  }

  predicate Supplied(d: Definition, attrs: Attributes) {
    d.required ==> d.key in attrs && !EmptyRequired(attrs[d.key])
  }

  ghost predicate RequiredOk(ds: seq<Definition>, attrs: Attributes) {
    forall i :: 0 <= i < |ds| ==> Supplied(ds[i], attrs)
  }

  ghost predicate EntriesOk(lib: Library, ds: seq<Definition>, attrs: Attributes) {
    forall k :: k in attrs ==> EntryOk(lib, ds, k, attrs[k])
  }

  function DefinitionsOf(schema: Option<Schema>): seq<Definition> {
    if schema.Some? then schema.value.definitions else []
  }

  /** ValidateAttributes, or ValidatePartialAttributes when required keys are not enforced. */
  ghost predicate AttributesOk(lib: Library, schema: Option<Schema>, attrs: Attributes, enforceRequired: bool) {
    var ds := DefinitionsOf(schema);
    SchemaOk(lib, ds) && (enforceRequired ==> RequiredOk(ds, attrs)) && EntriesOk(lib, ds, attrs)
  }

  // ---------------------------------------------------------------- the validator

  lemma {:induction false} FindIn(ds: seq<Definition>, key: string)
    ensures Find(ds, key).Some? <==> exists i :: 0 <= i < |ds| && ds[i].key == key
    ensures Find(ds, key).Some? ==> Find(ds, key).value in ds && Find(ds, key).value.key == key
  {
    if ds != [] {
      var init := ds[..|ds| - 1];
      FindIn(init, key);
      if ds[|ds| - 1].key != key && Find(init, key).Some? {
        var i :| 0 <= i < |init| && init[i].key == key;
        assert ds[i].key == key;
      }
      assert forall i :: 0 <= i < |init| ==> init[i] == ds[i];
    }
  }

  lemma {:induction false} SchemaPrefix(lib: Library, ds: seq<Definition>, n: nat)
    requires SchemaOk(lib, ds) && n <= |ds|
    ensures SchemaOk(lib, ds[..n])
  {
    if n < |ds| {
      SchemaPrefix(lib, ds[..|ds| - 1], n);
      assert ds[..|ds| - 1][..n] == ds[..n];
    } else {
      assert ds[..n] == ds;
    }
  }

  /** The first loop: the definitions by key, None when the schema itself is invalid. */
  method IndexDefinitions(lib: Library, ds: seq<Definition>) returns (r: Option<map<string, Definition>>)
    ensures r.Some? <==> SchemaOk(lib, ds)
    ensures r.Some? ==> forall k :: k in r.value <==> Find(ds, k).Some?
    ensures r.Some? ==> forall k :: k in r.value ==> Find(ds, k) == Some(r.value[k])
  {
    var index: map<string, Definition> := map[];
    for i := 0 to |ds|
      invariant SchemaOk(lib, ds[..i])
      invariant forall k :: k in index <==> Find(ds[..i], k).Some?
      invariant forall k :: k in index ==> Find(ds[..i], k) == Some(index[k])
    {
      var d := ds[i];
      assert ds[..i + 1][..i] == ds[..i] && ds[..i + 1][i] == d;
      if Trim(d.key) == "" || d.key in index || lib.decodeRules(d.rules).None?
         || !lib.definitionOk(d.dataType, lib.decodeRules(d.rules).value) {
        if SchemaOk(lib, ds) { SchemaPrefix(lib, ds, i + 1); }
        return None;
      }
      index := index[d.key := d];
    }
    assert ds[..|ds|] == ds;
    return Some(index);
  }

  // ---------------------------------------------------------------- acceptance, from the fields

  lemma {:induction false} SchemaIs(lib: Library, ds: seq<Definition>)
    ensures SchemaOk(lib, ds) <==>
      && (forall i :: 0 <= i < |ds| ==> DefinitionOk(lib, ds[i]))
      && (forall i, j :: 0 <= i < j < |ds| ==> ds[i].key != ds[j].key)
  {
    if ds != [] {
      var init := ds[..|ds| - 1];
      SchemaIs(lib, init);
      FindIn(init, ds[|ds| - 1].key);
      assert forall i :: 0 <= i < |init| ==> init[i] == ds[i];
    }
  }

  /** A definition names its attribute, and its rules can be read and suit its type. */
  predicate Usable(lib: Library, d: Definition) {
    Trim(d.key) != "" && lib.decodeRules(d.rules).Some? && lib.definitionOk(d.dataType, lib.decodeRules(d.rules).value)
  }

  /** A required attribute is given: not null, not a blank text, not an empty list. */
  predicate Given(attrs: Attributes, key: string) {
    && key in attrs && !attrs[key].Null? && (attrs[key].Str? ==> Trim(attrs[key].s) != "")
    && (attrs[key].List? || attrs[key].TypedList? ==> attrs[key].items != [])
  }

  /** A name without a definition: at most 120 characters, none of them a control character,
      and outside the reserved space. */
  ghost predicate FreeName(key: string) {
    var t := Trim(key);
    1 <= |t| <= 120 && !("attr_" <= t) && forall i :: 0 <= i < |t| ==> !IsControl(t[i])
  }

  /** Attributes are accepted exactly when every definition is usable and no key is defined
      twice, every required attribute is given, and each attribute either has a definition and
      is null only if optional and else fits its rules, or bears a free name. */
  lemma AcceptanceLaw(lib: Library, schema: Option<Schema>, attrs: Attributes, enforceRequired: bool)
    ensures var ds := DefinitionsOf(schema);
      AttributesOk(lib, schema, attrs, enforceRequired)
      <==> && (forall i :: 0 <= i < |ds| ==> Usable(lib, ds[i]))
           && (forall i, j :: 0 <= i < j < |ds| ==> ds[i].key != ds[j].key)
           && (enforceRequired ==> forall i :: 0 <= i < |ds| && ds[i].required ==> Given(attrs, ds[i].key))
           && (forall k :: k in attrs && (forall i :: 0 <= i < |ds| ==> ds[i].key != k) ==> FreeName(k))
           && (forall i :: 0 <= i < |ds| && ds[i].key in attrs ==> FitsDefinition(lib, ds[i], attrs[ds[i].key]))
  {
    var ds := DefinitionsOf(schema);
    SchemaIs(lib, ds);
    assert forall i :: 0 <= i < |ds| ==> (DefinitionOk(lib, ds[i]) <==> Usable(lib, ds[i]));
    assert forall i :: 0 <= i < |ds| ==> (Supplied(ds[i], attrs) <==> (ds[i].required ==> Given(attrs, ds[i].key)));
    if SchemaOk(lib, ds) { EntriesAre(lib, ds, attrs); }
  }

  predicate FitsDefinition(lib: Library, d: Definition, v: Value) {
    if v.Null? then !d.required
    else lib.decodeRules(d.rules).Some? && lib.valueOk(d.dataType, lib.decodeRules(d.rules).value, v)
  }

  lemma EntriesAre(lib: Library, ds: seq<Definition>, attrs: Attributes)
    requires forall i, j :: 0 <= i < j < |ds| ==> ds[i].key != ds[j].key
    ensures EntriesOk(lib, ds, attrs) <==>
      && (forall k :: k in attrs && (forall i :: 0 <= i < |ds| ==> ds[i].key != k) ==> FreeName(k))
      && (forall i :: 0 <= i < |ds| && ds[i].key in attrs ==> FitsDefinition(lib, ds[i], attrs[ds[i].key]))
  {
    forall k ensures (exists i :: 0 <= i < |ds| && ds[i].key == k) <==> Find(ds, k).Some? { FindIn(ds, k); }
    forall i | 0 <= i < |ds| ensures Find(ds, ds[i].key) == Some(ds[i]) { FindIn(ds, ds[i].key); }
  }

  method ValidateAttributes(lib: Library, schema: Option<Schema>, attrs: Attributes, enforceRequired: bool) returns (ok: bool)
    ensures ok <==> AttributesOk(lib, schema, attrs, enforceRequired)
  {
    var ds := DefinitionsOf(schema);
    var index := IndexDefinitions(lib, ds);
    if index.None? { return false; }
    if enforceRequired {
      for i := 0 to |ds|
        invariant forall j :: 0 <= j < i ==> Supplied(ds[j], attrs)
      {
        if ds[i].required && (ds[i].key !in attrs || EmptyRequired(attrs[ds[i].key])) { return false; }
      }
    }
    var rest := attrs.Keys;
    while rest != {} // Go's map order is arbitrary
      invariant rest <= attrs.Keys
      invariant forall k :: k in attrs && k !in rest ==> EntryOk(lib, ds, k, attrs[k])
      decreases rest
    {
      var key :| key in rest;
      rest := rest - {key};
      if key !in index.value {
        if !CustomKeyOk(key) { return false; }
        continue;
      }
      var d := index.value[key];
      if attrs[key].Null? {
        if d.required { return false; }
        continue;
      }
      var rules := lib.decodeRules(d.rules);
      if rules.None? || !lib.valueOk(d.dataType, rules.value, attrs[key]) { return false; }
    }
    return true;
  }

  // ---------------------------------------------------------------- the diagnosing preflight

  /** Validation decomposes key by key, plus the required keys. */
  lemma ValidationDecomposes(lib: Library, schema: Option<Schema>, attrs: Attributes)
    ensures AttributesOk(lib, schema, attrs, false) <==>
      SchemaOk(lib, DefinitionsOf(schema)) && forall k :: k in attrs ==> AttributesOk(lib, schema, map[k := attrs[k]], false)
    ensures AttributesOk(lib, schema, attrs, true) <==>
      AttributesOk(lib, schema, attrs, false) && RequiredOk(DefinitionsOf(schema), attrs)
  {
    var ds := DefinitionsOf(schema);
    forall k | k in attrs ensures EntriesOk(lib, ds, map[k := attrs[k]]) <==> EntryOk(lib, ds, k, attrs[k]) {
      var one := map[k := attrs[k]];
      assert k in one && one[k] == attrs[k];
    }
  }

  /** What a rejection points at: one managed key, or the attributes as a whole. */
  datatype Diagnosis = Accepted | AtKey(key: string, required: bool) | AsAWhole

  /** The emptiness test of the preflight, which knows strings and generic lists only. */
  predicate LooksEmpty(v: Value) {
    v.Null? || (v.Str? && Trim(v.s) == "") || (v.List? && v.items == [])
  }

  /** preflightSchemaAttributes: accepts exactly what the plain validator accepts, and blames
      a key only if that key alone is rejected or a required one is missing. */
  method PreflightSchemaAttributes(lib: Library, schema: Option<Schema>, values: Attributes, requireAll: bool) returns (r: Diagnosis)
    ensures r.Accepted? <==> schema.None? || AttributesOk(lib, schema, values, requireAll)
    ensures r.AtKey? ==> schema.Some? && Find(schema.value.definitions, r.key).Some?
    ensures r.AtKey? ==>
      || (r.key in values && !AttributesOk(lib, schema, map[r.key := values[r.key]], false))
      || (requireAll && r.required && (r.key in values ==> EmptyRequired(values[r.key])))
  {
    if schema.None? { return Accepted; }
    var ds := schema.value.definitions;
    var index: map<string, Definition> := map[];
    for i := 0 to |ds|
      invariant forall k :: k in index <==> Find(ds[..i], k).Some?
    {
      assert ds[..i + 1][..i] == ds[..i];
      index := index[ds[i].key := ds[i]];
    }
    assert ds[..|ds|] == ds;
    ValidationDecomposes(lib, schema, values);
    var rest := values.Keys;
    while rest != {}
      invariant rest <= values.Keys
      decreases rest
    {
      var key :| key in rest;
      rest := rest - {key};
      if key in index {
        var ok := ValidateAttributes(lib, schema, map[key := values[key]], false);
        if !ok { return AtKey(key, index[key].required); }
      }
    }
    if requireAll {
      for i := 0 to |ds| {
        if ds[i].required && (ds[i].key !in values || LooksEmpty(values[ds[i].key])) {
          assert !Supplied(ds[i], values);
          FindIn(ds, ds[i].key);
          return AtKey(ds[i].key, true);
        }
      }
    }
    var ok := ValidateAttributes(lib, schema, values, requireAll);
    return if ok then Accepted else AsAWhole;
  }

  /** Without a schema the preflight accepts everything, while the validator still checks
      free-form names: they agree exactly when there is a schema or every name is admissible. */
  lemma PreflightAgreement(lib: Library, schema: Option<Schema>, values: Attributes, requireAll: bool)
    ensures ((schema.None? || AttributesOk(lib, schema, values, requireAll)) <==> AttributesOk(lib, schema, values, requireAll))
       <==> (schema.Some? || forall k :: k in values ==> CustomKeyOk(k))
  {
    assert schema.None? ==> (EntriesOk(lib, [], values) <==> forall k :: k in values ==> CustomKeyOk(k));
  }

  /** A reserved name without a schema is where they differ. */
  lemma NoSchemaReservedKey(lib: Library)
    ensures !AttributesOk(lib, None, map["attr_x" := Null], true)
  {
    var attrs: Attributes := map["attr_x" := Null];
    TrimKeepsPrefix("attr_", "attr_x");
    assert "attr_x" in attrs && !EntryOk(lib, [], "attr_x", attrs["attr_x"]);
  }
}
