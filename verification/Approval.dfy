/** What a passed preflight means for the resolution at approval, and what a schema version
    minted there does to the attributes that were valid before. */
module Approval {
  import opened Text
  import opened CatalogAttributes
  import opened AttributeDefinitions
  import opened KeyRenaming

  // ---------------------------------------------------------------- preflight and approval

  /** Trimming an acceptable label leaves an acceptable label. */
  lemma TrimKeepsArabic(lib: Library, s: string)
    requires ArabicIsVisible(lib) && ArabicText(lib, s)
    ensures ArabicText(lib, Trim(s))
  {
    var lo, hi := TrimParts(s);
    var i :| 0 <= i < |s| && lib.isArabic(s[i]);
    assert lo <= i < hi;
    assert lib.isArabic(Trim(s)[i - lo]);
    forall j | 0 <= j < |Trim(s)| ensures !IsControl(Trim(s)[j]) {
      assert Trim(s)[j] == s[lo + j];
    }
  }

  /** Every stored definition that a spec names by key has a trimmed label. */
  predicate HitsTrimmed(ds: seq<Definition>, specs: seq<Spec>) {
    specs == []
    || (&& HitsTrimmed(ds, Init(specs))
        && match Find(ds, Last(specs).key)
           case Some(d) => d.label_ == Trim(d.label_)
           case None => true)
  }

  lemma {:induction false} LabelOfNew(ds: seq<Definition>, specs: seq<Spec>, words: string)
    ensures NewWithLabel(ds, specs, words).Some? ==> words in LabelSet(specs)
  {
    if specs != [] { LabelOfNew(ds, Init(specs), words); }
  }

  lemma SpecAgreement(lib: Library, ds: seq<Definition>, before: seq<Spec>, s: Spec)
    requires ArabicIsVisible(lib) && SpecValid(lib, s)
    requires Objection(lib, ds, AliasSet(before), LabelSet(before), s).None?
    ensures SpecApproved(lib, ds, before, s) <==>
      (match Find(ds, s.key)
       case Some(d) => d.label_ == Trim(d.label_)
       case None => true)
  {
    TrimKeepsArabic(lib, s.label_);
    LabelOfNew(ds, before, Trim(s.label_));
  }

  lemma {:induction false} SpecsAgreement(lib: Library, ds: seq<Definition>, specs: seq<Spec>)
    requires ArabicIsVisible(lib) && SpecsValid(lib, specs) && SpecsPreflight(lib, ds, specs)
    ensures SpecsApproved(lib, ds, specs) <==> HitsTrimmed(ds, specs)
  {
    if specs != [] {
      SpecsAgreement(lib, ds, Init(specs));
      SpecAgreement(lib, ds, Init(specs), Last(specs));
    }
  }

  /** What only approval can find out about a new template: its name is Arabic and unused,
      and the repository stores the version. */
  predicate NewVersionAdmissible(lib: Library, current: Option<Schema>, schemaName: string, repo: Repository) {
    && (current.None? ==> ArabicText(lib, Trim(schemaName)) && repo.nameTaken(Trim(schemaName)) == Some(false))
    && repo.nextVersion(TemplateName(current, schemaName)).Some? && repo.createId.Some?
  }

  /** Preflight implies approval: after a passed validation and preflight, approval refuses
      only over an untrimmed stored label or an inadmissible new version. */
  lemma PreflightImpliesApproval(lib: Library, current: Option<Schema>, schemaName: string, specs: seq<Spec>, repo: Repository)
    requires ArabicIsVisible(lib) && Validated(lib, specs) && PreflightOk(lib, current, schemaName, specs)
    ensures Approvable(lib, current, schemaName, specs, repo) <==>
      && HitsTrimmed(DefinitionsOf(current), specs)
      && (HasNew(DefinitionsOf(current), specs) ==> NewVersionAdmissible(lib, current, schemaName, repo))
  {
    SpecsAgreement(lib, DefinitionsOf(current), specs);
  }

  /** A stored label with a blank at its end: preflight passes, approval always refuses. */
  lemma UntrimmedLabelRefused(lib: Library, repo: Repository)
    returns (current: Option<Schema>, specs: seq<Spec>)
    requires lib.isArabic('م') && lib.aiRulesOk("text", map[])
    ensures Validated(lib, specs) && PreflightOk(lib, current, "", specs)
    ensures !Approvable(lib, current, "", specs, repo)
  {
    var stored := Definition("size", "م ", "text", false, "{}");
    var spec := Spec("size", "م", "text", None);
    current, specs := Some(Schema("s", "t", 1, [stored])), [spec];
    assert spec.label_[0] == 'م' && HasArabic(lib, spec.label_);
    assert TrimRight("م ") == TrimRight("م") == "م" by { assert "م "[..1] == "م"; }
    assert Init(specs) == [] && Last(specs) == spec;
    assert AliasOk(spec.key) && Trim(spec.label_) == "م" && !HasControl(spec.label_);
    assert SpecValid(lib, spec) && SpecsValid(lib, []) && SpecsPreflight(lib, [stored], []);
    assert Find([stored], spec.key) == Some(stored);
    assert Objection(lib, [stored], {}, {}, spec).None?;
    assert !HasNew([stored], []) && !HasNew([stored], specs);
  }

  // ---------------------------------------------------------------- the bindings

  /** Aliases that reuse a stored definition are bound at approval as they were in preflight. */
  lemma {:induction false} BindingsAgree(lib: Library, ds: seq<Definition>, specs: seq<Spec>, keys: map<string, string>, minted: seq<Definition>)
    requires Resolution(lib, ds, specs, keys, minted)
    ensures keys.Keys == AliasSet(specs)
    ensures forall a :: a in AliasMap(ds, specs) ==> a in keys && keys[a] == AliasMap(ds, specs)[a]
    ensures forall a :: a in keys && a !in AliasMap(ds, specs) ==> Reserved(keys[a]) && Find(ds, keys[a]).None?
  {
    if specs != [] {
      var s := Last(specs);
      var rest := if Existing(ds, s).None? && NewWithLabel(ds, Init(specs), Trim(s.label_)).None? then minted[..|minted| - 1] else minted;
      BindingsAgree(lib, ds, Init(specs), keys - {s.key}, rest);
      if Existing(ds, s).None? {
        if NewWithLabel(ds, Init(specs), Trim(s.label_)).Some? {
          NewNotAliased(lib, ds, Init(specs), keys - {s.key}, rest, Trim(s.label_));
        } else {
          FindSplit(ds, rest, keys[s.key]);
        }
      }
    }
  }

  /** The alias of a spec that introduces a definition reuses no stored key. */
  lemma {:induction false} NewNotAliased(lib: Library, ds: seq<Definition>, specs: seq<Spec>, keys: map<string, string>, minted: seq<Definition>, words: string)
    requires Resolution(lib, ds, specs, keys, minted) && NewWithLabel(ds, specs, words).Some?
    ensures NewWithLabel(ds, specs, words).value.key in AliasSet(specs)
    ensures NewWithLabel(ds, specs, words).value.key !in AliasMap(ds, specs)
  {
    var s := Last(specs);
    var rest := if Existing(ds, s).None? && NewWithLabel(ds, Init(specs), Trim(s.label_)).None? then minted[..|minted| - 1] else minted;
    AliasMapIn(ds, Init(specs));
    if NewWithLabel(ds, Init(specs), words).Some? {
      NewNotAliased(lib, ds, Init(specs), keys - {s.key}, rest, words);
    }
  }

  lemma {:induction false} AliasMapIn(ds: seq<Definition>, specs: seq<Spec>)
    ensures AliasMap(ds, specs).Keys <= AliasSet(specs)
  {
    if specs != [] { AliasMapIn(ds, Init(specs)); }
  }

  lemma {:induction false} FindSplit(ds: seq<Definition>, more: seq<Definition>, key: string)
    ensures Find(ds + more, key) == if Find(more, key).Some? then Find(more, key) else Find(ds, key)
  {
    if more == [] {
      assert ds + more == ds;
    } else {
      FindSplit(ds, more[..|more| - 1], key);
      assert (ds + more)[..|ds + more| - 1] == ds + more[..|more| - 1];
    }
  }

  // ---------------------------------------------------------------- the alias map

  /** An alias that is a stored key is bound to itself. */
  lemma {:induction false} StoredAliasFixed(ds: seq<Definition>, specs: seq<Spec>, a: string)
    requires a in AliasSet(specs) && Find(ds, a).Some?
    ensures a in AliasMap(ds, specs) && AliasMap(ds, specs)[a] == a
  {
    FindIn(ds, a);
    if Last(specs).key != a { StoredAliasFixed(ds, Init(specs), a); }
  }

  lemma {:induction false} BoundToStored(ds: seq<Definition>, specs: seq<Spec>, a: string)
    requires a in AliasMap(ds, specs)
    ensures Find(ds, AliasMap(ds, specs)[a]).Some?
  {
    var s := Last(specs);
    FindIn(ds, s.key);
    if FindLabel(ds, Trim(s.label_)).Some? { FindLabelIn(ds, Trim(s.label_)); }
    if s.key != a || Existing(ds, s).None? { BoundToStored(ds, Init(specs), a); }
  }

  lemma {:induction false} FindLabelIn(ds: seq<Definition>, words: string)
    requires FindLabel(ds, words).Some?
    ensures Find(ds, FindLabel(ds, words).value.key).Some?
  {
    if Trim(ds[|ds| - 1].label_) != words { FindLabelIn(ds[..|ds| - 1], words); }
  }

  lemma {:induction false} AliasesFree(lib: Library, ds: seq<Definition>, specs: seq<Spec>, a: string)
    requires SpecsApproved(lib, ds, specs) && a in AliasSet(specs)
    ensures !Reserved(a)
  {
    if Last(specs).key != a { AliasesFree(lib, ds, Init(specs), a); }
  }

  /** The alias map is idempotent: renaming twice renames no further. */
  lemma AliasMapIdempotent(lib: Library, ds: seq<Definition>, specs: seq<Spec>, keys: map<string, string>, minted: seq<Definition>)
    requires SpecsApproved(lib, ds, specs) && Resolution(lib, ds, specs, keys, minted)
    ensures Idempotent(keys)
  {
    BindingsAgree(lib, ds, specs, keys, minted);
    forall key | key in keys ensures Fixed(keys, keys[key]) {
      if keys[key] in keys {
        AliasesFree(lib, ds, specs, keys[key]);
        BoundToStored(ds, specs, key);
        StoredAliasFixed(ds, specs, keys[key]);
      }
    }
  }

  /** When every spec reuses a stored definition, approval renames with the very map the
      preflight used and leaves the schema as it is. */
  lemma {:induction false} ReuseAgreement(lib: Library, ds: seq<Definition>, specs: seq<Spec>, keys: map<string, string>, minted: seq<Definition>)
    requires Resolution(lib, ds, specs, keys, minted) && !HasNew(ds, specs)
    ensures keys == AliasMap(ds, specs) && minted == []
  {
    if specs != [] {
      var s := Last(specs);
      ReuseAgreement(lib, ds, Init(specs), keys - {s.key}, minted);
      assert keys == (keys - {s.key})[s.key := keys[s.key]];
    }
  }

  // ---------------------------------------------------------------- conservative extension

  /** Definitions appended to a schema at approval: reserved fresh keys, optional, valid. */
  predicate Extends(lib: Library, ds: seq<Definition>, minted: seq<Definition>) {
    minted == []
    || (var init, last := minted[..|minted| - 1], minted[|minted| - 1];
        && Extends(lib, ds, init) && Reserved(last.key) && !last.required
        && Find(ds + init, last.key).None? && DefinitionOk(lib, last))
  }

  lemma MintedValid(lib: Library, s: Spec, key: string)
    requires Sound(lib) && lib.aiRulesOk(s.dataType, RulesOf(s)) && Reserved(key)
    ensures DefinitionOk(lib, NewDefinition(lib, s, key))
  {
    TrimKeepsPrefix("attr_", key);
  }

  lemma {:induction false} ResolutionExtends(lib: Library, ds: seq<Definition>, specs: seq<Spec>, keys: map<string, string>, minted: seq<Definition>)
    requires Sound(lib) && SpecsApproved(lib, ds, specs) && Resolution(lib, ds, specs, keys, minted)
    ensures Extends(lib, ds, minted)
  {
    if specs != [] {
      var s := Last(specs);
      if Existing(ds, s).None? && NewWithLabel(ds, Init(specs), Trim(s.label_)).None? {
        ResolutionExtends(lib, ds, Init(specs), keys - {s.key}, minted[..|minted| - 1]);
        MintedValid(lib, s, keys[s.key]);
      } else {
        ResolutionExtends(lib, ds, Init(specs), keys - {s.key}, minted);
      }
    }
  }

  /** Adding one reserved, fresh, optional definition. */
  lemma ExtendOne(lib: Library, ds: seq<Definition>, d: Definition, attrs: Attributes)
    requires Reserved(d.key) && !d.required && Find(ds, d.key).None?
    ensures EntriesOk(lib, ds, attrs) ==> EntriesOk(lib, ds + [d], attrs)
    ensures d.key !in attrs && EntriesOk(lib, ds + [d], attrs) ==> EntriesOk(lib, ds, attrs)
    ensures RequiredOk(ds, attrs) <==> RequiredOk(ds + [d], attrs)
  {
    forall k | k in attrs && (k == d.key ==> EntryOk(lib, ds, k, attrs[k]))
      ensures EntryOk(lib, ds, k, attrs[k]) <==> EntryOk(lib, ds + [d], k, attrs[k])
    {
      FindAppended(ds, d, k);
      if k == d.key { TrimKeepsPrefix("attr_", k); }
    }
    forall i | 0 <= i < |ds| ensures (ds + [d])[i] == ds[i] {}
    assert RequiredOk(ds + [d], attrs) ==> forall i :: 0 <= i < |ds| ==> Supplied((ds + [d])[i], attrs);
  }

  lemma {:induction false} Extended(lib: Library, ds: seq<Definition>, minted: seq<Definition>, attrs: Attributes)
    requires Extends(lib, ds, minted)
    ensures SchemaOk(lib, ds + minted) <==> SchemaOk(lib, ds)
    ensures EntriesOk(lib, ds, attrs) ==> EntriesOk(lib, ds + minted, attrs)
    ensures (forall i :: 0 <= i < |minted| ==> minted[i].key !in attrs) && EntriesOk(lib, ds + minted, attrs) ==> EntriesOk(lib, ds, attrs)
    ensures RequiredOk(ds, attrs) <==> RequiredOk(ds + minted, attrs)
  {
    if minted == [] {
      assert ds + minted == ds;
    } else {
      var init, last := minted[..|minted| - 1], minted[|minted| - 1];
      Extended(lib, ds, init, attrs);
      ExtendOne(lib, ds + init, last, attrs);
      assert ds + minted == (ds + init) + [last];
      assert (ds + minted)[..|ds + minted| - 1] == ds + init;
      assert (forall i :: 0 <= i < |minted| ==> minted[i].key !in attrs) ==> forall i :: 0 <= i < |init| ==> init[i].key !in attrs;
    }
  }

  /** Conservative extension: what was valid under the old schema, or under none, stays valid
      under the version minted at approval, and conversely for maps without a new key. */
  lemma ConservativeExtension(
      lib: Library, current: Option<Schema>, schemaName: string, specs: seq<Spec>, repo: Repository,
      keys: map<string, string>, minted: seq<Definition>, after: Option<Schema>, attrs: Attributes, enforceRequired: bool)
    requires Sound(lib) && SpecsApproved(lib, DefinitionsOf(current), specs)
    requires Resolution(lib, DefinitionsOf(current), specs, keys, minted) && SchemaAfter(current, schemaName, repo, minted, after)
    ensures AttributesOk(lib, current, attrs, enforceRequired) ==> AttributesOk(lib, after, attrs, enforceRequired)
    ensures (forall i :: 0 <= i < |minted| ==> minted[i].key !in attrs) ==>
      (AttributesOk(lib, after, attrs, enforceRequired) <==> AttributesOk(lib, current, attrs, enforceRequired))
  {
    ResolutionExtends(lib, DefinitionsOf(current), specs, keys, minted);
    Extended(lib, DefinitionsOf(current), minted, attrs);
  }
}
