/** Which proposed definitions pass the preflight and the approval, spec by spec, from the
    fields of the stored definitions and the JSON codec of their rules. */
module DefinitionLaws {
  import opened Text
  import opened CatalogAttributes
  import opened AttributeDefinitions

  // ---------------------------------------------------------------- the form of a key

  /** The automaton of ^[a-z][a-z0-9]*(_[a-z0-9]+)*$: before the first letter, inside a word,
      behind an underscore, or failed. */
  datatype Reading = Begin | Word | Gap | Fail

  function Read(r: Reading, c: char): Reading {
    if r.Begin? then (if 'a' <= c <= 'z' then Word else Fail)
    else if r.Fail? then Fail
    else if 'a' <= c <= 'z' || '0' <= c <= '9' then Word
    else if c == '_' && r.Word? then Gap
    else Fail
  }

  function ReadAll(s: string): Reading {
    if s == "" then Begin else Read(ReadAll(s[..|s| - 1]), s[|s| - 1])
  }

  /** The key pattern accepts what the automaton accepts. */
  lemma {:induction false} PatternIs(s: string)
    ensures KeyPattern(s) <==> ReadAll(s).Word?
    ensures ReadAll(s).Gap? <==> |s| >= 2 && s[|s| - 1] == '_' && KeyPattern(s[..|s| - 1])
  {
    if s != "" {
      var init := s[..|s| - 1];
      PatternIs(init);
      assert forall i :: 0 <= i < |init| ==> init[i] == s[i];
      if ReadAll(init).Gap? { assert init[..|init| - 1] == s[..|s| - 2]; PatternAfterGap(s); }
      if KeyPattern(s) && |s| >= 2 { PatternBefore(s); }
    }
  }

  lemma PatternAfterGap(s: string)
    requires |s| >= 3 && s[|s| - 2] == '_' && KeyPattern(s[..|s| - 2])
    ensures KeyPattern(s) <==> 'a' <= s[|s| - 1] <= 'z' || '0' <= s[|s| - 1] <= '9'
  {
    var w := s[..|s| - 2];
    assert forall i :: 0 <= i < |w| ==> w[i] == s[i];
    assert w[|w| - 1] == s[|s| - 3] != '_';
  }

  /** Without its last character an accepted key ends in a word or behind an underscore. */
  lemma PatternBefore(s: string)
    requires KeyPattern(s) && |s| >= 2
    ensures var init := s[..|s| - 1]; KeyPattern(init) || (|init| >= 2 && init[|init| - 1] == '_' && KeyPattern(init[..|init| - 1]))
  {
    var init := s[..|s| - 1];
    assert forall i :: 0 <= i < |init| ==> init[i] == s[i];
    if init[|init| - 1] == '_' {
      var w := init[..|init| - 1];
      assert |init| >= 2 && forall i :: 0 <= i < |w| ==> w[i] == s[i];
      assert s[|w| - 1] != '_';
    }
  }

  // ---------------------------------------------------------------- the stored definition a spec meets

  ghost predicate LastKeyed(ds: seq<Definition>, key: string, k: int) {
    0 <= k < |ds| && ds[k].key == key && forall j :: k < j < |ds| ==> ds[j].key != key
  }

  ghost predicate LastLabelled(ds: seq<Definition>, words: string, k: int) {
    0 <= k < |ds| && Trim(ds[k].label_) == words && forall j :: k < j < |ds| ==> Trim(ds[j].label_) != words
  }

  /** Definition k is the one the spec names: by its key or, when no key is the spec's alias,
      by its trimmed label; the last one counts. */
  ghost predicate Meets(ds: seq<Definition>, s: Spec, k: int) {
    || LastKeyed(ds, s.key, k)
    || ((forall j :: 0 <= j < |ds| ==> ds[j].key != s.key) && LastLabelled(ds, Trim(s.label_), k))
  }

  ghost predicate IsNew(ds: seq<Definition>, s: Spec) { forall k :: !Meets(ds, s, k) }

  lemma {:induction false} FindIs(ds: seq<Definition>, key: string)
    ensures Find(ds, key).None? <==> forall j :: 0 <= j < |ds| ==> ds[j].key != key
    ensures Find(ds, key).Some? <==> exists k :: LastKeyed(ds, key, k)
    ensures forall k :: LastKeyed(ds, key, k) ==> Find(ds, key) == Some(ds[k])
  {
    if ds != [] {
      var init, n := ds[..|ds| - 1], |ds| - 1;
      FindIs(init, key);
      if ds[n].key == key {
        assert LastKeyed(ds, key, n);
      } else {
        forall k ensures LastKeyed(ds, key, k) <==> LastKeyed(init, key, k) {}
      }
    }
  }

  lemma {:induction false} FindLabelIs(ds: seq<Definition>, words: string)
    ensures FindLabel(ds, words).Some? <==> exists k :: LastLabelled(ds, words, k)
    ensures forall k :: LastLabelled(ds, words, k) ==> FindLabel(ds, words) == Some(ds[k])
  {
    if ds != [] {
      var init, n := ds[..|ds| - 1], |ds| - 1;
      FindLabelIs(init, words);
      if Trim(ds[n].label_) == words {
        assert LastLabelled(ds, words, n);
      } else {
        forall k ensures LastLabelled(ds, words, k) <==> LastLabelled(init, words, k) {}
      }
    }
  }

  lemma MeetsIs(ds: seq<Definition>, s: Spec)
    ensures Existing(ds, s).None? <==> IsNew(ds, s)
    ensures forall k :: Meets(ds, s, k) ==> Existing(ds, s) == Some(ds[k]) && (Find(ds, s.key).Some? <==> ds[k].key == s.key)
  {
    FindIs(ds, s.key);
    FindLabelIs(ds, Trim(s.label_));
    if Find(ds, s.key).Some? {
      var k :| LastKeyed(ds, s.key, k);
      assert Meets(ds, s, k);
    } else if FindLabel(ds, Trim(s.label_)).Some? {
      var k :| LastLabelled(ds, Trim(s.label_), k);
      assert Meets(ds, s, k);
    }
  }

  // ---------------------------------------------------------------- one spec

  /** The stored rules, none reading as the empty set, decode and encode to the proposed text;
      proposing no rules is no conflict. */
  predicate SameRules(lib: Library, stored: string, proposed: Rules) {
    proposed == map[]
    || (if stored == "" then lib.encodeRules(map[]) == lib.encodeRules(proposed)
        else lib.decodeRules(stored).Some? && lib.encodeRules(lib.decodeRules(stored).value) == lib.encodeRules(proposed))
  }

  predicate AliasForm(key: string) { KeyPattern(key) && !("attr_" <= key) }

  /** Spec i passes the preflight. */
  ghost predicate Passes(lib: Library, ds: seq<Definition>, specs: seq<Spec>, i: nat)
    requires i < |specs|
  {
    var s := specs[i];
    && AliasForm(s.key) && Trim(s.label_) != "" && lib.aiRulesOk(s.dataType, RulesOf(s))
    && (forall j :: 0 <= j < i ==> specs[j].key != s.key && Trim(specs[j].label_) != Trim(s.label_))
    && Unopposed(lib, ds, s, false)
  }

  /** Spec j introduces the definition for these words. */
  ghost predicate Introduces(ds: seq<Definition>, specs: seq<Spec>, words: string, j: int) {
    && 0 <= j < |specs| && IsNew(ds, specs[j]) && Trim(specs[j].label_) == words
    && forall i :: 0 <= i < j ==> !(IsNew(ds, specs[i]) && Trim(specs[i].label_) == words)
  }

  /** Spec i is approved. */
  ghost predicate IsApproved(lib: Library, ds: seq<Definition>, specs: seq<Spec>, i: nat)
    requires i < |specs|
  {
    var s, words := specs[i], Trim(specs[i].label_);
    && AliasForm(s.key) && words != "" && ArabicText(lib, words) && lib.aiRulesOk(s.dataType, RulesOf(s))
    && (forall j :: 0 <= j < i ==> specs[j].key != s.key)
    && Unopposed(lib, ds, s, true)
    && (IsNew(ds, s) ==> Undisputed(lib, ds, specs[..i], s))
  }

  /** A definition introduced by an earlier spec has the same type, and stands without rules. */
  ghost predicate Undisputed(lib: Library, ds: seq<Definition>, before: seq<Spec>, s: Spec) {
    forall j :: Introduces(ds, before, Trim(s.label_), j) ==> before[j].dataType == s.dataType && SameRules(lib, "", RulesOf(s))
  }

  lemma {:induction false} SetsAre(specs: seq<Spec>)
    ensures forall x :: x in AliasSet(specs) <==> exists j :: 0 <= j < |specs| && specs[j].key == x
    ensures forall x :: x in LabelSet(specs) <==> exists j :: 0 <= j < |specs| && Trim(specs[j].label_) == x
  {
    if specs != [] {
      SetsAre(Init(specs));
      assert forall j :: 0 <= j < |specs| - 1 ==> Init(specs)[j] == specs[j];
      InSets(specs, |specs| - 1);
      forall j | 0 <= j < |specs| ensures specs[j].key in AliasSet(specs) && Trim(specs[j].label_) in LabelSet(specs) { InSets(specs, j); }
    }
  }

  /** Nothing stored speaks against the spec; at approval a stored label counts as it is. */
  ghost predicate Unopposed(lib: Library, ds: seq<Definition>, s: Spec, approval: bool) {
    forall k :: Meets(ds, s, k) ==> Agrees(lib, ds[k], s, approval)
  }

  predicate Agrees(lib: Library, d: Definition, s: Spec, approval: bool) {
    && d.dataType == s.dataType && (d.key == s.key ==> (if approval then d.label_ else Trim(d.label_)) == Trim(s.label_))
    && SameRules(lib, d.rules, RulesOf(s))
  }

  lemma UnopposedIs(lib: Library, ds: seq<Definition>, s: Spec, approval: bool)
    ensures Unopposed(lib, ds, s, approval) <==>
      (match Find(ds, s.key)
       case Some(d) => (if approval then d.label_ else Trim(d.label_)) == Trim(s.label_) && d.dataType == s.dataType && RulesCompatible(lib, d.rules, RulesOf(s))
       case None =>
         match FindLabel(ds, Trim(s.label_))
         case Some(d) => d.dataType == s.dataType && RulesCompatible(lib, d.rules, RulesOf(s))
         case None => true)
  {
    FindIs(ds, s.key);
    FindLabelIs(ds, Trim(s.label_));
    if k :| Meets(ds, s, k) {
      assert forall j :: Meets(ds, s, j) ==> j == k;
      assert Unopposed(lib, ds, s, approval) <==> Agrees(lib, ds[k], s, approval);
    }
  }

  lemma ObjectionIs(lib: Library, ds: seq<Definition>, specs: seq<Spec>, i: nat)
    requires i < |specs|
    ensures Objection(lib, ds, AliasSet(specs[..i]), LabelSet(specs[..i]), specs[i]).None? <==> Passes(lib, ds, specs, i)
  {
    var s, before := specs[i], specs[..i];
    SetsAre(before);
    assert forall j :: 0 <= j < i ==> before[j] == specs[j];
    UnopposedIs(lib, ds, s, false);
  }

  lemma {:induction false} PreflightIs(lib: Library, ds: seq<Definition>, specs: seq<Spec>)
    ensures SpecsPreflight(lib, ds, specs) <==> forall i :: 0 <= i < |specs| ==> Passes(lib, ds, specs, i)
  {
    if specs != [] {
      var init, n := Init(specs), |specs| - 1;
      PreflightIs(lib, ds, init);
      forall i | 0 <= i < n ensures Passes(lib, ds, init, i) <==> Passes(lib, ds, specs, i) {
        assert forall j :: 0 <= j <= i ==> init[j] == specs[j];
      }
      ObjectionIs(lib, ds, specs, n);
      assert specs[..n] == init;
    }
  }

  lemma {:induction false} HasNewIs(ds: seq<Definition>, specs: seq<Spec>)
    ensures HasNew(ds, specs) <==> exists i :: 0 <= i < |specs| && IsNew(ds, specs[i])
  {
    if specs != [] {
      HasNewIs(ds, Init(specs));
      assert forall j :: 0 <= j < |specs| - 1 ==> Init(specs)[j] == specs[j];
      MeetsIs(ds, Last(specs));
    }
  }

  /** The preflight binds exactly when every spec passes and, if one is new, the template's
      name is given or agrees with that of the selected template. */
  lemma PreflightLaw(lib: Library, current: Option<Schema>, schemaName: string, specs: seq<Spec>)
    ensures var ds := DefinitionsOf(current);
      PreflightOk(lib, current, schemaName, specs)
      <==> && (forall i :: 0 <= i < |specs| ==> Passes(lib, ds, specs, i))
           && ((exists i :: 0 <= i < |specs| && IsNew(ds, specs[i])) ==>
                 if current.None? then Trim(schemaName) != "" else schemaName == "" || Trim(schemaName) == current.value.name)
  {
    PreflightIs(lib, DefinitionsOf(current), specs);
    HasNewIs(DefinitionsOf(current), specs);
  }

  // ---------------------------------------------------------------- approval

  lemma {:induction false} IntroducedIs(ds: seq<Definition>, specs: seq<Spec>, words: string)
    ensures NewWithLabel(ds, specs, words).Some? <==> exists j :: Introduces(ds, specs, words, j)
    ensures forall j :: Introduces(ds, specs, words, j) ==> NewWithLabel(ds, specs, words) == Some(specs[j])
  {
    if specs != [] {
      var init, n := Init(specs), |specs| - 1;
      IntroducedIs(ds, init, words);
      MeetsIs(ds, specs[n]);
      forall j | 0 <= j < n ensures Introduces(ds, init, words, j) <==> Introduces(ds, specs, words, j) {
        assert forall i :: 0 <= i <= j ==> init[i] == specs[i];
      }
      if NewWithLabel(ds, init, words).Some? {
        var j :| Introduces(ds, init, words, j);
        assert Introduces(ds, specs, words, j);
      } else {
        NoneIntroduces(ds, init, words, n);
        assert forall i :: 0 <= i < n ==> init[i] == specs[i];
        if Existing(ds, specs[n]).None? && Trim(specs[n].label_) == words { assert Introduces(ds, specs, words, n); }
      }
    }
  }

  lemma {:induction false} NoneIntroduces(ds: seq<Definition>, specs: seq<Spec>, words: string, n: nat)
    requires n <= |specs| && forall j :: !Introduces(ds, specs, words, j)
    ensures forall i :: 0 <= i < n ==> !(IsNew(ds, specs[i]) && Trim(specs[i].label_) == words)
  {
    if n > 0 {
      NoneIntroduces(ds, specs, words, n - 1);
      assert !Introduces(ds, specs, words, n - 1);
    }
  }

  lemma UndisputedIs(lib: Library, ds: seq<Definition>, before: seq<Spec>, s: Spec)
    ensures Undisputed(lib, ds, before, s) <==>
      (match NewWithLabel(ds, before, Trim(s.label_))
       case Some(first) => first.dataType == s.dataType && RulesCompatible(lib, "", RulesOf(s))
       case None => true)
  {
    IntroducedIs(ds, before, Trim(s.label_));
  }

  lemma ApprovedIs(lib: Library, ds: seq<Definition>, specs: seq<Spec>, i: nat)
    requires i < |specs|
    ensures SpecApproved(lib, ds, specs[..i], specs[i]) <==> IsApproved(lib, ds, specs, i)
  {
    var s, before := specs[i], specs[..i];
    SetsAre(before);
    assert forall j :: 0 <= j < i ==> before[j] == specs[j];
    MeetsIs(ds, s);
    UnopposedIs(lib, ds, s, true);
    UndisputedIs(lib, ds, before, s);
  }

  ghost predicate FirstApproved(lib: Library, ds: seq<Definition>, specs: seq<Spec>, n: nat)
    requires n <= |specs|
  {
    forall i :: 0 <= i < n ==> IsApproved(lib, ds, specs, i)
  }

  lemma FirstNext(lib: Library, ds: seq<Definition>, specs: seq<Spec>, n: nat)
    requires n < |specs|
    ensures FirstApproved(lib, ds, specs, n + 1) <==> FirstApproved(lib, ds, specs, n) && SpecApproved(lib, ds, specs[..n], specs[n])
  {
    ApprovedIs(lib, ds, specs, n);
    assert FirstApproved(lib, ds, specs, n + 1) ==> IsApproved(lib, ds, specs, n);
  }

  lemma {:induction false} ApprovalIs(lib: Library, ds: seq<Definition>, specs: seq<Spec>, n: nat)
    requires n <= |specs|
    ensures SpecsApproved(lib, ds, specs[..n]) <==> FirstApproved(lib, ds, specs, n)
  {
    if n > 0 {
      ApprovalIs(lib, ds, specs, n - 1);
      ApprovedNext(lib, ds, specs, n - 1);
      FirstNext(lib, ds, specs, n - 1);
    }
  }

  /** Approval resolves exactly when there are at most a hundred specs, each is approved and, if
      one is new, the version can be created: under the selected template's name, or under a
      new Arabic name that no template bears. */
  lemma ApprovalLaw(lib: Library, current: Option<Schema>, schemaName: string, specs: seq<Spec>, repo: Repository)
    ensures var ds, name := DefinitionsOf(current), Trim(schemaName);
      Approvable(lib, current, schemaName, specs, repo)
      <==> && |specs| <= 100 && (forall i :: 0 <= i < |specs| ==> IsApproved(lib, ds, specs, i))
           && ((exists i :: 0 <= i < |specs| && IsNew(ds, specs[i])) ==>
                 && (if current.Some? then name == "" || name == current.value.name
                     else name != "" && ArabicText(lib, name) && repo.nameTaken(name) == Some(false))
                 && repo.nextVersion(if current.Some? then current.value.name else name).Some? && repo.createId.Some?)
  {
    assert specs[..|specs|] == specs;
    ApprovalIs(lib, DefinitionsOf(current), specs, |specs|);
    HasNewIs(DefinitionsOf(current), specs);
  }

  // ---------------------------------------------------------------- bindings

  /** An alias is bound to the key of the definition its spec meets, and to none if it meets
      none. */
  lemma {:induction false} BindingLaw(ds: seq<Definition>, specs: seq<Spec>, i: nat)
    requires i < |specs| && forall a, b :: 0 <= a < b < |specs| ==> specs[a].key != specs[b].key
    ensures specs[i].key in AliasMap(ds, specs) <==> !IsNew(ds, specs[i])
    ensures forall k :: Meets(ds, specs[i], k) ==> specs[i].key in AliasMap(ds, specs) && AliasMap(ds, specs)[specs[i].key] == ds[k].key
  {
    var init, n := Init(specs), |specs| - 1;
    MeetsIs(ds, specs[i]);
    assert forall j :: 0 <= j < n ==> init[j] == specs[j];
    if i < n { BindingLaw(ds, init, i); } else { NotBoundBefore(ds, init, specs[n].key); }
  }

  lemma {:induction false} NotBoundBefore(ds: seq<Definition>, specs: seq<Spec>, key: string)
    requires forall j :: 0 <= j < |specs| ==> specs[j].key != key
    ensures key !in AliasMap(ds, specs)
  {
    if specs != [] { NotBoundBefore(ds, Init(specs), key); }
  }

  // ---------------------------------------------------------------- conflicting rules

  /** Rules other than the stored ones are refused, in preflight and at approval. */
  lemma RulesConflictRefused(lib: Library, repo: Repository, schemaName: string) returns (current: Option<Schema>, specs: seq<Spec>)
    requires lib.decodeRules("{\"max\":10}") == Some(map["max" := Number("10")])
    requires lib.encodeRules(map["max" := Number("10")]) != lib.encodeRules(map["max" := Number("100")])
    ensures current == Some(Schema("s", "t", 1, [Definition("size", "م", "number", false, "{\"max\":10}")]))
    ensures specs == [Spec("size", "م", "number", Some(map["max" := Number("100")]))]
    ensures !PreflightOk(lib, current, schemaName, specs) && !Approvable(lib, current, schemaName, specs, repo)
  {
    var d := Definition("size", "م", "number", false, "{\"max\":10}");
    var s := Spec("size", "م", "number", Some(map["max" := Number("100")]));
    current, specs := Some(Schema("s", "t", 1, [d])), [s];
    assert LastKeyed([d], "size", 0) && Meets([d], s, 0);
    assert "max" in RulesOf(s);
    assert !SameRules(lib, d.rules, RulesOf(s)) && !Agrees(lib, d, s, false) && !Agrees(lib, d, s, true);
    assert !Passes(lib, [d], specs, 0) && !IsApproved(lib, [d], specs, 0);
    PreflightLaw(lib, current, schemaName, specs);
    ApprovalLaw(lib, current, schemaName, specs, repo);
  }
}
