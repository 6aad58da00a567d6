/** Renaming the aliases of a proposal to stored attribute keys, and merging changes. */
module KeyRenaming {
  import opened Text
  import opened CatalogAttributes

  function Target(keys: map<string, string>, key: string): string {
    if key in keys then keys[key] else key
  }

  predicate Fixed(keys: map<string, string>, key: string) { Target(keys, key) == key }

  /** Renaming twice renames no further. */
  ghost predicate Idempotent(keys: map<string, string>) {
    forall k :: k in keys ==> Fixed(keys, keys[k])
  }

  /** Some name is renamed to this target. */
  ghost predicate Hit(keys: map<string, string>, names: set<string>, target: string) {
    exists k :: k in names && Target(keys, k) == target
  }

  /** No other name is renamed to the target of this one. */
  ghost predicate Alone(keys: map<string, string>, names: set<string>, key: string) {
    forall k :: k in names && Target(keys, k) == Target(keys, key) ==> k == key
  }

  /** Different names have different targets. */
  ghost predicate Injective(keys: map<string, string>, names: set<string>) {
    forall key :: key in names ==> Alone(keys, names, key)
  }

  /** `out` holds the value of this name under its target. */
  ghost predicate Carried(keys: map<string, string>, attrs: Attributes, out: Attributes, key: string)
    requires key in attrs
  {
    Target(keys, key) in out && out[Target(keys, key)] == attrs[key]
  }

  /** `out` is `attrs` under its new names, with nothing lost and nothing added. */
  ghost predicate Renames(keys: map<string, string>, attrs: Attributes, out: Attributes) {
    && (forall k :: k in attrs ==> Carried(keys, attrs, out, k))
    && (forall t :: t in out ==> Hit(keys, attrs.Keys, t))
  }

  lemma RenamesOnce(keys: map<string, string>, attrs: Attributes, a: Attributes, b: Attributes)
    requires Renames(keys, attrs, a) && Renames(keys, attrs, b)
    ensures a == b
  {
    forall t | t in a ensures t in b && a[t] == b[t] {
      var k :| k in attrs.Keys && Target(keys, k) == t;
      assert Carried(keys, attrs, a, k) && Carried(keys, attrs, b, k);
    }
    forall t | t in b ensures t in a {
      var k :| k in attrs.Keys && Target(keys, k) == t;
      assert Carried(keys, attrs, a, k);
    }
  }

  datatype Remapping = Mapped(attrs: Option<Attributes>) | Collision(at: string)

  lemma RenamesStep(keys: map<string, string>, attrs: Attributes, out: Attributes, key: string, v: Value)
    requires Renames(keys, attrs, out) && key !in attrs && Target(keys, key) !in out
    ensures Renames(keys, attrs[key := v], out[Target(keys, key) := v])
  {
    var attrs', out' := attrs[key := v], out[Target(keys, key) := v];
    forall k | k in attrs' ensures Carried(keys, attrs', out', k) {
      if k != key { assert Carried(keys, attrs, out, k); }
    }
    forall t | t in out' ensures Hit(keys, attrs'.Keys, t) {
      if t == Target(keys, key) {
        assert key in attrs'.Keys;
      } else {
        var k :| k in attrs.Keys && Target(keys, k) == t;
        assert k in attrs'.Keys;
      }
    }
  }

  lemma InjectiveStep(keys: map<string, string>, attrs: Attributes, out: Attributes, key: string)
    requires Renames(keys, attrs, out) && Injective(keys, attrs.Keys) && Target(keys, key) !in out
    ensures Injective(keys, attrs.Keys + {key})
  {
    forall k | k in attrs ensures Target(keys, k) != Target(keys, key) {
      assert Carried(keys, attrs, out, k);
    }
    forall k | k in attrs.Keys + {key} ensures Alone(keys, attrs.Keys + {key}, k) {
      if k != key { assert Alone(keys, attrs.Keys, k); }
    }
  }

  lemma CollisionFound(keys: map<string, string>, attrs: Attributes, done: Attributes, out: Attributes, key: string)
    requires Renames(keys, done, out) && done.Keys <= attrs.Keys && key in attrs && key !in done && Target(keys, key) in out
    ensures !Injective(keys, attrs.Keys)
  {
    var k :| k in done.Keys && Target(keys, k) == Target(keys, key);
    assert !Alone(keys, attrs.Keys, key);
  }

  /** The entries already visited are renamed, without a collision. */
  ghost predicate Visited(keys: map<string, string>, done: Attributes, out: Attributes) {
    Renames(keys, done, out) && Injective(keys, done.Keys) && |out| == |done|
  }

  lemma VisitedStep(keys: map<string, string>, done: Attributes, out: Attributes, key: string, v: Value)
    requires Visited(keys, done, out) && key !in done && Target(keys, key) !in out
    ensures Visited(keys, done[key := v], out[Target(keys, key) := v])
  {
    RenamesStep(keys, done, out, key, v);
    InjectiveStep(keys, done, out, key);
    assert done[key := v].Keys == done.Keys + {key};
  }

  /** The part of a map without some keys, as the keys are taken out one by one. */
  lemma Remaining(attrs: Attributes, rest: set<string>, key: string)
    requires key in rest && rest <= attrs.Keys
    ensures attrs - (rest - {key}) == (attrs - rest)[key := attrs[key]] && key !in attrs - rest
  {
  }

  lemma NoneAndAll(attrs: Attributes)
    ensures attrs - attrs.Keys == map[] && attrs - {} == attrs
  {
  }

  /** remapApprovedAttributes, for every order in which the input is visited: it succeeds
      exactly when the renaming is injective on the input, and keeps size and values. */
  method Remap(input: Option<Attributes>, keys: map<string, string>) returns (r: Remapping)
    ensures r.Mapped? <==> input.None? || Injective(keys, input.value.Keys)
    ensures r.Mapped? ==> (r.attrs.None? <==> input.None?)
    ensures r.Mapped? && input.Some? ==> Renames(keys, input.value, r.attrs.value) && |r.attrs.value| == |input.value|
  {
    if input.None? { return Mapped(None); }
    var attrs, out: Attributes := input.value, map[];
    var rest := attrs.Keys;
    NoneAndAll(attrs);
    while rest != {}
      invariant rest <= attrs.Keys && Visited(keys, attrs - rest, out)
      decreases rest
    {
      var key :| key in rest;
      var target := Target(keys, key);
      if target in out {
        CollisionFound(keys, attrs, attrs - rest, out, key);
        return Collision(target);
      }
      Remaining(attrs, rest, key);
      VisitedStep(keys, attrs - rest, out, key, attrs[key]);
      out, rest := out[target := attrs[key]], rest - {key};
    }
    return Mapped(Some(out));
  }

  // ---------------------------------------------------------------- merging

  /** mergeAttributes on decoded maps: no changes give nothing to write. */
  function Merge(was: Attributes, changes: Option<Attributes>): Option<Attributes> {
    if changes.None? then None else Some(was + changes.value)
  }

  /** An old attribute meets a renamed change only under its final name. */
  ghost predicate Compatible(keys: map<string, string>, was: set<string>, changes: set<string>) {
    forall k :: k in was && Hit(keys, changes, Target(keys, k)) ==> Fixed(keys, k)
  }

  lemma RenamedFixed(keys: map<string, string>, changes: Attributes, new_: Attributes, t: string)
    requires Idempotent(keys) && Renames(keys, changes, new_) && t in new_
    ensures Target(keys, t) == t
  {
    var c :| c in changes.Keys && Target(keys, c) == t;
    if c in keys { assert Fixed(keys, keys[c]); }
  }

  lemma HitIff(keys: map<string, string>, changes: Attributes, new_: Attributes, t: string)
    requires Renames(keys, changes, new_)
    ensures t in new_ <==> Hit(keys, changes.Keys, t)
  {
    if Hit(keys, changes.Keys, t) {
      var c :| c in changes.Keys && Target(keys, c) == t;
      assert Carried(keys, changes, new_, c);
    }
  }

  /** When the second renaming, on the merged attributes, meets no collision. */
  lemma {:induction false} MergedInjective(keys: map<string, string>, was: Attributes, changes: Attributes, new_: Attributes)
    requires Idempotent(keys) && Renames(keys, changes, new_)
    ensures Injective(keys, (was + new_).Keys) <==> Injective(keys, was.Keys) && Compatible(keys, was.Keys, changes.Keys)
  {
    var both := (was + new_).Keys;
    if Injective(keys, both) {
      forall k | k in was.Keys ensures Alone(keys, was.Keys, k) { assert Alone(keys, both, k); }
      forall k | k in was.Keys && Hit(keys, changes.Keys, Target(keys, k)) ensures Fixed(keys, k) {
        HitIff(keys, changes, new_, Target(keys, k));
        RenamedFixed(keys, changes, new_, Target(keys, k));
        assert Alone(keys, both, k);
      }
    }
    if Injective(keys, was.Keys) && Compatible(keys, was.Keys, changes.Keys) {
      forall k, k' | k in both && k' in both && Target(keys, k) == Target(keys, k') ensures k == k' {
        OneName(keys, was, changes, new_, k, Target(keys, k));
        OneName(keys, was, changes, new_, k', Target(keys, k));
        if k in was && k' in was { assert Alone(keys, was.Keys, k); }
      }
      assert forall k :: k in both ==> Alone(keys, both, k);
    }
  }

  /** In the merged map, a name with a changed target is that target. */
  lemma OneName(keys: map<string, string>, was: Attributes, changes: Attributes, new_: Attributes, k: string, t: string)
    requires Idempotent(keys) && Renames(keys, changes, new_) && Compatible(keys, was.Keys, changes.Keys)
    requires k in was + new_ && Target(keys, k) == t
    ensures (k in new_ || t in new_) ==> k == t
  {
    if k in new_ {
      RenamedFixed(keys, changes, new_, k);
    } else {
      HitIff(keys, changes, new_, t);
    }
  }

  /** Remap, merge, remap again: the renamed old attributes overlaid with the renamed changes. */
  lemma RenameMergeRename(keys: map<string, string>, was: Attributes, changes: Attributes, was': Attributes, new_: Attributes, final: Attributes)
    requires Idempotent(keys) && Renames(keys, changes, new_) && Renames(keys, was, was')
    requires Renames(keys, was + new_, final) && Compatible(keys, was.Keys, changes.Keys)
    ensures final == was' + new_
  {
    var merged := was + new_;
    forall k | k in merged ensures Carried(keys, merged, was' + new_, k) {
      OneName(keys, was, changes, new_, k, Target(keys, k));
      if k !in new_ { assert Carried(keys, was, was', k); }
    }
    forall t | t in was' + new_ ensures Hit(keys, merged.Keys, t) {
      if t in new_ {
        RenamedFixed(keys, changes, new_, t);
        assert t in merged.Keys;
      } else {
        var k :| k in was.Keys && Target(keys, k) == t;
        assert k in merged.Keys;
      }
    }
    RenamesOnce(keys, merged, final, was' + new_);
  }

  // ---------------------------------------------------------------- the attributes of an updated item

  /** When an item's attributes can be renamed together with the changes. */
  ghost predicate Mergeable(keys: map<string, string>, was: Attributes, changes: Attributes) {
    Injective(keys, changes.Keys) && Injective(keys, was.Keys) && Compatible(keys, was.Keys, changes.Keys)
  }

  /** The renamed old attributes overlaid with the renamed changes. */
  ghost predicate Overlaid(keys: map<string, string>, was: Attributes, changes: Attributes, out: Attributes) {
    exists was', new_ :: Renames(keys, was, was') && Renames(keys, changes, new_) && out == was' + new_
  }

  /** The attribute part of an item update: `attrs` goes into the patch, None leaving the
      stored attributes as they are. */
  method PatchItemAttributes(was: Attributes, changes: Option<Attributes>, keys: map<string, string>) returns (r: Remapping)
    requires Idempotent(keys)
    ensures changes.None? ==> r == Mapped(if keys == map[] then None else Some(map[]))
    ensures changes.Some? ==> (r.Mapped? <==> Mergeable(keys, was, changes.value))
    ensures changes.Some? && r.Mapped? ==> r.attrs.Some? && Overlaid(keys, was, changes.value, r.attrs.value)
  {
    r := Remap(changes, keys);
    if r.Collision? { return; }
    var merged := Merge(was, r.attrs);
    ghost var new_ := r.attrs;
    if changes.Some? { MergedInjective(keys, was, changes.value, new_.value); }
    if keys == map[] {
      r := Mapped(merged);
      if changes.Some? { Untouched(was); Untouched(merged.value); }
    } else {
      r := Remap(Some(if merged.Some? then merged.value else map[]), keys);
      if changes.None? { assert r.attrs.value == map[]; }
    }
    if changes.Some? && r.Mapped? {
      var was' := RenamesExist(keys, was);
      RenameMergeRename(keys, was, changes.value, was', new_.value, r.attrs.value);
    }
  }

  lemma Untouched(attrs: Attributes)
    ensures Renames(map[], attrs, attrs) && Injective(map[], attrs.Keys)
  {
    forall t | t in attrs ensures Hit(map[], attrs.Keys, t) && Carried(map[], attrs, attrs, t) {
      assert Target(map[], t) == t;
    }
    assert forall k :: k in attrs.Keys ==> Alone(map[], attrs.Keys, k);
  }

  lemma InjectivePart(keys: map<string, string>, names: set<string>, more: set<string>)
    requires Injective(keys, more) && names <= more
    ensures Injective(keys, names)
  {
    forall k | k in names ensures Alone(keys, names, k) { assert Alone(keys, more, k); }
  }

  lemma PutBack(attrs: Attributes, key: string)
    requires key in attrs
    ensures (attrs - {key})[key := attrs[key]] == attrs
  {
  }

  lemma RenamesExist(keys: map<string, string>, attrs: Attributes) returns (out: Attributes)
    requires Injective(keys, attrs.Keys)
    ensures Renames(keys, attrs, out)
    decreases attrs.Keys
  {
    if attrs == map[] {
      out := map[];
    } else {
      var key :| key in attrs;
      var rest := attrs - {key};
      InjectivePart(keys, rest.Keys, attrs.Keys);
      out := RenamesExist(keys, rest);
      if Target(keys, key) in out { CollisionFound(keys, attrs, rest, out, key); }
      PutBack(attrs, key);
      RenamesStep(keys, rest, out, key, attrs[key]);
      out := out[Target(keys, key) := attrs[key]];
    }
  }

  /** What the item holds after the patch: a patch without attributes keeps them. */
  function Stored(was: Attributes, patch: Option<Attributes>): Attributes {
    if patch.Some? then patch.value else was
  }

  /** An update that carries no item attributes leaves them alone exactly when it brings no
      definitions or the item has none: otherwise an empty map is written over them. */
  method UpdateWithoutAttributes(was: Attributes, keys: map<string, string>) returns (stored: Attributes)
    requires Idempotent(keys)
    ensures stored == was <==> keys == map[] || was == map[]
  {
    var r := PatchItemAttributes(was, None, keys);
    stored := Stored(was, r.attrs);
  }
}
