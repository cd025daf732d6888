/** What the property store's operations promise together: invariants kept, inverses, round trips. */
module StoreProofs {

  import opened Wrappers
  import opened Seqs
  import opened PyValues
  import opened Attributes
  import opened PropertyNames
  import opened PropertyStore

  /** `setPropertyIndex` only reorders keys, so the invariant survives it. */
  lemma SetIndexPreservesValid(s: Store, name: string, newIndex: int)
    requires Valid(s)
    ensures Valid(SetIndex(s, name, newIndex).store)
  {
    var r := SetIndex(s, name, newIndex);
    if r.outcome.Done? {
      var rest := Without(s.order, name);
      assert r.store.order == Insert(rest, newIndex, name);
      InsertNoDuplicates(rest, newIndex, name);
      assert Elems(r.store.order) == Elems(s.order);
    }
  }

  /**
   * `setPropertyIndex` on a valid store puts the name at the index asked
   * for and keeps every other name in its relative order.
   */
  lemma SetIndexPlacesName(s: Store, name: string, newIndex: int)
    requires Valid(s)
    ensures var r := SetIndex(s, name, newIndex);
            r.outcome.Done? ==>
              && |r.store.order| == |s.order|
              && r.store.order[newIndex] == name
              && Without(r.store.order, name) == Without(s.order, name)
  {
    if name in s.properties && 0 <= newIndex < |s.order| {
      WithoutInsert(Without(s.order, name), newIndex, name);
    }
  }

  /** The store right after `addProperty` has written its three maps is valid again. */
  lemma AddKeepsValid(s: Store, name: string, value: Value, attributes: Option<PropertyAttributes>, added: Store)
    requires !(name !in s.properties && CleanPropertyName(name) in s.alternateNames)
    requires added == Store(
               if name in s.properties then s.order else s.order + [name],
               s.properties[name := value],
               s.attributes[name := attributes.GetOr(Defaults)],
               s.alternateNames[CleanPropertyName(name) := name])
    requires Valid(s)
    ensures Valid(added)
  {
    AddKeepsOrder(s.order, s.properties, name, value);
    AddKeepsAliases(s.properties, s.alternateNames, name, value);
    assert added.attributes.Keys == added.properties.Keys;
  }

  /** Appending a new key (or overwriting an existing one) keeps the key order in step with the map. */
  lemma AddKeepsOrder(order: seq<string>, properties: map<string, Value>, name: string, value: Value)
    requires NoDuplicates(order) && properties.Keys == Elems(order)
    ensures var o := if name in properties then order else order + [name];
            NoDuplicates(o) && properties[name := value].Keys == Elems(o)
  {
    if name !in properties {
      assert name !in order;
      var o := order + [name];
      assert Elems(o) == Elems(order) + {name} by {
        forall n | n in o ensures n in Elems(order) + {name} {
          if n != name {
            assert n in order;
          }
        }
      }
      forall i, j | 0 <= i < j < |o| ensures o[i] != o[j] {
        if j == |order| {
          assert o[i] == order[i];
        } else {
          assert o[i] == order[i] && o[j] == order[j];
        }
      }
    }
  }

  /** Recording the alias of a name whose alias is free (or already its own) keeps the alias map exact. */
  lemma AddKeepsAliases(properties: map<string, Value>, alternateNames: map<string, string>, name: string, value: Value)
    requires AliasesExact(properties, alternateNames)
    requires !(name !in properties && CleanPropertyName(name) in alternateNames)
    ensures AliasesExact(properties[name := value], alternateNames[CleanPropertyName(name) := name])
  {
    var alias := CleanPropertyName(name);
    var ps := properties[name := value];
    var an := alternateNames[alias := name];
    forall p | p in ps ensures CleanPropertyName(p) in an && an[CleanPropertyName(p)] == p {
      if p != name {
        assert p in properties;
      }
    }
    forall a | a in an ensures an[a] in ps && CleanPropertyName(an[a]) == a {
      if a != alias {
        assert an[a] == alternateNames[a];
      }
    }
  }

  /** `addProperty` keeps the invariant on every path, including the two that raise. */
  lemma AddPreservesValid(s: Store, name: string, value: Value, attributes: Option<PropertyAttributes>, index: Option<int>)
    requires Valid(s)
    ensures Valid(Add(s, name, value, attributes, index).store)
  {
    var alias := CleanPropertyName(name);
    if !(name !in s.properties && alias in s.alternateNames) {
      var added := Store(
        if name in s.properties then s.order else s.order + [name],
        s.properties[name := value],
        s.attributes[name := attributes.GetOr(Defaults)],
        s.alternateNames[alias := name]);
      AddKeepsValid(s, name, value, attributes, added);
      if index.Some? {
        SetIndexPreservesValid(added, name, index.value);
      }
    }
  }

  /**
   * Where `addProperty` puts the name: an existing name keeps its place, a
   * new one comes last, and with an index the name ends up at that index.
   */
  lemma AddPlacesName(s: Store, name: string, value: Value, attributes: Option<PropertyAttributes>, index: Option<int>)
    requires Valid(s)
    ensures var r := Add(s, name, value, attributes, index);
            && (index.None? && name in s.properties ==> r.store.order == s.order)
            && (index.None? && r.outcome.Done? && name !in s.properties ==> r.store.order == s.order + [name])
            && (index.Some? && r.outcome.Done? ==>
                  0 <= index.value < |r.store.order| && r.store.order[index.value] == name)
  {
    var alias := CleanPropertyName(name);
    if index.Some? && !(name !in s.properties && alias in s.alternateNames) {
      var added := Store(
        if name in s.properties then s.order else s.order + [name],
        s.properties[name := value],
        s.attributes[name := attributes.GetOr(Defaults)],
        s.alternateNames[alias := name]);
      AddKeepsValid(s, name, value, attributes, added);
      SetIndexPlacesName(added, name, index.value);
    }
  }

  /**
   * `removeProperty` of a present name on a valid store does not raise: the
   * key, its attributes and its alias go together, and the store stays valid.
   */
  lemma RemovePreservesValid(s: Store, name: string)
    requires Valid(s)
    ensures name in s.properties ==> Remove(s, name).outcome.Done?
    ensures Valid(Remove(s, name).store)
  {
    var r := Remove(s, name);
    if name in s.properties {
      var t := r.store;
      assert Elems(t.order) == t.properties.Keys;
      forall p | p in t.properties
        ensures CleanPropertyName(p) in t.alternateNames && t.alternateNames[CleanPropertyName(p)] == p
      {
        assert s.alternateNames[CleanPropertyName(p)] == p;
      }
      forall a | a in t.alternateNames
        ensures t.alternateNames[a] in t.properties && CleanPropertyName(t.alternateNames[a]) == a
      {
        assert s.alternateNames[a] != name;
      }
    }
  }

  /** `setProperty` and `setPropertyAttribute` change values only, never keys or aliases. */
  lemma SetPreservesValid(s: Store, name: string, value: Value, f: AttrField, attribute: Value)
    ensures Valid(s) ==> Valid(Set(s, name, value).store)
    ensures Valid(s) ==> Valid(SetAttribute(s, name, f, attribute).store)
  {
    var t := Set(s, name, value).store;
    assert t.properties.Keys == s.properties.Keys;
    var u := SetAttribute(s, name, f, attribute).store;
    assert u.attributes.Keys == s.attributes.Keys;
  }

  /** Removing a freshly added property restores the store exactly. */
  lemma {:induction false} RemoveUndoesAdd(s: Store, name: string, value: Value, attributes: Option<PropertyAttributes>)
    requires Valid(s)
    requires Add(s, name, value, attributes, None).outcome.Done?
    requires name !in s.properties
    ensures Remove(Add(s, name, value, attributes, None).store, name) == Step(s, [], Done)
  {
    var alias := CleanPropertyName(name);
    var t := Add(s, name, value, attributes, None).store;
    assert alias !in s.alternateNames;
    assert name !in s.order;
    assert name !in s.attributes;
    RemoveAfterAdd(s.order, s.properties, s.attributes, s.alternateNames, name, alias, value, attributes.GetOr(Defaults));
  }

  /** Helper: the map and sequence algebra behind `RemoveUndoesAdd`. */
  lemma RemoveAfterAdd(order: seq<string>, properties: map<string, Value>, attributes: map<string, PropertyAttributes>,
                       alternateNames: map<string, string>, name: string, alias: string, value: Value, attrs: PropertyAttributes)
    requires name !in order && name !in properties && name !in attributes && alias !in alternateNames
    requires alias == CleanPropertyName(name)
    ensures Remove(Store(order + [name], properties[name := value], attributes[name := attrs], alternateNames[alias := name]), name)
              == Step(Store(order, properties, attributes, alternateNames), [], Done)
  {
    var added := Store(order + [name], properties[name := value], attributes[name := attrs], alternateNames[alias := name]);
    var r := Remove(added, name);
    assert r.outcome.Done?;
    WithoutSnoc(order, name, name);
    PutThenTake(properties, name, value);
    PutThenTake(attributes, name, attrs);
    PutThenTake(alternateNames, alias, name);
  }

  /** Adding a fresh key to a map and taking it out again gives the map back. */
  lemma PutThenTake<K, V>(m: map<K, V>, k: K, v: V)
    requires k !in m
    ensures m[k := v] - {k} == m
  {
  }

  /** A removed property can always be added back; it then comes last. */
  lemma AddAfterRemove(s: Store, name: string, value: Value, attributes: Option<PropertyAttributes>)
    requires Valid(s) && name in s.properties
    ensures var t := Remove(s, name).store;
            var r := Add(t, name, value, attributes, None);
            && r.outcome.Done?
            && r.store.order == Without(s.order, name) + [name]
            && Get(r.store, name) == Ok(value)
  {
    RemovePreservesValid(s, name);
    var t := Remove(s, name).store;
    forall a | a in t.alternateNames ensures a != CleanPropertyName(name) {
      assert t.alternateNames[a] != name;
    }
  }

  /**
   * Setting a property to an enum choice stores the choice's index, so that
   * `getPropertyEnumValue` gives back a choice equal to the one set.
   */
  lemma EnumLabelRoundTrip(s: Store, name: string, choice: Value)
    requires Valid(s) && name in s.properties
    requires s.properties[name].Int?
    requires s.attributes[name].enumNames.List? && |s.attributes[name].enumNames.items| > 0
    requires !choice.Int?
    requires IndexOf(s.attributes[name].enumNames.items, choice).Some?
    ensures var r := Set(s, name, choice);
            && r.outcome.Done?
            && GetEnumValue(r.store, name).Ok?
            && Eq(GetEnumValue(r.store, name).value, choice)
  {
    var labels := s.attributes[name].enumNames.items;
    var i := IndexOf(labels, choice).value;
    var r := Set(s, name, choice);
    assert Resolved(s, name, choice) == Ok(Int(i));
    if r.events == [] {
      assert Eq(Int(i), s.properties[name]);
      assert s.properties[name] == Int(i);
    }
    assert r.store.properties[name] == Int(i);
  }

  /** An unknown enum choice is refused with ValueError and nothing changes. */
  lemma UnknownEnumLabelRefused(s: Store, name: string, choice: Value)
    requires name in s.properties && name in s.attributes
    requires s.attributes[name].enumNames.List? && |s.attributes[name].enumNames.items| > 0
    requires !choice.Int?
    requires forall j :: 0 <= j < |s.attributes[name].enumNames.items| ==> !Eq(s.attributes[name].enumNames.items[j], choice)
    ensures Set(s, name, choice) == Step(s, [], Raised(ValueError))
  {
    assert Resolved(s, name, choice) == Err(ValueError);
  }

  /**
   * Replacing a property's enum labels keeps its stored index: the value is
   * untouched and `getPropertyEnumValue` now reads the label at that index
   * (the very one when the labels changed, an `==` one when they did not).
   */
  lemma EnumNamesReplacedKeepIndex(s: Store, name: string, labels: seq<Value>)
    requires name in s.properties && name in s.attributes
    requires s.properties[name].Int? && 0 <= s.properties[name].i < |labels|
    ensures var r := SetAttribute(s, name, EnumNames, List(labels));
            && Get(r.store, name) == Get(s, name)
            && GetEnumValue(r.store, name).Ok?
            && Eq(GetEnumValue(r.store, name).value, labels[s.properties[name].i])
            && (r.events != [] ==> GetEnumValue(r.store, name) == Ok(labels[s.properties[name].i]))
  {
    var r := SetAttribute(s, name, EnumNames, List(labels));
    var i := s.properties[name].i;
    if r.events == [] {
      assert Eq(s.attributes[name].enumNames, List(labels));
      assert !IsNumber(s.attributes[name].enumNames);
      assert s.attributes[name].enumNames.List?;
      EqListIsList(s.attributes[name].enumNames.items, labels);
      assert Eq(s.attributes[name].enumNames.items[i], labels[i]);
    } else {
      assert r.store.attributes[name].enumNames == List(labels);
      EqReflexive(labels[i]);
    }
  }

  /** Helper: `==` between lists compares lengths and elements. */
  lemma EqListIsList(xs: seq<Value>, ys: seq<Value>)
    requires Eq(List(xs), List(ys))
    ensures |xs| == |ys| && forall i :: 0 <= i < |xs| ==> Eq(xs[i], ys[i])
  {
  }

  /** Setting the same value twice: the second call changes nothing and fires nothing. */
  lemma {:induction false} SetIdempotent(s: Store, name: string, value: Value)
    requires Set(s, name, value).outcome.Done?
    ensures var r := Set(s, name, value);
            Set(r.store, name, value) == Step(r.store, [], Done)
  {
    var r := Set(s, name, value);
    assert name in s.properties && name in s.attributes;
    var v := Resolved(s, name, value).value;
    assert Resolved(r.store, name, value) == Ok(v);
    if r.events == [] {
      assert Eq(v, s.properties[name]);
    } else {
      EqReflexive(v);
    }
  }

  /** Setting the same attribute value twice: the second call changes nothing and fires nothing. */
  lemma {:induction false} SetAttributeIdempotent(s: Store, name: string, f: AttrField, value: Value)
    requires name in s.attributes
    ensures var r := SetAttribute(s, name, f, value);
            SetAttribute(r.store, name, f, value) == Step(r.store, [], Done)
  {
    var r := SetAttribute(s, name, f, value);
    if r.events == [] {
      assert Eq(s.attributes[name].Get(f), value);
    } else {
      EqReflexive(value);
    }
  }

  /** The alias of a property reads and writes that property, unless a member shadows it. */
  lemma AliasMatchesPath(s: Store, instance: set<string>, path: string, value: Value)
    requires Valid(s) && path in s.properties
    requires !IsMember(instance, CleanPropertyName(path))
    ensures GetAttr(s, instance, CleanPropertyName(path)) == PropertyValue(s.properties[path])
    ensures SetAttr(s, instance, CleanPropertyName(path), value) == AttrWrite(Set(s, path, value), instance)
  {
  }

  /**
   * A name `__setattr__` bound on the instance shadows any alias for good:
   * whatever properties are added later, reading the name finds the
   * instance attribute, and assigning it again rebinds that attribute and
   * leaves the store alone.
   */
  lemma BoundNameShadowsAlias(s: Store, instance: set<string>, name: string, value: Value,
                              later: Store, laterValue: Value)
    requires IsMember(instance, name) || name !in s.alternateNames
    ensures var bound := SetAttr(s, instance, name, value).instance;
            && GetAttr(later, bound, name) == ObjectMember
            && SetAttr(later, bound, name, laterValue).step == Step(later, [], Done)
  {
  }

  /** The part of `m` whose keys are in `names`. */
  function Restrict<V>(m: map<string, V>, names: set<string>): (r: map<string, V>)
    ensures r.Keys == m.Keys * names
    ensures forall x :: x in r ==> r[x] == m[x]
  {
    map x | x in names && x in m :: m[x]
  }

  /** Allowing one more key of `m` adds exactly that entry. */
  lemma RestrictGrow<V>(m: map<string, V>, names: set<string>, n: string)
    requires n in m
    ensures Restrict(m, names + {n}) == Restrict(m, names)[n := m[n]]
  {
  }

  /** The store holding the first `k` properties of `s`, as `__setstate__` has rebuilt it after `k` items. */
  ghost function Prefix(s: Store, k: nat): (p: Store)
    requires k <= |s.order|
  {
    var names := Elems(s.order[..k]);
    Store(s.order[..k],
          Restrict(s.properties, names),
          Restrict(s.attributes, names),
          RestrictValues(s.alternateNames, names))
  }

  /** The `k`-th property and its alias are not in the prefix before it. */
  lemma PrefixLacksNext(s: Store, k: nat)
    requires Valid(s) && k < |s.order|
    ensures s.order[k] !in Prefix(s, k).properties
    ensures CleanPropertyName(s.order[k]) !in Prefix(s, k).alternateNames
  {
    var n := s.order[k];
    assert n !in Elems(s.order[..k]) by {
      forall j | 0 <= j < k ensures s.order[..k][j] != n {
        assert s.order[j] != s.order[k];
      }
    }
  }

  /** The prefix grows by the `k`-th property, its attributes and its alias. */
  lemma PrefixExtends(s: Store, k: nat)
    requires Valid(s) && k < |s.order|
    ensures var n := s.order[k];
            var p := Prefix(s, k);
            Prefix(s, k + 1) == Store(p.order + [n], p.properties[n := s.properties[n]],
                                      p.attributes[n := s.attributes[n]],
                                      p.alternateNames[CleanPropertyName(n) := n])
  {
    PrefixNames(s, k);
    PrefixValues(s, k);
    PrefixAliases(s, k);
  }

  /** The value and attribute maps of the prefixes grow by one key at a time. */
  lemma PrefixValues(s: Store, k: nat)
    requires Valid(s) && k < |s.order|
    ensures var n := s.order[k];
            && Prefix(s, k + 1).properties == Prefix(s, k).properties[n := s.properties[n]]
            && Prefix(s, k + 1).attributes == Prefix(s, k).attributes[n := s.attributes[n]]
  {
    PrefixNames(s, k);
    var n := s.order[k];
    RestrictGrow(s.properties, Elems(s.order[..k]), n);
    RestrictGrow(s.attributes, Elems(s.order[..k]), n);
  }

  /** The names of the prefixes grow one at a time. */
  lemma PrefixNames(s: Store, k: nat)
    requires Valid(s) && k < |s.order|
    ensures s.order[..k + 1] == s.order[..k] + [s.order[k]]
    ensures Elems(s.order[..k + 1]) == Elems(s.order[..k]) + {s.order[k]}
  {
    assert s.order[..k + 1] == s.order[..k] + [s.order[k]];
  }

  /** The entries of `m` whose values are in `names`. */
  function RestrictValues(m: map<string, string>, names: set<string>): (r: map<string, string>)
    ensures forall a :: a in r <==> a in m && m[a] in names
    ensures forall a :: a in r ==> r[a] == m[a]
  {
    map a | a in m && m[a] in names :: m[a]
  }

  /** Allowing one more value `n`, held by the single key `alias`, adds exactly that entry. */
  lemma RestrictValuesGrow(m: map<string, string>, names: set<string>, n: string, alias: string)
    requires alias in m && m[alias] == n
    requires forall a :: a in m && m[a] == n ==> a == alias
    ensures RestrictValues(m, names + {n}) == RestrictValues(m, names)[alias := n]
  {
  }

  /** The alias map of the prefixes grows by one alias at a time. */
  lemma PrefixAliases(s: Store, k: nat)
    requires Valid(s) && k < |s.order|
    ensures var n := s.order[k];
            Prefix(s, k + 1).alternateNames == Prefix(s, k).alternateNames[CleanPropertyName(n) := n]
  {
    PrefixNames(s, k);
    var n := s.order[k];
    forall a | a in s.alternateNames && s.alternateNames[a] == n ensures a == CleanPropertyName(n) {
    }
    RestrictValuesGrow(s.alternateNames, Elems(s.order[..k]), n, CleanPropertyName(n));
  }

  /** Re-adding the `k`-th item with its attributes extends the prefix by one. */
  lemma PrefixStep(s: Store, k: nat)
    requires Valid(s) && k < |s.order|
    ensures var n := s.order[k];
            Add(Prefix(s, k), n, s.properties[n], Some(s.attributes[n]), None)
              == Step(Prefix(s, k + 1), [PropertyAdded(n)], Done)
  {
    PrefixLacksNext(s, k);
    PrefixExtends(s, k);
  }

  /** The whole store is its longest prefix. */
  lemma PrefixAll(s: Store)
    requires Valid(s)
    ensures Prefix(s, |s.order|) == s
  {
    assert s.order[..|s.order|] == s.order;
    var p := Prefix(s, |s.order|);
    assert p.properties == s.properties;
    assert p.attributes == s.attributes;
    assert p.alternateNames == s.alternateNames;
  }

  /** Once an item of the replay has raised, the later iterations change nothing. */
  lemma {:induction false} ReplayStaysRaised(prev: Step, items: seq<(string, Value)>, attributes: map<string, PropertyAttributes>,
                                             from: nat)
    requires from <= |items| && prev.outcome.Raised?
    ensures ReplayFrom(prev, items, attributes, from) == prev
    decreases |items| - from
  {
    if from < |items| {
      ReplayStaysRaised(prev, items, attributes, from + 1);
    }
  }

  /** Events fired before the replay stay in front of the ones it fires, untouched. */
  lemma {:induction false} ReplayKeepsEarlierEvents(prev: Step, earlier: seq<Event>, items: seq<(string, Value)>,
                                                    attributes: map<string, PropertyAttributes>, from: nat)
    requires from <= |items|
    ensures var r := ReplayFrom(prev, items, attributes, from);
            ReplayFrom(Step(prev.store, earlier + prev.events, prev.outcome), items, attributes, from)
              == Step(r.store, earlier + r.events, r.outcome)
    decreases |items| - from
  {
    if from < |items| {
      var item := items[from];
      var next := ReplayStep(prev, item, attributes);
      if prev.outcome.Done? {
        var added := Add(prev.store, item.0, item.1, if item.0 in attributes then Some(attributes[item.0]) else None, None);
        assert earlier + prev.events + added.events == earlier + (prev.events + added.events);
      }
      assert ReplayStep(Step(prev.store, earlier + prev.events, prev.outcome), item, attributes)
               == Step(next.store, earlier + next.events, next.outcome);
      ReplayKeepsEarlierEvents(next, earlier, items, attributes, from + 1);
    }
  }

  /** Replaying items onto a valid store leaves a valid store, whether or not an item is refused. */
  lemma {:induction false} ReplayPreservesValid(prev: Step, items: seq<(string, Value)>, attributes: map<string, PropertyAttributes>,
                                                from: nat)
    requires from <= |items| && Valid(prev.store)
    ensures Valid(ReplayFrom(prev, items, attributes, from).store)
    decreases |items| - from
  {
    if from < |items| {
      ReplayStepPreservesValid(prev, items[from], attributes);
      ReplayPreservesValid(ReplayStep(prev, items[from], attributes), items, attributes, from + 1);
    }
  }

  /** One iteration of the replay keeps the store valid. */
  lemma ReplayStepPreservesValid(prev: Step, item: (string, Value), attributes: map<string, PropertyAttributes>)
    requires Valid(prev.store)
    ensures Valid(ReplayStep(prev, item, attributes).store)
  {
    if prev.outcome.Done? {
      AddPreservesValid(prev.store, item.0, item.1, if item.0 in attributes then Some(attributes[item.0]) else None, None);
    }
  }

  /** The events for the first `k + 1` names extend those for the first `k`. */
  lemma AddedEventsGrow(names: seq<string>, k: nat)
    requires k < |names|
    ensures AddedEvents(names[..k]) + [PropertyAdded(names[k])] == AddedEvents(names[..k + 1])
  {
  }

  /** Replaying item `k` of a store's state onto its first `k` properties yields its first `k + 1`. */
  lemma ReplayStepExtendsPrefix(s: Store, k: nat)
    requires Valid(s) && k < |s.order|
    ensures ReplayStep(Step(Prefix(s, k), AddedEvents(s.order[..k]), Done), GetState(s).properties[k], s.attributes)
              == Step(Prefix(s, k + 1), AddedEvents(s.order[..k + 1]), Done)
  {
    var n := s.order[k];
    assert GetState(s).properties[k] == (n, s.properties[n]);
    PrefixStep(s, k);
    AddedEventsGrow(s.order, k);
  }

  /** From its first `k` properties, replaying the rest of a store's state rebuilds the whole store. */
  lemma {:induction false} ReplayCompletesPrefix(s: Store, k: nat)
    requires Valid(s) && k <= |s.order|
    ensures ReplayFrom(Step(Prefix(s, k), AddedEvents(s.order[..k]), Done), GetState(s).properties, s.attributes, k)
              == Step(s, AddedEvents(s.order), Done)
    decreases |s.order| - k
  {
    if k == |s.order| {
      PrefixAll(s);
      assert s.order[..k] == s.order;
    } else {
      ReplayStepExtendsPrefix(s, k);
      ReplayCompletesPrefix(s, k + 1);
    }
  }

  /**
   * Pickling round trip: `__setstate__(__getstate__())` rebuilds the same
   * store, in the same order, firing one PropertyAdded per property.
   */
  lemma StateRoundTrip(s: Store)
    requires Valid(s)
    ensures SetState(GetState(s)) == Step(s, AddedEvents(s.order), Done)
  {
    ReplayCompletesPrefix(s, 0);
    assert Prefix(s, 0) == Empty;
    assert AddedEvents(s.order[..0]) == [];
  }
}
