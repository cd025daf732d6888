/**
 * The `PropertySet` object: the store's dictionaries as fields its methods
 * update in place, and the log of signals processed by its callback
 * registry. Every method is proved to leave the fields holding exactly the
 * store the matching `PropertyStore` step function computes; that those
 * functions keep the store invariant is proved in `StoreProofs`.
 */
module PropertySets {

  import opened Wrappers
  import opened Seqs
  import opened PyValues
  import opened Attributes
  import opened PropertyNames
  import opened PropertyStore
  import StoreProofs

  class PropertySet {
    /** The key order of `_properties`. */
    var order: seq<string>
    /** The values of `_properties`. */
    var properties: map<string, Value>
    /** `_attributes`. */
    var attributes: map<string, PropertyAttributes>
    /** `_alternateNames`. */
    var alternateNames: map<string, string>
    /** The signals processed so far, in order. */
    var events: seq<Event>
    /** The names `__setattr__` has bound on the instance besides those `__init__` binds. */
    var instanceAttributes: set<string>

    /** The store these fields hold. */
    function Model(): Store
      reads this
    {
      Store(order, properties, attributes, alternateNames)
    }

    ghost predicate Valid()
      reads this
    {
      PropertyStore.Valid(Model())
    }

    /** `PropertySet()`: no properties and no signals yet. */
    constructor ()
      ensures Model() == Empty && events == [] && instanceAttributes == {}
      ensures Valid()
    {
      order := [];
      properties := map[];
      attributes := map[];
      alternateNames := map[];
      events := [];
      instanceAttributes := {};
    }

    /** `setPropertyIndex(name, newIndex)`. */
    method SetPropertyIndex(name: string, newIndex: int) returns (outcome: Outcome)
      modifies this
      ensures instanceAttributes == old(instanceAttributes)
      ensures var r := SetIndex(old(Model()), name, newIndex);
              Model() == r.store && events == old(events) + r.events && outcome == r.outcome
    {
      if name !in properties || !(0 <= newIndex < |order|) {
        return Raised(AssertionError);
      }
      order := Insert(Without(order, name), newIndex, name);
      outcome := Done;
    }

    /** `addProperty(name, value, attributes, index)`. */
    method AddProperty(name: string, value: Value, attrs: Option<PropertyAttributes>, index: Option<int>)
      returns (outcome: Outcome)
      modifies this
      ensures instanceAttributes == old(instanceAttributes)
      ensures var r := Add(old(Model()), name, value, attrs, index);
              Model() == r.store && events == old(events) + r.events && outcome == r.outcome
    {
      ghost var s := Model();
      var alias := CleanPropertyName(name);
      if name !in properties && alias in alternateNames {
        return Raised(ValueError);
      }
      WriteItem(name, value, attrs);
      ghost var added := Model();
      assert added == Written(s, name, value, attrs);
      if index.Some? {
        outcome := SetPropertyIndex(name, index.value);
        ghost var moved := SetIndex(added, name, index.value);
        assert Add(s, name, value, attrs, index)
            == if moved.outcome.Raised? then moved else Step(moved.store, [PropertyAdded(name)], Done);
        if outcome.Raised? {
          return;
        }
      } else {
        assert Add(s, name, value, attrs, index) == Step(added, [PropertyAdded(name)], Done);
      }
      events := events + [PropertyAdded(name)];
      outcome := Done;
    }

    /** The three writes of `addProperty`: the value, the attributes and the alias. */
    method WriteItem(name: string, value: Value, attrs: Option<PropertyAttributes>)
      modifies this
      ensures Model() == Written(old(Model()), name, value, attrs)
      ensures events == old(events) && instanceAttributes == old(instanceAttributes)
    {
      if name !in properties {
        order := order + [name];
      }
      properties := properties[name := value];
      attributes := attributes[name := attrs.GetOr(Defaults)];
      alternateNames := alternateNames[CleanPropertyName(name) := name];
    }

    /** `removeProperty(name)`: the three deletions, in the order the source makes them. */
    method RemoveProperty(name: string) returns (outcome: Outcome)
      modifies this
      ensures instanceAttributes == old(instanceAttributes)
      ensures var r := Remove(old(Model()), name);
              Model() == r.store && events == old(events) + r.events && outcome == r.outcome
    {
      if name !in properties {
        return Raised(KeyError);
      }
      order := Without(order, name);
      properties := properties - {name};
      if name !in attributes {
        return Raised(KeyError);
      }
      attributes := attributes - {name};
      var alias := CleanPropertyName(name);
      if alias !in alternateNames {
        return Raised(KeyError);
      }
      alternateNames := alternateNames - {alias};
      outcome := Done;
    }

    /** `setProperty(name, value)`. */
    method SetProperty(name: string, value: Value) returns (outcome: Outcome)
      modifies this
      ensures instanceAttributes == old(instanceAttributes)
      ensures var r := Set(old(Model()), name, value);
              Model() == r.store && events == old(events) + r.events && outcome == r.outcome
    {
      ghost var r := Set(Model(), name, value);
      if name !in properties || name !in attributes {
        return Raised(KeyError);
      }
      var previous := properties[name];
      var resolved := Resolve(attributes[name].enumNames, value);
      if resolved.Err? {
        return Raised(resolved.error);
      }
      outcome := Done;
      if Eq(resolved.value, previous) {
        return;
      }
      properties := properties[name := resolved.value];
      events := events + [PropertyChanged(name)];
      assert Model() == r.store;
    }

    /** `setPropertyAttribute(name, field, value)`. */
    method SetPropertyAttribute(name: string, f: AttrField, value: Value) returns (outcome: Outcome)
      modifies this
      ensures instanceAttributes == old(instanceAttributes)
      ensures var r := SetAttribute(old(Model()), name, f, value);
              Model() == r.store && events == old(events) + r.events && outcome == r.outcome
    {
      if name !in attributes {
        return Raised(KeyError);
      }
      outcome := Done;
      if Eq(attributes[name].Get(f), value) {
        return;
      }
      attributes := attributes[name := attributes[name].With(f, value)];
      events := events + [PropertyAttributeChanged(name, f)];
    }

    /**
     * `__setattr__(name, value)`: an alias that is not a member writes
     * through `setProperty`; any other name is bound on the instance.
     */
    method SetAttributeByAlias(name: string, value: Value) returns (outcome: Outcome)
      modifies this
      ensures var r := SetAttr(old(Model()), old(instanceAttributes), name, value);
              && Model() == r.step.store && events == old(events) + r.step.events
              && outcome == r.step.outcome && instanceAttributes == r.instance
    {
      if !IsMember(instanceAttributes, name) && name in alternateNames {
        outcome := SetProperty(alternateNames[name], value);
      } else {
        instanceAttributes := instanceAttributes + {name};
        outcome := Done;
      }
    }

    /**
     * `__setstate__(state)`: start from an empty store and re-add the items
     * one by one; the first exception ends the replay. The result is valid
     * whatever the state held.
     */
    method SetState(st: State) returns (outcome: Outcome)
      modifies this
      ensures instanceAttributes == old(instanceAttributes)
      ensures var r := PropertyStore.SetState(st);
              Model() == r.store && events == old(events) + r.events && outcome == r.outcome
      ensures Valid()
    {
      order, properties, attributes, alternateNames := [], map[], map[], map[];
      StoreProofs.ReplayKeepsEarlierEvents(Step(Empty, [], Done), events, st.properties, st.attributes, 0);
      StoreProofs.ReplayPreservesValid(Step(Empty, [], Done), st.properties, st.attributes, 0);
      assert events == events + [];
      outcome := ReplayItems(st.properties, st.attributes);
    }

    /** The loop of `__setstate__`: `addProperty` for each item in turn, until one raises. */
    method ReplayItems(items: seq<(string, Value)>, attrMap: map<string, PropertyAttributes>) returns (outcome: Outcome)
      modifies this
      ensures instanceAttributes == old(instanceAttributes)
      ensures var r := ReplayFrom(Step(old(Model()), old(events), Done), items, attrMap, 0);
              Model() == r.store && events == r.events && outcome == r.outcome
    {
      ghost var total := ReplayFrom(Step(old(Model()), old(events), Done), items, attrMap, 0);
      assert ReplayFrom(Step(Model(), events, Done), items, attrMap, 0) == total;
      var i := 0;
      outcome := Done;
      while i < |items|
        invariant 0 <= i <= |items| && outcome == Done
        invariant ReplayFrom(Step(Model(), events, Done), items, attrMap, i) == total
        invariant instanceAttributes == old(instanceAttributes)
      {
        outcome := ReplayItem(items, attrMap, i, total);
        if outcome.Raised? {
          return;
        }
        i := i + 1;
      }
    }

    /** Pass `i` of that loop: `addProperty` of item `i`, with its attributes if the state has any. */
    method ReplayItem(items: seq<(string, Value)>, attrMap: map<string, PropertyAttributes>, i: nat, ghost total: Step)
      returns (outcome: Outcome)
      requires i < |items|
      requires ReplayFrom(Step(Model(), events, Done), items, attrMap, i) == total
      modifies this
      ensures instanceAttributes == old(instanceAttributes)
      ensures ReplayFrom(Step(Model(), events, outcome), items, attrMap, i + 1) == total
      ensures outcome.Raised? ==> Step(Model(), events, outcome) == total
    {
      var name := items[i].0;
      var attrs := if name in attrMap then Some(attrMap[name]) else None;
      outcome := AddProperty(name, items[i].1, attrs, None);
      if outcome.Raised? {
        StoreProofs.ReplayStaysRaised(Step(Model(), events, outcome), items, attrMap, i + 1);
      }
    }
  }
}
