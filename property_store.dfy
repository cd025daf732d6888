/**
 * The property store of `PropertySet`, as values: an insertion-ordered map
 * from property paths to values, a map from paths to attributes, and the
 * reverse map from aliases to paths. Every operation is a function from the
 * old store to a `Step`: the new store, the change events it emits (standing
 * in for the callback registry), and whether it returned or raised.
 */
module PropertyStore {

  import opened Wrappers
  import opened Seqs
  import opened PyValues
  import opened Attributes
  import opened PropertyNames
  import opened Strings

  /** The three signals of the callback registry. */
  datatype Event =
    | PropertyAdded(name: string)
    | PropertyChanged(name: string)
    | PropertyAttributeChanged(name: string, attribute: AttrField)

  /** How an operation ended: it returned, or it raised a Python exception. */
  datatype Outcome = Done | Raised(error: PyError)

  /**
   * `_properties` is the ordered dictionary `order` + `properties`;
   * `_attributes` and `_alternateNames` are plain dictionaries.
   */
  datatype Store = Store(
    order: seq<string>,
    properties: map<string, Value>,
    attributes: map<string, PropertyAttributes>,
    alternateNames: map<string, string>)

  datatype Step = Step(store: Store, events: seq<Event>, outcome: Outcome)

  /** A freshly constructed property set. */
  const Empty := Store([], map[], map[], map[])

  /**
   * The store invariant: the key order lists each property once, properties
   * and attributes have the same keys, and the alias map is exactly
   * { cleanPropertyName(p) : p } over the properties (so no two properties
   * share an alias).
   */
  ghost predicate Valid(s: Store) {
    && NoDuplicates(s.order)
    && s.properties.Keys == Elems(s.order)
    && s.attributes.Keys == s.properties.Keys
    && AliasesExact(s.properties, s.alternateNames)
  }

  /** The alias map holds exactly one entry per property: its cleaned name, pointing back at it. */
  ghost predicate AliasesExact(properties: map<string, Value>, alternateNames: map<string, string>) {
    && (forall p :: p in properties ==> CleanPropertyName(p) in alternateNames && alternateNames[CleanPropertyName(p)] == p)
    && (forall a :: a in alternateNames ==> alternateNames[a] in properties && CleanPropertyName(alternateNames[a]) == a)
  }

  /** `propertyNames()`: each property once, in insertion order. */
  function PropertyNamesOf(s: Store): (names: seq<string>)
    requires Valid(s)
    ensures NoDuplicates(names)
    ensures forall n :: n in names <==> n in s.properties
  {
    s.order
  }

  /** `getProperty(name)`. */
  function Get(s: Store, name: string): (r: Result<Value>)
    ensures r.Ok? <==> name in s.properties
    ensures r.Ok? ==> r.value == s.properties[name]
    ensures r.Err? ==> r.error == KeyError
  {
    if name in s.properties then Ok(s.properties[name]) else Err(KeyError)
  }

  /** `hasProperty(name)`: exactly when `getProperty(name)` does not raise. */
  function HasProperty(s: Store, name: string): (r: bool)
    ensures r <==> Get(s, name).Ok?
  {
    name in s.properties
  }

  /** `getPropertyAttribute(name, field)`. */
  function GetAttribute(s: Store, name: string, f: AttrField): (r: Result<Value>)
    ensures r.Ok? <==> name in s.attributes
    ensures r.Ok? ==> r.value == s.attributes[name].Get(f)
  {
    if name in s.attributes then Ok(s.attributes[name].Get(f)) else Err(KeyError)
  }

  /** `getPropertyEnumValue(name)`: the stored index looked up in the attribute's `enumNames`. */
  function GetEnumValue(s: Store, name: string): (r: Result<Value>)
    ensures r.Ok? ==> name in s.attributes && name in s.properties
    ensures r.Ok? ==> s.attributes[name].enumNames.List? || s.attributes[name].enumNames.Str?
    ensures name in s.attributes && name in s.properties && s.attributes[name].enumNames.List?
            && s.properties[name].Int? && 0 <= s.properties[name].i < |s.attributes[name].enumNames.items|
            ==> r == Ok(s.attributes[name].enumNames.items[s.properties[name].i])
    ensures name in s.attributes && s.attributes[name].enumNames.NoneValue? ==> r.Err?
  {
    if name !in s.attributes then Err(KeyError)
    else if name !in s.properties then Err(KeyError)
    else Subscript(s.attributes[name].enumNames, s.properties[name])
  }

  /**
   * The value `setProperty` stores for `value` under enum labels `labels`:
   * when the labels are truthy and the value is not an int, `labels.index(value)`
   * — for a list, the position of the first label equal to it (ValueError
   * when there is none); for a string, the first position where the value
   * occurs as a substring (ValueError when it does not occur, TypeError when
   * the value is not a string); any other truthy labels have no `index`
   * (AttributeError). Otherwise the value itself, with no range check.
   */
  function Resolve(labels: Value, value: Value): (r: Result<Value>)
    ensures !Truthy(labels) || value.Int? ==> r == Ok(value)
    ensures Truthy(labels) && !value.Int? && labels.List? && r.Ok? ==>
              && r.value.Int? && 0 <= r.value.i < |labels.items|
              && Eq(labels.items[r.value.i], value)
              && forall j :: 0 <= j < r.value.i ==> !Eq(labels.items[j], value)
    ensures Truthy(labels) && !value.Int? && labels.List? ==>
              (r.Err? <==> forall j :: 0 <= j < |labels.items| ==> !Eq(labels.items[j], value))
    ensures Truthy(labels) && !value.Int? && labels.Str? && r.Ok? ==>
              && value.Str? && r.value.Int? && 0 <= r.value.i
              && OccursAt(labels.s, value.s, r.value.i)
              && forall j: nat :: j < r.value.i ==> !OccursAt(labels.s, value.s, j)
    ensures Truthy(labels) && !value.Int? && labels.Str? && value.Str? ==>
              (r.Err? <==> forall j: nat :: !OccursAt(labels.s, value.s, j))
    ensures Truthy(labels) && !value.Int? && !labels.List? && !labels.Str? ==> r == Err(AttributeError)
    ensures r.Err? ==> r.error == (if labels.List? || (labels.Str? && value.Str?) then ValueError
                                   else if labels.Str? then TypeError
                                   else AttributeError)
  {
    if Truthy(labels) && !value.Int? then
      match labels
      case List(items) =>
        (match IndexOf(items, value)
         case Some(i) => Ok(Int(i))
         case None => Err(ValueError))
      case Str(text) =>
        if !value.Str? then Err(TypeError)
        else
          (match FindSubstring(text, value.s)
           case Some(k) => Ok(Int(k))
           case None => Err(ValueError))
      case _ => Err(AttributeError)
    else Ok(value)
  }

  /** `setPropertyIndex(name, newIndex)`: pop the key and re-insert it at `newIndex`; no event. */
  function SetIndex(s: Store, name: string, newIndex: int): (r: Step)
    ensures r.events == []
    ensures r.outcome.Raised? <==> name !in s.properties || !(0 <= newIndex < |s.order|)
    ensures r.outcome.Raised? ==> r.store == s && r.outcome.error == AssertionError
    ensures r.store.properties == s.properties && r.store.attributes == s.attributes
    ensures r.store.alternateNames == s.alternateNames
  {
    if name !in s.properties || !(0 <= newIndex < |s.order|) then Step(s, [], Raised(AssertionError))
    else Step(s.(order := Insert(Without(s.order, name), newIndex, name)), [], Done)
  }

  /** The store after the three writes of `addProperty`: a new name comes last. */
  function Written(s: Store, name: string, value: Value, attributes: Option<PropertyAttributes>): Store {
    Store(
      if name in s.properties then s.order else s.order + [name],
      s.properties[name := value],
      s.attributes[name := attributes.GetOr(Defaults)],
      s.alternateNames[CleanPropertyName(name) := name])
  }

  /**
   * `addProperty(name, value, attributes, index)`. A new name whose alias is
   * taken raises ValueError and changes nothing; otherwise the value and the
   * attributes (or the defaults) are stored, an existing name keeping its
   * position, and one PropertyAdded event fires. With an index the property
   * is then moved there; an out-of-range index raises AssertionError after
   * the property was stored, and no event fires.
   */
  function Add(s: Store, name: string, value: Value, attributes: Option<PropertyAttributes>, index: Option<int>): (r: Step)
    ensures r.outcome == Raised(ValueError) <==> name !in s.properties && CleanPropertyName(name) in s.alternateNames
    ensures r.outcome == Raised(ValueError) ==> r.store == s && r.events == []
    ensures r.outcome != Raised(ValueError) ==>
              && r.store.properties == s.properties[name := value]
              && r.store.attributes == s.attributes[name := attributes.GetOr(Defaults)]
              && r.store.alternateNames == s.alternateNames[CleanPropertyName(name) := name]
    ensures r.events == (if r.outcome.Done? then [PropertyAdded(name)] else [])
    ensures r.outcome.Raised? ==> r.outcome.error in {ValueError, AssertionError}
    ensures r.outcome != Raised(ValueError) && index.None? ==>
              r.store.order == if name in s.properties then s.order else s.order + [name]
  {
    var alias := CleanPropertyName(name);
    if name !in s.properties && alias in s.alternateNames then Step(s, [], Raised(ValueError))
    else
      var added := Written(s, name, value, attributes);
      match index
      case None => Step(added, [PropertyAdded(name)], Done)
      case Some(i) =>
        var moved := SetIndex(added, name, i);
        if moved.outcome.Raised? then moved else Step(moved.store, [PropertyAdded(name)], Done)
  }

  /**
   * `removeProperty(name)`: the property, its attributes and its alias go;
   * no event fires. An unknown name raises KeyError (the dictionaries are
   * deleted from in turn, so a store that broke the invariant could be left
   * half-updated).
   */
  function Remove(s: Store, name: string): (r: Step)
    ensures r.events == []
    ensures name !in s.properties ==> r == Step(s, [], Raised(KeyError))
    ensures r.outcome.Raised? ==> r.outcome.error == KeyError
    ensures r.outcome.Done? <==> name in s.properties && name in s.attributes && CleanPropertyName(name) in s.alternateNames
    ensures r.outcome.Done? ==>
              && r.store.properties == s.properties - {name}
              && r.store.attributes == s.attributes - {name}
              && r.store.alternateNames == s.alternateNames - {CleanPropertyName(name)}
              && r.store.order == Without(s.order, name)
  {
    if name !in s.properties then Step(s, [], Raised(KeyError))
    else
      var s1 := s.(order := Without(s.order, name), properties := s.properties - {name});
      if name !in s.attributes then Step(s1, [], Raised(KeyError))
      else
        var s2 := s1.(attributes := s.attributes - {name});
        var alias := CleanPropertyName(name);
        if alias !in s.alternateNames then Step(s2, [], Raised(KeyError))
        else Step(s2.(alternateNames := s.alternateNames - {alias}), [], Done)
  }

  /** The value `setProperty(name, value)` would compare and store. */
  function Resolved(s: Store, name: string, value: Value): Result<Value>
    requires name in s.attributes
  {
    Resolve(s.attributes[name].enumNames, value)
  }

  /**
   * `setProperty(name, value)`: resolve enum labels, then do nothing when the
   * result `==` the stored value; otherwise store it and fire exactly one
   * PropertyChanged event. An unknown name raises KeyError and an unknown
   * label ValueError, with the store unchanged.
   */
  function Set(s: Store, name: string, value: Value): (r: Step)
    ensures r.store.order == s.order && r.store.attributes == s.attributes
    ensures r.store.alternateNames == s.alternateNames
    ensures r.store.properties.Keys == s.properties.Keys
    ensures r.events == [] || r.events == [PropertyChanged(name)]
    ensures r.events == [] ==> r.store == s
    ensures r.outcome.Raised? ==> r.events == []
    ensures name !in s.properties ==> r.outcome == Raised(KeyError)
    ensures name in s.properties && name in s.attributes ==>
              match Resolved(s, name, value)
              case Err(e) => r.outcome == Raised(e)
              case Ok(v) =>
                && r.outcome.Done?
                && (r.events == [] <==> Eq(v, s.properties[name]))
                && (r.events != [] ==> r.store.properties == s.properties[name := v])
  {
    if name !in s.properties || name !in s.attributes then Step(s, [], Raised(KeyError))
    else
      match Resolved(s, name, value)
      case Err(e) => Step(s, [], Raised(e))
      case Ok(v) =>
        if Eq(v, s.properties[name]) then Step(s, [], Done)
        else Step(s.(properties := s.properties[name := v]), [PropertyChanged(name)], Done)
  }

  /**
   * `setPropertyAttribute(name, field, value)`: nothing happens when the
   * field already `==` the value; otherwise the field changes and exactly one
   * PropertyAttributeChanged event fires. Values are never touched.
   */
  function SetAttribute(s: Store, name: string, f: AttrField, value: Value): (r: Step)
    ensures r.store.order == s.order && r.store.properties == s.properties
    ensures r.store.alternateNames == s.alternateNames
    ensures r.store.attributes.Keys == s.attributes.Keys
    ensures name !in s.attributes ==> r == Step(s, [], Raised(KeyError))
    ensures name in s.attributes ==>
              && r.outcome.Done?
              && (r.events == [] <==> Eq(s.attributes[name].Get(f), value))
              && (r.events == [] ==> r.store == s)
              && (r.events != [] ==>
                    && r.events == [PropertyAttributeChanged(name, f)]
                    && r.store.attributes == s.attributes[name := s.attributes[name].With(f, value)])
  {
    if name !in s.attributes then Step(s, [], Raised(KeyError))
    else if Eq(s.attributes[name].Get(f), value) then Step(s, [], Done)
    else
      Step(s.(attributes := s.attributes[name := s.attributes[name].With(f, value)]),
           [PropertyAttributeChanged(name, f)], Done)
  }

  /** What `__getstate__` hands out: the ordered items and the attributes. */
  datatype State = State(properties: seq<(string, Value)>, attributes: map<string, PropertyAttributes>)

  /** `__getstate__()`: the items in insertion order and the attribute map. */
  function GetState(s: Store): (st: State)
    requires Valid(s)
    ensures |st.properties| == |s.order|
    ensures forall i :: 0 <= i < |s.order| ==> st.properties[i] == (s.order[i], s.properties[s.order[i]])
    ensures st.attributes == s.attributes
  {
    State(seq(|s.order|, i requires 0 <= i < |s.order| => (s.order[i], s.properties[s.order[i]])), s.attributes)
  }

  /**
   * The loop of `__setstate__` over `items[from..]`, continuing from `prev` (the
   * store, the events fired so far and the outcome so far): each item is
   * re-added with its attributes, if the state has any; once an item
   * raises, the later ones are not reached.
   */
  function ReplayFrom(prev: Step, items: seq<(string, Value)>, attributes: map<string, PropertyAttributes>, from: nat): (r: Step)
    requires from <= |items|
    decreases |items| - from
  {
    if from == |items| then prev
    else ReplayFrom(ReplayStep(prev, items[from], attributes), items, attributes, from + 1)
  }

  /** One iteration of the replay: nothing once an item has raised, otherwise `addProperty` of the next item. */
  function ReplayStep(prev: Step, item: (string, Value), attributes: map<string, PropertyAttributes>): (r: Step)
  {
    if prev.outcome.Raised? then prev
    else
      var added := Add(prev.store, item.0, item.1, if item.0 in attributes then Some(attributes[item.0]) else None, None);
      Step(added.store, prev.events + added.events, added.outcome)
  }

  /**
   * A replay that starts with only PropertyAdded events, and raised if at
   * all by an alias collision, ends that way: the loop adds no other event
   * and no other exception.
   */
  lemma {:induction false} ReplayOnlyAdds(prev: Step, items: seq<(string, Value)>, attributes: map<string, PropertyAttributes>, from: nat)
    requires from <= |items|
    requires forall e :: e in prev.events ==> e.PropertyAdded?
    requires prev.outcome.Raised? ==> prev.outcome.error == ValueError
    ensures var r := ReplayFrom(prev, items, attributes, from);
            && (forall e :: e in r.events ==> e.PropertyAdded?)
            && (r.outcome.Raised? ==> r.outcome.error == ValueError)
    decreases |items| - from
  {
    if from < |items| {
      ReplayOnlyAdds(ReplayStep(prev, items[from], attributes), items, attributes, from + 1);
    }
  }

  /**
   * `__setstate__(state)`: a fresh store (and a fresh callback registry)
   * rebuilt by replaying `addProperty` over the items in order. It can only
   * fail on an alias collision, and it fires only PropertyAdded events.
   */
  function SetState(st: State): (r: Step)
    ensures forall e :: e in r.events ==> e.PropertyAdded?
    ensures r.outcome.Raised? ==> r.outcome.error == ValueError
  {
    ReplayOnlyAdds(Step(Empty, [], Done), st.properties, st.attributes, 0);
    ReplayFrom(Step(Empty, [], Done), st.properties, st.attributes, 0)
  }

  /** One PropertyAdded event per name, in order. */
  function AddedEvents(names: seq<string>): (es: seq<Event>)
    ensures |es| == |names|
    ensures forall i :: 0 <= i < |names| ==> es[i] == PropertyAdded(names[i])
  {
    seq(|names|, i requires 0 <= i < |names| => PropertyAdded(names[i]))
  }

  /**
   * Members of every `PropertySet`: the class's signal names and methods,
   * and the four attributes its `__init__` binds on the instance.
   */
  const ClassMembers: set<string> := {
    "PROPERTY_CHANGED_SIGNAL", "PROPERTY_ADDED_SIGNAL", "PROPERTY_ATTRIBUTE_CHANGED_SIGNAL",
    "__getstate__", "__setstate__", "__init__", "__getattribute__", "__setattr__",
    "propertyNames", "hasProperty",
    "connectPropertyChanged", "disconnectPropertyChanged",
    "connectPropertyValueChanged", "disconnectPropertyValueChanged",
    "connectPropertyAdded", "disconnectPropertyAdded",
    "connectPropertyAttributeChanged", "disconnectPropertyAttributeChanged",
    "getProperty", "getPropertyEnumValue", "removeProperty", "addProperty",
    "setPropertyIndex", "setProperty", "getPropertyAttribute", "getPropertyAttributes",
    "setPropertyAttribute", "callbacks", "_properties", "_attributes", "_alternateNames"}

  /** The attributes a Python 3 class instance inherits from `object`. */
  const ObjectMembers: set<string> := {
    "__class__", "__delattr__", "__dict__", "__dir__", "__doc__", "__eq__", "__format__",
    "__ge__", "__getattribute__", "__getstate__", "__gt__", "__hash__", "__init__",
    "__init_subclass__", "__le__", "__lt__", "__module__", "__ne__", "__new__", "__reduce__",
    "__reduce_ex__", "__repr__", "__setattr__", "__sizeof__", "__str__", "__subclasshook__",
    "__weakref__"}

  /**
   * `object.__getattribute__(self, name)` finds `name`: a class member, a
   * member inherited from `object`, or an attribute an earlier `__setattr__`
   * bound on the instance (`instance`).
   */
  predicate IsMember(instance: set<string>, name: string) {
    name in ClassMembers || name in ObjectMembers || name in instance
  }

  /** What reading `propertySet.<name>` yields. */
  datatype AttributeRead = ObjectMember | PropertyValue(value: Value) | Missing(error: PyError)

  /**
   * `__getattribute__(name)`: a member wins; otherwise an alias reads the
   * property it stands for; anything else raises AttributeError.
   */
  function GetAttr(s: Store, instance: set<string>, name: string): (r: AttributeRead)
    ensures IsMember(instance, name) <==> r.ObjectMember?
    ensures r.PropertyValue? ==> name in s.alternateNames && Get(s, s.alternateNames[name]) == Ok(r.value)
    ensures !IsMember(instance, name) && name !in s.alternateNames ==> r == Missing(AttributeError)
  {
    if IsMember(instance, name) then ObjectMember
    else if name in s.alternateNames then
      match Get(s, s.alternateNames[name])
      case Ok(v) => PropertyValue(v)
      case Err(e) => Missing(e)
    else Missing(AttributeError)
  }

  /** The effect of `__setattr__`: the store's step, and the names bound on the instance afterwards. */
  datatype AttrWrite = AttrWrite(step: Step, instance: set<string>)

  /**
   * `__setattr__(name, value)`: an alias that is not a member writes through
   * `setProperty`; any other name is bound on the instance by
   * `object.__setattr__`, which leaves the property store as it is.
   */
  function SetAttr(s: Store, instance: set<string>, name: string, value: Value): (r: AttrWrite)
    ensures !IsMember(instance, name) && name in s.alternateNames ==>
              r == AttrWrite(Set(s, s.alternateNames[name], value), instance)
    ensures IsMember(instance, name) || name !in s.alternateNames ==>
              r.step == Step(s, [], Done) && r.instance == instance + {name}
  {
    if !IsMember(instance, name) && name in s.alternateNames then
      AttrWrite(Set(s, s.alternateNames[name], value), instance)
    else AttrWrite(Step(s, [], Done), instance + {name})
  }

  /**
   * The argument a `connectPropertyValueChanged(watched, func)` callback
   * passes to `func` for event `e`: nothing unless `e` is a change of
   * `watched`; then the enum label when the property has truthy enum labels,
   * else the raw value.
   */
  function ValueChangedArgument(s: Store, watched: string, e: Event): (r: Option<Result<Value>>)
    ensures r.Some? ==> e == PropertyChanged(watched)
    ensures e == PropertyChanged(watched) && watched in s.attributes ==> r.Some?
    ensures r.Some? && watched in s.attributes && Truthy(s.attributes[watched].enumNames) ==>
              r.value == GetEnumValue(s, watched)
    ensures r.Some? && watched in s.attributes && !Truthy(s.attributes[watched].enumNames) ==>
              r.value == Get(s, watched)
  {
    if e != PropertyChanged(watched) || watched !in s.attributes then
      if e == PropertyChanged(watched) then Some(Err(KeyError)) else None
    else if Truthy(s.attributes[watched].enumNames) then Some(GetEnumValue(s, watched))
    else Some(Get(s, watched))
  }
}
