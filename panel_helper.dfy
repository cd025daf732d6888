/**
 * The path logic of `PropertyPanelHelper`: which properties the panel is
 * given, how a panel property's full path is rebuilt from its parents, and
 * how an edit in the panel is written back to the property set. The panel
 * widget itself is an abstract tree of properties, each knowing its name,
 * its parent, whether it is a sub-property, its index among its siblings
 * and the value the user entered.
 */
module PanelHelper {

  import opened Wrappers
  import opened Seqs
  import opened Strings
  import opened PyValues
  import opened PropertyStore
  import PropertySets
  import StoreProofs
  import opened Attributes

  /** One property of the panel widget. */
  datatype PanelProperty = PanelProperty(
    name: string,
    parent: Option<nat>,
    isSubProperty: bool,
    subIndex: int,
    value: Value)

  /** The panel's properties; a property refers to its parent by position. */
  datatype Panel = Panel(props: seq<PanelProperty>)

  /** Parents are created before their children, so following parents always ends. */
  predicate WellFormed(panel: Panel) {
    forall i :: 0 <= i < |panel.props| && panel.props[i].parent.Some? ==> panel.props[i].parent.value < i
  }

  /** The names from the top-level ancestor down to property `i`. */
  function Path(panel: Panel, i: nat): (names: seq<string>)
    requires WellFormed(panel) && i < |panel.props|
    ensures |names| >= 1 && names[|names| - 1] == panel.props[i].name
    decreases i
  {
    var p := panel.props[i];
    if p.parent.None? then [p.name] else Path(panel, p.parent.value) + [p.name]
  }

  /** The full name of property `i`: its parent's full name, a `/`, and its own name. */
  function FullName(panel: Panel, i: nat): string
    requires WellFormed(panel) && i < |panel.props|
    decreases i
  {
    var p := panel.props[i];
    if p.parent.None? then p.name else FullName(panel, p.parent.value) + "/" + p.name
  }

  /** `getFullName(prop, panel)`: climb the parents, prefixing each parent's name and a `/`. */
  method GetFullName(panel: Panel, prop: nat) returns (name: string)
    requires WellFormed(panel) && prop < |panel.props|
    ensures name == FullName(panel, prop)
  {
    name := panel.props[prop].name;
    var parent: Option<nat> := panel.props[prop].parent;
    while parent.Some?
      invariant parent.Some? ==> parent.value < |panel.props|
      invariant FullName(panel, prop) == if parent.Some? then FullName(panel, parent.value) + "/" + name else name
      decreases if parent.Some? then parent.value + 1 else 0
    {
      var q := parent.value;
      assert FullName(panel, prop) == FullName(panel, q) + "/" + name;
      ghost var above := if panel.props[q].parent.Some? then FullName(panel, panel.props[q].parent.value) + "/" else "";
      assert FullName(panel, q) == above + panel.props[q].name;
      assert above + panel.props[q].name + "/" + name == above + (panel.props[q].name + "/" + name);
      name := panel.props[q].name + "/" + name;
      parent := panel.props[q].parent;
    }
  }

  /** The full name is the path joined with `/`. */
  lemma {:induction false} FullNameJoinsPath(panel: Panel, i: nat)
    requires WellFormed(panel) && i < |panel.props|
    ensures FullName(panel, i) == Join(Path(panel, i), "/")
    decreases i
  {
    var p := panel.props[i];
    if p.parent.Some? {
      FullNameJoinsPath(panel, p.parent.value);
      JoinSnoc(Path(panel, p.parent.value), p.name, "/");
    }
  }

  /** With no `/` inside the names, splitting a full name on `/` gives back the path. */
  lemma FullNameSplitsToPath(panel: Panel, i: nat)
    requires WellFormed(panel) && i < |panel.props|
    requires forall k :: 0 <= k < |Path(panel, i)| ==> '/' !in Path(panel, i)[k]
    ensures Split(FullName(panel, i), '/') == Path(panel, i)
  {
    FullNameJoinsPath(panel, i);
    SplitJoin(Path(panel, i), '/');
  }

  /** A panel property whose path is the split of `p` has full name `p`. */
  lemma FullNameOfSplitPath(panel: Panel, i: nat, p: string)
    requires WellFormed(panel) && i < |panel.props|
    requires Path(panel, i) == Split(p, '/')
    ensures FullName(panel, i) == p
  {
    FullNameJoinsPath(panel, i);
    JoinSplit(p, '/');
  }

  /**
   * The property path a list element's full name stands for: everything
   * before the character ahead of the first `[` (the `" [i]"` suffix and the
   * space before it dropped), with Python's slice semantics.
   */
  function ListPath(full: string): (path: string)
    requires '[' in full
  {
    SliceTo(full, FirstIndex(full, '[') - 1)
  }

  /** A name followed by `" ["` and anything at all is stripped back to that name. */
  lemma ListPathStripsSuffix(name: string, rest: string)
    requires '[' !in name
    ensures '[' in name + " [" + rest
    ensures ListPath(name + " [" + rest) == name
  {
    var full := name + " [" + rest;
    assert full[|name| + 1] == '[';
    assert forall j :: 0 <= j < |name| ==> full[j] == name[j];
    assert FirstIndex(full, '[') == |name| + 1;
    assert full[..|name|] == name;
  }

  /**
   * `setPropertyFromPanel(prop, panel, propertySet)`, as a step of the store.
   * A top-level property writes its value under its own name. A
   * sub-property without a parent is ignored. A sub-property whose full
   * name holds a `[` is a list element: the list stored under the stripped
   * path is copied, the element at the sub-property's index replaced, and
   * the whole list written back. Any other sub-property writes its value
   * under its full name.
   */
  function PanelEdit(panel: Panel, prop: nat, s: Store): (r: Step)
    requires WellFormed(panel) && prop < |panel.props|
  {
    var p := panel.props[prop];
    if !p.isSubProperty then Set(s, p.name, p.value)
    else if p.parent.None? then Step(s, [], Done)
    else
      var full := FullName(panel, prop);
      if '[' in full then
        var path := ListPath(full);
        match Get(s, path)
        case Err(e) => Step(s, [], Raised(e))
        case Ok(current) =>
          match ListOf(current)
          case Err(e) => Step(s, [], Raised(e))
          case Ok(items) =>
            match AssignIndex(items, p.subIndex, p.value)
            case Err(e) => Step(s, [], Raised(e))
            case Ok(edited) => Set(s, path, List(edited))
      else Set(s, full, p.value)
  }

  /**
   * Editing element `i` of a stored list (a property without enum labels)
   * writes back the whole list with only element `i` replaced: when the
   * edited list is `==` the stored one nothing changes and no event fires,
   * otherwise exactly that property changes and one PropertyChanged fires.
   */
  lemma ListEditWritesBack(panel: Panel, prop: nat, s: Store)
    requires WellFormed(panel) && prop < |panel.props|
    requires var p := panel.props[prop]; p.isSubProperty && p.parent.Some?
    requires '[' in FullName(panel, prop)
    requires var path := ListPath(FullName(panel, prop));
             && path in s.properties && path in s.attributes
             && s.properties[path].List?
             && 0 <= panel.props[prop].subIndex < |s.properties[path].items|
             && !Truthy(s.attributes[path].enumNames)
    ensures var path := ListPath(FullName(panel, prop));
            var items := s.properties[path].items;
            var i := panel.props[prop].subIndex;
            var edited := items[i := panel.props[prop].value];
            var r := PanelEdit(panel, prop, s);
            && r.outcome == Done
            && (Eq(List(edited), List(items)) ==> r.store == s && r.events == [])
            && (!Eq(List(edited), List(items)) ==>
                  && r.store == s.(properties := s.properties[path := List(edited)])
                  && r.events == [PropertyChanged(path)])
            && |edited| == |items| && edited[i] == panel.props[prop].value
            && (forall j :: 0 <= j < |items| && j != i ==> edited[j] == items[j])
  {
    var path := ListPath(FullName(panel, prop));
    var items := s.properties[path].items;
    var i := panel.props[prop].subIndex;
    var edited := AssignIndex(items, i, panel.props[prop].value);
    assert edited.Ok? && edited.value == items[i := panel.props[prop].value];
  }

  /**
   * Editing a sub-property that `addPropertiesToPanel` placed under the
   * groups named by the pieces of path `p` (not a list element) sets
   * property `p` to the entered value.
   */
  lemma EditReachesPath(panel: Panel, prop: nat, s: Store, p: string)
    requires WellFormed(panel) && prop < |panel.props|
    requires panel.props[prop].isSubProperty && panel.props[prop].parent.Some?
    requires Path(panel, prop) == Split(p, '/') && '[' !in p
    ensures PanelEdit(panel, prop, s) == Set(s, p, panel.props[prop].value)
  {
    FullNameOfSplitPath(panel, prop, p);
  }

  /** A panel edit only ever goes through `setProperty`, so the store stays valid. */
  lemma PanelEditPreservesValid(panel: Panel, prop: nat, s: Store)
    requires WellFormed(panel) && prop < |panel.props|
    requires Valid(s)
    ensures Valid(PanelEdit(panel, prop, s).store)
  {
    var p := panel.props[prop];
    var path := if !p.isSubProperty then p.name
                else if p.parent.None? then ""
                else if '[' in FullName(panel, prop) then ListPath(FullName(panel, prop))
                else FullName(panel, prop);
    var r := PanelEdit(panel, prop, s);
    assert r.store == s || exists v :: r == Set(s, path, v);
    if r.store != s {
      var v :| r == Set(s, path, v);
      StoreProofs.SetPreservesValid(s, path, v, Hidden, NoneValue);
    }
  }

  /** `setPropertyFromPanel(prop, panel, propertySet)` on the property set object. */
  method SetPropertyFromPanel(panel: Panel, prop: nat, ps: PropertySets.PropertySet) returns (outcome: Outcome)
    requires WellFormed(panel) && prop < |panel.props|
    modifies ps
    ensures var r := PanelEdit(panel, prop, old(ps.Model()));
            ps.Model() == r.store && ps.events == old(ps.events) + r.events && outcome == r.outcome
  {
    var p := panel.props[prop];
    if !p.isSubProperty {
      outcome := ps.SetProperty(p.name, p.value);
      return;
    }
    if p.parent.None? {
      return Done;
    }
    var full := GetFullName(panel, prop);
    if '[' in full {
      var path := SliceTo(full, FirstIndex(full, '[') - 1);
      if path !in ps.properties {
        return Raised(KeyError);
      }
      var current := ListOf(ps.properties[path]);
      if current.Err? {
        return Raised(current.error);
      }
      var edited := AssignIndex(current.value, p.subIndex, p.value);
      if edited.Err? {
        return Raised(edited.error);
      }
      outcome := ps.SetProperty(path, List(edited.value));
    } else {
      outcome := ps.SetProperty(full, p.value);
    }
  }

  /**
   * Whether `addPropertiesToPanel` shows property `n`: its value is not
   * None, it is not hidden, and it is among the requested names if a list
   * of them was given.
   */
  predicate Shows(s: Store, n: string, namesToAdd: Option<seq<string>>)
    requires n in s.properties && n in s.attributes
  {
    && s.properties[n] != NoneValue
    && !Truthy(s.attributes[n].hidden)
    && (namesToAdd.None? || n in namesToAdd.value)
  }

  /** The names among `names` the panel is given, in their order. */
  function ShownAmong(s: Store, names: seq<string>, namesToAdd: Option<seq<string>>): (shown: seq<string>)
    requires forall n :: n in names ==> n in s.properties && n in s.attributes
  {
    if names == [] then []
    else
      var last := names[|names| - 1];
      ShownAmong(s, names[..|names| - 1], namesToAdd) + (if Shows(s, last, namesToAdd) then [last] else [])
  }

  /** The panel is given exactly the listed names it shows. */
  lemma {:induction false} ShownAmongMembers(s: Store, names: seq<string>, namesToAdd: Option<seq<string>>)
    requires forall n :: n in names ==> n in s.properties && n in s.attributes
    ensures forall n :: n in ShownAmong(s, names, namesToAdd) <==> n in names && Shows(s, n, namesToAdd)
  {
    if names != [] {
      var init := names[..|names| - 1];
      assert names == init + [names[|names| - 1]];
      ShownAmongMembers(s, init, namesToAdd);
    }
  }

  /** Each shown name is shown once, and in the order the names are listed. */
  lemma {:induction false} ShownAmongOrdered(s: Store, names: seq<string>, namesToAdd: Option<seq<string>>)
    requires forall n :: n in names ==> n in s.properties && n in s.attributes
    requires NoDuplicates(names)
    ensures var shown := ShownAmong(s, names, namesToAdd);
            && NoDuplicates(shown)
            && (forall k :: 0 <= k < |shown| ==> shown[k] in names)
            && (forall i, j :: 0 <= i < j < |shown| ==> FirstIndex(names, shown[i]) < FirstIndex(names, shown[j]))
  {
    ShownAmongMembers(s, names, namesToAdd);
    if names != [] {
      var init := names[..|names| - 1];
      var last := names[|names| - 1];
      assert names == init + [last];
      SplitLast(names);
      ShownAmongOrdered(s, init, namesToAdd);
      ShownAmongMembers(s, init, namesToAdd);
      var before := ShownAmong(s, init, namesToAdd);
      if Shows(s, last, namesToAdd) {
        assert ShownAmong(s, names, namesToAdd) == before + [last];
        AppendFresh(before, last);
        OrderedAfterAppend(init, last, before);
      } else {
        assert ShownAmong(s, names, namesToAdd) == before;
      }
    }
  }

  /** Without repetitions, the last element is not among the others, which have none either. */
  lemma SplitLast(names: seq<string>)
    requires NoDuplicates(names) && names != []
    ensures NoDuplicates(names[..|names| - 1]) && names[|names| - 1] !in names[..|names| - 1]
  {
    var init := names[..|names| - 1];
    forall a | 0 <= a < |init| ensures init[a] != names[|names| - 1] {
      assert init[a] == names[a];
    }
  }

  /** Appending an element not yet present keeps a sequence free of repetitions. */
  lemma AppendFresh(before: seq<string>, last: string)
    requires NoDuplicates(before) && last !in before
    ensures NoDuplicates(before + [last])
  {
    var shown := before + [last];
    forall i, j | 0 <= i < j < |shown| ensures shown[i] != shown[j] {
      if j < |before| {
        assert shown[i] == before[i] && shown[j] == before[j];
      } else {
        assert shown[i] == before[i];
      }
    }
  }

  /**
   * Names listed in the order of `init` stay in order when one more name is
   * listed and also appended.
   */
  lemma OrderedAfterAppend(init: seq<string>, last: string, before: seq<string>)
    requires last !in init
    requires forall k :: 0 <= k < |before| ==> before[k] in init
    requires forall i, j :: 0 <= i < j < |before| ==> FirstIndex(init, before[i]) < FirstIndex(init, before[j])
    ensures var names := init + [last];
            var shown := before + [last];
            forall i, j :: 0 <= i < j < |shown| ==> FirstIndex(names, shown[i]) < FirstIndex(names, shown[j])
  {
    var names := init + [last];
    var shown := before + [last];
    forall n | n in before ensures FirstIndex(names, n) == FirstIndex(init, n) {
      FirstIndexPrefix(init, last, n);
    }
    FirstIndexLast(init, last);
    forall i, j | 0 <= i < j < |shown| ensures FirstIndex(names, shown[i]) < FirstIndex(names, shown[j]) {
      var a := before[i];
      assert shown[i] == a && a in before;
      if j < |before| {
        assert shown[j] == before[j] && before[j] in before;
      } else {
        assert shown[j] == last;
      }
    }
  }

  /** Appending an element does not move the ones already there. */
  lemma FirstIndexPrefix(xs: seq<string>, y: string, x: string)
    requires x in xs
    ensures FirstIndex(xs + [y], x) == FirstIndex(xs, x)
  {
    assert (xs + [y])[FirstIndex(xs, x)] == x;
  }

  /** A new last element sits after all the others. */
  lemma FirstIndexLast(xs: seq<string>, y: string)
    requires y !in xs
    ensures FirstIndex(xs + [y], y) == |xs|
  {
    assert forall j :: 0 <= j < |xs| ==> (xs + [y])[j] == xs[j];
  }

  /**
   * `addPropertiesToPanel(properties, panel, propertyNamesToAdd)`: the names
   * handed to `_addProperty`, in the order they are handed over.
   */
  method AddPropertiesToPanel(ps: PropertySets.PropertySet, namesToAdd: Option<seq<string>>) returns (added: seq<string>)
    requires ps.Valid()
    ensures ps.Valid() && added == ShownAmong(ps.Model(), ps.order, namesToAdd)
  {
    added := [];
    var i := 0;
    while i < |ps.order|
      invariant 0 <= i <= |ps.order|
      invariant added == ShownAmong(ps.Model(), ps.order[..i], namesToAdd)
    {
      var name := ps.order[i];
      assert ps.order[..i + 1][..i] == ps.order[..i];
      var value := ps.properties[name];
      var attributes := ps.attributes[name];
      if value != NoneValue && !Truthy(attributes.hidden) {
        var addThisProperty := true;
        if namesToAdd.Some? {
          if name !in namesToAdd.value {
            addThisProperty := false;
          }
        }
        if addThisProperty {
          added := added + [name];
        }
      }
      i := i + 1;
    }
    assert ps.order[..i] == ps.order;
  }
}
