/**
 * `PropertyPanelConnector`: keeps a properties panel and a property set in
 * step. Changes in the store schedule a deferred rebuild of the panel (a
 * zero-delay single-shot timer, started only when it is not already active);
 * value changes in the store are written to the panel with `_blockSignals`
 * raised, so the panel's own "value changed" signals that those writes
 * provoke are not fed back into the store; edits made in the panel while the
 * guard is down go to `setPropertyFromPanel`.
 *
 * The panel's widgets are not modelled: a rebuild is the list of names it
 * hands to the panel, and the panel signals a write provokes are given as a
 * sequence of `PanelChange`s delivered while the guard is up.
 */
module PanelConnector {

  import opened Wrappers
  import opened PyValues
  import opened PropertyStore
  import PropertySets
  import opened PanelHelper
  import opened PropertyNames

  /** One `propertyValueChanged(QtVariantProperty*)` signal of the panel. */
  datatype PanelChange = PanelChange(panel: Panel, prop: nat)

  predicate Deliverable(c: PanelChange) {
    WellFormed(c.panel) && c.prop < |c.panel.props|
  }

  /** The store signals that make the connector schedule a rebuild. */
  predicate Schedules(e: Event) {
    e.PropertyAdded? || e.PropertyAttributeChanged?
  }

  class PropertyPanelConnector {
    const propertySet: PropertySets.PropertySet
    const propertyNamesToAdd: Option<seq<string>>
    /** `_blockSignals`. */
    var blockSignals: bool
    /** The single-shot timer is active. */
    var pending: bool
    /** The timer callback and the signal connections are in place (until `cleanup`). */
    var connected: bool
    /** The names the panel was last built with. */
    var shown: seq<string>
    /** How many times the timer has been started. */
    ghost var scheduled: nat

    ghost predicate Valid()
      reads this, propertySet
    {
      propertySet.Valid()
    }

    /**
     * `__init__`: connect, then build the panel with the requested names
     * while the guard is up; the guard is down afterwards.
     */
    constructor (ps: PropertySets.PropertySet, namesToAdd: Option<seq<string>>, echoes: seq<PanelChange>)
      requires ps.Valid()
      requires forall c :: c in echoes ==> Deliverable(c)
      modifies ps
      ensures propertySet == ps && propertyNamesToAdd == namesToAdd
      ensures Valid()
      ensures shown == ShownAmong(ps.Model(), ps.order, namesToAdd)
      ensures ps.Model() == old(ps.Model()) && ps.events == old(ps.events)
      ensures !blockSignals && !pending && connected && scheduled == 0
    {
      propertySet := ps;
      propertyNamesToAdd := namesToAdd;
      pending := false;
      connected := true;
      scheduled := 0;
      blockSignals := true;
      new;
      shown := AddPropertiesToPanel(ps, namesToAdd);
      DeliverEchoes(echoes);
      blockSignals := false;
    }

    /**
     * `cleanup`: the timer loses its callback, and both the store's signals
     * and the panel's `propertyValueChanged` signal are disconnected.
     */
    method Cleanup()
      modifies this
      ensures !connected
      ensures blockSignals == old(blockSignals) && pending == old(pending) && shown == old(shown)
      ensures scheduled == old(scheduled)
    {
      connected := false;
    }

    /** `_rebuild`: start the timer unless it is already active. */
    method Rebuild()
      modifies this
      ensures pending
      ensures scheduled == if old(pending) then old(scheduled) else old(scheduled) + 1
      ensures blockSignals == old(blockSignals) && connected == old(connected) && shown == old(shown)
    {
      if !pending {
        pending := true;
        scheduled := scheduled + 1;
      }
    }

    /**
     * `_rebuildNow`, with the panel rebuilt from the same requested names as
     * `__init__` used; the store is left as it was.
     */
    method RebuildNow(echoes: seq<PanelChange>)
      requires Valid()
      requires forall c :: c in echoes ==> Deliverable(c)
      modifies this, propertySet
      ensures Valid()
      ensures shown == ShownAmong(propertySet.Model(), propertySet.order, propertyNamesToAdd)
      ensures propertySet.Model() == old(propertySet.Model()) && propertySet.events == old(propertySet.events)
      ensures !blockSignals && pending == old(pending) && connected == old(connected)
      ensures scheduled == old(scheduled)
    {
      blockSignals := true;
      shown := AddPropertiesToPanel(propertySet, propertyNamesToAdd);
      DeliverEchoes(echoes);
      blockSignals := false;
    }

    /**
     * `_rebuildNow` as written: the panel is rebuilt without
     * `propertyNamesToAdd`, so it shows every visible property.
     */
    method RebuildNowAsWritten(echoes: seq<PanelChange>)
      requires Valid()
      requires forall c :: c in echoes ==> Deliverable(c)
      modifies this, propertySet
      ensures Valid()
      ensures shown == ShownAmong(propertySet.Model(), propertySet.order, None)
      ensures propertySet.Model() == old(propertySet.Model()) && propertySet.events == old(propertySet.events)
      ensures !blockSignals && pending == old(pending) && connected == old(connected)
      ensures scheduled == old(scheduled)
    {
      blockSignals := true;
      shown := AddPropertiesToPanel(propertySet, None);
      DeliverEchoes(echoes);
      blockSignals := false;
    }

    /** The timer runs out: the pending rebuild happens if the callback is still set. */
    method TimerFires(echoes: seq<PanelChange>)
      requires Valid()
      requires forall c :: c in echoes ==> Deliverable(c)
      modifies this, propertySet
      ensures Valid()
      ensures !pending
      ensures old(pending) && connected ==> !blockSignals && shown == ShownAmong(propertySet.Model(), propertySet.order, propertyNamesToAdd)
      ensures !(old(pending) && connected) ==> blockSignals == old(blockSignals) && shown == old(shown)
      ensures propertySet.Model() == old(propertySet.Model()) && propertySet.events == old(propertySet.events)
      ensures connected == old(connected) && scheduled == old(scheduled)
    {
      if pending {
        pending := false;
        if connected {
          RebuildNow(echoes);
        }
      }
    }

    /** `_onPropertyAdded`. */
    method OnPropertyAdded(name: string)
      modifies this
      ensures pending
      ensures scheduled == if old(pending) then old(scheduled) else old(scheduled) + 1
      ensures blockSignals == old(blockSignals) && connected == old(connected) && shown == old(shown)
    {
      Rebuild();
    }

    /** `_onPropertyAttributeChanged`. */
    method OnPropertyAttributeChanged(name: string, attribute: Attributes.AttrField)
      modifies this
      ensures pending
      ensures scheduled == if old(pending) then old(scheduled) else old(scheduled) + 1
      ensures blockSignals == old(blockSignals) && connected == old(connected) && shown == old(shown)
    {
      Rebuild();
    }

    /**
     * `_onPropertyChanged`: the new value is written to the panel with the
     * guard up, so the signals the write provokes leave the store alone.
     */
    method OnPropertyChanged(name: string, echoes: seq<PanelChange>)
      requires Valid()
      requires forall c :: c in echoes ==> Deliverable(c)
      modifies this, propertySet
      ensures propertySet.Model() == old(propertySet.Model()) && propertySet.events == old(propertySet.events)
      ensures !blockSignals && pending == old(pending) && connected == old(connected) && shown == old(shown)
      ensures scheduled == old(scheduled)
      ensures Valid()
    {
      blockSignals := true;
      DeliverEchoes(echoes);
      blockSignals := false;
    }

    /** The panel signals provoked by a write the connector makes itself. */
    method DeliverEchoes(echoes: seq<PanelChange>)
      requires Valid() && blockSignals
      requires forall c :: c in echoes ==> Deliverable(c)
      modifies propertySet
      ensures propertySet.Model() == old(propertySet.Model()) && propertySet.events == old(propertySet.events)
      ensures Valid()
    {
      for k := 0 to |echoes|
        invariant propertySet.Model() == old(propertySet.Model()) && propertySet.events == old(propertySet.events)
        invariant Valid()
      {
        var _ := OnPanelPropertyChanged(echoes[k]);
      }
    }

    /**
     * A `propertyValueChanged` signal of the panel: it reaches
     * `_onPanelPropertyChanged` only while connected, and that slot passes
     * the edit to the store only when the guard is down.
     */
    method OnPanelPropertyChanged(change: PanelChange) returns (outcome: Outcome)
      requires Valid() && Deliverable(change)
      modifies propertySet
      ensures Valid()
      ensures blockSignals || !connected ==>
                outcome == Done && propertySet.Model() == old(propertySet.Model())
                && propertySet.events == old(propertySet.events)
      ensures !blockSignals && connected ==>
                var r := PanelEdit(change.panel, change.prop, old(propertySet.Model()));
                propertySet.Model() == r.store && propertySet.events == old(propertySet.events) + r.events
                && outcome == r.outcome
    {
      if connected && !blockSignals {
        PanelEditPreservesValid(change.panel, change.prop, propertySet.Model());
        outcome := SetPropertyFromPanel(change.panel, change.prop, propertySet);
      } else {
        outcome := Done;
      }
    }

    /**
     * A burst of store signals delivered to the connector: whatever their
     * number, at most one rebuild is scheduled, and the store and the panel
     * are left alone until the timer fires.
     */
    method DeliverAll(evs: seq<Event>, echoes: seq<PanelChange>)
      requires Valid() && !blockSignals
      requires forall c :: c in echoes ==> Deliverable(c)
      modifies this, propertySet
      ensures Valid() && !blockSignals
      ensures pending == (old(pending) || (connected && exists e :: e in evs && Schedules(e)))
      ensures scheduled == if !old(pending) && pending then old(scheduled) + 1 else old(scheduled)
      ensures propertySet.Model() == old(propertySet.Model()) && propertySet.events == old(propertySet.events)
      ensures connected == old(connected) && shown == old(shown)
    {
      for k := 0 to |evs|
        invariant pending == (old(pending) || (connected && exists j :: 0 <= j < k && Schedules(evs[j])))
        invariant scheduled == if !old(pending) && pending then old(scheduled) + 1 else old(scheduled)
        invariant propertySet.Model() == old(propertySet.Model()) && propertySet.events == old(propertySet.events)
        invariant connected == old(connected) && shown == old(shown)
        invariant Valid() && !blockSignals
      {
        if connected {
          match evs[k]
          case PropertyAdded(name) => OnPropertyAdded(name);
          case PropertyAttributeChanged(name, attribute) => OnPropertyAttributeChanged(name, attribute);
          case PropertyChanged(name) => OnPropertyChanged(name, echoes);
        }
      }
      assert (exists j :: 0 <= j < |evs| && Schedules(evs[j])) == (exists e :: e in evs && Schedules(e));
    }
  }

  /** A store holding two visible properties "a" and "b", each its own alias. */
  function TwoProperties(): Store {
    Store(["a", "b"], map["a" := Int(1), "b" := Int(2)],
          map["a" := Attributes.Defaults, "b" := Attributes.Defaults],
          map["a" := "a", "b" := "b"])
  }

  /** The two-property store is one `addProperty` can build. */
  lemma TwoPropertiesValid()
    ensures Valid(TwoProperties())
  {
    assert CleanPropertyName("a") == "a" && CleanPropertyName("b") == "b";
  }

  /**
   * The rebuild as written disagrees with the initial build: on a store
   * holding two visible properties "a" and "b", a connector asked for "a"
   * alone shows ["a"] after construction and ["a", "b"] after a rebuild.
   */
  lemma RebuildNowAsWrittenShowsUnrequested()
    ensures ShownAmong(TwoProperties(), TwoProperties().order, Some(["a"])) == ["a"]
    ensures ShownAmong(TwoProperties(), TwoProperties().order, None) == ["a", "b"]
  {
    var s := TwoProperties();
    var a, b := s.order[0], s.order[1];
    assert s.order[..1] == [a];
    assert Shows(s, a, Some([a])) && !Shows(s, b, Some([a]));
    assert Shows(s, a, None) && Shows(s, b, None);
    assert ShownAmong(s, [a], Some([a])) == [a] by {
      assert [a][..0] == [];
    }
    assert ShownAmong(s, [a], None) == [a] by {
      assert [a][..0] == [];
    }
  }

  /**
   * With the corrected rebuild, a rebuild over an unchanged store shows
   * exactly what the initial build showed, and only requested names.
   */
  lemma RebuildKeepsRequestedNames(s: Store, names: seq<string>)
    requires Valid(s)
    ensures forall n :: n in ShownAmong(s, s.order, Some(names)) ==> n in names
  {
    ShownAmongMembers(s, s.order, Some(names));
  }
}
