# Director property sets, view event filter and splash-screen progress, in Dafny

This project models three pieces of the Director application.

**The observable property store** (`src/python/director/propertyset.py`):
- `PropertySet` keeps an insertion-ordered dictionary of property paths to values, a dictionary of per-property `PropertyAttributes`, and an alias dictionary.
- The alias dictionary maps `cleanPropertyName(path)` back to the path. Attribute-style access (`ps.my_prop`) goes through it.
- Adds, changes and attribute changes are signalled through a callback registry. Here that registry is an event log.
- Enum-valued properties store an index, and labels are resolved on `setProperty`.
- Pickling (`__getstate__` / `__setstate__`) replays `addProperty` over the stored items.
- `PropertyPanelHelper` maps panel entries to store paths:
  - it joins parent names with `/`;
  - it rewrites an edited list element as a whole-list write;
  - it chooses which properties the panel shows.
- `PropertyPanelConnector` keeps a panel and a store in step:
  - a `_blockSignals` guard stops the panel's echoes of programmatic writes from reaching the store;
  - a single-shot timer debounces rebuilds.

**The view event filter** (`src/director/vieweventfilter.py`):
- It separates clicks from drags. A press records its position, and a move of more than 3 (Manhattan distance) cancels the click.
- It dispatches to overridable hooks and reports whether any of them consumed the event.
- It keeps named handler lists that are called in order until one returns true.

**Splash-screen import progress** (`src/director/splash_screen.py`):
- the `Organization/Application` settings-name parser;
- the tracker that counts newly imported modules;
- the calibration run count and running averages;
- the de-duplicated progress callback;
- the re-entrancy and throttling guard of the import hook.

Modules:

| file | module | contents |
|---|---|---|
| `wrappers.dfy` | `Wrappers` | `Option` |
| `seqs.dfy` | `Seqs` | repetition-free sequences, `Without` (ordered-dict `pop`), clamped `Insert` (Python `list.insert`), `FirstIndex` (Python `index`) |
| `strings.dfy` | `Strings` | Python `str.split` on one character, `join`, slicing `[:end]`, substring `str.index` |
| `py_values.dfy` | `PyValues` | property values, Python `==` across bool/int/float and lists, truthiness, `list.index`, subscripting with negative indices |
| `property_names.dfy` | `PropertyNames` | `cleanPropertyName` |
| `property_attributes.dfy` | `Attributes` | `PropertyAttributes` and its defaults |
| `property_store.dfy` | `PropertyStore` | the store as a value, and each `PropertySet` operation as a step function returning the new store, the events and the outcome |
| `property_store_lemmas.dfy` | `StoreProofs` | invariant preservation, inverses, idempotence, enum round trips, the pickling round trip |
| `property_set.dfy` | `PropertySets` | class `PropertySet`, with fields updated in place and each method proved equal to its step function |
| `panel_helper.dfy` | `PanelHelper` | `getFullName`, `setPropertyFromPanel`, `addPropertiesToPanel` |
| `panel_connector.dfy` | `PanelConnector` | class `PropertyPanelConnector` |
| `view_event_filter.dfy` | `ViewEvents` | `eventFilter` as a step function plus class `ViewEventFilter` |
| `splash_screen.dfy` | `Splash` | parser, `ModuleImportTracker`, `SplashCalibration`, `ImportProgressController`, `ProcessEventsImportHook` |

## Model

| member | source | states |
|---|---|---|
| PropertyNames.CleanPropertyNameShape | src/python/director/propertyset.py:13-20 | an alias holds only `a-z`, `0-9` and `_`; it never starts with a digit; it is one character longer than the name exactly when the name starts with a digit; every other character is the sanitised character at its place |
| PropertyNames.CleanPropertyNameIdempotent | src/python/director/propertyset.py:13-20 | sanitising an alias again gives the same alias |
| PropertyNames.CleanPropertyNameFixesAliases | src/python/director/propertyset.py:13-20 | a name of alias characters that does not start with a digit is its own alias |
| Attributes.MakeAttributes | src/python/director/propertyset.py:23-30 | `PropertyAttributes(**kwargs)`: each given field takes its value; every other field takes its default (decimals 5, range -1e4..1e4, step 1, not hidden, no enum names, editable, empty docstring) |
| Attributes.PropertyAttributes.With | src/python/director/propertyset.py:206-209 | assigning a field changes that field and no other |
| PropertyStore.PropertyNamesOf | src/python/director/propertyset.py:115-116 | `propertyNames()` lists every property exactly once |
| PropertyStore.Get | src/python/director/propertyset.py:154-155 | `getProperty` returns the stored value and raises KeyError exactly for an unknown name |
| PropertyStore.HasProperty | src/python/director/propertyset.py:118-119 | `hasProperty` is true exactly when `getProperty` does not raise |
| PropertyStore.GetAttribute | src/python/director/propertyset.py:199-201 | `getPropertyAttribute` reads the named field of a known property |
| PropertyStore.GetEnumValue | src/python/director/propertyset.py:157-159 | `getPropertyEnumValue` returns the label at the stored index; it fails when the property has no enum names |
| PropertyStore.Resolve | src/python/director/propertyset.py:191-193 | with truthy labels and a value that is not an int, the stored value is `labels.index(value)`: for a list, the position of the first label `==` to it, or ValueError when there is none; for a string, the first position where the value occurs as a substring, ValueError when it does not occur and TypeError when the value is not a string; any other truthy labels raise AttributeError. An int, or a value with no labels, is stored as it is, with no range check |
| Strings.FindSubstring | src/python/director/propertyset.py:193 | `str.index(sub)` on string labels: the first position where `sub` occurs, and None (ValueError) exactly when it occurs nowhere |
| PropertyStore.SetIndex | src/python/director/propertyset.py:180-186 | `setPropertyIndex` raises AssertionError and changes nothing exactly when the name is unknown or the index is out of range; it never changes a value, an attribute or an alias; it fires no event |
| PropertyStore.Add | src/python/director/propertyset.py:166-178 | `addProperty`: a new name whose alias is taken raises ValueError and changes nothing; otherwise the value, the attributes (or the defaults) and the alias are stored, an existing name keeps its place and a new one comes last; exactly one PropertyAdded event fires, and none when the index assertion fails |
| PropertyStore.Remove | src/python/director/propertyset.py:161-164 | `removeProperty` deletes the property, its attributes and its alias; it fires no event; an unknown name raises KeyError with the store unchanged |
| PropertyStore.Set | src/python/director/propertyset.py:188-197 | `setProperty`: an unknown name raises KeyError and an unknown label ValueError; a resolved value `==` to the stored one changes nothing and fires nothing; any other value is stored and exactly one PropertyChanged event fires; keys, attributes and aliases never change |
| PropertyStore.SetAttribute | src/python/director/propertyset.py:206-211 | `setPropertyAttribute`: a field already `==` to the value changes nothing; otherwise only that field changes and exactly one PropertyAttributeChanged event fires |
| PropertyStore.GetState | src/python/director/propertyset.py:94-96 | `__getstate__` lists the items in insertion order and hands over the attributes |
| PropertyStore.SetState | src/python/director/propertyset.py:98-102 | `__setstate__` fires only PropertyAdded events and can fail only with ValueError (an alias collision) |
| PropertyStore.ReplayOnlyAdds | src/python/director/propertyset.py:101-102 | the replay loop adds only PropertyAdded events and only ValueError |
| PropertyStore.AddedEvents | src/python/director/propertyset.py:178 | one PropertyAdded event per name, in order |
| PropertyStore.GetAttr | src/python/director/propertyset.py:213-221 | `__getattribute__`: a member wins (a class member, one inherited from `object`, or an attribute an earlier `__setattr__` bound on the instance); otherwise an alias reads the property it stands for; anything else raises AttributeError |
| PropertyStore.SetAttr | src/python/director/propertyset.py:223-234 | `__setattr__`: an alias that is not a member writes through `setProperty` and binds nothing; any other name is bound on the instance and the property store fires nothing and keeps its properties |
| PropertyStore.ValueChangedArgument | src/python/director/propertyset.py:127-137 | a `connectPropertyValueChanged` callback fires only for a change of the watched property; it receives the enum label when the property has truthy enum names, and the raw value otherwise |
| StoreProofs.SetIndexPreservesValid | src/python/director/propertyset.py:180-186 | a reorder keeps the store invariant |
| StoreProofs.SetIndexPlacesName | src/python/director/propertyset.py:180-186 | after a reorder the name is at the requested index, the length is the same, and the other names keep their relative order |
| StoreProofs.AddKeepsValid | src/python/director/propertyset.py:166-175 | the three writes of `addProperty` keep the invariant when the alias is free or already the name's own |
| StoreProofs.AddKeepsOrder | src/python/director/propertyset.py:173 | writing a key of the ordered dictionary keeps the key order repetition-free and in step with the keys |
| StoreProofs.AddKeepsAliases | src/python/director/propertyset.py:167-175 | recording the alias keeps the alias map exactly { clean(p) : p } |
| StoreProofs.AddPreservesValid | src/python/director/propertyset.py:166-178 | `addProperty` keeps the invariant on every path, including both that raise |
| StoreProofs.AddPlacesName | src/python/director/propertyset.py:166-186 | re-adding keeps the place; a new name comes last; with an index the name ends up at that index |
| StoreProofs.RemovePreservesValid | src/python/director/propertyset.py:161-164 | removing a present name never raises on a valid store, and the store stays valid |
| StoreProofs.SetPreservesValid | src/python/director/propertyset.py:188-211 | `setProperty` and `setPropertyAttribute` keep the invariant |
| StoreProofs.RemoveUndoesAdd | src/python/director/propertyset.py:161-178 | removing a freshly added property gives back exactly the store before the add |
| StoreProofs.RemoveAfterAdd | src/python/director/propertyset.py:161-175 | the same, for the three dictionaries written out |
| StoreProofs.AddAfterRemove | src/python/director/propertyset.py:161-178 | a removed property can be added again: the add succeeds, the name comes last, and the new value is read back |
| StoreProofs.EnumLabelRoundTrip | src/python/director/propertyset.py:157-159 | setting an enum label stores its index, and `getPropertyEnumValue` then returns a label `==` to the one set |
| StoreProofs.UnknownEnumLabelRefused | src/python/director/propertyset.py:191-193 | an unknown label raises ValueError and leaves the store and the events as they were |
| StoreProofs.EnumNamesReplacedKeepIndex | src/python/director/propertyset.py:157-159 | replacing the enum names keeps the stored index, and `getPropertyEnumValue` reads the new label at that index |
| StoreProofs.SetIdempotent | src/python/director/propertyset.py:188-197 | setting the same value again changes nothing and fires nothing |
| StoreProofs.SetAttributeIdempotent | src/python/director/propertyset.py:206-211 | setting the same attribute value again changes nothing and fires nothing |
| StoreProofs.AliasMatchesPath | src/python/director/propertyset.py:213-234 | the alias of a property reads its value and writes it through `setProperty`, unless a member shadows the alias |
| StoreProofs.BoundNameShadowsAlias | src/python/director/propertyset.py:223-234 | once `__setattr__` has bound a name on the instance, that name reads as the instance attribute and assigning it leaves the store alone, whatever properties are added later |
| StoreProofs.ReplayStaysRaised | src/python/director/propertyset.py:101-102 | once an `addProperty` of the replay raises, the later items are not reached |
| StoreProofs.ReplayKeepsEarlierEvents | src/python/director/propertyset.py:101-102 | the replay appends its events after those already fired |
| StoreProofs.ReplayPreservesValid | src/python/director/propertyset.py:98-102 | replaying any items leaves a valid store |
| StoreProofs.ReplayCompletesPrefix | src/python/director/propertyset.py:98-102 | replaying a store's remaining items onto its first `k` properties rebuilds the whole store |
| StoreProofs.StateRoundTrip | src/python/director/propertyset.py:94-102 | `__setstate__(__getstate__())` rebuilds the same names in the same order, with the same values, attributes and aliases, and fires one PropertyAdded per property |
| PropertySets.PropertySet.constructor | src/python/director/propertyset.py:104-113 | a new property set is empty and valid |
| PropertySets.PropertySet.SetPropertyIndex | src/python/director/propertyset.py:180-186 | the fields become the store `SetIndex` computes |
| PropertySets.PropertySet.AddProperty | src/python/director/propertyset.py:166-178 | the fields and the event log become what `Add` computes |
| PropertySets.PropertySet.RemoveProperty | src/python/director/propertyset.py:161-164 | the three deletions, made in turn, leave what `Remove` computes |
| PropertySets.PropertySet.SetProperty | src/python/director/propertyset.py:188-197 | the fields and the event log become what `Set` computes |
| PropertySets.PropertySet.SetPropertyAttribute | src/python/director/propertyset.py:206-211 | the fields and the event log become what `SetAttribute` computes |
| PropertySets.PropertySet.SetAttributeByAlias | src/python/director/propertyset.py:223-234 | the fields, the event log and the names bound on the instance become what `SetAttr` computes |
| PropertySets.PropertySet.SetState | src/python/director/propertyset.py:98-102 | `__setstate__` in place: the fields and the log become what `SetState` computes, and the result is valid whatever the state held |
| PropertySets.PropertySet.ReplayItems | src/python/director/propertyset.py:101-102 | the `addProperty` loop leaves what the replay function computes |
| PropertySets.PropertySet.ReplayItem | src/python/director/propertyset.py:102 | one pass of that loop advances the replay by one item, and a raise ends it |
| PanelHelper.Path | src/python/director/propertyset.py:289-295 | the chain of names from the root entry down ends with the entry's own name |
| PanelHelper.GetFullName | src/python/director/propertyset.py:289-295 | the loop up the parents builds the entry's full name |
| PanelHelper.FullNameJoinsPath | src/python/director/propertyset.py:289-295 | the full name is the names from the root down, joined with `/` |
| PanelHelper.FullNameSplitsToPath | src/python/director/propertyset.py:289-295 | splitting a full name on `/` gives back the chain of names when no name holds a `/` |
| PanelHelper.FullNameOfSplitPath | src/python/director/propertyset.py:289-295 | an entry whose chain of names is a path split on `/` has that path as its full name |
| PanelHelper.ListPathStripsSuffix | src/python/director/propertyset.py:306-307 | the suffix `" [" + rest` is stripped back to the list's own name |
| PanelHelper.ListEditWritesBack | src/python/director/propertyset.py:306-313 | editing list element `i` copies the stored list, changes only index `i`, and writes the whole list back; when the result is `==` to the stored list nothing changes and no event fires, otherwise exactly one PropertyChanged event fires for the list |
| PanelHelper.EditReachesPath | src/python/director/propertyset.py:297-328 | an edit of a nested entry that is not a list element is a `setProperty` of its `/`-joined path |
| PanelHelper.PanelEditPreservesValid | src/python/director/propertyset.py:297-328 | a panel edit keeps the store invariant |
| PanelHelper.SetPropertyFromPanel | src/python/director/propertyset.py:297-328 | the property set ends up as `PanelEdit` computes: top-level entries set their own name, parentless sub-entries are ignored, list elements write the list back, and KeyError, TypeError and IndexError are raised as in the source |
| PanelHelper.ShownAmongMembers | src/python/director/propertyset.py:240-254 | the panel is given exactly those listed properties that are not None, not hidden, and requested when a list of names was given |
| PanelHelper.ShownAmongOrdered | src/python/director/propertyset.py:240-254 | each shown property is given once, in the store's order |
| PanelHelper.AddPropertiesToPanel | src/python/director/propertyset.py:240-254 | the loop hands the panel exactly the names `ShownAmong` lists, in order |
| PanelConnector.PropertyPanelConnector.constructor | src/python/director/propertyset.py:394-412 | the panel is built from the requested names with the guard up; echoes leave the store alone; afterwards the guard is down and no rebuild is pending |
| PanelConnector.PropertyPanelConnector.Cleanup | src/python/director/propertyset.py:414-419 | after cleanup a firing timer no longer rebuilds, store signals no longer reach the connector, and panel edits no longer reach the store (see `OnPanelPropertyChanged`) |
| PanelConnector.PropertyPanelConnector.Rebuild | src/python/director/propertyset.py:421-423 | `_rebuild` starts the timer only when it is not already active |
| PanelConnector.PropertyPanelConnector.RebuildNow | src/python/director/propertyset.py:425-429 | the rebuild shows the same requested names as the first build; echoes leave the store alone; the guard is down afterwards |
| PanelConnector.PropertyPanelConnector.RebuildNowAsWritten | src/python/director/propertyset.py:425-429 | as written, the rebuild shows every visible property, whatever names were requested |
| PanelConnector.TwoPropertiesValid | src/python/director/propertyset.py:166-178 | the two-property store used below (properties "a" and "b", each its own alias) satisfies the store invariant |
| PanelConnector.RebuildNowAsWrittenShowsUnrequested | src/python/director/propertyset.py:410-411 | on that store with only "a" requested, the first build shows ["a"] and the as-written rebuild shows ["a", "b"] |
| PanelConnector.RebuildKeepsRequestedNames | src/python/director/propertyset.py:425-429 | the corrected rebuild shows only requested names |
| PanelConnector.PropertyPanelConnector.TimerFires | src/python/director/propertyset.py:416-429 | a pending timer fires once; it rebuilds only while the callback is still set, and then with the corrected rebuild (the requested names; see Findings) |
| PanelConnector.PropertyPanelConnector.OnPropertyAdded | src/python/director/propertyset.py:431-432 | an added property schedules a rebuild |
| PanelConnector.PropertyPanelConnector.OnPropertyAttributeChanged | src/python/director/propertyset.py:434-435 | an attribute change schedules a rebuild |
| PanelConnector.PropertyPanelConnector.OnPropertyChanged | src/python/director/propertyset.py:437-440 | a value change is written to the panel with the guard up, so its echoes leave the store unchanged, and the guard is down afterwards |
| PanelConnector.PropertyPanelConnector.DeliverEchoes | src/python/director/propertyset.py:442-445 | while the guard is up, panel signals change neither the store nor the event log |
| PanelConnector.PropertyPanelConnector.OnPanelPropertyChanged | src/python/director/propertyset.py:442-445 | a panel edit reaches the store (as `PanelEdit` computes) exactly when the panel signal is still connected and the guard is down; otherwise the store and the event log are unchanged |
| PanelConnector.PropertyPanelConnector.DeliverAll | src/python/director/propertyset.py:421-440 | a burst of store signals leaves a rebuild pending exactly when one was pending or the connector is connected and some signal was an add or an attribute change; it starts the timer at most once and leaves the store unchanged |
| ViewEvents.Distance | src/director/vieweventfilter.py:55-61 | `manhattanLength` of the difference is zero exactly for equal points |
| ViewEvents.PressRecordsStart | src/director/vieweventfilter.py:39-51 | a left press records the left start and a right press the right start; the other start is kept; a middle press or a double click records nothing |
| ViewEvents.MoveClearsFarStarts | src/director/vieweventfilter.py:53-65 | a move clears each start exactly when it is more than 3 away (at exactly 3 the start is kept); `onMouseMove` is called exactly when neither start remains |
| ViewEvents.ReleaseClicksIffStarted | src/director/vieweventfilter.py:67-77 | a release always calls its release hook first; the click hook follows exactly when that button's start was still set; afterwards that start is cleared |
| ViewEvents.KeyHooks | src/director/vieweventfilter.py:82-88 | `onKeyPress` fires only for non-repeat presses, `onKeyPressRepeat` for every press, and `onKeyRelease` only for non-repeat releases |
| ViewEvents.ClickOnlyOnRelease | src/director/vieweventfilter.py:35-91 | at most two hooks are called per event; a click hook comes only right after its own release hook |
| ViewEvents.NearMovesKeepStart | src/director/vieweventfilter.py:53-62 | moves that stay within 3 of a recorded left start keep it |
| ViewEvents.MovesKeepLeftCleared | src/director/vieweventfilter.py:53-62 | moves never restore a cleared left start |
| ViewEvents.RunAppend | src/director/vieweventfilter.py:35-91 | running two event sequences in turn is running their concatenation |
| ViewEvents.StillPressClicks | src/director/vieweventfilter.py:42-71 | a left press, moves within 3 of it, then a left release: the release calls `onLeftClick` |
| ViewEvents.DragCancelsClick | src/director/vieweventfilter.py:42-71 | a left press, moves of which one goes further than 3, then a left release: `onLeftClick` is not called |
| ViewEvents.ViewEventFilter.constructor | src/director/vieweventfilter.py:15-21 | no press is recorded and no handler is registered |
| ViewEvents.ViewEventFilter.EventFilter | src/director/vieweventfilter.py:35-91 | the two starts change as `Filter` says, the hooks it lists are called in that order, and the result is true exactly when one of them returned true |
| ViewEvents.ViewEventFilter.Dispatch | src/director/vieweventfilter.py:40 | `self.onX(event) or consumed` always calls the hook, and ORs its answer in |
| ViewEvents.ViewEventFilter.AddHandler | src/director/vieweventfilter.py:93-95 | the handler is appended to its event type's list, which is created when missing; no other list changes |
| ViewEvents.CalledCount | src/director/vieweventfilter.py:97-102 | the handlers called are those up to and including the first that returns true, or all of them when none does |
| ViewEvents.ViewEventFilter.CallHandler | src/director/vieweventfilter.py:97-102 | handlers are called in registration order up to the first that returns true; the result is true exactly when one did, and false when none is registered |
| ViewEvents.CalledCountStopsAtFirst | src/director/vieweventfilter.py:99-101 | when the first true answer is at position `i`, exactly `i + 1` handlers are called |
| ViewEvents.CalledCountWithoutTrue | src/director/vieweventfilter.py:99-102 | when no handler returns true, every handler is called |
| ViewEvents.AddedHandlerRunsLast | src/director/vieweventfilter.py:93-102 | a newly added handler never pre-empts earlier ones; it is reached only when none of them returned true |
| ViewEvents.ViewEventFilter.OnStartRender | src/director/vieweventfilter.py:193-195 | the start-render handlers are called as `callHandler` calls them |
| ViewEvents.ViewEventFilter.OnEndRender | src/director/vieweventfilter.py:197-199 | the end-render handlers are called as `callHandler` calls them |
| Splash.ParseSplashSettingsName | src/director/splash_screen.py:15-19 | returns (org, app) exactly when splitting on `/` gives two non-empty parts, and raises RuntimeError otherwise |
| Splash.ParseJoined | src/director/splash_screen.py:15-19 | two non-empty names without `/`, joined by `/`, parse back to themselves |
| Splash.ParsedRejoins | src/director/splash_screen.py:15-19 | whatever parses is its two parts joined by `/` |
| Splash.NewNames | src/director/splash_screen.py:187-193 | the names reported as new are exactly the snapshot's names not seen before, each once |
| Splash.NewNamesCount | src/director/splash_screen.py:189-192 | the count grows by the number of distinct names not seen before |
| Splash.NewNamesIdempotent | src/director/splash_screen.py:187-196 | once a snapshot has been taken in, the same snapshot holds nothing new |
| Splash.ModuleImportTracker.constructor | src/director/splash_screen.py:172-179 | a new tracker has seen exactly the baseline, and its count is 0 |
| Splash.ModuleImportTracker.ResetProgressBaseline | src/director/splash_screen.py:184-185 | the count becomes 0 and the seen names are kept |
| Splash.ModuleImportTracker.UpdateFromSysModules | src/director/splash_screen.py:187-201 | the seen set becomes the old one with the snapshot added; the count grows by the number of new names; the widget gets one block of new names, one per line, only when there are new names and a widget exists |
| Splash.Mean | src/director/splash_screen.py:233-242 | the mean times the number of runs is their sum |
| Splash.RunningMean | src/director/splash_screen.py:237-241 | folding a run into the mean of the earlier runs gives the mean of all of them |
| Splash.SplashCalibration.constructor | src/director/splash_screen.py:213-219 | the run count and both averages start from the values `_load` read from the settings, and nothing has been saved yet |
| Splash.SplashCalibration.HasData | src/director/splash_screen.py:221-222 | there is data exactly when both averages are positive |
| Splash.SplashCalibration.Update | src/director/splash_screen.py:233-243 | a non-positive duration or module count changes nothing; otherwise the run count grows by exactly 1, both averages fold in the run, and the run is saved; a stored run count of -1 divides by zero first |
| Splash.NotifiedProperties | src/director/splash_screen.py:287-296 | the callback never receives the same value twice in a row; it receives only estimated values; after an estimate that is not None, the last value it received is that estimate |
| Splash.ImportProgressController.constructor | src/director/splash_screen.py:274-285 | nothing has been reported |
| Splash.ImportProgressController.Update | src/director/splash_screen.py:287-296 | the callback runs only for an estimate that is not None and differs from the last one reported, which it then becomes |
| Splash.ProcessEventsImportHook.constructor | src/director/splash_screen.py:307-319 | the hook starts idle, with no processing time recorded |
| Splash.ProcessEventsImportHook.FindSpec | src/director/splash_screen.py:321-337 | always returns None; while already processing, or within the minimum interval, it does nothing; otherwise it updates the tracker and the progress once, pumps events once, turns nested imports away, and leaves `_processing` as it found it |

## Left out

- The panel widget (`ddPropertiesPanel`) is not part of this model.
  - A panel is a list of entries with names, parents, sub-entry indices and values.
  - A rebuild is the list of names handed to `_addProperty`.
  - `_addProperty`, `_setPropertyAttributes`, `getPanelProperty` and `onPropertyValueChanged` build and update widgets only, and are not modelled. The signals those writes provoke are given to the connector as a sequence of echoes.
- After a list-element edit, `setPropertyFromPanel` renames the list's group label (lines 315-317). That step uses `getPropertyGroupName`'s `'%.2f'` float formatting and only touches the widget, so it is not modelled. It also raises ValueError when the edited entry's own name has no `[`; the model does not raise there.
- `fromQColor` and `toQProperty` are taken as the identity: colours and numpy values are not among the modelled value types.
- The callback registry (`callbacks.CallbackRegistry`) is an event log. Callbacks run after the operation, not re-entrantly while it is running. `__setstate__` recreating the registry is not modelled, and the log keeps its earlier events.
- The `connect...`/`disconnect...` registration methods are not modelled. `ValueChangedArgument` states what a value-changed callback receives.
- `getPropertyAttributes` returns the attributes record itself. Aliasing between that record and the store is not modelled: attributes are values.
- PanelConnector.PropertyPanelConnector.TimerFires: the timer runs the corrected rebuild, `RebuildNow`, which keeps the requested names. The source's timer runs `_rebuildNow` as written, which shows every visible property. `RebuildNowAsWritten` models the as-written rebuild (see Findings).
- PropertyStore.SetAttr: assigning `callbacks`, `_properties`, `_attributes` or `_alternateNames` replaces that field of the object with an arbitrary Python value. The model records the name as bound and leaves the property store as it was. Assigning `__class__` or `__dict__` (which change the object's class or namespace) is not modelled either.
- PropertyStore.GetAttr: an instance attribute reads as `ObjectMember`, without its value.
- `PropertyNames.CleanPropertyName`: `\W` and `lower()` are treated as ASCII. Other Unicode letters and digits become `_` instead of being kept.
- `PanelHelper.PanelEdit` takes the edited entry's value to be a model value. `list(value)` on values other than lists and strings raises TypeError.
- The store invariant is proved for the step functions (`StoreProofs.*PreservesValid`), not restated in each `PropertySet` method's contract. `PropertySet.SetState` is the exception: it ensures `Valid()` outright.
- `ViewEventFilter`:
  - What the overridable hooks and the named handlers return is a parameter.
  - `getMousePositionInView`, `getCursorDisplayPosition`, `removeEventFilter` and the VTK render observers are widget glue.
- `SplashCalibration`:
  - Floats are modelled as exact `real`s.
  - `estimate_progress` (float ratios truncated to a percentage) is not modelled; the controller takes the estimate as an input.
  - Settings persistence is a log of saved runs.
- `ProcessEventsImportHook.find_spec`:
  - The clock, `sys.modules` and the estimate are inputs.
  - Exceptions raised inside the `try` are not modelled; the `finally` clause is modelled on the normal path.
- `SplashScreen` (phases, widget layout, `sys.meta_path`) and `SplashWidget` are not part of this model.

## Findings

| source | as written | input that shows it | evidently intended | confidence | as-written member | corrected member |
|---|---|---|---|---|---|---|
| src/python/director/propertyset.py:425-429 | `_rebuildNow` calls `addPropertiesToPanel(self.propertySet, self.propertiesPanel)` without `self.propertyNamesToAdd`, so after the first rebuild the panel shows every visible property | a store with visible properties "a" and "b", and a connector created with `propertyNamesToAdd=["a"]`: it first shows ["a"]; after any add or attribute change the timer rebuilds with ["a", "b"] | the rebuild passes `self.propertyNamesToAdd`, as `__init__` does, so the panel keeps showing only the requested names | not executed | PanelConnector.PropertyPanelConnector.RebuildNowAsWritten, PanelConnector.RebuildNowAsWrittenShowsUnrequested, PanelConnector.TwoPropertiesValid | PanelConnector.PropertyPanelConnector.RebuildNow |
