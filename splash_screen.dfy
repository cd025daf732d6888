/**
 * The import-progress machinery of the splash screen: parsing the settings
 * name, tracking newly imported modules, the calibration run count and
 * running averages, the progress notifications and the import hook's
 * re-entrancy guard.
 *
 * `sys.modules` is an input sequence of module names, the clock an input
 * `now`, the progress estimate an input `Option<int>`; floating-point
 * numbers are `real`.
 */
module Splash {

  import opened Wrappers
  import opened Seqs
  import opened Strings
  import opened PyValues

  /**
   * `_parse_splash_settings_name`: "Organization/Application" into its two
   * parts; anything that does not split on '/' into exactly two non-empty
   * parts raises `RuntimeError`.
   */
  function ParseSplashSettingsName(value: string): (r: Result<(string, string)>)
    ensures var parts := Split(value, '/');
            r.Ok? <==> |parts| == 2 && parts[0] != "" && parts[1] != ""
    ensures r.Err? ==> r.error == RuntimeError
    ensures r.Ok? ==> r.value.0 != "" && r.value.1 != "" && '/' !in r.value.0 && '/' !in r.value.1
  {
    var parts := Split(value, '/');
    if |parts| != 2 || parts[0] == "" || parts[1] == "" then Err(RuntimeError)
    else Ok((parts[0], parts[1]))
  }

  /** Joining two valid parts with '/' parses back to them. */
  lemma ParseJoined(org: string, app: string)
    requires org != "" && app != "" && '/' !in org && '/' !in app
    ensures ParseSplashSettingsName(org + "/" + app) == Ok((org, app))
  {
    SplitAfterHead(org, '/', app);
    SplitWithoutSeparator(app, '/');
    assert org + "/" + app == org + ['/'] + app;
  }

  /** Whatever parses is the two parts joined by '/'. */
  lemma ParsedRejoins(value: string)
    requires ParseSplashSettingsName(value).Ok?
    ensures var (org, app) := ParseSplashSettingsName(value).value; value == org + "/" + app
  {
    var parts := Split(value, '/');
    JoinSplit(value, '/');
    assert parts == [parts[0]] + [parts[1]];
    assert Join(parts, "/") == parts[0] + "/" + Join(parts[1..], "/");
  }

  /**
   * The names of `names` not in `seen`, each at its first occurrence, in
   * order: the names `update_from_sys_modules` reports as new.
   */
  function NewNames(seen: set<string>, names: seq<string>): (unseen: seq<string>)
    ensures forall x :: x in unseen <==> x in names && x !in seen
    ensures NoDuplicates(unseen)
    decreases |names|
  {
    if names == [] then []
    else
      var init := names[..|names| - 1];
      var last := names[|names| - 1];
      var earlier := NewNames(seen, init);
      assert names == init + [last];
      if last in seen || last in earlier then earlier else earlier + [last]
  }

  /** A sequence without repetitions has as many distinct elements as entries. */
  lemma {:induction false} DistinctCount(xs: seq<string>)
    requires NoDuplicates(xs)
    ensures |Elems(xs)| == |xs|
    decreases |xs|
  {
    if xs != [] {
      var init := xs[..|xs| - 1];
      assert xs == init + [xs[|xs| - 1]];
      assert Elems(xs) == Elems(init) + {xs[|xs| - 1]};
      assert xs[|xs| - 1] !in Elems(init);
      DistinctCount(init);
    }
  }

  /** The count of new names is the number of distinct names not seen before. */
  lemma NewNamesCount(seen: set<string>, names: seq<string>)
    ensures |NewNames(seen, names)| == |Elems(names) - seen|
  {
    var unseen := NewNames(seen, names);
    assert Elems(unseen) == Elems(names) - seen;
    DistinctCount(unseen);
  }

  /** Once a snapshot has been taken in, the same snapshot holds nothing new. */
  lemma NewNamesIdempotent(seen: set<string>, names: seq<string>)
    ensures NewNames(seen + Elems(names), names) == []
  {
    NewNamesCount(seen + Elems(names), names);
    assert Elems(names) - (seen + Elems(names)) == {};
  }

  /** `ModuleImportTracker`. */
  class ModuleImportTracker {
    /** Whether a module-list text widget is attached. */
    const hasTextWidget: bool
    /** The blocks appended to the text widget. */
    var text: seq<string>
    /** `_seen`. */
    var seen: set<string>
    /** `_imported_module_count`. */
    var importedModuleCount: nat

    /** `__init__`: the baseline is seen and nothing counted. */
    constructor (hasWidget: bool, baselineModules: set<string>)
      ensures hasTextWidget == hasWidget && seen == baselineModules
      ensures importedModuleCount == 0 && text == []
    {
      hasTextWidget := hasWidget;
      seen := baselineModules;
      importedModuleCount := 0;
      text := [];
    }

    /** `reset_progress_baseline`: the count restarts, the seen names stay. */
    method ResetProgressBaseline()
      modifies this
      ensures importedModuleCount == 0
      ensures seen == old(seen) && text == old(text)
    {
      importedModuleCount := 0;
    }

    /**
     * `update_from_sys_modules` over the module names `modules`: every name
     * not seen before is counted once and becomes seen; the new names are
     * appended to the widget, one per line, only when there are some and a
     * widget exists.
     */
    method UpdateFromSysModules(modules: seq<string>) returns (newModules: seq<string>)
      modifies this
      ensures newModules == NewNames(old(seen), modules)
      ensures seen == old(seen) + Elems(modules)
      ensures importedModuleCount == old(importedModuleCount) + |newModules|
      ensures text == old(text) + (if newModules != [] && hasTextWidget then [Join(newModules, "\n")] else [])
    {
      newModules := [];
      var i := 0;
      while i < |modules|
        invariant 0 <= i <= |modules|
        invariant newModules == NewNames(old(seen), modules[..i])
        invariant seen == old(seen) + Elems(modules[..i])
        invariant importedModuleCount == old(importedModuleCount) + |newModules|
        invariant text == old(text)
      {
        var name := modules[i];
        assert modules[..i + 1] == modules[..i] + [name];
        assert modules[..i + 1][..i] == modules[..i];
        if name !in seen {
          seen := seen + {name};
          importedModuleCount := importedModuleCount + 1;
          newModules := newModules + [name];
        }
        i := i + 1;
      }
      assert modules[..i] == modules;
      if newModules == [] {
        return;
      }
      if !hasTextWidget {
        return;
      }
      text := text + [Join(newModules, "\n")];
    }
  }

  /** The arithmetic mean of the recorded runs, 0.0 before any. */
  function Sum(xs: seq<real>): real
    decreases |xs|
  {
    if xs == [] then 0.0 else Sum(xs[..|xs| - 1]) + xs[|xs| - 1]
  }

  function Mean(xs: seq<real>): (m: real)
    ensures xs != [] ==> m * (|xs| as real) == Sum(xs)
  {
    if xs == [] then 0.0 else Sum(xs) / (|xs| as real)
  }

  /**
   * The update of `SplashCalibration.update` keeps the totals the mean of
   * the runs: folding a new run into the mean of `runs` gives the mean of
   * `runs` plus that run.
   */
  lemma RunningMean(runs: seq<real>, x: real)
    ensures (Mean(runs) * (|runs| as real) + x) / ((|runs| + 1) as real) == Mean(runs + [x])
  {
    assert (runs + [x])[..|runs|] == runs;
  }

  /** What `_save` writes to the settings group. */
  datatype SavedRun = SavedRun(runCount: int, totalImportTime: real, totalImportModules: real,
                               lastImportTime: real, lastImportModules: int)

  /** `SplashCalibration`, with the settings it loads from given as arguments. */
  class SplashCalibration {
    /** `_run_count`. */
    var runCount: int
    /** `_total_import_time_s`. */
    var totalImportTime: real
    /** `_total_import_modules`. */
    var totalImportModules: real
    /** Everything `_save` wrote, oldest first. */
    var saved: seq<SavedRun>

    /** `__init__` and `_load`: the stored values (or their defaults 0, 0.0, 0.0). */
    constructor (storedRunCount: int, storedImportTime: real, storedImportModules: real)
      ensures runCount == storedRunCount && totalImportTime == storedImportTime
      ensures totalImportModules == storedImportModules && saved == []
    {
      runCount := storedRunCount;
      totalImportTime := storedImportTime;
      totalImportModules := storedImportModules;
      saved := [];
    }

    /** `has_data`. */
    function HasData(): (r: bool)
      reads this
      ensures r <==> totalImportTime > 0.0 && totalImportModules > 0.0
    {
      totalImportTime > 0.0 && totalImportModules > 0.0
    }

    /**
     * `update`: a run with a non-positive duration or module count changes
     * nothing; any other run adds one to the run count, folds the run into
     * both averages and is saved. A stored run count of -1 makes the new
     * count 0 and the averaging divide by zero, before anything changes.
     */
    method Update(importDuration: real, importedModuleCount: int) returns (error: Option<PyError>)
      modifies this
      ensures error.Some? <==> importDuration > 0.0 && importedModuleCount > 0 && old(runCount) == -1
      ensures error.Some? ==> error.value == ZeroDivisionError
      ensures importDuration <= 0.0 || importedModuleCount <= 0 || error.Some? ==>
                runCount == old(runCount) && totalImportTime == old(totalImportTime)
                && totalImportModules == old(totalImportModules) && saved == old(saved)
      ensures importDuration > 0.0 && importedModuleCount > 0 && error.None? ==>
                && runCount == old(runCount) + 1
                && totalImportTime == (old(totalImportTime) * (old(runCount) as real) + importDuration) / (runCount as real)
                && totalImportModules == (old(totalImportModules) * (old(runCount) as real) + importedModuleCount as real) / (runCount as real)
                && saved == old(saved) + [SavedRun(runCount, totalImportTime, totalImportModules, importDuration, importedModuleCount)]
    {
      if importDuration <= 0.0 || importedModuleCount <= 0 {
        return None;
      }
      var newRunCount := runCount + 1;
      if newRunCount == 0 {
        return Some(ZeroDivisionError);
      }
      totalImportTime := (totalImportTime * (runCount as real) + importDuration) / (newRunCount as real);
      totalImportModules := (totalImportModules * (runCount as real) + importedModuleCount as real) / (newRunCount as real);
      runCount := newRunCount;
      saved := saved + [SavedRun(runCount, totalImportTime, totalImportModules, importDuration, importedModuleCount)];
      error := None;
    }
  }

  /**
   * The values handed to the progress callback by `ImportProgressController.update`
   * over a series of estimates: a value is passed on when it is not None and
   * differs from the last one passed on.
   */
  function Notified(estimates: seq<Option<int>>): (out: seq<int>)
    decreases |estimates|
  {
    if estimates == [] then []
    else
      var earlier := Notified(estimates[..|estimates| - 1]);
      match estimates[|estimates| - 1]
      case None => earlier
      case Some(p) => if earlier != [] && earlier[|earlier| - 1] == p then earlier else earlier + [p]
  }

  /** `_last_progress` after a series of estimates. */
  function LastProgress(estimates: seq<Option<int>>): Option<int> {
    var out := Notified(estimates);
    if out == [] then None else Some(out[|out| - 1])
  }

  /**
   * The callback never receives the same value twice in a row, receives
   * only values that were estimated, and after an estimate that is not
   * None the last value it received is that estimate.
   */
  lemma {:induction false} NotifiedProperties(estimates: seq<Option<int>>)
    ensures var out := Notified(estimates);
            && (forall k :: 0 <= k < |out| - 1 ==> out[k] != out[k + 1])
            && (forall p :: p in out ==> Some(p) in estimates)
            && |out| <= |estimates|
            && (estimates != [] && estimates[|estimates| - 1].Some? ==>
                  LastProgress(estimates) == estimates[|estimates| - 1])
    decreases |estimates|
  {
    if estimates != [] {
      var init := estimates[..|estimates| - 1];
      assert estimates == init + [estimates[|estimates| - 1]];
      NotifiedProperties(init);
    }
  }

  /** `ImportProgressController`, with the estimates it computes given as arguments. */
  class ImportProgressController {
    /** `_last_progress`. */
    var lastProgress: Option<int>
    /** The values passed to `_progress_callback`, oldest first. */
    var notified: seq<int>
    /** The estimates seen so far. */
    ghost var estimates: seq<Option<int>>

    ghost predicate Valid()
      reads this
    {
      notified == Notified(estimates) && lastProgress == LastProgress(estimates)
    }

    /** `__init__`: nothing reported yet. */
    constructor ()
      ensures Valid() && lastProgress == None && notified == [] && estimates == []
    {
      lastProgress := None;
      notified := [];
      estimates := [];
    }

    /**
     * `update` with the estimate `progress`: the callback is invoked only
     * when the estimate is not None and differs from the last one reported,
     * which it then becomes.
     */
    method Update(progress: Option<int>)
      requires Valid()
      modifies this
      ensures Valid() && estimates == old(estimates) + [progress]
      ensures progress.None? || progress == old(lastProgress) ==>
                notified == old(notified) && lastProgress == old(lastProgress)
      ensures progress.Some? && progress != old(lastProgress) ==>
                notified == old(notified) + [progress.value] && lastProgress == progress
    {
      estimates := estimates + [progress];
      assert estimates[..|estimates| - 1] == old(estimates);
      if progress.None? || progress == lastProgress {
        return;
      }
      notified := notified + [progress.value];
      lastProgress := progress;
    }
  }

  /** What `find_spec` returns: it never finds a module itself. */
  datatype ModuleSpec = ModuleSpec(name: string)

  /**
   * `ProcessEventsImportHook`: on an import it takes in the new modules,
   * updates the progress and pumps the event loop, at most once per
   * `minInterval` and never from inside its own pumping.
   */
  class ProcessEventsImportHook {
    const tracker: Option<ModuleImportTracker>
    const controller: Option<ImportProgressController>
    const minInterval: real
    /** `_last_process_time`. */
    var lastProcessTime: real
    /** `_processing`. */
    var processing: bool
    /** How many times `processEvents` ran. */
    var pumps: nat

    /** `__init__`. */
    constructor (t: Option<ModuleImportTracker>, c: Option<ImportProgressController>, interval: real)
      ensures tracker == t && controller == c && minInterval == interval
      ensures lastProcessTime == 0.0 && !processing && pumps == 0
    {
      tracker := t;
      controller := c;
      minInterval := interval;
      lastProcessTime := 0.0;
      processing := false;
      pumps := 0;
    }

    function Objects(): set<object>
      reads this
    {
      (if tracker.Some? then {tracker.value} else {}) + (if controller.Some? then {controller.value} else {})
    }

    /**
     * `find_spec` at time `now`, with `modules` the names in `sys.modules`,
     * `progress` the current estimate, and `nested` the times of the imports
     * the event pump itself triggers. It always returns None. While it is
     * already processing, or within `minInterval` of the last processing, it
     * does nothing; otherwise it processes exactly once (nested imports are
     * turned away) and `_processing` is false again when it returns.
     */
    method FindSpec(fullname: string, now: real, modules: seq<string>, progress: Option<int>, nested: seq<real>)
      returns (spec: Option<ModuleSpec>)
      requires controller.Some? ==> controller.value.Valid()
      modifies this, Objects()
      decreases |nested|
      ensures spec == None
      ensures processing == old(processing)
      ensures controller.Some? ==> controller.value.Valid()
      ensures old(processing) || now - old(lastProcessTime) < minInterval ==>
                && lastProcessTime == old(lastProcessTime) && pumps == old(pumps)
                && (tracker.Some? ==> unchanged(tracker.value))
                && (controller.Some? ==> unchanged(controller.value))
      ensures !old(processing) && now - old(lastProcessTime) >= minInterval ==>
                && lastProcessTime == now && pumps == old(pumps) + 1
                && (tracker.Some? ==>
                      && tracker.value.seen == old(tracker.value.seen) + Elems(modules)
                      && tracker.value.importedModuleCount ==
                           old(tracker.value.importedModuleCount) + |NewNames(old(tracker.value.seen), modules)|)
                && (controller.Some? ==> controller.value.estimates == old(controller.value.estimates) + [progress])
    {
      spec := None;
      if processing || now - lastProcessTime < minInterval {
        return;
      }
      processing := true;
      if tracker.Some? {
        var _ := tracker.value.UpdateFromSysModules(modules);
      }
      if controller.Some? {
        controller.value.Update(progress);
      }
      pumps := pumps + 1;
      ghost var afterPump := lastProcessTime;
      for k := 0 to |nested|
        invariant processing && lastProcessTime == afterPump && pumps == old(pumps) + 1
        invariant controller.Some? ==> controller.value.Valid()
        invariant tracker.Some? ==>
                    && tracker.value.seen == old(tracker.value.seen) + Elems(modules)
                    && tracker.value.importedModuleCount ==
                         old(tracker.value.importedModuleCount) + |NewNames(old(tracker.value.seen), modules)|
        invariant controller.Some? ==> controller.value.estimates == old(controller.value.estimates) + [progress]
      {
        var _ := FindSpec(fullname, nested[k], modules, progress, []);
      }
      processing := false;
      lastProcessTime := now;
    }
  }
}
