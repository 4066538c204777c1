/** The periodic-loader callback: at stage start it records the runner's
    loaders and validation loader and checks the stage for epochs without
    loaders; at epoch start it hands the runner only the loaders due in that
    epoch and a validation loader among them; at epoch end it caches the
    metrics of real validation epochs and replays them in the others. */
module PeriodicLoader {
  import opened Wrappers
  import opened Periods

  /** Validation metrics: metric name to value. */
  type Metrics = map<string, real>

  /** The part of the training runner the callback reads and writes. Loaders
      are an ordered dictionary in the runner; here they are its names in
      order. Nothing here rules out a repeated name, which a dictionary
      would (see the README's "Left out" section). */
  class Runner {
    var loaders: seq<LoaderName>
    var validLoader: LoaderName
    var validMetrics: Metrics
    var isBestValid: bool
    var epoch: int
    var numEpochs: int

    constructor (loaders: seq<LoaderName>, validLoader: LoaderName, numEpochs: int)
      ensures this.loaders == loaders && this.validLoader == validLoader
      ensures this.numEpochs == numEpochs && epoch == 0
      ensures validMetrics == map[] && !isBestValid
    {
      this.loaders := loaders;
      this.validLoader := validLoader;
      this.numEpochs := numEpochs;
      epoch := 0;
      validMetrics := map[];
      isBestValid := false;
    }
  }

  /** The stored loaders after registering `incoming`: a name seen before keeps
      its place, a new name is appended. Nothing is ever removed, so loaders of
      earlier stages stay registered. */
  function Register(stored: seq<LoaderName>, incoming: seq<LoaderName>): (r: seq<LoaderName>)
    ensures stored <= r
    ensures Subsequence(r[|stored|..], incoming)
    ensures forall x :: x in r <==> x in stored || x in incoming
    ensures Distinct(stored) ==> Distinct(r)
    decreases |incoming|
  {
    if incoming == [] then stored
    else
      var prefix := Register(stored, incoming[..|incoming| - 1]);
      var name := incoming[|incoming| - 1];
      if name in prefix then prefix
      else
        var tail := prefix[|stored|..];
        assert (prefix + [name])[|stored|..] == tail + [name];
        assert (tail + [name])[..|tail + [name]| - 1] == tail;
        prefix + [name]
  }

  /** A first stage registers the runner's loaders exactly, in its order. */
  lemma {:induction false} RegisterFirstStage(incoming: seq<LoaderName>)
    requires Distinct(incoming)
    ensures Register([], incoming) == incoming
    decreases |incoming|
  {
    if incoming != [] {
      var init := incoming[..|incoming| - 1];
      RegisterFirstStage(init);
      assert incoming[|incoming| - 1] !in init;
      assert init + [incoming[|incoming| - 1]] == incoming;
    }
  }

  /** The set of names of a sequence without repetition has one element per position. */
  lemma {:induction false} DistinctNamesCount(s: seq<LoaderName>)
    requires Distinct(s)
    ensures |set x | x in s| == |s|
    decreases |s|
  {
    if s != [] {
      var init := s[..|s| - 1];
      var last := s[|s| - 1];
      DistinctNamesCount(init);
      assert s == init + [last];
      assert (set x | x in s) == (set x | x in init) + {last};
      assert last !in (set x | x in init);
    }
  }

  /** The stage-start scan runs only when every configured loader is one of the
      runner's loaders and there are as many periods as loaders. */
  predicate LoadersMatch(periods: PeriodMap, loaders: seq<LoaderName>) {
    (forall name :: name in periods ==> name in loaders) && |periods| == |loaders|
  }

  /** For a runner without repeated loader names, the scan's guard holds
      exactly when the configured names are the runner's loader names. */
  lemma LoadersMatchSameNames(periods: PeriodMap, loaders: seq<LoaderName>)
    requires Distinct(loaders)
    ensures LoadersMatch(periods, loaders) <==> periods.Keys == set x | x in loaders
  {
    DistinctNamesCount(loaders);
    var names := set x | x in loaders;
    if LoadersMatch(periods, loaders) {
      var extra := names - periods.Keys;
      assert names == periods.Keys + extra;
      assert periods.Keys * extra == {};
      assert |extra| == 0;
    }
  }

  /** The validation loader of an epoch: the designated one when it runs,
      else the first loader of the epoch. */
  function EffectiveValidLoader(designated: Option<LoaderName>, active: seq<LoaderName>): (r: LoaderName)
    requires active != []
    ensures r in active
  {
    if designated.Some? && designated.value in active then designated.value else active[0]
  }

  class PeriodicLoaderCallback {
    /** The designated validation loader, recorded at stage start. */
    var validLoader: Option<LoaderName>
    /** The metrics of the latest epoch in which the validation loader ran. */
    var validMetrics: Option<Metrics>
    /** Every loader name registered so far, in registration order. */
    var loaders: seq<LoaderName>
    /** The configured periods; fixed at construction. */
    const loaderPeriods: PeriodMap

    ghost predicate Valid()
      reads this
    {
      Distinct(loaders)
    }

    constructor (periods: PeriodMap)
      ensures Valid()
      ensures loaderPeriods == periods
      ensures loaders == [] && validLoader == None && validMetrics == None
    {
      loaderPeriods := periods;
      loaders := [];
      validLoader := None;
      validMetrics := None;
    }

    /** Records the runner's loaders and validation loader; when the
        configured loaders are exactly the runner's, reports the first epoch
        of the stage in which no loader would run. The loaders are recorded
        even when the error is reported. */
    method OnStageStart(runner: Runner) returns (err: Option<Error>)
      requires Valid()
      modifies this`loaders, this`validLoader
      ensures Valid()
      ensures loaders == Register(old(loaders), runner.loaders)
      ensures validLoader == Some(runner.validLoader)
      ensures err.Some? <==>
        LoadersMatch(loaderPeriods, runner.loaders) &&
        exists n :: 1 <= n <= runner.numEpochs && SilentEpoch(loaderPeriods, n)
      ensures err.Some? ==>
        err.value.NoLoadersInEpoch? &&
        1 <= err.value.epoch <= runner.numEpochs && SilentEpoch(loaderPeriods, err.value.epoch) &&
        forall m :: 1 <= m < err.value.epoch ==> !SilentEpoch(loaderPeriods, m)
    {
      var i := 0;
      while i < |runner.loaders|
        invariant 0 <= i <= |runner.loaders|
        invariant loaders == Register(old(loaders), runner.loaders[..i])
      {
        var name := runner.loaders[i];
        assert runner.loaders[..i + 1][..i] == runner.loaders[..i];
        if name !in loaders {
          loaders := loaders + [name];
        }
        i := i + 1;
      }
      assert runner.loaders[..i] == runner.loaders;
      validLoader := Some(runner.validLoader);

      err := None;
      if LoadersMatch(loaderPeriods, runner.loaders) {
        var zeroLoaderEpochs := SilentEpochs(loaderPeriods, runner.numEpochs);
        if |zeroLoaderEpochs| > 0 {
          SilentEpochsFirst(loaderPeriods, runner.numEpochs);
          err := Some(NoLoadersInEpoch(zeroLoaderEpochs[0]));
        } else {
          assert forall n :: 1 <= n <= runner.numEpochs ==> !SilentEpoch(loaderPeriods, n) by {
            forall n | 1 <= n <= runner.numEpochs ensures !SilentEpoch(loaderPeriods, n) {
              assert n !in zeroLoaderEpochs;
            }
          }
        }
      }
    }

    /** Gives the runner the registered loaders due in the current epoch, in
        registration order, and a validation loader among them; fails, with
        the runner untouched, when no loader is due. */
    method OnEpochStart(runner: Runner) returns (err: Option<Error>)
      requires Valid()
      modifies runner`loaders, runner`validLoader
      ensures var active := ActiveLoaders(loaderPeriods, loaders, runner.epoch);
        if active == [] then
          err == Some(NoLoadersInEpoch(runner.epoch)) && unchanged(runner)
        else
          err == None && runner.loaders == active &&
          runner.validLoader == EffectiveValidLoader(validLoader, active)
      ensures err.Some? <==> forall name :: name in loaders ==> !IsActive(loaderPeriods, name, runner.epoch)
      ensures err.None? ==> Distinct(runner.loaders) && runner.validLoader in runner.loaders
    {
      var epochNum := runner.epoch;
      var epochLoaders: seq<LoaderName> := [];
      var i := 0;
      while i < |loaders|
        invariant 0 <= i <= |loaders|
        invariant epochLoaders == ActiveLoaders(loaderPeriods, loaders[..i], epochNum)
      {
        var name := loaders[i];
        var period := if name in loaderPeriods then loaderPeriods[name] else 1;
        assert loaders[..i + 1][..i] == loaders[..i];
        assert period == EffectivePeriod(loaderPeriods, name);
        if period > 0 && epochNum % period == 0 {
          epochLoaders := epochLoaders + [name];
        }
        i := i + 1;
      }
      assert loaders[..i] == loaders;
      if |epochLoaders| == 0 {
        assert forall name :: name in loaders ==> !IsActive(loaderPeriods, name, epochNum) by {
          forall name | name in loaders ensures !IsActive(loaderPeriods, name, epochNum) {
            assert name !in epochLoaders;
          }
        }
        return Some(NoLoadersInEpoch(epochNum));
      }
      assert epochLoaders[0] in loaders;
      ActiveLoadersDistinct(loaderPeriods, loaders, epochNum);
      runner.validLoader := EffectiveValidLoader(validLoader, epochLoaders);
      runner.loaders := epochLoaders;
      err := None;
    }

    /** Caches the runner's metrics when the validation loader ran this epoch;
        otherwise, once a cache exists, replays it and clears the runner's
        best-validation flag. */
    method OnEpochEnd(runner: Runner)
      modifies this`validMetrics, runner`validMetrics, runner`isBestValid
      ensures validLoader.Some? && validLoader.value in runner.loaders ==>
        validMetrics == Some(runner.validMetrics) && unchanged(runner)
      ensures !(validLoader.Some? && validLoader.value in runner.loaders) && old(validMetrics).Some? ==>
        validMetrics == old(validMetrics) &&
        runner.validMetrics == old(validMetrics).value && !runner.isBestValid &&
        runner.loaders == old(runner.loaders) && runner.validLoader == old(runner.validLoader)
      ensures !(validLoader.Some? && validLoader.value in runner.loaders) && old(validMetrics).None? ==>
        validMetrics == None && unchanged(runner)
    {
      if validLoader.Some? && validLoader.value in runner.loaders {
        validMetrics := Some(runner.validMetrics);
      } else if validMetrics.Some? {
        // The runner receives the cached object itself in the source; with
        // value-semantics maps the sharing cannot be observed.
        runner.validMetrics := validMetrics.value;
        runner.isBestValid := false;
      }
    }
  }

  /** Builds a callback from keyword configuration: fails on the first period
      that is not a number, otherwise stores every configured period. */
  method NewPeriodicLoaderCallback(config: Config) returns (r: Result<PeriodicLoaderCallback, Error>)
    ensures r.Failure? <==> exists i :: 0 <= i < |config| && config[i].1.OtherType?
    ensures r.Failure? ==>
      exists i :: 0 <= i < |config| && config[i].1.OtherType? &&
        r.error == InvalidPeriodType(config[i].1.typeName) &&
        forall j :: 0 <= j < i ==> config[j].1.Number?
    ensures r.Success? ==>
      fresh(r.value) && r.value.Valid() &&
      r.value.loaders == [] && r.value.validLoader == None && r.value.validMetrics == None &&
      r.value.loaderPeriods.Keys == ConfiguredNames(config, |config|) &&
      forall i :: 0 <= i < |config| && LastBefore(config, i, |config|) ==>
        config[i].0 in r.value.loaderPeriods &&
        config[i].1 == Number(r.value.loaderPeriods[config[i].0])
  {
    var periods := ParsePeriods(config);
    match periods
    case Failure(e) =>
      r := Failure(e);
    case Success(p) =>
      var callback := new PeriodicLoaderCallback(p);
      r := Success(callback);
  }

  /** The designated validation loader, when it runs in the epoch, is the
      epoch's validation loader. */
  lemma DesignatedValidLoaderKept(periods: PeriodMap, loaders: seq<LoaderName>, designated: LoaderName, epoch: int)
    requires designated in loaders && IsActive(periods, designated, epoch)
    ensures ActiveLoaders(periods, loaders, epoch) != []
    ensures EffectiveValidLoader(Some(designated), ActiveLoaders(periods, loaders, epoch)) == designated
  {
  }

  /** When the designated validation loader does not run, the epoch's
      validation loader is the first registered loader that runs. */
  lemma FallbackValidLoader(periods: PeriodMap, loaders: seq<LoaderName>, designated: Option<LoaderName>, epoch: int, k: int)
    requires designated.None? || designated.value !in loaders || !IsActive(periods, designated.value, epoch)
    requires 0 <= k < |loaders| && IsActive(periods, loaders[k], epoch)
    requires forall j :: 0 <= j < k ==> !IsActive(periods, loaders[j], epoch)
    ensures ActiveLoaders(periods, loaders, epoch) != []
    ensures EffectiveValidLoader(designated, ActiveLoaders(periods, loaders, epoch)) == loaders[k]
  {
    ActiveLoadersFirst(periods, loaders, epoch, k);
  }

  /** A stage whose configured loaders are exactly the runner's, whose
      periods are non-negative and whose scan passed, has a loader to run in
      every epoch, whatever earlier stages registered. */
  lemma StageScanPreventsEmptyEpochs(periods: PeriodMap, stored: seq<LoaderName>, incoming: seq<LoaderName>, numEpochs: int, epoch: int)
    requires LoadersMatch(periods, incoming)
    requires forall name :: name in periods ==> periods[name] >= 0
    requires SilentEpochs(periods, numEpochs) == []
    requires 1 <= epoch <= numEpochs
    ensures ActiveLoaders(periods, Register(stored, incoming), epoch) != []
  {
    ScanGuaranteesLoaders(periods, Register(stored, incoming), numEpochs, epoch);
  }

  /** A configured name the runner does not have skips the scan, yet an
      epoch of the stage may then have no loader: the error comes at that
      epoch's start instead. */
  lemma ExtraConfiguredNameSkipsScan()
    ensures !LoadersMatch(map["train" := 2, "valid" := 2, "extra" := 1], ["train", "valid"])
    ensures ActiveLoaders(map["train" := 2, "valid" := 2, "extra" := 1], Register([], ["train", "valid"]), 1) == []
  {
    var p := map["train" := 2, "valid" := 2, "extra" := 1];
    assert "extra" in p;
    RegisterFirstStage(["train", "valid"]);
    NoneActive(p, ["train", "valid"], 1);
  }
}
