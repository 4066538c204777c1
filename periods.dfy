/** Loader periods: how they are read from the configuration, when a loader
    is active, which loaders run in an epoch, and which epochs of a stage
    would run no loader at all. */
module Periods {
  import opened Wrappers

  /** A loader is known by its name; its data-loader handle is never inspected. */
  type LoaderName = string

  /** A configured period as the callback receives it: a number (already
      truncated to an integer, as `int(period)` does) or a value of some
      other type, known only by the name of that type. */
  datatype PeriodValue = Number(n: int) | OtherType(typeName: string)

  /** The two errors the callback raises: a `TypeError` naming the rejected
      type, and a `ValueError` naming an epoch that has no loader. */
  datatype Error = InvalidPeriodType(typeName: string) | NoLoadersInEpoch(epoch: int)

  /** Configuration entries in keyword order. */
  type Config = seq<(LoaderName, PeriodValue)>

  /** Loader periods after construction. */
  type PeriodMap = map<LoaderName, int>

  predicate Distinct(s: seq<LoaderName>) {
    forall i, j :: 0 <= i < j < |s| ==> s[i] != s[j]
  }

  /** The loader names among the first `n` configuration entries. */
  function ConfiguredNames(config: Config, n: nat): set<LoaderName>
    requires n <= |config|
  {
    set i | 0 <= i < n :: config[i].0
  }

  /** No entry in `config[i+1..n]` names the loader of entry `i`: the value
      of entry `i` is the one a dictionary built from `config[..n]` keeps. */
  predicate LastBefore(config: Config, i: int, n: int)
    requires 0 <= i < n <= |config|
  {
    forall k :: i < k < n ==> config[k].0 != config[i].0
  }

  /** Builds the loader-period map from the configuration, entry by entry,
      rejecting the first value that is not a number. */
  method ParsePeriods(config: Config) returns (r: Result<PeriodMap, Error>)
    ensures r.Failure? <==> exists i :: 0 <= i < |config| && config[i].1.OtherType?
    ensures r.Failure? ==>
      exists i :: 0 <= i < |config| && config[i].1.OtherType? &&
        r.error == InvalidPeriodType(config[i].1.typeName) &&
        forall j :: 0 <= j < i ==> config[j].1.Number?
    ensures r.Success? ==> r.value.Keys == ConfiguredNames(config, |config|)
    ensures r.Success? ==>
      forall i :: 0 <= i < |config| && LastBefore(config, i, |config|) ==>
        config[i].0 in r.value && config[i].1 == Number(r.value[config[i].0])
  {
    var periods: PeriodMap := map[];
    var i := 0;
    while i < |config|
      invariant 0 <= i <= |config|
      invariant forall j :: 0 <= j < i ==> config[j].1.Number?
      invariant periods.Keys == ConfiguredNames(config, i)
      invariant forall j :: 0 <= j < i && LastBefore(config, j, i) ==>
        config[j].0 in periods && config[j].1 == Number(periods[config[j].0])
    {
      var name := config[i].0;
      var period := config[i].1;
      if period.OtherType? {
        return Failure(InvalidPeriodType(period.typeName));
      }
      StoreLastValue(config, i, periods);
      periods := periods[name := period.n];
      i := i + 1;
    }
    return Success(periods);
  }

  /** One step of ParsePeriods keeps its loop invariant. */
  lemma StoreLastValue(config: Config, i: int, periods: PeriodMap)
    requires 0 <= i < |config| && config[i].1.Number?
    requires periods.Keys == ConfiguredNames(config, i)
    requires forall j :: 0 <= j < i && LastBefore(config, j, i) ==>
      config[j].0 in periods && config[j].1 == Number(periods[config[j].0])
    ensures var next := periods[config[i].0 := config[i].1.n];
      next.Keys == ConfiguredNames(config, i + 1) &&
      forall j :: 0 <= j < i + 1 && LastBefore(config, j, i + 1) ==>
        config[j].0 in next && config[j].1 == Number(next[config[j].0])
  {
    var next := periods[config[i].0 := config[i].1.n];
    forall j | 0 <= j < i + 1 && LastBefore(config, j, i + 1)
      ensures config[j].0 in next && config[j].1 == Number(next[config[j].0])
    {
      if j < i {
        assert LastBefore(config, j, i);
        assert config[i].0 != config[j].0;
      }
    }
    assert ConfiguredNames(config, i + 1) == ConfiguredNames(config, i) + {config[i].0};
  }

  /** The period a loader runs with: its configured one, or 1 when it has none. */
  function EffectivePeriod(periods: PeriodMap, name: LoaderName): int {
    if name in periods then periods[name] else 1
  }

  /** A loader runs in an epoch when its period is positive and divides the
      epoch. For a positive divisor Dafny's `%` and Python's `%` agree. */
  predicate IsActive(periods: PeriodMap, name: LoaderName, epoch: int) {
    var p := EffectivePeriod(periods, name);
    p > 0 && epoch % p == 0
  }

  /** The loaders of `names` that run in `epoch`, in the order of `names`. */
  function ActiveLoaders(periods: PeriodMap, names: seq<LoaderName>, epoch: int): (r: seq<LoaderName>)
    ensures forall x :: x in r <==> x in names && IsActive(periods, x, epoch)
    ensures |r| <= |names|
  {
    if names == [] then []
    else
      var last := names[|names| - 1];
      ActiveLoaders(periods, names[..|names| - 1], epoch) +
        (if IsActive(periods, last, epoch) then [last] else [])
  }

  /** `a` is `b` with some elements removed and the rest kept in order. */
  predicate Subsequence(a: seq<LoaderName>, b: seq<LoaderName>)
    decreases |b|
  {
    if b == [] then a == []
    else
      (a != [] && a[|a| - 1] == b[|b| - 1] && Subsequence(a[..|a| - 1], b[..|b| - 1])) ||
      Subsequence(a, b[..|b| - 1])
  }

  /** The loaders of an epoch keep the registry order: they are a subsequence of it. */
  lemma {:induction false} ActiveLoadersSubsequence(periods: PeriodMap, names: seq<LoaderName>, epoch: int)
    ensures Subsequence(ActiveLoaders(periods, names, epoch), names)
    decreases |names|
  {
    if names != [] {
      var init := names[..|names| - 1];
      var last := names[|names| - 1];
      ActiveLoadersSubsequence(periods, init, epoch);
      var prefix := ActiveLoaders(periods, init, epoch);
      var r := ActiveLoaders(periods, names, epoch);
      if IsActive(periods, last, epoch) {
        assert r == prefix + [last];
        assert r[..|r| - 1] == prefix;
      } else {
        assert r == prefix;
      }
    }
  }

  /** Filtering a registry without repeated names yields no repeated names. */
  lemma {:induction false} ActiveLoadersDistinct(periods: PeriodMap, names: seq<LoaderName>, epoch: int)
    requires Distinct(names)
    ensures Distinct(ActiveLoaders(periods, names, epoch))
    decreases |names|
  {
    if names != [] {
      var init := names[..|names| - 1];
      ActiveLoadersDistinct(periods, init, epoch);
    }
  }

  /** A registry none of whose loaders is active has no loader for the epoch. */
  lemma {:induction false} NoneActive(periods: PeriodMap, names: seq<LoaderName>, epoch: int)
    requires forall j :: 0 <= j < |names| ==> !IsActive(periods, names[j], epoch)
    ensures ActiveLoaders(periods, names, epoch) == []
    decreases |names|
  {
    if names != [] {
      NoneActive(periods, names[..|names| - 1], epoch);
    }
  }

  /** The first loader of an epoch is the first active loader of the registry. */
  lemma {:induction false} ActiveLoadersFirst(periods: PeriodMap, names: seq<LoaderName>, epoch: int, k: int)
    requires 0 <= k < |names| && IsActive(periods, names[k], epoch)
    requires forall j :: 0 <= j < k ==> !IsActive(periods, names[j], epoch)
    ensures ActiveLoaders(periods, names, epoch) != []
    ensures ActiveLoaders(periods, names, epoch)[0] == names[k]
    decreases |names|
  {
    var init := names[..|names| - 1];
    var prefix := ActiveLoaders(periods, init, epoch);
    if k == |names| - 1 {
      NoneActive(periods, init, epoch);
    } else {
      ActiveLoadersFirst(periods, init, epoch, k);
    }
  }

  /** A loader without a configured period runs in every epoch. */
  lemma UnconfiguredAlwaysActive(periods: PeriodMap, names: seq<LoaderName>, name: LoaderName, epoch: int)
    requires name in names && name !in periods
    ensures name in ActiveLoaders(periods, names, epoch)
  {
  }

  /** A loader whose period is zero or negative never runs. */
  lemma NonPositiveNeverActive(periods: PeriodMap, names: seq<LoaderName>, name: LoaderName, epoch: int)
    requires name in periods && periods[name] <= 0
    ensures name !in ActiveLoaders(periods, names, epoch)
  {
  }

  /** The stage-start scan's test for epoch `n`: every configured period is
      zero or does not divide `n`. Python's `n % p` and Dafny's differ for a
      negative `p`, but are zero for the same `n` and `p`. */
  predicate SilentEpoch(periods: PeriodMap, n: int) {
    forall name :: name in periods ==> periods[name] == 0 || n % periods[name] != 0
  }

  /** With no negative period, the scan's test for an epoch holds exactly
      when no configured loader is active in it. */
  lemma SilentEpochMeansNoConfiguredActive(periods: PeriodMap, n: int)
    requires forall name :: name in periods ==> periods[name] >= 0
    ensures SilentEpoch(periods, n) <==> forall name :: name in periods ==> !IsActive(periods, name, n)
  {
  }

  /** The epochs of `1..numEpochs` that pass the scan's test, in increasing order. */
  function SilentEpochs(periods: PeriodMap, numEpochs: int): (r: seq<int>)
    ensures forall n :: n in r <==> 1 <= n <= numEpochs && SilentEpoch(periods, n)
    ensures forall i, j :: 0 <= i < j < |r| ==> r[i] < r[j]
    ensures forall i :: 0 <= i < |r| ==> r[i] <= numEpochs
    decreases numEpochs
  {
    if numEpochs < 1 then []
    else
      var earlier := SilentEpochs(periods, numEpochs - 1);
      assert forall i :: 0 <= i < |earlier| ==> earlier[i] < numEpochs;
      if SilentEpoch(periods, numEpochs) then earlier + [numEpochs] else earlier
  }

  /** The epoch the scan reports is the smallest silent epoch of the stage. */
  lemma SilentEpochsFirst(periods: PeriodMap, numEpochs: int)
    requires SilentEpochs(periods, numEpochs) != []
    ensures var e := SilentEpochs(periods, numEpochs)[0];
      1 <= e <= numEpochs && SilentEpoch(periods, e) &&
      forall m :: 1 <= m < e ==> !SilentEpoch(periods, m)
  {
    var r := SilentEpochs(periods, numEpochs);
    assert r[0] in r;
    forall m | 1 <= m < r[0] ensures !SilentEpoch(periods, m) {
      assert m !in r;
    }
  }

  /** When every configured loader is in the registry, the scan found no
      silent epoch and no period is negative, every epoch of the stage has a
      loader to run. */
  lemma {:induction false} ScanGuaranteesLoaders(periods: PeriodMap, names: seq<LoaderName>, numEpochs: int, epoch: int)
    requires forall name :: name in periods ==> name in names
    requires forall name :: name in periods ==> periods[name] >= 0
    requires SilentEpochs(periods, numEpochs) == []
    requires 1 <= epoch <= numEpochs
    ensures ActiveLoaders(periods, names, epoch) != []
  {
    assert epoch !in SilentEpochs(periods, numEpochs);
    var name :| name in periods && periods[name] != 0 && epoch % periods[name] == 0;
    assert name in ActiveLoaders(periods, names, epoch);
  }

  /** A registry holding at least one unconfigured loader has a loader to
      run in every epoch, so an empty epoch needs every registered loader to
      have a period. */
  lemma UnconfiguredLoaderKeepsEpochsBusy(periods: PeriodMap, names: seq<LoaderName>, epoch: int)
    requires exists name :: name in names && name !in periods
    ensures ActiveLoaders(periods, names, epoch) != []
  {
    var name :| name in names && name !in periods;
    assert name in ActiveLoaders(periods, names, epoch);
  }

  /** A negative period that divides the epoch passes the scan, although the
      loader never runs: the scan alone does not rule out an empty epoch. */
  lemma NegativePeriodEscapesScan()
    ensures SilentEpochs(map["train" := -1], 3) == []
    ensures ActiveLoaders(map["train" := -1], ["train"], 1) == []
  {
    var p := map["train" := -1];
    assert p["train"] == -1 && 1 % -1 == 0 && 2 % -1 == 0 && 3 % -1 == 0;
    assert !SilentEpoch(p, 1) && !SilentEpoch(p, 2) && !SilentEpoch(p, 3);
    assert SilentEpochs(p, 0) == [];
  }

  /** Periods {A: 1, B: 2, C: 3}: the loaders of epochs 1 to 6. */
  lemma ExampleSchedule()
    ensures var p := map["A" := 1, "B" := 2, "C" := 3];
      var names := ["A", "B", "C"];
      ActiveLoaders(p, names, 1) == ["A"] &&
      ActiveLoaders(p, names, 2) == ["A", "B"] &&
      ActiveLoaders(p, names, 3) == ["A", "C"] &&
      ActiveLoaders(p, names, 4) == ["A", "B"] &&
      ActiveLoaders(p, names, 5) == ["A"] &&
      ActiveLoaders(p, names, 6) == ["A", "B", "C"]
  {
    var p := map["A" := 1, "B" := 2, "C" := 3];
    assert EffectivePeriod(p, "A") == 1 && EffectivePeriod(p, "B") == 2 && EffectivePeriod(p, "C") == 3;
    ActiveLoadersOfThree(p, "A", "B", "C", 1);
    ActiveLoadersOfThree(p, "A", "B", "C", 2);
    ActiveLoadersOfThree(p, "A", "B", "C", 3);
    ActiveLoadersOfThree(p, "A", "B", "C", 4);
    ActiveLoadersOfThree(p, "A", "B", "C", 5);
    ActiveLoadersOfThree(p, "A", "B", "C", 6);
  }

  /** The loaders of a three-loader registry, one loader at a time. */
  lemma ActiveLoadersOfThree(periods: PeriodMap, a: LoaderName, b: LoaderName, c: LoaderName, epoch: int)
    ensures ActiveLoaders(periods, [a, b, c], epoch) ==
      (if IsActive(periods, a, epoch) then [a] else []) +
      (if IsActive(periods, b, epoch) then [b] else []) +
      (if IsActive(periods, c, epoch) then [c] else [])
  {
    assert [a, b, c][..2] == [a, b];
    assert [a, b][..1] == [a];
    assert [a][..0] == [];
    assert ActiveLoaders(periods, [a], epoch) == (if IsActive(periods, a, epoch) then [a] else []);
    assert ActiveLoaders(periods, [a, b], epoch) ==
      ActiveLoaders(periods, [a], epoch) + (if IsActive(periods, b, epoch) then [b] else []);
  }

  /** Periods {A: 2, B: 3}: whatever the stage's length, the scan reports epoch 1. */
  lemma ExampleSilentFirstEpoch(numEpochs: int)
    requires numEpochs >= 1
    ensures SilentEpochs(map["A" := 2, "B" := 3], numEpochs) != []
    ensures SilentEpochs(map["A" := 2, "B" := 3], numEpochs)[0] == 1
  {
    var p := map["A" := 2, "B" := 3];
    assert SilentEpoch(p, 1);
    assert 1 in SilentEpochs(p, numEpochs);
    SilentEpochsFirst(p, numEpochs);
  }
}
