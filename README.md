# Periodic loader callback, modelled in Dafny

This project models `PeriodicLoaderCallback` from Catalyst. The callback runs
each named data loader only in the epochs its period divides. For every epoch
it also chooses the loader the runner treats as the validation loader. When
the real validation loader is skipped, it replays that loader's last metrics.

- `wrappers.dfy`: module `Wrappers`, with `Option` and `Result`.
- `periods.dfy`: module `Periods`. It holds the construction loop that turns
  keyword configuration into the period map (`ParsePeriods`), the activity
  predicate (`IsActive`) and the per-epoch filter (`ActiveLoaders`). It also
  holds the stage-start scan for epochs with no loader (`SilentEpochs`) and
  the lemmas about all of these.
- `periodic_loader_callback.dfy`: module `PeriodicLoader`. The runner is a
  class with the fields the callback reads and writes. The callback is a
  class whose `OnStageStart`, `OnEpochStart` and `OnEpochEnd` methods update
  the callback and the runner as the source does. Each method is proved
  against the pure functions of `Periods`.

Loaders are represented by their names, in registry order. The data-loader
handles are never inspected. Metrics are maps from metric name to `real`.
The two Python exceptions are the `Error` datatype: `InvalidPeriodType(type)`
stands for the `TypeError`, and `NoLoadersInEpoch(epoch)` for both
`ValueError`s. A method that raises returns the error in an `Option` or
`Result` out-parameter.

Python's `%` floors and Dafny's `%` is Euclidean. They agree when the divisor
is positive, which covers the epoch-start test. For a negative divisor they
differ in value, but both are zero exactly when the divisor divides the epoch.
That zero test is the only use the stage-start scan makes of `%`.

## Model

| member | source | states |
|---|---|---|
| `Periods.ParsePeriods` | catalyst/contrib/dl/callbacks/periodic_loader_callback.py:60-67 | fails exactly when some value is not a number, reporting the type of the first such value; otherwise the map's keys are exactly the configured names and each name maps to its (last) configured integer |
| `Periods.EffectivePeriod` | catalyst/contrib/dl/callbacks/periodic_loader_callback.py:126 | defines the period a loader runs with: its configured value, or 1 when it has none |
| `Periods.IsActive` | catalyst/contrib/dl/callbacks/periodic_loader_callback.py:128 | defines activity: the effective period is positive and divides the epoch |
| `Periods.ActiveLoaders` | catalyst/contrib/dl/callbacks/periodic_loader_callback.py:124-129 | a name is in the epoch's loaders iff it is registered and its effective period (configured, else 1) is positive and divides the epoch |
| `Periods.ActiveLoadersSubsequence` | catalyst/contrib/dl/callbacks/periodic_loader_callback.py:124-129 | the epoch's loaders keep registry order: they are a subsequence of the registered loaders |
| `Periods.ActiveLoadersDistinct` | catalyst/contrib/dl/callbacks/periodic_loader_callback.py:124-129 | filtering a registry without repeated names gives no repeated names |
| `Periods.NoneActive` | catalyst/contrib/dl/callbacks/periodic_loader_callback.py:124-130 | when no registered loader is active the epoch's loader set is empty |
| `Periods.ActiveLoadersFirst` | catalyst/contrib/dl/callbacks/periodic_loader_callback.py:124-132 | the first loader of the epoch is the first active loader in registry order |
| `Periods.UnconfiguredAlwaysActive` | catalyst/contrib/dl/callbacks/periodic_loader_callback.py:126-128 | a registered loader without a configured period runs in every epoch |
| `Periods.NonPositiveNeverActive` | catalyst/contrib/dl/callbacks/periodic_loader_callback.py:126-128 | a loader whose period is zero or negative never runs |
| `Periods.SilentEpoch` | catalyst/contrib/dl/callbacks/periodic_loader_callback.py:93-96 | defines the scan's test for one epoch: every configured period is 0 or does not divide it |
| `Periods.SilentEpochMeansNoConfiguredActive` | catalyst/contrib/dl/callbacks/periodic_loader_callback.py:93-96 | with no negative period, an epoch passes the scan's test exactly when no configured loader is active in it |
| `Periods.SilentEpochs` | catalyst/contrib/dl/callbacks/periodic_loader_callback.py:91-99 | the scan's list holds exactly the epochs in 1..num_epochs where every period is 0 or does not divide the epoch, in increasing order |
| `Periods.SilentEpochsFirst` | catalyst/contrib/dl/callbacks/periodic_loader_callback.py:100-104 | the epoch the scan reports is the smallest silent epoch of the stage |
| `Periods.ScanGuaranteesLoaders` | catalyst/contrib/dl/callbacks/periodic_loader_callback.py:89-131 | when every configured loader is registered, no period is negative and the scan found nothing, every epoch in 1..num_epochs has a loader to run |
| `Periods.UnconfiguredLoaderKeepsEpochsBusy` | catalyst/contrib/dl/callbacks/periodic_loader_callback.py:124-131 | a registry with an unconfigured loader never has an empty epoch |
| `Periods.NegativePeriodEscapesScan` | catalyst/contrib/dl/callbacks/periodic_loader_callback.py:91-131 | period -1 passes the scan for epochs 1..3, yet the loader never runs: the scan's guarantee needs non-negative periods |
| `Periods.ExampleSchedule` | catalyst/contrib/dl/callbacks/periodic_loader_callback.py:124-129 | periods A:1, B:2, C:3 give the loader sets {A}, {A,B}, {A,C}, {A,B}, {A}, {A,B,C} for epochs 1 to 6 |
| `Periods.ExampleSilentFirstEpoch` | catalyst/contrib/dl/callbacks/periodic_loader_callback.py:91-104 | periods A:2, B:3: for any stage of at least one epoch the scan reports epoch 1 |
| `PeriodicLoader.Register` | catalyst/contrib/dl/callbacks/periodic_loader_callback.py:79-80 | registering keeps the earlier loaders as a prefix and appends the new names in the runner's order (they form a subsequence of the runner's loaders); afterwards the registry holds exactly the old names and the runner's names, with no name repeated |
| `PeriodicLoader.RegisterFirstStage` | catalyst/contrib/dl/callbacks/periodic_loader_callback.py:79-80 | on a fresh callback, registering a runner without repeated names stores exactly the runner's loaders in its order |
| `PeriodicLoader.LoadersMatch` | catalyst/contrib/dl/callbacks/periodic_loader_callback.py:83-89 | defines the scan's guard: every configured name is a runner loader and there are as many periods as loaders |
| `PeriodicLoader.LoadersMatchSameNames` | catalyst/contrib/dl/callbacks/periodic_loader_callback.py:83-89 | for a runner without repeated names the guard holds exactly when the configured names are the runner's loader names |
| `PeriodicLoader.EffectiveValidLoader` | catalyst/contrib/dl/callbacks/periodic_loader_callback.py:132-137 | the epoch's validation loader is always one of the epoch's loaders |
| `PeriodicLoader.DesignatedValidLoaderKept` | catalyst/contrib/dl/callbacks/periodic_loader_callback.py:132-137 | when the designated validation loader runs in the epoch, it is the epoch's validation loader |
| `PeriodicLoader.FallbackValidLoader` | catalyst/contrib/dl/callbacks/periodic_loader_callback.py:132-137 | when the designated validation loader does not run, the first active registered loader becomes the validation loader |
| `PeriodicLoader.StageScanPreventsEmptyEpochs` | catalyst/contrib/dl/callbacks/periodic_loader_callback.py:79-131 | a stage whose configured names match the runner's loaders, whose periods are non-negative and whose scan passed has a loader in every epoch, whatever earlier stages registered |
| `PeriodicLoader.ExtraConfiguredNameSkipsScan` | catalyst/contrib/dl/callbacks/periodic_loader_callback.py:83-131 | a configured name missing from the runner skips the scan, and epoch 1 can then be empty; the error comes at that epoch's start instead |
| `PeriodicLoader.NewPeriodicLoaderCallback` | catalyst/contrib/dl/callbacks/periodic_loader_callback.py:49-67 | construction fails with the first bad type; otherwise the new callback has the parsed periods, no loaders, no validation loader and no cached metrics |
| `PeriodicLoader.PeriodicLoaderCallback.constructor` | catalyst/contrib/dl/callbacks/periodic_loader_callback.py:56-60 | a new callback has no loaders, no validation loader, no cached metrics and the given periods |
| `PeriodicLoader.PeriodicLoaderCallback.OnStageStart` | catalyst/contrib/dl/callbacks/periodic_loader_callback.py:69-104 | registers the runner's loaders and records its validation loader, even when it then fails; fails iff the key sets match and some epoch in 1..num_epochs is silent, naming the smallest such epoch |
| `PeriodicLoader.PeriodicLoaderCallback.OnEpochStart` | catalyst/contrib/dl/callbacks/periodic_loader_callback.py:106-138 | fails iff no registered loader is active, naming the epoch and leaving the runner untouched; otherwise sets the runner's loaders to the active ones and its validation loader to one of them, with no name repeated |
| `PeriodicLoader.PeriodicLoaderCallback.OnEpochEnd` | catalyst/contrib/dl/callbacks/periodic_loader_callback.py:140-152 | if the validation loader ran, the cache becomes the runner's metrics and the runner is unchanged; else if a cache exists, the runner gets it and loses its best flag; else nothing changes |

## Left out

- Data-loader handles: loaders are names only. Re-registering a name in a later stage replaces its handle in the source; with names only, that replacement cannot be observed (the name keeps its place either way).
- The `Callback` base class and its ordering value `CallbackOrder.validation + 1`: framework plumbing with no logic here.
- Float periods and `int()` truncation: a configured value is either an integer, already truncated, or a value of another type. That `bool` passes the type test is not modelled.
- Error messages: only the error kind and, for the loader errors, the epoch number are kept. The `TypeError` carries the rejected type's name, as the source's message does.
- Metric computation and the training loop that calls the callback: outside this component.
- PeriodicLoader.PeriodicLoaderCallback.OnEpochEnd: the source gives the runner the cached metrics object itself, not a copy. Later changes the runner makes to that object would then show in the cache. Maps here are values, so this sharing is not modelled.
- `Runner.loaders` is an ordered dictionary in the source. Here it is a sequence of names, and the scan's count test compares the number of periods with the sequence's length. The two counts agree whenever the runner holds no repeated name, which a dictionary guarantees.
