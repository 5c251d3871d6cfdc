# Arvarga.Utils service repository and sample statistics, modelled in Dafny

This project models three C# classes of Arvarga.Utils.

**`ServiceRepository`** is a registry of (micro)services.
- Services are filed under every interface they implement that extends `IService`.
- An aggregate service is filed first, and its child services are then added recursively, depth first.
- Lookups are refused until the one-shot initialisation pass has started.
- The pass calls `Init` on every entry not yet initialised, in the dictionary's enumeration order. It keeps going after a failure and reports only the first one.

**`NumberStatPctileMean`**, in count mode, keeps a FIFO window of at most `maxCount` samples. It also keeps:
- the window's total and the all-time total and count;
- the all-time minimum and maximum;
- a lazily rebuilt sorted copy of the window, used for the lower median.

**`NumberStatAvg`** keeps a running count, total, minimum and maximum.

## Layout
- `wrappers.dfy` (`Wrappers`): `Option`, `Result` and `Outcome` (pass, or fail with an error). Exceptions become `Outcome`/`Result` values.
- `registry_model.dfy` (`RegistryModel`): the registry as a value `Repo`. It holds the lifecycle state, the dictionary from interface name to entry index, the dictionary's enumeration order, and the entries.
  - The entries are an arena. One `ServiceInfo` filed under several names is shared by index, as the source shares one object.
  - It also defines the specification functions `Register`, `RegisterAll`, `Lookup`, `RunInit`, `Walk`, `InitAll` and `InitWithServicesSpec`.
- `service_repository.dfy` (`ServiceRepo`): the class `ServiceRepository`. Its fields are those of the C# class, and each method is proved to produce the state and result of the specification function.
- `registry_props.dfy` (`RegistryProps`): what the registry promises, proved about the model:
  - filing order;
  - last registration wins;
  - aggregate transparency;
  - the guarantees of the initialisation pass;
  - order dependence through `mustBeUsable`.
- `registry_samples.dfy` (`RegistrySamples`): the sample services and the unit-test scenarios.
- `sample_math.dfy` (`SampleMath`): sums, folded minimum and maximum, mean, the window of the last samples, insertion sort, and the lower median.
  - The lower median is characterised by rank: fewer than (n+1)/2 samples lie below it and at least that many lie at or below it.
  - It is proved unique and independent of arrival order.
- `stat_avg.dfy` (`StatAvg`) and `stat_pctile_mean.dfy` (`StatPctileMean`): the two statistics classes.
  - Each has a ghost `history` of all samples added, and `Valid()` ties every field to it.
- `stat_scenarios.dfy` (`StatScenarios`): the statistics unit tests, driven through the classes with the expected values proved.

## Model

| member | source | states |
|---|---|---|
| ServiceRepo.ServiceRepository.constructor | Arvarga.Utils.ServiceRepo/ServiceRepository.cs:31-34 | A new repository is NotInitialized with an empty dictionary: the model of the new object is the empty registry |
| ServiceRepo.ServiceRepository.Add | Arvarga.Utils.ServiceRepo/ServiceRepository.cs:41-67 | From InitCallsStarted on: fails with RegistryClosed and changes nothing. Otherwise: creates one uninitialised entry, files it under every interface of the service (overwriting), moves to SomeAdded, adds an aggregate's children in order, and leaves exactly the state `Register` prescribes |
| ServiceRepo.ServiceRepository.FileInterfaces | Arvarga.Utils.ServiceRepo/ServiceRepository.cs:54-57 | The loop over the interfaces leaves the dictionary and its enumeration order exactly as `FileUnder` prescribes, and touches neither the entries nor the state |
| ServiceRepo.ServiceRepository.AddServices | Arvarga.Utils.ServiceRepo/ServiceRepository.cs:141-151 | Adds the services in the order given, with the resulting state `RegisterAll`. On a started registry a non-empty list fails with RegistryClosed and changes nothing |
| ServiceRepo.ServiceRepository.AddServiceInstanceFromDll | Arvarga.Utils.ServiceRepo/ServiceRepository.cs:224-232 | A loader result that is not a service is dropped silently; a service is passed to Add, with Add's outcome |
| ServiceRepo.ServiceRepository.Get | Arvarga.Utils.ServiceRepo/ServiceRepository.cs:69-118 | Before InitCallsStarted: NotReady. Unknown key: NotFound. With mustBeUsable, an uninitialised entry: NotYetInitialized. Otherwise the stored service. Succeeds exactly when all the gates pass |
| ServiceRepo.ServiceRepository.InitServices | Arvarga.Utils.ServiceRepo/ServiceRepository.cs:159-212 | The loop over the dictionary's values leaves the state and outcome of `InitAll`: a second call fails with AlreadyInitialized and changes nothing; otherwise it ends in InitCallsComplete and reports the first failure |
| ServiceRepo.ServiceRepository.InitWithServices | Arvarga.Utils.ServiceRepo/ServiceRepository.cs:125-135 | Clears the dictionary but not the state, adds the list, then runs the pass; state and outcome are those of `InitWithServicesSpec` |
| RegistryModel.FileUnder | Arvarga.Utils.ServiceRepo/ServiceRepository.cs:54-57 | Every interface maps to the new entry and every other key keeps its mapping. New keys are appended to the enumeration order; overwritten keys keep their place |
| RegistryModel.FileUnderKeysMatch | Arvarga.Utils.ServiceRepo/ServiceRepository.cs:54-57 | The enumeration order stays a duplicate-free listing of the dictionary's keys |
| RegistryModel.File | Arvarga.Utils.ServiceRepo/ServiceRepository.cs:50-59 | One fresh uninitialised entry is appended; every interface of the service maps to its index, and it is found under exactly those interfaces; all other lookups are unchanged, the state is SomeAdded, and the old order is a prefix of the new |
| RegistryModel.Register | Arvarga.Utils.ServiceRepo/ServiceRepository.cs:50-65 | Registration only appends entries and keys; the state is SomeAdded |
| RegistryModel.RegisterAll | Arvarga.Utils.ServiceRepo/ServiceRepository.cs:146-149 | An empty list changes nothing; a non-empty one leaves SomeAdded; entries and keys only grow |
| RegistryModel.Lookup | Arvarga.Utils.ServiceRepo/ServiceRepository.cs:74-115 | The three error gates in the source's order, and success exactly when every gate passes, returning the stored service |
| RegistryModel.RunScript | Arvarga.Utils.ServiceRepo.Test.Sample/CompoundFourService.cs:18-25 | A scripted Init passes exactly when every lookup succeeds; otherwise it fails with the error of the first failing lookup |
| RegistryModel.RunInit | Arvarga.Utils.ServiceRepo/ServiceRepository.cs:184-196 | Init passes exactly when its lookups pass and it does not throw; a failing lookup's error comes first, then Thrown |
| RegistryModel.Walk | Arvarga.Utils.ServiceRepo/ServiceRepository.cs:177-200 | The pass leaves everything except the initialised flags unchanged and never clears a flag |
| RegistryModel.InitAll | Arvarga.Utils.ServiceRepo/ServiceRepository.cs:159-212 | Already started: AlreadyInitialized and nothing changes. Otherwise: InitCallsComplete, and only flags change |
| RegistryModel.Cleared | Arvarga.Utils.ServiceRepo/ServiceRepository.cs:129 | Clear empties the dictionary and keeps the lifecycle state: every key is unmapped, and on a started registry every lookup is NotFound |
| RegistryModel.InitWithServicesSpec | Arvarga.Utils.ServiceRepo/ServiceRepository.cs:125-135 | On a started registry it leaves the dictionary empty and fails (RegistryClosed, or AlreadyInitialized for an empty list). Otherwise it equals AddServices then InitServices on the cleared registry |
| RegistryProps.RegisterIsPreorder | Arvarga.Utils.ServiceRepo/ServiceRepository.cs:61-65 | Add files the aggregate first, then its children in list order, depth first |
| RegistryProps.RegisterAllIsPreorder | Arvarga.Utils.ServiceRepo/ServiceRepository.cs:146-149 | AddServices files the depth-first expansion of the list, in order |
| RegistryProps.FileSeqAppend | Arvarga.Utils.ServiceRepo/ServiceRepository.cs:146-149 | Filing a concatenation is filing one part after the other |
| RegistryProps.LastProvider | Arvarga.Utils.ServiceRepo/ServiceRepository.cs:56 | None exactly when no service of the list implements the key; otherwise a service of the list that implements it |
| RegistryProps.FileSeqAt | Arvarga.Utils.ServiceRepo/ServiceRepository.cs:56 | Last registration wins: each key holds a fresh entry of the last service implementing it, or what it held before |
| RegistryProps.RegisterAllAt | Arvarga.Utils.ServiceRepo/ServiceRepository.cs:61-65 | After AddServices each key holds the last implementer in the depth-first expansion of the list |
| RegistryProps.AggregateTransparent | Arvarga.Utils.ServiceRepo/ServiceRepository.cs:61-65 | For every key the aggregate does not itself implement, adding the aggregate gives the same lookup as adding its children directly |
| RegistryProps.FirstFailure | Arvarga.Utils.ServiceRepo/ServiceRepository.cs:192-195 | None exactly when every recorded Init passed; otherwise there is a failing call |
| RegistryProps.FirstFailureIgnoresFlags | Arvarga.Utils.ServiceRepo/ServiceRepository.cs:192-195 | The first failure depends only on the calls and the services, not on the flags |
| RegistryProps.WalkSkipsInited | Arvarga.Utils.ServiceRepo/ServiceRepository.cs:181 | Init is called only on entries not initialised before the pass |
| RegistryProps.WalkSucceedsOnce | Arvarga.Utils.ServiceRepo/ServiceRepository.cs:181-188 | After a successful Init an entry is never called again, even when it is filed under several keys |
| RegistryProps.WalkFlags | Arvarga.Utils.ServiceRepo/ServiceRepository.cs:187-188 | After the pass an entry is initialised exactly when it was before, or when one of its Init calls succeeded |
| RegistryProps.WalkAttemptsAll | Arvarga.Utils.ServiceRepo/ServiceRepository.cs:177-200 | The pass does not stop at a failure: every entry under a remaining key is already initialised or has its Init called |
| RegistryProps.AttemptedStep | Arvarga.Utils.ServiceRepo/ServiceRepository.cs:177-200 | One step of the pass preserves "every remaining entry is attempted" |
| RegistryProps.WalkFirstError | Arvarga.Utils.ServiceRepo/ServiceRepository.cs:190-196 | Only the first error is kept: the pass reports the error it started with, or else the first failing Init tagged with its service name |
| RegistryProps.WalkNeverNotReady | Arvarga.Utils.ServiceRepo/ServiceRepository.cs:163-168 | The state is InitCallsStarted before any Init runs, so no lookup made from a callback fails for readiness |
| RegistryProps.InitAllContract | Arvarga.Utils.ServiceRepo/ServiceRepository.cs:159-212 | InitServices on an unstarted registry: ends in InitCallsComplete; skips initialised entries; calls each entry successfully at most once; sets flags exactly as Init succeeds; attempts every entry; no readiness failure; the outcome is the first failure or Pass. Besides, for any registry: the calls follow increasing positions of the dictionary's enumeration order; each call's Init runs against the registry in InitCallsStarted with exactly the flags set by the calls before it; every key passed over holds an entry already initialised at that moment; and an entry left uninitialised is called once for each key it is filed under |
| RegistryProps.WalkOrder | Arvarga.Utils.ServiceRepo/ServiceRepository.cs:177-200 | For any registry the pass calls Init at increasing key positions; call j is on the entry under its position, which is uninitialised then, and runs against the registry with the flags of the calls before it; every key skipped between calls holds an entry initialised at that moment; the final registry is the start with every passing call's flag set |
| RegistryProps.ReplayFlag | Arvarga.Utils.ServiceRepo/ServiceRepository.cs:181-188 | After a sequence of calls an entry is initialised exactly when it was before or one of the calls on it passed |
| RegistryProps.FailedRetried | Arvarga.Utils.ServiceRepo/ServiceRepository.cs:181-196 | A failing entry filed under a later key too is called again, no later than that key |
| RegistryProps.WalkRetriesFailed | Arvarga.Utils.ServiceRepo/ServiceRepository.cs:177-200 | An entry that ends the pass uninitialised was called once for every key position it is filed under |
| RegistryProps.InitTwice | Arvarga.Utils.ServiceRepo/ServiceRepository.cs:163-166 | A second InitServices fails with AlreadyInitialized and changes nothing |
| RegistryProps.RegisterTwo | Arvarga.Utils.ServiceRepo/ServiceRepository.cs:50-59 | Two plain services on an empty registry give entries 0 and 1 under their keys, in order |
| RegistryProps.PeerRegisteredAfterFails | Arvarga.Utils.ServiceRepo/ServiceRepository.cs:111-114 | A service that demands an initialised peer fails if the peer is registered after it, and the pass reports NotYetInitialized of the peer |
| RegistryProps.PeerRegisteredFirstSucceeds | Arvarga.Utils.ServiceRepo/ServiceRepository.cs:111-114 | Registering the peer first makes the same pass succeed |
| RegistryProps.TwoPass | Arvarga.Utils.ServiceRepo/ServiceRepository.cs:177-200 | A plain service followed by one that needs it initialised: the pass succeeds |
| RegistryProps.RegisterPlain | Arvarga.Utils.ServiceRepo/ServiceRepository.cs:146-149 | Plain single-interface services with new keys append one key and one entry each, in the order given |
| RegistryProps.FileOne | Arvarga.Utils.ServiceRepo/ServiceRepository.cs:50-59 | Filing a service with one new interface appends its key and its entry |
| RegistryProps.MarkInited | Arvarga.Utils.ServiceRepo/ServiceRepository.cs:188 | Marks a range of entries initialised and changes nothing else |
| RegistryProps.WalkInOrder | Arvarga.Utils.ServiceRepo/ServiceRepository.cs:177-200 | When each Init passes once its predecessors are initialised, the pass initialises every entry and keeps the error it started with |
| RegistryProps.InitInOrder | Arvarga.Utils.ServiceRepo/ServiceRepository.cs:159-212 | The same for a whole InitServices: Pass, every entry initialised, and each service retrievable with mustBeUsable |
| RegistryProps.InitFirstFails | Arvarga.Utils.ServiceRepo/ServiceRepository.cs:159-212 | When the first Init fails and the rest pass, the rest are still initialised and the first one's failure is reported |
| RegistrySamples.ScriptOfInited | Arvarga.Utils.ServiceRepo.Test.Sample/CompoundThreeService.cs:17-22 | A script whose lookups name only initialised entries passes |
| RegistrySamples.RegisterAggregateOfThree | Arvarga.Utils.ServiceRepo.Test.Sample/ServicesOneToThreeAggregate.cs:11-19 | An aggregate of three plain services files its own key and entry first, then those of its children, in order |
| RegistrySamples.ThreeInOrder | Arvarga.Utils.ServiceRepo.Test.Unit/TestServiceCreation.cs:19-39 | Three plain services whose third looks up only the first two: all initialise and are retrievable |
| RegistrySamples.FirstNeedsLater | Arvarga.Utils.ServiceRepo.Test.Unit/TestServiceCreation.cs:126-139 | A first service that demands a later one initialised fails; the other two still initialise |
| RegistrySamples.SimpleScenario | Arvarga.Utils.ServiceRepo.Test.Unit/TestServiceCreation.cs:19-39 | SimpleOne, SimpleTwo and CompoundThree all initialise and are retrievable under their interfaces |
| RegistrySamples.WithDependenciesScenario | Arvarga.Utils.ServiceRepo.Test.Unit/TestServiceCreation.cs:85-104 | CompoundFour's demand for an initialised SimpleOne is met when SimpleOne comes first |
| RegistrySamples.ReverseOrderScenario | Arvarga.Utils.ServiceRepo.Test.Unit/TestServiceCreation.cs:126-139 | With CompoundFour first, the pass fails naming CompoundFour and NotYetInitialized of SimpleOne; the others are retrievable as initialised |
| RegistrySamples.MissingServiceScenario | Arvarga.Utils.ServiceRepo.Test.Unit/TestServiceCreation.cs:109-121 | A service that was never added is NotFound |
| RegistrySamples.ExceptionFromInitScenario | Arvarga.Utils.ServiceRepo.Test.Unit/TestServiceCreation.cs:144-164 | The exception thrown by Init is the error the pass reports, tagged with the service name |
| RegistrySamples.AggregateSameLookups | Arvarga.Utils.ServiceRepo.Test.Unit/TestServiceCreation.cs:64-81 | Registering ServicesOneToThreeAggregate gives, under every key except IAggregateService, the same lookup as registering its three children |
| RegistrySamples.AggregateScenario | Arvarga.Utils.ServiceRepo.Test.Unit/TestServiceCreation.cs:64-81 | Initialising the aggregate makes all three children retrievable as initialised |
| RegistrySamples.AddOneByOneScenario | Arvarga.Utils.ServiceRepo.Test.Unit/TestServiceCreation.cs:43-60 | Three Adds on a new repository object pass; InitServices passes; all three are found initialised |
| StatAvg.NumberStatAvg.constructor | Arvarga.Utils.Stats/NumberStatAvg.cs:16-19 | A new statistic has no samples and its invariant holds, so count, total, minimum and maximum all start at 0 |
| StatAvg.NumberStatAvg.Add | Arvarga.Utils.Stats/NumberStatAvg.cs:26-43 | The sample is appended to the history and the invariant is kept: count is the number of samples, total their sum, and min/max the folded extremes (the first sample sets both) |
| StatAvg.NumberStatAvg.AddKeepsValid | Arvarga.Utils.Stats/NumberStatAvg.cs:30-41 | The updated fields satisfy the invariant for the extended history |
| StatAvg.NumberStatAvg.Count | Arvarga.Utils.Stats/NumberStatAvg.cs:48 | The number of samples added |
| StatAvg.NumberStatAvg.Average | Arvarga.Utils.Stats/NumberStatAvg.cs:53 | The mean of the samples (0 when there are none); with samples, average times count is their sum |
| StatAvg.NumberStatAvg.Min | Arvarga.Utils.Stats/NumberStatAvg.cs:58 | 0 with no samples; otherwise a sample at or below every sample, that is the minimum |
| StatAvg.NumberStatAvg.Max | Arvarga.Utils.Stats/NumberStatAvg.cs:63 | 0 with no samples; otherwise a sample at or above every sample, that is the maximum |
| StatPctileMean.NumberStatPctileMean.constructor | Arvarga.Utils.Stats/NumberStatPctileMean.cs:42-47 | An empty statistic with the given capacity, no cached sort, and the invariant established |
| StatPctileMean.NumberStatPctileMean.Add | Arvarga.Utils.Stats/NumberStatPctileMean.cs:97-127 | With maxCount <= 0 the dequeue fails and nothing changes. Otherwise a full window loses its oldest sample before the new one is enqueued, the history grows by the sample, the cache is dropped, and the invariant is kept |
| StatPctileMean.NumberStatPctileMean.AddKeepsValid | Arvarga.Utils.Stats/NumberStatPctileMean.cs:100-123 | The updated fields satisfy the invariant for the extended history |
| StatPctileMean.AddStep | Arvarga.Utils.Stats/NumberStatPctileMean.cs:100-123 | One Add in count mode keeps the queue equal to the window of the history, the totals equal to the sums, and the extremes equal to the all-time extremes |
| StatPctileMean.QueueStep | Arvarga.Utils.Stats/NumberStatPctileMean.cs:100-111 | Proof step for AddStep: dequeue-then-enqueue keeps the queue the trailing part of the history, of window size |
| StatPctileMean.SumStep | Arvarga.Utils.Stats/NumberStatPctileMean.cs:103-112 | The window total stays the sum of the queue |
| StatPctileMean.ConsistentWindow | Arvarga.Utils.Stats/NumberStatPctileMean.cs:100-111 | Proof step, immediate from the invariant: the queue is the last min(CountAll, maxCount) samples in arrival order |
| StatPctileMean.NumberStatPctileMean.CountAll | Arvarga.Utils.Stats/NumberStatPctileMean.cs:134 | The number of samples ever added |
| StatPctileMean.NumberStatPctileMean.Count | Arvarga.Utils.Stats/NumberStatPctileMean.cs:139 | The window size: every sample until maxCount is reached, then maxCount (never above maxCount) |
| StatPctileMean.NumberStatPctileMean.Average | Arvarga.Utils.Stats/NumberStatPctileMean.cs:144-154 | The mean of the window of the history (0 when it is empty) |
| StatPctileMean.NumberStatPctileMean.AverageAll | Arvarga.Utils.Stats/NumberStatPctileMean.cs:159-168 | The mean of every sample ever added (0 when there are none) |
| StatPctileMean.NumberStatPctileMean.MinAll | Arvarga.Utils.Stats/NumberStatPctileMean.cs:229 | 0 with no samples; otherwise a sample at or below every sample ever added, evicted ones included |
| StatPctileMean.NumberStatPctileMean.MaxAll | Arvarga.Utils.Stats/NumberStatPctileMean.cs:234 | 0 with no samples; otherwise a sample at or above every sample ever added |
| StatPctileMean.NumberStatPctileMean.SortSamples | Arvarga.Utils.Stats/NumberStatPctileMean.cs:187-197 | Afterwards the cache holds the sorted window; an existing cache is reused unchanged; nothing else changes |
| StatPctileMean.NumberStatPctileMean.Median | Arvarga.Utils.Stats/NumberStatPctileMean.cs:173-185 | 0 for an empty window. Otherwise a window sample with at most (Count-1)/2 samples below it and more than (Count-1)/2 at or below it, with the sorted window cached |
| SampleMath.SumAppend | Arvarga.Utils.Stats/NumberStatPctileMean.cs:112-113 | Adding a sample adds its value to the sum |
| SampleMath.SumDropFirst | Arvarga.Utils.Stats/NumberStatPctileMean.cs:102-103 | Dequeuing the oldest sample removes its value from the sum |
| SampleMath.SeqMin | Arvarga.Utils.Stats/NumberStatPctileMean.cs:114-122 | The folded minimum is a sample at or below every sample |
| SampleMath.SeqMax | Arvarga.Utils.Stats/NumberStatPctileMean.cs:114-123 | The folded maximum is a sample at or above every sample |
| SampleMath.SeqMinUnique | Arvarga.Utils.Stats/NumberStatPctileMean.cs:121 | The minimum is the only sample at or below all samples |
| SampleMath.SeqMaxUnique | Arvarga.Utils.Stats/NumberStatPctileMean.cs:122 | The maximum is the only sample at or above all samples |
| SampleMath.SeqMinMaxAppend | Arvarga.Utils.Stats/NumberStatPctileMean.cs:121-122 | Folding Min and Max with a new sample gives the new extremes |
| SampleMath.ExtremesStep | Arvarga.Utils.Stats/NumberStatPctileMean.cs:114-123 | The first sample sets both extremes; after that Min/Max with the new sample give the all-time extremes |
| SampleMath.WindowSize | Arvarga.Utils.Stats/NumberStatPctileMean.cs:100-111 | At most the number of samples and at most maxCount; equal to one of them when maxCount > 0 |
| SampleMath.Window | Arvarga.Utils.Stats/NumberStatPctileMean.cs:100-111 | The trailing samples of the history, of window size, in arrival order |
| SampleMath.WindowStep | Arvarga.Utils.Stats/NumberStatPctileMean.cs:100-111 | The next window is the old one, minus its oldest sample when full, plus the new sample |
| SampleMath.Insert | Arvarga.Utils.Stats/NumberStatPctileMean.cs:195 | Inserting into an ascending sequence keeps it ascending and adds one element |
| SampleMath.InsertPermutes | Arvarga.Utils.Stats/NumberStatPctileMean.cs:195 | Insert adds exactly the one new sample |
| SampleMath.SortSeq | Arvarga.Utils.Stats/NumberStatPctileMean.cs:194-195 | The result is ascending and has the input's length |
| SampleMath.SortSeqPermutes | Arvarga.Utils.Stats/NumberStatPctileMean.cs:194-195 | The result is a permutation of the samples |
| SampleMath.SortedUnique | Arvarga.Utils.Stats/NumberStatPctileMean.cs:195 | Two ascending arrangements of the same samples are equal, so any correct sort agrees with SortSeq |
| SampleMath.SortOfSorted | Arvarga.Utils.Stats/NumberStatPctileMean.cs:195 | Sorting an ascending sequence returns it unchanged |
| SampleMath.SortPermutationInvariant | Arvarga.Utils.Stats/NumberStatPctileMean.cs:194-195 | The sorted window depends only on the multiset of samples |
| SampleMath.CountPermutation | Arvarga.Utils.Stats/NumberStatPctileMean.cs:194-195 | The rank counts depend only on the multiset of samples |
| SampleMath.SortedRank | Arvarga.Utils.Stats/NumberStatPctileMean.cs:182 | In an ascending sequence, element k has at most k elements below it and more than k at or below it |
| SampleMath.MedianRank | Arvarga.Utils.Stats/NumberStatPctileMean.cs:179-182 | The lower median is a sample with at most (n-1)/2 samples below it and more than (n-1)/2 at or below it |
| SampleMath.MedianUnique | Arvarga.Utils.Stats/NumberStatPctileMean.cs:179-182 | It is the only sample with that rank property |
| SampleMath.MedianPermutationInvariant | Arvarga.Utils.Stats/NumberStatPctileMean.cs:179-182 | The median does not depend on arrival order |
| SampleMath.SumBounds | Arvarga.Utils.Stats/NumberStatPctileMean.cs:151 | The sum lies between n times a lower bound and n times an upper bound of the samples |
| SampleMath.MeanBetweenExtremes | Arvarga.Utils.Stats/NumberStatPctileMean.cs:151 | The mean lies between the minimum and the maximum |
| StatScenarios.FeedAvgAndRead | Arvarga.Utils.Stats.Test.Unit/TestNumberStatAvg.cs:20-40 | A new NumberStatAvg fed any samples reports their count, mean, minimum and maximum (0 when there are none) |
| StatScenarios.AvgSimpleScenario | Arvarga.Utils.Stats.Test.Unit/TestNumberStatAvg.cs:20-40 | After 3, 1, 4, 2, 5: average 3, count 5, min 1, max 5 |
| StatScenarios.AvgZeroScenario | Arvarga.Utils.Stats.Test.Unit/TestNumberStatAvg.cs:47-56 | With no samples every figure is 0 |
| StatScenarios.AvgManyScenario | Arvarga.Utils.Stats.Test.Unit/TestNumberStatAvg.cs:63-74 | After 0 .. n-1: average (n-1)/2, count n, min 0, max n-1 |
| StatScenarios.SumRamp | Arvarga.Utils.Stats.Test.Unit/TestNumberStatAvg.cs:63-74 | The closed form of the sum of a ramp of samples |
| StatScenarios.MeanRamp | Arvarga.Utils.Stats.Test.Unit/TestNumberStatAvg.cs:63-74 | The mean of a ramp is its first element plus (k-1)/2 |
| StatScenarios.WindowOfRamp | Arvarga.Utils.Stats.Test.Unit/TestNumberStatPctileMean.cs:63-75 | The window of a ramp is the ramp of its last samples |
| StatScenarios.FeedAndRead | Arvarga.Utils.Stats/NumberStatPctileMean.cs:134-234 | A new statistic fed any samples reports: window figures of the window of the samples; all-time figures (count, mean, min, max) of all the samples |
| StatScenarios.PctileSimpleScenario | Arvarga.Utils.Stats.Test.Unit/TestNumberStatPctileMean.cs:20-40 | After 3, 1, 4, 2, 5: all-time average 3, count 5, min 1, max 5 |
| StatScenarios.SimpleFigures | Arvarga.Utils.Stats.Test.Unit/TestNumberStatPctileMean.cs:36-39 | The mean, minimum and maximum of 3, 1, 4, 2, 5 |
| StatScenarios.PctileZeroScenario | Arvarga.Utils.Stats.Test.Unit/TestNumberStatPctileMean.cs:47-56 | With no samples every all-time figure is 0 |
| StatScenarios.ZeroCapacityScenario | Arvarga.Utils.Stats/NumberStatPctileMean.cs:100-104 | Capacity 0: Add fails at the dequeue and nothing is counted |
| StatScenarios.PctileManyScenario | Arvarga.Utils.Stats.Test.Unit/TestNumberStatPctileMean.cs:63-75 | After 0 .. n-1 with capacity 100: window mean n-1-99/2, all-time mean (n-1)/2, count n, min 0, max n-1 |
| StatScenarios.AddAndMedian | Arvarga.Utils.Stats.Test.Unit/TestNumberStatPctileMean.cs:120-133 | One Add followed by reading Median and Count gives the median and size of the new window |
| StatScenarios.Medians | Arvarga.Utils.Stats.Test.Unit/TestNumberStatPctileMean.cs:117-136 | One median reading per sample |
| StatScenarios.WindowSizes | Arvarga.Utils.Stats.Test.Unit/TestNumberStatPctileMean.cs:143-168 | One Count reading per sample |
| StatScenarios.MediansAt | Arvarga.Utils.Stats.Test.Unit/TestNumberStatPctileMean.cs:117-136 | Reading j is the median of the window after the first j+1 samples |
| StatScenarios.WindowSizesAt | Arvarga.Utils.Stats.Test.Unit/TestNumberStatPctileMean.cs:143-168 | Reading j is the window size after j+1 samples |
| StatScenarios.MedianTrace | Arvarga.Utils.Stats.Test.Unit/TestNumberStatPctileMean.cs:117-136 | Adding the samples one by one and reading Median and Count after each yields exactly the two traces |
| StatScenarios.MedianOfRamp | Arvarga.Utils.Stats.Test.Unit/TestNumberStatPctileMean.cs:117-136 | The lower median of a ramp is its element at index (k-1)/2 |
| StatScenarios.RampTrace | Arvarga.Utils.Stats.Test.Unit/TestNumberStatPctileMean.cs:143-168 | For the samples 1, 2, ...: the readings after each Add, for any capacity |
| StatScenarios.RampTraceUnbounded | Arvarga.Utils.Stats.Test.Unit/TestNumberStatPctileMean.cs:117-136 | With room for every sample, reading j is j+1 samples with median 1 + j/2 |
| StatScenarios.MedianUpdateScenario | Arvarga.Utils.Stats.Test.Unit/TestNumberStatPctileMean.cs:117-136 | Samples 1..k with capacity 100: after the (j+1)-th Add, Median is 1 + j/2 and Count is j+1 (1, 1, 2, 2, 3, 3, 4 for k = 7) |
| StatScenarios.ExpireWithCountScenario | Arvarga.Utils.Stats.Test.Unit/TestNumberStatPctileMean.cs:143-168 | Samples 1..k with capacity 2: Count is 1 and then 2; Median is 1 and then j (1, 1, 2, 3, 4, 5, 6 for k = 7) |
| StatScenarios.UnevenDistributionScenario | Arvarga.Utils.Stats.Test.Unit/TestNumberStatPctileMean.cs:82-97 | The squares 0..100: average 35, median 25, count 11, min 0, max 100 |
| StatScenarios.SquaresFigures | Arvarga.Utils.Stats.Test.Unit/TestNumberStatPctileMean.cs:82-97 | The window, mean, median and extremes of the eleven squares |
| StatScenarios.SortedMedian | Arvarga.Utils.Stats/NumberStatPctileMean.cs:182 | The lower median of an ascending sequence is its middle element |
| StatScenarios.SortedExtremes | Arvarga.Utils.Stats/NumberStatPctileMean.cs:114-123 | In an ascending sequence the first element is the minimum and the last the maximum |
| StatScenarios.WindowAll | Arvarga.Utils.Stats/NumberStatPctileMean.cs:100 | A window with room for every sample holds all of them |

## Where the code and the prose description differ (the model follows the code)
- The aggregate is filed under its own interfaces too. `ServicesOneToThreeAggregate` implements `IAggregateService`, which extends `IService`, so the reflection in ServiceRepository.cs:234-237 picks it up. Aggregate transparency therefore holds for every key except the aggregate's own.
- `InitWithServices` clears the dictionary but does not reset the lifecycle state. On a registry that has already started, it leaves the dictionary empty. It then fails with RegistryClosed, or with AlreadyInitialized for an empty list.
- `Get` checks readiness, then presence, then, for mustBeUsable, the flag. An unknown key is NotFound even with mustBeUsable.
- `Add` sets SomeAdded unconditionally. This is the same as "advance if NotInitialized", because Add refuses once the pass has started.
- `NumberStatPctileMean` with `maxCount <= 0` is not excluded by a precondition. Its `Add` dequeues an empty queue and fails; the model returns `DequeueFromEmptyQueue` with the state unchanged.

## Left out
- Locking (`myDictLock`, the per-entry lock, `myLock`): every operation is modelled as sequential and atomic.
- Type discovery by reflection (GetInterfaceNamesOfService): each service carries its list of interface names.
- AddServiceInstanceFromDll: instantiating from a DLL is a foreign call. It becomes an `Option<Service>` parameter, and loader exceptions are not modelled.
- Arbitrary `Init` code: replaced by a script of `Get<T>(mustBeUsable)` lookups and a throw flag. The sample services' string methods are not modelled.
- Diagnostics: ToString, exception message text, and `myCurrentlyInitializingService`, which only feeds a message. Errors are datatype values.
- The time-limited mode of NumberStatPctileMean, `AddTestOnly`, `SetCreatedTimeTestonly` and `myCreatedTime` depend on clock ticks. The constructor requires `maxAgeSec <= 0`.
- GetPercentile: floating-point interpolation.
- Doubles are exact reals: no rounding, NaN or infinities. The `int` and `long` counters are unbounded.
- StatAvg.NumberStatAvg.Count: returns the count as an integer, while the source property is typed double.
- Default arguments (`maxCount = 100`, `maxAgeSec = 0`, `mustBeUsable = false`): Dafny has none, so every caller in the model passes these values explicitly.
- The sample queue's timestamps are not modelled, since count mode never reads them.
- StatScenarios.MedianUpdateScenario: stated for every k up to 100 rather than for 7 samples only. The 7-sample test is the case k = 7.
- StatScenarios.ExpireWithCountScenario: stated for every k; the 7-sample test is the case k = 7.
- StatScenarios.UnevenDistributionScenario: takes the eleven squares as a parameter, fixed entry by entry by `IsSquares`. It does not cover the percentile asserts of that test.
- TestNumberStatPctileMean_TestExpireWithTime: uses the time mode, which is left out.
- Program.cs, AsyncTestResultChecker.cs and all console output are not part of this model.
