# A verified model of virthttp's request core

virthttp is an HTTP front end to libvirt. This project models the parts of it that hold state or
parse text, and proves what they promise over every input, every run or every interleaving:

- **The asynchronous request store** (`Words`, `FreeId`, `AsyncSystem`, `AsyncCapacity`,
  `AsyncStores`, `HexId`). The store is a class whose methods are the events of a transition system
  (size test, locked insertion, worker housekeeping, future ready, poll, sweep). The theorems range
  over all runs of that system, that is, over all interleavings of launchers, workers, pollers and
  sweeps.
- **The four flat maps** (`Ordering`, `FlatMapSpec`, `FlatMapSimulation`, `SortedFlatMaps`,
  `UnorderedFlatMaps`, `StringOrder`). Each class refines a step function on sequences of pairs, and
  those step functions simulate one finite map.
- **Dependency-ordered batches and domain actions** (`Json`, `JsonParams`, `Depends`,
  `DomainActions`, `ActionLaws`, `BatchLaws`). libvirt is a world that may answer every call in any
  way; only the log of calls is kept.
- **Targets, comma-separated flags and flag sets** (`Target`, `TargetRoundTrip`, `Bits`, `EnumSets`,
  `Flagwork`, `Urls`). The regular expressions are deterministic scanners, and the split of a target
  is shown to be the leftmost-first match of its pattern.
- **Two small loops** (`Decimal` over `Positional`, and `EnumPrefix`).

Where the code differs from its documentation or from what it seems to be for, the model follows
the code, and the difference is a theorem:

- The id encoder shifts by 16 bits per digit, so the string a client is given denotes its id only
  below 16, which is so for the first sixteen requests (`HexId.WrittenEncodingDecodes`,
  `HexId.GivenStringRetrievesOwnTask`, `HexId.FirstSixteenRetrieve`). With a 4-bit shift
  it always would (`HexId.NibbleEncodingRoundTrip`).
- The store's size test stands outside the mutex and compares for equality. The limit of 2^32 - 1
  entries holds until the next size test exactly when the entries and the admitted launchers together
  do not exceed it (`AsyncCapacity.StaysWithinIff`), and over a whole run exactly when no size test
  overlaps launchers that will reach it (`AsyncCapacity.RunStaysWithinIff`). Serialised launches always
  meet this; two overlapping ones can take every id, after which a further launch passes the test and
  searches for ever (`AsyncCapacity.OverlappingLaunchesOverfill`).
- The sweep is documented as discarding expired entries, while its time test keeps those and
  discards ready entries that have not expired. It does what is documented exactly when no entry is
  expired or ready (`AsyncSystem.SweepIsRightIff`), and over a whole run a finished request whose entry
  has expired is never swept (`AsyncSystem.ExpiredIsNeverSwept`).
- A CSV token keeps the leading commas it skipped over, so an empty field other than a final one is
  rejected (`Flagwork.OnlyAcceptedFlagLists`).
- Setting a second URL on a parser appends to its path parts but replaces its queries
  (`Target.TargetParser.SetURL`).
- The path group of a full URL has no leading slash, so its first part is not found: the URL has the
  parts of the same target exactly when its path is empty or starts with a second slash
  (`Urls.UrlKeepsPartsIff`, `Urls.UrlPathLosesFirstPart`). A query or fragment right after the host is
  taken into the host (`Urls.UrlKeepsAuthorityIff`).
- `send_signal` succeeds whatever libvirt answers and may fail without an error; `send_keys` may fail
  with two errors or with none. The errors of a batch are its failures exactly when no action that was
  handed over does so (`BatchLaws.ErrorLawIff`).
- For an enum with a single element the generator measures the prefix after the element's second
  underscore but removes it from the front. The two agree exactly when there are fewer than two
  underscores (`EnumPrefix.SingleStripIff`).

## Model

| member | source | states |
|---|---|---|
| `FreeId.Pigeonhole` | include/wrapper/handlers/async/async_store.hpp:16-16 | a set of 32-bit ids has 2^32 elements exactly when it has every id, so a store that is not full leaves one free |
| `FreeId.FirstFreeExists` | include/wrapper/handlers/async/async_store.hpp:126-131 | unless every id is used, some number of increments within one lap reaches an unused id with only used ones before it: the search ends |
| `FreeId.SteppedOverIsUsed` | include/wrapper/handlers/async/async_store.hpp:126-131 | every id the search goes past is in use |
| `AsyncStores.AsyncStore.GetFreeId` | include/wrapper/handlers/async/async_store.hpp:126-131 | the loop ends and returns the first unused id after the last one, modulo 2^32 |
| `AsyncStores.AsyncStore.Admit` | include/wrapper/handlers/async/async_store.hpp:54-55 | the unlocked size test is one event of the system, and says whether the launcher was let in |
| `AsyncStores.AsyncStore.InsertTask` | include/wrapper/handlers/async/async_store.hpp:57-74 | the locked part of a launch is one event: a new entry whose future is the new worker's, under the id returned |
| `AsyncStores.AsyncStore.Launch` | include/wrapper/handlers/async/async_store.hpp:52-75 | a launch that no other overlaps is refused exactly when the store is full, changes nothing then, and otherwise returns an id that was free and now reads as in progress |
| `AsyncStores.AsyncStore.Housekeeping` | include/wrapper/handlers/async/async_store.hpp:64-71 | stamping adds no key to the store |
| `AsyncStores.AsyncStore.CompleteFuture` | include/wrapper/handlers/async/async_store.hpp:71-72 | the future becomes ready only after the housekeeping |
| `AsyncStores.AsyncStore.ValueIfReady` | include/wrapper/handlers/async/async_store.hpp:83-96 | status, buffer and new store are those of the poll event, and no poll ever meets an entry without a future |
| `AsyncStores.AsyncStore.Collect` | include/wrapper/handlers/async/async_store.hpp:102-109 | erasing while iterating, in any order, removes exactly the ready entries that pass the time test |
| `AsyncSystem.SweepIsRightIff` | include/wrapper/handlers/async/async_store.hpp:98-109 | the sweep discards the expired entries exactly when no entry is expired or ready, so that it has nothing to do; and the expired finished ones exactly when none is finished |
| `AsyncSystem.ExpiredIsNeverSwept` | include/wrapper/handlers/async/async_store.hpp:98-109 | over every run in which time does not go back, a finished request whose entry has expired is never swept: it stays as it is until a poll takes it |
| `AsyncSystem.NextKeepsInv` | include/wrapper/handlers/async/async_store.hpp:57-109 | every event keeps the invariant: each entry's future belongs to a worker that was given that id, and each worker that has not finished has its own entry stored |
| `AsyncSystem.RunKeepsInv` | include/wrapper/handlers/async/async_store.hpp:52-109 | the invariant holds after every run |
| `AsyncSystem.WorkerFindsItsEntry` | include/wrapper/handlers/async/async_store.hpp:64-67 | in every interleaving a worker that reaches its housekeeping finds its own entry, so the subscript creates nothing and only that entry is stamped |
| `AsyncSystem.UnfinishedIdsDiffer` | include/wrapper/handlers/async/async_store.hpp:57-72 | no two unfinished workers share an id |
| `AsyncSystem.HoldsStep` | include/wrapper/handlers/async/async_store.hpp:83-109 | an entry goes away only by being delivered or swept, and never comes back |
| `AsyncSystem.TakenAtMostOnce` | include/wrapper/handlers/async/async_store.hpp:91-105 | over a whole run at most one event delivers or sweeps a given launch |
| `AsyncSystem.StoredUntilTaken` | include/wrapper/handlers/async/async_store.hpp:59-105 | nothing is lost: after its launch an entry is stored exactly until an event takes it |
| `AsyncSystem.DeliveryIsCorrect` | include/wrapper/handlers/async/async_store.hpp:58-95 | a delivered string is what the launch's own callable returned, is delivered to a poll for the id that launch was given, and is never delivered again |
| `AsyncSystem.PollEffect` | include/wrapper/handlers/async/async_store.hpp:83-96 | which of the three statuses a poll returns, if and only if; a poll before readiness changes nothing, and a delivery removes only its entry |
| `AsyncSystem.DeliveredIdIsGone` | include/wrapper/handlers/async/async_store.hpp:58-95 | after a delivery the id reads as non-existent until a launch is given it again |
| `AsyncSystem.IdsAreIncremental` | include/wrapper/handlers/async/async_store.hpp:40-58 | over every run, whatever is taken in between, launch number t is given the id t until the ids wrap |
| `AsyncSystem.PhaseAt` | include/wrapper/handlers/async/async_store.hpp:61-72 | over every run a worker goes from running to stamped to ready by its own two events, each of them once |
| `AsyncSystem.PollOfLaunched` | include/wrapper/handlers/async/async_store.hpp:58-96 | over every run: until something takes a launched request, a poll for its id answers finished with its own string if and only if its worker has finished, and in progress otherwise; the worker can stamp exactly if it has not, and finish exactly if it has stamped and not finished |
| `AsyncSystem.ExpiryAt` | include/wrapper/handlers/async/async_store.hpp:59-67 | over every run an entry has the largest expiry there is until its worker stamps it, and then the one of that stamp, whatever other events do |
| `AsyncSystem.DeliveryIsReachable` | include/wrapper/handlers/async/async_store.hpp:61-95 | no stored request is stuck: its own worker's steps lead to a poll that delivers its string |
| `AsyncCapacity.StaysWithinIff` | include/wrapper/handlers/async/async_store.hpp:54-59 | whatever happens before the next size test the store stays within 2^32 - 1 entries, if and only if entries and admitted launchers together are at most that many |
| `AsyncCapacity.SearchesEndIff` | include/wrapper/handlers/async/async_store.hpp:126-131 | whatever happens before the next size test every admitted launcher's id search ends, if and only if entries and admitted launchers together are at most 2^32 |
| `AsyncCapacity.SizeTestIff` | include/wrapper/handlers/async/async_store.hpp:54-55 | a size test gives the limit away exactly when launchers admitted earlier are about to reach it |
| `AsyncCapacity.RunStaysWithinIff` | include/wrapper/handlers/async/async_store.hpp:52-59 | over a whole run with any overlap of launches the limit is never given away exactly when no size test overlaps launchers that will reach it |
| `AsyncCapacity.SerialisedLaunchesFit` | include/wrapper/handlers/async/async_store.hpp:54-59 | with launches serialised the store never exceeds 2^32 - 1 entries and an admitted launcher's id search always ends |
| `AsyncCapacity.OverlappingLaunchesOverfill` | include/wrapper/handlers/async/async_store.hpp:54-58 | a run with two overlapping launchers takes all 2^32 ids; until then the searches end, and after one more size test they need not: a launcher is admitted that can never insert |
| `AsyncCapacity.ReissuedOnlyAfterFullLap` | include/wrapper/handlers/async/async_store.hpp:58-58 | between two launches given the same id every other id was given out or found in use by a search that went past it |
| `HexId.HexDecodeId` | include/wrapper/handlers/async/async_handler.hpp:32-45 | positional value modulo 2^32 on any text, exact up to eight characters |
| `HexId.HexIdFits` | include/wrapper/handlers/async/async_handler.hpp:14-45 | eight hex digits never wrap the accumulator |
| `HexId.HexCharacters` | include/wrapper/handlers/async/async_handler.hpp:14-43 | ids are one to eight hexadecimal characters of either case, with their usual values, and other characters add nothing |
| `HexId.SameIdIffSameCanonical` | include/wrapper/handlers/async/async_handler.hpp:14-45 | two id strings denote the same id exactly when they agree up to case and leading zeros |
| `HexId.HexEncodeId` | include/wrapper/handlers/async/async_handler.hpp:54-62 | the buffer filled backwards holds six zeros and two digits of the id that are 16 bits apart |
| `HexId.WrittenEncodingDecodes` | include/wrapper/handlers/async/async_handler.hpp:32-62 | decoding an encoded id gives id mod 16 plus 16 times (id div 65536) mod 16, which is the id exactly when it is below 16 |
| `HexId.NibbleEncodingRoundTrip` | include/wrapper/handlers/async/async_handler.hpp:32-62 | with a 4-bit shift the round trip is the identity on every 32-bit id |
| `HexId.NibbleEncodingOfDecoded` | include/wrapper/handlers/async/async_handler.hpp:32-62 | and re-encoding a decoded id string gives its eight-digit lower-case form |
| `HexId.HandleAsyncRetrieve` | include/wrapper/handlers/async/async_handler.hpp:72-90 | a string that is no id changes nothing and is not found; any other polls exactly the id it denotes, and the three statuses map to not found, processing and found |
| `HexId.GivenStringRetrievesOwnTask` | include/wrapper/handlers/async/async_handler.hpp:54-87 | the string handed out for a finished request retrieves it exactly when its id is below 16 |
| `HexId.FirstSixteenRetrieve` | include/wrapper/handlers/async/async_handler.hpp:54-87 | so over every run, before the ids wrap, exactly the first sixteen requests can be retrieved by the string handed out |
| `Ordering.LowerBound` | include/flatmap.hpp:413-424 | the binary search returns the unique position with only smaller keys before it and none after |
| `FlatMapSimulation.SortedSlotFits` | include/flatmap.hpp:648-670 | under any strict weak order the key search returns the lower bound, and its flag is true exactly when an equivalent key is stored |
| `FlatMapSimulation.SortedStepKeepsOrder` | include/flatmap.hpp:682-769 | every operation keeps the keys strictly increasing |
| `FlatMapSimulation.SortedSimulates` | include/flatmap.hpp:672-776 | a step of a sorted map is the step of the finite map up to equivalence of keys, with the same boolean, value and size |
| `FlatMapSimulation.UnorderedSimulates` | include/flatmap.hpp:915-996 | a step of an unordered map is the step of the finite map |
| `FlatMapSimulation.UnorderedStepKeepsUnique` | include/flatmap.hpp:925-996 | every operation keeps the keys unique |
| `FlatMapSimulation.SortedRunSimulates` | include/flatmap.hpp:632-776 | whole runs of operations on a sorted map, under any strict weak order |
| `FlatMapSimulation.UnorderedRunSimulates` | include/flatmap.hpp:899-996 | whole runs of operations on an unordered map |
| `FlatMapSimulation.LayoutsAgree` | include/flatmap.hpp:314-996 | under a total order the sorted and unordered maps answer every sequence of operations alike and end with the same pairs |
| `FlatMapSimulation.SortedBuildKeepsFirst` | include/flatmap.hpp:632-646 | building from a list sorts the keys and keeps exactly the first value given for each class of keys |
| `FlatMapSimulation.UnorderedBuildKeepsFirst` | include/flatmap.hpp:899-913 | building an unordered map from a list keeps exactly the first value given for each key |
| `FlatMapSpec.SwapRemoveConserves` | include/flatmap.hpp:981-988 | swap-with-last erase removes exactly the chosen pair and keeps the multiset of the others |
| `FlatMapSpec.RemoveAtConserves` | include/flatmap.hpp:757-759 | erase by closing the gap removes exactly the chosen pair |
| `FlatMapSpec.MapStepValue` | include/flatmap.hpp:314-996 | each operation changes the value of its own key only: assignment always, insertion and subscript only where there is none, erasure to nothing |
| `FlatMapSpec.MapStepAnswer` | include/flatmap.hpp:314-996 | and answers whether the key was there, what its value is now, and how many there are |
| `SortedFlatMaps.FlatMap.FromRange` | include/flatmap.hpp:632-646 | the constructor loop leaves the map that SortedBuildKeepsFirst describes |
| `SortedFlatMaps.FlatMap.FindKey` | include/flatmap.hpp:648-670 | lower bound, with the flag of an equivalent key |
| `SortedFlatMaps.FlatMap.Insert` | include/flatmap.hpp:682-706 | refines the step of the sorted layout, with the position of the key's slot; push-back at the end is no different |
| `SortedFlatMaps.FlatMap.InsertOrAssign` | include/flatmap.hpp:708-718 | refines the step of the sorted layout |
| `SortedFlatMaps.FlatMap.Emplace` | include/flatmap.hpp:720-730 | refines the step of the sorted layout |
| `SortedFlatMaps.FlatMap.TryEmplace` | include/flatmap.hpp:732-741 | refines the step of the sorted layout |
| `SortedFlatMaps.FlatMap.Subscript` | include/flatmap.hpp:672-680 | refines the step of the sorted layout; a missing key gets a default value |
| `SortedFlatMaps.FlatMap.Find` | include/flatmap.hpp:743-755 | an equivalent key, or the end |
| `SortedFlatMaps.FlatMap.EraseAt` | include/flatmap.hpp:757-759 | closes the gap and keeps the order |
| `SortedFlatMaps.FlatMap.Erase` | include/flatmap.hpp:761-769 | refines the step of the sorted layout, and counts what it removed |
| `SortedFlatMaps.SplitFlatMap.FromRange` | include/flatmap.hpp:314-327 | the constructor loop leaves the map that SortedBuildKeepsFirst describes |
| `SortedFlatMaps.SplitFlatMap.FindKey` | include/flatmap.hpp:413-437 | lower bound over the key vector, with the flag of an equivalent key |
| `SortedFlatMaps.SplitFlatMap.Insert` | include/flatmap.hpp:329-353 | two parallel insertions refine one step of the sorted layout, and the vectors keep equal length |
| `SortedFlatMaps.SplitFlatMap.InsertOrAssign` | include/flatmap.hpp:361-372 | refines the step of the sorted layout |
| `SortedFlatMaps.SplitFlatMap.Emplace` | include/flatmap.hpp:355-359 | refines the step of the sorted layout |
| `SortedFlatMaps.SplitFlatMap.TryEmplace` | include/flatmap.hpp:374-384 | refines the step of the sorted layout |
| `SortedFlatMaps.SplitFlatMap.Subscript` | include/flatmap.hpp:386-396 | refines the step of the sorted layout |
| `SortedFlatMaps.SplitFlatMap.Find` | include/flatmap.hpp:439-455 | an equivalent key, or the end |
| `SortedFlatMaps.SplitFlatMap.EraseAt` | include/flatmap.hpp:398-401 | closes the same gap in both vectors |
| `SortedFlatMaps.SplitFlatMap.Erase` | include/flatmap.hpp:403-411 | refines the step of the sorted layout |
| `UnorderedFlatMaps.UnorderedFlatMap.FromRange` | include/flatmap.hpp:899-913 | the constructor loop leaves the map that UnorderedBuildKeepsFirst describes |
| `UnorderedFlatMaps.UnorderedFlatMap.Find` | include/flatmap.hpp:925-936 | the linear search finds the key, or the end exactly when it is not there |
| `UnorderedFlatMaps.UnorderedFlatMap.Insert` | include/flatmap.hpp:938-952 | refines the step of the unordered layout |
| `UnorderedFlatMaps.UnorderedFlatMap.InsertOrAssign` | include/flatmap.hpp:954-963 | refines the step of the unordered layout |
| `UnorderedFlatMaps.UnorderedFlatMap.Emplace` | include/flatmap.hpp:965-969 | refines the step of the unordered layout |
| `UnorderedFlatMaps.UnorderedFlatMap.TryEmplace` | include/flatmap.hpp:971-979 | refines the step of the unordered layout |
| `UnorderedFlatMaps.UnorderedFlatMap.Subscript` | include/flatmap.hpp:915-923 | refines the step of the unordered layout |
| `UnorderedFlatMaps.UnorderedFlatMap.EraseAt` | include/flatmap.hpp:981-988 | removes the chosen pair from the multiset of pairs and keeps the keys unique |
| `UnorderedFlatMaps.UnorderedFlatMap.Erase` | include/flatmap.hpp:990-996 | refines the step of the unordered layout, and counts what it removed |
| `UnorderedFlatMaps.UnorderedSplitFlatMap.FromRange` | include/flatmap.hpp:476-489 | the constructor loop leaves the map that UnorderedBuildKeepsFirst describes |
| `UnorderedFlatMaps.UnorderedSplitFlatMap.Find` | include/flatmap.hpp:530-544 | the linear search over the key vector finds the key, or the end |
| `UnorderedFlatMaps.UnorderedSplitFlatMap.Insert` | include/flatmap.hpp:555-562 | refines the step of the unordered layout |
| `UnorderedFlatMaps.UnorderedSplitFlatMap.InsertOrAssign` | include/flatmap.hpp:466-474 | refines the step of the unordered layout |
| `UnorderedFlatMaps.UnorderedSplitFlatMap.Emplace` | include/flatmap.hpp:514-518 | refines the step of the unordered layout |
| `UnorderedFlatMaps.UnorderedSplitFlatMap.TryEmplace` | include/flatmap.hpp:457-464 | refines the step of the unordered layout |
| `UnorderedFlatMaps.UnorderedSplitFlatMap.Subscript` | include/flatmap.hpp:520-528 | refines the step of the unordered layout |
| `UnorderedFlatMaps.UnorderedSplitFlatMap.EraseAt` | include/flatmap.hpp:501-512 | removes the chosen pair from both vectors and keeps the keys unique |
| `UnorderedFlatMaps.UnorderedSplitFlatMap.Erase` | include/flatmap.hpp:491-499 | refines the step of the unordered layout |
| `StringOrder.LessIsTotal` | include/urlparser.hpp:42-42 | the order on the query map's keys is total, so its equivalence is equality |
| `StringOrder.StringLessIff` | include/urlparser.hpp:42-42 | the first difference decides, and a proper prefix comes first |
| `Json.JsonRes.constructor` | include/json_utils.hpp:27-39 | a new response is empty and says success |
| `Json.JsonRes.Error` | include/json_utils.hpp:57-75 | one more error, and the success member tells the truth afterwards |
| `Depends.CheckDepends` | src/wrapper/depends.cpp:4-27 | pushes exactly one outcome when the action may not run and none when it may; only a malformed depends adds an error |
| `Depends.CheckIff` | src/wrapper/depends.cpp:6-26 | an action may run exactly when every entry is a 32-bit int that refers to an earlier success; malformed means neither a list nor such an int |
| `Depends.HandleDepends` | include/wrapper/depends.hpp:33-46 | the loop is the batch function, one outcome per action in action order; anything but a list is error 298 |
| `Depends.OutcomeOf` | include/wrapper/depends.hpp:42-45 | each action's outcome is decided by the outcomes before it, and is the handler's only if it may run |
| `Depends.RanHasEarlierSuccesses` | src/wrapper/depends.cpp:14-25 | every entry of an action that ran is an earlier action that ran and succeeded |
| `Depends.TransitiveDependenciesSucceeded` | src/wrapper/depends.cpp:14-25 | so is everything reached by a chain of dependencies |
| `Depends.BadReferenceIsSkipped` | src/wrapper/depends.cpp:14-18 | an action with a self, forward, negative or non-integer reference never runs and is skipped |
| `Depends.SuccessesAreLeastFixedPoint` | include/wrapper/depends.hpp:39-45 | for handlers that depend on the action alone the successes are the least fixed point of the consequence operator |
| `Depends.FixedPointUnique` | include/wrapper/depends.hpp:39-45 | and it is the only fixed point |
| `Depends.ParameterizedDependsScope` | include/wrapper/handlers/flagwork.hpp:60-73 | calls the alternatives in order until one does not skip, and none after it |
| `Depends.ScopeIff` | include/wrapper/handlers/flagwork.hpp:60-73 | the outcome is that of an alternative if and only if all before it skip, each in the world the one before left; and a skip if and only if all skip |
| `Depends.ScopeOfMore` | include/wrapper/handlers/flagwork.hpp:64-70 | further alternatives matter only to a scope that would skip |
| `DomainActions.GetCombinedFlags` | include/wrapper/actions_table.hpp:24-49 | the union of the listed flags, or for flags that do not combine the only one of the list; else no flags and exactly one error 301 |
| `DomainActions.ListedFlags` | include/wrapper/actions_table.hpp:30-36 | a list is accepted exactly when every name is known |
| `ActionLaws.CombinedFlagsIff` | include/wrapper/actions_table.hpp:24-49 | flags are read exactly when every name is known, and at most one is listed of flags that do not combine; a bit is set exactly when its name is given |
| `DomainActions.RunPowerAction` | include/wrapper/domain_actions_table.hpp:50-83 | skips without effect unless the request is its own; otherwise prerequisite, flags and call in that order |
| `DomainActions.ActionScope` | include/wrapper/actions_table.hpp:51-58 | the first closure whose tag is requested decides, and an unknown request is error 300 |
| `DomainActions.PowerManagement` | include/wrapper/domain_actions_table.hpp:19-100 | the power handler's effect on response, call log and outcome |
| `JsonParams.ExtractParamVal` | include/wrapper/json2virt.hpp:71-111 | the value as its type reads it; one error 0 for a value of another type, none for a text that names nothing |
| `JsonParams.ExtractUints` | include/wrapper/json2virt.hpp:57-70 | a list is read exactly when all its elements are unsigned 32-bit numbers, with one error otherwise, however many are not |
| `JsonParams.ExtractParam` | include/wrapper/json2virt.hpp:116-132 | a missing parameter is no value and no error |
| `DomainActions.SendProcessSignal` | include/wrapper/domain_actions_table.hpp:133-138 | reads pid and signal in order up to the first that fails, then makes the call and succeeds whatever it returns |
| `DomainActions.SendKeys` | include/wrapper/domain_actions_table.hpp:139-160 | reads its three parameters in order up to the first that fails, which is one more error; a failed call is a failure without an error |
| `DomainActions.Alter` | include/wrapper/handlers/domain.hpp:158-163 | the first member names the handler, for all seven of them; an unknown name is error 123 |
| `BatchLaws.PowerMgtLaw` | include/wrapper/domain_actions_table.hpp:48-99 | a power action changes the domain at most once, only with the requested verb and only right after its state prerequisite was observed; it succeeds exactly when that call does, and its error code is the call's, that of bad flags, that of the prerequisite or that of a bad request, as its calls tell |
| `ActionLaws.PowerVerbLaw` | include/wrapper/domain_actions_table.hpp:28-98 | for each of the seven verbs, with its flags, code, message and prerequisite written out: what is looked up, the error of an unmet prerequisite or of bad flags, and otherwise the call, with the union of the named flags if a type is given and none if not, and its message or error |
| `ActionLaws.NoVerbLaw` | include/wrapper/domain_actions_table.hpp:34-99 | any other request is error 300 and changes nothing |
| `ActionLaws.PowerChangeIff` | include/wrapper/domain_actions_table.hpp:28-98 | the domain is changed if and only if one of the verbs is requested, its prerequisite holds, and its type is missing or holds only flags that it takes |
| `ActionLaws.PowerActionLaw` | include/wrapper/handlers/domain.hpp:158-163 | an action named power_mgt is handed to that handler |
| `ActionLaws.NameLaw` | include/wrapper/domain_actions_table.hpp:101-108 | renames to the text up to its first NUL, with error 205 if that fails, and error 0 for a value that is no text |
| `ActionLaws.MemoryLaw` | include/wrapper/domain_actions_table.hpp:109-116 | sets the memory to a 32-bit number, with error 206 if that fails, and error 0 for any other value |
| `ActionLaws.MaxMemoryLaw` | include/wrapper/domain_actions_table.hpp:117-124 | sets the maximum memory, with error 207 |
| `ActionLaws.AutoStartLaw` | include/wrapper/domain_actions_table.hpp:125-132 | sets autostart to a boolean, with error 208 |
| `ActionLaws.UnknownActionLaw` | include/wrapper/handlers/domain.hpp:158-163 | an action with any other name than the seven is error 123 and nothing else |
| `ActionLaws.SignalSentLaw` | include/wrapper/domain_actions_table.hpp:133-138 | a 64-bit pid and a known name are sent as they are, and that is a success whatever libvirt answers |
| `ActionLaws.SignalRefusedLaw` | include/wrapper/domain_actions_table.hpp:133-138 | otherwise nothing is sent; one error for the first parameter of the wrong type, none for one that is missing or unknown |
| `ActionLaws.KeysSentLaw` | include/wrapper/domain_actions_table.hpp:139-160 | a known code set and unsigned 32-bit hold time and codes are sent as they are, and a failed call is a failure without an error |
| `ActionLaws.KeysRefusedLaw` | include/wrapper/domain_actions_table.hpp:139-160 | otherwise nothing is sent; two errors if the first bad parameter is of the wrong type, and one if not |
| `ActionLaws.SignalNumbers` | include/virt_wrap/enums/Domain/ProcessSignal.hpp:85-89 | the position of a signal's name is its number |
| `BatchLaws.SimpleLaw` | include/wrapper/domain_actions_table.hpp:101-132 | renaming, memory and autostart make at most one change, succeed exactly when it does, and otherwise add the error of a bad value or of the failed call |
| `BatchLaws.SignalLaw` | include/wrapper/domain_actions_table.hpp:133-138 | succeeds exactly when both parameters are read, with exactly one call of them, and adds one error if a parameter has the wrong type or the value is no object, and none otherwise |
| `BatchLaws.KeysLaw` | include/wrapper/domain_actions_table.hpp:139-160 | makes its one call exactly when all parameters are read and succeeds exactly when that does; adds no error then, and else two for a parameter of the wrong type and one otherwise |
| `BatchLaws.AlteredLaw` | include/wrapper/handlers/domain.hpp:158-163 | every action makes at most one change, and adds one error if it fails, except for the quiet and loud failures of signals and keys, one message if it is a power action that succeeds, and nothing else |
| `BatchLaws.RoundConserves` | include/wrapper/depends.hpp:42-45 | one round adds the same, and a skipped action adds nothing and calls nothing |
| `BatchLaws.BatchConserves` | include/wrapper/depends.hpp:39-45 | over any batch: errors added are the failures, less the quiet and plus the loud ones; messages added are the successful power actions; successful changes are the successes, less the signals that libvirt refused; and success is false exactly when there are errors |
| `BatchLaws.ErrorLawIff` | include/wrapper/depends.hpp:39-45 | throughout a batch the errors added are the failures, if and only if no action that was handed over fails quietly or loudly |
| `BatchLaws.PlainBatchHasNoExceptions` | include/wrapper/domain_actions_table.hpp:19-132 | a batch without signals and keys has no such action |
| `BatchLaws.PatchDomain` | include/wrapper/handlers/domain.hpp:158-163 | the same for the loop that works on the response and the domain in place |
| `Target.SplitTargetMatches` | include/urlparser.hpp:15-17 | the scanner's pieces match the target pattern |
| `Target.PathIsLongest` | include/urlparser.hpp:15-17 | no match has a longer path |
| `Target.QueryIsShortest` | include/urlparser.hpp:15-17 | with that path no match has a shorter query |
| `Target.SplitTargetIsFirst` | include/urlparser.hpp:15-17 | the split is the only match with the longest path and then the shortest query |
| `Target.CharClasses` | include/urlparser.hpp:15-20 | which characters the classes of the patterns have |
| `Target.TargetParser.FromUrl` | include/urlparser.hpp:44-66 | a fresh parser holds the path, the parts and the query map of its url |
| `Target.TargetParser.ParseQueries` | include/urlparser.hpp:51-59 | path parts are appended to those already there, and the query map starts afresh with the first value of each name |
| `Target.TargetParser.SetURL` | include/urlparser.hpp:68-76 | the parser holds its new url's pieces, with the new path parts after the old ones |
| `Target.TargetParser.Lookup` | include/urlparser.hpp:85-89 | the value of the first pair with that name; none is not the same as empty |
| `Target.LookupInBuild` | include/urlparser.hpp:57-58 | looking a name up in the sorted map built from pairs finds the first pair with it |
| `Target.TargetParser.GetBool` | include/urlparser.hpp:91-102 | true exactly for an empty value, 1, yes or true, and false exactly for 0, no or false, in the first value of the name |
| `TargetRoundTrip.PathPartsOfPrinted` | include/urlparser.hpp:20-54 | the parts of a printed path are those printed |
| `TargetRoundTrip.PairsOfPrinted` | include/urlparser.hpp:19-58 | the pairs of a printed query are those printed, with either separator |
| `TargetRoundTrip.PathPartsAreParts` | include/urlparser.hpp:20-54 | whatever the path, its parts are not empty and hold no slash |
| `TargetRoundTrip.PairsAreText` | include/urlparser.hpp:19-58 | whatever the query, its pairs have names, and neither names nor values hold separators |
| `TargetRoundTrip.PairsNormalise` | include/urlparser.hpp:19-58 | reading a query is idempotent: its pairs, printed in normal form, read back as themselves |
| `TargetRoundTrip.SegmentsOf` | include/urlparser.hpp:20-54 | every path is segments with slashes between them |
| `TargetRoundTrip.PathPartsOfSegments` | include/urlparser.hpp:20-54 | the parts of any path are its segments after the first slash, without the empty ones |
| `TargetRoundTrip.FieldsOf` | include/urlparser.hpp:19-58 | every query is fields with separators between them, and texts with equals signs between them in each |
| `TargetRoundTrip.PairsOfQuery` | include/urlparser.hpp:19-58 | the pairs of any query: each name takes the text after its equals sign, a bare name has the empty value, and empty fields have none |
| `TargetRoundTrip.FirstCharDropped` | include/urlparser.hpp:55-56 | the first character of a query is dropped, whatever it is |
| `TargetRoundTrip.AnyQueryRoundTrips` | include/urlparser.hpp:15-61 | parsing a target with any such query gives its parts, those pairs and its fragment |
| `TargetRoundTrip.ParseAnyQuery` | include/urlparser.hpp:44-102 | through the parser object: the first value of a name, and a name that first occurs bare is a switch that is on |
| `TargetRoundTrip.TargetRoundTrips` | include/urlparser.hpp:15-61 | parsing a printed target gives back its parts, its pairs and its fragment |
| `TargetRoundTrip.ParsePrinted` | include/urlparser.hpp:44-89 | the same through the parser object, where the first occurrence of each name wins |
| `TargetRoundTrip.LeadingSlashIff` | include/urlparser.hpp:20-54 | a path reads the same without its leading slash exactly when nothing or a second slash follows |
| `EnumSets.IsWordIff` | include/virt_wrap/utility.hpp:78-81 | a set has no flag above the 32nd exactly when it fits in an unsigned int, which is where leading zeros are counted |
| `EnumSets.EnumSetIterator.Advance` | include/virt_wrap/utility.hpp:103-111 | clears the highest bit and no other |
| `EnumSets.EnumSetIterator.Deref` | include/virt_wrap/utility.hpp:113-117 | the highest flag of the set |
| `EnumSets.FlagListCorrect` | include/virt_wrap/utility.hpp:96-120 | the iterator visits single flags of the set in strictly decreasing order, and their union is the set |
| `EnumSets.SingleFlagRoundTrip` | include/virt_wrap/utility.hpp:78-85 | naming a flag and reading the name back gives the flag |
| `EnumSets.ToStringIsHighest` | include/virt_wrap/utility.hpp:78-81 | a set is named after its highest flag |
| `EnumSets.OrAllBits` | include/virt_wrap/utility.hpp:88-94 | a bit is in a union of flag sets exactly when it is in one of them |
| `EnumSets.OrAllOfSameFlags` | include/virt_wrap/utility.hpp:88-94 | a union does not depend on order or repetition |
| `Flagwork.CSVIterator.Advance` | include/urlparser.hpp:167-171 | drops everything up to the first comma, so the remaining view strictly shrinks |
| `Flagwork.CSVIterator.Deref` | include/urlparser.hpp:172-178 | the token up to the first comma after the leading ones, leading commas included |
| `Flagwork.TargetGetComposableFlag` | include/wrapper/handlers/flagwork.hpp:35-50 | the loop over tokens, for flags that combine and for flags that do not, on the first value of the tag |
| `Flagwork.NoFlagsGiven` | include/wrapper/handlers/flagwork.hpp:36-38 | a missing tag or an empty value is no flag and no error |
| `Flagwork.FirstNameDecides` | include/wrapper/handlers/flagwork.hpp:39-47 | of flags that do not combine the name before the first comma decides, and an empty one is rejected |
| `Flagwork.FlagsFromFields` | include/wrapper/handlers/flagwork.hpp:39-47 | reading succeeds exactly when every field is a non-empty known name, and gives the union of their flags |
| `Flagwork.FieldsIffJoined` | include/urlparser.hpp:164-182 | the fields of a text are given names exactly when it is those names joined by commas, with at most one more at the end |
| `Flagwork.AcceptedFlagLists` | include/wrapper/handlers/flagwork.hpp:36-50 | every such text is accepted, with the union of its flags |
| `Flagwork.OnlyAcceptedFlagLists` | include/wrapper/handlers/flagwork.hpp:36-50 | nothing else is accepted |
| `Flagwork.OrderAndRepetitionIrrelevant` | include/wrapper/handlers/flagwork.hpp:39-47 | the result does not depend on order or repetition of the names |
| `Flagwork.FlagSetRoundTrip` | include/virt_wrap/utility.hpp:71-120 | a flag set listed, named, joined and read back is the same set |
| `Flagwork.FlagSetThroughTarget` | include/wrapper/handlers/flagwork.hpp:36-50 | end to end: the same through a printed and parsed target, with other pairs around the tag |
| `Urls.URLParser.SetURL` | include/urlparser.hpp:111-125 | the pieces of the url pattern; the port is kept when the url has none |
| `Urls.MatchUrlRebuilds` | include/urlparser.hpp:23-25 | a url matches exactly when it is not empty and does not start with a slash; the pieces are of the right shapes and make the url up again |
| `Urls.MatchUrlMatches` | include/urlparser.hpp:23-25 | what is taken is one of the ways in which the pattern matches |
| `Urls.UrlMatchIsFirst` | include/urlparser.hpp:23-25 | of all ways in which the pattern matches it is the first: a scheme if there can be one, then the shortest host, then the longest path, then the shortest query |
| `Urls.MatchOfPrinted` | include/urlparser.hpp:23-25 | printing the pieces of a url, with or without a port, and matching the result gives them back |
| `Urls.SchemeTaken` | include/urlparser.hpp:23-23 | each of the three schemes is recognised when a host follows |
| `Urls.NoOtherScheme` | include/urlparser.hpp:23-23 | and no other |
| `Urls.AnyPort` | include/urlparser.hpp:121-122 | a port beyond 16 bits is reduced modulo 65536, and one beyond 64 bits counts as the largest |
| `Urls.UrlKeepsPartsIff` | include/urlparser.hpp:15-54 | for every url that matches: its path has the parts that the same text has as a target, if and only if it is empty or starts with a second slash |
| `Urls.UrlPathLosesFirstPart` | include/urlparser.hpp:15-58 | a printed target reads back all its parts by itself, and all but the first after an authority, while scheme, host, port, pairs and fragment are kept |
| `Urls.UrlKeepsAuthorityIff` | include/urlparser.hpp:23-23 | host and port are read back if and only if a path follows them, or nothing |
| `Urls.ParsePrintedUrl` | include/urlparser.hpp:108-144 | the round trip of a full url through the parser object |
| `Urls.HostLength` | include/urlparser.hpp:23-23 | the lazy host is the shortest that leaves a port tail |
| `Urls.HostBeforePort` | include/urlparser.hpp:23-23 | the lazy host stops at the last colon when digits follow it, whatever colons come before |
| `Urls.IniConfig.BuildHttpURI` | include/wrapper/config.hpp:81-86 | replaces the URI by scheme, address and port |
| `Urls.HttpUriRoundTrip` | include/wrapper/config.hpp:81-86 | parsing the built URI gives http, that exact address and that port, for every port up to 65535 |
| `Decimal.Pow10` | include/utils.hpp:25-30 | the power of ten modulo 2^32 |
| `Decimal.Strntou` | include/utils.hpp:32-37 | the decimal value modulo 2^32, exact whenever it fits |
| `Decimal.DecimalDigits` | include/utils.hpp:35-35 | the ten digits and their values |
| `Decimal.ToDecimalRoundTrip` | include/wrapper/config.hpp:85-85 | a number is printed without leading zeros and reads back as itself |
| `Positional.ValueSnoc` | include/utils.hpp:32-37 | the positional sum agrees with Horner's scheme |
| `EnumPrefix.FindPrefix` | tools/virtenums-ag/src/main.cpp:43-53 | the loop computes the smallest mismatch between neighbouring names |
| `EnumPrefix.NeighbourMinIsLongestCommon` | tools/virtenums-ag/src/main.cpp:43-53 | for two or more names that is the length of the longest prefix common to all, or the largest int if that is longer |
| `EnumPrefix.WordsOfChar` | tools/virtenums-ag/src/main.cpp:56-57 | a capital gets an underscore before it, and every letter is in upper case |
| `EnumPrefix.WordsOfText` | tools/virtenums-ag/src/main.cpp:56-57 | character by character |
| `EnumPrefix.ElementStart` | tools/virtenums-ag/src/main.cpp:59-61 | the text after the second underscore, or all of it when there are fewer than two |
| `EnumPrefix.SinglePrefix` | tools/virtenums-ag/src/main.cpp:61-62 | the length of the longest text that both the enum's words and that text start with |
| `EnumPrefix.FindSinglePrefix` | tools/virtenums-ag/src/main.cpp:54-63 | for one element: what its name after the second underscore has in common with the words of the enum's name, which must not be empty |
| `EnumPrefix.SingleStripIff` | tools/virtenums-ag/src/main.cpp:54-66 | removing that much from the front leaves what follows those words exactly when there are fewer than two underscores |
| `EnumPrefix.Generate` | tools/virtenums-ag/src/main.cpp:43-66 | for any number of elements: stripping is in bounds for every name, gives the names back when put in front again, and keeps distinct names distinct |

## Left out

- The libvirt bindings, the connection and network handlers, and the serialisation of query results: foreign calls; a domain is kept as a world that answers every call in any way.
- Sockets, sessions, HTTP headers, compression and logging: plumbing over other libraries.
- rapidjson and CTRE themselves: JSON values are a small datatype, and the patterns are scanners; a dot matches every character, and a match is leftmost-first.
- Altered: what happens to an action that is no non-empty object, or that has a request or a listed flag which is no string, is an arbitrary function, because reading it is not defined in the source.
- Alter: for the other actions, as in the line above; the same holds for batches of them.
- ExtractParamVal: only the types that the domain handlers ask for.
- JsonRes.Error: keeps the code of an error but not its message texts, which come from a finite table and from libvirt's last error.
- AsyncStore.Launch: stated for a launch that no other overlaps; overlapping launches are the events of the system.
- AsyncStore.Collect: one atomic step, since the sweep takes no lock; time is any integer.
- Callables that throw, and the store being destroyed while workers run: a callable always returns its string.
- FlatMap.Subscript: returns the position that the reference leads to; writing through references and iterators, and their invalidation, are not modelled. The same holds for the other three maps.
- UnorderedSplitFlatMap.Insert: follows the overload for temporaries; the other one builds its iterator from the wrong parts.
- IniConfig.BuildHttpURI: the port is not negative, as every port is.
- FindSinglePrefix: takes the enum's name as the pattern found it and without a final s; the pattern, and the reading of the file, are not modelled.
- Doubly nested subquery closures and the request dispatcher: they only choose which of the modelled parts is called.
