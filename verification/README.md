# Engine algorithms and protocols, verified

This project models the parts of the ArcLight engine whose correctness is not visible in any one
function, and proves what they are for. It covers the selection and comparison of AI versions, the
codec between AI commands and engine commands, the timed job queue, the life of Skirmish AIs with the
two levels of library load counts, frustum culling, yard-map rotation, the console history, the stack
trace translator, and the entity registry with its tags.

| file | what it models |
|---|---|
| `Ordering.dfy`, `Versions.dfy` | string order; splitting, padding and comparing dotted versions; the weighted sum and its 32-bit arithmetic |
| `KeySelection.dfy`, `SetOrder.dfy` | interface and AI keys, the order of `std::set`, the two searches over it, and when that order serves them |
| `Commands.dfy`, `CommandCodec.dfy` | `Command` with its inline parameters and pool page, the encoder, the topic classifier, the decoder |
| `Jobs.dfy` | `JobDispatcher` and its queue |
| `Libraries.dfy` | `CAIInterfaceLibrary` and `AILibraryManager`: fetching, releasing, load counts |
| `Instances.dfy`, `EngineOut.dfy` | `CSkirmishAIWrapper`, `CSkirmishAIHandler`, `CEngineOutHandler`: first as one state machine with its runs, then as objects that follow it |
| `KillFlags.dfy` | the messages by which kill flags and reloads destroy AIs |
| `Vectors.dfy`, `Culling.dfy`, `Camera.dfy` | vectors over the reals, the two intersection tests, the frustum a camera builds and `InView` |
| `YardMap.dfy` | grids, quarter turns, and the loop that writes the turned map |
| `ConsoleHistory.dfy` | the bounded history as a window on an unbounded log |
| `Wrappers.dfy` | values that may be missing |
| `Stacktrace.dfy` | grouping frames by module and scattering translations back |
| `Entities.dfy` | `EntityManager` and the tags of `World` |

Code that changes state is a class or a method with loops, tied by its `ensures` to a function of the
old state; what the program promises is proved about those functions, over all inputs and whole runs.
Foreign code (AI libraries, `addr2line`, job functions, `std::string::compare`, inverse square roots,
the bits of a float) is a parameter whose answers are arbitrary, within the contract it has.

## Where the code and its description disagree

- `VersionCompare` is documented as a version order (`rts/ExternalAI/AILibraryManager.h:145-156` relies
  on it). `std::string::compare` promises a sign only. Wherever its arithmetic is defined,
  `VersionCompare` is that order for every compare of a given magnitude exactly if the magnitude is at
  most 3 (`Versions.VersionCompareSoundUpToThree`). With a compare that returns byte differences, 1.9
  ranks above 2.1 (`Versions.ByteDifferenceMisorders`). With a three-valued compare the arithmetic is
  defined exactly up to 15 parts (`Versions.CompareDefinedUpToFifteenParts`). `ResolveSkirmishAIKey`
  finds a newest key with every compare of a magnitude exactly if that is at most 3, too
  (`KeySelection.ResolveSoundUpToThree`).
- `FindFittingInterfaceKey` is documented to choose the next higher version. It remembers the sign of
  a comparison only and so takes the first fitting key of the set. For one catalogue that is the
  documented key, whatever version is asked for, exactly if no key of the name stands behind a greater
  one without an equal one before both (`SetOrder.CatalogueServedExactly`). For all catalogues of
  versions over an alphabet it is exactly if two conditions hold: no character is below '0', and the
  versions are tidy, that is, begin with a part and have single dots between parts
  (`SetOrder.SetOrderServesExactly`; versions of dots only are all equal). Each
  condition is needed: `SetOrder.BelowZeroMisleads` and `SetOrder.GapMisleads` mislead with every
  character; 1..5 is visited before 1.2, for one.
- `FromRawCommand` copies as many bytes as there are parameters, not as many floats
  (`rts/Sim/Units/CommandAI/Command.h:264`). This can change the topic of a reclaim command, but never
  the order that is given (`CommandCodec.ShortCopyIsHarmless`); a lone feature, however, comes back as
  a unit (`CommandCodec.ExecutedRoundTrip`).
- `DestroySkirmishAI` is to destroy a live AI, which stands in two lists
  (`rts/ExternalAI/EngineOutHandler.cpp:566-575`). The network code calls it for every DIEING and
  RELOADING message (`rts/Net/NetCommands.cpp:1272-1275`), and every kill flag sends one. After two
  flags for one AI the second message finds the wrapper with team -1, and the list at index -1 is looked
  up (`KillFlags.TwoFlagsDestroyTwice`). In an engine that is in order exactly the live AIs can be
  destroyed (`Instances.CanDestroyExactly`), and all messages underway can be handled throughout a run
  exactly if every kill flag and reload is for a live AI that no message is underway for
  (`KillFlags.DeliverableExactlyWhenGuarded`).
- `UpdateFrustum` turns the left and right planes by `tan(aspect * halfFov)` but places the corners by
  `aspect * tan(halfFov)`. A box with a point in the frustum's hull is never culled by `InView` exactly
  for orthographic lenses, at whatever distance their near plane is, and those with `aspect * tan(halfFov) <= tan(aspect * halfFov)`
  (`Camera.NeverCullsExactly`). That leaves out every lens with `aspect * halfFov` between one right
  angle and two, where the tangent is negative and the side planes flip.
- `EntityManager::DestroyEntity` does not check its argument. Live and free ids stay apart throughout a
  run exactly when only live ids are destroyed and the 32-bit counter does not wrap
  (`Entities.PartitionedExactlyWhenIdsSpared`); components stay on live ids as well exactly when they
  are added to live ids only, too (`Entities.SoundExactlyWhenPermitted`). Destroying one id twice hands
  it out twice (`Entities.DestroyingTwiceSharesId`). Destroying an entity leaves its tags to the next
  owner of its id (`Entities.RecycledKeepsTags`).
- `getYardMap` cuts the size it returns to that of the buffer, but not its loops: with a buffer shorter
  than the grid they reach an index past its end, which an assertion stops and a release build writes
  to (`YardMap.RoomForAllCells`, `YardMap.GetYardMap`).
- `Update` takes any job. One that keeps asking for another run holds it up for ever exactly if its
  frequency is negative (`Jobs.EndlessExactlyIfNegative`).
- The history walk of `CConsoleHistory` returns to the draft exactly on the lines that
  `ConsoleHistory.WalkReturns` names: not when the draft repeats the newest line, nor over stored lines
  that begin with `a:` or `s:` while the draft has no prefix of its own, nor when a draft with a message
  goes up past the oldest line that is kept. From a fresh history two presses up and two down lose any
  new draft (`ConsoleHistory.PastOldestLosesDraft`).

## Model

| member | source | states |
|---|---|---|
| `Versions.SplitAtDots` | `rts/System/FileSystem/SimpleParser.cpp:113-132` | the loop over find_first_of and find_first_not_of returns the non-empty parts between dots |
| `Versions.SplitJoin` | `rts/System/FileSystem/SimpleParser.cpp:113-132` | splitting undoes joining, for every list of non-empty dot-free parts |
| `Versions.PartOrderAntisymmetric` | `rts/ExternalAI/AILibraryManager.cpp:486-502` | comparing the other way round gives the opposite sign |
| `Versions.PartOrderTransitive` | `rts/ExternalAI/AILibraryManager.cpp:486-502` | the padded order is transitive over three lists of any lengths, although each pair is padded on its own |
| `Versions.EqualUpToTrailingZeros` | `rts/ExternalAI/AILibraryManager.cpp:494-496` | two versions compare equal exactly when they differ in trailing "0" parts only, as 1 and 1.0 do |
| `Versions.WeightedHasLeadingSign` | `rts/ExternalAI/AILibraryManager.cpp:493-497` | with results of magnitude at most 3 the weighted sum has the sign of the leftmost difference, for any number of parts |
| `Versions.WeightsSoundUpToThree` | `rts/ExternalAI/AILibraryManager.cpp:493-497` | on lists of results this holds exactly for magnitudes up to 3: at 4 two results can cancel |
| `Versions.InRangeUpToFifteenParts` | `rts/ExternalAI/AILibraryManager.cpp:491-497` | with a three-valued compare every shift, product and partial sum fits an int exactly for at most 15 parts |
| `Versions.OnePartInRange` | `rts/ExternalAI/AILibraryManager.cpp:493-497` | for one part the arithmetic is defined exactly if four times the result fits 32 bits |
| `Versions.SignBitsAreSign` | `rts/ExternalAI/AILibraryManager.cpp:500-501` | the bit expression is -1, 0 or 1 for every 32-bit int, namely its sign |
| `Versions.VersionCompare` | `rts/ExternalAI/AILibraryManager.cpp:486-502` | the loop returns the sign of the weighted sum, or is undefined exactly when some step leaves the range of int |
| `Versions.CompareSignIsVersionOrder` | `rts/ExternalAI/AILibraryManager.cpp:486-502` | with a compare of magnitude at most 3 that sign is the part-wise version order |
| `Versions.VersionCompareSoundUpToThree` | `rts/ExternalAI/AILibraryManager.cpp:486-502` | over all compares of a magnitude and all versions on which it is defined, the result is the version order exactly if the magnitude is at most 3 |
| `Versions.CompareDefinedUpToFifteenParts` | `rts/ExternalAI/AILibraryManager.cpp:491-497` | with a three-valued compare it is defined exactly for versions of at most 15 parts |
| `Versions.ByteDifferenceMisorders` | `rts/ExternalAI/AILibraryManager.cpp:493-501` | with a compare that returns byte differences 1.9 is ranked above 2.1 |
| `KeySelection.KeyLessIsStrictTotalOrder` | `rts/ExternalAI/AIInterfaceKey.cpp:27-42` | the key order is the strict total order that std::set and std::map demand |
| `KeySelection.FindFittingInterfaceKey` | `rts/ExternalAI/AILibraryManager.cpp:385-407` | for every compare the loop returns the first key, in set order, that has the name and compares equal, else the first that compares higher, else the unspecified key; it is undefined exactly if a comparison is |
| `SetOrder.StringOrderExtendsPartOrder` | `rts/ExternalAI/AIInterfaceKey.cpp:35-42` | string order on tidy versions, trailing dots included, extends the padded part order if no character is below '0' |
| `SetOrder.SetOrderIsVersionOrder` | `rts/ExternalAI/AIInterfaceKey.cpp:35-42` | hence a set visits the tidy versions of one name in ascending order |
| `SetOrder.ChosenIsNextHigher` | `rts/ExternalAI/AILibraryManager.h:145-156` | for tidy versions without characters below '0' the chosen key is a least version among all fitting keys, and unspecified exactly when none fits, for any requested version |
| `SetOrder.SetOrderServesExactly` | `rts/ExternalAI/AILibraryManager.h:145-156` | the documented choice is made on all catalogues over an alphabet exactly when no character is below '0' and the versions are tidy |
| `SetOrder.CatalogueServedExactly` | `rts/ExternalAI/AILibraryManager.h:145-156` | on one catalogue it is made for every requested version, of any number of parts or of up to any limit beyond the keys' own, exactly when no key of the name stands behind a greater one without an equal one before both |
| `SetOrder.BelowZeroMisleads` | `rts/ExternalAI/AILibraryManager.cpp:385-407` | for every character below '0' a catalogue of two tidy keys on which the choice is not the documented one |
| `SetOrder.GapMisleads` | `rts/ExternalAI/AILibraryManager.cpp:385-407` | for every character from '0' on such a catalogue with one version that has a gap of two dots |
| `KeySelection.FittingSkirmishAIKeys` | `rts/ExternalAI/AILibraryManager.cpp:268-290` | the keys with that name and, if one is given, that version, in set order; none for the unspecified key |
| `KeySelection.FittingExactly` | `rts/ExternalAI/AILibraryManager.cpp:268-290` | a request with a version is served by that very key or by none, one without by all keys of the name in set order |
| `KeySelection.ResolveSkirmishAIKey` | `rts/ExternalAI/AILibraryManager.cpp:429-448` | for every compare the first fitting key, replaced in turn by each that compares higher than the one kept; unspecified exactly when none fits, and undefined exactly when such a comparison is |
| `KeySelection.ResolveSoundUpToThree` | `rts/ExternalAI/AILibraryManager.cpp:429-448` | over all compares of a magnitude, catalogues and requests the key that is kept is a newest fitting one, the first of those, exactly if the magnitude is at most 3: at 4 the catalogue 1.9, 2.1 resolves to 1.9 |
| `KeySelection.BestIsUnique` | `rts/ExternalAI/AILibraryManager.cpp:429-448` | the first of the newest is one key |
| `Commands.Command.PushParam` | `rts/Sim/Units/CommandAI/Command.cpp:61-83` | appends one parameter, also where the eight inline ones are moved to a pool page |
| `Commands.NewCommand` | `rts/ExternalAI/AISCommands.cpp:473-777` | fills the command in place to the encoding of the AI command, and leaves it alone and reports failure for the one topic without an encoding |
| `CommandCodec.TopicRoundTrip` | `rts/ExternalAI/AISCommands.cpp:9-471` | an encoded command has the id that toInternalUnitCommandTopic names, and is classified under its own topic exactly if it is unambiguous |
| `CommandCodec.PayloadRoundTrip` | `rts/ExternalAI/SSkirmishAICallbackImpl.cpp:285-639` | decoding an encoding under its topic reads within its parameters and returns its members, except a facing without a place |
| `CommandCodec.RoundTrip` | `rts/ExternalAI/AISCommands.cpp:9-777` | encode, classify and decode give the command back exactly on the unambiguous, keepable commands |
| `CommandCodec.ShortCopyIsHarmless` | `rts/Sim/Units/CommandAI/Command.h:248-265` | copying bytes instead of floats never changes the order that is given, nor whether the parameters suffice |
| `CommandCodec.ExecutedRoundTrip` | `rts/ExternalAI/SSkirmishAICallbackImpl.cpp:285-639` | with that copy, the commands that executeCommand decodes to what they encode are exactly these; a lone feature is not one |
| `CommandCodec.NormalisedFixesCanonical` | `rts/ExternalAI/SSkirmishAICallbackImpl.cpp:297-635` | decoding and encoding leaves the parameters alone exactly if the command is canonical |
| `CommandCodec.ExecuteGives` | `rts/ExternalAI/SSkirmishAICallbackImpl.cpp:297-635` | the order carries the id, options and timeout of the raw command; there is none exactly for AISELECT and for loading no units |
| `CommandCodec.ExecuteNormalises` | `rts/ExternalAI/SSkirmishAICallbackImpl.cpp:297-635` | every order given is canonical, and is the raw command exactly if that was |
| `CommandCodec.ExecuteKeepsCanonical` | `rts/ExternalAI/SSkirmishAICallbackImpl.cpp:297-635` | a canonical command is passed on as it is, to the unit or the group |
| `CommandCodec.ExecuteTwice` | `rts/ExternalAI/SSkirmishAICallbackImpl.cpp:297-635` | executing an order's command again gives the same order |
| `CommandCodec.EffectOfExecuting` | `rts/ExternalAI/SSkirmishAICallbackImpl.cpp:285-639` | one target with fewer than three parameters, or five for reclaim and capture, is truncated; otherwise the first three parameters stay as the place, with radius 0 if there are exactly three; and so on for every id, whatever the unit limit |
| `CommandCodec.TruncTowardsZero` | `rts/ExternalAI/SSkirmishAICallbackImpl.cpp:328-505` | the conversion to int is the integer part, towards zero |
| `CommandCodec.HandleCommand` | `rts/ExternalAI/SSkirmishAICallbackImpl.cpp:1141-1158` | a known command goes to its unit, or to its group if the unit id is negative; an unknown one nowhere |
| `CommandCodec.ExecuteCommand` | `rts/ExternalAI/SSkirmishAICallbackImpl.cpp:285-639` | for every raw command, by its engine id and number of parameters: the order's parameters, with the same id, timeout and byte of options, or no order, or a read beyond the list |
| `Jobs.RunsDecrease` | `rts/Game/GameJobDispatcher.h:25` | a run lowers the count of remaining runs, floor((now - time) / period) + 1 for a catch-up job, by exactly one |
| `Jobs.StepRate` | `rts/Game/GameJobDispatcher.h:25` | the next time is later than the last one, or than the clock without catching up, by 1000 divided by the frequency |
| `Jobs.RunsRate` | `rts/Game/GameJobDispatcher.h:44-61` | a due catch-up job has floor((clock - time) * frequency / 1000) + 1 runs to make, any other one |
| `Jobs.EndlessExactlyIfNegative` | `rts/Game/GameJobDispatcher.h:44-61` | a due job that always returns true stays due through any number of runs exactly if its frequency is negative, for every frequency |
| `Jobs.AloneWithoutDrop` | `rts/Game/GameJobDispatcher.h:44-61` | a job that returns true at each run that is due runs exactly that often and stays; a catch-up job's time moves by that many periods, and with frequency 0 it is never due again |
| `Jobs.AloneUntilDrop` | `rts/Game/GameJobDispatcher.h:55-56` | the run at which the function first returns false is the last |
| `Jobs.CatchUpStaysInStep` | `rts/Game/GameJobDispatcher.h:25-28` | whatever its function returns, the time of a catch-up job still queued after any Updates is its start plus one period for each run, and its settings are unchanged |
| `Jobs.TwoUpdatesAreOne` | `rts/Game/GameJobDispatcher.h:44-61` | for a catch-up job two Updates act as one at the later clock, whatever its function returns |
| `Jobs.CatchUpDependsOnLatestClock` | `rts/Game/GameJobDispatcher.h:44-61` | after any sequence of Updates a catch-up job depends on the largest clock alone |
| `Jobs.RunsAtItsFrequency` | `rts/Game/GameJobDispatcher.h:44-61` | once due, a catch-up job of whole frequency that is never dropped makes exactly frequency times seconds runs while the latest clock advances by whole seconds, however many Updates that takes |
| `Jobs.StepCounted` | `rts/Game/GameJobDispatcher.h:47-60` | every pass lowers the total of remaining runs, by exactly one unless a job is dropped |
| `Jobs.JobDispatcher.AddTimedJob` | `rts/Game/GameJobDispatcher.h:43` | one more entry, for any job, the others untouched |
| `Jobs.JobDispatcher.Update` | `rts/Game/GameJobDispatcher.h:44-61` | without negative frequencies it terminates; each entry ends as it would alone, nothing is due, runs are in time order, the number of runs is at most the initial measure and equal to it if no job is dropped; a job of frequency 0 runs once and never again |
| `Libraries.CAIInterfaceLibrary.GetLoadCount` | `rts/ExternalAI/AIInterfaceLibrary.cpp:154-161` | the loop adds up the counts, in whatever order it meets them |
| `Libraries.TotalAfter` | `rts/ExternalAI/AIInterfaceLibrary.cpp:154-161` | the sum changes by as much as one count does |
| `Libraries.CAIInterfaceLibrary.FetchSkirmishAILibrary` | `rts/ExternalAI/AIInterfaceLibrary.cpp:183-213` | counts up, loads natively on a count of 0 only, and returns the object in the table |
| `Libraries.CAIInterfaceLibrary.ReleaseSkirmishAILibrary` | `rts/ExternalAI/AIInterfaceLibrary.cpp:215-230` | counts down, unloads and erases on a count of 1 only, and does nothing to a count of 0 |
| `Libraries.ReleaseUndoesFetch` | `rts/ExternalAI/AIInterfaceLibrary.cpp:183-230` | a release right after a fetch restores every count and every library, with a load and an unload only around a count of 0 |
| `Libraries.FetchedStaysConsistent` | `rts/ExternalAI/AIInterfaceLibrary.cpp:183-213` | a library stays in the table, and natively loaded by turns of load and unload, exactly while its count is positive |
| `Libraries.ReleasedStaysConsistent` | `rts/ExternalAI/AIInterfaceLibrary.cpp:215-230` | so it does over a release |
| `Libraries.FetchCounts` | `rts/ExternalAI/AILibraryManager.cpp:294-313` | a fetch raises one count by one or fails and fails for ever; no library in use moves, under any key |
| `Libraries.FetchSucceedsExactly` | `rts/ExternalAI/AILibraryManager.cpp:294-313` | a fetch returns a library exactly if the key is known and its interface is loaded already, or has no entry and starts |
| `Libraries.FetchReturns` | `rts/ExternalAI/AIInterfaceLibrary.cpp:183-214` | the first fetch makes an object that no other key has, the stand-in exactly if the native load found nothing; later fetches return the same object |
| `Libraries.ReleaseCounts` | `rts/ExternalAI/AILibraryManager.cpp:315-382` | a release lowers one count by one; no library still in use moves, so no interface with one is dropped |
| `Libraries.ReleaseOfFailedFetch` | `rts/ExternalAI/AILibraryManager.cpp:315-326` | releasing a key whose fetch failed changes nothing and starts no interface |
| `Libraries.DroppedExactlyWhenIdle` | `rts/ExternalAI/AILibraryManager.cpp:369-382` | an interface is dropped exactly when the last use of its only loaded library ends |
| `Libraries.AILibraryManager.FetchInterface` | `rts/ExternalAI/AILibraryManager.cpp:345-367` | returns the stored entry, or stores a new one, and returns an object exactly if a loaded one is stored or the interface is known, not stored and starts |
| `Libraries.AILibraryManager.FetchSkirmishAILibrary` | `rts/ExternalAI/AILibraryManager.cpp:294-313` | brings the objects to the specified state and returns the library of the key or null |
| `Libraries.AILibraryManager.ReleaseSkirmishAILibrary` | `rts/ExternalAI/AILibraryManager.cpp:315-326` | brings the objects to the specified state; the unguarded lookup of the AI's info always finds it |
| `Libraries.AILibraryManager.ReleaseInterface` | `rts/ExternalAI/AILibraryManager.cpp:369-382` | erases the entry exactly if the sum of its counts is 0 |
| `Instances.StartedIsLive` | `rts/ExternalAI/SkirmishAIWrapper.cpp:109-213` | whatever the foreign code answers, a created wrapper is in a phase of the protocol its flags agree with, blocked if it is flagged, and holds the manager's object or failed for good |
| `Instances.StartedTells` | `rts/ExternalAI/SkirmishAIWrapper.cpp:109-213` | the exact events, flag and members of a created AI for every answer: no library, a failed initialisation, a flag set before, a refused INIT, or an AI that runs and gets its ordinary events |
| `Instances.CreatedRunsExactly` | `rts/ExternalAI/EngineOutHandler.cpp:523-557` | an unflagged AI runs exactly if its library was fetched and, unless it is the stand-in, agreed to its initialisation and to INIT; otherwise it is flagged with reason 5 and blocked |
| `Instances.KilledIsDead` | `rts/ExternalAI/SkirmishAIWrapper.cpp:157-197` | Kill brings every such wrapper to an end of its protocol and releases its key once |
| `Instances.KilledTells` | `rts/ExternalAI/SkirmishAIWrapper.cpp:157-197` | Kill sends RELEASE, with the reason of the last kill flag, exactly to an initialised AI, then releases exactly an initialised library |
| `Instances.ReleasedOnce` | `rts/ExternalAI/SkirmishAIWrapper.cpp:187-197` | a second Release changes nothing |
| `Instances.CreateStaysSoundExactly` | `rts/ExternalAI/EngineOutHandler.cpp:523-557` | creating keeps the engine in order exactly if the id is not live yet |
| `Instances.DestroyedStaysSound` | `rts/ExternalAI/EngineOutHandler.cpp:559-579` | destroying a live AI keeps it in order and shortens the active list by one |
| `Instances.CanDestroyExactly` | `rts/ExternalAI/EngineOutHandler.cpp:563-575` | in an engine in order the team of a wrapper is in range, and the AI can be found in both lists, exactly if it is live |
| `Instances.DestroyUndoesCreate` | `rts/ExternalAI/EngineOutHandler.cpp:523-579` | destroying an AI right after its creation gives all lists, data and load counts back, whatever was answered |
| `Instances.FlaggedStaysSound` | `rts/ExternalAI/SkirmishAIHandler.cpp:224-236` | so does a kill flag at any time, for a live, a dead or a Lua AI |
| `Instances.EventReachesRunning` | `rts/ExternalAI/SkirmishAIWrapper.cpp:467-475` | an event is one more in the history of an AI that runs, and changes nothing for any other |
| `Instances.DataComesAndGoes` | `rts/ExternalAI/SkirmishAIHandler.cpp:155-186` | a taken id keeps its data; removing takes data and kill flag away and restores the rest |
| `Instances.RunIsSound` | `rts/ExternalAI/EngineOutHandler.cpp:523-579` | every state of every run, as far as AIs that are not live are neither destroyed nor created twice, is in order: lists, wrappers, flags, load counts and pointers together |
| `Instances.CountsAreHolders` | `rts/ExternalAI/AIInterfaceLibrary.h:48-66` | throughout every run the load count of a key is the number of wrappers holding its library, the entry exists exactly if that is positive, and each holds that very object |
| `Instances.LoadedExactlyWhileHeld` | `rts/ExternalAI/AIInterfaceLibrary.h:48-66` | throughout every run native loads and unloads of a library take turns, and it is loaded exactly while some wrapper holds it |
| `Instances.ProtocolIsKept` | `rts/ExternalAI/SkirmishAIWrapper.cpp:109-213` | throughout every run no wrapper leaves the protocol, so none calls through a null pointer, and none is running once flagged |
| `Instances.OrdinaryOnlyWhileWanted` | `rts/ExternalAI/SkirmishAIWrapper.cpp:467-475` | within the protocol an ordinary event follows a successful initialisation, a successful INIT and other ordinary events only: never a failure, a flag or a RELEASE |
| `Instances.NothingIsOwed` | `rts/ExternalAI/SkirmishAIWrapper.cpp:157-197` | within the protocol a library is released exactly as often as it was initialised, at most once, and gets RELEASE exactly as often as INIT succeeded, up to what is owed to a live wrapper |
| `Instances.TeamsPartitionActive` | `rts/ExternalAI/EngineOutHandler.cpp:539-542` | throughout every run the active list holds each live wrapper once, and the list of its own team, and no other, holds it once |
| `Instances.SoundIsDrainable` | `rts/ExternalAI/EngineOutHandler.h:35-44` | in every such state the drain loop finds each AI in both lists and comes to an end |
| `Instances.DrainGoesBackwards` | `rts/ExternalAI/EngineOutHandler.h:35-44` | the drain loop destroys the AIs in the reverse order of the active list, in order all the way |
| `Instances.DrainLeavesNothing` | `rts/ExternalAI/EngineOutHandler.cpp:68-76` | after any run it leaves no AI, no team with one, no load count and no library for the manager that is destroyed next |
| `KillFlags.DeliverableExactly` | `rts/Net/NetCommands.cpp:1272-1275` | in any engine in order a list of DIEING and RELOADING messages can be handled to its end exactly if they are for live AIs, one for each |
| `KillFlags.MoveKeepsOrderExactly` | `rts/ExternalAI/SkirmishAIHandler.cpp:224-236` | a call or delivery keeps the messages so exactly if a flag or reload is for a live AI that no message is underway for |
| `KillFlags.NetRunIsSound` | `rts/Net/NetCommands.cpp:1233-1285` | the engine is in order throughout every run of flags, reloads, deliveries and other calls, up to a message that cannot be handled |
| `KillFlags.FlaggedIsPending` | `rts/ExternalAI/SkirmishAIHandler.cpp:224-236` | throughout every run a message is underway for each live AI that was flagged, so none is forgotten |
| `KillFlags.DeliverableExactlyWhenGuarded` | `rts/Net/NetCommands.cpp:1272-1275` | all messages underway can be handled at every time of a run exactly if all its flags and reloads were of that kind |
| `KillFlags.TwoFlagsDestroyTwice` | `rts/ExternalAI/SkirmishAIHandler.cpp:224-236` | from any engine in order two kill flags for a live AI lead to a second destruction, of a wrapper with team -1 |
| `EngineOut.CSkirmishAIHandler.AddSkirmishAI` | `rts/ExternalAI/SkirmishAIHandler.cpp:155-170` | stores the data of a free id, and reports and leaves alone a taken one |
| `EngineOut.CSkirmishAIHandler.RemoveSkirmishAI` | `rts/ExternalAI/SkirmishAIHandler.cpp:172-186` | clears data and kill flag of a taken id only |
| `EngineOut.CSkirmishAIHandler.SetLocalKillFlag` | `rts/ExternalAI/SkirmishAIHandler.cpp:224-236` | sets one flag and blocks that AI's events unless it is a Lua AI |
| `EngineOut.CSkirmishAIWrapper.PreInit` | `rts/ExternalAI/SkirmishAIWrapper.cpp:59-95` | every member is reset, the library pointer to null |
| `EngineOut.CSkirmishAIWrapper.HandleEvent` | `rts/ExternalAI/SkirmishAIWrapper.cpp:467-475` | delivers an event unless events are blocked, RELEASE always, and answers 0 for what is held back |
| `EngineOut.CSkirmishAIWrapper.InitLibrary` | `rts/ExternalAI/SkirmishAIWrapper.cpp:109-147` | fetch, init, flag and block leave wrapper, flag and manager as specified; false exactly if the AI is flagged |
| `EngineOut.CSkirmishAIWrapper.SendInitEvent` | `rts/ExternalAI/SkirmishAIWrapper.cpp:200-213` | initialised exactly on the answer 0, flagged otherwise |
| `EngineOut.CSkirmishAIWrapper.Init` | `rts/ExternalAI/SkirmishAIWrapper.cpp:150-155` | INIT is sent exactly if the library came up unflagged |
| `EngineOut.CSkirmishAIWrapper.Release` | `rts/ExternalAI/SkirmishAIWrapper.cpp:187-197` | RELEASE once, and only after a successful INIT |
| `EngineOut.CSkirmishAIWrapper.Kill` | `rts/ExternalAI/SkirmishAIWrapper.cpp:157-185` | RELEASE, the library's release if it was initialised, and the manager's release, in this order |
| `EngineOut.CEngineOutHandler.constructor` | `rts/ExternalAI/EngineOutHandler.h:34` | an engine without AIs |
| `EngineOut.CEngineOutHandler.BlockSkirmishAIEvents` | `rts/ExternalAI/EngineOutHandler.h:94` | blocks the events of that wrapper and of no other |
| `EngineOut.CEngineOutHandler.CreateSkirmishAI` | `rts/ExternalAI/EngineOutHandler.cpp:523-557` | brings the objects from any engine state to the one specified, touching one wrapper and one flag; a Lua AI changes nothing |
| `EngineOut.CEngineOutHandler.DestroySkirmishAI` | `rts/ExternalAI/EngineOutHandler.cpp:559-579` | in every engine in order: finds a live id in both lists, erases it from both and kills that wrapper; for a dead one the index of the team's list is out of range |
| `EngineOut.CEngineOutHandler.Kill` | `rts/ExternalAI/EngineOutHandler.h:35-44` | the loop terminates in the specified drained state |
| `Culling.IntersectSphere` | `rts/Game/Camera.cpp:719-745` | the loop over the tested planes computes the sphere test |
| `Culling.SphereCulledExactly` | `rts/Game/Camera.cpp:719-745` | for unit normals a sphere is culled exactly when a side plane or the far plane has the whole ball in front; the near plane has no say |
| `Culling.CommonPointNotSeparated` | `rts/Game/Camera.cpp:761-784` | an axis on which the projections do not overlap separates no two bodies with a common point |
| `Culling.IntersectAABB` | `rts/Game/Camera.cpp:747-798` | the search over 3 + 6 + 18 axes computes the box test |
| `Culling.SeparatesBodies` | `rts/Game/Camera.cpp:761-784` | comparing the projections of the corners is comparing those of all points of both bodies |
| `Culling.BoxCulledExactly` | `rts/Game/Camera.cpp:747-798` | a box is culled exactly when one of the 27 axes has the whole frustum hull strictly to one side of the whole box |
| `Culling.BoxCulledByAxes` | `rts/Game/Camera.cpp:747-798` | these axes are the coordinate axes, the six normals and the cross products of coordinate axes and edges, to any positive scale |
| `Culling.CrossAxesPerpendicular` | `rts/Game/Camera.cpp:791-795` | each of the 18 products is perpendicular to its coordinate axis and its edge, and vanishes only where these are parallel |
| `Culling.BoxCullingSound` | `rts/Game/Camera.cpp:747-798` | a box with a point in the convex hull of the frustum corners is never culled, whichever axes are tried and however they are normalised |
| `Camera.PlanesAreUnit` | `rts/Game/Camera.cpp:116-147` | the planes that UpdateFrustum builds have unit normals |
| `Camera.PlanesFace` | `rts/Game/Camera.cpp:146-147` | along the normals of the near and the far plane every point has its depth, back and ahead |
| `Camera.HullIsVolume` | `rts/Game/Camera.cpp:110-156` | the hull of the eight corners is exactly what the lens sees between its near and far planes |
| `Camera.EdgesAcross` | `rts/Game/Camera.cpp:151-152` | all four edges across are parallel to the first kept direction |
| `Camera.EdgesUpward` | `rts/Game/Camera.cpp:151-152` | all four edges upward are parallel to the second |
| `Camera.EdgesInDepth` | `rts/Game/Camera.cpp:153-156` | each of the edges from near to far is parallel to its own |
| `Camera.EdgesAreUnit` | `rts/Game/Camera.cpp:151-156` | and these directions have length one where the body has an extent |
| `Camera.CornersBehindExactly` | `rts/Game/Camera.cpp:110-156` | all corners are behind all tested planes exactly for wide enough lenses |
| `Camera.InViewSound` | `rts/Game/Camera.h:119-121` | if all corners are behind the tested planes, a box with a point in the frustum's hull is in view |
| `Camera.InViewCulledExactly` | `rts/Game/Camera.h:119-121` | a box is out of view exactly if a tested plane has its whole ball in front or a tried axis has it strictly apart |
| `Camera.NeverCullsExactly` | `rts/Game/Camera.h:119-121` | no box with a point in the hull is culled exactly for orthographic and wide enough lenses |
| `YardMap.TurnedCell` | `rts/ExternalAI/SSkirmishAICallbackImpl.cpp:3009-3045` | the cell at each place of the turned grid comes from the place that the facing says |
| `YardMap.FourTurns` | `rts/ExternalAI/SSkirmishAICallbackImpl.cpp:3009-3045` | four quarter turns give the grid back |
| `YardMap.FacingsCompose` | `rts/ExternalAI/SSkirmishAICallbackImpl.cpp:3009-3045` | facings compose as the cyclic group of order four |
| `YardMap.IndexIsInjective` | `rts/ExternalAI/SSkirmishAICallbackImpl.cpp:3047-3053` | no output cell is written twice |
| `YardMap.IndexIsSurjective` | `rts/ExternalAI/SSkirmishAICallbackImpl.cpp:3047-3053` | none is left out |
| `YardMap.RoomForAllCells` | `rts/ExternalAI/SSkirmishAICallbackImpl.cpp:3052` | the asserted bound holds in every pass exactly if the buffer has room for all cells |
| `YardMap.GetYardMap` | `rts/ExternalAI/SSkirmishAICallbackImpl.cpp:2993-3057` | the nested loops leave the grid turned as often as the facing says and the rest of the buffer as it was; an index leaves the range exactly if the buffer is shorter than the grid |
| `ConsoleHistory.AddKeepsCursor` | `rts/Game/ConsoleHistory.cpp:36-57` | the cursor keeps its place in the log across a roll; only a cursor on the dropped line moves on to the next |
| `ConsoleHistory.TextInParts` | `rts/Game/ConsoleHistory.cpp:26-31` | the prefix is one of four, or blank if the text begins with none of them, and the message is the rest |
| `ConsoleHistory.AddGives` | `rts/Game/ConsoleHistory.cpp:36-57` | blank and repeated lines are refused; any other becomes the last line, whereby the oldest of 256 goes |
| `ConsoleHistory.NextLineGives` | `rts/Game/ConsoleHistory.cpp:60-93` | for every history, cursor and text: an edited line is added, one that is under the cursor, last or blank is not, and the text is the next line, or the bare prefix from the last line on |
| `ConsoleHistory.PrevLineGives` | `rts/Game/ConsoleHistory.cpp:96-127` | likewise, and the text is the line before, or the bare prefix on the oldest line that is left |
| `ConsoleHistory.RunsStayValid` | `rts/Game/ConsoleHistory.cpp:7-127` | after any calls the history is the last at most 256 lines of the log, never empty, without equal neighbours, with the cursor within |
| `ConsoleHistory.UpShows` | `rts/Game/ConsoleHistory.cpp:96-127` | going up k times adds the draft if it is accepted and shows the k-th line from the end, and past the oldest line the bare prefix |
| `ConsoleHistory.DownShows` | `rts/Game/ConsoleHistory.cpp:60-93` | going down any number of times shows the stored lines in forward order and from the end on the bare prefix |
| `ConsoleHistory.WalkReturns` | `rts/Game/ConsoleHistory.cpp:60-127` | for every k > 0, k steps up and k down return to the draft exactly if it is blank, or new and no step goes up past the oldest line that is kept, and no prefix gets in the way |
| `ConsoleHistory.PastOldestLosesDraft` | `rts/Game/ConsoleHistory.cpp:60-127` | on a fresh history two steps up and two down lose any draft with a message |
| `ConsoleHistory.CConsoleHistory.AddLine` | `rts/Game/ConsoleHistory.cpp:22-33` | adds the message without its prefix, and says whether it was accepted |
| `ConsoleHistory.CConsoleHistory.AddLineRaw` | `rts/Game/ConsoleHistory.cpp:36-57` | the deque follows the log through refusal, growth and roll |
| `ConsoleHistory.CConsoleHistory.NextLine` | `rts/Game/ConsoleHistory.cpp:60-93` | all branches leave the cursor and show the text that the log semantics says |
| `ConsoleHistory.CConsoleHistory.PrevLine` | `rts/Game/ConsoleHistory.cpp:96-127` | so do those of going up |
| `Stacktrace.CollectStackframes` | `buildbot/stacktrace_translator/stacktrace_translator.py:199-207` | the loop groups the frames by module and counts them |
| `Stacktrace.EntriesAreFrames` | `buildbot/stacktrace_translator/stacktrace_translator.py:199-207` | the entries of a module are exactly its frames with their indices, each once and in order |
| `Stacktrace.TranslateModuleAddresses` | `buildbot/stacktrace_translator/stacktrace_translator.py:295-318` | addresses are paired with the lines of one run, within .text for a module ending in .dll, up to the shorter list |
| `Stacktrace.LinesOf` | `buildbot/stacktrace_translator/stacktrace_translator.py:295-298` | addresses count from .text exactly for names that are another name with .dll behind it |
| `Stacktrace.Translate` | `buildbot/stacktrace_translator/stacktrace_translator.py:328-344` | over the modules in any order, every slot gets the translation paired with its frame, and an unknown module's the placeholder |
| `Stacktrace.BatchingIsPointwise` | `buildbot/stacktrace_translator/stacktrace_translator.py:321-344` | with one line per address the result is each frame translated alone, in the original order |
| `Stacktrace.EmptySlots` | `buildbot/stacktrace_translator/stacktrace_translator.py:318-336` | otherwise a slot stays empty exactly if the lines printed for its module are no more than the frames of that module before it |
| `Stacktrace.UnknownModules` | `buildbot/stacktrace_translator/stacktrace_translator.py:337-340` | a frame of a module without a debug file gets its own module and address with ?? and 0 |
| `Entities.StaysPartitionedExactly` | `rts/ECS/Entity.h:34-79` | a call keeps live and free ids a partition of 1..nextID-1 exactly if it destroys no id that is not live and the counter has room |
| `Entities.PartitionedExactlyWhenIdsSpared` | `rts/ECS/Entity.h:34-79` | and a whole run keeps this throughout exactly if all its calls are such, whatever it adds to what |
| `Entities.StaysSoundExactly` | `rts/ECS/Entity.h:34-79` | a call keeps the components on live ids as well exactly if it also adds to no id that is not live |
| `Entities.SoundExactlyWhenPermitted` | `rts/ECS/Entity.h:34-79` | throughout a run ids stay apart and components on live ids exactly if it also adds to live ids only |
| `Entities.CreatedIdIsUnused` | `rts/ECS/Entity.h:34-44` | in a run that destroys live ids only a created id was not live and is not the invalid one |
| `Entities.CreatedIdStartsBare` | `rts/ECS/Entity.h:34-44` | and owns no component if the run also adds to live ids only |
| `Entities.CreateAfterDestroy` | `rts/ECS/Entity.h:34-55` | creating hands a destroyed id out again at once and restores the free list |
| `Entities.WithoutLast` | `rts/ECS/Entity.h:50-53` | taking an id out keeps the order of the others |
| `Entities.DestroyingTwiceSharesId` | `rts/ECS/Entity.h:46-55` | from any state, destroying an id twice makes two creations return it |
| `Entities.ComponentsKnowTheirOwner` | `rts/ECS/Entity.h:63-71` | after any run every component names the entity it is stored under |
| `Entities.RemoveUndoesAdd` | `rts/ECS/Entity.h:63-79` | an added component is there, with its owner, until it is removed; no other component and no id is touched |
| `Entities.IndexReadsTheRun` | `rts/ECS/World.h:86-89` | after any run both tag maps list the tagging calls in their order |
| `Entities.HasTagExactlyWhenListed` | `rts/ECS/World.h:91-101` | an entity has a tag exactly when it is listed under it, which is exactly when some call tagged it so |
| `Entities.SpawnedStartsUntaggedExactly` | `rts/ECS/World.h:34-40` | a spawned entity starts without tags exactly if its id was never tagged |
| `Entities.RecycledKeepsTags` | `rts/ECS/World.h:34-40` | a destroyed and spawned id has its tags still and its components no more |
| `Entities.EntityManager.CreateEntity` | `rts/ECS/Entity.h:34-44` | the id is the newest free one or the next new one, and the fields change as specified |
| `Entities.EntityManager.DestroyEntity` | `rts/ECS/Entity.h:46-55` | the loop over the stores removes the entity's components from all, and the lists change as specified |
| `Entities.EntityManager.GetComponent` | `rts/ECS/Entity.h:81-89` | finds a component exactly if the store of its type has one for the entity |
| `Entities.World.TagEntity` | `rts/ECS/World.h:86-89` | appends to both directions of the index |
| `Entities.World.EntityHasTag` | `rts/ECS/World.h:97-101` | looks the tag up among those of the entity |

## Left out

- `KillFlags`: the server is taken to return every message, in order, and to do so while the AI's data stays; what it refuses is not part of this model.
- `DestroySkirmishAI`: where the team's index leaves the range the model stops.
- `ExecuteCommand`: the bytes that `FromRawCommand` leaves of the first of three parameters are not modelled, because the classifier does not look at them; what is read beyond a list that is too short is not modelled.
- `HandleCommand`: only the default branch for unit commands; the other command topics, cheats and Lua calls are thin calls into code that is not part of this model, and both sides are taken to use the same unit limit.
- `TruncExact`: ids and unit limits are exact as reals; a float holds them exactly below 2^24, and the conversion of floats outside the range of int is not modelled.
- `JobDispatcher.Update`: no frequency in the queue is negative, since it need not end otherwise. Times are reals, and a job that adds further jobs while it runs is not modelled; entries carry a number, by which equal jobs can be told apart.
- `ReleaseAll`, which erases from the map it walks: the drained state before it is proved instead, in `DrainLeavesNothing`.
- The interface member of an AI key is looked up by the key; unspecified keys are taken to be unknown, which the gathering of info files does not check.
- A foreign library that exports no handleEvent function, and foreign code that calls back into the engine while an event is handled: every call is one step.
- `GetSkirmishAIsInTeam`, the number and the map of AIs, local AIs in creation, timers, saving and loading: they would add easier members only.
- `CEngineOutHandler.Kill`: the callback locks that `PreDestroy` sets before the loop are not part of this model.
- `IntersectSphere`, `IntersectAABB` and `InView`: over the reals with exact inverse roots, so rounding at the borders is not modelled; the frustum is a function of the camera values it is updated from.
- `BoxCulledExactly`: it is not claimed that one of the 27 axes separates whenever the bodies are disjoint; the side planes of a perspective lens are not the faces of its corners' hull.
- `GetYardMap`: a facing outside 0 to 3 and a null map, which the source asserts against or returns on early; where the index leaves the range the model stops, as the assertion does.
- `CConsoleHistory`: deque iterators are positions in the log; iterator invalidation by `push_back` is not modelled.
- `Translate`: the regular expressions, archive extraction, module matching and path fix-up are parameters.
- `EntityManager.CreateEntity`: references that AddComponent returns into the stores, and systems of `World`, are not modelled.
- Rendering, camera control, networking, file packing, Lua, path finding and the simulation itself.
