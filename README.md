# FR-Ocean engine core, modelled in Dafny

This project models the bookkeeping core of the FR-Ocean 2D game engine, a
C++ engine whose game logic is written in Lua components. It covers these parts:

- **Scene scheduler and actor registry** (`SceneDB.cpp`). These modules hold
  the actor map, `actor_id_vec`, the pending add and destroy queues, the id
  counter, the three callback caches keyed by (actor id, component key) and
  the rigidbody initialisation queue.
  - `SceneModel` describes every operation as a function on a value snapshot.
  - `SceneLaws` proves these properties:
    - which entries each pass skips;
    - that `OnStart` runs at most once per component;
    - what destroy, instantiate, component removal and pending destruction do;
    - the order of the steps of `UpdateScene`;
    - the meaning of the lookups.
  - `Scenes.SceneDB` is the object itself. Each of its methods updates the
    fields in place and is proved to reach the snapshot the model gives.
- **Deferred draw queues** (`ImageDB.hpp`, module `ImageDraws`). Requests are
  drawn in ascending (sorting order, submission index), then the queue is
  cleared. Pixels are drawn after the images.
- **Input edge-state machine** (`Input.hpp`, module `Input`). It has four
  states per key and per mouse button: up, just pressed, held and just
  released.
- **Event bus** (`EventSystem.cpp`, module `Events`). Two maps are kept
  consistent, and once-subscriptions are swept after an emit.
- **Timer scheduler** (`Scheduler.cpp`, module `Scheduling`). Tasks use a
  delay, interval and repeat-count state machine, and cancellation is
  mark-and-sweep.
- **Tween bookkeeping and ease parsing** (`Tween.cpp`, module `Tweens`).
- **Collision-layer table** (`CollisionLayers.cpp`, module `CollisionLayers`).
  Layers get 16-bit category and mask bits, and layer pairs get symmetric
  keys.
- **Frame clock** (`Time.cpp`/`Time.hpp`, module `Time`).
- **Logger** (`Logger.cpp`, module `Logging`): level filtering, labels, file
  names and the line layout.
- **Command-line parser** (`main.cpp`, module `CommandLine`).
- **Exception messages** (`EngineException.hpp`, module `EngineExceptions`).

Two modules are shared by the others. `Wrappers` holds an `Option` type.
`StringOrder` holds `std::string`'s `<` together with a verified sort.

Lua is modelled as an environment the scene cannot see:
- the templates;
- a `script` oracle. For the n-th callback call of a run, it says whether the
  call raised and which scene operations it performed: destroy an actor, or
  instantiate a template.

Every callback invocation is appended to a trace, and the properties are
stated over that trace. The iteration order of an `unordered_map` is left
open: methods walk the keys in any order and return the order they used, and
model functions take it as a parameter. Float values are `real`.

A start callback that is put off because its component was added in the
current frame is not tried again later. In `SceneDB.cpp:224-236`,
`on_start_cache` is moved out and cleared before the loop, so the skipped
entry leaves the cache with nothing to bring it back. The start pass only
runs again once `onstart_new` is set again, by a scene load
(`SceneDB.cpp:144`) or an instantiation (`SceneDB.cpp:434`).
`SceneLaws.SuppressedStartDropped` proves that such an entry is neither
called nor kept in the cache.

## Model

| member | source | states |
|---|---|---|
| Time.Defaults | game_engine/Time.hpp:81-89 | before `Init` the clock is uninitialised, at frame 0, with delta one sixtieth and scale 1 |
| Time.InitState | game_engine/Time.cpp:11-19 | `Init` zeroes the frame counter and both totals, sets the delta to one sixtieth and the scale to 1, and marks the clock initialised |
| Time.Clamp | game_engine/Time.cpp:31 | `std::clamp` lands in [lo, hi], is the identity inside the range and the nearer bound outside it |
| Time.Step | game_engine/Time.cpp:21-38 | one `Update` leaves the clock initialised; on an initialised clock it keeps the scale, adds one frame, adds the new delta to the unscaled total and delta times scale to the scaled total |
| Time.Advance | game_engine/Time.cpp:33-37 | one frame of d seconds sets the delta to d, counts one frame, keeps the scale, moves the unscaled total by d and the scaled total by the scale times that |
| Time.StepDelta | game_engine/Time.cpp:31 | the delta after an update lies in [0.0001, 0.25], equals the elapsed time inside that range and is 0.25 above it |
| Time.StepConsistent | game_engine/Time.cpp:11-37 | the starting values and every update keep the delta inside the clamp bounds and the unscaled total between the frame count times 0.0001 and times 0.25 |
| Time.RunBounds | game_engine/Time.cpp:31-37 | over n updates of an initialised clock the frame counter grows by exactly n and the unscaled total grows by between n·0.0001 and n·0.25 |
| Time.RunKeepsScale | game_engine/Time.cpp:21-38 | updates keep the clock initialised and never change its time scale |
| Time.RunScaledTotal | game_engine/Time.cpp:34-35 | across any run the scaled total moves by exactly the scale times the unscaled total's movement |
| Time.ScaledStep | game_engine/Time.cpp:34-35 | one more update extends that relation |
| Time.RunPaused | game_engine/Time.cpp:35 | with scale 0 the scaled total stays constant over any run; with scale 1 it moves with the unscaled total |
| Time.FirstStepInitialises | game_engine/Time.cpp:22-24 | an update of a never-initialised clock equals an update right after `Init`: frame 1, scale 1, both totals equal to the delta |
| Time.Clock.constructor | game_engine/Time.hpp:81-89 | the fields start at the static initialisers, which satisfy the clock invariant |
| Time.Clock.Init | game_engine/Time.cpp:11-19 | the state becomes `InitState()`, which satisfies the clock invariant |
| Time.Clock.Update | game_engine/Time.cpp:21-38 | the state becomes `Step` of the old state and the elapsed time, and the clock invariant is kept |
| Time.Clock.SetTimeScale | game_engine/Time.hpp:54 | only the scale changes, and the clock invariant is kept |
| Time.Clock.GetDeltaTime | game_engine/Time.hpp:36 | the scaled delta is 0 while paused and the raw delta at scale 1 |
| Time.Clock.GetUnscaledDeltaTime | game_engine/Time.hpp:42 | the raw delta lies in [0.0001, 0.25] |
| Time.Clock.GetUnscaledTotalTime | game_engine/Time.hpp:66 | the unscaled total lies between the frame count times 0.0001 and times 0.25 |
| Time.Clock.GetFixedDeltaTime | game_engine/Time.hpp:72 | the physics step is one sixtieth of a second |
| Time.Clock.GetFrameCount | game_engine/Time.hpp:78 | the frame count is never negative |
| StringOrder.LessIrreflexive | game_engine/SceneDB.cpp:447 | no string sorts before itself under `std::string`'s `<` |
| StringOrder.LessAsymmetric | game_engine/SceneDB.cpp:447 | two strings are never below each other both ways |
| StringOrder.LessTransitive | game_engine/SceneDB.cpp:447 | the order is transitive |
| StringOrder.LessTotal | game_engine/CollisionLayers.cpp:88 | two strings are equal or ordered one way or the other |
| StringOrder.PrefixLess | game_engine/SceneDB.cpp:447 | a proper prefix sorts first |
| StringOrder.InsertSorted | game_engine/SceneDB.cpp:447 | inserting into a sorted list keeps it sorted and adds exactly one copy of the element |
| StringOrder.Sort | game_engine/SceneDB.cpp:447 | `std::sort` yields an ascending permutation of its input |
| CollisionLayers.ToBit | game_engine/CollisionLayers.cpp:69 | a checked index 0..15 converts to the bit position with the same value |
| CollisionLayers.ToBitOfIndex | game_engine/CollisionLayers.cpp:69 | converting a bit position back and forth is the identity |
| CollisionLayers.BitMask | game_engine/CollisionLayers.cpp:61 | `1 << j` has bit `j` set and no other |
| CollisionLayers.NoBitsInZero | game_engine/CollisionLayers.cpp:65 | the starting mask 0 has no bit set |
| CollisionLayers.OrBit | game_engine/CollisionLayers.cpp:69 | or-ing `1 << j` into the mask adds bit `j` and keeps every other bit |
| CollisionLayers.MakePairKey | game_engine/CollisionLayers.cpp:86-92 | the key is both names and a comma |
| CollisionLayers.PairKeySymmetric | game_engine/CollisionLayers.cpp:86-92 | a pair has the same key whichever way round it is named |
| CollisionLayers.PairKeysCanCoincide | game_engine/CollisionLayers.cpp:89-91 | since the comma is not escaped, the pairs ("a,b", "c") and ("a", "b,c") share a key |
| CollisionLayers.DefineLayerIn | game_engine/CollisionLayers.cpp:38-44 | an index outside 0..15 leaves the table unchanged; otherwise the name maps to the index and every other name keeps its entry |
| CollisionLayers.CollidingBitsStep | game_engine/CollisionLayers.cpp:67-71 | one more layer looked at adds its bit exactly when it collides with the queried layer |
| CollisionLayers.CollidingBitsMeaning | game_engine/CollisionLayers.cpp:64-74 | a bit is among the colliding bits exactly when some defined layer with that index collides |
| CollisionLayers.Layers.constructor | game_engine/CollisionLayers.hpp:75-79 | no layers and no pairs at the start |
| CollisionLayers.Layers.DefineLayer | game_engine/CollisionLayers.cpp:38-44 | the table becomes `DefineLayerIn` of the old one, so every index stays in 0..15; the pairs are untouched |
| CollisionLayers.Layers.SetLayerCollision | game_engine/CollisionLayers.cpp:46-54 | the pair's key is added when `collide` holds and removed otherwise; the layer table is untouched |
| CollisionLayers.Layers.CollideSymmetric | game_engine/CollisionLayers.cpp:81-92 | `DoLayersCollide(a, b) == DoLayersCollide(b, a)` |
| CollisionLayers.Layers.GetCategoryBits | game_engine/CollisionLayers.cpp:56-62 | an unknown layer gets 0x0001; a defined layer gets exactly the bit of its index |
| CollisionLayers.Layers.GetMaskBits | game_engine/CollisionLayers.cpp:64-74 | bit `i` of the mask is set iff some defined layer with index `i` collides with the queried layer, whatever order the map is walked in |
| CollisionLayers.Layers.Init | game_engine/CollisionLayers.cpp:11-36 | the table becomes exactly the eight default layers and the matrix exactly the ten default pairs |
| CollisionLayers.Layers.DefineDefaultLayers | game_engine/CollisionLayers.cpp:16-23 | the eight `DefineLayer` calls give the default layer table |
| CollisionLayers.Layers.SetDefaultCollisions | game_engine/CollisionLayers.cpp:26-35 | the ten `SetLayerCollision` calls give the default pair set |
| CollisionLayers.DefaultCollisions | game_engine/CollisionLayers.cpp:28-30 | after `Init` "player" collides with "wall" and "enemy", in either order |
| CollisionLayers.DefaultNoFriendlyFire | game_engine/CollisionLayers.cpp:26-35 | after `Init` "player" does not collide with "player_bullet", in either order |
| CommandLine.ExitCode | game_engine/main.cpp:55-77 | usage and version exit with 0, an unknown option with 1, and nothing else is possible |
| CommandLine.WithSeparator | game_engine/main.cpp:69-71 | a non-empty path ends in `/`, unchanged when it already did and with `/` appended otherwise; the empty path stays empty |
| CommandLine.ParseFrom | game_engine/main.cpp:52-78 | from index i on: an unknown option is one of the arguments read and is neither help, version nor `--debug`; usage and version exits are caused by a help or version argument; without `--resources` the engine starts with the path gathered so far |
| CommandLine.Parse | game_engine/main.cpp:47-78 | the program name is never read as an option: every unknown option, help or version comes from argv[1..]; without `--resources` the engine starts with "resources/" |
| CommandLine.ParseArguments | game_engine/main.cpp:47-78 | the outcome of the argument loop is `Parse(argv)`, the recursive reading of the same rules |
| CommandLine.StartPathEndsInSeparator | game_engine/main.cpp:66-72 | from any point of the loop, a path that is empty or ends in `/` stays so until the engine starts |
| CommandLine.ParsedPathEndsInSeparator | game_engine/main.cpp:49-72 | the engine always starts with a resources path that is empty or ends in `/` |
| CommandLine.EarlyExitIgnoresRest | game_engine/main.cpp:55-62 | once `--help`/`-h` or `--version`/`-v` is reached, appending more arguments changes nothing |
| CommandLine.DebugNeedsFlag | game_engine/main.cpp:50-65 | debug mode is on only if `--debug` appears |
| CommandLine.NoOptions | game_engine/main.cpp:49-50 | with no options the engine starts with "resources/" and debug off |
| CommandLine.ParseSplits | game_engine/main.cpp:52-78 | after a fully parsed prefix, parsing goes on from its end with the path and debug flag gathered over it, whatever follows |
| CommandLine.DebugStaysOn | game_engine/main.cpp:63-65 | once debug mode is on, every start that follows is in debug mode |
| CommandLine.DebugFlagTurnsOn | game_engine/main.cpp:63-65 | a `--debug` reached after any fully parsed prefix turns debug mode on for the engine, whatever follows |
| CommandLine.TrailingResourcesIsUnknown | game_engine/main.cpp:66-77 | after any fully parsed prefix, a trailing `--resources` with no value is an unknown option with exit status 1 |
| CommandLine.ResourcesOverrides | game_engine/main.cpp:66-72 | at a `--resources` with a value, the outcome no longer depends on the path chosen before, and parsing goes on after the value with it (slash added) |
| CommandLine.LaterResourcesWins | game_engine/main.cpp:63-72 | after any fully parsed prefix, `--resources p` makes the rest parse with `p` (slash added) and the prefix's debug flag, whatever paths the prefix chose |
| CommandLine.ResourcesAfter | game_engine/main.cpp:66-72 | a `--resources p` met at the end of a prefix sets the path to `p` with slash and moves two arguments on |
| CommandLine.LaterResourcesExample | game_engine/main.cpp:63-72 | `prog --resources a --debug --resources b` starts in debug mode with "b/" |
| EngineExceptions.FromMessage | game_engine/EngineException.hpp:24-128 | every one-argument constructor builds its class's prefix followed by exactly the caller's message, with empty resource fields |
| EngineExceptions.ResourceNotFoundException | game_engine/EngineException.hpp:53-65 | the message is "Resource not found: " + type + " '" + name + "'", and the getters return the type and the name |
| EngineExceptions.PrefixesDisjoint | game_engine/EngineException.hpp:41-128 | a message built by one subclass never starts with another subclass's prefix |
| EngineExceptions.MessageRoundTrip | game_engine/EngineException.hpp:41-128 | from the text a subclass builds, the class and the original message can be read back |
| EngineExceptions.ResourceMessage | game_engine/EngineException.hpp:53-57 | the two-argument form reads back as a missing resource whose message part is the type, a space and the quoted name |
| EngineExceptions.OnEngineError | game_engine/main.cpp:115-119 | an engine error that reaches `main` is logged as "Engine error: " followed by exactly its text, and `main` returns 1 |
| EngineExceptions.OnUnexpectedError | game_engine/main.cpp:120-124 | any other exception is logged as "Unexpected error: " followed by exactly its text, and `main` returns 1 |
| EngineExceptions.FatalLineReadsBack | game_engine/main.cpp:115-119 | from the fatal line of a subclass's exception the class and the caller's message read back, and the exit status is 1 |
| EngineExceptions.FatalLinesDiffer | game_engine/main.cpp:115-124 | the two handlers never write the same line, so an engine error is told apart from any other exception |
| Logging.LevelToString | game_engine/Logger.cpp:138-147 | every level's tag is exactly five characters |
| Logging.LevelToStringInjective | game_engine/Logger.cpp:138-147 | different levels get different tags |
| Logging.GetColorCode | game_engine/Logger.cpp:149-163 | every level's colour is a five-character ANSI escape `ESC [ n n m` |
| Logging.LastSeparator | game_engine/Logger.cpp:181 | `find_last_of("/\\")`: none means no `/` or `\` anywhere; otherwise a separator with none after it |
| Logging.ExtractFilename | game_engine/Logger.cpp:173-187 | a null path gives ""; otherwise the result is a suffix of the path with no separator in it, preceded by a separator when it is not the whole path |
| Logging.DecimalString | game_engine/Logger.cpp:58 | `std::to_string` of a line number is a non-empty string of digits without a leading zero |
| Logging.DecimalRoundTrip | game_engine/Logger.cpp:58 | the printed line number reads back as the number |
| Logging.Padded | game_engine/Logger.cpp:132-133 | a zero-filled field has at least the requested width and only digits |
| Logging.Timestamp | game_engine/Logger.cpp:118-136 | for in-range fields the timestamp is 23 characters with `-`, `-`, space, `:`, `:`, `.` at fixed places |
| Logging.DateLayout | game_engine/Logger.cpp:132 | `%Y-%m-%d` is ten characters with dashes at 4 and 7 |
| Logging.ClockLayout | game_engine/Logger.cpp:132 | `%H:%M:%S` is eight characters with colons at 2 and 5 |
| Logging.LessThanTenDigits | game_engine/Logger.cpp:132-133 | a number below 10^w needs at most w digits, and a four-digit year exactly four |
| Logging.Location | game_engine/Logger.cpp:56-59 | the location suffix is present exactly for a non-null file and a positive line, and then reads ` [` … `]` |
| Logging.Header | game_engine/Logger.cpp:62 | the `[TIMESTAMP] [LEVEL] ` header is eleven characters longer than the timestamp |
| Logging.FormatMessage | game_engine/Logger.cpp:61-62 | a formatted line splits back into the timestamp, the level tag and the message followed by the location, and its length is the sum of theirs plus eleven |
| Logging.HeaderLayout | game_engine/Logger.cpp:62 | the header holds the timestamp and the level tag at fixed offsets |
| Logging.FormatInjective | game_engine/Logger.cpp:62 | with no location, two messages or levels that differ give different lines |
| Logging.Logger.constructor | game_engine/Logger.hpp:103-107 | minimum level INFO, no file logging, colours on, not initialised |
| Logging.Logger.Init | game_engine/Logger.cpp:14-27 | a second `Init` changes nothing; a first one initialises and opens a non-empty path when the system allows, keeping file logging on exactly while a file is open |
| Logging.Logger.Shutdown | game_engine/Logger.cpp:29-42 | when initialised it closes the file and clears both flags; otherwise nothing changes |
| Logging.Logger.Log | game_engine/Logger.cpp:44-78 | nothing is written below the minimum level; otherwise the formatted line goes to stderr exactly from ERROR up, is wrapped in colour codes when colours are on, and is copied to the file exactly when file logging is on |
| Logging.Logger.SetMinLevel | game_engine/Logger.cpp:80-83 | the minimum level becomes the argument (so `GetMinLevel` returns it) and nothing else changes |
| Logging.Logger.EnableFileLogging | game_engine/Logger.cpp:90-101 | any open file is closed, the new path is open exactly when the system allows, and the result says whether file logging is on |
| Logging.Logger.DisableFileLogging | game_engine/Logger.cpp:103-111 | no file is open and file logging is off; the rest is unchanged |
| Logging.Logger.SetColoredOutput | game_engine/Logger.cpp:113-116 | only the colour flag changes |
| Events.ConsistentLookup | game_engine/EventSystem.cpp:61-81 | under the bus invariant, `subscription_to_event[id] == e` exactly when `id` is listed under `e` |
| Events.ClearedConsistent | game_engine/EventSystem.cpp:119-122 | the emptied bus satisfies the invariant and holds no subscription |
| Events.Subscribed | game_engine/EventSystem.cpp:54-64 | a subscription takes the counter's id, which is then listed under the event and mapped to it; the counter moves on; every other event's list and every other mapping is kept |
| Events.SubscribedConsistent | game_engine/EventSystem.cpp:54-64 | a subscription keeps the invariant, takes a fresh id, goes last in its event's list and leaves every other event's list unchanged |
| Events.SubscribedLookupListed | game_engine/EventSystem.cpp:61-62 | after subscribing, every mapped id is below the counter and listed under its event |
| Events.SubscribedListedMapped | game_engine/EventSystem.cpp:61-62 | after subscribing, every listed subscription is mapped to its event |
| Events.SubscribedIncreasing | game_engine/EventSystem.cpp:54-61 | ids still grow along each list, so lists keep subscription order |
| Events.RemoveId | game_engine/EventSystem.cpp:95-101 | the `remove_if` drops exactly the entries with the id and keeps ids increasing |
| Events.Unsubscribed | game_engine/EventSystem.cpp:86-105 | the id leaves the lookup map and its event's list; no other id enters or leaves the lookup map; every other event's list and the counter are kept |
| Events.UnsubscribedConsistent | game_engine/EventSystem.cpp:86-105 | `Unsubscribe` keeps the invariant and removes the id from both maps; an unknown id changes nothing; every other id stays mapped |
| Events.UnsubscribedLookupListed | game_engine/EventSystem.cpp:86-105 | after unsubscribing, every id left in the lookup map is still listed under its event |
| Events.UnsubscribedListedMapped | game_engine/EventSystem.cpp:95-104 | after unsubscribing, every listed subscription is still mapped, and lists stay in id order |
| Events.GoneIfUnmapped | game_engine/EventSystem.cpp:87-88 | under the invariant, an id missing from the lookup map is in no list |
| Events.UnsubscribedAll | game_engine/EventSystem.cpp:107-117 | the event's list is gone, every other event's list and the counter are kept, and no id is added to the lookup map |
| Events.UnsubscribedAllConsistent | game_engine/EventSystem.cpp:107-117 | `UnsubscribeAll` keeps the invariant, drops the event, and removes from the lookup map exactly the ids that pointed to it |
| Events.OnceIdsOf | game_engine/EventSystem.cpp:37-39 | `to_remove` holds an id exactly when the list has a once-subscription with that id |
| Events.UnsubscribedEach | game_engine/EventSystem.cpp:43-45 | after unsubscribing a list of ids, none of them is mapped, no id was added and the counter is kept |
| Events.UnsubscribedEachConsistent | game_engine/EventSystem.cpp:43-45 | unsubscribing a list of ids keeps the invariant, removes every one of them and no other id |
| Events.GoneStaysGone | game_engine/EventSystem.cpp:43-45 | an id already gone stays gone while others are unsubscribed |
| Events.OnceIdsCover | game_engine/EventSystem.cpp:37-39 | every once-subscription of the list has its id in `to_remove` |
| Events.Emitted | game_engine/EventSystem.cpp:17-46 | after an `Emit` whose callbacks do not touch the bus, no once-subscription of the event is mapped, no id was added and the counter is kept |
| Events.EmitDropsOnce | game_engine/EventSystem.cpp:17-46 | an `Emit` whose callbacks do not touch the bus is a no-op for an unknown event, removes every once-subscription of the event and keeps every other subscription |
| Events.UnsubscribedEachSnoc | game_engine/EventSystem.cpp:43-45 | unsubscribing one more id extends the run |
| Events.EventSystem.constructor | game_engine/EventSystem.hpp:83-85 | the bus starts empty with counter 1 and satisfies the invariant |
| Events.EventSystem.Init | game_engine/EventSystem.cpp:11-15 | both maps are emptied and the counter goes back to 1 |
| Events.EventSystem.Subscribe | game_engine/EventSystem.cpp:48-65 | a non-function is refused with id 0 and no change; otherwise the id is the old counter and the new state is `Subscribed(old, event, false)` |
| Events.EventSystem.SubscribeOnce | game_engine/EventSystem.cpp:67-84 | the same with a once-subscription, drawing from the same counter |
| Events.EventSystem.AddSubscription | game_engine/EventSystem.cpp:48-84 | the shared body of both subscribing calls, with the same contract |
| Events.EventSystem.Unsubscribe | game_engine/EventSystem.cpp:86-105 | the new state is `Unsubscribed(old, id)` and the invariant holds |
| Events.EventSystem.UnsubscribeAll | game_engine/EventSystem.cpp:107-117 | the erase loop and the event's removal give `UnsubscribedAll(old, event)` |
| Events.EventSystem.Clear | game_engine/EventSystem.cpp:119-122 | both maps are emptied and the counter is kept |
| Events.EventSystem.Apply | game_engine/EventSystem.cpp:30 | anything a callback does to the bus keeps the invariant |
| Events.EventSystem.Emit | game_engine/EventSystem.cpp:17-46 | the callbacks called are exactly the event's list when `Emit` began, in order, whatever the callbacks do; every once-subscription of that list is gone afterwards; an unknown event changes nothing; with quiet callbacks the state is `Emitted(old, event)` |
| Events.EventSystem.CallEach | game_engine/EventSystem.cpp:27-40 | the loop over the copy calls every subscription in order and collects exactly the once-ids |
| Events.EventSystem.React | game_engine/EventSystem.cpp:30 | a callback's operations keep the invariant |
| Events.EventSystem.UnsubscribeEach | game_engine/EventSystem.cpp:43-45 | the removal loop unsubscribes each collected id in turn and all of them are gone |
| Scheduling.FirstPass | game_engine/Scheduler.cpp:20-50 | the loop looks at every task once: one updated task per task, and at most one removal and one firing per task |
| Scheduling.FirstPassStep | game_engine/Scheduler.cpp:20-50 | one more task looked at extends the removal and firing lists by that task's verdicts |
| Scheduling.FirstPassUpdated | game_engine/Scheduler.cpp:20-50 | the loop leaves every task in place, each counted down and restarted where due |
| Scheduling.FirstPassRemoves | game_engine/Scheduler.cpp:21-48 | an id goes on the removal list exactly when its task is cancelled, or fires and does not repeat |
| Scheduling.FirstPassFires | game_engine/Scheduler.cpp:21-32 | a callback is called exactly for the live tasks whose delay after the decrement is at most 0; a cancelled task never fires |
| Scheduling.RemoveIdsMembers | game_engine/Scheduler.cpp:53-59 | the `remove_if` keeps exactly the tasks whose ids are not on the removal list |
| Scheduling.UpdateTasks | game_engine/Scheduler.cpp:17-60 | every task left after `Update` is an old task counted down (and restarted where due) that is neither cancelled nor finished, whatever the ids |
| Scheduling.UpdateTasksFromList | game_engine/Scheduler.cpp:20-59 | the same, stated of the removal applied to the first loop's result |
| Scheduling.Survivors | game_engine/Scheduler.cpp:17-60 | the direct statement of what `Update` keeps has no more tasks than before and no cancelled one |
| Scheduling.UpdateKeepsSurvivors | game_engine/Scheduler.cpp:17-60 | with distinct ids, `Update` keeps exactly the tasks that are neither cancelled nor finished, updated, in their old order |
| Scheduling.RemovePrefix | game_engine/Scheduler.cpp:53-59 | the `remove_if` over any prefix of the updated list gives the survivors of that prefix |
| Scheduling.SurvivorsFromList | game_engine/Scheduler.cpp:53-59 | every survivor is an old task after its frame that was not removed |
| Scheduling.SurvivorsIncreasing | game_engine/Scheduler.cpp:53-59 | the survivors keep increasing ids |
| Scheduling.CancelledRemoved | game_engine/Scheduler.cpp:21-24 | no cancelled task survives an `Update` |
| Scheduling.AfterTask | game_engine/Scheduler.cpp:70-76 | an `After` task has interval 0, repeat count 0 and is not cancelled |
| Scheduling.EveryTask | game_engine/Scheduler.cpp:91-97 | an `Every` task repeats for ever (-1) and is not cancelled |
| Scheduling.TaskStep | game_engine/Scheduler.cpp:26-48 | a task not yet due only counts down; a due task with an interval and repeats left restarts from the interval and uses one repeat (none for -1); a due task without them is removed |
| Scheduling.FiresAtMostRepeatsPlusOne | game_engine/Scheduler.cpp:39-48 | a task with n >= 0 repeats left fires at most n + 1 more times, so an `After` task fires at most once |
| Scheduling.EveryStaysScheduled | game_engine/Scheduler.cpp:39-44 | an uncancelled `Every` task with a positive interval is never removed by firing and keeps repeat count -1 |
| Scheduling.IndexOf | game_engine/Scheduler.cpp:105-110 | -1 when no task has the id; otherwise the index of the first task that has it |
| Scheduling.CancelIn | game_engine/Scheduler.cpp:104-111 | `Cancel` keeps the length and every id, and never clears a `cancelled` flag |
| Scheduling.CancelEffect | game_engine/Scheduler.cpp:104-111 | `Cancel` changes only the `cancelled` flag of the first task with the id; an unknown id changes nothing |
| Scheduling.CancelledTaskGone | game_engine/Scheduler.cpp:21-24 | a cancelled task does not fire in the next `Update` and is gone after it |
| Scheduling.CancelAllIn | game_engine/Scheduler.cpp:113-117 | every task is flagged and nothing else changes |
| Scheduling.Scheduler.constructor | game_engine/Scheduler.hpp:83-84 | no tasks and next id 1 |
| Scheduling.Scheduler.Init | game_engine/Scheduler.cpp:12-15 | the list is emptied and the next id is 1 |
| Scheduling.Scheduler.After | game_engine/Scheduler.cpp:62-81 | a non-function is refused with id 0 and no change; otherwise the next id is returned and its `After` task appended |
| Scheduling.Scheduler.Every | game_engine/Scheduler.cpp:83-102 | the same with an `Every` task |
| Scheduling.Scheduler.Update | game_engine/Scheduler.cpp:17-60 | the list becomes the survivors of the old one, ids stay increasing and below the counter, and the fired ids are those of `FirstPass` |
| Scheduling.Scheduler.CountDownAll | game_engine/Scheduler.cpp:20-50 | the loop gives `FirstPass`'s updated list, removal list and fired list |
| Scheduling.Scheduler.CountDownOne | game_engine/Scheduler.cpp:21-49 | one task's update, removal verdict and firing verdict |
| Scheduling.Scheduler.RemoveListed | game_engine/Scheduler.cpp:53-59 | the tasks whose ids are listed are dropped, the rest kept in order |
| Scheduling.Scheduler.Cancel | game_engine/Scheduler.cpp:104-111 | the list becomes `CancelIn(old, id)` |
| Scheduling.Scheduler.CancelAll | game_engine/Scheduler.cpp:113-117 | the list becomes `CancelAllIn(old)` |
| Scheduling.Scheduler.Clear | game_engine/Scheduler.cpp:119-121 | the list is emptied and the id counter kept |
| Tweens.ParseEaseType | game_engine/Tween.cpp:119-131 | a result other than `Linear` comes only from that curve's own name |
| Tweens.ParseEaseName | game_engine/Tween.cpp:120-129 | each of the ten names parses to its curve |
| Tweens.ParseUnknownName | game_engine/Tween.cpp:130 | any other name parses to `Linear` |
| Tweens.ApplyEasing | game_engine/Tween.cpp:133-158 | every polynomial curve maps 0 to 0 and 1 to 1 and keeps [0, 1] within [0, 1] |
| Tweens.CurvesInUnit | game_engine/Tween.cpp:136-158 | each of the polynomials of the curves stays within [0, 1] on its part of [0, 1] |
| Tweens.EaseOutMirrorsEaseIn | game_engine/Tween.cpp:136-158 | each ease-out curve is its ease-in curve turned about the centre of the unit square, and each ease-in-out curve is symmetric about that centre |
| Tweens.Finished | game_engine/Tween.cpp:32-48 | for every non-zero duration the division-free completion test is exactly `elapsed / duration >= 1`, the test `min(elapsed / duration, 1) >= 1` of the source |
| Tweens.QuotientReachesOne | game_engine/Tween.cpp:32 | for a positive duration the quotient reaches 1 exactly when the elapsed time reaches the duration, and for a negative one exactly when it falls to it |
| Tweens.Progress | game_engine/Tween.cpp:32 | for a positive duration the normalised time is at most 1, not negative for non-negative elapsed time, and is 1 exactly when the tween is finished |
| Tweens.FirstPass | game_engine/Tween.cpp:25-59 | the loop looks at every tween once: one updated tween per tween, at most one removal and at most two callbacks per tween |
| Tweens.FirstPassStep | game_engine/Tween.cpp:25-59 | one more tween looked at extends the removal list and the callbacks by that tween's share |
| Tweens.FirstPassUpdated | game_engine/Tween.cpp:25-31 | the loop keeps every tween in place and advances the ones not cancelled by `delta_time` |
| Tweens.FirstPassRemoves | game_engine/Tween.cpp:26-57 | an id goes on the removal list exactly when its tween is cancelled or finishes this frame |
| Tweens.RemoveIdsMembers | game_engine/Tween.cpp:62-68 | the `remove_if` keeps exactly the tweens whose ids are not on the removal list |
| Tweens.UpdateTweens | game_engine/Tween.cpp:22-69 | every tween left after `Update` is an old tween advanced by `delta_time` that is neither cancelled nor finished, whatever the ids |
| Tweens.UpdateTweensFromList | game_engine/Tween.cpp:25-68 | the same, stated of the removal applied to the first loop's result |
| Tweens.Survivors | game_engine/Tween.cpp:22-69 | the direct statement of what `Update` keeps has no more tweens than before and no cancelled one |
| Tweens.UpdateKeepsSurvivors | game_engine/Tween.cpp:22-69 | with distinct ids, `Update` keeps exactly the tweens neither cancelled nor finished, advanced and in order |
| Tweens.RemovePrefix | game_engine/Tween.cpp:62-68 | the `remove_if` over any prefix of the updated list gives the survivors of that prefix |
| Tweens.SurvivorsFromList | game_engine/Tween.cpp:62-68 | every survivor is an old tween advanced by `delta_time` that was not removed |
| Tweens.SurvivorsNotDone | game_engine/Tween.cpp:26-58 | no cancelled and no finished tween survives an `Update` |
| Tweens.SurvivorsIncreasing | game_engine/Tween.cpp:62-68 | the survivors keep increasing ids |
| Tweens.CompleteCalls | game_engine/Tween.cpp:48-58 | `on_complete` is called exactly for the tweens that are not cancelled, finish this frame and have the callback |
| Tweens.UpdateCalls | game_engine/Tween.cpp:26-41 | `on_update` is called exactly for the tweens not cancelled that have the callback, so a cancelled tween gets no callback |
| Tweens.NewTween | game_engine/Tween.cpp:78-93 | the appended tween has the given id, elapsed time 0, is not cancelled and has the parsed curve |
| Tweens.IndexOf | game_engine/Tween.cpp:101-106 | -1 when no tween has the id; otherwise the index of the first that has it |
| Tweens.CancelIn | game_engine/Tween.cpp:100-107 | `Cancel` keeps the length and every id, and never clears a `cancelled` flag |
| Tweens.CancelEffect | game_engine/Tween.cpp:100-107 | `Cancel` changes only the flag of the first tween with the id; an unknown id changes nothing |
| Tweens.CancelAllIn | game_engine/Tween.cpp:109-113 | every tween is flagged and nothing else changes |
| Tweens.CancelAllEmptiesNextUpdate | game_engine/Tween.cpp:26-29 | after `CancelAll` the next `Update` makes no callback and leaves no tween |
| Tweens.NoSurvivors | game_engine/Tween.cpp:26-29 | a list of cancelled tweens has no survivors |
| Tweens.NoCalls | game_engine/Tween.cpp:26-29 | a list of cancelled tweens gets no callback |
| Tweens.TweenSystem.constructor | game_engine/Tween.hpp:101-102 | no tweens and next id 1 |
| Tweens.TweenSystem.Init | game_engine/Tween.cpp:17-20 | the list is emptied and the next id is 1 |
| Tweens.TweenSystem.To | game_engine/Tween.cpp:71-98 | returns the counter's old value, bumps it, and appends the new tween |
| Tweens.TweenSystem.Update | game_engine/Tween.cpp:22-69 | the list becomes the survivors of the old one with ids still increasing and below the counter, and the callbacks are those of `FirstPass` |
| Tweens.TweenSystem.AdvanceAll | game_engine/Tween.cpp:25-59 | the loop gives `FirstPass`'s updated list, removal list and callbacks |
| Tweens.TweenSystem.AdvanceOne | game_engine/Tween.cpp:26-58 | one tween's update, removal verdict and callbacks |
| Tweens.TweenSystem.RemoveListed | game_engine/Tween.cpp:62-68 | the tweens whose ids are listed are dropped, the rest kept in order |
| Tweens.TweenSystem.Cancel | game_engine/Tween.cpp:100-107 | the list becomes `CancelIn(old, id)` |
| Tweens.TweenSystem.CancelAll | game_engine/Tween.cpp:109-113 | the list becomes `CancelAllIn(old)` |
| Tweens.TweenSystem.Clear | game_engine/Tween.cpp:115-117 | the list is emptied and the id counter is kept |
| Input.SettleAll | game_engine/Input.hpp:101-110 | `LateUpdate` neither adds nor drops a key |
| Input.Settle | game_engine/Input.hpp:101-108 | the transitions of the state table: settling ends both edges, keeps whether the key is held and leaves a steady state as it is, so it is idempotent |
| Input.LateUpdateQueries | game_engine/Input.hpp:101-118 | after `LateUpdate` no key reports `GetKeyDown` or `GetKeyUp`, and `GetKey` answers as before |
| Input.Processed | game_engine/Input.hpp:86-99 | the transition lists only grow, by at most one entry in all; only the event's own key or button can join a state map; an unhandled event changes nothing |
| Input.ProcessedEdges | game_engine/Input.hpp:86-99 | a press makes the key held and pressed this frame, a release makes it released and not held; no other key or button changes |
| Input.LastKeyEventDecides | game_engine/Input.hpp:86-99 | within a frame the last press or release of a key decides its state; with none it keeps its state |
| Input.InputSystem.constructor | game_engine/Input.hpp:217-239 | nothing pressed, empty transition lists, scroll 0 |
| Input.InputSystem.Init | game_engine/Input.hpp:67-72 | nothing changes |
| Input.InputSystem.BeginFrame | game_engine/Input.hpp:74-84 | the four transition lists and the scroll delta are cleared, the states kept |
| Input.InputSystem.ProcessEvent | game_engine/Input.hpp:86-99 | the state becomes `Processed(old, e)` |
| Input.InputSystem.LateUpdate | game_engine/Input.hpp:101-110 | both state maps are settled and nothing else changes |
| Input.InputSystem.GetKey | game_engine/Input.hpp:112-118 | held is DOWN or JUST_BECAME_DOWN |
| Input.InputSystem.GetKeyDown | game_engine/Input.hpp:120-126 | pressed is JUST_BECAME_DOWN, and a pressed key is held and not released |
| Input.InputSystem.GetKeyUp | game_engine/Input.hpp:128-134 | released is JUST_BECAME_UP, and a released key is not held |
| Input.InputSystem.GetMouseButton | game_engine/Input.hpp:169-175 | a button is held when DOWN or JUST_BECAME_DOWN |
| Input.InputSystem.GetMouseButtonDown | game_engine/Input.hpp:177-183 | pressed is JUST_BECAME_DOWN, and a pressed button is held and not released |
| Input.InputSystem.GetMouseButtonUp | game_engine/Input.hpp:185-191 | released is JUST_BECAME_UP, and a released button is not held |
| ImageDraws.Truncate | game_engine/ImageDB.hpp:136-140 | the float arguments stored in `int` fields are truncated toward zero: within 1 below a non-negative value and within 1 above a negative one |
| ImageDraws.InsertPosition | game_engine/ImageDB.hpp:85 | the place of a request in a list in draw order: everything before it does not draw after it, the entry at it does |
| ImageDraws.Insert | game_engine/ImageDB.hpp:85 | inserting a request submitted last keeps the list in draw order and adds exactly that request |
| ImageDraws.InsertKeepsOrder | game_engine/ImageDB.hpp:85 | splicing at the insert position keeps the draw order and adds one copy of the request |
| ImageDraws.BeforePosition | game_engine/ImageDB.hpp:46-48 | a request submitted last never ties, so every entry before its place draws before it |
| ImageDraws.AfterPosition | game_engine/ImageDB.hpp:85 | every entry from the insert position on draws after the inserted request |
| ImageDraws.SortForDrawing | game_engine/ImageDB.hpp:183-194 | the sorted queue is in ascending (sorting order, submission index) and is a permutation of the queue |
| ImageDraws.OrderedPositions | game_engine/ImageDB.hpp:85 | in a list in draw order the request that draws first sits earlier |
| ImageDraws.DrawOrderStable | game_engine/ImageDB.hpp:46-48 | a lower sorting order is drawn first, and among equal sorting orders the request submitted first is drawn first |
| ImageDraws.DefaultRequest | game_engine/ImageDB.hpp:108-117 | world space, rotation 0, scale 1:1, opaque white, sorting order 0, the given name, position and index |
| ImageDraws.ExRequest | game_engine/ImageDB.hpp:119-140 | a world-space request with the given name, position, scale and pivot, and the rotation, colour and sorting order truncated to `int` |
| ImageDraws.UiRequest | game_engine/ImageDB.hpp:142-151 | the default request moved to screen space |
| ImageDraws.UiExRequest | game_engine/ImageDB.hpp:153-167 | the screen-space request with the given colour and sorting order, truncated to `int` |
| ImageDraws.ExDefaultsAgree | game_engine/ImageDB.hpp:108-167 | the extended calls given rotation 0, scale 1, pivot 0.5, white and order 0 queue the same request as the plain calls |
| ImageDraws.AsImages | game_engine/ImageDB.hpp:183-194 | one drawn image per request, in order |
| ImageDraws.AsPixels | game_engine/ImageDB.hpp:196-201 | one drawn pixel per request, in order |
| ImageDraws.SortKeepsLength | game_engine/ImageDB.hpp:183-194 | sorting neither adds nor drops a request |
| ImageDraws.PixelsAfterImages | game_engine/Engine.cpp:91-98 | a frame draws every queued image once, in draw order, then every pixel in submission order on top |
| ImageDraws.ImageDB.constructor | game_engine/ImageDB.hpp:223-233 | both queues empty and both counters 0 |
| ImageDraws.ImageDB.Enqueue | game_engine/ImageDB.hpp:229-230 | the request is appended and the counter bumped; the pixel queue is untouched |
| ImageDraws.ImageDB.QueueImageDraw | game_engine/ImageDB.hpp:108-117 | appends the default request with the counter's value as its index and bumps the counter |
| ImageDraws.ImageDB.QueueImageDrawEx | game_engine/ImageDB.hpp:119-140 | appends a world-space request with the given fields, truncated where they are `int`, and bumps the counter |
| ImageDraws.ImageDB.QueueImageDrawUI | game_engine/ImageDB.hpp:142-151 | appends a screen-space request with the defaults and bumps the counter |
| ImageDraws.ImageDB.QueueImageDrawUIEx | game_engine/ImageDB.hpp:153-167 | appends a screen-space request with the given colour and sorting order and bumps the counter |
| ImageDraws.ImageDB.QueueDrawPixel | game_engine/ImageDB.hpp:169-181 | appends a pixel with truncated coordinates and colour and bumps the pixel counter; the image queue is untouched |
| ImageDraws.ImageDB.RenderAndClearAllImages | game_engine/ImageDB.hpp:183-194 | returns the queue sorted for drawing and empties it; the counters are kept, an assumption listed under Left out |
| ImageDraws.ImageDB.RenderAndClearAllPixels | game_engine/ImageDB.hpp:196-201 | returns the pixels in submission order and empties that queue; the counters are kept, an assumption listed under Left out |
| ImageDraws.ImageDB.Render | game_engine/Engine.cpp:91-98 | a frame's draws are the sorted images then the pixels, and both queues end empty |
| ImageDraws.ImageDB.ClearQueues | game_engine/ImageDB.hpp:203-208 | both queues emptied; the counters are kept, an assumption listed under Left out |
| SceneModel.AddToCaches | game_engine/SceneDB.cpp:356-381 | each of the three caches gains the entry exactly when the component belongs in it and is otherwise unchanged |
| SceneLaws.CacheRouting | game_engine/SceneDB.cpp:360-380 | a Rigidbody is registered only for update and late update, other userdata and a disabled table nowhere, an enabled table for start exactly when it has `OnStart` and has not started; other entries are untouched |
| SceneModel.RemoveFromCaches | game_engine/SceneDB.cpp:383-388 | the key leaves all three caches, and no other key's membership changes |
| SceneModel.DestroyKey | game_engine/SceneDB.cpp:450-467 | one component's destruction changes only the trace, which only grows, the heap contents and the caches |
| SceneModel.DestroyKeys | game_engine/SceneDB.cpp:449-468 | the same for the whole key loop |
| SceneModel.Destroyed | game_engine/SceneDB.cpp:439-469 | a missing actor leaves the scene as it is; an existing one is flagged destroyed and queued once more in `actors_to_destroy`; the actor set, the id list, the pending list and the id counter are kept and the trace only grows |
| SceneModel.StoreComponent | game_engine/SceneDB.cpp:415-416 | storing one component keeps the trace, the id counter, the id list and both queues, and the actor stays present |
| SceneModel.InstantiateKey | game_engine/SceneDB.cpp:415-431 | one template key's component changes neither the trace, the id counter, the id list nor the queues, and keeps the actor present |
| SceneModel.InstantiateKeys | game_engine/SceneDB.cpp:415-431 | the same for the whole key loop |
| SceneModel.FromTemplate | game_engine/SceneDB.cpp:412-431 | filling the new actor from its template records no event and keeps the id counter, the id list and the queues; the actor is present |
| SceneModel.Instantiated | game_engine/SceneDB.cpp:407-437 | the id counter always advances by one and the spent id names an actor; with the template the result is that id, which is appended to `actors_to_add` with `onstart_new` set; without it the result is none and the pending list is kept; the trace, the id list and the destroy queue are kept |
| SceneModel.ApplyAction | game_engine/SceneDB.cpp:407-469 | a script's destroy or instantiate call only extends the trace |
| SceneModel.ApplyActions | game_engine/SceneDB.cpp:407-469 | so does a sequence of them |
| SceneModel.Invoke | game_engine/SceneDB.cpp:238-243 | a callback call extends the trace, first by its own event with the step, callback, key, handle and the script's outcome |
| SceneModel.StartOne | game_engine/SceneDB.cpp:228-244 | the entry either changes nothing or passes every guard (cached, actor present and live, component enabled, not yet started, not added this frame) and records its `OnStart` call first, after which the component is marked started |
| SceneModel.StartKeys | game_engine/SceneDB.cpp:227-245 | the start loop only extends the trace |
| SceneModel.ProcessStart | game_engine/SceneDB.cpp:219-246 | an empty start cache leaves the scene as it is, and the trace only grows |
| SceneModel.UpdateOne | game_engine/SceneDB.cpp:259-282 | the entry either changes nothing or passes every guard (still cached, actor present and live, a script table, enabled, not added this frame) and records its `OnUpdate` call first |
| SceneModel.UpdateKeys | game_engine/SceneDB.cpp:258-283 | the update loop only extends the trace |
| SceneModel.ProcessUpdate | game_engine/SceneDB.cpp:248-284 | an empty update cache leaves the scene as it is, and the trace only grows |
| SceneModel.LateOne | game_engine/SceneDB.cpp:297-315 | the entry either changes nothing or passes every guard (still cached, actor present and live, enabled, not added this frame) and records its `OnLateUpdate` call first |
| SceneModel.LateKeys | game_engine/SceneDB.cpp:296-316 | the late-update loop only extends the trace |
| SceneModel.ProcessLateUpdate | game_engine/SceneDB.cpp:286-317 | an empty late-update cache leaves the scene as it is, and the trace only grows |
| SceneModel.InitPass | game_engine/SceneDB.cpp:176-204 | each queued entry is either kept or gives at most one `Init` call, so kept entries and calls together number at most the entries |
| SceneModel.ProcessRigidbodies | game_engine/SceneDB.cpp:175-204 | the rigidbody pass only extends the trace and never lengthens its queue |
| SceneModel.Without | game_engine/SceneDB.cpp:349 | erasing a key from the ordered key set keeps exactly the other keys, still strictly sorted |
| SceneModel.RemoveKey | game_engine/SceneDB.cpp:331-350 | one removal changes only the trace, which only grows, and the actors, whose set is kept |
| SceneModel.RemoveKeys | game_engine/SceneDB.cpp:331-351 | the same for one actor's whole removal list |
| SceneModel.RemoveForActor | game_engine/SceneDB.cpp:322-352 | one actor's removals change only the trace, which only grows, and the actors, whose set is kept; that actor's removal list ends empty |
| SceneModel.RemoveComponents | game_engine/SceneDB.cpp:320-354 | the removal pass changes only the trace, which only grows, and the actors, whose set is kept |
| SceneModel.PendingDestruction | game_engine/SceneDB.cpp:471-495 | an id names an actor afterwards exactly when it did and was not queued for destruction; the queue ends empty and the trace and pending list are kept |
| SceneModel.AppendPendingAsWritten | game_engine/SceneDB.cpp:211-214 | the loop as written is defined exactly when every pending actor still exists, and then appends all pending ids and clears the list |
| SceneModel.ExistingIds | game_engine/SceneDB.cpp:211-213 | the ids kept are no more than the ids given |
| SceneModel.AppendPending | game_engine/SceneDB.cpp:211-214 | the corrected append clears the pending list, keeps actors and trace, and extends the id list by at most the pending ids |
| SceneModel.FirstLive | game_engine/SceneDB.cpp:499-508 | a found id names an existing, live actor of that name |
| SceneModel.FirstNamed | game_engine/SceneDB.cpp:510-515 | a found id names an existing actor of that name |
| SceneModel.FindActor | game_engine/SceneDB.cpp:497-518 | a found id names an existing actor of that name, and a match of the first loop always wins |
| SceneModel.AllLive | game_engine/SceneDB.cpp:524-531 | a loop collects no more ids than it walks |
| SceneModel.FindAllActor | game_engine/SceneDB.cpp:520-540 | the result starts with the first loop's matches and has at most one entry per walked id |
| SceneModel.StartIfNew | game_engine/SceneDB.cpp:169-172 | without `onstart_new` nothing changes, and the trace only grows |
| SceneModel.Cleanup | game_engine/SceneDB.cpp:208-214 | the end of the frame empties both queues, only extends the trace and adds no actor |
| SceneModel.Frame | game_engine/SceneDB.cpp:168-214 | a frame empties both queues and only extends the trace |
| Scenes.Enumerate | game_engine/SceneDB.cpp:254-256 | the key snapshot lists every key of the map exactly once |
| Scenes.Compact | game_engine/SceneDB.cpp:486-492 | the read/write-index loop leaves the ids not destroyed, in order |
| Scenes.InitQueue | game_engine/SceneDB.cpp:176-204 | the iterator-erase loop gives the kept entries and the `Rigidbody::Init` calls of the rigidbody pass |
| Scenes.SceneDB.AddComponentToCaches | game_engine/SceneDB.cpp:356-381 | the caches become `AddToCaches` of the old ones; nothing else changes |
| Scenes.SceneDB.RemoveComponentFromCaches | game_engine/SceneDB.cpp:383-388 | the caches become `RemoveFromCaches` of the old ones |
| Scenes.SceneDB.CallOnDestroy | game_engine/SceneDB.cpp:453-463 | the scene becomes the model's destroy-callback step |
| Scenes.SceneDB.DestroyComponent | game_engine/SceneDB.cpp:450-467 | the scene becomes `DestroyKey` of the old one |
| Scenes.SceneDB.DestroyComponents | game_engine/SceneDB.cpp:449-468 | the key loop gives `DestroyKeys` |
| Scenes.SceneDB.DestroyActor | game_engine/SceneDB.cpp:439-469 | the scene becomes `Destroyed` of the old one, whose effect `DestroyedEffect` states, and the invariant of `SceneDB` is kept |
| Scenes.SceneDB.InstantiateComponent | game_engine/SceneDB.cpp:415-431 | the scene becomes `InstantiateKey` of the old one |
| Scenes.SceneDB.FillFromTemplate | game_engine/SceneDB.cpp:412-431 | the scene becomes `FromTemplate` of the old one |
| Scenes.SceneDB.InstantiateActor | game_engine/SceneDB.cpp:407-437 | scene and result are `Instantiated`, whose effect `InstantiatedEffect` states, and the invariant of `SceneDB` is kept |
| Scenes.SceneDB.React | game_engine/SceneDB.cpp:407-469 | a script's destroy or instantiate call gives `ApplyAction` |
| Scenes.SceneDB.ReactAll | game_engine/SceneDB.cpp:407-469 | a script's calls in order give `ApplyActions` |
| Scenes.SceneDB.RunCallback | game_engine/SceneDB.cpp:238-243 | a callback call, its error caught, gives `Invoke` |
| Scenes.SceneDB.StartComponent | game_engine/SceneDB.cpp:228-244 | one start entry gives `StartOne` |
| Scenes.SceneDB.ProcessSceneOnStart | game_engine/SceneDB.cpp:219-246 | the keys walked are exactly the old start cache's, and the scene becomes `ProcessStart` over them |
| Scenes.SceneDB.UpdateComponent | game_engine/SceneDB.cpp:259-282 | one update entry gives `UpdateOne` |
| Scenes.SceneDB.ProcessSceneUpdate | game_engine/SceneDB.cpp:248-284 | the snapshot is exactly the old update cache's keys, and the scene becomes `ProcessUpdate` over it |
| Scenes.SceneDB.LateUpdateComponent | game_engine/SceneDB.cpp:297-315 | one late-update entry gives `LateOne` |
| Scenes.SceneDB.ProcessSceneLateUpdate | game_engine/SceneDB.cpp:286-317 | the snapshot is exactly the old late-update cache's keys, and the scene becomes `ProcessLateUpdate` over it |
| Scenes.SceneDB.InitRigidbodies | game_engine/SceneDB.cpp:175-204 | the scene becomes `ProcessRigidbodies` of the old one |
| Scenes.SceneDB.RemoveComponent | game_engine/SceneDB.cpp:331-350 | one removal gives `RemoveKey` |
| Scenes.SceneDB.RemoveComponentKeys | game_engine/SceneDB.cpp:331-351 | the removal loop gives `RemoveKeys` |
| Scenes.SceneDB.RemoveComponentsOf | game_engine/SceneDB.cpp:322-352 | one actor's removals give `RemoveForActor` |
| Scenes.SceneDB.RemoveActorComponents | game_engine/SceneDB.cpp:320-354 | the actors walked are exactly the old actor map's, and the scene becomes `RemoveComponents` over them |
| Scenes.SceneDB.ActorsPendingDestruction | game_engine/SceneDB.cpp:471-495 | the scene becomes `PendingDestruction` of the old one |
| Scenes.SceneDB.AppendNewActors | game_engine/SceneDB.cpp:211-214 | the scene becomes the corrected `AppendPending` of the old one |
| Scenes.SceneDB.UpdateScene | game_engine/SceneDB.cpp:168-214 | the scene becomes `Frame` of the old one over the orders walked, the invariant (fresh handles and ids, `OnStart` once, listed ids naming actors) is kept and both queues end empty |
| Scenes.SceneDB.FindActor | game_engine/SceneDB.cpp:497-518 | the two loops return `FindActor` of the scene, whose meaning `FindSpec` states |
| Scenes.SceneDB.FindAllActor | game_engine/SceneDB.cpp:520-540 | the two loops return `FindAllActor` of the scene |
| SceneLaws.EvolvesTrans | game_engine/SceneDB.cpp:407-469 | the changes instantiations and destroys make to a scene compose: kept actors, kept components, one-way flags |
| SceneLaws.NewEventsTrans | game_engine/SceneDB.cpp:238-243 | callbacks of one step and their destroy callbacks compose |
| SceneLaws.ReactsTrans | game_engine/SceneDB.cpp:238-243 | what a script's actions may do to a scene composes |
| SceneLaws.AppendReacts | game_engine/SceneDB.cpp:453-463 | recording destroy callbacks of a step is a change a script may make |
| SceneLaws.DisableReacts | game_engine/SceneDB.cpp:465 | disabling a component is a change a script may make |
| SceneLaws.RemoveFromCachesReacts | game_engine/SceneDB.cpp:383-388 | dropping a component's cache entries is a change a script may make |
| SceneLaws.CallOnDestroyReacts | game_engine/SceneDB.cpp:453-463 | an `OnDestroy` or `Rigidbody::OnDestroy` call changes only the trace |
| SceneLaws.DestroyKeyReacts | game_engine/SceneDB.cpp:449-467 | destroying one component keeps the actors, the id counter and the destroy queue |
| SceneLaws.DestroyKeysReacts | game_engine/SceneDB.cpp:449-468 | the same for the whole key loop of `DestroyActor` |
| SceneLaws.DestroyedReacts | game_engine/SceneDB.cpp:439-469 | `DestroyActor` called from a script is a change a script may make |
| SceneLaws.StoreComponentGrows | game_engine/SceneDB.cpp:415-416 | storing a component under a fresh handle keeps every other actor and component and spends one handle |
| SceneLaws.ActorChangeGrows | game_engine/SceneDB.cpp:440 | replacing an actor by one destroyed when it was keeps the scene's invariants |
| SceneLaws.ReactsValid | game_engine/SceneDB.cpp:407-469 | any change a script may make keeps the invariant of `SceneDB`: fresh handles and ids, `OnStart` once, listed ids naming actors |
| SceneLaws.DestroyedValid | game_engine/SceneDB.cpp:439-469 | `DestroyActor` keeps that invariant |
| SceneLaws.CachesAddGrows | game_engine/SceneDB.cpp:356-381 | registering the caches of a new actor touches no entry of an older actor |
| SceneLaws.InstantiateKeyGrow | game_engine/SceneDB.cpp:415-431 | creating one component of a new actor touches nothing below it, nor the trace, the queues or the id list |
| SceneLaws.InstantiateKeysGrow | game_engine/SceneDB.cpp:415-431 | the same for the whole component loop of `InstantiateActor` |
| SceneLaws.ReservedGrows | game_engine/SceneDB.cpp:408-410 | spending the next id adds a new actor and touches nothing older |
| SceneLaws.FromTemplateGrows | game_engine/SceneDB.cpp:412-431 | filling the new actor from its template touches nothing older and adds no event |
| SceneLaws.InstantiatedReacts | game_engine/SceneDB.cpp:407-437 | `InstantiateActor` called from a script is a change a script may make |
| SceneLaws.InstantiatedValid | game_engine/SceneDB.cpp:407-437 | `InstantiateActor` keeps that invariant, with or without the template |
| SceneLaws.ApplyActionReacts | game_engine/SceneDB.cpp:407-469 | one destroy or instantiate by a script is such a change |
| SceneLaws.ApplyActionsReacts | game_engine/SceneDB.cpp:407-469 | so is any sequence of them |
| SceneLaws.InvokeReacts | game_engine/SceneDB.cpp:238-243 | a callback call records its own event first, then only destroy callbacks, and keeps the scene's invariants |
| SceneLaws.RunsTrans | game_engine/SceneDB.cpp:258-283 | what a pass of one callback may do composes over its entries |
| SceneLaws.UpdateOneRuns | game_engine/SceneDB.cpp:259-282 | one update entry only records `OnUpdate` calls and their effects |
| SceneLaws.UpdateKeysRuns | game_engine/SceneDB.cpp:258-283 | the same for the whole update pass |
| SceneLaws.LateOneRuns | game_engine/SceneDB.cpp:297-315 | one late-update entry only records `OnLateUpdate` calls and their effects |
| SceneLaws.LateKeysRuns | game_engine/SceneDB.cpp:296-316 | the same for the whole late-update pass |
| SceneLaws.StartOneRuns | game_engine/SceneDB.cpp:228-244 | one start entry only records `OnStart` calls and their effects |
| SceneLaws.StartKeysRuns | game_engine/SceneDB.cpp:227-245 | the same for the whole start pass |
| SceneLaws.LiveStays | game_engine/SceneDB.cpp:440 | an actor that is live later was live before: destroyed actors stay destroyed |
| SceneLaws.UpdateBlockedStays | game_engine/SceneDB.cpp:259-275 | an update entry barred from running stays barred while the pass runs |
| SceneLaws.LateBlockedStays | game_engine/SceneDB.cpp:297-308 | a late-update entry barred from running stays barred |
| SceneLaws.StartBlockedStays | game_engine/SceneDB.cpp:228-236 | a start entry barred from running stays barred |
| SceneLaws.NotCalledTrans | game_engine/SceneDB.cpp:258-283 | "no call of this entry" composes |
| SceneLaws.InvokeOther | game_engine/SceneDB.cpp:277-282 | calling one entry adds no call of another entry |
| SceneLaws.UpdateSkips | game_engine/SceneDB.cpp:259-275 | the update pass never calls an entry without a cache entry, with a missing or destroyed actor, or whose component is userdata, disabled or added this frame |
| SceneLaws.LateSkips | game_engine/SceneDB.cpp:297-308 | the late-update pass never calls an entry barred by its guards |
| SceneLaws.StartSkips | game_engine/SceneDB.cpp:228-236 | the start pass never calls an entry barred by its guards |
| SceneLaws.UpdateKeysSplit | game_engine/SceneDB.cpp:258 | the update pass over a key snapshot runs its parts one after the other |
| SceneLaws.ErasedNotUpdated | game_engine/SceneDB.cpp:259-260 | an update entry erased by an earlier callback of the same pass is not called afterwards |
| SceneLaws.LateKeysSplit | game_engine/SceneDB.cpp:296 | the late-update pass over a key snapshot runs its parts one after the other |
| SceneLaws.ErasedNotLateUpdated | game_engine/SceneDB.cpp:296-308 | a late-update entry erased by an earlier callback of the same pass is not called afterwards, since each snapshot key is looked up again |
| SceneLaws.SuppressedStartDropped | game_engine/SceneDB.cpp:224-236 | a start entry skipped because its component was added this frame is neither called nor kept in the cache |
| SceneLaws.StartedOnceKept | game_engine/SceneDB.cpp:244 | a pass that makes no `OnStart` call keeps "every `OnStart` call once, of a started component" |
| SceneLaws.StartOneOnce | game_engine/SceneDB.cpp:234-244 | one start entry keeps that invariant: the `on_start` guard and the flag set after the call |
| SceneLaws.StartKeysOnce | game_engine/SceneDB.cpp:227-245 | the whole start pass calls no component's `OnStart` twice |
| SceneLaws.CallOnDestroyShape | game_engine/SceneDB.cpp:453-463 | at most one destroy callback is recorded, of the given step and component |
| SceneLaws.DestroyKeyEffect | game_engine/SceneDB.cpp:450-467 | an existing component leaves the three caches and is disabled; at most one destroy callback of that key is recorded |
| SceneLaws.DestroyKeysFrame | game_engine/SceneDB.cpp:449-468 | every listed component of the actor ends purged; actors, queue and heap are kept |
| SceneLaws.DestroyKeysAbout | game_engine/SceneDB.cpp:449-468 | the events recorded are destroy callbacks of the listed keys |
| SceneLaws.DestroyKeysAscending | game_engine/SceneDB.cpp:447-449 | over a sorted key list the destroy callbacks come in ascending key order |
| SceneLaws.DestroyedEffect | game_engine/SceneDB.cpp:439-469 | the actor is flagged and queued, each of its components is purged, and its destroy callbacks come in ascending key order |
| SceneLaws.RemoveKeyFrame | game_engine/SceneDB.cpp:331-350 | one removal drops the key from `components` and `component_keys` and changes nothing but the trace |
| SceneLaws.RemoveKeyEvent | game_engine/SceneDB.cpp:332-347 | one removal records at most one destroy callback, of that key, in the removal step |
| SceneLaws.RemoveKeysFrame | game_engine/SceneDB.cpp:331-351 | the removal loop drops exactly the listed keys from the actor and touches no other actor |
| SceneLaws.RemoveKeysAbout | game_engine/SceneDB.cpp:331-351 | its events are destroy callbacks of the listed keys |
| SceneLaws.SortedSameElements | game_engine/SceneDB.cpp:326 | sorting the removal list keeps its keys |
| SceneLaws.RemoveForActorFrame | game_engine/SceneDB.cpp:322-352 | one actor's removal list leaves its components and key set and is cleared; caches, heap and other actors are kept |
| SceneLaws.RemoveForActorAbout | game_engine/SceneDB.cpp:322-352 | its events are destroy callbacks of keys on the removal list |
| SceneLaws.InitPassSpec | game_engine/SceneDB.cpp:176-204 | the rigidbody pass keeps only entries queued this frame and still new, with `isNew` cleared, and calls `Rigidbody::Init` only for an existing Rigidbody component |
| SceneLaws.InitPassDefersOnce | game_engine/SceneDB.cpp:178-182 | an entry is put off at most once: a second pass keeps nothing |
| SceneLaws.NotNewErased | game_engine/SceneDB.cpp:178-203 | entries no longer new are all erased |
| SceneLaws.FilterOutMembers | game_engine/SceneDB.cpp:486-492 | the compaction keeps exactly the ids not destroyed |
| SceneLaws.FilterOutAppend | game_engine/SceneDB.cpp:486-492 | the compaction keeps the survivors in order |
| SceneLaws.FilterOutNone | game_engine/SceneDB.cpp:486-492 | with nothing destroyed it keeps the list as it is |
| SceneLaws.PendingDestructionSpec | game_engine/SceneDB.cpp:471-495 | queued actors leave `actors` and `actor_id_vec`, every other actor and id stays in order, and the queue is emptied |
| SceneLaws.FreedPendingActorRead | game_engine/SceneDB.cpp:209-213 | an actor instantiated and destroyed in one frame is read by the append loop after it was freed |
| SceneLaws.AppendPendingSpec | game_engine/SceneDB.cpp:211-214 | the corrected append lists exactly the pending actors that still exist, in order, and agrees with the code whenever the code reads no freed actor |
| SceneLaws.ExistingIdsMembers | game_engine/SceneDB.cpp:211-213 | the ids kept are those of existing actors |
| SceneLaws.ExistingIdsAll | game_engine/SceneDB.cpp:211-213 | when all pending actors exist, all are appended |
| SceneLaws.FirstLiveSpec | game_engine/SceneDB.cpp:499-508 | `FindActor`'s first loop finds a listed, existing, not destroyed actor of that name, and finds none only when there is none |
| SceneLaws.FirstLiveIsFirst | game_engine/SceneDB.cpp:499-508 | it returns the earliest such actor |
| SceneLaws.FirstNamedSpec | game_engine/SceneDB.cpp:510-515 | the second loop finds a pending actor of that name, destroyed or not, and none only when there is none |
| SceneLaws.AllLiveAppend | game_engine/SceneDB.cpp:524-537 | `FindAllActor` lists the first list's matches, then the second's |
| SceneLaws.AllLiveSpec | game_engine/SceneDB.cpp:524-531 | a loop of `FindAllActor` collects exactly the live actors of that name, the first being `FindActor`'s |
| SceneLaws.FindSpec | game_engine/SceneDB.cpp:497-540 | `FindActor` returns an existing actor of that name, live from `actor_id_vec` or pending; it finds one whenever `FindAllActor` does, and the first `FindAllActor` lists when `actor_id_vec` has a live match |
| SceneLaws.InstantiateKeyInstalls | game_engine/SceneDB.cpp:415-431 | the component is stored stamped with the frame and registered in its caches; earlier installed components stay installed |
| SceneLaws.InstantiateKeysEffect | game_engine/SceneDB.cpp:415-431 | every template key with an entry becomes an installed component and no other actor changes |
| SceneLaws.InstantiateKeysActors | game_engine/SceneDB.cpp:415-431 | only the new actor's component map changes, by exactly the template keys with an entry |
| SceneLaws.InstantiateKeysInstall | game_engine/SceneDB.cpp:415-431 | every template key with an entry ends up an installed component |
| SceneLaws.InstalledKept | game_engine/SceneDB.cpp:415-431 | installation depends only on actors, heap, caches and frame |
| SceneLaws.InstantiatedEffect | game_engine/SceneDB.cpp:407-437 | the fresh id names a new actor with the template's name and keys, its script components count as added this frame, it waits in `actors_to_add` and `onstart_new` is set; with no template the id is spent and an empty actor is left |
| SceneLaws.PhaseAppend | game_engine/SceneDB.cpp:168-217 | events of a later step extend a trace in step order |
| SceneLaws.RunsOfStep | game_engine/SceneDB.cpp:168-217 | a pass records events of its own step only |
| SceneLaws.RemoveComponentsEffect | game_engine/SceneDB.cpp:320-354 | every actor visited ends with an empty removal list, the others are untouched, and only destroy callbacks of the removal step are recorded |
| SceneLaws.RunsAdvance | game_engine/SceneDB.cpp:206-207 | an update or late-update pass keeps the id list and every actor |
| SceneLaws.StartPhase | game_engine/SceneDB.cpp:169-172 | the guarded start pass keeps the id list, records start events only and keeps `OnStart` once per component |
| SceneLaws.RigidbodyPhase | game_engine/SceneDB.cpp:175-204 | the rigidbody pass records rigidbody events only |
| SceneLaws.UpdatePhase | game_engine/SceneDB.cpp:206 | the update pass records update events only and keeps the invariants |
| SceneLaws.LatePhase | game_engine/SceneDB.cpp:207 | the late-update pass records late-update events only and keeps the invariants |
| SceneLaws.RemovalPhase | game_engine/SceneDB.cpp:208 | the removal pass records removal events only and keeps the id list, the actor set and the queues |
| SceneLaws.FinishPhase | game_engine/SceneDB.cpp:209-214 | destruction and the corrected append record nothing, empty both queues and keep every listed id naming an actor |
| SceneLaws.CleanupPhase | game_engine/SceneDB.cpp:208-214 | the end of the frame records removal events only and empties both queues |
| SceneLaws.AdvancesListed | game_engine/SceneDB.cpp:169-207 | a step that keeps every actor keeps every listed id naming an actor |
| SceneLaws.AdvanceAppend | game_engine/SceneDB.cpp:169-207 | one more step that advances the scene extends the step-ordered events and keeps the invariants |
| SceneLaws.EarlyPhases | game_engine/SceneDB.cpp:169-204 | the start and rigidbody steps record their events in step order and keep the invariants |
| SceneLaws.UpdateAppend | game_engine/SceneDB.cpp:206 | the update step extends events ordered up to the rigidbody step and keeps the invariants |
| SceneLaws.LateAppend | game_engine/SceneDB.cpp:207 | the late-update step extends events ordered up to the update step and keeps the invariants |
| SceneLaws.CallbackPhases | game_engine/SceneDB.cpp:206-207 | the update and late-update steps after the rigidbody step keep the events in step order and the invariants |
| SceneLaws.FrontPhases | game_engine/SceneDB.cpp:169-207 | the first four steps record events in step order |
| SceneLaws.FrameSpec | game_engine/SceneDB.cpp:168-214 | a frame's events come in the order of the steps of `UpdateScene`, both queues end empty, listed ids keep naming actors and `OnStart` stays once per component |

## Left out

- Lua and LuaBridge internals: a callback is an abstract event with a possible caught error, and only destroy and instantiate are modelled among the scene calls a script can make. What an `OnDestroy` callback itself does to the scene is not modelled.
- Box2D: `Rigidbody::Init`, `Rigidbody::OnDestroy` and `RigidbodyWorld::UpdateWorld` (the last step of `UpdateScene`) are trace events or are left out; fixtures and the contact listener are not modelled.
- Scene and template file loading and JSON parsing (`loadScene`, `loadTemplate`, `rebuildComponentCaches`, `clearLuaRefs`, `Load`, `DontDestroy`, `ReportError`): a template is a value in the environment.
- SceneDB.hpp is not part of this model, so the member initialisers of `SceneDB` are not modelled; the class's constructor starts from an empty scene.
- Actors are values in a map keyed by id, not `Actor*` pointers. Aliasing through pointers is therefore not modelled, and a freed actor is modelled by its id missing from the map.
- A repeated `DestroyActor` on an actor already destroyed calls its destroy callbacks again, as the code does. Components removed by `RemoveActorComponents` keep any cache entries they had, as the code does.
- `ImageDB.cpp` and `Input.cpp` are not part of this model: only the contracts documented in `ImageDB.hpp` and `Input.hpp` are modelled. Texture loading, the camera transform and the SDL copy are out, so rendering returns the requests in the order they are drawn.
- SceneModel.Instantiated: a missing template yields `None` and the frame goes on. In the code `loadTemplate` throws `ResourceNotFoundException` (`SceneDB.cpp:150-153`) after the id is spent and the empty actor stored (`SceneDB.cpp:408-409`). The scene's handlers catch only `luabridge::LuaException`, so the exception is not caught in the scene and reaches `main`, which logs it and returns 1 (`main.cpp:115-119`, modelled by `EngineExceptions.OnEngineError`). That abort is not modelled.
- Scenes.SceneDB.InstantiateActor: the same; the method returns `None` where the code throws and the engine stops.
- ImageDraws.ImageDB.RenderAndClearAllImages: promises that both submission counters are kept. `ImageDB.hpp` documents only that the queue is sorted, drawn and cleared, and `ImageDB.cpp` is not part of this model, so keeping the counters is an assumption.
- ImageDraws.ImageDB.RenderAndClearAllPixels: promises that both counters are kept, an assumption for the same reason.
- ImageDraws.ImageDB.ClearQueues: promises that both counters are kept, an assumption for the same reason (`ImageDB.hpp:203-208` documents only that the queues are cleared).
- `TextDB`, `AudioDB`, `Renderer`, `ConfigManager` and `EngineUtils`: SDL and file I/O wrappers.
- The `Engine.cpp` frame loop and SDL event polling. Only the order in which images, then pixels, are drawn is taken from it.
- Floating point: reals replace `float`, with no IEEE rounding. The sine easings and the interpolated tween values are not modelled.
- Tweens.ApplyEasing: requires a polynomial curve, because the sine curves need trigonometry.
- Logger: the mutex, the bytes written to the streams and the file, and the wall clock (the timestamp fields are parameters); file opening success is a parameter.
- `CollisionLayers::ApplyToFixture`: a Box2D call.
- Time.Clock.GetTimeScale, Time.Clock.GetTotalTime and Input.InputSystem.GetMouseScrollDelta: plain reads of one field, with no contract of their own. The scale read is the one `SetTimeScale` stored, and the scaled total is tied to the unscaled one by `Time.RunScaledTotal`.
- Time.Clock.GetDeltaTime: states the result only for scale 0 and scale 1, because the product of two reals is left to its body.
- Scheduling.Scheduler.Update: assumes that no timer callback calls `Timer.After`, `Timer.Every`, `Timer.Cancel`, `Timer.CancelAll` or `Timer.Clear` while the pass runs; the new list is stated only for callbacks that leave the scheduler alone. The code runs the callbacks inside `for (auto& task : tasks)` (`Scheduler.cpp:20-50`). There, a `push_back` that reallocates the vector leaves `task` dangling for `Scheduler.cpp:39-47`, a `Clear` empties the vector under the loop, and an `Every` task that cancels itself keeps its flag until the next `Update`. None of these is modelled, and vector capacity is not modelled either.
- Tweens.TweenSystem.Update: makes the same assumption for `on_update` and `on_complete` callbacks that call `Tween.To`, `Tween.Cancel`, `Tween.CancelAll` or `Tween.Clear`. These run inside `for (auto& tween : tweens)` (`Tween.cpp:25-59`), where a reallocating `push_back` leaves `tween` dangling for `Tween.cpp:48-57`.
- Counters: C++ `int` counters become unbounded integers. These are `next_task_id`, `next_tween_id` and `next_subscription_id`, plus `frame_count` in `Time` and `id_ctr` in `SceneDB`. Signed overflow is undefined behaviour in C++, and the model assumes the counters never exhaust `int`. Fresh, increasing ids (`Scenes.SceneDB.Valid`, `Scheduling.SurvivorsIncreasing`, `Tweens.SurvivorsIncreasing`, the event bus counter) and a non-negative `Time.Clock.GetFrameCount` hold under that assumption.
- Events.EventSystem.Emit: states the final state exactly only when no callback changes subscriptions; otherwise it states the calls made and that every once-subscription of the event is gone.
- The create_assets.py scripts: asset generation.

## Findings

| source | as written | input that shows it | evidently intended | confidence | as-written member | corrected member |
|---|---|---|---|---|---|---|
| game_engine/SceneDB.cpp:211-213 | the append loop dereferences every `Actor*` in `actors_to_add`, after `ActorsPendingDestruction` has erased, and so freed, any of them that were destroyed | a callback instantiates a template and destroys the new actor in the same frame | append only the pending actors that still exist, so no freed actor is read and no dangling id is listed | not executed | SceneModel.AppendPendingAsWritten, SceneLaws.FreedPendingActorRead | SceneModel.AppendPending, SceneLaws.AppendPendingSpec, SceneLaws.FrameSpec |
