# SFML .NET basic framework: engine bookkeeping in Dafny

This project models the bookkeeping core of a small C# game framework built on SFML.
That core is three classes, modelled with their state and their operations:

- `Instance` (engine/Instance.cs). It holds:
  - the list of levels, whose slot 0 is the level that is drawn;
  - the frame and fixed-step rates of the main loop, and the tolerance on the fixed delta;
  - the window, which is rebuilt or resized to follow the drawn level's settings.
- `Level` (engine/Level.cs). It holds:
  - a list of live actors;
  - two buffers of pending instantiations and destructions, folded into the list after every pass;
  - an update pass (the level script, then every actor);
  - a draw pass that sorts a copy of the actors by draw order.
- `WindowSettings` (engine/WindowSettings.cs): the resolution, view and window flags a level asks for. The resolution never goes below 1x1.

The modules:

- `Lists` holds the list algorithms the classes share, and a reference definition for each:
  - the by-reference `RemoveAll`;
  - the destroy-then-add drain of the pending buffers;
  - the update loop that removes at index `i` and goes on at `i + 1`;
  - the swap loop that brings a level to slot 0.
- `Settings` is the `WindowSettings` class.
- `Timing` covers the rate setters, the two fire tests of the loop and the clamped fixed delta.
- `Display` covers the window-recreation rule and the letterbox viewport.
- `Levels` holds the actor and level classes.
- `Instances` holds the instance class and one iteration of its main loop.

User code is modelled as data, not run:

- A level script or an actor hook is an `Effect`. It records:
  - the value of the object's `ToDestroy` once the hook has run;
  - the actors it instantiated;
  - the actors it destroyed.
- A pass receives its hooks as functions of the call number and the object.
- `Update` and `FixedUpdate` differ only in which hooks they call. Each pair is modelled by one `Pass` method.
- The clock readings of the main loop are inputs to `Iterate`, which is one turn of the loop.

Times, rates and the viewport are `real` in place of `float`.

What the proofs establish:

- An update pass over a list is equal to a reference pass that reads the list from the front:
  - an element whose hook asks for removal is removed;
  - the element behind it moves into the freed slot, which the loop has passed, so that element is skipped;
  - every element is either visited or skipped, exactly once;
  - every element is either kept or removed, exactly once;
  - each of these four groups keeps list order.
- Both pending drains equal the survivors of the live list followed by the additions in order. An element both added and destroyed in one pass survives.
- `SetDrawnLevel` is `SwapToFront`: a permutation that swaps slot 0 with the first occurrence of the level.
- `Draw` gives a permutation of the live actors sorted by draw order.
- The iteration crashes exactly when the frame pass leaves no level.

## Model

The reference definitions carry no contract of their own; the rows below state what is proved about them:

- `Lists.Without` (engine/Instance.cs:109, engine/Level.cs:90): `RemoveAll` by reference.
- `Lists.Filter` (engine/Level.cs:72-76, engine/Instance.cs:119-123): the collecting loops of the two type queries.
- `Lists.Remaining` and `Lists.Drain` (engine/Level.cs:87-95, engine/Instance.cs:193-201): the destroy-then-add drain of the pending buffers.
- `Lists.Sweep` and `Lists.Visits` (engine/Level.cs:100-105, engine/Instance.cs:205-210): the index loop with `RemoveAt`, what it leaves and what it visits.
- `Timing.FrameFires`, `Timing.FixedFires` and `Timing.FixedCap` (engine/Instance.cs:167, 181, 183): the two fire tests and the cap on the fixed delta.
- `Display.MustRecreate` (engine/Instance.cs:238): when the window is rebuilt.
- `Levels.IsA` (engine/Level.cs:74) and `Levels.IsExactly` (engine/Instance.cs:121): the two type tests.
- `Levels.ActorsAfterPass` and `Levels.LevelPass` (engine/Level.cs:97-118): what one level pass leaves.
- `Instances.AfterPass` and `Instances.AfterIteration` (engine/Instance.cs:164-223): the level list after one pass and after one loop iteration.

| member | source | states |
|---|---|---|
| `Lists.RemoveAll` | engine/Instance.cs:107-110 | The result no longer contains the reference, is a subsequence of the list, and holds every other element as often as before. |
| `Lists.WithoutCounts` | engine/Instance.cs:109 | Removing by reference sets the count of that reference to 0 and keeps every other count. |
| `Lists.WithoutKeepsOrder` | engine/Instance.cs:109 | The elements kept by RemoveAll stay in their relative order. |
| `Lists.WithoutAbsent` | engine/Instance.cs:107-110 | RemoveAll of an absent reference changes nothing. |
| `Lists.WithoutMembers` | engine/Level.cs:90 | An element survives RemoveAll if and only if it was present and is not the removed reference. |
| `Lists.WithoutAppend` | engine/Level.cs:90 | RemoveAll distributes over concatenation. |
| `Lists.FilterMembers` | engine/Level.cs:72-76 | An element is collected if and only if it is in the list and passes the type test. |
| `Lists.FilterOrder` | engine/Level.cs:72-76 | The collected elements keep list order. |
| `Lists.FilterAppend` | engine/Level.cs:72-76 | One more visited element is collected at the end exactly when it passes the test. |
| `Lists.RemainingStep` | engine/Level.cs:89-90 | One more RemoveAll in the destroy loop removes the survivors of one more pending reference. |
| `Lists.DrainMembers` | engine/Level.cs:87-95 | After the drain an element is present if and only if it was live and not destroyed, or it was pending addition; so an element both added and destroyed in one pass is present. |
| `Lists.RemainingMembers` | engine/Level.cs:89-90 | An element survives the destroy loop if and only if it was live and is not among the pending removals. |
| `Lists.DrainOrder` | engine/Instance.cs:193-201 | The survivors keep their order, and the pending additions follow them in request order. |
| `Lists.DrainPending` | engine/Instance.cs:193-201 | The two buffer loops leave the live list with the destroyed references removed, followed by the additions. |
| `Lists.SweepStep` | engine/Level.cs:100-105 | Proof step, one unfolding of the loop semantics. One turn of the index loop: the element at `i` is visited, and it is removed at `i` when its hook asks for it; the loop goes on at `i + 1` either way. |
| `Lists.SweepAdvance` | engine/Level.cs:100-105 | The loop invariants of the update loop hold again after one turn. |
| `Lists.SweepDone` | engine/Level.cs:100 | Proof step, the exit case of the loop semantics. Past the end of the list the loop visits nothing and changes nothing. |
| `Lists.SweepMembers` | engine/Instance.cs:205-210 | A pass only removes elements; whatever is left was in the list before. |
| `Lists.VisitsMembers` | engine/Level.cs:100-106 | Only elements of the list the pass started with are visited, so an actor instantiated during a pass is not updated in it. |
| `Lists.SweepIsReference` | engine/Instance.cs:205-210 | The index loop with RemoveAt equals the reference pass that reads the list from the front, and it visits exactly the reference's visited elements. |
| `Lists.KeptAndDropped` | engine/Level.cs:100-105 | The survivors and the removed elements together are the list the pass started with. |
| `Lists.CalledAndSkipped` | engine/Level.cs:100-105 | Every element is either visited or skipped, exactly once. |
| `Lists.PassOrder` | engine/Instance.cs:205-210 | Survivors and visited elements keep list order; the removed elements are among the visited ones; the skipped elements are among the survivors. |
| `Lists.PassWithoutRemovals` | engine/Level.cs:100-105 | When no hook asks for removal, every element is visited in order, nothing is skipped, and the list is unchanged. |
| `Lists.SkipScenario` | engine/Instance.cs:205-210 | Of three elements, when the first is removed, the second moves into its slot and is not visited, while the third is. |
| `Lists.FirstIndex` | engine/Instance.cs:134 | The index found holds the element and no earlier index does; no index means the element is absent. |
| `Lists.SwapToFront` | engine/Instance.cs:130-141 | The result is a permutation of the list. The level is at slot 0 when present. An absent level leaves the list unchanged. Only slot 0 and the first occurrence change; later copies of the level keep their slots. |
| `Lists.FirstIndexSnoc` | engine/Instance.cs:132-134 | Extending the scanned prefix by one element moves the first occurrence only if there was none before. |
| `Lists.SwapLoopStep` | engine/Instance.cs:132-140 | After each turn of the swap loop, the list is the scanned prefix brought to the front, followed by the untouched rest. |
| `Lists.SwapLoopFound` | engine/Instance.cs:134-139 | A swap after the first occurrence has reached slot 0 changes nothing. |
| `Lists.SwapLoopFirst` | engine/Instance.cs:134-139 | The turn that meets the first occurrence swaps it with slot 0. |
| `Lists.SwapInPrefix` | engine/Instance.cs:136-138 | Swapping slots 0 and `i` within the scanned prefix and then appending the rest is the same swap on the whole list. |
| `Settings.ClampResolution` | engine/WindowSettings.cs:40 | Both components become at least 1 and never decrease; a component already at least 1 is kept. |
| `Settings.ClampIsLeast` | engine/WindowSettings.cs:40 | The stored resolution is the least one that is at least 1x1 and at least the requested one. |
| `Settings.ClampIdempotent` | engine/WindowSettings.cs:39-40 | Clamping an already clamped resolution changes nothing. |
| `Settings.WindowSettings.constructor` | engine/WindowSettings.cs:14-36 | Resolution and view size default to 640x480, the view centre to (320, 240), and the three flags to false. |
| `Settings.WindowSettings.Resolution` | engine/WindowSettings.cs:39 | The getter never returns a component below 1. |
| `Settings.WindowSettings.SetResolution` | engine/WindowSettings.cs:40 | The stored resolution is the clamped request. Setting the current value again changes nothing. |
| `Timing.IntervalForRate` | engine/Instance.cs:39-47 | Rate 0 stores interval 0. Any other rate stores the reciprocal of its magnitude. |
| `Timing.RateRoundTrip` | engine/Instance.cs:39-47 | Reading a rate back gives the magnitude that was set, or infinity for 0. |
| `Timing.RateSignIgnored` | engine/Instance.cs:54-65 | A rate and its negation store the same interval. |
| `Timing.ClampTolerance` | engine/Instance.cs:76-81 | The stored tolerance is the request or 0, whichever is larger. |
| `Timing.Schedule` | engine/Instance.cs:164-186 | The frame step fires if and only if strictly more than the desired interval has elapsed, and it is handed the elapsed time. The fixed step fires if and only if its interval is nonzero and strictly exceeded. Its delta is the smaller of the elapsed time and the cap. |
| `Timing.FixedStepDisabled` | engine/Instance.cs:181 | With a fixed rate of 0 the fixed step never fires. |
| `Timing.FixedDeltaBounds` | engine/Instance.cs:183 | A fired fixed delta lies between the desired fixed interval and that interval times (1 + tolerance). It is the elapsed time whenever that is below the cap. |
| `Display.StyleFor` | engine/Instance.cs:245-248 | A new window has the close button and title bar, plus resize and fullscreen as requested. |
| `Display.KeepWindowExactly` | engine/Instance.cs:238 | An existing window is kept if and only if its fullscreen flag matches the request and, when fullscreen, its size is the requested resolution. A windowed window is never rebuilt for a new size. |
| `Display.Letterbox` | engine/Instance.cs:259-272 | The viewport has left and top at least 0 and fits the window. It is centred. It fills one whole dimension. It keeps the view's aspect ratio. Bars go above and below exactly when the view is relatively wider than the window. |
| `Display.LetterboxRatio` | engine/Instance.cs:261-264 | The ratio of aspect ratios, cleared of its divisions, and how it compares with 1. |
| `Display.LetterboxSameAspect` | engine/Instance.cs:259-272 | A view with the window's aspect ratio fills the whole window. |
| `Display.ViewFor` | engine/Instance.cs:256-272 | The view has the level's view size and centre. Its viewport is the whole window when stretched, and the letterbox otherwise. |
| `Levels.ExactIsA` | engine/Instance.cs:121 | A level of exactly the requested class also passes the subtype test. |
| `Levels.CallsAppend` | engine/Level.cs:102-104 | One more visited actor appends its requests after the earlier ones. |
| `Levels.Level.constructor` | engine/Level.cs:12-19 | A new level has fresh default settings: resolution and view size 640x480, view centre (320, 240), and not stretched, fullscreen or resizable. It has no actors, empty buffers and is not flagged for destruction. |
| `Levels.Level.InstantiateActor` | engine/Level.cs:51-55 | Only the pending-addition buffer grows, by the actor, and the same reference is returned. |
| `Levels.Level.DestroyActor` | engine/Level.cs:60-63 | Only the pending-destruction buffer grows, by the actor. |
| `Levels.Level.GetActorsOfClass` | engine/Level.cs:69-78 | Exactly the live actors that are of the class, or derive from it, in list order. |
| `Levels.Level.ManagePendingActorActions` | engine/Level.cs:87-95 | The actor list becomes the drain of the two buffers, and both buffers are emptied. |
| `Levels.Level.Pass` | engine/Level.cs:97-118 | The script runs first, and the level's flag is the script's. The actors visited are those of the reference pass over the list at the start. The list becomes that pass's survivors, drained with the script's requests and then the actors' requests in call order. Both buffers end empty. As a whole state, the level after the pass is `LevelPass` of the level before it, with its settings kept. |
| `Levels.ActorLoopStep` | engine/Level.cs:100-105 | After one more actor is handled, the actor loop's invariants on the list, the visits and both buffers hold again. |
| `Levels.Level.UpdateActors` | engine/Level.cs:100-105 | The actor loop visits and removes as the reference pass does, and queues each visited actor's requests in call order. |
| `Levels.Level.Draw` | engine/Level.cs:119-133 | The actors drawn are a permutation of the live actors in non-decreasing draw order. The live list is not changed. |
| `Levels.SortByDrawOrder` | engine/Level.cs:124-130 | The array ends sorted by draw order and is a permutation of what it held. |
| `Instances.AfterPassMembers` | engine/Instance.cs:193-210 | After a pass every level was listed before or pending addition. |
| `Instances.LastCall` | engine/Instance.cs:207-208 | The call number found is the last visit of the level. |
| `Instances.LastCallAppend` | engine/Instance.cs:205-209 | A new visit becomes the last visit of its level and leaves the other levels' last visits alone. |
| `Instances.RenderWindow.constructor` | engine/Instance.cs:244-248 | A new window has the requested size and style. |
| `Instances.Instance.constructor` | engine/Instance.cs:12-33 | A new instance is running, with intervals 0.004 s and 0.02 s, tolerance 0.1, no window and no levels. |
| `Instances.Instance.UpdateRate` | engine/Instance.cs:39 | The getter reports infinity exactly for interval 0, and otherwise the reciprocal of the interval. |
| `Instances.Instance.SetUpdateRate` | engine/Instance.cs:40-46 | The stored interval is that of the rate, and the getter then reports the rate's magnitude, or infinity for 0. |
| `Instances.Instance.FixedUpdateRate` | engine/Instance.cs:54 | The getter reports infinity exactly for interval 0, and otherwise the reciprocal of the interval. |
| `Instances.Instance.SetFixedUpdateRate` | engine/Instance.cs:55-64 | The stored interval is that of the rate, and the getter then reports the rate's magnitude, or infinity for 0. |
| `Instances.Instance.FluctuationTolerancy` | engine/Instance.cs:76 | The tolerance read back is never negative. |
| `Instances.Instance.SetFluctuationTolerancy` | engine/Instance.cs:77-80 | The stored tolerance is the request clamped at 0. |
| `Instances.Instance.InstantiateLevel` | engine/Instance.cs:98-102 | The level is appended at once, earlier entries are unchanged, and the same reference is returned. |
| `Instances.Instance.DestroyLevel` | engine/Instance.cs:107-110 | Every entry of the level is removed at once, the others keep their order, and an absent level changes nothing. |
| `Instances.Instance.GetLevelsOfClass` | engine/Instance.cs:116-125 | Exactly the levels whose class is the requested one, subclasses excluded, in list order; each of them also passes the subtype test. |
| `Instances.Instance.SetDrawnLevel` | engine/Instance.cs:130-141 | The list becomes SwapToFront of the old list: a permutation with the level in slot 0 when present, and unchanged when absent. |
| `Instances.Instance.ManagePendingLevels` | engine/Instance.cs:193-201 | The level list becomes the drain of the two buffers, and both buffers are emptied. |
| `Instances.PassedStep` | engine/Instance.cs:205-209 | One more level pass keeps the per-level account of a pass: the level passed has had one more pass, and every other level is as it was. |
| `Instances.Instance.Pass` | engine/Instance.cs:203-223 | The levels visited are those of the reference pass, and each visited level's flag is its last script's. The list becomes the survivors, drained with the pending buffers, which end empty. A listed level that is not visited, such as one shifted into a slot the loop has passed, keeps its flag, actors and buffers. A visited level ends with empty actor buffers, and when visited once its actors are those one level pass leaves. No level's settings change. |
| `Instances.Instance.UpdateLevels` | engine/Instance.cs:205-210 | The level loop visits and removes as the reference pass does, and every listed level ends as the per-level account of the pass says. |
| `Instances.Instance.Draw` | engine/Instance.cs:225-231 | Level 0 is drawn when there is one: its actors, permuted into draw order. |
| `Instances.Instance.AssertWindowCorrectness` | engine/Instance.cs:236-275 | The window is rebuilt, with the requested style, exactly when the recreation rule holds, and kept otherwise. Its size is then the requested resolution. The fullscreen flag it was built with equals the request. The view is the level's view with its viewport. |
| `Instances.Instance.FrameStep` | engine/Instance.cs:167-178 | The frame pass runs. No report comes back exactly when the pass left no level. Otherwise there is a window, of the resolution level 0 asks for and with its fullscreen flag; the reported view is the one level 0's settings give for that window; and the actors drawn are level 0's, in draw order. The report names level 0. Every level listed before the pass ends as the per-level account of `Pass` says, and a pending level that was not listed is unchanged. |
| `Instances.Instance.FixedStep` | engine/Instance.cs:180-185 | The fixed pass runs exactly when the fixed step fires, and it is handed the capped delta. When it fires, every listed level ends as the per-level account of `Pass` says. When it does not fire, neither the instance nor any level changes. No level's settings change either way. |
| `Instances.Instance.Iterate` | engine/Instance.cs:164-186 | One turn of the loop does nothing when the loop condition fails: the instance, its window and every level are unchanged. It crashes exactly when the frame step fires and its pass leaves no level. Otherwise it runs the steps that fire, with the scheduled deltas, and leaves the level list of the frame pass followed by the fixed pass. When the frame step ran, the level drawn is slot 0 of the frame pass's list, and there is a window of that level's resolution and fullscreen flag, with the reported view that level's view for it. When the fixed step did not fire, the drawn actors are a permutation of that level's actors. When exactly one step ran, every listed level ends as the per-level account of that step's pass says; when none ran, no level changed. |

## Left out

- SFML plumbing is not modelled. It is foreign library code:
  - closing and disposing windows;
  - `DispatchEvents`, `Clear`, `Display`, `SetView` and `SetTitle`;
  - the window title (`WindowName`);
  - the mouse position mapped in `Draw` (engine/Level.cs:122).
- The clocks and the blocking `while` loop of `Loop` (engine/Instance.cs:156-191) are not modelled as such. `Iterate` is one turn of that loop, and the elapsed times are its inputs.
- Float rounding is not modelled: times, rates and viewport fractions are `real`. The float results of a division by zero are left out. `Letterbox` and `AssertWindowCorrectness` require a view height of at least 1. `Instances.Instance.FrameStep` and `Instances.Instance.Iterate` require it, with a resolution of at least 1x1, of every listed and pending level, including levels that are never drawn and turns where the frame step does not fire. A view of width 0 still has its float result, which is spelled out.
- The console warning printed when the fixed rate is set to 0 is not modelled.
- User hooks are abstracted as `Effect` values, including what their `dt` argument would make them do.
  - A level script that calls `InstantiateLevel`, `DestroyLevel` or `SetDrawnLevel` on the instance during a pass is not modelled. It would change the level list under the running index.
  - No hook changes any actor's `DrawOrder`, its own included (engine/Actor.cs:38), and an actor's `Draw` hook (engine/Actor.cs:29) has no effect. `Levels.Level.Pass` therefore leaves every actor unchanged, and `Instances.Instance.Iterate`'s sortedness of the drawn actors, read after the fixed pass, relies on this.
  - A level script receives the instance (engine/Level.cs:32) and can write the level's public `Settings` (engine/Level.cs:19). A hook that writes a level's settings, or the instance's rates, tolerance or `IsOn`, is not modelled.
- `Instances.Instance.Pass`: keeps every level's settings only because hooks that write them are not modelled.
- `Instances.Instance.Pass` and `Instances.Instance.UpdateLevels`: a level script can reach other levels through the instance (`GetLevelsOfClass`, engine/Instance.cs:116) and queue actors into their buffers (`InstantiateActor` and `DestroyActor`, engine/Level.cs:51-63). An `Effect` queues only into its own level, so that is not modelled. The per-level account these methods state holds only without such requests: a visited level ends with empty buffers, a skipped level keeps its buffers, and a level visited once has the actors one pass leaves from its old state.
- `Instances.Instance.Iterate`: when both the frame and the fixed step fire, the per-level account of the two passes is not composed. Each step's own contract states the account of its pass.
- `Instances.Instance.Iterate`: schedules the fixed step with the rates in force at the start of the iteration. The code reads the fixed interval again after the frame pass (engine/Instance.cs:181), which agrees only because hooks cannot change the rates in this model.
- `Levels.Level.UpdateActors`: keeps the actor list and the buffers in locals through the loop and stores them at its end. This agrees with the code's updates in place only because no hook in this model reads the level's state in the middle of a pass.
- engine/Actor.cs is not part of this model beyond an actor's identity, class and draw order. `ToDestroy` is read only right after the actor's own hook, so it is the hook's `destroy` outcome.
- engine/Engine.cs and engine/AssetManager.cs are not part of this model. They hold no logic of the core.
- Nothing in the engine ever writes the level buffers `levelsToAdd` and `levelsToDestroy`. They are modelled as they are drained, and `InstantiateLevel` and `DestroyLevel` act at once, as the code does.
- `Levels.Level.Draw`: the sort in the code, `List.Sort`, is an introspective sort and not stable. The model sorts by insertion and promises only a permutation in non-decreasing draw order, not the order among equal draw orders.
- Where the documentation and the code differ, the model follows the code:
  - levels are added and removed at once;
  - a step fires on strictly more than its interval;
  - the resolution is unsigned, so a negative component cannot be requested.
