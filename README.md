# churro-cli: key dispatch, phase state machine and tab navigation in Dafny

This project models the core of churro-cli, a terminal dashboard for an issue
tracker, and proves properties of the model. The core covers:

- **Actions** (`actions.dfy`, src/app/actions.rs). There are four user actions, each with fixed trigger keys. The
  contextual registry is built from a list of actions and fails (the source
  panics) exactly when two entries share a key. The conflict check is the
  source's nested loop that indexes every entry under each of its keys. Lookup
  returns the first action, in declaration order, that is both active and bound
  to the key.
- **State** (`state.dfy`, src/app/state.rs). The phase is `Init | LoggedOut | Initialized{...}`. Every
  mutator is total and does nothing outside `Initialized`. The delay is a
  whole number of seconds clamped to [1, 10]. The source's in-place updates of
  this enum value are modelled as functions from the old value to the new one.
- **AppModel** (`app.dfy`, src/app/mod.rs). This is the controller, as the class `App`. It has the active
  bindings, the state, the loading flag and the command channel `io_tx`,
  modelled as the sequence of events sent so far. A send can fail, which
  stands for a closed receiver. The effect of each operation is stated by a
  pure step function over a `Snapshot` of the four fields. Each method is
  proved to produce exactly that step. The invariant `Consistent` says that
  only Quit is bound until the state is initialized, and all four actions are
  bound from then on.
- **IoHandler** (`handler.dfy`, src/io/handler.rs). The IO worker handles one
  event as one atomic step: `initialized()` or `slept()` on the app, then
  always `loaded()`. `Run` folds these steps over a sequence of events in
  arrival order.
- **Menu** (`menu.dfy`, src/main.rs). This covers the `MenuItem` numbering and the
  legacy main loop's handling of `active_menu_item` and `selected_pane`. The
  loop is proved against a reference step function defined by tab tables.
  The invariant `Coherent` says that a selected pane is always the active tab.

`wrappers.dfy` holds `Option` and `Result`. `io_events.dfy` holds `IoEvent`
(src/io/mod.rs).

`decrement_delay` is modelled as the code is written. Like `increment_delay`,
it computes `(secs + 1).clamp(1, 10)`. A true decrement with floor 1 was
evidently intended. `State.DecrementDelayAsWritten` states the consequence:
from the one-second start, "decrement" raises the delay to two seconds.

The code resets the state whenever `initialized()` is called. Nothing in it
limits initialization to happening once. The model follows the code.

## Model

| member | source | states |
|---|---|---|
| Actions.All | src/app/actions.rs:18-26 | the canonical enumeration has four entries, each action exactly once, at its declaration position (Quit, Sleep, IncrementDelay, DecrementDelay) |
| Actions.Rank | src/app/actions.rs:9-15 | declaration positions are 0 to 3 |
| Actions.Keys | src/app/actions.rs:28-35 | every action has at least one trigger key and lists none twice |
| Actions.KeySetsDisjoint | src/app/actions.rs:28-35 | no key triggers two different actions |
| Actions.FirstMatch | src/app/actions.rs:54-56 | the result is active and bound to the key and is the earliest such in the given order; no result means no action in the order is both |
| Actions.Find | src/app/actions.rs:53-57 | a found action is active and bound to the key; nothing is found exactly when no active action binds the key; the found action precedes, in canonical order, every other active action bound to the key |
| Actions.FindOwner | src/app/actions.rs:53-57 | every active action is found by each of its keys |
| Actions.FindIgnoresOrder | src/app/actions.rs:54-56 | lookup depends only on which actions are active, not on the order or repetition of the active list |
| Actions.OnlyQuitBound | src/app/actions.rs:53-57 | with only Quit active, a key is found exactly when it is one of Quit's keys |
| Actions.Owners | src/app/actions.rs:72-82 | the entries collected under a key are entries of the list that bind it, and every such entry is among them |
| Actions.KeysOf | src/app/actions.rs:72-82 | a key is indexed exactly when some entry binds it |
| Actions.OwnersOfBinding | src/app/actions.rs:73-80 | an entry binding a key puts at least one entry under that key |
| Actions.TwoOwnersGivePair | src/app/actions.rs:83-86 | a key with two or more collected entries is bound by two distinct positions of the list |
| Actions.PairGivesTwoOwners | src/app/actions.rs:83-86 | two positions binding a key give it two or more collected entries |
| Actions.ConflictIff | src/app/actions.rs:83-97 | the reported conflicts are non-empty exactly when two entries of the list share a key |
| Actions.ConflictIffRepeated | src/app/actions.rs:64-97 | a list conflicts exactly when it names some action twice, including the same action listed twice |
| Actions.AllConflictFree | src/app/actions.rs:28-35 | the full list of four actions has no conflict |
| Actions.ConflictsOfIndex | src/app/actions.rs:83-86 | filtering the complete index to keys with more than one entry yields exactly the conflict map |
| Actions.FromList | src/app/actions.rs:64-101 | construction fails exactly when some key is bound by two entries, reporting each such key with its entries in list order; on success the stored list, which `actions()` returns, equals the input |
| State.Clamp | src/app/state.rs:72 | the result lies within the bounds and equals the input when the input does |
| State.Default | src/app/state.rs:102-106 | the default state is not initialized, has no data and is not LoggedOut |
| State.MakeInitialized | src/app/state.rs:18-28 | the ready state has delay 1 s, both counters 0 and no token |
| State.IsInitialized | src/app/state.rs:30-32 | the ready phase is exactly when each accessor has a value |
| State.CountSleep | src/app/state.rs:46-52 | none exactly outside the ready phase, otherwise the sleep counter |
| State.CountTick | src/app/state.rs:54-60 | none exactly outside the ready phase, otherwise the tick counter |
| State.Duration | src/app/state.rs:62-68 | none exactly outside the ready phase, otherwise the delay |
| State.IsAuthenticated | src/app/state.rs:93-99 | true only in the ready phase, and there exactly when a token is held |
| State.IncrSleep | src/app/state.rs:34-38 | adds exactly one to the sleep counter in the ready phase, leaving counters, delay and token otherwise as they were; no-op outside it |
| State.IncrTick | src/app/state.rs:40-44 | adds exactly one to the tick counter in the ready phase, everything else unchanged; no-op outside it |
| State.IncrementDelay | src/app/state.rs:70-75 | the delay becomes secs + 1 below the maximum and the maximum 10 from there up, always within [1, 10]; counters and token unchanged; no-op outside the ready phase |
| State.DecrementDelay | src/app/state.rs:77-82 | as written: the delay stays within [1, 10], counters and token unchanged, no-op outside the ready phase |
| State.DecrementDelayAsWritten | src/app/state.rs:77-82 | decrement computes exactly what increment computes, so from the fresh ready state it yields a delay of 2 s |
| State.IncrementDelayIdempotentAtMax | src/app/state.rs:70-75 | once an increment reaches 10 s, incrementing again changes nothing |
| State.SetToken | src/app/state.rs:84-91 | afterwards the state is authenticated exactly when it is in the ready phase; outside it the state is unchanged; counters and delay unchanged |
| State.AdjustDelayStaysInRange | src/app/state.rs:70-82 | any run of increments and decrements from a ready state whose delay is within [1, 10] keeps it ready, keeps the delay within [1, 10] and leaves the counters alone |
| State.TicksCount | src/app/state.rs:40-44 | n ticks add exactly n to the tick counter in the ready phase and leave other data alone; outside it they do nothing |
| State.SleepsCount | src/app/state.rs:34-38 | n recorded sleeps add exactly n to the sleep counter in the ready phase and leave other data alone; outside it they do nothing |
| State.CountersFromStart | src/app/state.rs:18-28 | from the fresh ready state the counters equal the number of calls made |
| AppModel.DispatchStep | src/app/mod.rs:41-47 | the loading flag ends raised exactly when the send succeeded, the event is appended to the channel exactly then, bindings and state are unchanged |
| AppModel.DoActionStep | src/app/mod.rs:49-73 | the result is Exit exactly when the key finds Quit, and then nothing changes; a key with no active binding continues and changes nothing; bindings never change; the only event ever sent is a sleep for the current delay |
| AppModel.TickStep | src/app/mod.rs:75-78 | always continues; the state receives one tick; nothing else changes |
| AppModel.InitializedStep | src/app/mod.rs:91-101 | all four actions become active, conflict-free, and the state becomes the fresh ready state; bindings and phase are consistent afterwards; flag and channel unchanged |
| AppModel.LoadedStep | src/app/mod.rs:103-105 | the loading flag is cleared and nothing else changes |
| AppModel.SleptStep | src/app/mod.rs:107-109 | the state records one sleep and nothing else changes |
| AppModel.ConsistentIsConflictFree | src/app/mod.rs:91-101 | bindings consistent with the phase never contain a key conflict |
| AppModel.StepsPreserveConsistent | src/app/mod.rs:28-109 | every step of the controller keeps the bindings consistent with the phase |
| AppModel.QuitExitsInAnyPhase | src/app/mod.rs:52-53 | a Quit key exits in one step in every phase and changes nothing |
| AppModel.UninitializedIgnoresOtherKeys | src/app/mod.rs:49-72 | before initialization every key other than Quit's, 's', 'i' and 'd' included, continues and changes nothing |
| AppModel.ReadyBindsEveryAction | src/app/mod.rs:91-101 | once initialized, each key of each action finds that action |
| AppModel.SleepSendsCurrentDelay | src/app/mod.rs:54-59 | the Sleep action sends a sleep for the current delay when the state has one and otherwise changes nothing; either way the loop continues |
| AppModel.DelayKeysAdjustOnlyDelay | src/app/mod.rs:60-67 | the delay actions continue, change only the state's delay, and keep it within [1, 10] |
| AppModel.App.constructor | src/app/mod.rs:28-39 | only Quit is active, the state is the default, nothing is loading or sent, and the invariant holds |
| AppModel.App.Dispatch | src/app/mod.rs:41-47 | the new fields are those of the step for a delivered or for a failed send |
| AppModel.App.DoAction | src/app/mod.rs:49-73 | result and new fields are those of the do_action step for a delivered or a failed send |
| AppModel.App.UpdateOnTick | src/app/mod.rs:75-78 | result and new fields are those of the tick step |
| AppModel.App.Initialized | src/app/mod.rs:91-101 | new fields are those of the initialized step |
| AppModel.App.Loaded | src/app/mod.rs:103-105 | new fields are those of the loaded step |
| AppModel.App.Slept | src/app/mod.rs:107-109 | new fields are those of the slept step |
| IoHandler.HandleStep | src/io/handler.rs:18-30 | after any event the loading flag is down and nothing was sent; Initialize leaves the fresh ready state with all four actions; a sleep records exactly one sleep and keeps the bindings |
| IoHandler.RunAppend | src/io/handler.rs:18-30 | handling two batches in turn is handling their concatenation, one event at a time in arrival order |
| IoHandler.RunClearsLoading | src/io/handler.rs:28-29 | after any non-empty run the loading flag is down and the worker has sent nothing |
| IoHandler.RunPreservesConsistent | src/io/handler.rs:18-30 | handling events keeps the bindings consistent with the phase |
| IoHandler.RunCountsSleeps | src/io/handler.rs:42-50 | in the ready phase each handled sleep adds exactly one to the sleep counter; other state and bindings stay as they were |
| IoHandler.InitializeThenSleeps | src/io/handler.rs:32-40 | Initialize followed by n sleeps leaves delay 1 s, n sleeps, no ticks, no token, all four actions and nothing loading |
| IoHandler.IoAsyncHandler.constructor | src/io/handler.rs:14-16 | the handler works on the given app |
| IoHandler.IoAsyncHandler.HandleIoEvent | src/io/handler.rs:18-30 | the app's new fields are those of the handling step: the handler's effect, then the flag cleared whatever it returned |
| IoHandler.IoAsyncHandler.DoInitialize | src/io/handler.rs:32-40 | succeeds, and the app takes the initialized step |
| IoHandler.IoAsyncHandler.DoSleep | src/io/handler.rs:42-50 | succeeds, and the app takes the slept step |
| Menu.AsUsize | src/main.rs:61-63 | tab numbers lie in 0 to 2 |
| Menu.FromUsize | src/main.rs:65-72 | none exactly for numbers above 2; otherwise the item with that number |
| Menu.FromUsizeAsUsize | src/main.rs:61-72 | converting an item to its number and back gives the item |
| Menu.TryFromMenuItem | src/main.rs:75-84 | always succeeds, with the same number as as_usize |
| Menu.Step | src/main.rs:235-267 | 'h' moves one tab left but not below Projects and 'l' one tab right but not above Help, both only when no pane is selected; Enter selects the active tab only when none is selected; Esc clears the selection; ticks and other keys change nothing |
| Menu.StepPreservesCoherent | src/main.rs:235-264 | a selected pane remains the active tab after every step |
| Menu.ReplayCoherent | src/main.rs:228-268 | any sequence of events keeps a selected pane equal to the active tab |
| Menu.MainLoop | src/main.rs:228-268 | the loop stops at the first 'q', with the navigation of the events before it; with no 'q' it runs out of events with the navigation of them all; the selection stays coherent |

## Left out

- Terminal rendering (`terminal.draw`, `render_projects`, layout and styling in src/main.rs) and the `ui` module: output through an external crate.
- MainLoop: drawing is not modelled. This includes the `todo!()` at src/main.rs:221, which panics when the Tickets tab is drawn. The model goes on after a move to Tickets.
- MainLoop: an error from `terminal.draw`, `disable_raw_mode` or `show_cursor` is not modelled. The loop's only exits are the first 'q' and the end of the event sequence. The end of the sequence stands for a closed channel.
- The `--login`/`--auth` command-line gate, raw-mode setup and the key/tick capture thread in src/main.rs. These are process I/O, stdin, threads and wall-clock timing.
- src/inputs/events.rs and src/lib.rs `start_ui`. These are a spawned task, an atomic stop flag and terminal glue. Their dispatch step is `App.DoAction` and `App.UpdateOnTick`.
- The key type `crate::inputs::key::Key` is not part of this model. `Actions.Key` keeps only its `Char` and `Ctrl` forms, which are all the bindings use.
- `Display for Action` and the exact text of the conflict panic (src/app/actions.rs:38-47, 83-96). The model reports the conflicting keys with their entries, not the message.
- The `Mutex` around the app, the `tokio::time::sleep` waits and the async suspension in the handler. Each handled event is one atomic step.
- The command channel's capacity and back-pressure. The worker's receive loop is not in the source files either. `ioTx` records what was sent. `IoHandler.Run` takes the events the worker receives, in arrival order.
- Whether a send succeeds depends on the receiver being alive. The model makes it a nondeterministic choice in `App.Dispatch`.
- The source's `IoEvent` has no login command. `State.SetToken` is modelled, but nothing in the core calls it. The OAuth exchange (src/jira/) is a network call.
- src/jira/ and src/structs/, and the `read_projects` file read: HTTP clients, serde shapes and file I/O.
- The getters `actions()`, `state()` and `is_loading()` of `App` are not separate members. They are the fields `actions`, `state` and `isLoading`. `Actions::actions` is the field `list`.
- State.IncrSleep: the counter is unbounded. The source's u32 `counter_sleep` would overflow after about 4·10⁹ sleeps of at least one second each (panic in a debug build, wrap-around in a release build). That is out of reach in practice.
- State.IncrTick: the counter is unbounded. The source's u64 `counter_tick` cannot overflow in practice at one tick per 200 ms.
- `Duration` is whole seconds. The source only ever builds delays with `Duration::from_secs`, so the nanosecond part is always zero.
