/** The IO worker (src/io/handler.rs). Each command is handled as one atomic
    step on the shared app: initialization installs the ready bindings and
    state, a sleep records itself, and the loading flag is cleared afterwards
    whatever the handler returned. The lock and the timed waits are not
    modelled. */
module IoHandler {
  import opened Wrappers
  import A = Actions
  import S = State
  import opened IoEvents
  import opened AppModel

  /** `handle_io_event` on the app's fields. */
  function HandleStep(v: Snapshot, e: IoEvent): (r: Snapshot)
    ensures !r.isLoading
    ensures r.sent == v.sent
    ensures e.Initialize? ==> r.state == S.MakeInitialized() && r.actions.list == A.All()
    ensures e.Sleep? ==> r.state == S.IncrSleep(v.state) && r.actions == v.actions
  {
    var handled := match e
      case Initialize => InitializedStep(v)
      case Sleep(_) => SleptStep(v);
    LoadedStep(handled)
  }

  /** Handling `events` one at a time, in arrival order. */
  function Run(v: Snapshot, events: seq<IoEvent>): Snapshot
    decreases |events|
  {
    if events == [] then v else Run(HandleStep(v, events[0]), events[1..])
  }

  /** Handling two batches one after the other is handling their
      concatenation. */
  lemma {:induction false} RunAppend(v: Snapshot, first: seq<IoEvent>, second: seq<IoEvent>)
    ensures Run(v, first + second) == Run(Run(v, first), second)
    decreases |first|
  {
    if first == [] {
      assert first + second == second;
    } else {
      assert (first + second)[1..] == first[1..] + second;
      RunAppend(HandleStep(v, first[0]), first[1..], second);
    }
  }

  /** After any non-empty run the loading flag is down, and the worker never
      sends commands itself. */
  lemma {:induction false} RunClearsLoading(v: Snapshot, events: seq<IoEvent>)
    requires events != []
    ensures !Run(v, events).isLoading
    ensures Run(v, events).sent == v.sent
    decreases |events|
  {
    if |events| > 1 {
      RunClearsLoading(HandleStep(v, events[0]), events[1..]);
    }
  }

  /** Every handled event keeps the bindings consistent with the phase. */
  lemma {:induction false} RunPreservesConsistent(v: Snapshot, events: seq<IoEvent>)
    requires Consistent(v)
    ensures Consistent(Run(v, events))
    decreases |events|
  {
    if events != [] {
      var e := events[0];
      assert Consistent(HandleStep(v, e)) by {
        StepsPreserveConsistent(v, A.Char('q'), e, false);
      }
      RunPreservesConsistent(HandleStep(v, e), events[1..]);
    }
  }

  /** Once ready, each sleep handled adds exactly one to the sleep counter and
      the bindings and other counters stay as they were. */
  lemma {:induction false} RunCountsSleeps(v: Snapshot, events: seq<IoEvent>)
    requires v.state.Initialized?
    requires forall i :: 0 <= i < |events| ==> events[i].Sleep?
    ensures Run(v, events).state.Initialized?
    ensures Run(v, events).state.counterSleep == v.state.counterSleep + |events|
    ensures Run(v, events).state.counterTick == v.state.counterTick
    ensures Run(v, events).state.duration == v.state.duration
    ensures Run(v, events).state.authToken == v.state.authToken
    ensures Run(v, events).actions == v.actions
    decreases |events|
  {
    if events != [] {
      RunCountsSleeps(HandleStep(v, events[0]), events[1..]);
    }
  }

  /** From a fresh app, initializing and then handling `n` sleeps leaves the
      ready state with a one-second delay, `n` sleeps recorded, no ticks, no
      token and all four actions active, with nothing loading. */
  lemma InitializeThenSleeps(v: Snapshot, sleeps: seq<IoEvent>)
    requires forall i :: 0 <= i < |sleeps| ==> sleeps[i].Sleep?
    ensures Run(v, [Initialize] + sleeps).state ==
              S.Initialized(1, |sleeps|, 0, None)
    ensures Run(v, [Initialize] + sleeps).actions.list == A.All()
    ensures !Run(v, [Initialize] + sleeps).isLoading
  {
    var ready := HandleStep(v, Initialize);
    assert ([Initialize] + sleeps)[1..] == sleeps;
    assert Run(v, [Initialize] + sleeps) == Run(ready, sleeps);
    RunCountsSleeps(ready, sleeps);
    if sleeps != [] {
      RunClearsLoading(ready, sleeps);
    }
  }

  class IoAsyncHandler {
    var app: App

    /** `IoAsyncHandler::new`. */
    constructor (app: App)
      ensures this.app == app
    {
      this.app := app;
    }

    /** `handle_io_event`: run the handler for the event, then clear the
        loading flag whatever the handler returned. */
    method HandleIoEvent(e: IoEvent)
      modifies app
      ensures app.View() == HandleStep(old(app.View()), e)
    {
      var result: Result<(), string>;
      match e {
        case Initialize =>
          result := DoInitialize();
        case Sleep(d) =>
          result := DoSleep(d);
      }
      // An error would only be logged; the flag is cleared either way.
      app.Loaded();
    }

    /** `do_initialize`: mark the app initialized; it always succeeds. */
    method DoInitialize() returns (r: Result<(), string>)
      modifies app
      ensures r.Success?
      ensures app.View() == InitializedStep(old(app.View()))
    {
      app.Initialized();
      r := Success(());
    }

    /** `do_sleep`: after the wait, record the sleep on the app; it always
        succeeds. */
    method DoSleep(duration: nat) returns (r: Result<(), string>)
      modifies app
      ensures r.Success?
      ensures app.View() == SleptStep(old(app.View()))
    {
      app.Slept();
      r := Success(());
    }
  }
}
