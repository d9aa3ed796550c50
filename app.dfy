/** The app controller (src/app/mod.rs): the active key bindings, the phase
    state, the loading flag and the sending end of the command channel. The
    effect of each of its operations is given by a pure step function over a
    `Snapshot` of those four fields; the class `App` performs the same steps
    in place and is proved to agree with them. */
module AppModel {
  import opened Wrappers
  import A = Actions
  import S = State
  import opened IoEvents

  /** What a key press or tick tells the UI loop to do next. */
  datatype AppReturn = Exit | Continue

  /** The fields of an `App`; `sent` is everything sent on the command
      channel so far, oldest first. */
  datatype Snapshot = Snapshot(actions: A.Actions, state: S.AppState, isLoading: bool, sent: seq<IoEvent>)

  /** The bindings of a fresh app: only Quit. */
  const StartActions: A.Actions := A.Actions([A.Quit])

  /** The bindings once initialization has completed: all four actions. */
  const ReadyActions: A.Actions := A.Actions(A.All())

  /** The active bindings always match the phase: only Quit until the state
      is initialized, all four actions from then on. */
  predicate Consistent(v: Snapshot) {
    v.actions == (if v.state.Initialized? then ReadyActions else StartActions)
  }

  /** `dispatch`: the loading flag is raised and the event sent; if the send
      fails (`delivered` is false, the receiver is gone) the flag ends
      lowered and nothing was sent. */
  function DispatchStep(v: Snapshot, e: IoEvent, delivered: bool): (r: Snapshot)
    ensures r.isLoading == delivered
    ensures r.sent == if delivered then v.sent + [e] else v.sent
    ensures r.actions == v.actions && r.state == v.state
  {
    var raised := v.(isLoading := true);
    if delivered then raised.(sent := raised.sent + [e]) else raised.(isLoading := false)
  }

  /** `do_action`: look the key up among the active bindings and perform the
      action found; Quit asks the loop to exit and changes nothing. */
  function DoActionStep(v: Snapshot, key: A.Key, delivered: bool): (r: (AppReturn, Snapshot))
    ensures r.0 == Exit <==> A.Find(v.actions, key) == Some(A.Quit)
    ensures r.0 == Exit ==> r.1 == v
    ensures A.Find(v.actions, key).None? ==> r == (Continue, v)
    ensures r.1.actions == v.actions
    ensures r.1.sent == v.sent || (v.state.Initialized? && r.1.sent == v.sent + [Sleep(v.state.duration)])
  {
    match A.Find(v.actions, key)
    case None => (Continue, v)
    case Some(action) =>
      match action
      case Quit => (Exit, v)
      case Sleep =>
        var d := S.Duration(v.state);
        (Continue, if d.Some? then DispatchStep(v, Sleep(d.value), delivered) else v)
      case IncrementDelay => (Continue, v.(state := S.IncrementDelay(v.state)))
      case DecrementDelay => (Continue, v.(state := S.DecrementDelay(v.state)))
  }

  /** `update_on_tick`: always continue; one more tick in the ready phase. */
  function TickStep(v: Snapshot): (r: (AppReturn, Snapshot))
    ensures r.0 == Continue
    ensures r.1.state == S.IncrTick(v.state)
    ensures r.1.actions == v.actions && r.1.isLoading == v.isLoading && r.1.sent == v.sent
  {
    (Continue, v.(state := S.IncrTick(v.state)))
  }

  /** `initialized`: all four actions become active and the state is reset to
      the fresh ready phase. */
  function InitializedStep(v: Snapshot): (r: Snapshot)
    ensures r.actions.list == A.All() && !A.HasConflict(r.actions.list)
    ensures r.state == S.MakeInitialized()
    ensures Consistent(r)
    ensures r.isLoading == v.isLoading && r.sent == v.sent
  {
    A.AllConflictFree();
    v.(actions := ReadyActions, state := S.MakeInitialized())
  }

  /** `loaded`: the loading flag is cleared. */
  function LoadedStep(v: Snapshot): (r: Snapshot)
    ensures !r.isLoading
    ensures r.actions == v.actions && r.state == v.state && r.sent == v.sent
  {
    v.(isLoading := false)
  }

  /** `slept`: one more sleep recorded in the ready phase. */
  function SleptStep(v: Snapshot): (r: Snapshot)
    ensures r.state == S.IncrSleep(v.state)
    ensures r.actions == v.actions && r.isLoading == v.isLoading && r.sent == v.sent
  {
    v.(state := S.IncrSleep(v.state))
  }

  /** Consistent bindings never conflict. */
  lemma ConsistentIsConflictFree(v: Snapshot)
    requires Consistent(v)
    ensures !A.HasConflict(v.actions.list)
  {
    A.AllConflictFree();
  }

  /** Every step keeps the bindings consistent with the phase. */
  lemma StepsPreserveConsistent(v: Snapshot, key: A.Key, e: IoEvent, delivered: bool)
    requires Consistent(v)
    ensures Consistent(DispatchStep(v, e, delivered))
    ensures Consistent(DoActionStep(v, key, delivered).1)
    ensures Consistent(TickStep(v).1)
    ensures Consistent(InitializedStep(v))
    ensures Consistent(LoadedStep(v))
    ensures Consistent(SleptStep(v))
  {
  }

  /** A Quit key exits in one step in every phase, changing nothing. */
  lemma QuitExitsInAnyPhase(v: Snapshot, key: A.Key, delivered: bool)
    requires Consistent(v) && key in A.Keys(A.Quit)
    ensures DoActionStep(v, key, delivered) == (Exit, v)
  {
    A.FindOwner(v.actions, A.Quit, key);
  }

  /** Before initialization every key but Quit's is ignored: the loop goes
      on and nothing changes. */
  lemma UninitializedIgnoresOtherKeys(v: Snapshot, key: A.Key, delivered: bool)
    requires Consistent(v) && !v.state.Initialized? && key !in A.Keys(A.Quit)
    ensures DoActionStep(v, key, delivered) == (Continue, v)
  {
    A.OnlyQuitBound(key);
  }

  /** Once initialized, each key of each action triggers that action. */
  lemma ReadyBindsEveryAction(v: Snapshot, a: A.Action, key: A.Key)
    requires Consistent(v) && v.state.Initialized? && key in A.Keys(a)
    ensures A.Find(v.actions, key) == Some(a)
  {
    assert A.All()[A.Rank(a)] == a;
    A.FindOwner(v.actions, a, key);
  }

  /** The Sleep action sends a sleep for the current delay when the state
      has one, and otherwise sends nothing and changes nothing. */
  lemma SleepSendsCurrentDelay(v: Snapshot, key: A.Key, delivered: bool)
    requires A.Find(v.actions, key) == Some(A.Sleep)
    ensures DoActionStep(v, key, delivered).0 == Continue
    ensures S.Duration(v.state).None? ==> DoActionStep(v, key, delivered).1 == v
    ensures S.Duration(v.state).Some? ==>
              DoActionStep(v, key, delivered).1 == DispatchStep(v, Sleep(S.Duration(v.state).value), delivered)
  {
  }

  /** The delay actions change only the delay, and keep it within its
      bounds. */
  lemma DelayKeysAdjustOnlyDelay(v: Snapshot, key: A.Key, delivered: bool)
    requires A.Find(v.actions, key) in {Some(A.IncrementDelay), Some(A.DecrementDelay)}
    ensures DoActionStep(v, key, delivered) ==
              (Continue, v.(state := if A.Find(v.actions, key) == Some(A.IncrementDelay)
                                     then S.IncrementDelay(v.state) else S.DecrementDelay(v.state)))
    ensures v.state.Initialized? ==>
              S.MinDelay <= DoActionStep(v, key, delivered).1.state.duration <= S.MaxDelay
  {
  }

  class App {
    var actions: A.Actions
    var state: S.AppState
    var isLoading: bool
    /** The command channel `io_tx`, as the sequence of events sent on it. */
    var ioTx: seq<IoEvent>

    function View(): Snapshot
      reads this
    {
      Snapshot(actions, state, isLoading, ioTx)
    }

    /** `App::new`: only Quit is bound, the state is `Init`, nothing is
        loading and nothing has been sent. */
    constructor ()
      ensures actions == StartActions && state == S.Default()
      ensures !isLoading && ioTx == []
      ensures Consistent(View())
    {
      var bindings := A.FromList([A.Quit]);
      if bindings.Failure? {
        assert false;
      }
      actions := bindings.value;
      state := S.Default();
      isLoading := false;
      ioTx := [];
    }

    /** `dispatch`: raise the loading flag and send; a failed send (the
        receiver is gone) lowers the flag again. */
    method Dispatch(e: IoEvent)
      modifies this
      ensures View() == DispatchStep(old(View()), e, true) || View() == DispatchStep(old(View()), e, false)
    {
      isLoading := true;
      var delivered: bool := *;
      if delivered {
        ioTx := ioTx + [e];
      } else {
        isLoading := false;
      }
    }

    /** `do_action`. */
    method DoAction(key: A.Key) returns (r: AppReturn)
      modifies this
      ensures (r, View()) == DoActionStep(old(View()), key, true) ||
              (r, View()) == DoActionStep(old(View()), key, false)
    {
      var found := A.Find(actions, key);
      if found.None? {
        return Continue;
      }
      match found.value
      case Quit =>
        return Exit;
      case Sleep =>
        var d := S.Duration(state);
        if d.Some? {
          Dispatch(IoEvent.Sleep(d.value));
        }
        r := Continue;
      case IncrementDelay =>
        state := S.IncrementDelay(state);
        r := Continue;
      case DecrementDelay =>
        state := S.DecrementDelay(state);
        r := Continue;
    }

    /** `update_on_tick`. */
    method UpdateOnTick() returns (r: AppReturn)
      modifies this
      ensures (r, View()) == TickStep(old(View()))
    {
      state := S.IncrTick(state);
      r := Continue;
    }

    /** `initialized`: rebuild the bindings with all four actions and reset
        the state to the fresh ready phase. */
    method Initialized()
      modifies this
      ensures View() == InitializedStep(old(View()))
    {
      A.AllConflictFree();
      var bindings := A.FromList([A.Quit, A.Sleep, A.IncrementDelay, A.DecrementDelay]);
      if bindings.Failure? {
        assert false;
      }
      actions := bindings.value;
      state := S.MakeInitialized();
    }

    /** `loaded`. */
    method Loaded()
      modifies this
      ensures View() == LoadedStep(old(View()))
    {
      isLoading := false;
    }

    /** `slept`. */
    method Slept()
      modifies this
      ensures View() == SleptStep(old(View()))
    {
      state := S.IncrSleep(state);
    }
  }
}
