/** The tab navigation of the terminal UI's main loop (src/main.rs): the
    menu items and their numbering, and the loop that moves the active tab
    with 'h'/'l', selects it with Enter, clears the selection with Esc and
    ends on 'q'. Drawing, raw mode and the input thread are not modelled:
    the loop receives its events as a sequence. */
module Menu {
  import opened Wrappers

  datatype MenuItem = Projects | Tickets | Help

  /** `MenuItem::as_usize`: the tab number, 0 to 2. */
  function AsUsize(m: MenuItem): (r: nat)
    ensures r <= 2
  {
    match m
    case Projects => 0
    case Tickets => 1
    case Help => 2
  }

  /** `MenuItem::from_usize`: the item with that tab number, if any. */
  function FromUsize(n: nat): (r: Option<MenuItem>)
    ensures r.None? <==> n > 2
    ensures r.Some? ==> AsUsize(r.value) == n
  {
    match n
    case 0 => Some(Projects)
    case 1 => Some(Tickets)
    case 2 => Some(Help)
    case _ => None
  }

  /** Numbering an item and looking the number up gives the item back. */
  lemma FromUsizeAsUsize(m: MenuItem)
    ensures FromUsize(AsUsize(m)) == Some(m)
  {
  }

  /** `TryFrom<MenuItem> for usize`: always succeeds, with the tab number. */
  function TryFromMenuItem(m: MenuItem): (r: Result<nat, ()>)
    ensures r == Success(AsUsize(m))
  {
    match m
    case Projects => Success(0)
    case Tickets => Success(1)
    case Help => Success(2)
  }

  /** The key code of a key press; every code the loop does not tell apart
      is `Other`. */
  datatype KeyCode = Char(c: char) | Enter | Esc | Other

  /** What the input thread delivers: a key press or a tick. */
  datatype Event = Input(code: KeyCode) | Tick

  /** The loop's two variables: `active_menu_item` and `selected_pane`. */
  datatype Nav = Nav(active: MenuItem, selected: Option<MenuItem>)

  /** How the loop starts: on Projects, nothing selected. */
  const Start: Nav := Nav(Projects, None)

  const QuitKey: Event := Input(Char('q'))

  /** The tab to the left, staying on the first one. */
  function Left(m: MenuItem): MenuItem {
    match m
    case Projects => Projects
    case Tickets => Projects
    case Help => Tickets
  }

  /** The tab to the right, staying on the last one. */
  function Right(m: MenuItem): MenuItem {
    match m
    case Projects => Tickets
    case Tickets => Help
    case Help => Help
  }

  /** One event other than 'q', by reference: 'h' and 'l' move the active tab
      with saturation while nothing is selected, Enter selects the active tab
      when nothing is selected, Esc clears the selection, anything else
      changes nothing. */
  function Step(n: Nav, ev: Event): (r: Nav)
    ensures ev == Input(Char('h')) && n.selected.None? ==>
              r.selected.None? && AsUsize(r.active) == if AsUsize(n.active) > 0 then AsUsize(n.active) - 1 else 0
    ensures ev == Input(Char('l')) && n.selected.None? ==>
              r.selected.None? && AsUsize(r.active) == if AsUsize(n.active) < 2 then AsUsize(n.active) + 1 else 2
    ensures ev in {Input(Char('h')), Input(Char('l'))} && n.selected.Some? ==> r == n
    ensures ev == Input(Enter) ==> r.active == n.active && r.selected == if n.selected.None? then Some(n.active) else n.selected
    ensures ev == Input(Esc) ==> r == n.(selected := None)
    ensures ev !in {Input(Char('h')), Input(Char('l')), Input(Enter), Input(Esc)} ==> r == n
  {
    match ev
    case Tick => n
    case Input(code) =>
      if code == Char('h') && n.selected.None? then n.(active := Left(n.active))
      else if code == Char('l') && n.selected.None? then n.(active := Right(n.active))
      else if code == Enter && n.selected.None? then n.(selected := Some(n.active))
      else if code == Esc then n.(selected := None)
      else n
  }

  /** A selected pane is always the active tab. */
  predicate Coherent(n: Nav) {
    n.selected.Some? ==> n.selected.value == n.active
  }

  lemma StepPreservesCoherent(n: Nav, ev: Event)
    requires Coherent(n)
    ensures Coherent(Step(n, ev))
  {
  }

  /** The navigation after the events, oldest first. */
  function Replay(n: Nav, events: seq<Event>): Nav {
    if events == [] then n else Step(Replay(n, events[..|events| - 1]), events[|events| - 1])
  }

  /** Any sequence of events keeps the selection coherent. */
  lemma {:induction false} ReplayCoherent(n: Nav, events: seq<Event>)
    requires Coherent(n)
    ensures Coherent(Replay(n, events))
  {
    if events != [] {
      ReplayCoherent(n, events[..|events| - 1]);
      StepPreservesCoherent(Replay(n, events[..|events| - 1]), events[|events| - 1]);
    }
  }

  /** How the loop ends: on the 'q' at position `at`, or when the event
      stream is exhausted (the channel's `recv` fails). */
  datatype LoopEnd = QuitAt(at: nat) | Disconnected

  /** The main loop's event handling: step the two variables per event, and
      stop at the first 'q'. */
  method MainLoop(events: seq<Event>) returns (end: LoopEnd, nav: Nav)
    ensures end.QuitAt? ==> end.at < |events| && events[end.at] == QuitKey
    ensures end.QuitAt? ==> forall j :: 0 <= j < end.at ==> events[j] != QuitKey
    ensures end.QuitAt? ==> nav == Replay(Start, events[..end.at])
    ensures end.Disconnected? ==> forall j :: 0 <= j < |events| ==> events[j] != QuitKey
    ensures end.Disconnected? ==> nav == Replay(Start, events)
    ensures Coherent(nav)
  {
    var activeMenuItem := Projects;
    var selectedPane: Option<MenuItem> := None;
    var i := 0;
    while i < |events|
      invariant 0 <= i <= |events|
      invariant forall j :: 0 <= j < i ==> events[j] != QuitKey
      invariant Nav(activeMenuItem, selectedPane) == Replay(Start, events[..i])
      invariant Coherent(Nav(activeMenuItem, selectedPane))
    {
      assert events[..i + 1][..i] == events[..i];
      match events[i] {
        case Input(code) =>
          if code == Char('q') {
            return QuitAt(i), Nav(activeMenuItem, selectedPane);
          } else if code == Char('h') {
            if selectedPane.None? {
              if AsUsize(activeMenuItem) > AsUsize(Projects) {
                var tabNo := AsUsize(activeMenuItem) - 1;
                activeMenuItem := FromUsize(tabNo).value;
              } else {
                activeMenuItem := Projects;
              }
            }
          } else if code == Char('l') {
            if selectedPane.None? {
              if AsUsize(activeMenuItem) < AsUsize(Help) {
                var tabNo := AsUsize(activeMenuItem) + 1;
                activeMenuItem := FromUsize(tabNo).value;
              } else {
                activeMenuItem := Help;
              }
            }
          } else if code == Enter {
            if selectedPane.None? {
              selectedPane := Some(activeMenuItem);
            }
          } else if code == Esc {
            if selectedPane.Some? {
              selectedPane := None;
            }
          }
        case Tick =>
      }
      i := i + 1;
    }
    assert events[..i] == events;
    return Disconnected, Nav(activeMenuItem, selectedPane);
  }
}
