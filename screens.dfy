/** The screens around a session: the main menu (juego.py:76-92), the pause
    and game-over waits (juego.py:171-199) and the program's top loop that
    alternates menu and game (juego.py:202-210). Only the keys and the
    outcomes are modelled; drawing is not. */
module Screens {
  import opened Input
  import opened Session

  /** The menu entries: play, then exit. */
  const Options: seq<string> := ["Jugar", "Salir"]

  /** The menu's answer so far: start a game, leave, or still choosing
      with the highlighted entry. */
  datatype MenuResult = Play | Exit | Choosing(selected: int)

  predicate MovesSelectionUp(ev: Event)
  {
    ev == KeyDown(Up) || ev == KeyDown(KeyW)
  }

  predicate MovesSelectionDown(ev: Event)
  {
    ev == KeyDown(Down) || ev == KeyDown(KeyS)
  }

  predicate Confirms(ev: Event)
  {
    ev == KeyDown(Return) || ev == KeyDown(Space)
  }

  /** The menu after handling `events` in order from highlighted entry
      `selected`. The selection moves modulo the number of entries (for a
      positive modulus Dafny's `%` agrees with Python's); a quit signal
      leaves, and confirming picks the highlighted entry. */
  function MenuAfter(selected: int, events: seq<Event>): (r: MenuResult)
    requires 0 <= selected < |Options|
    ensures r.Choosing? ==> 0 <= r.selected < |Options|
    ensures r.Play? ==> exists i :: 0 <= i < |events| && Confirms(events[i])
    ensures r.Choosing? <==> forall i :: 0 <= i < |events| ==> events[i] != Quit && !Confirms(events[i])
    decreases |events|
  {
    if events == [] then Choosing(selected)
    else
      var ev := events[0];
      if ev.Quit? then Exit
      else if MovesSelectionUp(ev) then MenuAfter((selected - 1) % |Options|, events[1..])
      else if MovesSelectionDown(ev) then MenuAfter((selected + 1) % |Options|, events[1..])
      else if Confirms(ev) then (if Options[selected] == "Jugar" then Play else Exit)
      else MenuAfter(selected, events[1..])
  }

  /** The menu loop, starting on the first entry. */
  method RunMenu(events: seq<Event>) returns (r: MenuResult)
    ensures r == MenuAfter(0, events)
    ensures r.Choosing? ==> 0 <= r.selected < |Options|
  {
    var selected := 0;
    var i := 0;
    while i < |events|
      invariant 0 <= i <= |events|
      invariant 0 <= selected < |Options|
      invariant MenuAfter(0, events) == MenuAfter(selected, events[i..])
    {
      assert events[i..][1..] == events[i + 1..];
      var ev := events[i];
      if ev.Quit? {
        return Exit;
      }
      if ev.KeyDown? {
        if ev.key == Up || ev.key == KeyW {
          selected := (selected - 1) % |Options|;
        } else if ev.key == Down || ev.key == KeyS {
          selected := (selected + 1) % |Options|;
        } else if ev.key == Return || ev.key == Space {
          if Options[selected] == "Jugar" {
            return Play;
          } else {
            return Exit;
          }
        }
      }
      i := i + 1;
    }
    return Choosing(selected);
  }

  /** Confirming starts a game exactly when the first entry is highlighted. */
  lemma ConfirmPicksHighlighted(selected: int, ev: Event, rest: seq<Event>)
    requires 0 <= selected < |Options| && Confirms(ev)
    ensures MenuAfter(selected, [ev] + rest) == if selected == 0 then Play else Exit
  {
  }

  /** A quit signal leaves the menu with the exit outcome, whatever follows. */
  lemma QuitExits(selected: int, rest: seq<Event>)
    requires 0 <= selected < |Options|
    ensures MenuAfter(selected, [Quit] + rest) == Exit
  {
  }

  /** A script split in two: the second part is read from the selection the
      first part left, unless the first part already decided the outcome. */
  lemma {:induction false} MenuAfterAppend(selected: int, a: seq<Event>, b: seq<Event>)
    requires 0 <= selected < |Options|
    ensures MenuAfter(selected, a + b) ==
              if MenuAfter(selected, a).Choosing?
              then MenuAfter(MenuAfter(selected, a).selected, b)
              else MenuAfter(selected, a)
    decreases |a|
  {
    if a == [] {
      assert a + b == b;
    } else {
      assert (a + b)[0] == a[0];
      assert (a + b)[1..] == a[1..] + b;
      var ev := a[0];
      if ev.Quit? {
      } else if MovesSelectionUp(ev) {
        MenuAfterAppend((selected - 1) % |Options|, a[1..], b);
      } else if MovesSelectionDown(ev) {
        MenuAfterAppend((selected + 1) % |Options|, a[1..], b);
      } else if Confirms(ev) {
      } else {
        MenuAfterAppend(selected, a[1..], b);
      }
    }
  }

  /** Moving up from the first entry wraps around to the last one. */
  lemma UpFromTopWraps()
    ensures MenuAfter(0, [KeyDown(Up)]) == Choosing(1)
  {
  }

  /** Up then down returns to the same entry. */
  lemma UpThenDownCancel(selected: int, rest: seq<Event>)
    requires 0 <= selected < |Options|
    ensures MenuAfter(selected, [KeyDown(Up), KeyDown(Down)] + rest) == MenuAfter(selected, rest)
  {
    var evs := [KeyDown(Up), KeyDown(Down)] + rest;
    assert evs[1..] == [KeyDown(Down)] + rest;
    assert evs[1..][1..] == rest;
  }

  /** Net number of selection moves: +1 per down key, -1 per up key. */
  function NetMoves(events: seq<Event>): int
  {
    if events == [] then 0
    else
      (if MovesSelectionDown(events[0]) then 1 else if MovesSelectionUp(events[0]) then -1 else 0)
      + NetMoves(events[1..])
  }

  /** While still choosing, the highlighted entry is the start entry moved
      by the net number of moves, around the menu. */
  lemma {:induction false} SelectionIsNetMoves(selected: int, events: seq<Event>)
    requires 0 <= selected < |Options|
    requires MenuAfter(selected, events).Choosing?
    ensures MenuAfter(selected, events).selected == (selected + NetMoves(events)) % |Options|
    decreases |events|
  {
    if events != [] {
      var ev := events[0];
      var next :=
        if MovesSelectionUp(ev) then (selected - 1) % |Options|
        else if MovesSelectionDown(ev) then (selected + 1) % |Options|
        else selected;
      SelectionIsNetMoves(next, events[1..]);
      var delta := if MovesSelectionDown(ev) then 1 else if MovesSelectionUp(ev) then -1 else 0;
      ModuloShift(selected + delta, NetMoves(events[1..]));
    }
  }

  /** Reducing before adding does not change the result modulo 2. */
  lemma ModuloShift(a: int, b: int)
    ensures (a % 2 + b) % 2 == (a + b) % 2
  {
    var q := a / 2;
    assert a == 2 * q + a % 2;
    assert a + b == 2 * q + (a % 2 + b);
  }

  /** The pause screen ends on the pause key, Escape, or a quit signal. */
  predicate EndsPause(ev: Event)
  {
    ev.Quit? || ev == KeyDown(KeyP) || ev == KeyDown(Escape)
  }

  /** Whether the pause screen has ended after `events`. Whatever ended it,
      play resumes: not even a quit signal leaves the game from here. */
  function PauseEnded(events: seq<Event>): (ended: bool)
    ensures ended <==> exists i :: 0 <= i < |events| && EndsPause(events[i])
  {
    events != [] && (EndsPause(events[0]) || PauseEnded(events[1..]))
  }

  /** Whether the game-over screen has ended after `events`: any key press
      or a quit signal ends it, and then it is back to the menu. */
  function GameOverEnded(events: seq<Event>): (ended: bool)
    ensures ended <==> exists i :: 0 <= i < |events| && (events[i].Quit? || events[i].KeyDown?)
  {
    events != [] && (events[0].Quit? || events[0].KeyDown? || GameOverEnded(events[1..]))
  }

  /** Where the program's top loop is. */
  datatype Screen = AtMenu | InGame | Closed

  /** The top loop after a menu answer: a game starts on play, the program
      closes on exit, and the menu stays while still choosing. */
  function AfterMenu(r: MenuResult): (next: Screen)
    ensures next == InGame <==> r == Play
    ensures next == Closed <==> r == Exit
  {
    match r
    case Play => InGame
    case Exit => Closed
    case Choosing(_) => AtMenu
  }

  /** The top loop after a game frame: the program closes only on a quit,
      and a game over always returns to the menu. */
  function AfterGame(o: Outcome): (next: Screen)
    ensures next == Closed <==> o == QuitGame
    ensures next == AtMenu <==> o == BackToMenu
  {
    match o
    case Continue => InGame
    case QuitGame => Closed
    case BackToMenu => AtMenu
  }
}
