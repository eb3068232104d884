/** The input edge-state machine (Input.hpp): every key and mouse button is
    UP, JUST_BECAME_DOWN, DOWN or JUST_BECAME_UP.  A press or release event
    sets the edge state and records the key in the frame's transition list;
    `LateUpdate` turns each edge into the steady state; `BeginFrame` clears
    the transition lists and the scroll delta.  Keys are SDL scancodes and
    buttons SDL button numbers, both modelled as `int`. */
module Input {

  datatype InputState = Up | JustBecameDown | Down | JustBecameUp

  /** The SDL events `ProcessEvent` handles; everything else is `OtherEvent`. */
  datatype InputEvent =
    | KeyPressed(code: int)
    | KeyReleased(code: int)
    | ButtonPressed(button: int)
    | ButtonReleased(button: int)
    | MouseMotion(x: real, y: real)
    | MouseWheel(dy: real)
    | OtherEvent

  /** The state of a key; a key never seen is UP (the map's default value). */
  function StateOf(states: map<int, InputState>, code: int): InputState
  {
    if code in states then states[code] else Up
  }

  /** `GetKey` / `GetMouseButton`: DOWN or JUST_BECAME_DOWN. */
  predicate Held(s: InputState)
  {
    s == Down || s == JustBecameDown
  }

  /** `GetKeyDown` / `GetMouseButtonDown`. */
  predicate Pressed(s: InputState)
  {
    s == JustBecameDown
  }

  /** `GetKeyUp` / `GetMouseButtonUp`. */
  predicate Released(s: InputState)
  {
    s == JustBecameUp
  }

  /** The transition of Input.hpp:101-108: settling ends every edge and
      keeps whether the key is held; a steady state stays put (so settling
      twice is settling once). */
  function Settle(s: InputState): (r: InputState)
    ensures Held(r) <==> Held(s)
    ensures !Pressed(r) && !Released(r)
    ensures !Pressed(s) && !Released(s) ==> r == s
  {
    match s
    case JustBecameDown => Down
    case JustBecameUp => Up
    case _ => s
  }

  /** `LateUpdate` on one map: every key settled, no key added. */
  function SettleAll(states: map<int, InputState>): (r: map<int, InputState>)
    ensures r.Keys == states.Keys
  {
    map k | k in states :: Settle(states[k])
  }

  /** After `LateUpdate` no key reports a press or a release, and every key
      still reports the same `GetKey`. */
  lemma LateUpdateQueries(states: map<int, InputState>, code: int)
    ensures !Pressed(StateOf(SettleAll(states), code))
    ensures !Released(StateOf(SettleAll(states), code))
    ensures Held(StateOf(SettleAll(states), code)) <==> Held(StateOf(states, code))
    ensures StateOf(SettleAll(states), code) == Settle(StateOf(states, code))
  {
  }

  /** A snapshot of the static members of `Input`. */
  datatype Snapshot = Snapshot(
    keyStates: map<int, InputState>,
    justBecameDown: seq<int>,
    justBecameUp: seq<int>,
    mouseX: real,
    mouseY: real,
    mouseButtonStates: map<int, InputState>,
    mouseButtonsJustDown: seq<int>,
    mouseButtonsJustUp: seq<int>,
    scroll: real)

  /** `ProcessEvent` on a snapshot: the transition lists only grow, by at
      most one entry in all; only the event's own key or button can join a
      state map; an event it does not handle changes nothing. */
  function Processed(s: Snapshot, e: InputEvent): (r: Snapshot)
    ensures s.justBecameDown <= r.justBecameDown && s.justBecameUp <= r.justBecameUp
    ensures s.mouseButtonsJustDown <= r.mouseButtonsJustDown && s.mouseButtonsJustUp <= r.mouseButtonsJustUp
    ensures |r.justBecameDown| + |r.justBecameUp| + |r.mouseButtonsJustDown| + |r.mouseButtonsJustUp|
            <= |s.justBecameDown| + |s.justBecameUp| + |s.mouseButtonsJustDown| + |s.mouseButtonsJustUp| + 1
    ensures forall k :: k in r.keyStates <==> k in s.keyStates || ((e.KeyPressed? || e.KeyReleased?) && e.code == k)
    ensures forall b :: b in r.mouseButtonStates <==>
      b in s.mouseButtonStates || ((e.ButtonPressed? || e.ButtonReleased?) && e.button == b)
    ensures e.OtherEvent? ==> r == s
  {
    match e
    case KeyPressed(c) =>
      s.(keyStates := s.keyStates[c := JustBecameDown], justBecameDown := s.justBecameDown + [c])
    case KeyReleased(c) =>
      s.(keyStates := s.keyStates[c := JustBecameUp], justBecameUp := s.justBecameUp + [c])
    case ButtonPressed(b) =>
      s.(mouseButtonStates := s.mouseButtonStates[b := JustBecameDown],
         mouseButtonsJustDown := s.mouseButtonsJustDown + [b])
    case ButtonReleased(b) =>
      s.(mouseButtonStates := s.mouseButtonStates[b := JustBecameUp],
         mouseButtonsJustUp := s.mouseButtonsJustUp + [b])
    case MouseMotion(x, y) => s.(mouseX := x, mouseY := y)
    case MouseWheel(dy) => s.(scroll := dy)
    case OtherEvent => s
  }

  /** A press makes the key report held and pressed this frame, a release
      makes it report released and not held; no other key or button is
      touched. */
  lemma ProcessedEdges(s: Snapshot, e: InputEvent, code: int)
    ensures e.KeyPressed? && e.code == code ==>
      var t := StateOf(Processed(s, e).keyStates, code); Held(t) && Pressed(t) && !Released(t)
    ensures e.KeyReleased? && e.code == code ==>
      var t := StateOf(Processed(s, e).keyStates, code); !Held(t) && Released(t) && !Pressed(t)
    ensures e.ButtonPressed? && e.button == code ==>
      var t := StateOf(Processed(s, e).mouseButtonStates, code); Held(t) && Pressed(t) && !Released(t)
    ensures e.ButtonReleased? && e.button == code ==>
      var t := StateOf(Processed(s, e).mouseButtonStates, code); !Held(t) && Released(t) && !Pressed(t)
    ensures !((e.KeyPressed? || e.KeyReleased?) && e.code == code) ==>
      StateOf(Processed(s, e).keyStates, code) == StateOf(s.keyStates, code)
    ensures !((e.ButtonPressed? || e.ButtonReleased?) && e.button == code) ==>
      StateOf(Processed(s, e).mouseButtonStates, code) == StateOf(s.mouseButtonStates, code)
  {
  }

  /** All of a frame's events in order. */
  function ProcessedAll(s: Snapshot, events: seq<InputEvent>): Snapshot
    decreases |events|
  {
    if |events| == 0 then s else ProcessedAll(Processed(s, events[0]), events[1..])
  }

  /** The key events about one key among a frame's events. */
  function KeyEventsOf(events: seq<InputEvent>, code: int): seq<InputEvent>
    decreases |events|
  {
    if |events| == 0 then []
    else (if (events[0].KeyPressed? || events[0].KeyReleased?) && events[0].code == code
          then [events[0]] else []) + KeyEventsOf(events[1..], code)
  }

  /** Within a frame the last press or release of a key decides its state;
      with none the key keeps its state. */
  lemma {:induction false} LastKeyEventDecides(s: Snapshot, events: seq<InputEvent>, code: int)
    ensures var ks := KeyEventsOf(events, code);
      StateOf(ProcessedAll(s, events).keyStates, code) ==
        if |ks| == 0 then StateOf(s.keyStates, code)
        else if ks[|ks| - 1].KeyPressed? then JustBecameDown
        else JustBecameUp
    decreases |events|
  {
    if |events| > 0 {
      ProcessedEdges(s, events[0], code);
      LastKeyEventDecides(Processed(s, events[0]), events[1..], code);
    }
  }

  /** The keyboard and mouse state (the static members of `Input`). */
  class InputSystem {
    var keyStates: map<int, InputState>
    var justBecameDown: seq<int>
    var justBecameUp: seq<int>
    var mouseX: real
    var mouseY: real
    var mouseButtonStates: map<int, InputState>
    var mouseButtonsJustDown: seq<int>
    var mouseButtonsJustUp: seq<int>
    var mouseScrollThisFrame: real

    function State(): Snapshot
      reads this
    {
      Snapshot(keyStates, justBecameDown, justBecameUp, mouseX, mouseY,
               mouseButtonStates, mouseButtonsJustDown, mouseButtonsJustUp, mouseScrollThisFrame)
    }

    /** The static initialisers: nothing pressed, scroll 0. */
    constructor ()
      ensures State() == Snapshot(map[], [], [], 0.0, 0.0, map[], [], [], 0.0)
    {
      keyStates, justBecameDown, justBecameUp := map[], [], [];
      mouseX, mouseY := 0.0, 0.0;
      mouseButtonStates, mouseButtonsJustDown, mouseButtonsJustUp := map[], [], [];
      mouseScrollThisFrame := 0.0;
    }

    /** `Input::Init` is documented as doing nothing. */
    method Init()
      ensures State() == old(State())
    {
    }

    /** `Input::BeginFrame`: the four transition lists and the scroll delta
        are cleared; the states are kept. */
    method BeginFrame()
      modifies this
      ensures State() == old(State()).(justBecameDown := [], justBecameUp := [],
                                       mouseButtonsJustDown := [], mouseButtonsJustUp := [], scroll := 0.0)
    {
      justBecameDown, justBecameUp := [], [];
      mouseButtonsJustDown, mouseButtonsJustUp := [], [];
      mouseScrollThisFrame := 0.0;
    }

    /** `Input::ProcessEvent`. */
    method ProcessEvent(e: InputEvent)
      modifies this
      ensures State() == Processed(old(State()), e)
    {
      match e
      case KeyPressed(c) =>
        keyStates := keyStates[c := JustBecameDown];
        justBecameDown := justBecameDown + [c];
      case KeyReleased(c) =>
        keyStates := keyStates[c := JustBecameUp];
        justBecameUp := justBecameUp + [c];
      case ButtonPressed(b) =>
        mouseButtonStates := mouseButtonStates[b := JustBecameDown];
        mouseButtonsJustDown := mouseButtonsJustDown + [b];
      case ButtonReleased(b) =>
        mouseButtonStates := mouseButtonStates[b := JustBecameUp];
        mouseButtonsJustUp := mouseButtonsJustUp + [b];
      case MouseMotion(x, y) =>
        mouseX, mouseY := x, y;
      case MouseWheel(dy) =>
        mouseScrollThisFrame := dy;
      case OtherEvent =>
    }

    /** `Input::LateUpdate`: every key and button settled. */
    method LateUpdate()
      modifies this
      ensures keyStates == SettleAll(old(keyStates))
      ensures mouseButtonStates == SettleAll(old(mouseButtonStates))
      ensures State() == old(State()).(keyStates := keyStates, mouseButtonStates := mouseButtonStates)
    {
      keyStates := SettleAll(keyStates);
      mouseButtonStates := SettleAll(mouseButtonStates);
    }

    /** `GetKey`: DOWN or JUST_BECAME_DOWN. */
    function GetKey(code: int): (b: bool)
      reads this
      ensures b <==> StateOf(keyStates, code) in {Down, JustBecameDown}
    {
      Held(StateOf(keyStates, code))
    }

    /** `GetKeyDown`: JUST_BECAME_DOWN, so the key is also held and not
        released. */
    function GetKeyDown(code: int): (b: bool)
      reads this
      ensures b <==> StateOf(keyStates, code) == JustBecameDown
      ensures b ==> GetKey(code) && !GetKeyUp(code)
    {
      Pressed(StateOf(keyStates, code))
    }

    /** `GetKeyUp`: JUST_BECAME_UP, so the key is not held. */
    function GetKeyUp(code: int): (b: bool)
      reads this
      ensures b <==> StateOf(keyStates, code) == JustBecameUp
      ensures b ==> !GetKey(code)
    {
      Released(StateOf(keyStates, code))
    }

    /** `GetMouseButton`: DOWN or JUST_BECAME_DOWN. */
    function GetMouseButton(button: int): (b: bool)
      reads this
      ensures b <==> StateOf(mouseButtonStates, button) in {Down, JustBecameDown}
    {
      Held(StateOf(mouseButtonStates, button))
    }

    /** `GetMouseButtonDown`: JUST_BECAME_DOWN, so the button is also held
        and not released. */
    function GetMouseButtonDown(button: int): (b: bool)
      reads this
      ensures b <==> StateOf(mouseButtonStates, button) == JustBecameDown
      ensures b ==> GetMouseButton(button) && !GetMouseButtonUp(button)
    {
      Pressed(StateOf(mouseButtonStates, button))
    }

    /** `GetMouseButtonUp`: JUST_BECAME_UP, so the button is not held. */
    function GetMouseButtonUp(button: int): (b: bool)
      reads this
      ensures b <==> StateOf(mouseButtonStates, button) == JustBecameUp
      ensures b ==> !GetMouseButton(button)
    {
      Released(StateOf(mouseButtonStates, button))
    }

    function GetMouseScrollDelta(): real
      reads this
    {
      mouseScrollThisFrame
    }
  }
}
