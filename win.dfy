/**
  Window event listeners and the tokens that remove them.

  `on` wraps one handler in a single closure, attaches it to every event of a
  list and hands back a `DropToken`. The token owns a reference-counted cell
  holding the cleanup closure; clones share that cell, and dropping any of them
  runs the cleanup, which detaches the closure from every event and then empties
  the shared slot, so later runs find nothing to do.
*/
module Win {
  import opened Wrappers

  /** `MOUSE_EVENTS`: the six mouse event names the cursor readers listen to. */
  const MouseEvents: seq<string> := ["mousemove", "mousedown", "mouseup", "click", "dblclick", "contextmenu"]

  /** The six names are pairwise distinct. */
  lemma MouseEventsDistinct()
    ensures |MouseEvents| == 6
    ensures forall i, j :: 0 <= i < j < |MouseEvents| ==> MouseEvents[i] != MouseEvents[j]
  {
  }

  /** A value thrown on the JavaScript side; only its identity matters here. */
  datatype JsValue = JsValue(text: string)

  /** `Error`: the failures the window helpers report. */
  datatype Error =
    | PropertyAccessFailure(value: JsValue)
    | EventListenerAttachmentFailure(value: JsValue)
    | MissingWindow
    | MissingDocument
    | MissingDocumentElement
    | UnsupportedConvertionToF64

  /** A JavaScript function object: the `Closure` that wraps one event handler.
      Two listeners are the same function exactly when they are the same object. */
  class Listener {
    constructor() {}
  }

  /** A call the code made on the window. */
  datatype Call = Add(event: string, listener: Listener) | Remove(event: string, listener: Listener)

  /** The browser window, reduced to its event listener registry. Registering a
      function that is already registered for an event adds nothing; events
      named in `refusals` make `addEventListener` throw the given value. Every
      call is appended to `calls`. */
  class Window {
    var listeners: set<(string, Listener)>
    var calls: seq<Call>
    const refusals: map<string, JsValue>

    constructor(refusals: map<string, JsValue>)
      ensures listeners == {} && calls == [] && this.refusals == refusals
    {
      listeners := {};
      calls := [];
      this.refusals := refusals;
    }

    /** `add_event_listener_with_callback`. */
    method AddEventListener(event: string, l: Listener) returns (r: Result<(), JsValue>)
      modifies this
      ensures event in refusals ==> r == Err(refusals[event]) && listeners == old(listeners)
      ensures event !in refusals ==> r == Ok(()) && listeners == old(listeners) + {(event, l)}
      ensures calls == old(calls) + [Add(event, l)]
    {
      calls := calls + [Add(event, l)];
      if event in refusals {
        return Err(refusals[event]);
      }
      listeners := listeners + {(event, l)};
      return Ok(());
    }

    /** `remove_event_listener_with_callback`: removing an absent listener does nothing. */
    method RemoveEventListener(event: string, l: Listener)
      modifies this
      ensures listeners == old(listeners) - {(event, l)}
      ensures calls == old(calls) + [Remove(event, l)]
    {
      calls := calls + [Remove(event, l)];
      listeners := listeners - {(event, l)};
    }
  }

  /** The registrations of `l` for the events of a list. */
  function Pairs(events: seq<string>, l: Listener): (ps: set<(string, Listener)>)
    ensures forall e :: (e, l) in ps <==> e in events
    ensures forall p :: p in ps ==> p.1 == l
  {
    set e | e in events :: (e, l)
  }

  /** The calls that add `l` for each event of a list, in list order. */
  function Additions(events: seq<string>, l: Listener): (cs: seq<Call>)
    ensures |cs| == |events|
    ensures forall i :: 0 <= i < |events| ==> cs[i] == Add(events[i], l)
  {
    seq(|events|, i requires 0 <= i < |events| => Add(events[i], l))
  }

  /** The calls that remove `l` for each event of a list, in list order. */
  function Removals(events: seq<string>, l: Listener): (cs: seq<Call>)
    ensures |cs| == |events|
    ensures forall i :: 0 <= i < |events| ==> cs[i] == Remove(events[i], l)
  {
    seq(|events|, i requires 0 <= i < |events| => Remove(events[i], l))
  }

  /** The position of the first event the window refuses, or the length of the
      list when it refuses none. */
  function FirstRefusal(events: seq<string>, refusals: map<string, JsValue>): (k: nat)
    ensures k <= |events|
    ensures forall i :: 0 <= i < k ==> events[i] !in refusals
    ensures k < |events| ==> events[k] in refusals
  {
    if events == [] then 0
    else if events[0] in refusals then 0
    else 1 + FirstRefusal(events[1..], refusals)
  }

  /** `Rc<RefCell<Option<Closure>>>`: the slot shared by `on` and its cleanup. */
  class ClosureSlot {
    var closure: Option<Listener>

    constructor(l: Listener)
      ensures closure == Some(l)
    {
      closure := Some(l);
    }
  }

  /** The boxed `FnMut()` a token runs on drop. The only one built in this code
      is the cleanup of `on`, which captures the window, the event list and the
      shared slot. */
  datatype Cleanup = RemoveListeners(win: Window, events: seq<string>, slot: ClosureSlot)

  /** The registry after a cleanup run that finds `closure` in the slot. */
  function Cleaned(listeners: set<(string, Listener)>, closure: Option<Listener>, events: seq<string>)
    : (r: set<(string, Listener)>)
    ensures closure.None? ==> r == listeners
    ensures closure.Some? ==> forall e :: (e, closure.value) in r <==> (e, closure.value) in listeners && e !in events
    ensures r <= listeners
    ensures forall p | p in listeners :: p in r <==> !(closure.Some? && p.1 == closure.value && p.0 in events)
  {
    if closure.None? then listeners else listeners - Pairs(events, closure.value)
  }

  /** The calls a cleanup run makes when it finds `closure` in the slot. */
  function CleanupCalls(closure: Option<Listener>, events: seq<string>): (cs: seq<Call>)
    ensures closure.None? ==> cs == []
    ensures closure.Some? ==> cs == Removals(events, closure.value)
  {
    if closure.None? then [] else Removals(events, closure.value)
  }

  /** Runs the cleanup closure of `on`. When the slot is empty it returns without
      touching the window; otherwise it removes the closure from every event, in
      list order, and then empties the slot. */
  method RunCleanup(c: Cleanup)
    modifies c.win, c.slot
    ensures c.slot.closure == None
    ensures c.win.listeners == Cleaned(old(c.win.listeners), old(c.slot.closure), c.events)
    ensures c.win.calls == old(c.win.calls) + CleanupCalls(old(c.slot.closure), c.events)
  {
    if c.slot.closure.None? {
      return;
    }
    var l := c.slot.closure.value;
    for i := 0 to |c.events|
      invariant c.slot.closure == Some(l)
      invariant c.win.listeners == old(c.win.listeners) - Pairs(c.events[..i], l)
      invariant c.win.calls == old(c.win.calls) + Removals(c.events[..i], l)
    {
      assert c.events[..i + 1] == c.events[..i] + [c.events[i]];
      assert Removals(c.events[..i + 1], l) == Removals(c.events[..i], l) + [Remove(c.events[i], l)];
      c.win.RemoveEventListener(c.events[i], l);
    }
    assert c.events[..|c.events|] == c.events;
    c.slot.closure := None;
  }

  /** `Rc<RefCell<Box<dyn FnMut()>>>`: the cell every clone of a token shares.
      `owners` is the strong count and `borrowed` the `RefCell`'s borrow flag. */
  class CleanupCell {
    const cleanup: Cleanup
    var owners: nat
    var borrowed: bool

    constructor(cleanup: Cleanup)
      ensures this.cleanup == cleanup && owners == 1 && !borrowed
    {
      this.cleanup := cleanup;
      owners := 1;
      borrowed := false;
    }
  }

  /** `DropToken`: an optional shared cleanup cell. */
  datatype DropToken = DropToken(cell: Option<CleanupCell>)

  /** What dropping a token may change: its cell, and the window and slot its
      cleanup captured. */
  function Footprint(t: DropToken): set<object> {
    if t.cell.None? then {}
    else {t.cell.value as object, t.cell.value.cleanup.win as object, t.cell.value.cleanup.slot as object}
  }

  /** `from_static_dyn_fn_mut_box`: a token owning a new cell around `f`. */
  method FromStaticDynFnMutBox(f: Cleanup) returns (t: DropToken)
    ensures t.cell.Some? && fresh(t.cell.value)
    ensures t.cell.value.cleanup == f && t.cell.value.owners == 1 && !t.cell.value.borrowed
  {
    var cell := new CleanupCell(f);
    t := DropToken(Some(cell));
  }

  /** `to_owned`: a token sharing the same cell, whose strong count goes up; an
      empty token clones to an empty token. */
  method ToOwned(t: DropToken) returns (u: DropToken)
    modifies if t.cell.Some? then {t.cell.value} else {}
    ensures u == t
    ensures t.cell.Some? ==> t.cell.value.owners == old(t.cell.value.owners) + 1
    ensures t.cell.Some? ==> t.cell.value.borrowed == old(t.cell.value.borrowed)
  {
    if t.cell.Some? {
      var c := t.cell.value;
      c.owners := c.owners + 1;
      u := DropToken(Some(c));
    } else {
      u := DropToken(None);
    }
  }

  /** `Drop for DropToken`. An empty token does nothing. A cell whose borrow flag
      is set skips disposal. Otherwise the cell is locked, the cleanup runs and the
      lock is released. In every case with a cell, the token's share of it is
      released. Dropping ANY clone runs the cleanup, not only the last one. */
  method Drop(t: DropToken)
    requires t.cell.Some? ==> t.cell.value.owners >= 1
    modifies Footprint(t)
    ensures t.cell.Some? ==> t.cell.value.owners == old(t.cell.value.owners) - 1
    ensures t.cell.Some? ==> t.cell.value.borrowed == old(t.cell.value.borrowed)
    ensures t.cell.Some? && old(t.cell.value.borrowed) ==>
      var c := t.cell.value.cleanup;
      c.win.listeners == old(c.win.listeners) && c.win.calls == old(c.win.calls)
      && c.slot.closure == old(c.slot.closure)
    ensures t.cell.Some? && !old(t.cell.value.borrowed) ==>
      var c := t.cell.value.cleanup;
      c.slot.closure == None
      && c.win.listeners == Cleaned(old(c.win.listeners), old(c.slot.closure), c.events)
      && c.win.calls == old(c.win.calls) + CleanupCalls(old(c.slot.closure), c.events)
  {
    if t.cell.None? {
      return;
    }
    var cell := t.cell.value;
    if !cell.borrowed {
      cell.borrowed := true;
      RunCleanup(cell.cleanup);
      cell.borrowed := false;
    }
    cell.owners := cell.owners - 1;
  }

  /** Two tokens sharing one cell, both dropped: whichever order, the cleanup's
      removals happen exactly once, and both shares are released. */
  method DropBoth(t: DropToken, u: DropToken)
    requires t.cell.Some? && u.cell == t.cell
    requires t.cell.value.owners >= 2 && !t.cell.value.borrowed
    modifies Footprint(t)
    ensures t.cell.value.owners == old(t.cell.value.owners) - 2 && !t.cell.value.borrowed
    ensures var c := t.cell.value.cleanup;
      c.slot.closure == None
      && c.win.listeners == Cleaned(old(c.win.listeners), old(c.slot.closure), c.events)
      && c.win.calls == old(c.win.calls) + CleanupCalls(old(c.slot.closure), c.events)
  {
    var c := t.cell.value.cleanup;
    Drop(t);
    ghost var afterFirst := c.win.calls;
    Drop(u);
    assert c.win.calls == afterFirst;
  }

  /** `on`: with no window, `MissingWindow` before anything is attached.
      Otherwise one fresh closure `l` is added for each event in list order; the
      first refusal ends the loop with `EventListenerAttachmentFailure`, leaving
      the earlier events attached and producing no token. When every event
      accepts, the result is a token owning a fresh cell whose cleanup removes `l`
      from those events through a fresh slot holding `l`. */
  method On(win: Window?, events: seq<string>) returns (r: Result<DropToken, Error>, ghost l: Listener?)
    modifies win
    ensures win == null ==> r == Err(MissingWindow) && l == null
    ensures win != null ==> l != null && fresh(l)
    ensures win != null ==>
      var k := FirstRefusal(events, win.refusals);
      win.listeners == old(win.listeners) + Pairs(events[..k], l)
      && (k < |events| ==>
            r == Err(EventListenerAttachmentFailure(win.refusals[events[k]]))
            && win.calls == old(win.calls) + Additions(events[..k + 1], l))
      && (k == |events| ==>
            r.Ok? && r.value.cell.Some? && fresh(r.value.cell.value)
            && win.calls == old(win.calls) + Additions(events, l)
            && var cell := r.value.cell.value;
            cell.owners == 1 && !cell.borrowed
            && cell.cleanup.win == win && cell.cleanup.events == events
            && fresh(cell.cleanup.slot) && cell.cleanup.slot.closure == Some(l))
  {
    if win == null {
      return Err(MissingWindow), null;
    }
    var listener := new Listener();
    l := listener;
    var slot := new ClosureSlot(listener);
    var i := 0;
    while i < |events|
      invariant 0 <= i <= FirstRefusal(events, win.refusals)
      invariant slot.closure == Some(listener)
      invariant win.listeners == old(win.listeners) + Pairs(events[..i], listener)
      invariant win.calls == old(win.calls) + Additions(events[..i], listener)
      decreases |events| - i
    {
      assert events[..i + 1] == events[..i] + [events[i]];
      assert Additions(events[..i + 1], listener) == Additions(events[..i], listener) + [Add(events[i], listener)];
      var added := win.AddEventListener(events[i], listener);
      if added.Err? {
        return Err(EventListenerAttachmentFailure(added.error)), l;
      }
      i := i + 1;
    }
    assert events[..i] == events;
    var token := FromStaticDynFnMutBox(RemoveListeners(win, events, slot));
    r := Ok(token);
  }

  /** A client of `on`: listen to the mouse events, clone the token, drop both.
      The first drop removes every listener; the second finds the slot empty, so
      each listener is added once and removed once. */
  method ListenAndDispose() returns (win: Window, ghost l: Listener)
    ensures win.listeners == {}
    ensures win.calls == Additions(MouseEvents, l) + Removals(MouseEvents, l)
  {
    win := new Window(map[]);
    var r, listener := On(win, MouseEvents);
    l := listener;
    assert FirstRefusal(MouseEvents, win.refusals) == |MouseEvents|;
    var token := r.value;
    var clone := ToOwned(token);
    Drop(token);
    Drop(clone);
  }
}
