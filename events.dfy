/**
 * The shell's event bus (lib/dt_shell/shell.py: `EventType`, `Event`, `_event_handlers`,
 * `on_event` and its shorthands, `_trigger_event`). One handler list per event type;
 * registering appends to the list; triggering calls the handlers of the event's type in
 * registration order, logs and skips a handler that raises an `Exception`, and lets a
 * `BaseException` that is not an `Exception` (KeyboardInterrupt, SystemExit) escape,
 * which ends the dispatch.
 *
 * Handlers are opaque values; what a handler does when called is abstracted into the
 * outcome it reports (`outcome`), given as a parameter of the dispatch.
 */
module Events {
  import opened Wrappers

  datatype EventType = Start | PreCommandImport | PostCommandImport | KeyboardInterrupt | Shutdown

  /** `Event(type, origin, time)`; `time` is an integer clock reading. */
  datatype Event = Event(kind: EventType, origin: string, time: int)

  /** The callables that end up in the handler lists. */
  datatype Handler =
    | RunBackgroundTasks          // DTShell._run_background_tasks
    | OnKeyboardInterruptEvent    // DTShell._on_keyboard_interrupt_event
    | OnShutdownEvent             // DTShell._on_shutdown_event
    | TaskShutdown(task: string)  // Task._shutdown of the named background task
    | Subscriber(id: nat)         // any other callable registered by a command set

  /** How a call to a handler ended. */
  datatype HandlerOutcome =
    | Returned
    | RaisedException       // a subclass of Exception: caught, logged, dispatch goes on
    | RaisedBaseException   // KeyboardInterrupt, SystemExit, ...: not caught by `except Exception`

  /** The handler lists `DTShell.__init__` starts with. */
  function InitialHandlers(): map<EventType, seq<Handler>> {
    map[Start := [RunBackgroundTasks],
        PreCommandImport := [],
        PostCommandImport := [],
        KeyboardInterrupt := [OnKeyboardInterruptEvent],
        Shutdown := [OnShutdownEvent]]
  }

  /** The position of the first handler whose exception escapes `except Exception`, or |hs|. */
  function FirstEscape(hs: seq<Handler>, outcome: Handler -> HandlerOutcome): (k: nat)
    ensures k <= |hs|
    ensures forall i :: 0 <= i < k ==> outcome(hs[i]) != RaisedBaseException
    ensures k < |hs| ==> outcome(hs[k]) == RaisedBaseException
  {
    if |hs| == 0 then 0
    else if outcome(hs[0]) == RaisedBaseException then 0
    else 1 + FirstEscape(hs[1..], outcome)
  }

  /** The handlers among `hs` whose failure is caught and logged, in order. */
  function Failing(hs: seq<Handler>, outcome: Handler -> HandlerOutcome): (r: seq<Handler>)
    ensures |r| <= |hs|
    ensures forall h :: h in r <==> h in hs && outcome(h) == RaisedException
  {
    if |hs| == 0 then []
    else Failing(hs[..|hs| - 1], outcome)
         + (if outcome(hs[|hs| - 1]) == RaisedException then [hs[|hs| - 1]] else [])
  }

  class EventBus {
    /** `_event_handlers`: the handler list of every event type */
    var handlers: map<EventType, seq<Handler>>

    /** Every event type has a list (so `on_event`'s KeyError branch cannot be taken). */
    ghost predicate Valid()
      reads this
    {
      forall e: EventType :: e in handlers
    }

    constructor ()
      ensures Valid()
      ensures handlers == InitialHandlers()
    {
      handlers := InitialHandlers();
      new;
      forall e: EventType ensures e in handlers {
        match e
        case Start =>
        case PreCommandImport =>
        case PostCommandImport =>
        case KeyboardInterrupt =>
        case Shutdown =>
      }
    }

    /** `on_event(event, handler)`: append to that type's list; every other list is unchanged. */
    method OnEvent(kind: EventType, h: Handler)
      requires Valid()
      modifies this
      ensures Valid()
      ensures handlers == old(handlers)[kind := old(handlers)[kind] + [h]]
    {
      handlers := handlers[kind := handlers[kind] + [h]];
    }

    /** `on_start(handler)` as written: it registers the handler on SHUTDOWN, not on START. */
    method OnStart(h: Handler)
      requires Valid()
      modifies this
      ensures Valid()
      ensures handlers == old(handlers)[Shutdown := old(handlers)[Shutdown] + [h]]
    {
      OnEvent(Shutdown, h);
    }

    /** `on_start` as evidently intended: the handler joins the START list. */
    method OnStartIntended(h: Handler)
      requires Valid()
      modifies this
      ensures Valid()
      ensures handlers == old(handlers)[Start := old(handlers)[Start] + [h]]
    {
      OnEvent(Start, h);
    }

    /** `on_shutdown(handler)`: register on SHUTDOWN. */
    method OnShutdown(h: Handler)
      requires Valid()
      modifies this
      ensures Valid()
      ensures handlers == old(handlers)[Shutdown := old(handlers)[Shutdown] + [h]]
    {
      OnEvent(Shutdown, h);
    }

    /** `on_keyboard_interrupt(handler)`: register on KEYBOARD_INTERRUPT. */
    method OnKeyboardInterrupt(h: Handler)
      requires Valid()
      modifies this
      ensures Valid()
      ensures handlers == old(handlers)[KeyboardInterrupt := old(handlers)[KeyboardInterrupt] + [h]]
    {
      OnEvent(KeyboardInterrupt, h);
    }

    /**
     * `_trigger_event(event)`: `called` are the handlers invoked, in order; `logged` those
     * whose `Exception` was caught and logged; `escaped` the handler whose non-`Exception`
     * error ended the dispatch, if any. When no handler raises such an error, every handler
     * of the event's type is called exactly once, in registration order.
     */
    method Trigger(event: Event, outcome: Handler -> HandlerOutcome)
      returns (called: seq<Handler>, logged: seq<Handler>, escaped: Option<Handler>)
      requires Valid()
      ensures var hs := handlers[event.kind];
              var k := FirstEscape(hs, outcome);
              && called == hs[..if k < |hs| then k + 1 else k]
              && logged == Failing(hs[..k], outcome)
              && escaped == (if k < |hs| then Some(hs[k]) else None)
      ensures escaped == None <==> forall h :: h in handlers[event.kind] ==> outcome(h) != RaisedBaseException
      ensures escaped == None ==> called == handlers[event.kind]
    {
      var hs := handlers[event.kind];
      ghost var k := FirstEscape(hs, outcome);
      called, logged, escaped := [], [], None;
      var i := 0;
      while i < |hs|
        invariant 0 <= i <= k <= |hs|
        invariant called == hs[..i]
        invariant logged == Failing(hs[..i], outcome)
      {
        var h := hs[i];
        called := called + [h];
        assert hs[..i + 1] == hs[..i] + [h];
        assert hs[..i + 1][..i] == hs[..i];
        match outcome(h) {
          case Returned =>
          case RaisedException =>
            logged := logged + [h];
          case RaisedBaseException =>
            escaped := Some(h);
            return;
        }
        i := i + 1;
      }
      assert hs[..i] == hs;
    }
  }

  /**
   * The as-written `on_start` leaves the START list untouched: a handler registered with it
   * runs at shutdown and never at start.
   */
  method OnStartMissesStart(bus: EventBus, h: Handler)
    requires bus.Valid()
    modifies bus
    ensures bus.Valid()
    ensures bus.handlers[Start] == old(bus.handlers[Start])
    ensures bus.handlers[Shutdown] == old(bus.handlers[Shutdown]) + [h]
  {
    bus.OnStart(h);
  }
}
