/** The gamepad object: its binding table, the connection guard that installs
    the value-changed handler, and the dispatcher that handler calls. */
module Controller {
  import opened Actions
  import opened Elements
  import opened Keymap
  import opened Dispatch

  /** A controller as a connect notification reports it: an identity, and
      whether it offers the extended gamepad profile. */
  datatype GameController = GameController(id: nat, hasExtendedGamepad: bool)

  /** The object a connect notification carries; it need not be a controller. */
  datatype NotificationObject = ControllerObject(controller: GameController) | NonController

  class Gamepad {
    /** The binding table, set once to the default literal. */
    var keymap: map<string, AudioControlAction>
    /** The published connection flag; nothing in the dispatch core sets it. */
    var connected: bool
    /** The gamepads whose value-changed handler routes changes to this object. */
    var handlers: set<nat>
    /** The state changes handed to the dispatcher so far, in order. */
    ghost var handled: seq<Event>
    /** The executor calls made so far, in order. */
    ghost var performed: seq<AudioControlAction>

    /** Every executor call is accounted for by the changes dispatched so far;
        in particular there are never more calls than dispatched changes. */
    ghost predicate Valid()
      reads this
      ensures Valid() ==> |performed| <= |handled|
    {
      performed == Trace(keymap, handled)
    }

    /** A fresh object: default table, not connected, no handler installed. */
    constructor ()
      ensures Valid()
      ensures keymap == DefaultKeymap() && !connected && handlers == {}
      ensures handled == [] && performed == []
    {
      keymap := DefaultKeymap();
      connected := false;
      handlers := {};
      handled := [];
      performed := [];
    }

    /** The executor: accepts every action, never fails, and records the call. */
    method PerformAction(a: AudioControlAction)
      modifies this`performed
      ensures performed == old(performed) + [a]
    {
      performed := performed + [a];
    }

    /** Dispatch one change: resolve the element, look it up, and call the
        executor exactly once with the bound action, or not at all. Nothing
        but the record of calls changes; the value of the change plays no part. */
    method HandleInput(ev: Event)
      modifies this`handled, this`performed
      ensures old(Valid()) ==> Valid()
      ensures handled == old(handled) + [ev]
      ensures ElementAlias(ev.element) in keymap ==>
        performed == old(performed) + [keymap[ElementAlias(ev.element)]]
      ensures ElementAlias(ev.element) !in keymap ==> performed == old(performed)
      ensures keymap == old(keymap) && connected == old(connected) && handlers == old(handlers)
    {
      var key := ElementAlias(ev.element);
      ghost var calls := Invocations(keymap, ev.element);
      if key in keymap {
        PerformAction(keymap[key]);
      }
      handled := handled + [ev];
      assert handled[..|handled| - 1] == old(handled);
      assert Trace(keymap, handled) == Trace(keymap, old(handled)) + calls;
      assert old(Valid()) ==> performed == old(performed) + calls;
    }

    /** Install the value-changed handler on gamepad `pad`. */
    method SetupGamepad(pad: nat)
      modifies this`handlers
      ensures handlers == old(handlers) + {pad}
    {
      handlers := handlers + {pad};
    }

    /** A connect notification installs the handler only when it carries a
        controller with the extended profile; otherwise it returns early and
        changes nothing. */
    method ControllerDidConnect(note: NotificationObject)
      modifies this`handlers
      ensures note.ControllerObject? && note.controller.hasExtendedGamepad ==>
        handlers == old(handlers) + {note.controller.id}
      ensures !(note.ControllerObject? && note.controller.hasExtendedGamepad) ==>
        handlers == old(handlers)
    {
      match note
      case NonController =>
        return;
      case ControllerObject(controller) =>
        if !controller.hasExtendedGamepad {
          return;
        }
        SetupGamepad(controller.id);
    }

    /** A disconnect notification tears nothing down. */
    method ControllerDidDisconnect(note: NotificationObject)
      ensures handlers == old(handlers) && performed == old(performed)
    {
    }

    /** A change reported by gamepad `pad`: its installed handler passes the
        change to the dispatcher; a gamepad without one reaches no dispatch. */
    method ValueChanged(pad: nat, ev: Event)
      modifies this`handled, this`performed
      ensures old(Valid()) ==> Valid()
      ensures pad in handlers ==>
        handled == old(handled) + [ev] && performed == old(performed) + Invocations(keymap, ev.element)
      ensures pad !in handlers ==> handled == old(handled) && performed == old(performed)
    {
      if pad in handlers {
        HandleInput(ev);
      }
    }
  }
}
