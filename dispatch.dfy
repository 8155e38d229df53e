/** The input dispatcher as a function of the binding table: which executor
    calls a state change, or a stream of them, causes. */
module Dispatch {
  import opened Actions
  import opened Elements
  import opened Keymap

  /** The new state an element reports with a change: pressed or released for
      a button, a magnitude for a trigger, two axes for a stick. */
  datatype ElementValue =
    | Button(pressed: bool)
    | Trigger(magnitude: real)
    | Stick(x: real, y: real)

  /** One state-change notification: the element that changed and its value. */
  datatype Event = Event(element: Element, value: ElementValue)

  /** The executor calls that a change of `e` causes under `keymap`: resolve the
      element, look its identifier up, and call the executor once with the bound
      action, or not at all when the identifier is unbound. */
  function Invocations(keymap: map<string, AudioControlAction>, e: Element): (calls: seq<AudioControlAction>)
    ensures |calls| <= 1
    ensures calls == [] <==> ElementAlias(e) !in keymap
    ensures forall a :: a in calls ==> a in keymap.Values
  {
    var key := ElementAlias(e);
    if key in keymap then [keymap[key]] else []
  }

  /** The executor calls a stream of changes causes, in delivery order. */
  function Trace(keymap: map<string, AudioControlAction>, events: seq<Event>): (calls: seq<AudioControlAction>)
    ensures |calls| <= |events|
  {
    if events == [] then []
    else Trace(keymap, events[..|events| - 1]) + Invocations(keymap, events[|events| - 1].element)
  }

  /** Changes are processed independently: the calls of two streams in a row
      are the calls of the first followed by those of the second. */
  lemma {:induction false} TraceConcat(keymap: map<string, AudioControlAction>, a: seq<Event>, b: seq<Event>)
    ensures Trace(keymap, a + b) == Trace(keymap, a) + Trace(keymap, b)
  {
    if b != [] {
      var n := |b| - 1;
      var last := Invocations(keymap, b[n].element);
      assert (a + b)[..|a + b| - 1] == a + b[..n];
      assert (a + b)[|a + b| - 1] == b[n];
      assert Trace(keymap, a + b) == Trace(keymap, a + b[..n]) + last;
      assert Trace(keymap, b) == Trace(keymap, b[..n]) + last;
      TraceConcat(keymap, a, b[..n]);
    } else {
      assert a + b == a;
    }
  }

  /** Dispatch ignores the value: streams that change the same elements in the
      same order cause the same calls, whatever was pressed, released or moved. */
  lemma {:induction false} TraceIgnoresValues(keymap: map<string, AudioControlAction>, a: seq<Event>, b: seq<Event>)
    requires |a| == |b|
    requires forall i :: 0 <= i < |a| ==> a[i].element == b[i].element
    ensures Trace(keymap, a) == Trace(keymap, b)
  {
    if a != [] {
      var n := |a| - 1;
      TraceIgnoresValues(keymap, a[..n], b[..n]);
    }
  }

  /** No deduplication: delivering the same change `n` times causes `n` calls
      with the bound action, or none when the element is unbound. */
  lemma {:induction false} ReplayNotDeduplicated(keymap: map<string, AudioControlAction>, ev: Event, n: nat)
    ensures ElementAlias(ev.element) in keymap ==>
      Trace(keymap, seq(n, _ => ev)) == seq(n, _ => keymap[ElementAlias(ev.element)])
    ensures ElementAlias(ev.element) !in keymap ==> Trace(keymap, seq(n, _ => ev)) == []
  {
    if n > 0 {
      ReplayNotDeduplicated(keymap, ev, n - 1);
      assert seq(n, _ => ev)[..n - 1] == seq(n - 1, _ => ev);
      if ElementAlias(ev.element) in keymap {
        var a := keymap[ElementAlias(ev.element)];
        assert seq(n, _ => a) == seq(n - 1, _ => a) + [a];
      }
    }
  }

  /** At most one call per change, and only actions the table binds are called. */
  lemma {:induction false} TraceBounded(keymap: map<string, AudioControlAction>, events: seq<Event>)
    ensures |Trace(keymap, events)| <= |events|
    ensures forall a :: a in Trace(keymap, events) ==> a in keymap.Values
  {
    if events != [] {
      TraceBounded(keymap, events[..|events| - 1]);
    }
  }

  /** Under the default table the i-th control the resolver tests calls the
      executor once with the i-th action of the table, for the fourteen
      controls the two share; the menu button and every unknown control call
      nothing. */
  lemma DefaultDispatch(e: Element)
    ensures forall i :: 0 <= i < 14 && KnownElements()[i] == e ==>
      Invocations(DefaultKeymap(), e) == [DefaultEntries()[i].1]
    ensures e == ButtonMenu || e.Other? ==> Invocations(DefaultKeymap(), e) == []
  {
    BoundElements(e);
    forall i | 0 <= i < 14 && KnownElements()[i] == e
      ensures Invocations(DefaultKeymap(), e) == [DefaultEntries()[i].1]
    {
      RowsMatchResolver(i);
      DefaultKeymapRow(i);
    }
  }

  /** Pressing X mutes the track, once. */
  lemma ButtonXMutes(v: ElementValue)
    ensures Trace(DefaultKeymap(), [Event(ButtonX, v)]) == [TrackMute]
  {
    DefaultKeymapRow(0);
    assert DefaultEntries()[0] == ("buttonX", TrackMute);
    assert Invocations(DefaultKeymap(), ButtonX) == [TrackMute];
    assert [Event(ButtonX, v)][..0] == [];
  }

  /** Any movement of the right trigger, whatever its magnitude, records once. */
  lemma RightTriggerRecords(v: ElementValue)
    ensures Trace(DefaultKeymap(), [Event(RightTrigger, v)]) == [TransportRecord]
  {
    DefaultKeymapRow(7);
    assert DefaultEntries()[7] == ("rightTrigger", TransportRecord);
    assert Invocations(DefaultKeymap(), RightTrigger) == [TransportRecord];
    assert [Event(RightTrigger, v)][..0] == [];
  }

  /** A stream of changes to unknown controls causes no call and no error. */
  lemma {:induction false} UnknownControlsSilent(events: seq<Event>)
    requires forall i :: 0 <= i < |events| ==> events[i].element.Other?
    ensures Trace(DefaultKeymap(), events) == []
  {
    if events != [] {
      UnknownControlsSilent(events[..|events| - 1]);
      DefaultDispatch(events[|events| - 1].element);
    }
  }

  /** The undo binding cannot be reached: no control calls undo, so no stream
      of changes does. */
  lemma {:induction false} UndoNeverDispatched(events: seq<Event>)
    ensures TransportUndo !in Trace(DefaultKeymap(), events)
  {
    if events != [] {
      UndoNeverDispatched(events[..|events| - 1]);
      var key := ElementAlias(events[|events| - 1].element);
      if key in DefaultKeymap() {
        UndoOnlyTouchpad(key);
      }
    }
  }

  /** The actions some control calls under the default table are exactly the
      bound actions other than undo. */
  lemma ReachableActions(a: AudioControlAction)
    ensures (exists e :: Invocations(DefaultKeymap(), e) == [a]) <==>
      a in DefaultKeymap().Values && a != TransportUndo
  {
    var m := DefaultKeymap();
    if exists e :: Invocations(m, e) == [a] {
      var e :| Invocations(m, e) == [a];
      UndoOnlyTouchpad(ElementAlias(e));
    }
    if a in m.Values && a != TransportUndo {
      var k :| k in m && m[k] == a;
      KeyReachable(k);
      UndoOnlyTouchpad(k);
      var e :| ElementAlias(e) == k;
      assert Invocations(m, e) == [a];
    }
  }
}
