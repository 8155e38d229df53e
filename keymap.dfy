/** The binding table: a dictionary from element identifiers to actions, built
    from the literal the gamepad starts with. */
module Keymap {
  import opened Actions
  import opened Elements

  /** One `key: action` pair of a dictionary literal. */
  type Entry = (string, AudioControlAction)

  /** No key occurs twice among the entries. */
  predicate DistinctKeys(entries: seq<Entry>)
  {
    forall i, j :: 0 <= i < j < |entries| ==> entries[i].0 != entries[j].0
  }

  /** The dictionary a literal denotes: entries are inserted left to right,
      a later entry replacing an earlier one with the same key. */
  function FromEntries(entries: seq<Entry>): (m: map<string, AudioControlAction>)
    ensures |m| <= |entries|
  {
    if entries == [] then map[]
    else
      var last := entries[|entries| - 1];
      FromEntries(entries[..|entries| - 1])[last.0 := last.1]
  }

  /** A key is in the dictionary exactly when some entry names it. */
  lemma {:induction false} FromEntriesKeys(entries: seq<Entry>, k: string)
    ensures k in FromEntries(entries) <==> exists i :: 0 <= i < |entries| && entries[i].0 == k
  {
    if entries != [] {
      var n := |entries| - 1;
      var init := entries[..n];
      FromEntriesKeys(init, k);
      if entries[n].0 != k {
        if k in FromEntries(init) {
          var i :| 0 <= i < |init| && init[i].0 == k;
          assert entries[i].0 == k;
        }
        forall i | 0 <= i < |entries| && entries[i].0 == k ensures k in FromEntries(init) {
          assert init[i].0 == k;
        }
      }
    }
  }

  /** A key of the dictionary maps to the action of the last entry naming it. */
  lemma {:induction false} FromEntriesLastWins(entries: seq<Entry>, k: string)
    requires k in FromEntries(entries)
    ensures exists i :: 0 <= i < |entries| && entries[i] == (k, FromEntries(entries)[k]) &&
                        forall j :: i < j < |entries| ==> entries[j].0 != k
  {
    var n := |entries| - 1;
    var m := FromEntries(entries);
    if entries[n].0 == k {
      assert entries[n] == (k, m[k]);
    } else {
      var init := entries[..n];
      FromEntriesLastWins(init, k);
      var i :| 0 <= i < |init| && init[i] == (k, FromEntries(init)[k]) &&
        forall j :: i < j < |init| ==> init[j].0 != k;
      assert entries[i] == (k, m[k]);
      forall j | i < j < |entries| ensures entries[j].0 != k {
        if j < n {
          assert entries[j] == init[j];
        }
      }
    }
  }

  /** With distinct keys every entry survives: one key per entry. */
  lemma {:induction false} FromEntriesSize(entries: seq<Entry>)
    requires DistinctKeys(entries)
    ensures |FromEntries(entries)| == |entries|
  {
    if entries != [] {
      var n := |entries| - 1;
      FromEntriesSize(entries[..n]);
      FromEntriesKeys(entries[..n], entries[n].0);
    }
  }

  /** With distinct keys, each entry's key looks up that entry's action. */
  lemma FromEntriesLookup(entries: seq<Entry>, i: nat)
    requires DistinctKeys(entries)
    requires i < |entries|
    ensures entries[i].0 in FromEntries(entries)
    ensures FromEntries(entries)[entries[i].0] == entries[i].1
  {
    var m := FromEntries(entries);
    var k := entries[i].0;
    FromEntriesLastWins(entries, k);
    var i' :| 0 <= i' < |entries| && entries[i'] == (k, m[k]);
    assert i' == i;
  }

  /** The table the gamepad starts with, in the order it is written. */
  function DefaultEntries(): seq<Entry>
  {
    [ ("buttonX", TrackMute),
      ("buttonCircle", TrackSolo),
      ("buttonSquare", TrackArm),
      ("buttonTriangle", TrackNext),
      ("leftShoulder", TrackPrevious),
      ("rightShoulder", TrackVolumeInc),
      ("leftTrigger", TrackVolumeDec),
      ("rightTrigger", TransportRecord),
      ("dpad.left", PannerAzimuthLeft),
      ("dpad.right", PannerAzimuthRight),
      ("dpad.up", PannerElevationInc),
      ("dpad.down", PannerElevationDec),
      ("leftThumbstickButton", TransportPlay),
      ("rightThumbstickButton", TransportStop),
      ("touchpadButton", TransportUndo) ]
  }

  /** The default literal has fifteen entries and no key twice. */
  lemma DefaultEntriesDistinct()
    ensures |DefaultEntries()| == 15 && DistinctKeys(DefaultEntries())
  {
  }

  /** The default binding table. */
  function DefaultKeymap(): (m: map<string, AudioControlAction>)
  {
    FromEntries(DefaultEntries())
  }

  /** The fifteen keys of the literal are pairwise different, so none of its
      entries is overwritten and the table holds fifteen bindings. */
  lemma DefaultKeymapSize()
    ensures |DefaultKeymap()| == 15
  {
    DefaultEntriesDistinct();
    FromEntriesSize(DefaultEntries());
  }

  /** Every row of the default literal is a binding of the table: the key of
      row `i` looks up exactly the action of row `i`. */
  lemma DefaultKeymapRow(i: nat)
    requires i < |DefaultEntries()|
    ensures DefaultEntries()[i].0 in DefaultKeymap()
    ensures DefaultKeymap()[DefaultEntries()[i].0] == DefaultEntries()[i].1
  {
    DefaultEntriesDistinct();
    FromEntriesLookup(DefaultEntries(), i);
  }

  /** The resolver's identifier empty string is not a key, so an unrecognized
      control finds no binding. */
  lemma SentinelUnbound()
    ensures Unrecognized !in DefaultKeymap()
  {
    FromEntriesKeys(DefaultEntries(), Unrecognized);
  }

  /** The table and the resolver list the same fourteen identifiers in the same
      order; they part only at the fifteenth, where the table has
      "touchpadButton" and the resolver "buttonMenu". */
  lemma RowsMatchResolver(i: nat)
    requires i < 15
    ensures i < 14 ==> ElementAlias(KnownElements()[i]) == DefaultEntries()[i].0
    ensures i == 14 ==> ElementAlias(KnownElements()[i]) == "buttonMenu" &&
                        DefaultEntries()[i].0 == "touchpadButton"
  {
  }

  /** A control finds a binding exactly when it is one of the fourteen known
      controls other than the menu button: the menu button resolves to
      "buttonMenu", which the table does not bind, and unknown controls resolve
      to the sentinel. */
  lemma BoundElements(e: Element)
    ensures ElementAlias(e) in DefaultKeymap() <==> !e.Other? && e != ButtonMenu
  {
    var k := ElementAlias(e);
    FromEntriesKeys(DefaultEntries(), k);
    if !e.Other? && e != ButtonMenu {
      KnownElementsExact();
      var i :| 0 <= i < 15 && KnownElements()[i] == e;
      RowsMatchResolver(i);
      DefaultKeymapRow(i);
    }
  }

  /** Every key of the table except "touchpadButton" is the identifier of some
      control, so its binding can be reached; "touchpadButton" is the
      identifier of none. */
  lemma KeyReachable(k: string)
    requires k in DefaultKeymap()
    ensures (exists e :: ElementAlias(e) == k) <==> k != "touchpadButton"
  {
    FromEntriesKeys(DefaultEntries(), k);
    var i :| 0 <= i < 15 && DefaultEntries()[i].0 == k;
    RowsMatchResolver(i);
    if i < 14 {
      assert ElementAlias(KnownElements()[i]) == k;
    }
  }

  /** The actions the table binds: all but the two distance, the two spread
      and the redo actions. */
  lemma BoundActions(a: AudioControlAction)
    ensures a in DefaultKeymap().Values <==>
      a !in {PannerDistanceInc, PannerDistanceDec, PannerSpreadInc, PannerSpreadDec, TransportRedo}
  {
    var entries := DefaultEntries();
    var m := DefaultKeymap();
    if a in m.Values {
      var k :| k in m && m[k] == a;
      FromEntriesLastWins(entries, k);
    } else {
      forall i | 0 <= i < 15 ensures entries[i].1 != a {
        DefaultKeymapRow(i);
        assert m[entries[i].0] in m.Values;
      }
      assert entries[0].1 != a && entries[1].1 != a && entries[2].1 != a && entries[3].1 != a;
      assert entries[4].1 != a && entries[5].1 != a && entries[6].1 != a && entries[7].1 != a;
      assert entries[8].1 != a && entries[9].1 != a && entries[10].1 != a && entries[11].1 != a;
      assert entries[12].1 != a && entries[13].1 != a && entries[14].1 != a;
    }
  }

  /** Undo is bound to "touchpadButton" and to no other key. */
  lemma UndoOnlyTouchpad(k: string)
    requires k in DefaultKeymap()
    ensures DefaultKeymap()[k] == TransportUndo <==> k == "touchpadButton"
  {
    FromEntriesLastWins(DefaultEntries(), k);
    DefaultKeymapRow(14);
  }
}
