/**
 * The part of the screen the command drain in `Update` (ControlScript.cs)
 * maintains: the two button labels and the peer list view with its selection.
 * Unity's Text children of `PeerContent` are reduced to a name and a bold flag;
 * `selectedPeerIndex` is the selection, -1 meaning none.
 */
module PeerView {
  import opened Session

  /** One child of the peer list view: the peer's name and whether it is shown bold. */
  datatype PeerItem = PeerItem(name: string, bold: bool)

  /** The texts of the connect and call buttons. */
  datatype Labels = Labels(connect: string, call: string)

  /** The peer list view and `selectedPeerIndex`. */
  datatype PeerList = PeerList(items: seq<PeerItem>, selected: int)

  /** Everything the drain may change. */
  datatype Screen = Screen(labels: Labels, list: PeerList)

  /** The names shown, in order. */
  function Names(items: seq<PeerItem>): (r: seq<string>)
    ensures |r| == |items| && forall k :: 0 <= k < |items| ==> r[k] == items[k].name
  {
    seq(|items|, k requires 0 <= k < |items| => items[k].name)
  }

  /**
   * The selection and the fonts agree: the selection is -1 or a valid position,
   * and exactly the selected item is bold.
   */
  predicate Marked(v: PeerList)
  {
    && -1 <= v.selected < |v.items|
    && forall k :: 0 <= k < |v.items| ==> (v.items[k].bold <==> k == v.selected)
  }

  // ---------------------------------------------------------------------------
  // The three list edits

  /** The position of the first item showing `name`, -1 for none. */
  function IndexOfName(items: seq<PeerItem>, name: string): (r: int)
    ensures -1 <= r < |items|
    ensures r == -1 <==> forall k :: 0 <= k < |items| ==> items[k].name != name
    ensures r >= 0 ==> items[r].name == name && forall k :: 0 <= k < r ==> items[k].name != name
    decreases |items|
  {
    if items == [] then -1
    else if items[0].name == name then 0
    else
      var r := IndexOfName(items[1..], name);
      if r == -1 then -1 else r + 1
  }

  /**
   * An `AddRemotePeer` command: a new item at the end (the text prefab is taken
   * to be in normal font), made bold and selected when nothing was selected.
   */
  function AddItem(v: PeerList, name: string): PeerList
  {
    if v.selected == -1 then PeerList(v.items + [PeerItem(name, true)], |v.items|)
    else PeerList(v.items + [PeerItem(name, false)], v.selected)
  }

  /**
   * A `RemoveRemotePeer` command: the first item with the name is detached; if
   * it was at the selected position the first remaining item is made bold and
   * selected, or the selection is cleared when none remain. A selection after
   * the removed item is NOT shifted down.
   */
  function RemoveItem(v: PeerList, name: string): PeerList
  {
    var k := IndexOfName(v.items, name);
    if k == -1 then v
    else
      var rest := v.items[..k] + v.items[k + 1..];
      if v.selected != k then PeerList(rest, v.selected)
      else if |rest| > 0 then PeerList(rest[0 := rest[0].(bold := true)], 0)
      else PeerList(rest, -1)
  }

  /**
   * `OnRemotePeerItemClick`: the item at the clicked position becomes bold and
   * selected, every other item normal. A position outside the list (the event's
   * selected object is not one of the items) selects nothing new but still
   * clears every bold font.
   */
  function ClickItem(v: PeerList, clicked: int): PeerList
  {
    PeerList(seq(|v.items|, k requires 0 <= k < |v.items| => v.items[k].(bold := k == clicked)),
             if 0 <= clicked < |v.items| then clicked else v.selected)
  }

  /**
   * Adding appends the name, bold exactly when nothing was selected, leaves every
   * existing item (name and font) as it was, and keeps a consistent selection
   * consistent.
   */
  lemma AddItemSpec(v: PeerList, name: string)
    ensures Names(AddItem(v, name).items) == Names(v.items) + [name]
    ensures |AddItem(v, name).items| == |v.items| + 1
    ensures forall j :: 0 <= j < |v.items| ==> AddItem(v, name).items[j] == v.items[j]
    ensures AddItem(v, name).items[|v.items|] == PeerItem(name, v.selected == -1)
    ensures AddItem(v, name).selected == if v.selected == -1 then |v.items| else v.selected
    ensures Marked(v) ==> Marked(AddItem(v, name))
  {
    assert Names(AddItem(v, name).items) == Names(v.items) + [name];
  }

  /**
   * Removing takes out the first item with the name and nothing else; an absent
   * name changes nothing; removing the selected item reselects the first one and
   * makes it bold. Every other remaining item keeps its font.
   */
  lemma RemoveItemSpec(v: PeerList, name: string)
    ensures IndexOfName(v.items, name) == -1 ==> RemoveItem(v, name) == v
    ensures var k := IndexOfName(v.items, name);
      k >= 0 ==>
        && Names(RemoveItem(v, name).items) == Names(v.items)[..k] + Names(v.items)[k + 1..]
        && RemoveItem(v, name).selected ==
             (if v.selected != k then v.selected else if |v.items| > 1 then 0 else -1)
    ensures var k := IndexOfName(v.items, name);
      k >= 0 ==>
        && |RemoveItem(v, name).items| == |v.items| - 1
        && (forall j :: 0 <= j < k ==>
              RemoveItem(v, name).items[j] ==
                v.items[j].(bold := v.items[j].bold || (v.selected == k && j == 0)))
        && (forall j :: k < j < |v.items| ==>
              RemoveItem(v, name).items[j - 1] ==
                v.items[j].(bold := v.items[j].bold || (v.selected == k && j == 1)))
  {
    if IndexOfName(v.items, name) >= 0 {
      RemoveItemNames(v, name);
      RemoveItemFonts(v, name);
    }
  }

  /** The names left once the first match is detached. */
  lemma RemoveItemNames(v: PeerList, name: string)
    requires IndexOfName(v.items, name) >= 0
    ensures var k := IndexOfName(v.items, name);
      Names(RemoveItem(v, name).items) == Names(v.items)[..k] + Names(v.items)[k + 1..]
  {
    var k := IndexOfName(v.items, name);
    var rest := v.items[..k] + v.items[k + 1..];
    assert Names(RemoveItem(v, name).items) == Names(rest);
    assert Names(rest) == Names(v.items)[..k] + Names(v.items)[k + 1..];
  }

  /** The items left once the first match is detached, with their fonts. */
  lemma RemoveItemFonts(v: PeerList, name: string)
    requires IndexOfName(v.items, name) >= 0
    ensures var k, r := IndexOfName(v.items, name), RemoveItem(v, name);
      && |r.items| == |v.items| - 1
      && (forall j :: 0 <= j < k ==>
            r.items[j] == v.items[j].(bold := v.items[j].bold || (v.selected == k && j == 0)))
      && (forall j :: k < j < |v.items| ==>
            r.items[j - 1] == v.items[j].(bold := v.items[j].bold || (v.selected == k && j == 1)))
  {
    var k := IndexOfName(v.items, name);
    var rest := v.items[..k] + v.items[k + 1..];
    RemoveAtSpec(v.items, k);
    if v.selected == k && |rest| > 0 {
      assert RemoveItem(v, name).items == rest[0 := rest[0].(bold := true)];
    } else {
      assert RemoveItem(v, name).items == rest;
    }
  }

  /** Removing at or after the selection keeps a consistent selection consistent. */
  lemma RemoveItemKeepsMarked(v: PeerList, name: string)
    requires Marked(v)
    requires IndexOfName(v.items, name) == -1 || IndexOfName(v.items, name) >= v.selected
    ensures Marked(RemoveItem(v, name))
  {
    var k := IndexOfName(v.items, name);
    if k >= 0 {
      var rest := v.items[..k] + v.items[k + 1..];
      forall j | 0 <= j < |rest|
        ensures rest[j] == v.items[if j < k then j else j + 1]
      {
      }
    }
  }

  /**
   * Removing an item before the selected one leaves `selectedPeerIndex` where it
   * was: the bold item moves down one place while the index stays, so the two
   * disagree, and the index falls off the end when the last item was selected.
   */
  lemma RemoveBeforeSelectionStaleIndex(v: PeerList, name: string)
    requires Marked(v)
    requires 0 <= IndexOfName(v.items, name) < v.selected
    ensures RemoveItem(v, name).selected == v.selected
    ensures !Marked(RemoveItem(v, name))
    ensures v.selected == |v.items| - 1 ==> RemoveItem(v, name).selected == |RemoveItem(v, name).items|
  {
    var k := IndexOfName(v.items, name);
    var r := RemoveItem(v, name);
    assert r.items[v.selected - 1] == v.items[v.selected];
  }

  /** A click on an item makes the selection consistent whatever it was before. */
  lemma ClickItemSpec(v: PeerList, clicked: int)
    ensures Names(ClickItem(v, clicked).items) == Names(v.items)
    ensures 0 <= clicked < |v.items| ==> ClickItem(v, clicked).selected == clicked && Marked(ClickItem(v, clicked))
    ensures !(0 <= clicked < |v.items|) ==>
      ClickItem(v, clicked).selected == v.selected
      && forall k :: 0 <= k < |v.items| ==> !ClickItem(v, clicked).items[k].bold
  {
    assert Names(ClickItem(v, clicked).items) == Names(v.items);
  }

  // ---------------------------------------------------------------------------
  // The command drain

  /** The (status, command) pairs for which the drain rewrites the button labels. */
  predicate Matches(s: Status, k: CommandType)
  {
    || (s == NotConnected && k == SetNotConnected)
    || (s == Connected && k == SetConnected)
    || (s == InCall && k == SetInCall)
  }

  /** The labels a matching command writes in each status that has one. */
  function StatusLabels(s: Status): Labels
    requires s == NotConnected || s == Connected || s == InCall
  {
    match s
    case NotConnected => Labels("Connect", "Call")
    case Connected => Labels("Disconnect", "Call")
    case InCall => Labels("Disconnect", "Hang Up")
  }

  /** One turn of the drain loop in `Update`, in status `s`. */
  function Step(sc: Screen, s: Status, c: Command): Screen
  {
    var labels := if Matches(s, c.kind) then StatusLabels(s) else sc.labels;
    var list :=
      if c.kind == AddRemotePeer then AddItem(sc.list, c.remotePeer.name)
      else if c.kind == RemoveRemotePeer then RemoveItem(sc.list, c.remotePeer.name)
      else sc.list;
    Screen(labels, list)
  }

  /** The whole drain: the commands applied front to back. */
  function Drain(sc: Screen, s: Status, cmds: seq<Command>): Screen
    decreases |cmds|
  {
    if cmds == [] then sc else Drain(Step(sc, s, cmds[0]), s, cmds[1..])
  }

  /** Draining a queue is draining its front part and then the rest (FIFO order). */
  lemma {:induction false} DrainAppend(sc: Screen, s: Status, a: seq<Command>, b: seq<Command>)
    ensures Drain(sc, s, a + b) == Drain(Drain(sc, s, a), s, b)
    decreases |a|
  {
    if a == [] {
      assert a + b == b;
    } else {
      var next := Step(sc, s, a[0]);
      assert (a + b)[0] == a[0] && (a + b)[1..] == a[1..] + b;
      DrainAppend(next, s, a[1..], b);
    }
  }

  /** A command enqueued last is applied last, once. */
  lemma DrainSnoc(sc: Screen, s: Status, a: seq<Command>, c: Command)
    ensures Drain(sc, s, a + [c]) == Step(Drain(sc, s, a), s, c)
  {
    DrainAppend(sc, s, a, [c]);
  }

  /**
   * After a drain the labels are those of the current status if some queued
   * command matched it, and untouched otherwise.
   */
  lemma {:induction false} DrainLabels(sc: Screen, s: Status, cmds: seq<Command>)
    ensures Drain(sc, s, cmds).labels ==
      if exists k :: 0 <= k < |cmds| && Matches(s, cmds[k].kind) then StatusLabels(s) else sc.labels
    decreases |cmds|
  {
    if cmds != [] {
      var next := Step(sc, s, cmds[0]);
      DrainLabels(next, s, cmds[1..]);
      if exists k :: 0 <= k < |cmds| && Matches(s, cmds[k].kind) {
        var k :| 0 <= k < |cmds| && Matches(s, cmds[k].kind);
        if k > 0 {
          assert cmds[1..][k - 1] == cmds[k];
        }
      } else {
        assert !Matches(s, cmds[0].kind);
        forall k | 0 <= k < |cmds[1..]|
          ensures !Matches(s, cmds[1..][k].kind)
        {
          assert cmds[1..][k] == cmds[k + 1];
        }
      }
    }
  }

  /** The peer list after a drain does not depend on the status it ran in. */
  lemma {:induction false} DrainListIgnoresStatus(sc: Screen, s: Status, t: Status, cmds: seq<Command>)
    ensures Drain(sc, s, cmds).list == Drain(sc, t, cmds).list
    decreases |cmds|
  {
    if cmds != [] {
      var ns, nt := Step(sc, s, cmds[0]), Step(sc, t, cmds[0]);
      assert ns.list == nt.list;
      DrainListIgnoresStatus(nt, s, t, cmds[1..]);
      LabelsDoNotAffectList(ns, nt, s, cmds[1..]);
    }
  }

  /** The labels a drain starts from do not affect the peer list it produces. */
  lemma {:induction false} LabelsDoNotAffectList(a: Screen, b: Screen, s: Status, cmds: seq<Command>)
    requires a.list == b.list
    ensures Drain(a, s, cmds).list == Drain(b, s, cmds).list
    decreases |cmds|
  {
    if cmds != [] {
      LabelsDoNotAffectList(Step(a, s, cmds[0]), Step(b, s, cmds[0]), s, cmds[1..]);
    }
  }

  /** The scenario of two peers joining and the first leaving. */
  lemma AddAddRemoveScenario()
    ensures var v1 := AddItem(PeerList([], -1), "A");
      var v2 := AddItem(v1, "B");
      var v3 := RemoveItem(v2, "A");
      && v1.selected == 0
      && v2.selected == 0 && Names(v2.items) == ["A", "B"]
      && v3 == PeerList([PeerItem("B", true)], 0)
  {
    var v2 := AddItem(AddItem(PeerList([], -1), "A"), "B");
    assert IndexOfName(v2.items, "A") == 0;
    assert Names(v2.items) == ["A", "B"];
  }
}
