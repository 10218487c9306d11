/**
 * The values the session controller of the PeerCCUnity sample works with
 * (ControlScript.cs): its status, the commands of its UI queue, peers, media
 * tracks and the actions it dispatches to the Conductor; plus the pure parts of
 * its behaviour: the per-status button enablement, the status transitions of
 * the click and peer-connected handlers, the peer roster edits and the
 * suspend-time teardown order.
 */
module Session {

  /** The controller's status (ControlScript.cs `Status`). */
  datatype Status = NotConnected | Connecting | Disconnecting | Connected | Calling | EndingCall | InCall

  /** The kinds of queued UI commands (ControlScript.cs `CommandType`). */
  datatype CommandType = Empty | SetNotConnected | SetConnected | SetInCall | AddRemotePeer | RemoveRemotePeer

  /** A peer on the signalling server: its server-assigned id and display name. */
  datatype Peer = Peer(id: int, name: string)

  /** A queued UI command; the peer is only read by the add and remove kinds. */
  datatype Command = Command(kind: CommandType, remotePeer: Peer)

  /** A media track as far as the controller looks at it. */
  datatype Track = Track(id: int, kind: string, enabled: bool)

  /** A call the controller hands to the Conductor (directly or in a started Task). */
  datatype Action =
    | StartLogin(server: string, port: string)
    | DisconnectFromServer
    | ConnectToPeer(peer: Peer)
    | DisconnectFromPeer
    | CancelConnectingToPeer

  /** Whether the address field, the connect button and the call button are enabled. */
  datatype Enablement = Enablement(address: bool, connect: bool, call: bool)

  /** The port `OnConnectClick` logs in on. */
  const LoginPort: string := "8888"

  // ---------------------------------------------------------------------------
  // Button enablement

  /** The enablement table at the top of `Update`; it reads the status and nothing else. */
  function Enable(s: Status): (e: Enablement)
    ensures e.address <==> s == NotConnected
    ensures e.connect <==> s == NotConnected || s == Connected
    ensures e.call <==> s == Connected || s == InCall
  {
    match s
    case NotConnected => Enablement(true, true, false)
    case Connecting => Enablement(false, false, false)
    case Disconnecting => Enablement(false, false, false)
    case Connected => Enablement(false, true, true)
    case Calling => Enablement(false, false, false)
    case EndingCall => Enablement(false, false, false)
    case InCall => Enablement(false, false, true)
  }

  // ---------------------------------------------------------------------------
  // Status transitions

  /** The handlers that write `status`; every other handler leaves it alone. */
  datatype StatusEvent = ConnectClicked | CallClicked | PeerJoined

  /** The status after one of the status-writing handlers runs. */
  function NextStatus(s: Status, e: StatusEvent): Status
  {
    match e
    case ConnectClicked =>
      if s == NotConnected then Connecting
      else if s == Connected then Disconnecting
      else s
    case CallClicked =>
      if s == Connected then Calling
      else if s == InCall then EndingCall
      else s
    case PeerJoined => Connected
  }

  /** The status after a sequence of status-writing handlers, in order. */
  function Run(s: Status, es: seq<StatusEvent>): Status
    decreases |es|
  {
    if es == [] then s else Run(NextStatus(s, es[0]), es[1..])
  }

  /** A button is enabled exactly in the statuses where its click handler acts. */
  lemma EnabledIffClickActs(s: Status)
    ensures Enable(s).connect <==> NextStatus(s, ConnectClicked) != s
    ensures Enable(s).call <==> NextStatus(s, CallClicked) != s
  {
  }

  /** No handler moves the status into `InCall` or back into `NotConnected`. */
  lemma NextStatusNeverEntersInCallOrNotConnected(s: Status, e: StatusEvent)
    ensures NextStatus(s, e) == InCall ==> s == InCall
    ensures NextStatus(s, e) == NotConnected ==> s == NotConnected && e == CallClicked
  {
  }

  /** So `InCall` is unreachable: from any other status no run of handlers gets there. */
  lemma {:induction false} InCallUnreachable(s: Status, es: seq<StatusEvent>)
    requires s != InCall
    ensures Run(s, es) != InCall
    decreases |es|
  {
    if es != [] {
      NextStatusNeverEntersInCallOrNotConnected(s, es[0]);
      InCallUnreachable(NextStatus(s, es[0]), es[1..]);
    }
  }

  /**
   * From the initial status the controller is still `NotConnected` exactly when
   * nothing but call clicks has happened: once it leaves, it never comes back.
   */
  lemma {:induction false} StaysNotConnectedIffOnlyCallClicks(es: seq<StatusEvent>)
    ensures Run(NotConnected, es) == NotConnected <==> forall k :: 0 <= k < |es| ==> es[k] == CallClicked
    decreases |es|
  {
    if es != [] {
      StaysNotConnectedIffOnlyCallClicks(es[1..]);
      if es[0] != CallClicked {
        var s := NextStatus(NotConnected, es[0]);
        assert s != NotConnected;
        NotConnectedNotReentered(s, es[1..]);
      }
    }
  }

  /** A run that starts away from `NotConnected` never ends there. */
  lemma {:induction false} NotConnectedNotReentered(s: Status, es: seq<StatusEvent>)
    requires s != NotConnected
    ensures Run(s, es) != NotConnected
    decreases |es|
  {
    if es != [] {
      NextStatusNeverEntersInCallOrNotConnected(s, es[0]);
      NotConnectedNotReentered(NextStatus(s, es[0]), es[1..]);
    }
  }

  // ---------------------------------------------------------------------------
  // Peer roster (`Peers`)

  /** `Peers.FirstOrDefault(p => p.Id == id)` as a position, -1 for none. */
  function IndexOfId(peers: seq<Peer>, id: int): (r: int)
    ensures -1 <= r < |peers|
    ensures r == -1 <==> forall k :: 0 <= k < |peers| ==> peers[k].id != id
    ensures r >= 0 ==> peers[r].id == id && forall k :: 0 <= k < r ==> peers[k].id != id
    decreases |peers|
  {
    if peers == [] then -1
    else if peers[0].id == id then 0
    else
      var r := IndexOfId(peers[1..], id);
      if r == -1 then -1 else r + 1
  }

  /** The roster after a peer-disconnected event: the first peer with that id is gone. */
  function RemovePeerById(peers: seq<Peer>, id: int): seq<Peer>
  {
    var k := IndexOfId(peers, id);
    if k == -1 then peers else peers[..k] + peers[k + 1..]
  }

  /**
   * Removing by id takes out exactly the first peer with that id (`IndexOfId`
   * finds it) and keeps the others in order; an unknown id leaves the roster as
   * it was.
   */
  lemma RemovePeerByIdSpec(peers: seq<Peer>, id: int)
    ensures IndexOfId(peers, id) == -1 ==> RemovePeerById(peers, id) == peers
    ensures IndexOfId(peers, id) >= 0 ==>
      var k, r := IndexOfId(peers, id), RemovePeerById(peers, id);
      && |r| == |peers| - 1
      && multiset(r) + multiset{peers[k]} == multiset(peers)
      && (forall j :: 0 <= j < k ==> r[j] == peers[j])
      && (forall j :: k < j < |peers| ==> r[j - 1] == peers[j])
  {
    var k := IndexOfId(peers, id);
    if k >= 0 {
      assert RemovePeerById(peers, id) == peers[..k] + peers[k + 1..];
      RemoveAtSpec(peers, k);
    }
  }

  /** Cutting position `k` out of a sequence drops that one element and shifts the rest down. */
  lemma RemoveAtSpec<T>(s: seq<T>, k: nat)
    requires k < |s|
    ensures |s[..k] + s[k + 1..]| == |s| - 1
    ensures multiset(s[..k] + s[k + 1..]) + multiset{s[k]} == multiset(s)
    ensures forall j :: 0 <= j < k ==> (s[..k] + s[k + 1..])[j] == s[j]
    ensures forall j :: k < j < |s| ==> (s[..k] + s[k + 1..])[j - 1] == s[j]
  {
    assert s == s[..k] + [s[k]] + s[k + 1..];
  }

  // ---------------------------------------------------------------------------
  // Suspension

  /**
   * The Conductor calls `OnAppSuspending` makes, in order, given whether the
   * controller is connected to a peer and to the server.
   */
  function SuspendTrace(connectedToPeer: bool, connected: bool): (t: seq<Action>)
    ensures |t| >= 1 && t[0] == CancelConnectingToPeer
    ensures DisconnectFromPeer in t <==> connectedToPeer
    ensures DisconnectFromServer in t <==> connected
    ensures |t| == 1 + (if connectedToPeer then 1 else 0) + (if connected then 1 else 0)
    ensures forall j :: 0 < j < |t| ==> t[j] != CancelConnectingToPeer
    ensures connectedToPeer ==> t[1] == DisconnectFromPeer
    ensures connected ==> t[|t| - 1] == DisconnectFromServer
  {
    [CancelConnectingToPeer]
      + (if connectedToPeer then [DisconnectFromPeer] else [])
      + (if connected then [DisconnectFromServer] else [])
  }
}
