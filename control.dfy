/**
 * The session controller `ControlScript` (ControlScript.cs) as a class whose
 * fields are the ones its handlers update. Unity widgets are reduced to the
 * enable flags, the two button labels and the peer list view; work the source
 * hands to a Task or to the UI thread runs at once, and a Conductor call is
 * returned as an `Action` instead of being made.
 */
module Control {
  import opened Optional
  import opened Session
  import opened PeerView

  class ControlScript {
    var status: Status
    var commandQueue: seq<Command>
    var selectedPeerIndex: int
    /** The `PeerContent` children, front to back. */
    var peerItems: seq<PeerItem>
    /** The `Peers` roster shared with the Conductor. */
    var peers: seq<Peer>
    /** The text of the server address input field. */
    var serverAddress: string
    var connectLabel: string
    var callLabel: string
    var addressEnabled: bool
    var connectEnabled: bool
    var callEnabled: bool

    var peerVideoTrack: Option<Track>
    var selfVideoTrack: Option<Track>
    var peerAudioTrack: Option<Track>
    var selfAudioTrack: Option<Track>

    var isConnected: bool
    var isMicrophoneEnabled: bool
    var isCameraEnabled: bool
    var isConnecting: bool
    var isDisconnecting: bool
    var isReadyToDisconnect: bool
    var isReadyToConnect: bool
    var isConnectedToPeer: bool

    /** The public `bCameraEnabled` and `bMicrophoneIsOn` switches. */
    var cameraEnabled: bool
    var microphoneIsOn: bool

    var peerConnectionHealthStats: string

    /** Each track slot only ever holds a track of its own kind. */
    predicate Valid()
      reads this
    {
      && (peerVideoTrack.Some? ==> peerVideoTrack.value.kind == "video")
      && (selfVideoTrack.Some? ==> selfVideoTrack.value.kind == "video")
      && (peerAudioTrack.Some? ==> peerAudioTrack.value.kind == "audio")
      && (selfAudioTrack.Some? ==> selfAudioTrack.value.kind == "audio")
    }

    /** The screen state the command drain works on. */
    function CurrentScreen(): Screen
      reads this
    {
      Screen(Labels(connectLabel, callLabel), PeerList(peerItems, selectedPeerIndex))
    }

    /**
     * The field initialisers, then `Start`'s default server address; the scene's
     * button labels are taken to read "Connect" and "Call".
     */
    constructor ()
      ensures Valid()
      ensures status == NotConnected && commandQueue == [] && selectedPeerIndex == -1
      ensures peerItems == [] && peers == [] && serverAddress == "192.168.11.132"
      ensures connectLabel == "Connect" && callLabel == "Call"
      ensures peerVideoTrack == None && selfVideoTrack == None && peerAudioTrack == None && selfAudioTrack == None
      ensures !isConnected && isMicrophoneEnabled && isCameraEnabled && !isConnecting
      ensures !isDisconnecting && !isReadyToDisconnect && !isReadyToConnect && !isConnectedToPeer
      ensures cameraEnabled && microphoneIsOn
    {
      status := NotConnected;
      commandQueue := [];
      selectedPeerIndex := -1;
      peerItems := [];
      peers := [];
      serverAddress := "192.168.11.132";
      connectLabel, callLabel := "Connect", "Call";
      addressEnabled, connectEnabled, callEnabled := true, true, true;
      peerVideoTrack, selfVideoTrack, peerAudioTrack, selfAudioTrack := None, None, None, None;
      isConnected, isMicrophoneEnabled, isCameraEnabled, isConnecting := false, true, true, false;
      isDisconnecting, isReadyToDisconnect, isReadyToConnect, isConnectedToPeer := false, false, false, false;
      cameraEnabled, microphoneIsOn := true, true;
      peerConnectionHealthStats := "";
    }

    /** A producer appends a command to the tail of the queue. */
    method Enqueue(c: Command)
      modifies this`commandQueue
      ensures commandQueue == old(commandQueue) + [c]
    {
      commandQueue := commandQueue + [c];
    }

    // -------------------------------------------------------------------------
    // Update

    /**
     * One frame: the widgets are enabled as the status dictates, then every
     * queued command is taken off the front and applied, in the current status.
     */
    method Update()
      modifies this`addressEnabled, this`connectEnabled, this`callEnabled
      modifies this`commandQueue, this`connectLabel, this`callLabel, this`peerItems, this`selectedPeerIndex
      ensures Enablement(addressEnabled, connectEnabled, callEnabled) == Enable(status)
      ensures commandQueue == []
      ensures CurrentScreen() == Drain(old(CurrentScreen()), status, old(commandQueue))
    {
      var e := Enable(status);
      addressEnabled, connectEnabled, callEnabled := e.address, e.connect, e.call;
      while |commandQueue| != 0
        invariant Enablement(addressEnabled, connectEnabled, callEnabled) == e
        invariant Drain(CurrentScreen(), status, commandQueue) == Drain(old(CurrentScreen()), status, old(commandQueue))
        decreases |commandQueue|
      {
        var command := commandQueue[0];
        commandQueue := commandQueue[1..];
        match status {
          case NotConnected =>
            if command.kind == SetNotConnected {
              connectLabel, callLabel := "Connect", "Call";
            }
          case Connected =>
            if command.kind == SetConnected {
              connectLabel, callLabel := "Disconnect", "Call";
            }
          case InCall =>
            if command.kind == SetInCall {
              connectLabel, callLabel := "Disconnect", "Hang Up";
            }
          case _ =>
        }
        if command.kind == AddRemotePeer {
          AddRemotePeerItem(command.remotePeer.name);
        } else if command.kind == RemoveRemotePeer {
          RemoveRemotePeerItem(command.remotePeer.name);
        }
      }
    }

    /** The `AddRemotePeer` branch of the drain. */
    method AddRemotePeerItem(name: string)
      modifies this`peerItems, this`selectedPeerIndex
      ensures PeerList(peerItems, selectedPeerIndex) == AddItem(old(PeerList(peerItems, selectedPeerIndex)), name)
    {
      var item := PeerItem(name, false);
      peerItems := peerItems + [item];
      if selectedPeerIndex == -1 {
        peerItems := peerItems[|peerItems| - 1 := item.(bold := true)];
        selectedPeerIndex := |peerItems| - 1;
      }
    }

    /** The `RemoveRemotePeer` branch of the drain: a search over the children. */
    method RemoveRemotePeerItem(name: string)
      modifies this`peerItems, this`selectedPeerIndex
      ensures PeerList(peerItems, selectedPeerIndex) == RemoveItem(old(PeerList(peerItems, selectedPeerIndex)), name)
    {
      var i := 0;
      while i < |peerItems|
        invariant 0 <= i <= |peerItems|
        invariant peerItems == old(peerItems) && selectedPeerIndex == old(selectedPeerIndex)
        invariant forall j :: 0 <= j < i ==> peerItems[j].name != name
      {
        if peerItems[i].name == name {
          peerItems := peerItems[..i] + peerItems[i + 1..];
          if selectedPeerIndex == i {
            if |peerItems| > 0 {
              peerItems := peerItems[0 := peerItems[0].(bold := true)];
              selectedPeerIndex := 0;
            } else {
              selectedPeerIndex := -1;
            }
          }
          break;
        }
        i := i + 1;
      }
    }

    // -------------------------------------------------------------------------
    // Clicks

    /**
     * Connect/disconnect toggle: logs in from `NotConnected`, disconnects from
     * `Connected` (clearing the list view and the selection); otherwise nothing.
     */
    method OnConnectClick() returns (dispatched: Option<Action>)
      modifies this`status, this`selectedPeerIndex, this`peerItems
      ensures status == NextStatus(old(status), ConnectClicked)
      ensures old(status) == NotConnected ==>
        && status == Connecting && dispatched == Some(StartLogin(serverAddress, LoginPort))
        && selectedPeerIndex == old(selectedPeerIndex) && peerItems == old(peerItems)
      ensures old(status) == Connected ==>
        && status == Disconnecting && dispatched == Some(DisconnectFromServer)
        && selectedPeerIndex == -1 && peerItems == []
      ensures old(status) != NotConnected && old(status) != Connected ==>
        && status == old(status) && dispatched == None
        && selectedPeerIndex == old(selectedPeerIndex) && peerItems == old(peerItems)
    {
      if status == NotConnected {
        dispatched := Some(StartLogin(serverAddress, LoginPort));
        status := Connecting;
      } else if status == Connected {
        dispatched := Some(DisconnectFromServer);
        status := Disconnecting;
        selectedPeerIndex := -1;
        peerItems := [];
      } else {
        dispatched := None;
      }
    }

    /**
     * Call/hang-up toggle. The selection is forced to 0 first, so the "nothing
     * selected" guard never fires. From `Connected` the status becomes `Calling`
     * even when the roster is empty: the started task then fails to index the
     * roster and no call reaches the Conductor.
     */
    method OnCallClick() returns (dispatched: Option<Action>)
      modifies this`status, this`selectedPeerIndex
      ensures selectedPeerIndex == 0
      ensures status == NextStatus(old(status), CallClicked)
      ensures old(status) == Connected ==>
        && status == Calling
        && dispatched == (if |peers| > 0 then Some(ConnectToPeer(peers[0])) else None)
      ensures old(status) == InCall ==> status == EndingCall && dispatched == Some(DisconnectFromPeer)
      ensures old(status) != Connected && old(status) != InCall ==> status == old(status) && dispatched == None
    {
      selectedPeerIndex := 0;
      if status == Connected {
        if selectedPeerIndex == -1 {
          return None;
        }
        dispatched := if selectedPeerIndex < |peers| then Some(ConnectToPeer(peers[selectedPeerIndex])) else None;
        status := Calling;
      } else if status == InCall {
        dispatched := Some(DisconnectFromPeer);
        status := EndingCall;
      } else {
        dispatched := None;
      }
    }

    /**
     * A click on the peer list: `click` is `Some` of the position of the
     * event's selected object among the items (any other value when it is none of
     * them), and `None` when the event has no selected object. Then the first
     * comparison dereferences null and the handler stops before changing
     * anything; with no items the loop does not run at all.
     */
    method OnRemotePeerItemClick(click: Option<int>)
      modifies this`peerItems, this`selectedPeerIndex
      ensures click.None? ==> peerItems == old(peerItems) && selectedPeerIndex == old(selectedPeerIndex)
      ensures click.Some? ==>
        PeerList(peerItems, selectedPeerIndex) == ClickItem(old(PeerList(peerItems, selectedPeerIndex)), click.value)
    {
      if click.None? {
        return;
      }
      var clicked := click.value;
      var i := 0;
      while i < |peerItems|
        invariant 0 <= i <= |peerItems| == |old(peerItems)|
        invariant forall j :: 0 <= j < i ==> peerItems[j] == old(peerItems)[j].(bold := j == clicked)
        invariant forall j :: i <= j < |peerItems| ==> peerItems[j] == old(peerItems)[j]
        invariant selectedPeerIndex == if 0 <= clicked < i then clicked else old(selectedPeerIndex)
      {
        if i == clicked {
          peerItems := peerItems[i := peerItems[i].(bold := true)];
          selectedPeerIndex := i;
        } else {
          peerItems := peerItems[i := peerItems[i].(bold := false)];
        }
        i := i + 1;
      }
      assert peerItems == ClickItem(old(PeerList(peerItems, selectedPeerIndex)), clicked).items;
    }

    // -------------------------------------------------------------------------
    // Signaller events

    /** A peer joined the server: it goes to the end of the roster, and the status is set to `Connected`. */
    method OnPeerConnected(peerId: int, peerName: string)
      modifies this`peers, this`status
      ensures peers == old(peers) + [Peer(peerId, peerName)]
      ensures status == NextStatus(old(status), PeerJoined) == Connected
    {
      peers := peers + [Peer(peerId, peerName)];
      status := Connected;
    }

    /** A peer left the server: the first roster entry with its id is removed, if any. */
    method OnPeerDisconnected(peerId: int)
      modifies this`peers
      ensures peers == RemovePeerById(old(peers), peerId)
    {
      var k := IndexOfId(peers, peerId);
      if k != -1 {
        peers := peers[..k] + peers[k + 1..];
      }
    }

    /** Signed in to the server; the status is not changed here. */
    method OnSignedIn()
      modifies this`isConnected, this`isMicrophoneEnabled, this`isCameraEnabled, this`isConnecting
      ensures isConnected && isMicrophoneEnabled && isCameraEnabled && !isConnecting
    {
      isConnected := true;
      isMicrophoneEnabled := true;
      isCameraEnabled := true;
      isConnecting := false;
    }

    /** Disconnected from the server: flags cleared and the roster emptied; the status is not changed here. */
    method OnDisconnected()
      modifies this`isConnected, this`isMicrophoneEnabled, this`isCameraEnabled, this`isDisconnecting, this`peers
      ensures !isConnected && !isMicrophoneEnabled && !isCameraEnabled && !isDisconnecting
      ensures peers == []
    {
      isConnected := false;
      isMicrophoneEnabled := false;
      isCameraEnabled := false;
      isDisconnecting := false;
      peers := [];
    }

    // -------------------------------------------------------------------------
    // Conductor events

    /** A peer connection was created; the status is not changed here. */
    method OnPeerConnectionCreated()
      modifies this`isReadyToConnect, this`isConnectedToPeer
      ensures !isReadyToConnect && isConnectedToPeer
    {
      isReadyToConnect := false;
      isConnectedToPeer := true;
    }

    /** The peer connection closed: all four track slots are released. */
    method OnPeerConnectionClosed()
      requires Valid()
      modifies this`isConnectedToPeer, this`peerVideoTrack, this`selfVideoTrack, this`peerAudioTrack, this`selfAudioTrack
      modifies this`isMicrophoneEnabled, this`isCameraEnabled
      ensures Valid()
      ensures !isConnectedToPeer && isMicrophoneEnabled && isCameraEnabled
      ensures peerVideoTrack == None && selfVideoTrack == None && peerAudioTrack == None && selfAudioTrack == None
    {
      isConnectedToPeer := false;
      peerVideoTrack := None;
      selfVideoTrack := None;
      peerAudioTrack := None;
      selfAudioTrack := None;
      isMicrophoneEnabled := true;
      isCameraEnabled := true;
    }

    /** A remote track arrived: stored in the slot of its kind; a track of another kind is not stored. */
    method OnAddRemoteTrack(track: Track)
      requires Valid()
      modifies this`peerVideoTrack, this`peerAudioTrack, this`isReadyToDisconnect
      ensures Valid()
      ensures isReadyToDisconnect
      ensures peerVideoTrack == if track.kind == "video" then Some(track) else old(peerVideoTrack)
      ensures peerAudioTrack == if track.kind == "audio" then Some(track) else old(peerAudioTrack)
    {
      if track.kind == "video" {
        peerVideoTrack := Some(track);
      } else if track.kind == "audio" {
        peerAudioTrack := Some(track);
      }
      isReadyToDisconnect := true;
    }

    /**
     * A local track arrived: stored in the slot of its kind, enabled or
     * disabled by the camera or microphone switch.
     */
    method OnAddLocalTrack(track: Track)
      requires Valid()
      modifies this`selfVideoTrack, this`selfAudioTrack
      ensures Valid()
      ensures selfVideoTrack == if track.kind == "video" then Some(track.(enabled := cameraEnabled)) else old(selfVideoTrack)
      ensures selfAudioTrack == if track.kind == "audio" then Some(track.(enabled := microphoneIsOn)) else old(selfAudioTrack)
    {
      if track.kind == "video" {
        selfVideoTrack := Some(track.(enabled := cameraEnabled));
      }
      if track.kind == "audio" {
        selfAudioTrack := Some(track.(enabled := microphoneIsOn));
      }
    }

    /** The latest connection health report is kept as it came. */
    method OnPeerConnectionHealthStats(stats: string)
      modifies this`peerConnectionHealthStats
      ensures peerConnectionHealthStats == stats
    {
      peerConnectionHealthStats := stats;
    }

    // -------------------------------------------------------------------------
    // Lifecycle

    /** App suspension: the Conductor calls made, in order; the awaits are sequential. */
    method OnAppSuspending() returns (calls: seq<Action>)
      modifies this`isDisconnecting
      ensures calls == SuspendTrace(old(isConnectedToPeer), old(isConnected))
      ensures isDisconnecting == (old(isConnected) || old(isDisconnecting))
    {
      calls := [CancelConnectingToPeer];
      if isConnectedToPeer {
        calls := calls + [DisconnectFromPeer];
      }
      if isConnected {
        isDisconnecting := true;
        calls := calls + [DisconnectFromServer];
      }
    }
  }
}
