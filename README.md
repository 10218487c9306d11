# PeerCCUnity session controller and manifest patch, modelled in Dafny

This project models two pieces of the PeerCCUnity sample of the WebRTC UWP SDK.

The first is `ControlScript`, the Unity behaviour that drives a session with a peer-to-peer
call server through the `Conductor`. It keeps a status, a queue of UI commands, the peer
list view with a selected index, the `Peers` roster, four media track slots and a set of
boolean flags, and it changes them in its click handlers, its signaller and conductor
event handlers, its per-frame `Update` and its suspend hook. At startup it also chooses
codecs, a camera, a capture resolution and the ICE servers.

The second is the editor post-build step of `PostUWPBuild`. It adds the `WebRtcScheme`
activatable-class block to the generated `.appxmanifest` unless the manifest already has it.

Files:

- `optional.dfy`: `Option`, which stands for a C# reference that may be null.
- `session.dfy` (module `Session`): the value types (`Status`, `CommandType`, `Command`,
  `Peer`, `Track`, the `Action`s dispatched to the Conductor), the button enablement table,
  the status transitions with the lemmas about which statuses can be reached, roster
  removal by id, and the order of the suspend-time calls.
- `peer_view.dfy` (module `PeerView`): the peer list view (names with a bold flag, plus the
  selected index), its add, remove and click edits, and the command drain as a function, with
  lemmas about its FIFO order, its labels and the selection marker.
- `control.dfy` (module `Control`): class `ControlScript`. Its fields are the ones the source
  mutates. Its methods are the handlers, each with a field-level `modifies` frame and
  postconditions stating the new state. `Update` is a `while` loop that drains the queue
  and is proved against `PeerView.Drain`.
- `startup.dfy` (module `Startup`): the audio codec filter, the video codec rank order
  (proved sorted, a permutation and stable), the saved-or-first codec and camera choice,
  the default capture resolution, and `LoadSettings` with its defaults.
- `manifest.dfy` (module `Manifest`): the manifest line-list patch, proved to grow the
  manifest by exactly 8 lines, keep the other lines in place, and be idempotent.

Modelling conventions:

- A `Conductor` call made by a handler, directly or in a started `Task`, is returned as an
  `Action` value.
- A lambda dispatched with `RunOnUiThread` runs immediately.
- A null `Peers` collection and an empty one are treated as the same thing. The model
  cannot tell them apart.

## Behaviour of the code worth noting

The model follows the code as written:

- `OnSignedIn` does not set the status to `Connected`.
- `OnPeerConnected` sets the status to `Connected` unconditionally, whatever it was before.
- A server connection failure only logs. It leaves the status unchanged, whatever it is.
- `OnDisconnected` clears the flags and the roster. It leaves the status unchanged, whatever it is.
- `OnPeerConnectionCreated` never sets `InCall`, and `OnPeerConnectionClosed` never sets
  `Connected`. No handler enters `InCall` or returns to `NotConnected`. `Session.InCallUnreachable`
  and `Session.StaysNotConnectedIffOnlyCallClicks` prove this.
- `OnCallClick` forces the selection to 0, so its "nothing selected" guard is dead. From
  `Connected` it moves to `Calling` even when the roster is empty. In that case no call
  reaches the Conductor, because the task's index into the roster fails.
- Nothing in the file enqueues a command. The model provides `Enqueue` so the drain can
  be exercised.
- Removing a list item that comes before the selected item does not shift the selected
  index (`PeerView.RemoveBeforeSelectionStaleIndex`).
- The roster accepts duplicate ids, and list items are matched by name, not id.

## Model

| member | source | states |
|---|---|---|
| `Session.Enable` | common/windows/samples/PeerCCUnity/ClientUnity/Unity/PeerCCUnity/Assets/Scripts/ControlScript.cs:531-591 | The address field is enabled only in NotConnected. Connect is enabled exactly in NotConnected and Connected. Call is enabled exactly in Connected and InCall. The function reads only the status. |
| `Session.EnabledIffClickActs` | common/windows/samples/PeerCCUnity/ClientUnity/Unity/PeerCCUnity/Assets/Scripts/ControlScript.cs:531-591 | Connect is enabled exactly in the statuses where OnConnectClick changes the status, and Call exactly where OnCallClick does. |
| `Session.NextStatusNeverEntersInCallOrNotConnected` | common/windows/samples/PeerCCUnity/ClientUnity/Unity/PeerCCUnity/Assets/Scripts/ControlScript.cs:667-735 | No status-writing handler moves into InCall. Only a call click, taken in NotConnected, ends in NotConnected. |
| `Session.InCallUnreachable` | common/windows/samples/PeerCCUnity/ClientUnity/Unity/PeerCCUnity/Assets/Scripts/ControlScript.cs:667-735 | From any status other than InCall, no sequence of connect clicks, call clicks and peer joins reaches InCall. |
| `Session.NotConnectedNotReentered` | common/windows/samples/PeerCCUnity/ClientUnity/Unity/PeerCCUnity/Assets/Scripts/ControlScript.cs:667-735 | Once the status has left NotConnected, no sequence of handlers brings it back. |
| `Session.NextStatus` | common/windows/samples/PeerCCUnity/ClientUnity/Unity/PeerCCUnity/Assets/Scripts/ControlScript.cs:673-728 | Defines the status written by a connect click, a call click and a peer-connected event (lines 281, 679, 688, 719 and 727). It has no contract of its own; EnabledIffClickActs and NextStatusNeverEntersInCallOrNotConnected state its properties. |
| `Session.Run` | common/windows/samples/PeerCCUnity/ClientUnity/Unity/PeerCCUnity/Assets/Scripts/ControlScript.cs:673-728 | Defines the status after a sequence of those handlers, applied in order. InCallUnreachable, NotConnectedNotReentered and StaysNotConnectedIffOnlyCallClicks state its properties. |
| `Session.StaysNotConnectedIffOnlyCallClicks` | common/windows/samples/PeerCCUnity/ClientUnity/Unity/PeerCCUnity/Assets/Scripts/ControlScript.cs:673-679 | Starting from NotConnected, the status is still NotConnected if and only if every event was a call click. |
| `Session.IndexOfId` | common/windows/samples/PeerCCUnity/ClientUnity/Unity/PeerCCUnity/Assets/Scripts/ControlScript.cs:292 | Gives the first roster position with the id, or -1 exactly when no peer has it. |
| `Session.RemovePeerById` | common/windows/samples/PeerCCUnity/ClientUnity/Unity/PeerCCUnity/Assets/Scripts/ControlScript.cs:288-296 | Defines the roster after a peer-disconnected event. RemovePeerByIdSpec states its properties. |
| `Session.RemovePeerByIdSpec` | common/windows/samples/PeerCCUnity/ClientUnity/Unity/PeerCCUnity/Assets/Scripts/ControlScript.cs:288-296 | An unknown id leaves the roster unchanged. Otherwise exactly the first peer with that id is removed, as a multiset, and the other peers keep their order. |
| `Session.SuspendTrace` | common/windows/samples/PeerCCUnity/ClientUnity/Unity/PeerCCUnity/Assets/Scripts/ControlScript.cs:757-770 | Cancel-connecting comes first and only once. Disconnect-from-peer is present exactly when connected to a peer, and comes second. Disconnect-from-server is present exactly when connected, and comes last. |
| `PeerView.IndexOfName` | common/windows/samples/PeerCCUnity/ClientUnity/Unity/PeerCCUnity/Assets/Scripts/ControlScript.cs:641-643 | Gives the first item position showing the name, or -1 exactly when no item shows it. |
| `PeerView.AddItem` | common/windows/samples/PeerCCUnity/ClientUnity/Unity/PeerCCUnity/Assets/Scripts/ControlScript.cs:623-637 | Defines the list view after an add command. AddItemSpec and AddAddRemoveScenario state its properties. |
| `PeerView.RemoveItem` | common/windows/samples/PeerCCUnity/ClientUnity/Unity/PeerCCUnity/Assets/Scripts/ControlScript.cs:639-660 | Defines the list view after a remove command. RemoveItemSpec, RemoveItemKeepsMarked and RemoveBeforeSelectionStaleIndex state its properties. |
| `PeerView.ClickItem` | common/windows/samples/PeerCCUnity/ClientUnity/Unity/PeerCCUnity/Assets/Scripts/ControlScript.cs:740-751 | Defines the list view after a click on an item position. ClickItemSpec states its properties. |
| `PeerView.Matches` | common/windows/samples/PeerCCUnity/ClientUnity/Unity/PeerCCUnity/Assets/Scripts/ControlScript.cs:597-619 | Defines the (status, command) pairs for which the drain rewrites the labels: SetNotConnected in NotConnected, SetConnected in Connected, SetInCall in InCall, and no other pair. DrainLabels states its effect over a whole queue. |
| `PeerView.StatusLabels` | common/windows/samples/PeerCCUnity/ClientUnity/Unity/PeerCCUnity/Assets/Scripts/ControlScript.cs:599-619 | Defines the two label texts written in each of those statuses: Connect/Call, Disconnect/Call and Disconnect/Hang Up. DrainLabels states when they are written. |
| `PeerView.Step` | common/windows/samples/PeerCCUnity/ClientUnity/Unity/PeerCCUnity/Assets/Scripts/ControlScript.cs:597-661 | Defines one turn of the drain loop in a given status: the label update, then the list edit. DrainLabels and DrainListIgnoresStatus state its properties. |
| `PeerView.Drain` | common/windows/samples/PeerCCUnity/ClientUnity/Unity/PeerCCUnity/Assets/Scripts/ControlScript.cs:593-661 | Defines the drain of a whole queue. DrainAppend and DrainSnoc state its order, and Control.ControlScript.Update is proved equal to it. |
| `PeerView.AddItemSpec` | common/windows/samples/PeerCCUnity/ClientUnity/Unity/PeerCCUnity/Assets/Scripts/ControlScript.cs:623-637 | The name is appended at the end, bold exactly when nothing was selected. Every existing item keeps its name and font. With no selection, the new last index becomes selected; otherwise the selection is unchanged. A consistent bold/selection marker stays consistent. |
| `PeerView.RemoveItemSpec` | common/windows/samples/PeerCCUnity/ClientUnity/Unity/PeerCCUnity/Assets/Scripts/ControlScript.cs:639-660 | An absent name changes nothing. Otherwise only the first matching item is removed, and the others keep their order. If it was the selected item, the selection becomes 0 when items remain and -1 when none do, and the new first item is made bold. Otherwise the selection index is kept. Every other remaining item keeps its name and font. |
| `PeerView.RemoveItemKeepsMarked` | common/windows/samples/PeerCCUnity/ClientUnity/Unity/PeerCCUnity/Assets/Scripts/ControlScript.cs:639-660 | Removing at or after the selected position keeps the selection in range, with only the selected item bold. |
| `PeerView.RemoveBeforeSelectionStaleIndex` | common/windows/samples/PeerCCUnity/ClientUnity/Unity/PeerCCUnity/Assets/Scripts/ControlScript.cs:646-657 | Removing an item before the selection keeps the index unshifted, which breaks the marker. The index goes out of range when the last item was selected. |
| `PeerView.ClickItemSpec` | common/windows/samples/PeerCCUnity/ClientUnity/Unity/PeerCCUnity/Assets/Scripts/ControlScript.cs:740-751 | A click on position i selects i and leaves exactly that item bold, with names unchanged. A click on no item keeps the selection and makes every item normal. |
| `PeerView.DrainAppend` | common/windows/samples/PeerCCUnity/ClientUnity/Unity/PeerCCUnity/Assets/Scripts/ControlScript.cs:593-596 | Draining a + b is draining a and then draining b, so commands are applied front to back. |
| `PeerView.DrainSnoc` | common/windows/samples/PeerCCUnity/ClientUnity/Unity/PeerCCUnity/Assets/Scripts/ControlScript.cs:593-596 | The last enqueued command is applied once, after all the earlier ones. |
| `PeerView.DrainLabels` | common/windows/samples/PeerCCUnity/ClientUnity/Unity/PeerCCUnity/Assets/Scripts/ControlScript.cs:597-622 | After a drain, the labels are those of the status (Connect/Call, Disconnect/Call or Disconnect/Hang Up) if some queued command matched the status. Otherwise they are untouched. |
| `PeerView.DrainListIgnoresStatus` | common/windows/samples/PeerCCUnity/ClientUnity/Unity/PeerCCUnity/Assets/Scripts/ControlScript.cs:623-661 | The list view and selection after a drain are independent of the status. |
| `PeerView.LabelsDoNotAffectList` | common/windows/samples/PeerCCUnity/ClientUnity/Unity/PeerCCUnity/Assets/Scripts/ControlScript.cs:597-661 | The labels a drain starts from do not affect the list it produces. |
| `PeerView.AddAddRemoveScenario` | common/windows/samples/PeerCCUnity/ClientUnity/Unity/PeerCCUnity/Assets/Scripts/ControlScript.cs:623-660 | Adding A selects it. Adding B keeps A selected. Removing A leaves B bold and selected. |
| `Control.ControlScript.constructor` | common/windows/samples/PeerCCUnity/ClientUnity/Unity/PeerCCUnity/Assets/Scripts/ControlScript.cs:75-147 | Starts NotConnected with an empty queue, no selection, empty list and roster, empty track slots and the initial flag values. |
| `Control.ControlScript.Enqueue` | common/windows/samples/PeerCCUnity/ClientUnity/Unity/PeerCCUnity/Assets/Scripts/ControlScript.cs:76 | Appends the command at the tail of the queue. |
| `Control.ControlScript.Update` | common/windows/samples/PeerCCUnity/ClientUnity/Unity/PeerCCUnity/Assets/Scripts/ControlScript.cs:526-665 | The widgets are enabled as the table says. The queue ends empty. The labels, list and selection equal the drain of the old queue in the current status, and the status is not changed. |
| `Control.ControlScript.AddRemotePeerItem` | common/windows/samples/PeerCCUnity/ClientUnity/Unity/PeerCCUnity/Assets/Scripts/ControlScript.cs:623-637 | The list view and selection become AddItem of the old ones. |
| `Control.ControlScript.RemoveRemotePeerItem` | common/windows/samples/PeerCCUnity/ClientUnity/Unity/PeerCCUnity/Assets/Scripts/ControlScript.cs:639-660 | The search loop over the children yields RemoveItem of the old list view and selection. |
| `Control.ControlScript.OnConnectClick` | common/windows/samples/PeerCCUnity/ClientUnity/Unity/PeerCCUnity/Assets/Scripts/ControlScript.cs:667-698 | NotConnected moves to Connecting and dispatches one StartLogin(address, "8888"). Connected moves to Disconnecting with selection -1, an empty list and one DisconnectFromServer. In every other status nothing changes and nothing is dispatched. |
| `Control.ControlScript.OnCallClick` | common/windows/samples/PeerCCUnity/ClientUnity/Unity/PeerCCUnity/Assets/Scripts/ControlScript.cs:700-735 | The selection is always 0 afterwards. Connected moves to Calling and dispatches ConnectToPeer(Peers[0]), or nothing if the roster is empty. InCall moves to EndingCall and dispatches DisconnectFromPeer. In every other status the status is unchanged and nothing is dispatched. |
| `Control.ControlScript.OnRemotePeerItemClick` | common/windows/samples/PeerCCUnity/ClientUnity/Unity/PeerCCUnity/Assets/Scripts/ControlScript.cs:737-753 | With a selected object, the loop over the children yields ClickItem of the old list view and selection. With no selected object, the list view and the selection are unchanged. |
| `Control.ControlScript.OnPeerConnected` | common/windows/samples/PeerCCUnity/ClientUnity/Unity/PeerCCUnity/Assets/Scripts/ControlScript.cs:269-283 | The peer is appended to the roster and the status becomes Connected. |
| `Control.ControlScript.OnPeerDisconnected` | common/windows/samples/PeerCCUnity/ClientUnity/Unity/PeerCCUnity/Assets/Scripts/ControlScript.cs:288-296 | The roster loses the first peer with the id, if there is one. |
| `Control.ControlScript.OnSignedIn` | common/windows/samples/PeerCCUnity/ClientUnity/Unity/PeerCCUnity/Assets/Scripts/ControlScript.cs:299-308 | Sets connected, microphone and camera on, and connecting off. The status is left alone. |
| `Control.ControlScript.OnDisconnected` | common/windows/samples/PeerCCUnity/ClientUnity/Unity/PeerCCUnity/Assets/Scripts/ControlScript.cs:317-327 | Turns connected, microphone, camera and disconnecting off, and empties the roster. |
| `Control.ControlScript.OnPeerConnectionCreated` | common/windows/samples/PeerCCUnity/ClientUnity/Unity/PeerCCUnity/Assets/Scripts/ControlScript.cs:341-346 | Sets ready-to-connect off and connected-to-peer on. |
| `Control.ControlScript.OnPeerConnectionClosed` | common/windows/samples/PeerCCUnity/ClientUnity/Unity/PeerCCUnity/Assets/Scripts/ControlScript.cs:349-369 | Empties all four track slots, sets connected-to-peer off, and turns microphone and camera back on. |
| `Control.ControlScript.OnAddRemoteTrack` | common/windows/samples/PeerCCUnity/ClientUnity/Unity/PeerCCUnity/Assets/Scripts/ControlScript.cs:778-796 | A video track goes into the peer video slot and an audio track into the peer audio slot. Ready-to-disconnect is set. The slots keep their kinds. |
| `Control.ControlScript.OnAddLocalTrack` | common/windows/samples/PeerCCUnity/ClientUnity/Unity/PeerCCUnity/Assets/Scripts/ControlScript.cs:809-853 | A video or audio track goes into the self slot of its kind, enabled as the camera or microphone switch says. |
| `Control.ControlScript.OnPeerConnectionHealthStats` | common/windows/samples/PeerCCUnity/ClientUnity/Unity/PeerCCUnity/Assets/Scripts/ControlScript.cs:854-857 | Keeps the latest stats string. |
| `Control.ControlScript.OnAppSuspending` | common/windows/samples/PeerCCUnity/ClientUnity/Unity/PeerCCUnity/Assets/Scripts/ControlScript.cs:757-770 | The calls made equal SuspendTrace of the entry flags. Disconnecting is set exactly when connected. |
| `Startup.NatToString` | common/windows/samples/PeerCCUnity/ClientUnity/Unity/PeerCCUnity/Assets/Scripts/ControlScript.cs:410 | The decimal text of a clock rate: digits only, with a leading zero only for 0. |
| `Startup.NatToStringValue` | common/windows/samples/PeerCCUnity/ClientUnity/Unity/PeerCCUnity/Assets/Scripts/ControlScript.cs:410 | Reading the printed digits back gives the number printed. |
| `Startup.IntToString` | common/windows/samples/PeerCCUnity/ClientUnity/Unity/PeerCCUnity/Assets/Scripts/ControlScript.cs:410 | Defines the text of an int, a minus sign before the digits of a negative one. IntToStringValue states its round trip. |
| `Startup.IntToStringValue` | common/windows/samples/PeerCCUnity/ClientUnity/Unity/PeerCCUnity/Assets/Scripts/ControlScript.cs:410 | Reading the text of any int back, sign included, gives that int. |
| `Startup.AudioKey` | common/windows/samples/PeerCCUnity/ClientUnity/Unity/PeerCCUnity/Assets/Scripts/ControlScript.cs:410 | Defines the Name + ClockRate key. AudioKeySpec states its properties. |
| `Startup.AudioKeySpec` | common/windows/samples/PeerCCUnity/ClientUnity/Unity/PeerCCUnity/Assets/Scripts/ControlScript.cs:410 | The key is the codec name followed by text that reads back as the clock rate. |
| `Startup.IsCompatibleAudio` | common/windows/samples/PeerCCUnity/ClientUnity/Unity/PeerCCUnity/Assets/Scripts/ControlScript.cs:386-410 | Defines the filter test: the codec's name followed by its clock rate is not one of the five incompatible keys. ComfortNoiseDropped and RedAndTelephoneEventDropped state that each of the five is rejected. |
| `Startup.KeepCompatible` | common/windows/samples/PeerCCUnity/ClientUnity/Unity/PeerCCUnity/Assets/Scripts/ControlScript.cs:407-414 | A codec is kept exactly when it is in the input and its `Name+ClockRate` is not on the incompatible list. |
| `Startup.KeepCompatibleAppend` | common/windows/samples/PeerCCUnity/ClientUnity/Unity/PeerCCUnity/Assets/Scripts/ControlScript.cs:407-414 | The filter distributes over concatenation, so kept codecs stay in input order. |
| `Startup.ComfortNoiseDropped` | common/windows/samples/PeerCCUnity/ClientUnity/Unity/PeerCCUnity/Assets/Scripts/ControlScript.cs:386 | CN at 32000, 16000 and 8000 is dropped, whatever its payload type. |
| `Startup.RedAndTelephoneEventDropped` | common/windows/samples/PeerCCUnity/ClientUnity/Unity/PeerCCUnity/Assets/Scripts/ControlScript.cs:386 | red at 8000 and telephone-event at 8000 are dropped, whatever their payload type. |
| `Startup.FilterAudioCodecs` | common/windows/samples/PeerCCUnity/ClientUnity/Unity/PeerCCUnity/Assets/Scripts/ControlScript.cs:405-414 | The foreach loop produces exactly KeepCompatible of the enumerated codecs. |
| `Startup.Rank` | common/windows/samples/PeerCCUnity/ClientUnity/Unity/PeerCCUnity/Assets/Scripts/ControlScript.cs:392-401 | The rank is one of 1, 2, 3 or 99. |
| `Startup.RankSpec` | common/windows/samples/PeerCCUnity/ClientUnity/Unity/PeerCCUnity/Assets/Scripts/ControlScript.cs:392-401 | VP8 ranks 1, VP9 ranks 2 and H264 ranks 3, each exactly for that name. Every other name ranks 99. |
| `Startup.OrderByRank` | common/windows/samples/PeerCCUnity/ClientUnity/Unity/PeerCCUnity/Assets/Scripts/ControlScript.cs:392-401 | Defines the OrderBy as the four rank classes laid end to end. OrderByRankSorted, OrderByRankPermutation and OrderByRankStable state its properties. |
| `Startup.OrderByRankSorted` | common/windows/samples/PeerCCUnity/ClientUnity/Unity/PeerCCUnity/Assets/Scripts/ControlScript.cs:392-401 | Video codecs come out in non-decreasing rank: VP8, then VP9, then H264, then the rest. |
| `Startup.OrderByRankPermutation` | common/windows/samples/PeerCCUnity/ClientUnity/Unity/PeerCCUnity/Assets/Scripts/ControlScript.cs:392-401 | The reordering is a permutation: no codec is lost or duplicated. |
| `Startup.OrderByRankStable` | common/windows/samples/PeerCCUnity/ClientUnity/Unity/PeerCCUnity/Assets/Scripts/ControlScript.cs:392-401 | Codecs of equal rank keep their relative input order. |
| `Startup.FirstWithPayload` | common/windows/samples/PeerCCUnity/ClientUnity/Unity/PeerCCUnity/Assets/Scripts/ControlScript.cs:421-429 | Gives the first position with the payload type, or -1 exactly when there is none. |
| `Startup.PreferredCodec` | common/windows/samples/PeerCCUnity/ClientUnity/Unity/PeerCCUnity/Assets/Scripts/ControlScript.cs:416-435 | Gives none exactly for an empty list. Otherwise it gives the FIRST codec carrying the saved payload type, and codecs[0] when no id is saved or no codec carries it. The result is always a listed codec. |
| `Startup.SelectCodec` | common/windows/samples/PeerCCUnity/ClientUnity/Unity/PeerCCUnity/Assets/Scripts/ControlScript.cs:416-435 | The foreach-with-break search plus the first-codec fallback equals PreferredCodec. |
| `Startup.LoadCodecs` | common/windows/samples/PeerCCUnity/ClientUnity/Unity/PeerCCUnity/Assets/Scripts/ControlScript.cs:405-462 | Audio codecs are filtered and video codecs rank-ordered. Each selection is the saved-or-first choice over the prepared list. |
| `Startup.LastWithId` | common/windows/samples/PeerCCUnity/ClientUnity/Unity/PeerCCUnity/Assets/Scripts/ControlScript.cs:227-234 | Gives the last position with the device id, or -1 exactly when there is none. |
| `Startup.PreferredCamera` | common/windows/samples/PeerCCUnity/ClientUnity/Unity/PeerCCUnity/Assets/Scripts/ControlScript.cs:227-239 | Gives none exactly when there are no devices. Otherwise it gives the LAST device carrying the saved id, and devices[0] when no id is saved or no device carries it. The result is always a listed device. |
| `Startup.SelectCamera` | common/windows/samples/PeerCCUnity/ClientUnity/Unity/PeerCCUnity/Assets/Scripts/ControlScript.cs:225-239 | Cameras lists every device in order, and the selection equals PreferredCamera. The last match wins because the loop has no break. |
| `Startup.UniqueByDescription` | common/windows/samples/PeerCCUnity/ClientUnity/Unity/PeerCCUnity/Assets/Scripts/ControlScript.cs:245 | Keeps input elements only, with pairwise distinct descriptions and the same set of descriptions. The result is empty exactly when the input is, and its head is the input's head. |
| `Startup.FirstWithDescription` | common/windows/samples/PeerCCUnity/ClientUnity/Unity/PeerCCUnity/Assets/Scripts/ControlScript.cs:245 | Gives the first position with the description, or -1 exactly when there is none. |
| `Startup.UniqueByDescriptionFirsts` | common/windows/samples/PeerCCUnity/ClientUnity/Unity/PeerCCUnity/Assets/Scripts/ControlScript.cs:245 | Each kept capability is the first offered one with its description, as grp.First() takes it. The kept ones follow the order in which their descriptions first appear. |
| `Startup.LastPreferred` | common/windows/samples/PeerCCUnity/ClientUnity/Unity/PeerCCUnity/Assets/Scripts/ControlScript.cs:254-257 | Gives the last 896x504 position, or -1 exactly when there is none. |
| `Startup.DefaultResolution` | common/windows/samples/PeerCCUnity/ClientUnity/Unity/PeerCCUnity/Assets/Scripts/ControlScript.cs:245-260 | Gives none exactly when nothing is offered. It gives the LAST 896x504 entry of the grouped list, and with no such entry the first offered capability. |
| `Startup.SelectDefaultResolution` | common/windows/samples/PeerCCUnity/ClientUnity/Unity/PeerCCUnity/Assets/Scripts/ControlScript.cs:243-262 | The loop over the grouped capabilities equals DefaultResolution. |
| `Startup.LoadSettings` | common/windows/samples/PeerCCUnity/ClientUnity/Unity/PeerCCUnity/Assets/Scripts/ControlScript.cs:859-933 | Each stored value overrides its default. An empty NTP server is ignored. An absent or malformed ICE list yields the five built-in STUN servers, and a decoded list is used as given. |
| `Manifest.Contains` | common/windows/samples/PeerCCUnity/ClientUnity/Unity/PeerCCUnity/Assets/Scripts/Editor/PostUWPBuild.cs:25 | Defines `string.Contains`: the text occurs in the line at some offset. BlockCarriesMarker exhibits such an offset for the block's Path line. |
| `Manifest.HasMarker` | common/windows/samples/PeerCCUnity/ClientUnity/Unity/PeerCCUnity/Assets/Scripts/Editor/PostUWPBuild.cs:25 | Defines the `lines.Any(x => x.Contains("WebRtcScheme.dll"))` test: some line contains the marker. Patch, PatchedHasMarker and PatchIdempotent are stated with it. |
| `Manifest.Patch` | common/windows/samples/PeerCCUnity/ClientUnity/Unity/PeerCCUnity/Assets/Scripts/Editor/PostUWPBuild.cs:25-41 | A manifest with the marker is unchanged. Otherwise the result grows by exactly 8 lines: all lines before the last stay in place, the 8 block lines follow in order, and the original last line stays last. |
| `Manifest.BlockCarriesMarker` | common/windows/samples/PeerCCUnity/ClientUnity/Unity/PeerCCUnity/Assets/Scripts/Editor/PostUWPBuild.cs:36 | The inserted `<Path>` line contains `WebRtcScheme.dll`. |
| `Manifest.PatchedHasMarker` | common/windows/samples/PeerCCUnity/ClientUnity/Unity/PeerCCUnity/Assets/Scripts/Editor/PostUWPBuild.cs:31-41 | Every patched manifest contains the marker. |
| `Manifest.PatchIdempotent` | common/windows/samples/PeerCCUnity/ClientUnity/Unity/PeerCCUnity/Assets/Scripts/Editor/PostUWPBuild.cs:25-41 | Patching twice gives the same result as patching once. |
| `Manifest.OnPostprocessBuild` | common/windows/samples/PeerCCUnity/ClientUnity/Unity/PeerCCUnity/Assets/Scripts/Editor/PostUWPBuild.cs:12-45 | A target other than WSAPlayer writes nothing. A manifest that already has the marker writes nothing. Otherwise the patched lines are written. The input must be non-empty only for WSAPlayer. |

## Left out

- Unity widgets (`RawImage`, `InputField`, `Button`, `Text`, `Instantiate`, `EventTrigger`) are
  reduced to enable flags, two label strings and a list of (name, bold) items. A new list
  item is taken to start in normal font.
- Control.ControlScript.constructor: the button labels "Connect" and "Call" are not set by any
  initialiser in ControlScript.cs. They are the texts the Unity scene gives the two buttons,
  which the model takes as an assumption.
- Native playback interop (`Plugin`, `OnEnable`, `OnDisable`, `Load*MediaStreamSource`) is
  not modelled. Unbinding a track's display element is not modelled either. These are
  foreign calls.
- `Conductor_OnRemoveRemoteTrack` is not modelled. It only unbinds a display element, which
  is interop.
- `OnServerConnectionFailure` and `OnReadyToConnect` are not modelled. They only log, so
  they change no state.
- Concurrency is not modelled because the model is sequential. This covers `lock`, the
  started `Task`s, `RunOnUiThread`, the awaits in `OnAppSuspending` and the `Invoke`
  timers in `Start`.
- Control.ControlScript.OnRemotePeerItemClick: a click event with no selected object throws a
  `NullReferenceException` at line 742 on the first child, before any font or selection has
  changed. The model takes that case as a no-op and does not model the exception itself.
- Control.ControlScript.OnAppSuspending: reads both flags as they are at entry. Events that
  arrive during the awaits are not modelled.
- Control.ControlScript.OnAddLocalTrack: the track's enable flag is set when the track is
  stored. The model holds tracks as values, so sharing a track object with the Conductor
  is not modelled.
- Conductor and Signaller internals are not modelled: device and codec enumeration, capture
  capabilities, `ConfigureIceServers`, `SelectVideoDevice`, and the `VideoCaptureProfile` and
  codec properties. The selections are returned instead of being stored there.
- `Conductor.Instance.Peers` is taken to be the same collection as `Peers`.
- The settings store and `XmlSerializer` come in as optional inputs. Writes back to the store
  from the camera and codec setters are not modelled.
- `ValidableNonEmptyString` and `ValidableIntegerString` are not part of this model. Their
  values are kept as raw strings and integers.
- Startup.LoadCodecs: requires a saved audio id in 0..255 when at least one compatible audio
  codec remains. Only then does the source run `Convert.ToByte` (line 420, guarded by the count
  test at line 416), which throws outside that range; the model does not cover that exception.
- Startup.LoadSettings: takes the stored values as already typed. In the source, `Convert.ToInt32`
  (line 877) and the `(string)` casts (lines 872, 884, 889 and 916) sit outside the try/catch. A
  stored value of the wrong type therefore throws and ends `LoadSettings` before
  `ConfigureIceServers` (line 932), so no ICE servers are set. The model does not capture that abort.
- Startup.LoadCodecs: takes the Conductor's audio and video codecs as unset at startup. The
  fallbacks test `SelectedAudioCodec == null` and `SelectedVideoCodec == null` (lines 431 and 457).
  Those getters read `Conductor.Instance.AudioCodec` and `VideoCodec` (lines 163 and 178). A codec
  already set in the Conductor would skip the fallback.
- Startup.SelectCamera: the model does not capture the exception the source raises when
  there is no camera at all (`SelectedCamera.GetVideoCaptureCapabilities()` on null).
- A `Command` of the add or remove kind is taken to carry a peer. A null peer would throw in
  the source.
- Debug logging is not modelled.
- `PostUWPBuild` file-system calls are not modelled: finding, reading and writing the
  manifest file. The manifest comes in as its lines.
