# Real-time session layer of the codeTie web client, in Dafny

This project models the event-driven coordination code of the codeTie client.
That code is the part of the React components that reacts to socket events
and button presses, plus the Redux slice that holds received connection
requests. Every handler is a pure transition. It takes the component's state
and an inbound event or user action, and returns the next state plus the
effects it produces, in order. An effect is an outbound socket event (`Emit`),
a route change (`Navigate`, with the router's `isCaller` state) or an `alert`.

Modules:

- `Signals` (signals.dfy): optional payload fields, JavaScript truthiness of a
  possibly-missing string, the outbound event names and payloads, and the effects.
- `RoomIdentity` (room_identity.dfy): `[a, b].sort().join("_")`. It covers
  JavaScript's default string order, commutativity, and the fact that the key
  identifies the pair.
- `JsString` (js_string.dfy): `String.prototype.trim`, used for the blank-draft guard.
- `Chat` (chat.dfy): the chat view. It covers the mount handshake, received
  messages, seen receipts, sending, and the caller side of a call. Each press
  of the call button registers one `callResponse` listener and one `once`
  failure hook. The view also has the callee's Accept/Decline prompt.
- `CallNotifier` (call_notification.dfy): the incoming-call notifier. Its state
  is `{incomingCall, isVisible}` plus the armed 30 s auto-decline callbacks.
  Nothing cancels those callbacks.
- `VideoSignaling` (video_call.dfy): the call page. The peer connection is
  abstracted to what it has accepted: local and remote description, the
  remote candidates it added, and tracks. Offers and answers come from generator
  functions passed as parameters.
- `ConnectionRequests` (connection_requests.dfy): the `requests` reducer.

The model follows the code where the code departs from an idealised call
protocol:

- seen-marking matches the message's `firstName` against the user's, not the
  sender id;
- sending does not append the message locally;
- an incoming call while another one is pending replaces it, with no busy reply;
- the auto-decline callback is never disarmed. It still sends "declined" after
  a manual accept or decline, and it clears whatever call is pending when it
  fires;
- relayed ICE candidates are handed to the connection at once and never queued, so one that arrives before any remote description is rejected and lost;
- the notifier's response handler does not filter by room. Chat's handler does.

Hang-up, teardown, glare tie-breaking and an "unreachable" call state do not
exist in this code, so they are not modelled.

## Model

| member | source | states |
|---|---|---|
| RoomIdentity.LexLeTotal | src/components/Chat.jsx:49 | any two ids are ordered one way or the other by the default sort order |
| RoomIdentity.LexLeAntisymmetric | src/components/Chat.jsx:49 | two ids that each sort no later than the other are equal, so the sorted pair is unique |
| RoomIdentity.LexLeTransitive | src/components/Chat.jsx:49 | the default sort order is transitive |
| RoomIdentity.RoomId | src/components/Chat.jsx:49 | the key is the lexicographically smaller id, `_`, then the larger one; its length is the sum plus one |
| RoomIdentity.RoomIdCommutative | src/components/CallNotification.jsx:96 | both parties compute the same key: `RoomId(a, b) == RoomId(b, a)` |
| RoomIdentity.RoomIdStartsWithSmaller | src/components/Chat.jsx:49 | the key starts with whichever id sorts first |
| RoomIdentity.SplitAtFirstSeparator | src/components/Chat.jsx:49 | a joined key splits back into its two parts at the first underscore when the first part has none |
| RoomIdentity.RoomIdIdentifiesPair | src/components/Chat.jsx:60 | for ids without `_`, equal keys mean the same pair of participants, so filtering on the key picks out one pairing |
| JsString.TrimStart | src/components/Chat.jsx:161 | the result is a suffix of the input; the dropped prefix is all white space; the result does not start with white space |
| JsString.TrimEnd | src/components/Chat.jsx:161 | the result is a prefix of the input; the dropped suffix is all white space; the result does not end with white space |
| JsString.TrimEmptyIffBlank | src/components/Chat.jsx:161 | `JsString.Trim` (`TrimEnd` after `TrimStart`, as `text.trim()`) is empty exactly when every character is ECMAScript white space or a line terminator |
| Chat.Mount | src/components/Chat.jsx:94-119 | with `userId` or `targetUserId` falsy, there is no socket and nothing is sent; otherwise exactly `userOnline`, `joinChat`, `markAsSeen` are sent, in that order; the resulting state satisfies `Valid` |
| Chat.AppendReceived | src/components/Chat.jsx:122-133 | the received message is appended at the end, unseen, with its fields; every earlier message is unchanged; a falsy timestamp becomes `now` |
| Chat.MarkOwnSeen | src/components/Chat.jsx:138-142 | the length and order are kept; `isSeen` is set on exactly the messages whose `firstName` equals the user's; all others are untouched |
| Chat.MarkOwnSeenIdempotent | src/components/Chat.jsx:138-142 | applying the seen receipt twice equals applying it once |
| Chat.MarkOwnSeenIgnoresSender | src/components/Chat.jsx:140 | for every list and every message in it, changing that message's sender id changes nothing in the result but that id, so a message the peer sent under the user's first name is flagged as seen too |
| Chat.OnMessagesSeen | src/components/Chat.jsx:136-144 | a receipt whose `by` is not the target leaves the state unchanged; one from the target marks the user's messages |
| Chat.SendMessage | src/components/Chat.jsx:160-174 | a blank draft or no socket sends nothing and keeps the draft; otherwise exactly one `sendMessage` carries the untrimmed draft and the draft is cleared; messages never change |
| Chat.StartCall | src/components/Chat.jsx:48-80 | with a socket, exactly one `sendCallNotification` is sent for the sorted-join room, and one response listener and one failure hook are added for that room; without a socket nothing happens |
| Chat.Reaction | src/components/Chat.jsx:62-68 | one listener's reaction to a response for its room: "accepted" navigates to the call as caller, "declined" alerts "Call declined", any other answer does nothing; nothing is sent back |
| Chat.DispatchResponse | src/components/Chat.jsx:59-73 | a listener survives exactly when it was registered and waits for another room; the survivors never outnumber the listeners; the reactions are one per removed listener (the exact survivors and count are `Chat.DispatchExact`) |
| Chat.DispatchIgnoresOtherRooms | src/components/Chat.jsx:60 | a response for a room no listener waits for leaves the listeners as they are and has no effect |
| Chat.DispatchSurvivors | src/components/Chat.jsx:59-71 | the listeners left after a response are exactly the other rooms' listeners, in registration order |
| Chat.DispatchReactions | src/components/Chat.jsx:59-71 | the effects of a response are one reaction per listener of the response's room |
| Chat.DispatchExact | src/components/Chat.jsx:59-71 | a dispatch leaves exactly the other rooms' listeners, in order, and reacts exactly once per listener of the response's room |
| Chat.DispatchConsumesMatching | src/components/Chat.jsx:59-71 | when every listener waits for the response's room, each reacts once and none remains |
| Chat.OnCallResponse | src/components/Chat.jsx:59-73 | only the listener list changes, and `Valid` is kept |
| Chat.RemoveHooked | src/components/Chat.jsx:76-79 | exactly the listeners whose failure hook did not fire survive |
| Chat.OnCallFailed | src/components/Chat.jsx:76-79 | each pending hook alerts once; no response listener and no hook remains; messages and the prompt are unchanged |
| Chat.ResponseActedOnAtMostOnce | src/components/Chat.jsx:59-73 | after a response for a room has been dispatched, a second one for that room has no effect |
| Chat.SingleCallResponse | src/components/Chat.jsx:48-73 | after one call press, a response for another room is ignored and the listener stays; the response for this room navigates as caller on "accepted" or alerts on "declined", exactly once, and the listener is removed |
| Chat.FailureSilencesLaterResponse | src/components/Chat.jsx:59-79 | after `callNotificationFailed`, any later `callResponse` has no effect |
| Chat.OnIncomingCall | src/components/Chat.jsx:147-149 | the prompt holds the caller's name, id and room; nothing else changes |
| Chat.AcceptIncoming | src/components/Chat.jsx:251-263 | with a pending call, sends "accepted" with its caller and room, then navigates to the call without router state, and clears the prompt; without one nothing happens |
| Chat.DeclineIncoming | src/components/Chat.jsx:265-273 | with a pending call, sends "declined" with its caller and room and clears the prompt; without one nothing happens |
| Chat.Receive | src/components/Chat.jsx:121-149 | without a socket no event is seen; ids, connection and draft never change; only `messageRecived` changes the number of messages; `Valid` is kept |
| Chat.Act | src/components/Chat.jsx:230-277 | no user action changes the messages or the connection; `Valid` is kept |
| CallNotifier.OnIncomingCall | src/components/CallNotification.jsx:14-29 | the call is stored and shown, and one more auto-decline callback is armed 30000 ms later with this ring's caller and room |
| CallNotifier.AcceptCall | src/components/CallNotification.jsx:63-79 | with a pending call, exactly one "accepted" is sent with its caller and room, then a navigation with `isCaller: false`; the call is cleared and hidden; armed callbacks stay; without a call it is a no-op |
| CallNotifier.DeclineCall | src/components/CallNotification.jsx:81-92 | "declined" is sent only if a call is pending; it always ends hidden with no call; armed callbacks stay |
| CallNotifier.OnElapse | src/components/CallNotification.jsx:19-28 | nothing happens before the oldest callback is due; when it is due, the pending call is cleared and hidden and "declined" is sent for the caller and room that callback captured |
| CallNotifier.OnCallResponse | src/components/CallNotification.jsx:32-44 | "accepted" navigates as caller to the room; any other value alerts "Call was declined"; there is no room filter and nothing is sent |
| CallNotifier.InitiateCall | src/components/CallNotification.jsx:95-107 | exactly one `sendCallNotification` for the pair's room is sent (the call type defaults to "video"), with no navigation |
| CallNotifier.Handle | src/components/CallNotification.jsx:12-92 | every action keeps visibility and the pending call in step; only a ring arms a callback, and nothing else adds one |
| CallNotifier.Run | src/components/CallNotification.jsx:12-92 | any sequence of actions keeps visibility and the pending call in step |
| CallNotifier.RenderGuardFollowsRing | src/components/CallNotification.jsx:109-111 | `CallNotifier.Shown` is the guard `isVisible && incomingCall`; the prompt is drawn after a ring and not after accept, decline or a fired auto-decline |
| CallNotifier.NoAutoDeclineBeforeDeadline | src/components/CallNotification.jsx:20-28 | after a ring on an idle notifier, nothing fires before 30000 ms have passed |
| CallNotifier.AutoDeclineSurvivesAccept | src/components/CallNotification.jsx:20-28 | ring, accept, then 30000 ms: "accepted" and then "declined" are both sent for the same caller and room |
| CallNotifier.AutoDeclineSurvivesDecline | src/components/CallNotification.jsx:20-28 | ring, decline, then 30000 ms: "declined" is sent twice |
| CallNotifier.UnansweredRingDeclinedOnce | src/components/CallNotification.jsx:14-28 | an unanswered ring is declined exactly once at its deadline and the prompt is gone |
| CallNotifier.StaleCallbackClearsNewerRing | src/components/CallNotification.jsx:14-28 | the first ring's callback clears a second ring's prompt while answering for the first caller; the second callback stays armed |
| VideoSignaling.Mount | src/components/VideoCall.jsx:13-15 | `joinVideoRoom` with the room is sent first, with no peer connection yet |
| VideoSignaling.AddTrack | src/components/VideoCall.jsx:24-26 | adding a track appends it and changes nothing else |
| VideoSignaling.OnMediaAcquired | src/components/VideoCall.jsx:18-30 | a fresh connection receives every local track, in order, and only then is one `ready` sent |
| VideoSignaling.Start | src/components/VideoCall.jsx:13-30 | mount then media: `joinVideoRoom` then `ready`, and the connection carries exactly the local tracks with no descriptions |
| VideoSignaling.OnReady | src/components/VideoCall.jsx:33-37 | the generated offer becomes the local description, and exactly one `video-offer` with that offer and the room is sent |
| VideoSignaling.OnOffer | src/components/VideoCall.jsx:40-45 | the offer is set as the remote description before the answer is generated; the answer becomes the local description, and exactly one `video-answer` is sent |
| VideoSignaling.OnAnswer | src/components/VideoCall.jsx:48-50 | only the remote description changes and nothing is sent |
| VideoSignaling.OnRemoteCandidate | src/components/VideoCall.jsx:53-57 | a null candidate is ignored; any other is passed to `addIceCandidate` at once: with a remote description set it is appended to the accepted candidates, without one the rejection is not caught and the state is unchanged |
| VideoSignaling.OnLocalCandidate | src/components/VideoCall.jsx:66-70 | a discovered candidate is forwarded as `ice-candidate` with the room only when it is non-null |
| VideoSignaling.LocalCandidatesForwardedInOrder | src/components/VideoCall.jsx:66-70 | a run of discovered candidates sends exactly one `ice-candidate` per non-null candidate, in discovery order, each with the room |
| VideoSignaling.Receive | src/components/VideoCall.jsx:32-57 | the room, stream and tracks never change; accepted candidates are only appended to; only `ready` and `video-offer` send anything |
| VideoSignaling.CandidatesAcceptedInArrivalOrder | src/components/VideoCall.jsx:53-57 | with a remote description set, relayed candidates are accepted in arrival order with nulls dropped; without one all of them are lost; the descriptions are untouched |
| VideoSignaling.EarlyCandidateLost | src/components/VideoCall.jsx:48-57 | a candidate that arrives before any remote description is not queued: the connection is unchanged, and after the answer arrives that candidate is still missing |
| VideoSignaling.OfferAnswerExchangeAgrees | src/components/VideoCall.jsx:33-50 | after ready, offer, answer between two pages, each side's remote description is the other's local one |
| ConnectionRequests.RemoveById | src/utils/connectionRequestSlice.js:8-11 | no request with the id survives; every other one does, and the result is a subsequence of the input |
| ConnectionRequests.RemoveKeepsMultiplicity | src/utils/connectionRequestSlice.js:9 | every request with another id occurs as often after removal as before; requests with the id occur zero times |
| ConnectionRequests.Reduce | src/utils/connectionRequestSlice.js:3-13 | `addConnectionRequest` replaces the list with its payload; `removeConnectionRequest` is exactly `RemoveById`: no request with the id survives, every other one does, as often as it occurred (`ConnectionRequests.RemoveKeepsMultiplicity`), in its original order; any other action leaves the list alone |
| ConnectionRequests.RemoveAbsentUnchanged | src/utils/connectionRequestSlice.js:9 | removing an id no request carries returns the list unchanged |
| ConnectionRequests.RemoveAbsentIsIdentity | src/utils/connectionRequestSlice.js:9 | removal leaves the list unchanged exactly when no request carries the id |
| ConnectionRequests.RemoveIdempotent | src/utils/connectionRequestSlice.js:9 | removing the same id twice equals removing it once |
| ConnectionRequests.RemoveShrinks | src/utils/connectionRequestSlice.js:9 | removal never grows the list, and shrinks it exactly when the id is present |
| ConnectionRequests.RemovalsCommute | src/utils/connectionRequestSlice.js:9 | two removals give the same list in either order |

The initial state of the slice is the constant `ConnectionRequests.Initial`,
the empty list (src/utils/connectionRequestSlice.js:5).

## Left out

- HTTP calls: loading the chat history and the peer's profile (src/components/Chat.jsx:24-45 and 82-92). They are request/response I/O. The model starts each chat with an empty message list, as the component's first render does. The real history fetch resolves later and replaces `messages` wholesale (src/components/Chat.jsx:41), which discards any `messageRecived` message appended in the meantime; that race is not modelled.
- Socket transport and the relay server: each `emit` is an `Emit` effect, and inbound events are inputs.
- Unmounting, and re-running an effect when its dependencies change. Each component is modelled for one mount. The chat view disconnects its own socket on unmount (src/components/Chat.jsx:151-153). The call page (src/components/VideoCall.jsx:13-58) has no cleanup at all: its four listeners stay on the module-level socket after unmount, so a second visit to the page registers every handler twice. Repeated visits are not modelled. The notifier re-registers its listeners whenever `incomingCall` changes, but one listener per event is always registered, so nothing observable changes.
- Awaits inside the `ready` and `video-offer` handlers. Each handler is modelled as one atomic step, so interleavings between its awaits are not modelled.
- WebRTC internals: `getUserMedia`, SDP generation, ICE gathering, the STUN configuration and `ontrack` showing the remote stream (src/components/VideoCall.jsx:72-74). A media-permission failure is also left out, since the code does not handle it.
- Rendering, `scrollIntoView`, dayjs formatting and console logging. Clock readings are parameters (`now`).
- The `ChatInterface` example component (src/components/CallNotification.jsx:150-186). It is demo code that navigates via `window.location`.
- RoomIdentity.LexLe: compares Dafny characters (code points), while JavaScript compares UTF-16 code units. The two orders differ only for characters outside the Basic Multilingual Plane.
- CallNotifier.InitiateCall: the ids are strings. An undefined `currentUserId` or `targetUserId` is not modelled; JavaScript's sort would put it last and join it as an empty string.
- CallNotifier.OnElapse: fires the oldest armed callback. That is the next one due only if the `now` values of successive rings do not decrease; the model does not track a clock.
- ConnectionRequests.Reduce: the payload is a list. An `undefined` payload (a failed fetch shape) is not modelled.
- Chat.StartCall: pressing the call button without a socket throws before any effect. The model treats that press as a no-op.
- Chat.SendMessage, Chat.StartCall, Chat.OnCallResponse, Chat.OnCallFailed, Chat.Receive and Chat.Act require `Chat.Valid`. Every state reachable from `Chat.Mount` satisfies it: a socket exists only when both ids are present, and every response listener belongs to this room and has its failure hook.
- VideoSignaling.OnReady, OnOffer, OnAnswer and OnRemoteCandidate (for a non-null candidate) require the peer connection to exist. The handlers dereference it, and they would throw before media is acquired.
