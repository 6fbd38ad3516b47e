/** The chat view of one conversation (`Chat` in src/components/Chat.jsx):
    the socket handshake on mount, received messages, seen receipts, sending,
    the caller side of a video call and the callee's accept/decline prompt.
    Every handler is a pure transition from the component's state to its next
    state plus the effects it produces. */
module Chat {
  import opened Signals
  import RoomIdentity
  import JsString

  datatype Message = Message(senderId: string, firstName: Option<string>, text: string,
                             timestamp: string, isSeen: bool)

  /** What the `incomingCall` listener keeps of a ring (the call type is dropped). */
  datatype PendingCall = PendingCall(callerName: string, callerId: string, roomId: string)

  /** A `callResponse` listener registered by one press of the call button;
      `id` identifies the closure, so that the matching `off` removes it alone. */
  datatype ResponseListener = ResponseListener(id: nat, roomId: string)

  /** The component's state. `connected` says whether a socket was created on
      mount; `failureHooks` are the pending `once("callNotificationFailed")`
      closures, each named by the id of the response listener it cleans up. */
  datatype Session = Session(
    userId: Option<string>,
    firstName: Option<string>,
    targetUserId: Option<string>,
    connected: bool,
    messages: seq<Message>,
    draft: string,
    incomingCall: Option<PendingCall>,
    responseListeners: seq<ResponseListener>,
    failureHooks: seq<nat>,
    nextListener: nat)

  /** Socket events the component listens to. */
  datatype Inbound =
    | MessageRecived(firstName: Option<string>, text: string, timestamp: Option<string>, senderId: string)
    | MessagesSeen(seenBy: Option<string>)
    | IncomingCall(callerName: string, callerId: string, callType: string, roomId: string)
    | CallResponse(response: string, roomId: string)
    | CallNotificationFailed(reason: string)

  /** What the user does in the view. */
  datatype UserAction =
    | Type(text: string)
    | Send
    | StartVideoCall
    | AcceptCall
    | DeclineCall

  /** The room of this conversation; only meaningful once connected. */
  function Room(s: Session): string
    requires s.connected && Truthy(s.userId) && Truthy(s.targetUserId)
  {
    RoomIdentity.RoomId(s.userId.value, s.targetUserId.value)
  }

  /** Facts every reachable state satisfies: a socket exists only when both ids
      are present, listeners and the call prompt exist only with a socket, every
      response listener is for this conversation's room and still has its
      failure hook pending. */
  predicate Valid(s: Session) {
    && (s.connected ==> Truthy(s.userId) && Truthy(s.targetUserId))
    && (s.incomingCall.Some? ==> s.connected)
    && (|s.responseListeners| > 0 ==> s.connected)
    && (forall l :: l in s.responseListeners ==> l.id in s.failureHooks)
    && (forall l :: l in s.responseListeners ==> s.connected && Truthy(s.userId) && Truthy(s.targetUserId) && l.roomId == Room(s))
  }

  // ---------------------------------------------------------------- mount

  /** The component's first render followed by the socket effect: with either id
      missing no socket is created and nothing is sent; otherwise the socket
      announces the user, joins the chat and marks the peer's messages seen, in
      that order. */
  function Mount(userId: Option<string>, firstName: Option<string>, targetUserId: Option<string>): (r: Step<Session>)
    ensures Valid(r.state)
    ensures r.state.connected <==> Truthy(userId) && Truthy(targetUserId)
    ensures !r.state.connected ==> r.effects == []
    ensures r.state.connected ==>
      r.effects == [Emit(UserOnline(userId.value)),
                    Emit(JoinChat(firstName, userId.value, targetUserId.value)),
                    Emit(MarkAsSeen(userId.value, targetUserId.value))]
    ensures r.state.messages == [] && r.state.draft == "" && r.state.incomingCall == None
    ensures r.state.responseListeners == [] && r.state.failureHooks == []
  {
    var s := Session(userId, firstName, targetUserId, false, [], "", None, [], [], 0);
    if !Truthy(userId) || !Truthy(targetUserId) then
      Step(s, [])
    else
      Step(s.(connected := true),
           [Emit(UserOnline(userId.value)),
            Emit(JoinChat(firstName, userId.value, targetUserId.value)),
            Emit(MarkAsSeen(userId.value, targetUserId.value))])
  }

  // ------------------------------------------------------------- messages

  /** A received message goes to the end, unseen; a falsy timestamp becomes `now`. */
  function AppendReceived(messages: seq<Message>, firstName: Option<string>, text: string,
                          timestamp: Option<string>, senderId: string, now: string): (r: seq<Message>)
    ensures |r| == |messages| + 1
    ensures r[..|messages|] == messages
    ensures r[|messages|].senderId == senderId && r[|messages|].firstName == firstName
    ensures r[|messages|].text == text && !r[|messages|].isSeen
    ensures Truthy(timestamp) ==> r[|messages|].timestamp == timestamp.value
    ensures !Truthy(timestamp) ==> r[|messages|].timestamp == now
  {
    messages + [Message(senderId, firstName, text, if Truthy(timestamp) then timestamp.value else now, false)]
  }

  /** Flags as seen every message whose first name is `firstName` (the user's),
      whoever sent it; every other message is left as it was. */
  function MarkOwnSeen(messages: seq<Message>, firstName: Option<string>): (r: seq<Message>)
    ensures |r| == |messages|
    ensures forall i :: 0 <= i < |messages| && messages[i].firstName == firstName ==>
      r[i] == messages[i].(isSeen := true)
    ensures forall i :: 0 <= i < |messages| && messages[i].firstName != firstName ==>
      r[i] == messages[i]
  {
    if messages == [] then []
    else
      var head := if messages[0].firstName == firstName then messages[0].(isSeen := true) else messages[0];
      [head] + MarkOwnSeen(messages[1..], firstName)
  }

  /** Seen-marking twice is seen-marking once. */
  lemma MarkOwnSeenIdempotent(messages: seq<Message>, firstName: Option<string>)
    ensures MarkOwnSeen(MarkOwnSeen(messages, firstName), firstName) == MarkOwnSeen(messages, firstName)
  {
  }

  /** Seen-marking matches on the first name, not on the sender: giving any
      message another sender id changes nothing but that id, so a message the
      peer sent under the user's own first name is flagged like the user's own. */
  lemma {:induction false} MarkOwnSeenIgnoresSender(messages: seq<Message>, firstName: Option<string>, i: nat, sender: string)
    requires i < |messages|
    ensures var r := MarkOwnSeen(messages, firstName);
            MarkOwnSeen(messages[i := messages[i].(senderId := sender)], firstName) == r[i := r[i].(senderId := sender)]
  {
    var r := MarkOwnSeen(messages, firstName);
    var moved := messages[i := messages[i].(senderId := sender)];
    var r2 := MarkOwnSeen(moved, firstName);
    assert forall j :: 0 <= j < |r2| ==> r2[j] == r[i := r[i].(senderId := sender)][j];
  }

  function OnMessagesSeen(s: Session, seenBy: Option<string>): (r: Session)
    ensures seenBy != s.targetUserId ==> r == s
    ensures seenBy == s.targetUserId ==> r == s.(messages := MarkOwnSeen(s.messages, s.firstName))
  {
    if seenBy == s.targetUserId then s.(messages := MarkOwnSeen(s.messages, s.firstName)) else s
  }

  // -------------------------------------------------------------- sending

  /** A blank draft, or no socket, sends nothing and keeps the draft; otherwise
      the untrimmed draft is sent once and cleared. Nothing is appended locally. */
  function SendMessage(s: Session): (r: Step<Session>)
    requires Valid(s)
    ensures Valid(r.state)
    ensures JsString.AllWhiteSpace(s.draft) || !s.connected ==> r == Step(s, [])
    ensures !JsString.AllWhiteSpace(s.draft) && s.connected ==>
      && r.state == s.(draft := "")
      && r.effects == [Emit(Signals.SendMessage(s.firstName, s.draft, s.targetUserId.value, s.userId.value))]
  {
    JsString.TrimEmptyIffBlank(s.draft);
    if JsString.Trim(s.draft) == [] || !s.connected then
      Step(s, [])
    else
      Step(s.(draft := ""),
           [Emit(Signals.SendMessage(s.firstName, s.draft, s.targetUserId.value, s.userId.value))])
  }

  // ------------------------------------------------- caller side of a call

  /** The call button: announces a video call for this conversation's room and
      arms one response listener and one failure hook for it. Without a socket
      the handler throws before doing anything. */
  function StartCall(s: Session): (r: Step<Session>)
    requires Valid(s)
    ensures Valid(r.state)
    ensures !s.connected ==> r == Step(s, [])
    ensures s.connected ==>
      && r.effects == [Emit(SendCallNotification(s.userId.value, s.firstName, s.targetUserId.value,
                                                 VIDEO, RoomIdentity.RoomId(s.userId.value, s.targetUserId.value)))]
      && r.state.responseListeners == s.responseListeners + [ResponseListener(s.nextListener, Room(s))]
      && r.state.failureHooks == s.failureHooks + [s.nextListener]
      && r.state.messages == s.messages && r.state.draft == s.draft
      && r.state.incomingCall == s.incomingCall
  {
    if !s.connected then
      Step(s, [])
    else
      var room := Room(s);
      Step(s.(responseListeners := s.responseListeners + [ResponseListener(s.nextListener, room)],
              failureHooks := s.failureHooks + [s.nextListener],
              nextListener := s.nextListener + 1),
           [Emit(SendCallNotification(s.userId.value, s.firstName, s.targetUserId.value, VIDEO, room))])
  }

  /** What one listener does with a response for its own room: "accepted"
      opens the call as caller, "declined" alerts, anything else is ignored.
      Nothing is sent back. */
  function Reaction(response: string, roomId: string): (r: seq<Effect>)
    ensures response == ACCEPTED ==> r == [Navigate(VideoCallPath(roomId), Some(true))]
    ensures response == DECLINED ==> r == [Alert("Call declined")]
    ensures response != ACCEPTED && response != DECLINED ==> r == []
    ensures Emitted(r) == []
  {
    if response == ACCEPTED then [Navigate(VideoCallPath(roomId), Some(true))]
    else if response == DECLINED then [Alert("Call declined")]
    else []
  }

  function Repeat(effects: seq<Effect>, n: nat): seq<Effect> {
    if n == 0 then [] else effects + Repeat(effects, n - 1)
  }

  /** Delivers one `callResponse` to every registered listener in registration
      order: listeners of another room ignore it and stay; each listener of this
      room reacts and removes itself. */
  function DispatchResponse(listeners: seq<ResponseListener>, response: string, roomId: string)
    : (r: (seq<ResponseListener>, seq<Effect>))
    ensures forall l :: l in r.0 <==> l in listeners && l.roomId != roomId
    ensures |r.0| <= |listeners|
    ensures r.1 == Repeat(Reaction(response, roomId), |listeners| - |r.0|)
  {
    if listeners == [] then ([], [])
    else
      var rest := DispatchResponse(listeners[1..], response, roomId);
      assert forall l :: l in listeners <==> l == listeners[0] || l in listeners[1..];
      if listeners[0].roomId == roomId then
        (rest.0, Reaction(response, roomId) + rest.1)
      else
        ([listeners[0]] + rest.0, rest.1)
  }

  /** The listeners that do not wait for `roomId`, in registration order. */
  function Others(listeners: seq<ResponseListener>, roomId: string): seq<ResponseListener> {
    if listeners == [] then []
    else (if listeners[0].roomId != roomId then [listeners[0]] else []) + Others(listeners[1..], roomId)
  }

  /** How many listeners wait for `roomId`. */
  function Matching(listeners: seq<ResponseListener>, roomId: string): nat {
    if listeners == [] then 0
    else (if listeners[0].roomId == roomId then 1 else 0) + Matching(listeners[1..], roomId)
  }

  /** The listeners that survive a dispatch are the other rooms' ones, in order. */
  lemma {:induction false} DispatchSurvivors(listeners: seq<ResponseListener>, response: string, roomId: string)
    ensures DispatchResponse(listeners, response, roomId).0 == Others(listeners, roomId)
  {
    if listeners != [] {
      DispatchSurvivors(listeners[1..], response, roomId);
      if listeners[0].roomId == roomId {
        assert Others(listeners, roomId) == Others(listeners[1..], roomId);
      }
    }
  }

  /** A dispatch reacts once per listener of the response's room. */
  lemma {:induction false} DispatchReactions(listeners: seq<ResponseListener>, response: string, roomId: string)
    ensures DispatchResponse(listeners, response, roomId).1
         == Repeat(Reaction(response, roomId), Matching(listeners, roomId))
  {
    if listeners != [] {
      DispatchReactions(listeners[1..], response, roomId);
      var m := Matching(listeners[1..], roomId);
      if listeners[0].roomId == roomId {
        assert Matching(listeners, roomId) == m + 1;
      }
    }
  }

  /** Dispatch exactly: the survivors are the other rooms' listeners in their
      order, and the response's room gets one reaction per listener it has. */
  lemma DispatchExact(listeners: seq<ResponseListener>, response: string, roomId: string)
    ensures DispatchResponse(listeners, response, roomId)
         == (Others(listeners, roomId), Repeat(Reaction(response, roomId), Matching(listeners, roomId)))
  {
    DispatchSurvivors(listeners, response, roomId);
    DispatchReactions(listeners, response, roomId);
  }

  /** A response for a room no listener waits for changes nothing. */
  lemma {:induction false} DispatchIgnoresOtherRooms(listeners: seq<ResponseListener>, response: string, roomId: string)
    requires forall l :: l in listeners ==> l.roomId != roomId
    ensures DispatchResponse(listeners, response, roomId) == (listeners, [])
  {
    if listeners != [] {
      assert listeners[0] in listeners;
      assert forall l :: l in listeners[1..] ==> l in listeners;
      DispatchIgnoresOtherRooms(listeners[1..], response, roomId);
      assert listeners == [listeners[0]] + listeners[1..];
    }
  }

  /** When every listener waits for this room, all of them react and none stays. */
  lemma {:induction false} DispatchConsumesMatching(listeners: seq<ResponseListener>, response: string, roomId: string)
    requires forall l :: l in listeners ==> l.roomId == roomId
    ensures DispatchResponse(listeners, response, roomId) == ([], Repeat(Reaction(response, roomId), |listeners|))
  {
    if listeners != [] {
      assert listeners[0] in listeners;
      assert forall l :: l in listeners[1..] ==> l in listeners;
      DispatchConsumesMatching(listeners[1..], response, roomId);
    }
  }

  function OnCallResponse(s: Session, response: string, roomId: string): (r: Step<Session>)
    requires Valid(s)
    ensures Valid(r.state)
    ensures r.state == s.(responseListeners := r.state.responseListeners)
  {
    var (rest, effects) := DispatchResponse(s.responseListeners, response, roomId);
    Step(s.(responseListeners := rest), effects)
  }

  /** Keeps the listeners whose failure hook is not among `hooks`. */
  function RemoveHooked(listeners: seq<ResponseListener>, hooks: seq<nat>): (r: seq<ResponseListener>)
    ensures forall l :: l in r <==> l in listeners && l.id !in hooks
    ensures (forall l :: l in listeners ==> l.id in hooks) ==> r == []
  {
    if listeners == [] then []
    else
      assert forall l :: l in listeners <==> l == listeners[0] || l in listeners[1..];
      (if listeners[0].id in hooks then [] else [listeners[0]]) + RemoveHooked(listeners[1..], hooks)
  }

  /** Every pending failure hook fires once: each alerts and removes the
      response listener it belongs to, so no response listener survives. */
  function OnCallFailed(s: Session, reason: string): (r: Step<Session>)
    requires Valid(s)
    ensures Valid(r.state)
    ensures r.state.responseListeners == [] && r.state.failureHooks == []
    ensures r.effects == seq(|s.failureHooks|, _ => Alert("Call failed: " + reason))
    ensures r.state.messages == s.messages && r.state.incomingCall == s.incomingCall
  {
    var rest := RemoveHooked(s.responseListeners, s.failureHooks);
    Step(s.(responseListeners := rest, failureHooks := []),
         seq(|s.failureHooks|, _ => Alert("Call failed: " + reason)))
  }

  /** A response is acted on at most once: once a response for a room has been
      dispatched, a second one for that room does nothing. */
  lemma ResponseActedOnAtMostOnce(s: Session, first: string, second: string, roomId: string)
    requires Valid(s)
    ensures var a := OnCallResponse(s, first, roomId);
            OnCallResponse(a.state, second, roomId) == Step(a.state, [])
  {
    var a := OnCallResponse(s, first, roomId);
    DispatchIgnoresOtherRooms(a.state.responseListeners, second, roomId);
  }

  /** One press of the call button, then the responses: a response for another
      room is ignored and the listener keeps waiting; the response for this room
      navigates as caller ("accepted") or alerts ("declined") exactly once. */
  lemma SingleCallResponse(s: Session, response: string, roomId: string)
    requires Valid(s) && s.connected && s.responseListeners == []
    ensures var a := StartCall(s);
            var b := OnCallResponse(a.state, response, roomId);
            && (roomId != Room(s) ==> b == Step(a.state, []))
            && (roomId == Room(s) ==> b.effects == Reaction(response, roomId) && b.state.responseListeners == [])
  {
    var a := StartCall(s);
    var ls := a.state.responseListeners;
    assert ls == [ResponseListener(s.nextListener, Room(s))];
    if roomId == Room(s) {
      DispatchConsumesMatching(ls, response, roomId);
      assert Repeat(Reaction(response, roomId), 1) == Reaction(response, roomId) + [];
    } else {
      DispatchIgnoresOtherRooms(ls, response, roomId);
    }
  }

  /** After the relay reports that the call could not be delivered, no later
      response has any effect. */
  lemma FailureSilencesLaterResponse(s: Session, reason: string, response: string, roomId: string)
    requires Valid(s)
    ensures var f := OnCallFailed(s, reason);
            OnCallResponse(f.state, response, roomId) == Step(f.state, [])
  {
    DispatchIgnoresOtherRooms([], response, roomId);
  }

  // ------------------------------------------------- callee side of a call

  function OnIncomingCall(s: Session, callerName: string, callerId: string, roomId: string): (r: Session)
    ensures r.incomingCall == Some(PendingCall(callerName, callerId, roomId))
    ensures r == s.(incomingCall := r.incomingCall)
  {
    s.(incomingCall := Some(PendingCall(callerName, callerId, roomId)))
  }

  /** The prompt's Accept button: answers "accepted" for the pending call, opens
      the call page without router state and dismisses the prompt. With no
      pending call there is no prompt and nothing happens. */
  function AcceptIncoming(s: Session): (r: Step<Session>)
    ensures s.incomingCall.None? ==> r == Step(s, [])
    ensures s.incomingCall.Some? ==>
      var c := s.incomingCall.value;
      && r.effects == [Emit(RespondToCall(c.callerId, ACCEPTED, c.roomId)), Navigate(VideoCallPath(c.roomId), None)]
      && r.state == s.(incomingCall := None)
  {
    match s.incomingCall
    case None => Step(s, [])
    case Some(c) =>
      Step(s.(incomingCall := None),
           [Emit(RespondToCall(c.callerId, ACCEPTED, c.roomId)), Navigate(VideoCallPath(c.roomId), None)])
  }

  /** The prompt's Decline button: answers "declined" and dismisses the prompt. */
  function DeclineIncoming(s: Session): (r: Step<Session>)
    ensures s.incomingCall.None? ==> r == Step(s, [])
    ensures s.incomingCall.Some? ==>
      var c := s.incomingCall.value;
      && r.effects == [Emit(RespondToCall(c.callerId, DECLINED, c.roomId))]
      && r.state == s.(incomingCall := None)
  {
    match s.incomingCall
    case None => Step(s, [])
    case Some(c) => Step(s.(incomingCall := None), [Emit(RespondToCall(c.callerId, DECLINED, c.roomId))])
  }

  // ------------------------------------------------------------ dispatch

  /** One socket event. Without a socket no listener is registered and the
      event is not seen. `now` is the clock reading used for a missing timestamp. */
  function Receive(s: Session, ev: Inbound, now: string): (r: Step<Session>)
    requires Valid(s)
    ensures Valid(r.state)
    ensures !s.connected ==> r == Step(s, [])
    ensures r.state.userId == s.userId && r.state.targetUserId == s.targetUserId
    ensures r.state.connected == s.connected && r.state.draft == s.draft
    ensures !ev.MessageRecived? ==> |r.state.messages| == |s.messages|
  {
    if !s.connected then Step(s, [])
    else
      match ev
      case MessageRecived(firstName, text, timestamp, senderId) =>
        Step(s.(messages := AppendReceived(s.messages, firstName, text, timestamp, senderId, now)), [])
      case MessagesSeen(seenBy) => Step(OnMessagesSeen(s, seenBy), [])
      case IncomingCall(callerName, callerId, _, roomId) => Step(OnIncomingCall(s, callerName, callerId, roomId), [])
      case CallResponse(response, roomId) => OnCallResponse(s, response, roomId)
      case CallNotificationFailed(reason) => OnCallFailed(s, reason)
  }

  /** One user action in the view. */
  function Act(s: Session, action: UserAction): (r: Step<Session>)
    requires Valid(s)
    ensures Valid(r.state)
    ensures r.state.messages == s.messages
    ensures r.state.connected == s.connected
  {
    match action
    case Type(text) => Step(s.(draft := text), [])
    case Send => SendMessage(s)
    case StartVideoCall => StartCall(s)
    case AcceptCall => AcceptIncoming(s)
    case DeclineCall => DeclineIncoming(s)
  }
}
