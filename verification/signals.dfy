/** Values shared by every client-side component: optional payload fields,
    the named events sent to the relay server, and the observable effects
    (outbound events, navigations, alerts) a handler produces. */
module Signals {

  /** A payload field or a piece of component state that may be `undefined`/`null`. */
  datatype Option<+T> = None | Some(value: T) {
    function GetOr(default: T): T {
      match this
      case Some(v) => v
      case None => default
    }
  }

  /** JavaScript truthiness of a possibly-missing string: `undefined` and `""` are falsy. */
  predicate Truthy(s: Option<string>) {
    s.Some? && s.value != ""
  }

  const ACCEPTED: string := "accepted"
  const DECLINED: string := "declined"
  const VIDEO: string := "video"

  /** The route a call is conducted on. */
  function VideoCallPath(roomId: string): string {
    "/videoCall/" + roomId
  }

  /** Opaque WebRTC values: session descriptions, ICE candidates and media tracks. */
  datatype Description = Description(sdp: string)
  datatype Candidate = Candidate(candidate: string)
  datatype Track = Track(id: string)

  /** Events the client emits on its socket, with their payloads. */
  datatype Event =
    | UserOnline(userId: string)
    | JoinChat(firstName: Option<string>, userId: string, targetUserId: string)
    | MarkAsSeen(userId: string, targetUserId: string)
    | SendMessage(firstName: Option<string>, text: string, targetUserId: string, userId: string)
    | SendCallNotification(callerId: string, callerName: Option<string>, targetUserId: string,
                           callType: string, roomId: string)
    | RespondToCall(callerId: string, response: string, roomId: string)
    | JoinVideoRoom(roomId: string)
    | Ready(roomId: string)
    | VideoOffer(offer: Description, roomId: string)
    | VideoAnswer(answer: Description, roomId: string)
    | IceCandidate(candidate: Candidate, roomId: string)

  /** What a handler does besides changing component state. `isCaller` is the
      router state passed along with a navigation (`None` when none is passed). */
  datatype Effect =
    | Emit(event: Event)
    | Navigate(path: string, isCaller: Option<bool>)
    | Alert(text: string)

  /** The outbound events among some effects, in order. */
  function Emitted(effects: seq<Effect>): (r: seq<Event>)
    ensures |r| <= |effects|
    ensures forall e :: e in r <==> Emit(e) in effects
  {
    if effects == [] then []
    else
      var rest := Emitted(effects[1..]);
      assert forall x :: x in effects <==> x == effects[0] || x in effects[1..];
      if effects[0].Emit? then [effects[0].event] + rest else rest
  }

  /** A handler's outcome: the next state and the effects, in the order they happen. */
  datatype Step<S> = Step(state: S, effects: seq<Effect>)
}
