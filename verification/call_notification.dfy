/** The incoming-call notifier (`CallNotification` in
    src/components/CallNotification.jsx): a small state machine over the pending
    call and its visibility, with a 30 s auto-decline per ring, the caller-side
    response handler, and `initiateCall`. */
module CallNotifier {
  import opened Signals
  import RoomIdentity

  /** Delay of the auto-decline callback armed by every ring. */
  const AUTO_DECLINE_MS: int := 30000

  datatype CallInfo = CallInfo(callerName: string, callType: string, roomId: string, callerId: string)

  /** An armed auto-decline callback: when it fires and the caller and room it
      captured from its own ring. Nothing ever cancels it. */
  datatype Timer = Timer(due: int, callerId: string, roomId: string)

  /** The component's state; `timers` are in the order they were armed. */
  datatype Notifier = Notifier(incomingCall: Option<CallInfo>, isVisible: bool, timers: seq<Timer>)

  const Initial: Notifier := Notifier(None, false, [])

  /** Everything that can happen to the notifier. `Elapse(now)` is the clock
      reaching `now`, which runs the oldest armed callback if it is due. */
  datatype Action =
    | Ring(call: CallInfo, now: int)
    | Response(response: string, roomId: string)
    | NotificationSent(targetUserId: string)
    | NotificationFailed(targetUserId: string, reason: string)
    | Accept
    | Decline
    | Elapse(now: int)

  /** The render guard: the prompt is drawn only while visible with a call pending. */
  predicate Shown(s: Notifier) {
    s.isVisible && s.incomingCall.Some?
  }

  /** Visibility and the pending call always change together. */
  predicate Consistent(s: Notifier) {
    s.isVisible <==> s.incomingCall.Some?
  }

  /** An `incomingCall` event: the call replaces any pending one, the prompt is
      shown, and one more auto-decline callback is armed for this ring. */
  function OnIncomingCall(s: Notifier, call: CallInfo, now: int): (r: Notifier)
    ensures Shown(r) && Consistent(r)
    ensures r.incomingCall == Some(call)
    ensures r.timers == s.timers + [Timer(now + AUTO_DECLINE_MS, call.callerId, call.roomId)]
  {
    Notifier(Some(call), true, s.timers + [Timer(now + AUTO_DECLINE_MS, call.callerId, call.roomId)])
  }

  /** Accepting a pending call answers "accepted" once with its caller and room,
      dismisses the prompt and opens the call as callee; the armed callbacks stay.
      With no pending call nothing happens. */
  function AcceptCall(s: Notifier): (r: Step<Notifier>)
    ensures s.incomingCall.None? ==> r == Step(s, [])
    ensures s.incomingCall.Some? ==>
      var c := s.incomingCall.value;
      && r.effects == [Emit(RespondToCall(c.callerId, ACCEPTED, c.roomId)),
                       Navigate(VideoCallPath(c.roomId), Some(false))]
      && r.state == Notifier(None, false, s.timers)
    ensures Consistent(s) ==> Consistent(r.state)
  {
    match s.incomingCall
    case None => Step(s, [])
    case Some(c) =>
      Step(Notifier(None, false, s.timers),
           [Emit(RespondToCall(c.callerId, ACCEPTED, c.roomId)), Navigate(VideoCallPath(c.roomId), Some(false))])
  }

  /** Declining answers "declined" only when a call is pending, and always ends
      with the prompt hidden and no call; the armed callbacks stay. */
  function DeclineCall(s: Notifier): (r: Step<Notifier>)
    ensures r.state == Notifier(None, false, s.timers) && !Shown(r.state) && Consistent(r.state)
    ensures s.incomingCall.None? ==> r.effects == []
    ensures s.incomingCall.Some? ==>
      r.effects == [Emit(RespondToCall(s.incomingCall.value.callerId, DECLINED, s.incomingCall.value.roomId))]
  {
    var effects := match s.incomingCall
      case None => []
      case Some(c) => [Emit(RespondToCall(c.callerId, DECLINED, c.roomId))];
    Step(Notifier(None, false, s.timers), effects)
  }

  /** The clock reaches `now`: if the oldest armed callback is due it runs,
      hiding and clearing whatever call is pending and answering "declined" for
      the caller and room of the ring that armed it. */
  function OnElapse(s: Notifier, now: int): (r: Step<Notifier>)
    ensures s.timers == [] || s.timers[0].due > now ==> r == Step(s, [])
    ensures s.timers != [] && s.timers[0].due <= now ==>
      && r.state == Notifier(None, false, s.timers[1..])
      && r.effects == [Emit(RespondToCall(s.timers[0].callerId, DECLINED, s.timers[0].roomId))]
    ensures Consistent(s) ==> Consistent(r.state)
  {
    if s.timers == [] || s.timers[0].due > now then Step(s, [])
    else
      var t := s.timers[0];
      Step(Notifier(None, false, s.timers[1..]), [Emit(RespondToCall(t.callerId, DECLINED, t.roomId))])
  }

  /** The caller's view of the callee's answer: "accepted" opens the call as
      caller, anything else is reported as declined. The room is not checked. */
  function OnCallResponse(response: string, roomId: string): (r: seq<Effect>)
    ensures response == ACCEPTED ==> r == [Navigate(VideoCallPath(roomId), Some(true))]
    ensures response != ACCEPTED ==> r == [Alert("Call was declined")]
    ensures Emitted(r) == []
  {
    if response == ACCEPTED then [Navigate(VideoCallPath(roomId), Some(true))]
    else [Alert("Call was declined")]
  }

  /** Calling someone announces the call for the pair's room and does nothing
      else: no navigation, no state. The call type defaults to "video". */
  function InitiateCall(currentUserId: string, currentUserName: Option<string>, targetUserId: string,
                        callType: Option<string>): (r: seq<Effect>)
    ensures r == [Emit(SendCallNotification(currentUserId, currentUserName, targetUserId,
                                            callType.GetOr(VIDEO), RoomIdentity.RoomId(targetUserId, currentUserId)))]
    ensures forall e :: e in r ==> !e.Navigate?
  {
    RoomIdentity.RoomIdCommutative(currentUserId, targetUserId);
    [Emit(SendCallNotification(currentUserId, currentUserName, targetUserId,
                               callType.GetOr(VIDEO), RoomIdentity.RoomId(currentUserId, targetUserId)))]
  }

  /** One action on the notifier. */
  function Handle(s: Notifier, action: Action): (r: Step<Notifier>)
    ensures Consistent(s) ==> Consistent(r.state)
    ensures !action.Ring? ==> |r.state.timers| <= |s.timers|
    ensures action.Ring? ==> |r.state.timers| == |s.timers| + 1
  {
    match action
    case Ring(call, now) => Step(OnIncomingCall(s, call, now), [])
    case Response(response, roomId) => Step(s, OnCallResponse(response, roomId))
    case NotificationSent(_) => Step(s, [])
    case NotificationFailed(_, reason) => Step(s, [Alert("Failed to call user: " + reason)])
    case Accept => AcceptCall(s)
    case Decline => DeclineCall(s)
    case Elapse(now) => OnElapse(s, now)
  }

  /** Runs actions in order, collecting their effects. */
  function Run(s: Notifier, actions: seq<Action>): (r: Step<Notifier>)
    ensures Consistent(s) ==> Consistent(r.state)
    decreases |actions|
  {
    if actions == [] then Step(s, [])
    else
      var first := Handle(s, actions[0]);
      var rest := Run(first.state, actions[1..]);
      Step(rest.state, first.effects + rest.effects)
  }

  /** The prompt is drawn after a ring and gone after any answer, manual or
      automatic, until the next ring. */
  lemma RenderGuardFollowsRing(s: Notifier, call: CallInfo, now: int, later: int)
    ensures Shown(Handle(s, Ring(call, now)).state)
    ensures !Shown(Handle(s, Accept).state) && !Shown(Handle(s, Decline).state)
    ensures Consistent(s) && !Shown(s) ==> !Shown(Handle(s, Elapse(later)).state)
    ensures s.timers != [] && s.timers[0].due <= later ==> !Shown(Handle(s, Elapse(later)).state)
  {
  }

  /** Nothing fires before the deadline of a fresh ring. */
  lemma NoAutoDeclineBeforeDeadline(call: CallInfo, now: int, later: int)
    requires later < now + AUTO_DECLINE_MS
    ensures var s := OnIncomingCall(Initial, call, now);
            OnElapse(s, later) == Step(s, [])
  {
  }

  /** Running a single action is handling it. */
  lemma RunOne(s: Notifier, a: Action)
    ensures Run(s, [a]) == Handle(s, a)
  {
    assert [a][1..] == [];
  }

  /** Running `a` then `rest` handles `a` first and then runs `rest`. */
  lemma RunCons(s: Notifier, a: Action, rest: seq<Action>)
    ensures var h := Handle(s, a);
            var t := Run(h.state, rest);
            Run(s, [a] + rest) == Step(t.state, h.effects + t.effects)
  {
    assert ([a] + rest)[1..] == rest;
  }

  /** Three actions in a row. */
  lemma RunThree(s: Notifier, a: Action, b: Action, c: Action)
    ensures var h1 := Handle(s, a);
            var h2 := Handle(h1.state, b);
            var h3 := Handle(h2.state, c);
            Run(s, [a, b, c]) == Step(h3.state, h1.effects + h2.effects + h3.effects)
  {
    RunOne(Handle(Handle(s, a).state, b).state, c);
    RunCons(Handle(s, a).state, b, [c]);
    RunCons(s, a, [b, c]);
    assert [a, b, c] == [a] + [b, c] && [b, c] == [b] + [c];
    var h1 := Handle(s, a);
    var h2 := Handle(h1.state, b);
    var h3 := Handle(h2.state, c);
    assert h1.effects + (h2.effects + h3.effects) == h1.effects + h2.effects + h3.effects;
  }

  /** The auto-decline is not disarmed by accepting: 30000 ms after the ring a
      "declined" answer for the same caller and room follows the "accepted" one. */
  lemma AutoDeclineSurvivesAccept(call: CallInfo, now: int)
    ensures var r := Run(Initial, [Ring(call, now), Accept, Elapse(now + AUTO_DECLINE_MS)]);
            && Emitted(r.effects) == [RespondToCall(call.callerId, ACCEPTED, call.roomId),
                                      RespondToCall(call.callerId, DECLINED, call.roomId)]
            && r.state == Initial
  {
    RunThree(Initial, Ring(call, now), Accept, Elapse(now + AUTO_DECLINE_MS));
    var effects := [Emit(RespondToCall(call.callerId, ACCEPTED, call.roomId)),
                    Navigate(VideoCallPath(call.roomId), Some(false)),
                    Emit(RespondToCall(call.callerId, DECLINED, call.roomId))];
    assert Run(Initial, [Ring(call, now), Accept, Elapse(now + AUTO_DECLINE_MS)]).effects == effects;
    assert effects[1..][1..][1..] == [];
  }

  /** Nor by declining: the caller is told "declined" twice. */
  lemma AutoDeclineSurvivesDecline(call: CallInfo, now: int)
    ensures var r := Run(Initial, [Ring(call, now), Decline, Elapse(now + AUTO_DECLINE_MS)]);
            && Emitted(r.effects) == [RespondToCall(call.callerId, DECLINED, call.roomId),
                                      RespondToCall(call.callerId, DECLINED, call.roomId)]
            && r.state == Initial
  {
    RunThree(Initial, Ring(call, now), Decline, Elapse(now + AUTO_DECLINE_MS));
    var effects := [Emit(RespondToCall(call.callerId, DECLINED, call.roomId)),
                    Emit(RespondToCall(call.callerId, DECLINED, call.roomId))];
    assert Run(Initial, [Ring(call, now), Decline, Elapse(now + AUTO_DECLINE_MS)]).effects == effects;
    assert effects[1..][1..] == [];
  }

  /** With no manual answer the ring is declined exactly once at its deadline
      and the prompt is gone. */
  lemma UnansweredRingDeclinedOnce(call: CallInfo, now: int, later: int)
    requires later >= now + AUTO_DECLINE_MS
    ensures var r := Run(Initial, [Ring(call, now), Elapse(later), Elapse(later)]);
            && r.effects == [Emit(RespondToCall(call.callerId, DECLINED, call.roomId))]
            && !Shown(r.state) && r.state == Initial
  {
    RunThree(Initial, Ring(call, now), Elapse(later), Elapse(later));
  }

  /** The callback of an earlier ring clears a later ring's prompt while
      answering for the earlier caller. */
  lemma StaleCallbackClearsNewerRing(first: CallInfo, second: CallInfo, t0: int, t1: int)
    requires t0 <= t1
    ensures var r := Run(Initial, [Ring(first, t0), Ring(second, t1), Elapse(t0 + AUTO_DECLINE_MS)]);
            && r.effects == [Emit(RespondToCall(first.callerId, DECLINED, first.roomId))]
            && r.state.incomingCall == None
            && r.state.timers == [Timer(t1 + AUTO_DECLINE_MS, second.callerId, second.roomId)]
  {
    RunThree(Initial, Ring(first, t0), Ring(second, t1), Elapse(t0 + AUTO_DECLINE_MS));
  }
}
