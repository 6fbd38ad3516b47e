/** Media negotiation of the call page (`VideoCall` in
    src/components/VideoCall.jsx): join the room, attach local media, then the
    `ready` / `video-offer` / `video-answer` / `ice-candidate` handlers. The
    WebRTC peer connection is abstracted to the record of what it has accepted; offers and answers come from caller-supplied generator functions. */
module VideoSignaling {
  import opened Signals

  /** What the page's peer connection has accepted: its descriptions, the
      remote candidates it added and the local tracks. */
  datatype Peer = Peer(localDescription: Option<Description>, remoteDescription: Option<Description>,
                       candidates: seq<Candidate>, tracks: seq<Track>)

  const FreshPeer: Peer := Peer(None, None, [], [])

  /** The page's state: its room, the acquired local stream and the peer
      connection, which exists once media has been acquired. */
  datatype VideoCall = VideoCall(roomId: string, localStream: Option<seq<Track>>, peer: Option<Peer>)

  /** Socket events the page listens to; a relayed candidate may be null. */
  datatype Inbound =
    | PeerReady
    | OfferReceived(offer: Description)
    | AnswerReceived(answer: Description)
    | CandidateReceived(candidate: Option<Candidate>)

  /** The handlers that dereference the peer connection. */
  predicate NeedsPeer(ev: Inbound) {
    ev.PeerReady? || ev.OfferReceived? || ev.AnswerReceived? || (ev.CandidateReceived? && ev.candidate.Some?)
  }

  /** Mounting joins the video room before anything else. */
  function Mount(roomId: string): (r: Step<VideoCall>)
    ensures r.effects == [Emit(JoinVideoRoom(roomId))]
    ensures r.state.roomId == roomId && r.state.peer.None? && r.state.localStream.None?
  {
    Step(VideoCall(roomId, None, None), [Emit(JoinVideoRoom(roomId))])
  }

  function AddTrack(p: Peer, t: Track): (r: Peer)
    ensures r.tracks == p.tracks + [t]
    ensures r.(tracks := p.tracks) == p
  {
    p.(tracks := p.tracks + [t])
  }

  /** Media acquired: a new peer connection is created, every track of the
      stream is added to it in order, and only then is `ready` sent. */
  method OnMediaAcquired(v: VideoCall, stream: seq<Track>) returns (r: VideoCall, effects: seq<Effect>)
    ensures r.roomId == v.roomId && r.localStream == Some(stream)
    ensures r.peer == Some(Peer(None, None, [], stream))
    ensures effects == [Emit(Ready(v.roomId))]
  {
    var peer := FreshPeer;
    var i := 0;
    while i < |stream|
      invariant 0 <= i <= |stream|
      invariant peer == Peer(None, None, [], stream[..i])
    {
      peer := AddTrack(peer, stream[i]);
      assert stream[..i + 1] == stream[..i] + [stream[i]];
      i := i + 1;
    }
    assert stream[..|stream|] == stream;
    r := VideoCall(v.roomId, Some(stream), Some(peer));
    effects := [Emit(Ready(v.roomId))];
  }

  /** Mount followed by media acquisition: the page has sent `joinVideoRoom`
      and then `ready`, and its connection carries exactly the local tracks. */
  method Start(roomId: string, stream: seq<Track>) returns (r: VideoCall, effects: seq<Effect>)
    ensures effects == [Emit(JoinVideoRoom(roomId)), Emit(Ready(roomId))]
    ensures r.peer.Some? && r.peer.value.tracks == stream
    ensures r.peer.value.localDescription.None? && r.peer.value.remoteDescription.None?
  {
    var m := Mount(roomId);
    var more;
    r, more := OnMediaAcquired(m.state, stream);
    effects := m.effects + more;
  }

  /** The other side is ready: the generated offer becomes the local description
      and is sent once, with the room. */
  function OnReady(v: VideoCall, createOffer: Peer -> Description): (r: Step<VideoCall>)
    requires v.peer.Some?
    ensures var offer := createOffer(v.peer.value);
            && r.state == v.(peer := Some(v.peer.value.(localDescription := Some(offer))))
            && r.effects == [Emit(VideoOffer(offer, v.roomId))]
  {
    var offer := createOffer(v.peer.value);
    Step(v.(peer := Some(v.peer.value.(localDescription := Some(offer)))), [Emit(VideoOffer(offer, v.roomId))])
  }

  /** An offer arrives: it is applied as the remote description first, the
      answer is generated from the connection in that state, applied as the
      local description and sent once, with the room. */
  function OnOffer(v: VideoCall, offer: Description, createAnswer: Peer -> Description): (r: Step<VideoCall>)
    requires v.peer.Some?
    ensures var withRemote := v.peer.value.(remoteDescription := Some(offer));
            var answer := createAnswer(withRemote);
            && r.state == v.(peer := Some(withRemote.(localDescription := Some(answer))))
            && r.effects == [Emit(VideoAnswer(answer, v.roomId))]
  {
    var withRemote := v.peer.value.(remoteDescription := Some(offer));
    var answer := createAnswer(withRemote);
    Step(v.(peer := Some(withRemote.(localDescription := Some(answer)))), [Emit(VideoAnswer(answer, v.roomId))])
  }

  /** An answer arrives: only the remote description changes; nothing is sent. */
  function OnAnswer(v: VideoCall, answer: Description): (r: VideoCall)
    requires v.peer.Some?
    ensures r.peer.Some? && r.peer.value.remoteDescription == Some(answer)
    ensures r == v.(peer := Some(v.peer.value.(remoteDescription := Some(answer))))
  {
    v.(peer := Some(v.peer.value.(remoteDescription := Some(answer))))
  }

  /** A relayed candidate: a null one is ignored; any other is handed to
      `addIceCandidate` at once, with no queue. A connection without a remote
      description rejects it, and the rejection is neither awaited nor caught,
      so that candidate is lost. */
  function OnRemoteCandidate(v: VideoCall, candidate: Option<Candidate>): (r: VideoCall)
    requires candidate.Some? ==> v.peer.Some?
    ensures candidate.None? ==> r == v
    ensures candidate.Some? && v.peer.value.remoteDescription.None? ==> r == v
    ensures candidate.Some? && v.peer.value.remoteDescription.Some? ==>
      r == v.(peer := Some(v.peer.value.(candidates := v.peer.value.candidates + [candidate.value])))
  {
    match candidate
    case None => v
    case Some(c) =>
      if v.peer.value.remoteDescription.None? then v
      else v.(peer := Some(v.peer.value.(candidates := v.peer.value.candidates + [c])))
  }

  /** A locally discovered candidate is forwarded with the room, unless it is
      the null end-of-candidates marker. */
  function OnLocalCandidate(v: VideoCall, candidate: Option<Candidate>): (r: seq<Effect>)
    ensures candidate.None? ==> r == []
    ensures candidate.Some? ==> r == [Emit(IceCandidate(candidate.value, v.roomId))]
  {
    match candidate
    case None => []
    case Some(c) => [Emit(IceCandidate(c, v.roomId))]
  }

  /** Candidates discovered one after another, each passed to the handler. */
  function ForwardCandidates(v: VideoCall, cs: seq<Option<Candidate>>): seq<Effect>
    decreases |cs|
  {
    if cs == [] then [] else OnLocalCandidate(v, cs[0]) + ForwardCandidates(v, cs[1..])
  }

  /** Discovered candidates are forwarded exactly once each, in discovery order,
      with the room, and the null markers are not forwarded. */
  lemma {:induction false} LocalCandidatesForwardedInOrder(v: VideoCall, cs: seq<Option<Candidate>>)
    ensures var r := ForwardCandidates(v, cs);
            && |r| == |Present(cs)|
            && forall i :: 0 <= i < |r| ==> r[i] == Emit(IceCandidate(Present(cs)[i], v.roomId))
    decreases |cs|
  {
    if cs != [] {
      LocalCandidatesForwardedInOrder(v, cs[1..]);
    }
  }

  /** One socket event. The room, the local stream and the tracks never change,
      and accepted candidates are only ever appended to. */
  function Receive(v: VideoCall, ev: Inbound, createOffer: Peer -> Description,
                   createAnswer: Peer -> Description): (r: Step<VideoCall>)
    requires NeedsPeer(ev) ==> v.peer.Some?
    ensures r.state.roomId == v.roomId && r.state.localStream == v.localStream
    ensures r.state.peer.Some? <==> v.peer.Some?
    ensures v.peer.Some? ==> r.state.peer.value.tracks == v.peer.value.tracks
    ensures v.peer.Some? ==> v.peer.value.candidates <= r.state.peer.value.candidates
    ensures !ev.PeerReady? && !ev.OfferReceived? ==> r.effects == []
  {
    match ev
    case PeerReady => OnReady(v, createOffer)
    case OfferReceived(offer) => OnOffer(v, offer, createAnswer)
    case AnswerReceived(answer) => Step(OnAnswer(v, answer), [])
    case CandidateReceived(c) => Step(OnRemoteCandidate(v, c), [])
  }

  /** The candidates that are not null, in order. */
  function Present(cs: seq<Option<Candidate>>): seq<Candidate> {
    if cs == [] then []
    else (if cs[0].Some? then [cs[0].value] else []) + Present(cs[1..])
  }

  /** Candidates relayed one after another, each handled as it arrives. */
  function ApplyRemoteCandidates(v: VideoCall, cs: seq<Option<Candidate>>): (r: VideoCall)
    requires v.peer.Some?
    decreases |cs|
  {
    if cs == [] then v else ApplyRemoteCandidates(OnRemoteCandidate(v, cs[0]), cs[1..])
  }

  /** With a remote description set, relayed candidates are accepted in arrival
      order with the nulls dropped; without one, every one of them is lost. The
      descriptions are untouched either way. */
  lemma {:induction false} CandidatesAcceptedInArrivalOrder(v: VideoCall, cs: seq<Option<Candidate>>)
    requires v.peer.Some?
    ensures var r := ApplyRemoteCandidates(v, cs);
            && r.peer.Some?
            && (v.peer.value.remoteDescription.Some? ==>
                  r.peer.value == v.peer.value.(candidates := v.peer.value.candidates + Present(cs)))
            && (v.peer.value.remoteDescription.None? ==> r == v)
    decreases |cs|
  {
    if cs != [] {
      var next := OnRemoteCandidate(v, cs[0]);
      CandidatesAcceptedInArrivalOrder(next, cs[1..]);
      var head := if cs[0].Some? && v.peer.value.remoteDescription.Some? then [cs[0].value] else [];
      assert next.peer.value.candidates == v.peer.value.candidates + head;
      assert v.peer.value.candidates + head + Present(cs[1..])
          == v.peer.value.candidates + (head + Present(cs[1..]));
    }
  }

  /** A candidate that arrives before the offer or answer is not queued: it is
      rejected and lost, and the description that arrives next does not bring it
      back. */
  lemma EarlyCandidateLost(v: VideoCall, c: Candidate, answer: Description)
    requires v.peer.Some? && v.peer.value.remoteDescription.None?
    ensures OnRemoteCandidate(v, Some(c)) == v
    ensures var r := OnAnswer(OnRemoteCandidate(v, Some(c)), answer);
            && r.peer.value.remoteDescription == Some(answer)
            && r.peer.value.candidates == v.peer.value.candidates
  {
  }

  /** One full exchange between the two pages of a room: A receives `ready` and
      offers, B answers A's offer, A applies B's answer. Afterwards each side's
      remote description is the other side's local one. */
  lemma OfferAnswerExchangeAgrees(a: VideoCall, b: VideoCall,
                                  createOffer: Peer -> Description, createAnswer: Peer -> Description)
    requires a.peer.Some? && b.peer.Some?
    ensures var a1 := OnReady(a, createOffer);
            var offer := a1.effects[0].event.offer;
            var b1 := OnOffer(b, offer, createAnswer);
            var answer := b1.effects[0].event.answer;
            var a2 := OnAnswer(a1.state, answer);
            && a2.peer.value.localDescription.Some?
            && a2.peer.value.localDescription == b1.state.peer.value.remoteDescription
            && a2.peer.value.remoteDescription == b1.state.peer.value.localDescription
  {
  }
}
