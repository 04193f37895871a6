/** The call-session manager of useWebRTC. The browser objects are abstract:
    every `RTCPeerConnection` and every `MediaStreamTrack` lives in a handle
    table, so that peers, streams and the signaling handler can share them
    the way the JavaScript objects are shared; the `BroadcastChannel` is an
    outbox of posted messages. */
module WebRtc {
  import opened JsText

  /** Index into the table of peer connections. */
  type ConnHandle = nat
  /** Index into the table of media tracks. */
  type TrackHandle = nat
  /** A remote `MediaStream` delivered by `ontrack`. */
  type StreamId = nat

  datatype TrackKind = Audio | Video

  /** The mutable part of a `MediaStreamTrack`. */
  datatype Track = Track(kind: TrackKind, enabled: bool, stopped: bool)

  datatype SdpType = OfferSdp | AnswerSdp

  /** A session description; its SDP text is abstracted to the connection
      that created it. */
  datatype Description = Description(sdpType: SdpType, origin: ConnHandle)

  /** The observable state of an `RTCPeerConnection`: the peer it was created
      for, the tracks added to it, whether it is closed, its description
      slots and the remote ICE candidates applied to it. */
  datatype Connection = Connection(
    peerId: JsString,
    senders: seq<TrackHandle>,
    closed: bool,
    localDescription: Option<Description>,
    remoteDescription: Option<Description>,
    candidates: seq<JsString>)

  /** A `WebRTCPeer`. */
  datatype Peer = Peer(id: JsString, name: JsString, conn: ConnHandle, stream: Option<StreamId>)

  /** The `type` field of a signaling message; `Unknown` stands for any other string. */
  datatype MessageType = Offer | Answer | IceCandidate | UserJoined | UserLeft | Unknown

  /** A signaling message, with the fields the handler destructures. */
  datatype Signal = Signal(
    msgType: MessageType,
    from: JsString,
    to: Option<JsString>,
    roomCode: JsString,
    offer: Option<Description>,
    answer: Option<Description>,
    candidate: Option<JsString>)

  /** The announcement `startCall` posts; it has no `to` field. */
  function JoinedSignal(from: JsString, roomCode: JsString): Signal
  {
    Signal(UserJoined, from, None, roomCode, None, None, None)
  }

  /** The announcement `endCall` posts; it has no `to` field. */
  function LeftSignal(from: JsString, roomCode: JsString): Signal
  {
    Signal(UserLeft, from, None, roomCode, None, None, None)
  }

  function OfferSignal(to: JsString, from: JsString, roomCode: JsString, d: Description): Signal
  {
    Signal(Offer, from, Some(to), roomCode, Some(d), None, None)
  }

  function AnswerSignal(to: JsString, from: JsString, roomCode: JsString, d: Description): Signal
  {
    Signal(Answer, from, Some(to), roomCode, None, Some(d), None)
  }

  function IceSignal(to: JsString, from: JsString, roomCode: JsString, candidate: JsString): Signal
  {
    Signal(IceCandidate, from, Some(to), roomCode, None, None, Some(candidate))
  }

  /** The name of the signaling channel, `omega-webrtc-${roomCode}`. */
  function ChannelName(roomCode: JsString): (r: JsString)
    ensures StartsWith(r, Units("omega-webrtc-")) && r[|Units("omega-webrtc-")|..] == roomCode
  {
    var prefix := Units("omega-webrtc-");
    assert (prefix + roomCode)[..|prefix|] == prefix;
    prefix + roomCode
  }

  /** A fresh connection for `peerId`, as `createPeerConnection` returns it. */
  function NewConnection(peerId: JsString): Connection
  {
    Connection(peerId, [], false, None, None, [])
  }

  // ----- Peer lists -----

  /** The first position at or after `i` holding a peer with `id`; `|ps|` when there is none. */
  function FindFrom(ps: seq<Peer>, id: JsString, i: nat): (r: nat)
    requires i <= |ps|
    ensures i <= r <= |ps|
    ensures r < |ps| ==> ps[r].id == id
    ensures forall j | i <= j < r :: ps[j].id != id
    decreases |ps| - i
  {
    if i == |ps| then i else if ps[i].id == id then i else FindFrom(ps, id, i + 1)
  }

  /** The position `peers.find(p => p.id === id)` stops at; `|ps|` when no peer matches. */
  function FindIndex(ps: seq<Peer>, id: JsString): (r: nat)
    ensures r <= |ps|
    ensures r < |ps| ==> ps[r].id == id
    ensures forall j | 0 <= j < r :: ps[j].id != id
  {
    FindFrom(ps, id, 0)
  }

  /** `peers.filter(p => p.id !== id)`. */
  function WithoutId(ps: seq<Peer>, id: JsString): (r: seq<Peer>)
    ensures |r| <= |ps|
    ensures forall p :: p in r <==> p in ps && p.id != id
  {
    if ps == [] then []
    else (if ps[0].id == id then [] else [ps[0]]) + WithoutId(ps[1..], id)
  }

  /** Filtering works piece by piece, so the kept peers stay in their order. */
  lemma {:induction false} WithoutIdAppend(a: seq<Peer>, b: seq<Peer>, id: JsString)
    ensures WithoutId(a + b, id) == WithoutId(a, id) + WithoutId(b, id)
  {
    if a == [] {
      assert a + b == b;
    } else {
      assert (a + b)[1..] == a[1..] + b;
      WithoutIdAppend(a[1..], b, id);
    }
  }

  /** A list without the id is kept as it is. */
  lemma {:induction false} WithoutIdAbsent(ps: seq<Peer>, id: JsString)
    requires forall i | 0 <= i < |ps| :: ps[i].id != id
    ensures WithoutId(ps, id) == ps
  {
    if ps != [] {
      WithoutIdAbsent(ps[1..], id);
      assert ps == [ps[0]] + ps[1..];
    }
  }

  /** `prev.map(peer => peer.id === id ? { ...peer, stream } : peer)`. */
  function WithStream(ps: seq<Peer>, id: JsString, s: Option<StreamId>): (r: seq<Peer>)
    ensures |r| == |ps|
    ensures forall i | 0 <= i < |ps| :: r[i] == if ps[i].id == id then ps[i].(stream := s) else ps[i]
  {
    seq(|ps|, i requires 0 <= i < |ps| => if ps[i].id == id then ps[i].(stream := s) else ps[i])
  }

  /** `event.streams[0]`, undefined for an empty list. */
  function FirstStream(streams: seq<StreamId>): Option<StreamId>
  {
    if streams == [] then None else Some(streams[0])
  }

  predicate HasHandle(ps: seq<Peer>, h: ConnHandle)
  {
    exists i | 0 <= i < |ps| :: ps[i].conn == h
  }

  predicate DistinctHandles(ps: seq<Peer>)
  {
    forall i, j | 0 <= i < j < |ps| :: ps[i].conn != ps[j].conn
  }

  predicate HandlesIn(ps: seq<Peer>, n: nat)
  {
    forall i | 0 <= i < |ps| :: ps[i].conn < n
  }

  lemma {:induction false} WithoutIdDistinct(ps: seq<Peer>, id: JsString)
    requires DistinctHandles(ps)
    ensures DistinctHandles(WithoutId(ps, id))
  {
    if ps != [] {
      WithoutIdDistinct(ps[1..], id);
      var rest := WithoutId(ps[1..], id);
      forall i | 0 <= i < |rest|
        ensures rest[i].conn != ps[0].conn
      {
        assert rest[i] in ps[1..];
      }
    }
  }

  // ----- Connection and track tables -----

  /** `peers.forEach(peer => ts.forEach(track => peer.connection.addTrack(track, stream)))`. */
  function AddSenders(conns: seq<Connection>, ps: seq<Peer>, ts: seq<TrackHandle>): (r: seq<Connection>)
    requires HandlesIn(ps, |conns|)
    ensures |r| == |conns|
    ensures forall h | 0 <= h < |conns| :: r[h] == conns[h].(senders := r[h].senders)
    decreases |ps|
  {
    if ps == [] then conns
    else
      var prior := AddSenders(conns, ps[..|ps| - 1], ts);
      var h := ps[|ps| - 1].conn;
      prior[h := prior[h].(senders := prior[h].senders + ts)]
  }

  /** With distinct handles, each listed connection gets the tracks once, in
      order, and no other connection changes. */
  lemma {:induction false} AddSendersAt(conns: seq<Connection>, ps: seq<Peer>, ts: seq<TrackHandle>, h: ConnHandle)
    requires HandlesIn(ps, |conns|) && DistinctHandles(ps) && h < |conns|
    ensures AddSenders(conns, ps, ts)[h].senders ==
              if HasHandle(ps, h) then conns[h].senders + ts else conns[h].senders
    decreases |ps|
  {
    if ps != [] {
      var init := ps[..|ps| - 1];
      AddSendersAt(conns, init, ts, h);
      if ps[|ps| - 1].conn == h {
        assert !HasHandle(init, h);
      } else {
        assert HasHandle(ps, h) == HasHandle(init, h) by {
          if HasHandle(ps, h) {
            var i :| 0 <= i < |ps| && ps[i].conn == h;
            assert init[i].conn == h;
          }
        }
      }
    }
  }

  /** `peers.forEach(peer => peer.connection.close())`. */
  function CloseAll(conns: seq<Connection>, ps: seq<Peer>): (r: seq<Connection>)
    requires HandlesIn(ps, |conns|)
    ensures |r| == |conns|
    ensures forall h | 0 <= h < |conns| :: r[h] == conns[h].(closed := r[h].closed)
    decreases |ps|
  {
    if ps == [] then conns
    else
      var prior := CloseAll(conns, ps[..|ps| - 1]);
      var h := ps[|ps| - 1].conn;
      prior[h := prior[h].(closed := true)]
  }

  /** Exactly the listed connections end up closed, besides those closed before. */
  lemma {:induction false} CloseAllAt(conns: seq<Connection>, ps: seq<Peer>, h: ConnHandle)
    requires HandlesIn(ps, |conns|) && h < |conns|
    ensures CloseAll(conns, ps)[h].closed == (conns[h].closed || HasHandle(ps, h))
    decreases |ps|
  {
    if ps != [] {
      var init := ps[..|ps| - 1];
      CloseAllAt(conns, init, h);
      if ps[|ps| - 1].conn != h {
        assert HasHandle(ps, h) == HasHandle(init, h) by {
          if HasHandle(ps, h) {
            var i :| 0 <= i < |ps| && ps[i].conn == h;
            assert init[i].conn == h;
          }
        }
      }
    }
  }

  /** `createOffer` followed by `setLocalDescription(offer)` on every listed connection. */
  function OfferAll(conns: seq<Connection>, ps: seq<Peer>): (r: seq<Connection>)
    requires HandlesIn(ps, |conns|)
    ensures |r| == |conns|
    ensures forall h | 0 <= h < |conns| :: r[h] == conns[h].(localDescription := r[h].localDescription)
    decreases |ps|
  {
    if ps == [] then conns
    else
      var prior := OfferAll(conns, ps[..|ps| - 1]);
      var h := ps[|ps| - 1].conn;
      prior[h := prior[h].(localDescription := Some(Description(OfferSdp, h)))]
  }

  /** Every listed connection holds its own offer as local description. */
  lemma {:induction false} OfferAllAt(conns: seq<Connection>, ps: seq<Peer>, h: ConnHandle)
    requires HandlesIn(ps, |conns|) && h < |conns|
    ensures OfferAll(conns, ps)[h].localDescription ==
              if HasHandle(ps, h) then Some(Description(OfferSdp, h)) else conns[h].localDescription
    decreases |ps|
  {
    if ps != [] {
      var init := ps[..|ps| - 1];
      OfferAllAt(conns, init, h);
      if ps[|ps| - 1].conn != h {
        assert HasHandle(ps, h) == HasHandle(init, h) by {
          if HasHandle(ps, h) {
            var i :| 0 <= i < |ps| && ps[i].conn == h;
            assert init[i].conn == h;
          }
        }
      }
    }
  }

  /** The offers `startCall` posts, one per peer in list order. */
  function Offers(ps: seq<Peer>, from: JsString, roomCode: JsString): (r: seq<Signal>)
    ensures |r| == |ps|
    ensures forall i | 0 <= i < |ps| ::
              r[i] == OfferSignal(ps[i].id, from, roomCode, Description(OfferSdp, ps[i].conn))
  {
    seq(|ps|, i requires 0 <= i < |ps| => OfferSignal(ps[i].id, from, roomCode, Description(OfferSdp, ps[i].conn)))
  }

  /** The tracks `getUserMedia({ audio: true, video })` delivers, all live and enabled. */
  function MediaTracks(video: bool): (r: seq<Track>)
    ensures |r| == if video then 2 else 1
    ensures r[0] == Track(Audio, true, false)
    ensures video ==> r[1] == Track(Video, true, false)
  {
    [Track(Audio, true, false)] + if video then [Track(Video, true, false)] else []
  }

  /** The handles `start`, ..., `start + n - 1`. */
  function Range(start: nat, n: nat): (r: seq<nat>)
    ensures |r| == n
    ensures forall i | 0 <= i < n :: r[i] == start + i
  {
    seq(n, i requires 0 <= i < n => start + i)
  }

  predicate TracksIn(ts: seq<TrackHandle>, n: nat)
  {
    forall i | 0 <= i < |ts| :: ts[i] < n
  }

  /** `stream.getTracks().forEach(track => track.stop())`. */
  function StopTracks(tracks: seq<Track>, ts: seq<TrackHandle>): (r: seq<Track>)
    requires TracksIn(ts, |tracks|)
    ensures |r| == |tracks|
    ensures forall t | 0 <= t < |tracks| :: r[t] == tracks[t].(stopped := r[t].stopped)
    decreases |ts|
  {
    if ts == [] then tracks
    else
      var prior := StopTracks(tracks, ts[..|ts| - 1]);
      var t := ts[|ts| - 1];
      prior[t := prior[t].(stopped := true)]
  }

  /** Exactly the stream's tracks end up stopped, besides those stopped before. */
  lemma {:induction false} StopTracksAt(tracks: seq<Track>, ts: seq<TrackHandle>, t: TrackHandle)
    requires TracksIn(ts, |tracks|) && t < |tracks|
    ensures StopTracks(tracks, ts)[t].stopped == (tracks[t].stopped || t in ts)
    decreases |ts|
  {
    if ts != [] {
      var init := ts[..|ts| - 1];
      StopTracksAt(tracks, init, t);
      assert ts == init + [ts[|ts| - 1]];
    }
  }

  /** `stream.getAudioTracks()[0]` or `stream.getVideoTracks()[0]`: the first
      track of the kind in stream order. */
  function FirstOfKind(tracks: seq<Track>, ts: seq<TrackHandle>, kind: TrackKind): (r: Option<TrackHandle>)
    requires TracksIn(ts, |tracks|)
    ensures r.Some? ==> r.value < |tracks| && tracks[r.value].kind == kind
    ensures r.Some? ==> exists i | 0 <= i < |ts| :: ts[i] == r.value && forall j | 0 <= j < i :: tracks[ts[j]].kind != kind
    ensures r.None? <==> forall i | 0 <= i < |ts| :: tracks[ts[i]].kind != kind
  {
    if ts == [] then None
    else if tracks[ts[0]].kind == kind then Some(ts[0])
    else
      var r := FirstOfKind(tracks, ts[1..], kind);
      assert r.Some? ==> exists i | 0 <= i < |ts| :: ts[i] == r.value && forall j | 0 <= j < i :: tracks[ts[j]].kind != kind by {
        if r.Some? {
          var i :| 0 <= i < |ts[1..]| && ts[1..][i] == r.value && forall j | 0 <= j < i :: tracks[ts[1..][j]].kind != kind;
          assert ts[i + 1] == r.value;
          assert forall j | 0 <= j < i + 1 :: tracks[ts[j]].kind != kind by {
            forall j | 0 <= j < i + 1
              ensures tracks[ts[j]].kind != kind
            {
              if j > 0 {
                assert ts[j] == ts[1..][j - 1];
              }
            }
          }
        }
      }
      assert r.None? ==> forall i | 0 <= i < |ts| :: tracks[ts[i]].kind != kind by {
        if r.None? {
          forall i | 0 <= i < |ts|
            ensures tracks[ts[i]].kind != kind
          {
            if i > 0 {
              assert ts[i] == ts[1..][i - 1];
            }
          }
        }
      }
      r
  }

  /** The search depends only on the kinds of the tracks. */
  lemma {:induction false} FirstOfKindKinds(tracks: seq<Track>, other: seq<Track>, ts: seq<TrackHandle>, kind: TrackKind)
    requires TracksIn(ts, |tracks|) && |other| == |tracks|
    requires forall t | 0 <= t < |tracks| :: other[t].kind == tracks[t].kind
    ensures FirstOfKind(other, ts, kind) == FirstOfKind(tracks, ts, kind)
  {
    if ts != [] {
      FirstOfKindKinds(tracks, other, ts[1..], kind);
    }
  }

  // ----- The session state and its operations as functions -----

  /** Everything the hook keeps: the three flags, the peer list, the
      local-stream and signaling-channel slots, the messages posted so far,
      and the browser objects reachable from them. */
  datatype Session = Session(
    isCallActive: bool,
    isVideoEnabled: bool,
    isMuted: bool,
    peers: seq<Peer>,
    localStream: Option<seq<TrackHandle>>,
    channel: Option<JsString>,
    outbox: seq<Signal>,
    connections: seq<Connection>,
    tracks: seq<Track>)

  /** Every listed peer owns an open connection created for its id, no two
      peers share a connection, and the local stream holds known tracks. */
  predicate ValidSession(s: Session)
  {
    HandlesIn(s.peers, |s.connections|) &&
    (forall i | 0 <= i < |s.peers| ::
       s.connections[s.peers[i].conn].peerId == s.peers[i].id && !s.connections[s.peers[i].conn].closed) &&
    DistinctHandles(s.peers) &&
    (s.localStream.Some? ==> TracksIn(s.localStream.value, |s.tracks|))
  }

  /** `initializeSignaling`: opens the room's channel unless one is open. */
  function OpenChannel(channel: Option<JsString>, roomCode: JsString): (r: Option<JsString>)
    ensures r.Some?
  {
    if channel.Some? then channel else Some(ChannelName(roomCode))
  }

  /** `startCall(video)`; `granted` is the outcome of `getUserMedia`. */
  function StartCallSpec(s: Session, video: bool, granted: bool, userName: JsString, roomCode: JsString): Session
    requires ValidSession(s)
  {
    if !granted then s
    else
      var stream := Range(|s.tracks|, |MediaTracks(video)|);
      s.(tracks := s.tracks + MediaTracks(video),
         localStream := Some(stream),
         isCallActive := true,
         isVideoEnabled := video,
         channel := OpenChannel(s.channel, roomCode),
         connections := OfferAll(AddSenders(s.connections, s.peers, stream), s.peers),
         outbox := s.outbox + [JoinedSignal(userName, roomCode)] + Offers(s.peers, userName, roomCode))
  }

  /** `endCall`. */
  function EndCallSpec(s: Session, userName: JsString, roomCode: JsString): Session
    requires ValidSession(s)
  {
    s.(tracks := if s.localStream.Some? then StopTracks(s.tracks, s.localStream.value) else s.tracks,
       localStream := None,
       connections := CloseAll(s.connections, s.peers),
       peers := [],
       isCallActive := false,
       isVideoEnabled := false,
       isMuted := false,
       outbox := s.outbox + (if s.channel.Some? then [LeftSignal(userName, roomCode)] else []),
       channel := None)
  }

  /** Flips the `enabled` flag of one track. */
  function Toggled(tracks: seq<Track>, t: TrackHandle): seq<Track>
    requires t < |tracks|
  {
    tracks[t := tracks[t].(enabled := !tracks[t].enabled)]
  }

  /** `toggleMute`. */
  function ToggleMuteSpec(s: Session): Session
    requires ValidSession(s)
  {
    if s.localStream.None? then s
    else match FirstOfKind(s.tracks, s.localStream.value, Audio)
      case None => s
      case Some(t) => s.(tracks := Toggled(s.tracks, t), isMuted := s.tracks[t].enabled)
  }

  /** `toggleVideo`; `granted` is the outcome of `getUserMedia({ video: true })`. */
  function ToggleVideoSpec(s: Session, granted: bool): Session
    requires ValidSession(s)
  {
    if s.localStream.None? then s
    else match FirstOfKind(s.tracks, s.localStream.value, Video)
      case Some(t) => s.(tracks := Toggled(s.tracks, t), isVideoEnabled := !s.tracks[t].enabled)
      case None =>
        if s.isVideoEnabled || !granted then s
        else
          var t := |s.tracks|;
          s.(tracks := s.tracks + [Track(Video, true, false)],
             localStream := Some(s.localStream.value + [t]),
             connections := AddSenders(s.connections, s.peers, [t]),
             isVideoEnabled := true)
  }

  /** The `ontrack` callback of connection `h`. */
  function OnTrackSpec(s: Session, h: ConnHandle, streams: seq<StreamId>): Session
    requires h < |s.connections|
  {
    s.(peers := WithStream(s.peers, s.connections[h].peerId, FirstStream(streams)))
  }

  /** The `onicecandidate` callback of connection `h`. */
  function OnIceCandidateSpec(s: Session, h: ConnHandle, candidate: Option<JsString>,
                              userName: JsString, roomCode: JsString): Session
    requires h < |s.connections|
  {
    if candidate.Some? && s.channel.Some? then
      s.(outbox := s.outbox + [IceSignal(s.connections[h].peerId, userName, roomCode, candidate.value)])
    else s
  }

  /** The signaling `onmessage` handler. `searched` is the peer list the
      handler captured; the list updates apply to the current peers. A
      rejected browser call ends the handler with nothing further done:
      `setRemoteDescription` and `createAnswer` reject on a closed connection,
      `addIceCandidate` also without a remote description, and the
      description and candidate constructors throw on a missing field. */
  function HandleSpec(s: Session, msg: Signal, searched: seq<Peer>, userName: JsString, roomCode: JsString): (r: Session)
    requires ValidSession(s) && HandlesIn(searched, |s.connections|)
    ensures HandlerFrame(s, r)
  {
    if msg.to != Some(userName) then s
    else
      var k := FindIndex(searched, msg.from);
      if k == |searched| then s
      else
        var h := searched[k].conn;
        match msg.msgType
        case Offer => OfferSpec(s, h, msg, userName, roomCode)
        case Answer => AnswerSpec(s, h, msg)
        case IceCandidate => IceSpec(s, h, msg)
        case UserJoined => UserJoinedSpec(s, msg.from, userName)
        case UserLeft => UserLeftSpec(s, msg.from)
        case Unknown => s
  }

  /** What no signaling message touches: the call flags, the local stream,
      the channel and the tracks. Connections are only added, and the outbox
      only grows. */
  predicate HandlerFrame(s: Session, r: Session)
  {
    r.isCallActive == s.isCallActive && r.isVideoEnabled == s.isVideoEnabled && r.isMuted == s.isMuted &&
    r.localStream == s.localStream && r.channel == s.channel && r.tracks == s.tracks &&
    |s.connections| <= |r.connections| && s.outbox <= r.outbox
  }

  /** The `offer` case on the sender's connection `h`. */
  function OfferSpec(s: Session, h: ConnHandle, msg: Signal, userName: JsString, roomCode: JsString): (r: Session)
    requires h < |s.connections|
    ensures HandlerFrame(s, r)
  {
    var c := s.connections[h];
    if c.closed || msg.offer.None? then s
    else
      var d := Description(AnswerSdp, h);
      s.(connections := s.connections[h := c.(remoteDescription := msg.offer, localDescription := Some(d))],
         outbox := s.outbox + if s.channel.Some? then [AnswerSignal(msg.from, userName, roomCode, d)] else [])
  }

  /** The `answer` case. */
  function AnswerSpec(s: Session, h: ConnHandle, msg: Signal): (r: Session)
    requires h < |s.connections|
    ensures HandlerFrame(s, r)
  {
    var c := s.connections[h];
    if c.closed || msg.answer.None? then s
    else s.(connections := s.connections[h := c.(remoteDescription := msg.answer)])
  }

  /** The `ice-candidate` case. */
  function IceSpec(s: Session, h: ConnHandle, msg: Signal): (r: Session)
    requires h < |s.connections|
    ensures HandlerFrame(s, r)
  {
    var c := s.connections[h];
    if c.closed || c.remoteDescription.None? || msg.candidate.None? then s
    else s.(connections := s.connections[h := c.(candidates := c.candidates + [msg.candidate.value])])
  }

  /** The `user-joined` case: a connection for anyone but the user. */
  function UserJoinedSpec(s: Session, from: JsString, userName: JsString): (r: Session)
    ensures HandlerFrame(s, r)
  {
    if from == userName then s
    else s.(connections := s.connections + [NewConnection(from)],
            peers := s.peers + [Peer(from, from, |s.connections|, None)])
  }

  /** The `user-left` case: the leaver's connection closed, its entry removed. */
  function UserLeftSpec(s: Session, from: JsString): (r: Session)
    requires ValidSession(s)
    ensures HandlerFrame(s, r)
  {
    var j := FindIndex(s.peers, from);
    var conns := if j < |s.peers| then s.connections[s.peers[j].conn := s.connections[s.peers[j].conn].(closed := true)]
                 else s.connections;
    s.(connections := conns, peers := WithoutId(s.peers, from))
  }

  // ----- What the operations promise -----

  /** A successful start: both flags set, the peers kept, and the stream
      made of fresh handles for the new local tracks. */
  lemma StartCallStream(s: Session, video: bool, userName: JsString, roomCode: JsString)
    requires ValidSession(s)
    ensures var r := StartCallSpec(s, video, true, userName, roomCode);
      r.isCallActive && r.isVideoEnabled == video && r.isMuted == s.isMuted && r.peers == s.peers &&
      r.localStream.Some? && |r.localStream.value| == |MediaTracks(video)| &&
      forall i | 0 <= i < |r.localStream.value| ::
        r.localStream.value[i] == |s.tracks| + i && r.tracks[r.localStream.value[i]] == MediaTracks(video)[i]
  {
  }

  /** A successful start adds every local track to every peer's connection
      and sets an offer on it, and leaves every other connection alone. */
  lemma StartCallConnections(s: Session, video: bool, userName: JsString, roomCode: JsString)
    requires ValidSession(s)
    ensures var r := StartCallSpec(s, video, true, userName, roomCode);
      var stream := Range(|s.tracks|, |MediaTracks(video)|);
      (forall i | 0 <= i < |s.peers| ::
         r.connections[s.peers[i].conn].senders == s.connections[s.peers[i].conn].senders + stream &&
         r.connections[s.peers[i].conn].localDescription == Some(Description(OfferSdp, s.peers[i].conn))) &&
      (forall h | 0 <= h < |s.connections| && !HasHandle(s.peers, h) :: r.connections[h] == s.connections[h])
  {
    var r := StartCallSpec(s, video, true, userName, roomCode);
    var stream := Range(|s.tracks|, |MediaTracks(video)|);
    var added := AddSenders(s.connections, s.peers, stream);
    forall h | 0 <= h < |s.connections|
      ensures r.connections[h].senders == if HasHandle(s.peers, h) then s.connections[h].senders + stream else s.connections[h].senders
      ensures r.connections[h].localDescription ==
                if HasHandle(s.peers, h) then Some(Description(OfferSdp, h)) else s.connections[h].localDescription
    {
      AddSendersAt(s.connections, s.peers, stream, h);
      OfferAllAt(added, s.peers, h);
    }
    forall i | 0 <= i < |s.peers|
      ensures HasHandle(s.peers, s.peers[i].conn)
    {
    }
  }

  /** A successful start posts the join announcement and then one offer per
      peer, addressed to it, in list order. */
  lemma StartCallOutbox(s: Session, video: bool, userName: JsString, roomCode: JsString)
    requires ValidSession(s)
    ensures var r := StartCallSpec(s, video, true, userName, roomCode);
      |r.outbox| == |s.outbox| + 1 + |s.peers| && r.outbox[..|s.outbox|] == s.outbox &&
      r.outbox[|s.outbox|] == JoinedSignal(userName, roomCode) &&
      (forall i | 0 <= i < |s.peers| ::
         r.outbox[|s.outbox| + 1 + i].msgType == Offer && r.outbox[|s.outbox| + 1 + i].to == Some(s.peers[i].id))
  {
    var r := StartCallSpec(s, video, true, userName, roomCode);
    forall i | 0 <= i < |s.peers|
      ensures r.outbox[|s.outbox| + 1 + i] == Offers(s.peers, userName, roomCode)[i]
    {
    }
  }

  /** A failed media request changes nothing and posts nothing. */
  lemma StartCallFailure(s: Session, video: bool, userName: JsString, roomCode: JsString)
    requires ValidSession(s)
    ensures StartCallSpec(s, video, false, userName, roomCode) == s
  {
  }

  /** Ending a call: every local track stopped, every peer's connection
      closed and nothing else closed, no peers, all flags false, both slots
      empty, and one leave announcement posted exactly when a channel was open. */
  lemma EndCallEffects(s: Session, userName: JsString, roomCode: JsString)
    requires ValidSession(s)
    ensures var r := EndCallSpec(s, userName, roomCode);
      r.peers == [] && !r.isCallActive && !r.isVideoEnabled && !r.isMuted &&
      r.localStream.None? && r.channel.None? &&
      (s.localStream.Some? ==> forall i | 0 <= i < |s.localStream.value| :: r.tracks[s.localStream.value[i]].stopped) &&
      (forall i | 0 <= i < |s.peers| :: r.connections[s.peers[i].conn].closed) &&
      (forall h | 0 <= h < |s.connections| :: r.connections[h].closed == (s.connections[h].closed || HasHandle(s.peers, h))) &&
      r.outbox == s.outbox + (if s.channel.Some? then [LeftSignal(userName, roomCode)] else [])
  {
    var r := EndCallSpec(s, userName, roomCode);
    forall h | 0 <= h < |s.connections|
      ensures r.connections[h].closed == (s.connections[h].closed || HasHandle(s.peers, h))
    {
      CloseAllAt(s.connections, s.peers, h);
    }
    forall i | 0 <= i < |s.peers|
      ensures HasHandle(s.peers, s.peers[i].conn)
    {
    }
    if s.localStream.Some? {
      var st := s.localStream.value;
      forall i | 0 <= i < |st|
        ensures r.tracks[st[i]].stopped
      {
        StopTracksAt(s.tracks, st, st[i]);
      }
    }
  }

  /** After a mute toggle that found an audio track, `isMuted` is the negation
      of that track's flag; without a stream or an audio track nothing changes. */
  lemma ToggleMuteEffect(s: Session)
    requires ValidSession(s)
    ensures var r := ToggleMuteSpec(s);
      (s.localStream.None? || FirstOfKind(s.tracks, s.localStream.value, Audio).None?) ==> r == s
    ensures s.localStream.Some? && FirstOfKind(s.tracks, s.localStream.value, Audio).Some? ==>
      var t := FirstOfKind(s.tracks, s.localStream.value, Audio).value;
      var r := ToggleMuteSpec(s);
      r.tracks[t].enabled == !s.tracks[t].enabled && r.isMuted == !r.tracks[t].enabled
  {
  }

  /** Toggling mute twice restores every track flag and leaves `isMuted` as
      the negation of the audio track's flag. */
  lemma ToggleMuteTwice(s: Session)
    requires ValidSession(s)
    requires s.localStream.Some? && FirstOfKind(s.tracks, s.localStream.value, Audio).Some?
    ensures ValidSession(ToggleMuteSpec(s))
    ensures var r := ToggleMuteSpec(ToggleMuteSpec(s));
      var t := FirstOfKind(s.tracks, s.localStream.value, Audio).value;
      r.tracks == s.tracks && r.isMuted == !s.tracks[t].enabled
  {
    var st := s.localStream.value;
    var t := FirstOfKind(s.tracks, st, Audio).value;
    var once := ToggleMuteSpec(s);
    FirstOfKindKinds(s.tracks, once.tracks, st, Audio);
    assert Toggled(Toggled(s.tracks, t), t) == s.tracks;
  }

  /** The video toggle: an existing video track is flipped and the flag
      follows it; otherwise, with video off and the camera granted, one new
      enabled video track joins the local stream and every peer's connection. */
  lemma ToggleVideoEffect(s: Session, granted: bool)
    requires ValidSession(s) && s.localStream.Some?
    ensures var r := ToggleVideoSpec(s, granted);
      var v := FirstOfKind(s.tracks, s.localStream.value, Video);
      (v.Some? ==> r.tracks[v.value].enabled == !s.tracks[v.value].enabled && r.isVideoEnabled == r.tracks[v.value].enabled) &&
      (v.None? && !s.isVideoEnabled && granted ==>
         var t := |s.tracks|;
         r.isVideoEnabled && r.tracks == s.tracks + [Track(Video, true, false)] &&
         r.localStream == Some(s.localStream.value + [t]) &&
         (forall i | 0 <= i < |s.peers| ::
            r.connections[s.peers[i].conn].senders == s.connections[s.peers[i].conn].senders + [t])) &&
      (v.None? && (s.isVideoEnabled || !granted) ==> r == s)
  {
    var v := FirstOfKind(s.tracks, s.localStream.value, Video);
    if v.None? && !s.isVideoEnabled && granted {
      var t := |s.tracks|;
      forall i | 0 <= i < |s.peers|
        ensures AddSenders(s.connections, s.peers, [t])[s.peers[i].conn].senders == s.connections[s.peers[i].conn].senders + [t]
      {
        AddSendersAt(s.connections, s.peers, [t], s.peers[i].conn);
      }
    }
  }

  /** `ontrack` sets the stream on exactly the peers whose id is the
      connection's peer id, and changes nothing else. */
  lemma OnTrackEffect(s: Session, h: ConnHandle, streams: seq<StreamId>)
    requires h < |s.connections|
    ensures var r := OnTrackSpec(s, h, streams);
      r == s.(peers := r.peers) && |r.peers| == |s.peers| &&
      forall i | 0 <= i < |s.peers| ::
        (s.peers[i].id == s.connections[h].peerId ==> r.peers[i] == s.peers[i].(stream := FirstStream(streams))) &&
        (s.peers[i].id != s.connections[h].peerId ==> r.peers[i] == s.peers[i])
  {
  }

  /** A message not addressed to the local user, including every join and
      leave announcement, changes nothing. */
  lemma UnaddressedIgnored(s: Session, msg: Signal, searched: seq<Peer>, userName: JsString, roomCode: JsString)
    requires ValidSession(s) && HandlesIn(searched, |s.connections|)
    requires msg.to != Some(userName)
    ensures HandleSpec(s, msg, searched, userName, roomCode) == s
  {
  }

  /** The announcements carry no `to`, so no receiver acts on them. */
  lemma AnnouncementsIgnored(s: Session, from: JsString, searched: seq<Peer>, userName: JsString, roomCode: JsString)
    requires ValidSession(s) && HandlesIn(searched, |s.connections|)
    ensures HandleSpec(s, JoinedSignal(from, roomCode), searched, userName, roomCode) == s
    ensures HandleSpec(s, LeftSignal(from, roomCode), searched, userName, roomCode) == s
  {
    UnaddressedIgnored(s, JoinedSignal(from, roomCode), searched, userName, roomCode);
    UnaddressedIgnored(s, LeftSignal(from, roomCode), searched, userName, roomCode);
  }

  /** A message from a sender missing from the searched list changes nothing. */
  lemma UnknownSenderIgnored(s: Session, msg: Signal, searched: seq<Peer>, userName: JsString, roomCode: JsString)
    requires ValidSession(s) && HandlesIn(searched, |s.connections|)
    requires forall i | 0 <= i < |searched| :: searched[i].id != msg.from
    ensures HandleSpec(s, msg, searched, userName, roomCode) == s
  {
  }

  /** `user-left` closes the connection of the first current peer with the
      sender's id, drops every peer with that id and keeps the others in order. */
  lemma UserLeftEffect(s: Session, msg: Signal, searched: seq<Peer>, userName: JsString, roomCode: JsString)
    requires ValidSession(s) && HandlesIn(searched, |s.connections|)
    requires msg.msgType == UserLeft && msg.to == Some(userName) && FindIndex(searched, msg.from) < |searched|
    ensures var r := HandleSpec(s, msg, searched, userName, roomCode);
      var j := FindIndex(s.peers, msg.from);
      r.peers == WithoutId(s.peers, msg.from) &&
      (forall p :: p in r.peers <==> p in s.peers && p.id != msg.from) &&
      (j < |s.peers| ==> r.connections[s.peers[j].conn].closed) &&
      (forall h | 0 <= h < |s.connections| && (j == |s.peers| || h != s.peers[j].conn) :: r.connections[h] == s.connections[h]) &&
      r.outbox == s.outbox && r.tracks == s.tracks
  {
  }

  /** `user-joined` from another user appends a second entry for a sender
      already listed, with a fresh connection; the earlier entries stay. */
  lemma UserJoinedEffect(s: Session, msg: Signal, searched: seq<Peer>, userName: JsString, roomCode: JsString)
    requires ValidSession(s) && HandlesIn(searched, |s.connections|)
    requires msg.msgType == UserJoined && msg.to == Some(userName) && msg.from != userName
    requires FindIndex(searched, msg.from) < |searched|
    ensures var r := HandleSpec(s, msg, searched, userName, roomCode);
      r.peers == s.peers + [Peer(msg.from, msg.from, |s.connections|, None)] &&
      r.connections == s.connections + [NewConnection(msg.from)] &&
      (FindIndex(s.peers, msg.from) < |s.peers| ==> FindIndex(r.peers, msg.from) < |s.peers|)
  {
    var r := HandleSpec(s, msg, searched, userName, roomCode);
    if FindIndex(s.peers, msg.from) < |s.peers| {
      FindIndexPrefix(s.peers, [Peer(msg.from, msg.from, |s.connections|, None)], msg.from);
    }
  }

  /** A match in the prefix is found in the prefix. */
  lemma FindIndexPrefix(a: seq<Peer>, b: seq<Peer>, id: JsString)
    requires FindIndex(a, id) < |a|
    ensures FindIndex(a + b, id) == FindIndex(a, id)
  {
    var k := FindIndex(a, id);
    assert (a + b)[k] == a[k];
  }

  /** An offer on an open connection stores it as the remote description,
      sets an answer as local description and addresses the answer to the sender. */
  lemma OfferAnswered(s: Session, msg: Signal, searched: seq<Peer>, userName: JsString, roomCode: JsString)
    requires ValidSession(s) && HandlesIn(searched, |s.connections|) && s.channel.Some?
    requires msg.msgType == Offer && msg.to == Some(userName) && msg.offer.Some?
    requires FindIndex(searched, msg.from) < |searched|
    requires !s.connections[searched[FindIndex(searched, msg.from)].conn].closed
    ensures var r := HandleSpec(s, msg, searched, userName, roomCode);
      var h := searched[FindIndex(searched, msg.from)].conn;
      r.connections[h].remoteDescription == msg.offer &&
      r.connections[h].localDescription == Some(Description(AnswerSdp, h)) &&
      r.outbox == s.outbox + [AnswerSignal(msg.from, userName, roomCode, Description(AnswerSdp, h))] &&
      r.peers == s.peers
  {
  }

  /** A candidate is applied directly, with no queue: only to an open
      connection that already has a remote description; otherwise it is lost. */
  lemma CandidateAppliedOrDropped(s: Session, msg: Signal, searched: seq<Peer>, userName: JsString, roomCode: JsString)
    requires ValidSession(s) && HandlesIn(searched, |s.connections|)
    requires msg.msgType == IceCandidate && msg.to == Some(userName) && msg.candidate.Some?
    requires FindIndex(searched, msg.from) < |searched|
    ensures var r := HandleSpec(s, msg, searched, userName, roomCode);
      var h := searched[FindIndex(searched, msg.from)].conn;
      var c := s.connections[h];
      (c.closed || c.remoteDescription.None? ==> r == s) &&
      (!c.closed && c.remoteDescription.Some? ==>
         r.connections == s.connections[h := c.(candidates := c.candidates + [msg.candidate.value])])
  {
  }

  // ----- Every operation keeps the session well formed -----

  lemma StartCallValid(s: Session, video: bool, granted: bool, userName: JsString, roomCode: JsString)
    requires ValidSession(s)
    ensures ValidSession(StartCallSpec(s, video, granted, userName, roomCode))
  {
  }

  lemma EndCallValid(s: Session, userName: JsString, roomCode: JsString)
    requires ValidSession(s)
    ensures ValidSession(EndCallSpec(s, userName, roomCode))
  {
  }

  lemma ToggleVideoValid(s: Session, granted: bool)
    requires ValidSession(s)
    ensures ValidSession(ToggleVideoSpec(s, granted))
  {
  }

  lemma OnTrackValid(s: Session, h: ConnHandle, streams: seq<StreamId>)
    requires ValidSession(s) && h < |s.connections|
    ensures ValidSession(OnTrackSpec(s, h, streams))
  {
  }

  /** Replacing one connection by another for the same peer in the same
      open-or-closed state keeps the session well formed. */
  lemma ReplaceConnectionValid(s: Session, h: ConnHandle, c: Connection)
    requires ValidSession(s) && h < |s.connections|
    requires c.peerId == s.connections[h].peerId && c.closed == s.connections[h].closed
    ensures ValidSession(s.(connections := s.connections[h := c]))
  {
  }

  lemma UserJoinedValid(s: Session, from: JsString)
    requires ValidSession(s)
    ensures ValidSession(s.(connections := s.connections + [NewConnection(from)],
                            peers := s.peers + [Peer(from, from, |s.connections|, None)]))
  {
    var r := s.(connections := s.connections + [NewConnection(from)],
                peers := s.peers + [Peer(from, from, |s.connections|, None)]);
    forall i | 0 <= i < |r.peers|
      ensures r.peers[i].conn < |r.connections|
      ensures r.connections[r.peers[i].conn].peerId == r.peers[i].id && !r.connections[r.peers[i].conn].closed
    {
      if i < |s.peers| {
        assert r.peers[i] == s.peers[i];
      }
    }
    forall i, j | 0 <= i < j < |r.peers| ensures r.peers[i].conn != r.peers[j].conn
    {
      if j < |s.peers| {
        assert r.peers[i] == s.peers[i] && r.peers[j] == s.peers[j];
      } else {
        assert r.peers[i] == s.peers[i];
      }
    }
  }

  lemma UserLeftValid(s: Session, from: JsString)
    requires ValidSession(s)
    ensures ValidSession(UserLeftSpec(s, from))
  {
    var j := FindIndex(s.peers, from);
    var conns := if j < |s.peers| then s.connections[s.peers[j].conn := s.connections[s.peers[j].conn].(closed := true)]
                 else s.connections;
    var r := s.(connections := conns, peers := WithoutId(s.peers, from));
    WithoutIdDistinct(s.peers, from);
    forall i | 0 <= i < |r.peers|
      ensures r.peers[i].conn < |s.connections| && s.connections[r.peers[i].conn].peerId == r.peers[i].id
      ensures !r.connections[r.peers[i].conn].closed
    {
      assert r.peers[i] in s.peers;
      var i0 :| 0 <= i0 < |s.peers| && s.peers[i0] == r.peers[i];
      if j < |s.peers| {
        assert i0 != j;
      }
    }
  }

  lemma HandleValid(s: Session, msg: Signal, searched: seq<Peer>, userName: JsString, roomCode: JsString)
    requires ValidSession(s) && HandlesIn(searched, |s.connections|)
    ensures ValidSession(HandleSpec(s, msg, searched, userName, roomCode))
  {
    var k := FindIndex(searched, msg.from);
    if msg.to == Some(userName) && k < |searched| {
      var h := searched[k].conn;
      var c := s.connections[h];
      match msg.msgType
      case Offer =>
        if !c.closed && msg.offer.Some? {
          ReplaceConnectionValid(s, h, c.(remoteDescription := msg.offer,
                                          localDescription := Some(Description(AnswerSdp, h))));
        }
      case Answer =>
        if !c.closed && msg.answer.Some? {
          ReplaceConnectionValid(s, h, c.(remoteDescription := msg.answer));
        }
      case IceCandidate =>
        if !c.closed && c.remoteDescription.Some? && msg.candidate.Some? {
          ReplaceConnectionValid(s, h, c.(candidates := c.candidates + [msg.candidate.value]));
        }
      case UserJoined =>
        if msg.from != userName {
          UserJoinedValid(s, msg.from);
        }
      case UserLeft =>
        UserLeftValid(s, msg.from);
      case Unknown =>
    }
  }

  // ----- The forEach loops of the hook -----

  /** The nested `forEach` of `startCall` (and the single-track one of
      `toggleVideo`) that adds every track to every peer's connection. */
  method AddTracksToPeers(conns: seq<Connection>, ps: seq<Peer>, ts: seq<TrackHandle>) returns (r: seq<Connection>)
    requires HandlesIn(ps, |conns|)
    ensures r == AddSenders(conns, ps, ts)
  {
    r := conns;
    var i := 0;
    while i < |ps|
      invariant 0 <= i <= |ps|
      invariant HandlesIn(ps[..i], |conns|)
      invariant r == AddSenders(conns, ps[..i], ts)
    {
      var h := ps[i].conn;
      ghost var before := r;
      var j := 0;
      assert before[h].senders + ts[..0] == before[h].senders;
      assert r == before[h := before[h].(senders := before[h].senders + ts[..0])];
      while j < |ts|
        invariant 0 <= j <= |ts| && h < |r| == |before|
        invariant r == before[h := before[h].(senders := before[h].senders + ts[..j])]
      {
        assert ts[..j + 1] == ts[..j] + [ts[j]];
        assert r[h].senders + [ts[j]] == before[h].senders + ts[..j + 1];
        r := r[h := r[h].(senders := r[h].senders + [ts[j]])];
        j := j + 1;
      }
      assert ts[..j] == ts;
      assert ps[..i + 1][..i] == ps[..i];
      i := i + 1;
    }
    assert ps[..i] == ps;
  }

  /** The offer loop of `startCall`: each peer's connection gets its offer as
      local description and the offer is posted, in list order. */
  method OfferToPeers(conns: seq<Connection>, ps: seq<Peer>, posted: seq<Signal>, userName: JsString, roomCode: JsString)
    returns (r: seq<Connection>, out: seq<Signal>)
    requires HandlesIn(ps, |conns|)
    ensures r == OfferAll(conns, ps)
    ensures out == posted + Offers(ps, userName, roomCode)
  {
    r, out := conns, posted;
    var i := 0;
    while i < |ps|
      invariant 0 <= i <= |ps|
      invariant HandlesIn(ps[..i], |conns|)
      invariant r == OfferAll(conns, ps[..i])
      invariant out == posted + Offers(ps[..i], userName, roomCode)
    {
      var h := ps[i].conn;
      var d := Description(OfferSdp, h);
      r := r[h := r[h].(localDescription := Some(d))];
      out := out + [OfferSignal(ps[i].id, userName, roomCode, d)];
      assert ps[..i + 1][..i] == ps[..i];
      i := i + 1;
    }
    assert ps[..i] == ps;
  }

  /** The close loop of `endCall`. */
  method CloseConnections(conns: seq<Connection>, ps: seq<Peer>) returns (r: seq<Connection>)
    requires HandlesIn(ps, |conns|)
    ensures r == CloseAll(conns, ps)
  {
    r := conns;
    var i := 0;
    while i < |ps|
      invariant 0 <= i <= |ps|
      invariant HandlesIn(ps[..i], |conns|)
      invariant r == CloseAll(conns, ps[..i])
    {
      r := r[ps[i].conn := r[ps[i].conn].(closed := true)];
      assert ps[..i + 1][..i] == ps[..i];
      i := i + 1;
    }
    assert ps[..i] == ps;
  }

  /** The stop loop of `endCall`. */
  method StopStreamTracks(tracks: seq<Track>, ts: seq<TrackHandle>) returns (r: seq<Track>)
    requires TracksIn(ts, |tracks|)
    ensures r == StopTracks(tracks, ts)
  {
    r := tracks;
    var i := 0;
    while i < |ts|
      invariant 0 <= i <= |ts|
      invariant TracksIn(ts[..i], |tracks|)
      invariant r == StopTracks(tracks, ts[..i])
    {
      r := r[ts[i] := r[ts[i]].(stopped := true)];
      assert ts[..i + 1][..i] == ts[..i];
      i := i + 1;
    }
    assert ts[..i] == ts;
  }

  /** The effects of a successful `startCall` on a session value: the
      local tracks, the channel `initializeSignaling` opens, the join
      announcement, then the two loops over the peers. */
  method StartCallState(s: Session, video: bool, userName: JsString, roomCode: JsString) returns (r: Session)
    requires ValidSession(s)
    ensures r == StartCallSpec(s, video, true, userName, roomCode)
  {
    var media := MediaTracks(video);
    var stream := Range(|s.tracks|, |media|);
    r := s.(tracks := s.tracks + media, localStream := Some(stream), isCallActive := true, isVideoEnabled := video);
    r := r.(channel := OpenChannel(r.channel, roomCode));
    var added := AddTracksToPeers(r.connections, r.peers, stream);
    var conns, posted := OfferToPeers(added, r.peers, r.outbox + [JoinedSignal(userName, roomCode)], userName, roomCode);
    r := r.(connections := conns, outbox := posted);
  }

  /** The effects of `endCall` on a session value, its loops written out. */
  method EndCallState(s: Session, userName: JsString, roomCode: JsString) returns (r: Session)
    requires ValidSession(s)
    ensures r == EndCallSpec(s, userName, roomCode)
  {
    var stopped := s.tracks;
    if s.localStream.Some? {
      stopped := StopStreamTracks(s.tracks, s.localStream.value);
    }
    var closed := CloseConnections(s.connections, s.peers);
    var posted := if s.channel.Some? then s.outbox + [LeftSignal(userName, roomCode)] else s.outbox;
    r := s.(tracks := stopped, localStream := None, connections := closed, peers := [],
            isCallActive := false, isVideoEnabled := false, isMuted := false,
            outbox := posted, channel := None);
  }

  // ----- The hook as an object -----

  /** The state `useWebRTC(roomCode, userName)` keeps across renders: its
      React state, its refs and the browser objects they reach. Each method
      is one callback of the hook and is proved against the function of the
      same name above. */
  class CallSession {
    const roomCode: JsString
    const userName: JsString
    var isCallActive: bool
    var isVideoEnabled: bool
    var isMuted: bool
    var peers: seq<Peer>
    var localStream: Option<seq<TrackHandle>>
    var channel: Option<JsString>
    var outbox: seq<Signal>
    var connections: seq<Connection>
    var tracks: seq<Track>

    function Snapshot(): Session
      reads this
    {
      Session(isCallActive, isVideoEnabled, isMuted, peers, localStream, channel, outbox, connections, tracks)
    }

    predicate Valid()
      reads this
    {
      ValidSession(Snapshot())
    }

    /** The first render: no call, no peers, no stream, no channel. */
    constructor (roomCode: JsString, userName: JsString)
      ensures this.roomCode == roomCode && this.userName == userName
      ensures Snapshot() == Session(false, false, false, [], None, None, [], [], [])
      ensures Valid()
    {
      this.roomCode := roomCode;
      this.userName := userName;
      isCallActive, isVideoEnabled, isMuted := false, false, false;
      peers, localStream, channel := [], None, None;
      outbox, connections, tracks := [], [], [];
    }

    /** `createPeerConnection`: a new, open connection for `peerId`, whose
        callbacks are the methods `OnTrack` and `OnIceCandidate` with handle `h`. */
    method CreatePeerConnection(peerId: JsString) returns (h: ConnHandle)
      requires Valid()
      modifies this
      ensures h == |old(connections)|
      ensures Snapshot() == old(Snapshot()).(connections := old(connections) + [NewConnection(peerId)])
      ensures Valid()
    {
      h := |connections|;
      connections := connections + [NewConnection(peerId)];
    }

    /** `initializeSignaling`. */
    method InitializeSignaling()
      requires Valid()
      modifies this
      ensures Snapshot() == old(Snapshot()).(channel := OpenChannel(old(channel), roomCode))
      ensures Valid()
    {
      if channel.Some? {
        return;
      }
      channel := Some(ChannelName(roomCode));
    }

    /** `startCall(video)`; `granted` is whether `getUserMedia` resolved. */
    method StartCall(video: bool, granted: bool)
      requires Valid()
      modifies this
      ensures Snapshot() == StartCallSpec(old(Snapshot()), video, granted, userName, roomCode)
      ensures Valid()
    {
      StartCallValid(Snapshot(), video, granted, userName, roomCode);
      if !granted {
        return;
      }
      var next := StartCallState(Snapshot(), video, userName, roomCode);
      tracks, localStream, isCallActive, isVideoEnabled := next.tracks, next.localStream, next.isCallActive, next.isVideoEnabled;
      channel, connections, outbox := next.channel, next.connections, next.outbox;
    }

    /** `endCall`. */
    method EndCall()
      requires Valid()
      modifies this
      ensures Snapshot() == EndCallSpec(old(Snapshot()), userName, roomCode)
      ensures Valid()
    {
      var next := EndCallState(Snapshot(), userName, roomCode);
      EndCallValid(Snapshot(), userName, roomCode);
      tracks, localStream, connections, peers := next.tracks, next.localStream, next.connections, next.peers;
      isCallActive, isVideoEnabled, isMuted := next.isCallActive, next.isVideoEnabled, next.isMuted;
      outbox, channel := next.outbox, next.channel;
    }

    /** `toggleMute`. */
    method ToggleMute()
      requires Valid()
      modifies this
      ensures Snapshot() == ToggleMuteSpec(old(Snapshot()))
      ensures Valid()
    {
      if localStream.None? {
        return;
      }
      var audio := FirstOfKind(tracks, localStream.value, Audio);
      if audio.Some? {
        var t := audio.value;
        tracks := tracks[t := tracks[t].(enabled := !tracks[t].enabled)];
        isMuted := !tracks[t].enabled;
      }
    }

    /** `toggleVideo`; `granted` is whether `getUserMedia({ video: true })` resolved. */
    method ToggleVideo(granted: bool)
      requires Valid()
      modifies this
      ensures Snapshot() == ToggleVideoSpec(old(Snapshot()), granted)
      ensures Valid()
    {
      ghost var s0 := Snapshot();
      ToggleVideoValid(s0, granted);
      if localStream.None? {
        return;
      }
      var video := FirstOfKind(tracks, localStream.value, Video);
      if video.Some? {
        var t := video.value;
        tracks := tracks[t := tracks[t].(enabled := !tracks[t].enabled)];
        isVideoEnabled := tracks[t].enabled;
      } else if !isVideoEnabled && granted {
        var t := |tracks|;
        tracks := tracks + [Track(Video, true, false)];
        localStream := Some(localStream.value + [t]);
        connections := AddTracksToPeers(connections, peers, [t]);
        isVideoEnabled := true;
      }
    }

    /** The `ontrack` callback of connection `h`. */
    method OnTrack(h: ConnHandle, streams: seq<StreamId>)
      requires Valid() && h < |connections|
      modifies this
      ensures Snapshot() == OnTrackSpec(old(Snapshot()), h, streams)
      ensures Valid()
    {
      OnTrackValid(Snapshot(), h, streams);
      peers := WithStream(peers, connections[h].peerId, FirstStream(streams));
    }

    /** The `onicecandidate` callback of connection `h`. */
    method OnIceCandidate(h: ConnHandle, candidate: Option<JsString>)
      requires Valid() && h < |connections|
      modifies this
      ensures Snapshot() == OnIceCandidateSpec(old(Snapshot()), h, candidate, userName, roomCode)
      ensures Valid()
    {
      if candidate.Some? && channel.Some? {
        outbox := outbox + [IceSignal(connections[h].peerId, userName, roomCode, candidate.value)];
      }
    }

    /** The channel's `onmessage` handler, run on `msg` with the peer list
        `searched` it captured. */
    method HandleMessage(msg: Signal, searched: seq<Peer>)
      requires Valid() && HandlesIn(searched, |connections|)
      modifies this
      ensures Snapshot() == HandleSpec(old(Snapshot()), msg, searched, userName, roomCode)
      ensures Valid()
    {
      if msg.to != Some(userName) {
        return;
      }
      var k := FindIndex(searched, msg.from);
      if k == |searched| {
        return;
      }
      var h := searched[k].conn;
      match msg.msgType
      case Offer => HandleOffer(h, msg);
      case Answer => HandleAnswer(h, msg);
      case IceCandidate => HandleIceCandidate(h, msg);
      case UserJoined => HandleUserJoined(msg.from);
      case UserLeft => HandleUserLeft(msg.from);
      case Unknown =>
    }

    /** The `offer` case: answer on the sender's connection. */
    method HandleOffer(h: ConnHandle, msg: Signal)
      requires Valid() && h < |connections|
      modifies this
      ensures Snapshot() == OfferSpec(old(Snapshot()), h, msg, userName, roomCode)
      ensures Valid()
    {
      var c := connections[h];
      if !c.closed && msg.offer.Some? {
        var d := Description(AnswerSdp, h);
        ReplaceConnectionValid(Snapshot(), h, c.(remoteDescription := msg.offer, localDescription := Some(d)));
        connections := connections[h := c.(remoteDescription := msg.offer, localDescription := Some(d))];
        if channel.Some? {
          outbox := outbox + [AnswerSignal(msg.from, userName, roomCode, d)];
        }
      }
    }

    /** The `answer` case. */
    method HandleAnswer(h: ConnHandle, msg: Signal)
      requires Valid() && h < |connections|
      modifies this
      ensures Snapshot() == AnswerSpec(old(Snapshot()), h, msg)
      ensures Valid()
    {
      var c := connections[h];
      if !c.closed && msg.answer.Some? {
        ReplaceConnectionValid(Snapshot(), h, c.(remoteDescription := msg.answer));
        connections := connections[h := c.(remoteDescription := msg.answer)];
      }
    }

    /** The `ice-candidate` case. */
    method HandleIceCandidate(h: ConnHandle, msg: Signal)
      requires Valid() && h < |connections|
      modifies this
      ensures Snapshot() == IceSpec(old(Snapshot()), h, msg)
      ensures Valid()
    {
      var c := connections[h];
      if !c.closed && c.remoteDescription.Some? && msg.candidate.Some? {
        ReplaceConnectionValid(Snapshot(), h, c.(candidates := c.candidates + [msg.candidate.value]));
        connections := connections[h := c.(candidates := c.candidates + [msg.candidate.value])];
      }
    }

    /** The `user-joined` case. */
    method HandleUserJoined(from: JsString)
      requires Valid()
      modifies this
      ensures Snapshot() == UserJoinedSpec(old(Snapshot()), from, userName)
      ensures Valid()
    {
      if from != userName {
        UserJoinedValid(Snapshot(), from);
        var nh := CreatePeerConnection(from);
        peers := peers + [Peer(from, from, nh, None)];
      }
    }

    /** The `user-left` case. */
    method HandleUserLeft(from: JsString)
      requires Valid()
      modifies this
      ensures Snapshot() == UserLeftSpec(old(Snapshot()), from)
      ensures Valid()
    {
      UserLeftValid(Snapshot(), from);
      var j := FindIndex(peers, from);
      if j < |peers| {
        connections := connections[peers[j].conn := connections[peers[j].conn].(closed := true)];
      }
      peers := WithoutId(peers, from);
    }
  }
}
