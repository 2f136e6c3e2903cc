/**
  The server's per-peer registry and its WebSocket signalling handlers
  (node/index.js). Four maps keyed by peer id hold the peer connection, its
  data channel, a stream interval and the peer's WebSocket; the handlers
  insert into and delete from them in place.

  A peer connection is an object the handlers only create, close and hand
  candidates to: here it is a number `ConnId`, fresh per offer. SDP
  negotiation itself is opaque; its outcome is a parameter of the offer
  handler. What a handler sends on the peer's WebSocket is appended to
  `outbox`.
 */
module SignalingGateway {
  import opened Wrappers

  type PeerId = string
  type ConnId = nat
  type SocketId = nat
  /** An ICE candidate, passed through unread. */
  type Candidate = string

  /** `RTCPeerConnection.connectionState`. */
  datatype ConnState = New | Connecting | Connected | Disconnected | Failed | Closed

  /** How far `setRemoteDescription` / `createAnswer` got for an offer. */
  datatype Negotiation = RemoteRejected | AnswerFailed | Answered

  /**
    A signalling message from a browser, after `JSON.parse`. For the
    candidates, `rejectsAt` is the index of the first `addIceCandidate` call
    that rejects, if any.
   */
  datatype Incoming =
    | Offer(outcome: Negotiation)
    | IceCandidates(candidates: seq<Candidate>, rejectsAt: Option<nat>)
    | Unknown(kind: string)

  /** A message the server sends on a peer's WebSocket. */
  datatype Outbound = PeerIdMessage(peer: PeerId) | AnswerMessage(conn: ConnId) | IceBatch(candidates: seq<Candidate>)

  datatype Sent = Sent(to: PeerId, message: Outbound)

  datatype GatewayState = GatewayState(
    connections: map<PeerId, ConnId>,     // peerConnections
    dataChannels: map<PeerId, nat>,       // peerDataChannels
    streamIntervals: map<PeerId, nat>,    // peerStreamIntervals
    sockets: map<PeerId, SocketId>,       // peerWsConnections
    nextConn: ConnId,
    connPeer: map<ConnId, PeerId>,        // the peer whose offer created the connection
    closed: set<ConnId>,                  // connections whose close() was called
    remoteSet: set<ConnId>,               // connections whose remote description is set
    iceBuffers: map<ConnId, seq<Candidate>>,      // each offer's `localIceCandidates`
    applied: map<ConnId, seq<Candidate>>,         // candidates passed to addIceCandidate
    outbox: seq<Sent>)

  function Initial(): GatewayState
  {
    GatewayState(map[], map[], map[], map[], 0, map[], {}, {}, map[], map[], [])
  }

  /**
    The registry is consistent: every registered connection was created by
    its own peer's offer and is still open, and the stream-interval and
    data-channel maps stay empty (no handler ever inserts into them).
   */
  predicate Inv(s: GatewayState)
  {
    && (forall c :: c in s.connPeer ==> c < s.nextConn)
    && s.iceBuffers.Keys == s.connPeer.Keys && s.applied.Keys == s.connPeer.Keys
    && s.closed <= s.connPeer.Keys && s.remoteSet <= s.connPeer.Keys
    && (forall p :: p in s.connections ==>
          && s.connections[p] in s.connPeer
          && s.connPeer[s.connections[p]] == p
          && s.connections[p] !in s.closed)
    && s.dataChannels == map[] && s.streamIntervals == map[]
  }

  // ---------------------------------------------------------------------------
  // The handlers as functions of the registry
  // ---------------------------------------------------------------------------

  /** A new WebSocket: register it and tell the browser its peer id. */
  function ConnectSpec(s: GatewayState, peer: PeerId, socket: SocketId): GatewayState
  {
    s.(sockets := s.sockets[peer := socket], outbox := s.outbox + [Sent(peer, PeerIdMessage(peer))])
  }

  /** Close the peer's registered connection, if any, and forget it. */
  function CloseConnection(s: GatewayState, peer: PeerId): GatewayState
  {
    if peer in s.connections then s.(closed := s.closed + {s.connections[peer]}, connections := s.connections - {peer})
    else s
  }

  /** The cleanup of a connection-state change: interval, connection, then data channel. */
  function TearDownPeer(s: GatewayState, peer: PeerId): GatewayState
  {
    var s1 := s.(streamIntervals := s.streamIntervals - {peer});
    var s2 := CloseConnection(s1, peer);
    s2.(dataChannels := s2.dataChannels - {peer})
  }

  /**
    An offer: close and forget the peer's existing connection, register a
    fresh one, and negotiate. The fresh connection's candidate buffer starts
    empty.
   */
  function OfferSpec(s: GatewayState, peer: PeerId, outcome: Negotiation): GatewayState
  {
    var s1 := if peer in s.connections then TearDownPeer(s, peer) else s;
    Negotiate(Register(s1, peer), peer, s1.nextConn, outcome)
  }

  /** `new RTCPeerConnection()` stored under the peer, with its own empty candidate buffer. */
  function Register(s: GatewayState, peer: PeerId): GatewayState
  {
    var c := s.nextConn;
    s.(connections := s.connections[peer := c], nextConn := c + 1, connPeer := s.connPeer[c := peer],
       iceBuffers := s.iceBuffers[c := []], applied := s.applied[c := []])
  }

  /** The remote description is set unless the offer is rejected; the answer goes out only if it was created. */
  function Negotiate(s: GatewayState, peer: PeerId, c: ConnId, outcome: Negotiation): GatewayState
  {
    match outcome
    case RemoteRejected => s
    case AnswerFailed => s.(remoteSet := s.remoteSet + {c})
    case Answered => s.(remoteSet := s.remoteSet + {c}, outbox := s.outbox + [Sent(peer, AnswerMessage(c))])
  }

  /**
    Remote candidates reach the peer's connection, in list order, only once
    its remote description is set; a rejected call ends the loop in the
    `catch`, so the candidates after it are never passed on.
   */
  function RemoteIceSpec(s: GatewayState, peer: PeerId, candidates: seq<Candidate>, rejectsAt: Option<nat>): GatewayState
  {
    if peer in s.connections && s.connections[peer] in s.remoteSet && s.connections[peer] in s.applied then
      var c := s.connections[peer];
      s.(applied := s.applied[c := s.applied[c] + Reached(candidates, rejectsAt)])
    else s
  }

  function MessageSpec(s: GatewayState, peer: PeerId, m: Incoming): GatewayState
  {
    match m
    case Offer(outcome) => OfferSpec(s, peer, outcome)
    case IceCandidates(candidates, rejectsAt) => RemoteIceSpec(s, peer, candidates, rejectsAt)
    case Unknown(_) => s
  }

  /**
    `onicecandidate` of connection `c`: a candidate is buffered; the end of
    gathering (no candidate) sends the whole buffer as one message. The
    buffer is not emptied.
   */
  function LocalIceSpec(s: GatewayState, c: ConnId, candidate: Option<Candidate>): GatewayState
    requires c in s.iceBuffers && c in s.connPeer
  {
    match candidate
    case Some(x) => s.(iceBuffers := s.iceBuffers[c := s.iceBuffers[c] + [x]])
    case None => s.(outbox := s.outbox + [Sent(s.connPeer[c], IceBatch(s.iceBuffers[c]))])
  }

  predicate IsTerminal(state: ConnState)
  {
    state == Disconnected || state == Closed || state == Failed
  }

  function ConnectionStateSpec(s: GatewayState, peer: PeerId, state: ConnState): GatewayState
  {
    if IsTerminal(state) then TearDownPeer(s, peer) else s
  }

  /** `ws.on("close")`: the peer's entries, its WebSocket entry included, are deleted. */
  function SocketCloseSpec(s: GatewayState, peer: PeerId): GatewayState
  {
    var s1 := TearDownPeer(s, peer);
    s1.(sockets := s1.sockets - {peer})
  }

  /** Deleting an absent key leaves the map as it was. */
  lemma RemoveAbsent<V>(m: map<PeerId, V>, k: PeerId)
    requires k !in m
    ensures m - {k} == m
  {
    assert (m - {k}).Keys == m.Keys;
  }

  // ---------------------------------------------------------------------------
  // The registry as the server holds it: maps updated in place
  // ---------------------------------------------------------------------------

  class Gateway {
    var connections: map<PeerId, ConnId>
    var dataChannels: map<PeerId, nat>
    var streamIntervals: map<PeerId, nat>
    var sockets: map<PeerId, SocketId>
    var nextConn: ConnId
    var connPeer: map<ConnId, PeerId>
    var closed: set<ConnId>
    var remoteSet: set<ConnId>
    var iceBuffers: map<ConnId, seq<Candidate>>
    var applied: map<ConnId, seq<Candidate>>
    var outbox: seq<Sent>

    function State(): GatewayState
      reads this
    {
      GatewayState(connections, dataChannels, streamIntervals, sockets, nextConn, connPeer,
                   closed, remoteSet, iceBuffers, applied, outbox)
    }

    constructor ()
      ensures State() == Initial()
    {
      connections, dataChannels, streamIntervals, sockets := map[], map[], map[], map[];
      nextConn, connPeer, closed, remoteSet := 0, map[], {}, {};
      iceBuffers, applied, outbox := map[], map[], [];
    }

    /** `wss.on("connection")`. */
    method OnConnection(peer: PeerId, socket: SocketId)
      modifies this`sockets, this`outbox
      ensures State() == ConnectSpec(old(State()), peer, socket)
    {
      sockets := sockets[peer := socket];
      outbox := outbox + [Sent(peer, PeerIdMessage(peer))];
    }

    /** The three deletions of a cleanup, each behind its own `has` check where the source has one. */
    method TearDown(peer: PeerId)
      modifies this`streamIntervals, this`connections, this`closed, this`dataChannels
      ensures State() == TearDownPeer(old(State()), peer)
    {
      if peer in streamIntervals {
        streamIntervals := streamIntervals - {peer};
      } else {
        RemoveAbsent(streamIntervals, peer);
      }
      if peer in connections {
        closed := closed + {connections[peer]};
        connections := connections - {peer};
      }
      dataChannels := dataChannels - {peer};
    }

    /** The `offer` case of `ws.on("message")`. */
    method OnOffer(peer: PeerId, outcome: Negotiation)
      modifies this
      ensures State() == OfferSpec(old(State()), peer, outcome)
    {
      if peer in connections {
        TearDown(peer);
      }
      var c := nextConn;
      CreateConnection(peer);
      SetRemoteAndAnswer(peer, c, outcome);
    }

    /** Steps 1 and 2 of an offer: a fresh connection, registered under the peer. */
    method CreateConnection(peer: PeerId)
      modifies this`nextConn, this`connections, this`connPeer, this`iceBuffers, this`applied
      ensures State() == Register(old(State()), peer)
    {
      var c := nextConn;
      nextConn := nextConn + 1;
      connections := connections[peer := c];
      connPeer := connPeer[c := peer];
      iceBuffers := iceBuffers[c := []];
      applied := applied[c := []];
    }

    /** Step 5 of an offer: `setRemoteDescription`, `createAnswer`, send the answer. */
    method SetRemoteAndAnswer(peer: PeerId, c: ConnId, outcome: Negotiation)
      modifies this`remoteSet, this`outbox
      ensures State() == Negotiate(old(State()), peer, c, outcome)
    {
      if outcome != RemoteRejected {
        remoteSet := remoteSet + {c};
        if outcome == Answered {
          outbox := outbox + [Sent(peer, AnswerMessage(c))];
        }
      }
    }

    /**
      The `iceCandidate` case of `ws.on("message")`: one `addIceCandidate`
      per candidate, in order, until a call rejects.
     */
    method OnRemoteIceCandidates(peer: PeerId, candidates: seq<Candidate>, rejectsAt: Option<nat>)
      modifies this`applied
      ensures State() == RemoteIceSpec(old(State()), peer, candidates, rejectsAt)
    {
      if peer in connections && connections[peer] in remoteSet && connections[peer] in applied {
        var c := connections[peer];
        ghost var before := applied;
        assert before[c] + candidates[..0] == before[c];
        assert before[c := before[c]] == before;
        for i := 0 to |candidates|
          invariant applied == before[c := before[c] + candidates[..i]]
          invariant rejectsAt.None? || rejectsAt.value >= i
        {
          assert applied[c] == before[c] + candidates[..i];
          applied := applied[c := applied[c] + [candidates[i]]];
          assert before[c] + candidates[..i] + [candidates[i]] == before[c] + candidates[..i + 1];
          if rejectsAt == Some(i) {
            return;
          }
        }
        assert candidates[..|candidates|] == candidates;
      }
    }

    method OnMessage(peer: PeerId, m: Incoming)
      modifies this
      ensures State() == MessageSpec(old(State()), peer, m)
    {
      match m
      case Offer(outcome) => OnOffer(peer, outcome);
      case IceCandidates(candidates, rejectsAt) => OnRemoteIceCandidates(peer, candidates, rejectsAt);
      case Unknown(_) =>
    }

    method OnLocalIceCandidate(c: ConnId, candidate: Option<Candidate>)
      requires c in iceBuffers && c in connPeer
      modifies this`iceBuffers, this`outbox
      ensures State() == LocalIceSpec(old(State()), c, candidate)
    {
      if candidate.Some? {
        iceBuffers := iceBuffers[c := iceBuffers[c] + [candidate.value]];
      } else {
        outbox := outbox + [Sent(connPeer[c], IceBatch(iceBuffers[c]))];
      }
    }

    method OnConnectionStateChange(peer: PeerId, state: ConnState)
      modifies this`streamIntervals, this`connections, this`closed, this`dataChannels
      ensures State() == ConnectionStateSpec(old(State()), peer, state)
    {
      if IsTerminal(state) {
        TearDown(peer);
      }
    }

    method OnSocketClose(peer: PeerId)
      modifies this`streamIntervals, this`connections, this`closed, this`dataChannels, this`sockets
      ensures State() == SocketCloseSpec(old(State()), peer)
    {
      if peer in connections {
        closed := closed + {connections[peer]};
        connections := connections - {peer};
      }
      if peer in streamIntervals {
        streamIntervals := streamIntervals - {peer};
      } else {
        RemoveAbsent(streamIntervals, peer);
      }
      dataChannels := dataChannels - {peer};
      sockets := sockets - {peer};
    }

    /** `ws.on("error")` only logs. */
    method OnSocketError(peer: PeerId)
      ensures State() == old(State())
    {
    }
  }

  // ---------------------------------------------------------------------------
  // Properties
  // ---------------------------------------------------------------------------

  /** Every handler keeps the registry consistent. */
  lemma InvPreserved(s: GatewayState, peer: PeerId, socket: SocketId, m: Incoming, state: ConnState)
    requires Inv(s)
    ensures Inv(Initial())
    ensures Inv(ConnectSpec(s, peer, socket))
    ensures Inv(MessageSpec(s, peer, m))
    ensures Inv(ConnectionStateSpec(s, peer, state))
    ensures Inv(SocketCloseSpec(s, peer))
  {
    TearDownKeepsInv(s, peer);
    if m.Offer? {
      OfferKeepsInv(s, peer, m.outcome);
    }
  }

  lemma TearDownKeepsInv(s: GatewayState, peer: PeerId)
    requires Inv(s)
    ensures Inv(TearDownPeer(s, peer))
  {
    var t := TearDownPeer(s, peer);
    forall p | p in t.connections
      ensures t.connections[p] !in t.closed
    {
      assert p != peer && t.connections[p] == s.connections[p];
      if peer in s.connections {
        assert s.connPeer[s.connections[peer]] == peer;
      }
    }
  }

  lemma OfferKeepsInv(s: GatewayState, peer: PeerId, outcome: Negotiation)
    requires Inv(s)
    ensures Inv(OfferSpec(s, peer, outcome))
  {
    var s1 := if peer in s.connections then TearDownPeer(s, peer) else s;
    if peer in s.connections {
      TearDownKeepsInv(s, peer);
    }
    var c := s1.nextConn;
    assert c !in s1.connPeer;
    var s2 := Register(s1, peer);
    forall p | p in s2.connections
      ensures s2.connections[p] in s2.connPeer && s2.connPeer[s2.connections[p]] == p && s2.connections[p] !in s2.closed
    {
      if p != peer {
        assert s2.connections[p] == s1.connections[p] != c;
      }
    }
    assert Inv(s2);
  }

  /**
    After an offer the peer holds exactly one connection, a fresh one; the
    one it held before is closed, and no other peer's entry changes.
   */
  lemma OfferReplacesConnection(s: GatewayState, peer: PeerId, outcome: Negotiation)
    requires Inv(s)
    ensures var r := OfferSpec(s, peer, outcome);
      && r.connections == s.connections[peer := s.nextConn]
      && s.nextConn !in s.connPeer && s.nextConn !in r.closed
      && (peer in s.connections ==> s.connections[peer] in r.closed)
      && r.iceBuffers[s.nextConn] == [] && r.applied[s.nextConn] == []
      && (s.nextConn in r.remoteSet <==> outcome != RemoteRejected)
  {
    assert s.nextConn !in s.connPeer;
    if peer in s.connections {
      var s1 := TearDownPeer(s, peer);
      assert s1.closed == s.closed + {s.connections[peer]} && s1.connections == s.connections - {peer};
      assert (s.connections - {peer})[peer := s.nextConn] == s.connections[peer := s.nextConn];
    }
  }

  /**
    Cleanup removes the peer's connection, interval and data channel (closing
    the connection), and leaves every other peer's entries as they were.
   */
  lemma TearDownRemovesOnlyThePeer(s: GatewayState, peer: PeerId)
    ensures var r := TearDownPeer(s, peer);
      && peer !in r.connections && peer !in r.streamIntervals && peer !in r.dataChannels
      && (peer in s.connections ==> s.connections[peer] in r.closed)
      && (forall q :: q != peer ==> (q in r.connections <==> q in s.connections))
      && (forall q :: q != peer && q in s.connections ==> r.connections[q] == s.connections[q])
      && r.sockets == s.sockets && r.outbox == s.outbox && r.applied == s.applied
  {
  }

  /** Every deletion is guarded, so a second cleanup changes nothing. */
  lemma CleanupIdempotent(s: GatewayState, peer: PeerId, state: ConnState)
    ensures TearDownPeer(TearDownPeer(s, peer), peer) == TearDownPeer(s, peer)
    ensures ConnectionStateSpec(ConnectionStateSpec(s, peer, state), peer, state) == ConnectionStateSpec(s, peer, state)
    ensures SocketCloseSpec(SocketCloseSpec(s, peer), peer) == SocketCloseSpec(s, peer)
  {
    var t := TearDownPeer(s, peer);
    assert t.streamIntervals - {peer} == t.streamIntervals;
    assert t.dataChannels - {peer} == t.dataChannels;
    var u := SocketCloseSpec(s, peer);
    assert u.sockets - {peer} == u.sockets;
    assert u.streamIntervals - {peer} == u.streamIntervals;
    assert u.dataChannels - {peer} == u.dataChannels;
  }

  /** The socket close also forgets the WebSocket; other peers' sockets stay. */
  lemma SocketCloseForgetsSocket(s: GatewayState, peer: PeerId)
    ensures var r := SocketCloseSpec(s, peer);
      && peer !in r.sockets && peer !in r.connections
      && (forall q :: q != peer && q in s.sockets ==> q in r.sockets && r.sockets[q] == s.sockets[q])
  {
  }

  /**
    Remote candidates are passed to `addIceCandidate` exactly when the peer's
    connection has its remote description, in list order: all of them, or,
    when the call for index i rejects, candidates 0 .. i and none after.
    Nothing else changes.
   */
  lemma RemoteIceGated(s: GatewayState, peer: PeerId, candidates: seq<Candidate>, rejectsAt: Option<nat>)
    requires Inv(s)
    ensures var r := RemoteIceSpec(s, peer, candidates, rejectsAt);
      if peer in s.connections && s.connections[peer] in s.remoteSet then
        var c := s.connections[peer];
        && (rejectsAt.None? || rejectsAt.value >= |candidates| ==>
              r == s.(applied := s.applied[c := s.applied[c] + candidates]))
        && (rejectsAt.Some? && rejectsAt.value < |candidates| ==>
              r == s.(applied := s.applied[c := s.applied[c] + candidates[..rejectsAt.value + 1]]))
      else r == s
  {
  }

  /** Candidates buffered one at a time by connection `c`, in arrival order. */
  function Gather(s: GatewayState, c: ConnId, candidates: seq<Candidate>): (r: GatewayState)
    requires c in s.iceBuffers && c in s.connPeer
    ensures c in r.iceBuffers && r.connPeer == s.connPeer
    decreases |candidates|
  {
    if candidates == [] then s
    else
      var before := Gather(s, c, candidates[..|candidates| - 1]);
      LocalIceSpec(before, c, Some(candidates[|candidates| - 1]))
  }

  /** Gathering appends the candidates to the buffer in order and sends nothing. */
  lemma {:induction false} GatherBuffers(s: GatewayState, c: ConnId, candidates: seq<Candidate>)
    requires c in s.iceBuffers && c in s.connPeer
    ensures var r := Gather(s, c, candidates);
      r.iceBuffers == s.iceBuffers[c := s.iceBuffers[c] + candidates] && r.outbox == s.outbox
    decreases |candidates|
  {
    if candidates != [] {
      var init := candidates[..|candidates| - 1];
      var last := candidates[|candidates| - 1];
      GatherBuffers(s, c, init);
      var before := Gather(s, c, init);
      assert Gather(s, c, candidates) == LocalIceSpec(before, c, Some(last));
      assert before.iceBuffers[c] == s.iceBuffers[c] + init;
      assert s.iceBuffers[c] + init + [last] == s.iceBuffers[c] + candidates;
      assert before.iceBuffers[c := before.iceBuffers[c] + [last]] == s.iceBuffers[c := s.iceBuffers[c] + candidates];
    } else {
      assert s.iceBuffers[c] + candidates == s.iceBuffers[c];
      assert s.iceBuffers[c := s.iceBuffers[c]] == s.iceBuffers;
    }
  }

  /**
    A fresh connection that gathers some candidates and then ends gathering
    sends exactly one message to its peer: all the candidates, in arrival order.
   */
  lemma GatheringSendsOneBatch(s: GatewayState, c: ConnId, candidates: seq<Candidate>)
    requires c in s.iceBuffers && c in s.connPeer && s.iceBuffers[c] == []
    ensures var r := LocalIceSpec(Gather(s, c, candidates), c, None);
      r.outbox == s.outbox + [Sent(s.connPeer[c], IceBatch(candidates))]
  {
    GatherBuffers(s, c, candidates);
    assert s.iceBuffers[c] + candidates == candidates;
  }

  /** Neither the stream-interval map nor the data-channel map ever gains an entry. */
  lemma UnusedMapsStayEmpty(s: GatewayState, peer: PeerId, socket: SocketId, m: Incoming, state: ConnState)
    requires Inv(s)
    ensures var r := MessageSpec(s, peer, m);
      r.streamIntervals == map[] && r.dataChannels == map[]
    ensures var r := SocketCloseSpec(ConnectionStateSpec(ConnectSpec(s, peer, socket), peer, state), peer);
      r.streamIntervals == map[] && r.dataChannels == map[]
  {
    InvPreserved(s, peer, socket, m, state);
  }
}
