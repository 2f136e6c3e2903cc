/**
  The browser side of a test (the `useRTC` hook in src/hooks/useRTC.tsx):
  the refs to the peer connection and the data channel, the local ICE
  candidate buffer, the received-packet buffer, and the handlers that update
  them.

  A peer connection and a data channel are objects the hook only creates,
  closes and hands candidates to; here each is a number, fresh per test.
  `Date.now()` at reception is the parameter `now`. What the hook sends on
  its WebSocket is appended to `wsSent`; the WebSocket itself is created on
  mount and never cleared, so it is always present here.
 */
module BrowserPeer {
  import opened Wrappers
  import opened Bytes
  import opened Decimal
  import FramePacker
  import DataSender

  type Candidate = string

  /** `RTCPeerConnectionState`. */
  datatype PeerState = New | Connecting | Connected | Disconnected | Failed | Closed

  /** `TestProgressState`. */
  datatype TestState = TestNew | Opened | InProgress | TestClosed

  datatype TestMode = DataChannelMode | VideoStreamMode

  /** One `DataChannelBufferMessage`. */
  datatype PacketRecord = PacketRecord(sendAt: int, receivedAt: int, sequenceNumber: nat)

  /** The `data` of a data-channel message event. */
  datatype ChannelData = BinaryData(bytes: seq<byte>) | TextData(text: string)

  /** A signalling message after `JSON.parse`, by its `type`, or text that `JSON.parse` rejects. */
  datatype Signal =
    | DataChannelSignal(data: string)
    | ErrorSignal
    | PeerIdSignal(peerId: string)
    | AnswerSignal
    | IceCandidateSignal(candidates: seq<Candidate>, rejectsAt: Option<nat>)  // index of the first rejected addIceCandidate
    | OtherSignal(kind: string)
    | UnparseableSignal  // text that `JSON.parse` rejects

  /**
    What the hook sends on the WebSocket. The wrappers `DataChannelMessage.init`
    and `DataChannelMessage.ready` are not part of this model; their argument is kept.
   */
  datatype WsMessage = OfferMessage(conn: nat) | IceBatch(candidates: seq<Candidate>) | InitMessage(configuration: string) | ReadyMessage

  datatype DecodeError = RangeError

  datatype PeerModel = PeerModel(
    pc: Option<nat>,            // pcRef.current
    dc: Option<nat>,            // dcRef.current
    nextObject: nat,
    closedObjects: set<nat>,    // connections and channels whose close() was called
    peerState: PeerState,
    testState: TestState,
    stopDumpingStats: bool,
    peerId: Option<string>,
    localIce: seq<Candidate>,   // icRef.current
    applied: seq<Candidate>,    // candidates passed to addIceCandidate
    packets: seq<PacketRecord>,
    wsSent: seq<WsMessage>)

  function Initial(): PeerModel
  {
    PeerModel(None, None, 0, {}, New, TestNew, false, None, [], [], [], [])
  }

  // ---------------------------------------------------------------------------
  // Pure parts: the frame decode and the configuration
  // ---------------------------------------------------------------------------

  /**
    `getUint16(0, false)` and `getBigInt64(2, false)` of a binary message: the
    sequence number and the send time. A view shorter than 10 bytes makes the
    second read throw a RangeError.
   */
  function DecodeFrame(bytes: seq<byte>): (r: Result<(nat, int), DecodeError>)
    ensures r.Err? <==> |bytes| < FramePacker.MIN_BUFFER_SIZE
    ensures r.Ok? ==> r.value.0 < TWO_TO_16
  {
    if |bytes| < FramePacker.MIN_BUFFER_SIZE then Err(RangeError)
    else Ok(((bytes[0] as nat) * 256 + bytes[1] as nat, ReadBeInt64(bytes[2..10])))
  }

  /** Decoding a frame the server packed yields the packed sequence number and the packed time, read back as an int64. */
  lemma DecodeOfPackedFrame(sequenceNumber: int, totalBufferSize: int, now: int, noise: nat -> byte)
    requires 0 <= sequenceNumber <= 1000 && totalBufferSize >= 10
    ensures var packed := FramePacker.Pack(sequenceNumber, totalBufferSize, now, noise);
      && packed.Ok?
      && DecodeFrame(packed.value) == Ok((sequenceNumber, WrapInt64(now)))
  {
    FramePacker.PackLayout(sequenceNumber, totalBufferSize, now, noise);
  }

  /** `getConfiguration`: frequency, packet size and duration as decimal strings, in that order. */
  function Configuration(frequency: nat, packetSize: nat, duration: nat): (parts: seq<string>)
    ensures |parts| == 3 && forall i :: 0 <= i < 3 ==> IsDigits(parts[i])
  {
    [NatString(frequency), NatString(packetSize), NatString(duration)]
  }

  /** The text `onopen` hands to `DataChannelMessage.init`: the configuration joined by single spaces. */
  function ConfigurationText(frequency: nat, packetSize: nat, duration: nat): string
  {
    Join(Configuration(frequency, packetSize, duration), " ")
  }

  /**
    The configuration text, behind the server's `SEND ` prefix, is a valid
    command that the server reads back as intervalMs = frequency,
    packetSize = packetSize and durationMs = duration.

    This is a property of the two texts only. The browser hands the text to
    `DataChannelMessage.init` and sends it on the WebSocket
    (src/hooks/useRTC.tsx:163-166), whose handler on the server routes only
    `offer` and `iceCandidate` (node/index.js:263-381); the server parses
    commands only from the data channel (node/index.js:133). The `SEND `
    prefix and a route from the one to the other are assumed here.
   */
  lemma ConfigurationParsesOnServer(frequency: nat, packetSize: nat, duration: nat)
    ensures var fields := DataSender.SendFields("SEND " + ConfigurationText(frequency, packetSize, duration));
      && fields.Some?
      && DataSender.ParsedConfig(fields.value) == DataSender.SendConfig(frequency, packetSize, duration)
  {
    var a, b, c := NatString(frequency), NatString(packetSize), NatString(duration);
    JoinThree(a, b, c, " ");
    DataSender.SendFieldsOfCommand(a, b, c);
    assert "SEND " + (a + " " + b + " " + c) == "SEND " + a + " " + b + " " + c;
    NatStringRoundTrip(frequency);
    NatStringRoundTrip(packetSize);
    NatStringRoundTrip(duration);
  }

  predicate StartsWith(s: string, prefix: string)
  {
    |prefix| <= |s| && s[..|prefix|] == prefix
  }

  // ---------------------------------------------------------------------------
  // The handlers as functions of the hook's state
  // ---------------------------------------------------------------------------

  /** `tearDown`: close the connection and the channel, reset the peer state, null both refs. */
  function TearDownSpec(s: PeerModel): PeerModel
  {
    var closedPc := if s.pc.Some? then {s.pc.value} else {};
    var closedDc := if s.dc.Some? then {s.dc.value} else {};
    s.(closedObjects := s.closedObjects + closedPc + closedDc, peerState := New, pc := None, dc := None)
  }

  /** `initiateTest`: a fresh connection, a data channel in data-channel mode, the offer, then "inprogress". */
  function InitiateTestSpec(s: PeerModel, mode: TestMode): PeerModel
  {
    var c := s.nextObject;
    var withChannel := if mode == DataChannelMode then s.(dc := Some(c + 1)) else s;
    withChannel.(pc := Some(c), nextObject := c + 2, wsSent := s.wsSent + [OfferMessage(c)], testState := InProgress)
  }

  /** `dcRef.onmessage`: a binary message appends one record; anything else is ignored. */
  function DataMessageSpec(s: PeerModel, data: ChannelData, now: int): Result<PeerModel, DecodeError>
  {
    match data
    case TextData(_) => Ok(s)
    case BinaryData(bytes) =>
      match DecodeFrame(bytes)
      case Err(e) => Err(e)
      case Ok(decoded) => Ok(s.(packets := s.packets + [PacketRecord(decoded.1, now, decoded.0)]))
  }

  /** `pcRef.onicecandidate`: buffer a candidate; at the end of gathering send the whole buffer. */
  function LocalIceSpec(s: PeerModel, candidate: Option<Candidate>): PeerModel
  {
    match candidate
    case Some(x) => s.(localIce := s.localIce + [x])
    case None => s.(wsSent := s.wsSent + [IceBatch(s.localIce)])
  }

  /**
    The `iceCandidate` case: a non-empty list is handed to the connection in
    order, if there is one, until a call rejects and the `catch` ends the loop.
   */
  function RemoteIceSpec(s: PeerModel, candidates: seq<Candidate>, rejectsAt: Option<nat>): PeerModel
  {
    if |candidates| > 0 && s.pc.Some? then s.(applied := s.applied + Reached(candidates, rejectsAt)) else s
  }

  /** `handleDataChannelHandshake`. */
  function HandshakeSpec(s: PeerModel, data: string): PeerModel
  {
    if data == "SEND READY" then s.(wsSent := s.wsSent + [ReadyMessage])
    else if StartsWith(data, "SEND DONE") then
      var closedDc := if s.dc.Some? then {s.dc.value} else {};
      s.(stopDumpingStats := true, testState := TestClosed, closedObjects := s.closedObjects + closedDc)
    else s
  }

  /** `wsRef.onmessage`. */
  function SignalSpec(s: PeerModel, m: Signal): PeerModel
  {
    match m
    case DataChannelSignal(data) => HandshakeSpec(s, data)
    case ErrorSignal => TearDownSpec(s)
    case PeerIdSignal(id) => s.(peerId := Some(id))
    case AnswerSignal => s
    case IceCandidateSignal(candidates, rejectsAt) => RemoteIceSpec(s, candidates, rejectsAt)
    case OtherSignal(_) => s
    case UnparseableSignal => s  // the async handler's promise rejects before the switch; nothing changes
  }

  // ---------------------------------------------------------------------------
  // The hook as the browser holds it: refs and state updated in place
  // ---------------------------------------------------------------------------

  class Peer {
    var pc: Option<nat>
    var dc: Option<nat>
    var nextObject: nat
    var closedObjects: set<nat>
    var peerState: PeerState
    var testState: TestState
    var stopDumpingStats: bool
    var peerId: Option<string>
    var localIce: seq<Candidate>
    var applied: seq<Candidate>
    var packets: seq<PacketRecord>
    var wsSent: seq<WsMessage>

    function State(): PeerModel
      reads this
    {
      PeerModel(pc, dc, nextObject, closedObjects, peerState, testState, stopDumpingStats, peerId,
                localIce, applied, packets, wsSent)
    }

    constructor ()
      ensures State() == Initial()
    {
      pc, dc, nextObject, closedObjects := None, None, 0, {};
      peerState, testState, stopDumpingStats, peerId := New, TestNew, false, None;
      localIce, applied, packets, wsSent := [], [], [], [];
    }

    /** `tearDown`; it runs on a WebSocket error or close, a server error and a test-mode change. */
    method TearDown()
      modifies this`closedObjects, this`peerState, this`pc, this`dc
      ensures State() == TearDownSpec(old(State()))
    {
      if pc.Some? {
        closedObjects := closedObjects + {pc.value};
      }
      if dc.Some? {
        closedObjects := closedObjects + {dc.value};
      }
      peerState := New;
      pc := None;
      dc := None;
    }

    method InitiateTest(mode: TestMode)
      modifies this`pc, this`dc, this`nextObject, this`wsSent, this`testState
      ensures State() == InitiateTestSpec(old(State()), mode)
    {
      var c := nextObject;
      pc := Some(c);
      if mode == DataChannelMode {
        dc := Some(c + 1);
      }
      nextObject := c + 2;
      wsSent := wsSent + [OfferMessage(c)];
      testState := InProgress;
    }

    /** `dcRef.onmessage`; a short binary message throws before `setPackets`. */
    method OnDataMessage(data: ChannelData, now: int) returns (r: Result<(), DecodeError>)
      modifies this`packets
      ensures match DataMessageSpec(old(State()), data, now)
              case Ok(next) => r.Ok? && State() == next
              case Err(e) => r == Err(e) && State() == old(State())
    {
      if data.BinaryData? {
        var decoded := DecodeFrame(data.bytes);
        if decoded.Err? {
          return Err(decoded.error);
        }
        var sn, ts := decoded.value.0, decoded.value.1;
        packets := packets + [PacketRecord(ts, now, sn)];
      }
      return Ok(());
    }

    method OnLocalIceCandidate(candidate: Option<Candidate>)
      modifies this`localIce, this`wsSent
      ensures State() == LocalIceSpec(old(State()), candidate)
    {
      if candidate.Some? {
        localIce := localIce + [candidate.value];
      } else {
        wsSent := wsSent + [IceBatch(localIce)];
      }
    }

    method OnRemoteIceCandidates(candidates: seq<Candidate>, rejectsAt: Option<nat>)
      modifies this`applied
      ensures State() == RemoteIceSpec(old(State()), candidates, rejectsAt)
    {
      if |candidates| > 0 {
        for i := 0 to |candidates|
          invariant applied == old(applied) + (if pc.Some? then candidates[..i] else [])
          invariant pc.Some? ==> rejectsAt.None? || rejectsAt.value >= i
        {
          if pc.Some? {
            applied := applied + [candidates[i]];
            assert candidates[..i + 1] == candidates[..i] + [candidates[i]];
            if rejectsAt == Some(i) {
              return;
            }
          }
        }
        assert candidates[..|candidates|] == candidates;
      }
    }

    method OnSignal(m: Signal)
      modifies this
      ensures State() == SignalSpec(old(State()), m)
    {
      match m
      case DataChannelSignal(data) =>
        if data == "SEND READY" {
          wsSent := wsSent + [ReadyMessage];
        } else if StartsWith(data, "SEND DONE") {
          stopDumpingStats := true;
          testState := TestClosed;
          if dc.Some? {
            closedObjects := closedObjects + {dc.value};
          }
        }
      case ErrorSignal => TearDown();
      case PeerIdSignal(id) => peerId := Some(id);
      case AnswerSignal =>
      case IceCandidateSignal(candidates, rejectsAt) => OnRemoteIceCandidates(candidates, rejectsAt);
      case OtherSignal(_) =>
      case UnparseableSignal =>
    }

    /** `onconnectionstatechange`: mirror the connection's state while there is one. */
    method OnConnectionStateChange(state: PeerState)
      modifies this`peerState
      ensures State() == if old(pc).Some? then old(State()).(peerState := state) else old(State())
    {
      if pc.Some? {
        peerState := state;
      }
    }
  }

  // ---------------------------------------------------------------------------
  // Properties
  // ---------------------------------------------------------------------------

  /**
    A binary message of at least 10 bytes appends exactly one record, with
    the decoded sequence number and send time, after the earlier ones; text
    leaves the buffer as it was.
   */
  lemma PacketAppend(s: PeerModel, data: ChannelData, now: int)
    ensures data.TextData? ==> DataMessageSpec(s, data, now) == Ok(s)
    ensures data.BinaryData? && |data.bytes| >= 10 ==>
      var r := DataMessageSpec(s, data, now);
      && r.Ok? && |r.value.packets| == |s.packets| + 1
      && r.value.packets[..|s.packets|] == s.packets
      && r.value.packets[|s.packets|].sequenceNumber == (data.bytes[0] as nat) * 256 + data.bytes[1] as nat
      && r.value.packets[|s.packets|].sendAt == ReadBeInt64(data.bytes[2..10])
      && r.value.packets[|s.packets|].receivedAt == now
      && r.value.(packets := s.packets) == s
    ensures data.BinaryData? && |data.bytes| < 10 ==> DataMessageSpec(s, data, now) == Err(RangeError)
  {
    if data.BinaryData? && |data.bytes| >= 10 {
      var r := DataMessageSpec(s, data, now);
      assert r.value.packets[..|s.packets|] == s.packets;
    }
  }

  /** A frame packed by the server arrives as one record carrying its sequence number and send time. */
  lemma ServerFrameArrives(s: PeerModel, sequenceNumber: nat, totalBufferSize: nat, sentAt: int, noise: nat -> byte, now: int)
    requires sequenceNumber <= 1000 && totalBufferSize >= 10
    ensures var frame := FramePacker.Pack(sequenceNumber, totalBufferSize, sentAt, noise).value;
      DataMessageSpec(s, BinaryData(frame), now)
      == Ok(s.(packets := s.packets + [PacketRecord(WrapInt64(sentAt), now, sequenceNumber)]))
  {
    DecodeOfPackedFrame(sequenceNumber, totalBufferSize, sentAt, noise);
  }

  /** Candidates buffered one at a time, in arrival order. */
  function Gather(s: PeerModel, candidates: seq<Candidate>): PeerModel
    decreases |candidates|
  {
    if candidates == [] then s
    else LocalIceSpec(Gather(s, candidates[..|candidates| - 1]), Some(candidates[|candidates| - 1]))
  }

  lemma {:induction false} GatherBuffers(s: PeerModel, candidates: seq<Candidate>)
    ensures Gather(s, candidates) == s.(localIce := s.localIce + candidates)
    decreases |candidates|
  {
    if candidates == [] {
      assert s.localIce + candidates == s.localIce;
    } else {
      var init := candidates[..|candidates| - 1];
      GatherBuffers(s, init);
      assert s.localIce + init + [candidates[|candidates| - 1]] == s.localIce + candidates;
    }
  }

  /**
    The end of gathering sends one `iceCandidate` message holding everything
    buffered so far, in arrival order. The buffer is never emptied, so a
    second test's batch also carries the first test's candidates.
   */
  lemma GatheringSendsOneBatch(s: PeerModel, candidates: seq<Candidate>)
    ensures var r := LocalIceSpec(Gather(s, candidates), None);
      && r.wsSent == s.wsSent + [IceBatch(s.localIce + candidates)]
      && r.localIce == s.localIce + candidates
  {
    GatherBuffers(s, candidates);
  }

  /**
    Remote candidates are handed over exactly when the list is non-empty and
    a connection exists, in list order: all of them, or, when the call for
    index i rejects, candidates 0 .. i and none after.
   */
  lemma RemoteIceGated(s: PeerModel, candidates: seq<Candidate>, rejectsAt: Option<nat>)
    ensures var r := RemoteIceSpec(s, candidates, rejectsAt);
      && (|candidates| > 0 && s.pc.Some? && (rejectsAt.None? || rejectsAt.value >= |candidates|) ==>
            r.applied == s.applied + candidates)
      && (|candidates| > 0 && s.pc.Some? && rejectsAt.Some? && rejectsAt.value < |candidates| ==>
            r.applied == s.applied + candidates[..rejectsAt.value + 1])
      && (|candidates| == 0 || s.pc.None? ==> r == s)
      && r.(applied := s.applied) == s
  {
  }

  /**
    The handshake: `SEND READY` sends the ready reply and nothing else;
    a `SEND DONE ...` message stops the statistics, closes the test and the
    channel; any other text, and any signal of another type, is ignored by it.
   */
  lemma HandshakeCases(s: PeerModel, data: string)
    ensures data == "SEND READY" ==> HandshakeSpec(s, data) == s.(wsSent := s.wsSent + [ReadyMessage])
    ensures StartsWith(data, "SEND DONE") ==>
      var r := HandshakeSpec(s, data);
      && r.stopDumpingStats && r.testState == TestClosed
      && (s.dc.Some? ==> s.dc.value in r.closedObjects)
      && r.wsSent == s.wsSent && r.packets == s.packets
    ensures data != "SEND READY" && !StartsWith(data, "SEND DONE") ==> HandshakeSpec(s, data) == s
  {
    if StartsWith(data, "SEND DONE") {
      assert data != "SEND READY" by {
        assert data[5] == 'D';
        assert "SEND READY"[5] == 'R';
      }
    }
  }

  /** `tearDown` leaves no connection and no channel, resets the peer state, and a second call closes nothing new. */
  lemma TearDownResets(s: PeerModel)
    ensures var r := TearDownSpec(s);
      && r.pc.None? && r.dc.None? && r.peerState == New
      && (s.pc.Some? ==> s.pc.value in r.closedObjects)
      && (s.dc.Some? ==> s.dc.value in r.closedObjects)
      && r.packets == s.packets && r.testState == s.testState && r.localIce == s.localIce
    ensures TearDownSpec(TearDownSpec(s)) == TearDownSpec(s)
  {
    var r := TearDownSpec(s);
    assert r.closedObjects + {} + {} == r.closedObjects;
  }

  /** A WebSocket error or close and a server error each tear down the same way. */
  lemma ErrorSignalTearsDown(s: PeerModel)
    ensures SignalSpec(s, ErrorSignal) == TearDownSpec(s)
    ensures SignalSpec(s, ErrorSignal).pc.None? && SignalSpec(s, ErrorSignal).dc.None?
  {
  }

  /**
    Text that is not JSON makes `JSON.parse` throw inside the async
    `onmessage`; the rejected promise is not caught, and the hook's state
    stays as it was, as for an answer or a message of an unknown type.
   */
  lemma IgnoredSignals(s: PeerModel, kind: string)
    ensures SignalSpec(s, UnparseableSignal) == s
    ensures SignalSpec(s, AnswerSignal) == s
    ensures SignalSpec(s, OtherSignal(kind)) == s
  {
  }
}
