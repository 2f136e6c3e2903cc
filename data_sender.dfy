/**
  The server's per-data-channel test runner (`setupDataSender` in
  node/index.js). The channel takes two commands:

  - `SEND <a> <b> <c>` stores the configuration `{intervalMs: a, packetSize:
    b, durationMs: c}` when all three are positive, and replies `send ready`;
  - `send start` starts a repeating timer whose closure counts the frames it
    has sent. Each tick of that timer either sends a batch of `intervalMs`
    frames numbered consecutively from the count, or, once the count reaches
    `durationMs * intervalMs`, sends `SEND DONE <messagesSent> <bytesSent>`
    per data-channel statistics entry and stops.

  Timers are explicit: `timers` maps each live repeating timer to the frame
  count held in its closure, `intervalId` is the one `sendIntervalId` names.
  A tick is a call of `Tick` for a live timer; whether the channel is open,
  the statistics report, the clock and the random filler are its parameters,
  and so is `throwsAt`, which of the handler's `dataChannel.send` calls
  throws, if any.
  The `sendTimeoutId` timer is never started by the source, so it has no
  counterpart here.
 */
module DataSender {
  import opened Wrappers
  import opened Bytes
  import opened Decimal
  import FramePacker

  /** `currentConfig`: frames per tick, bytes per frame, and the number of sending ticks. */
  datatype SendConfig = SendConfig(intervalMs: nat, packetSize: nat, durationMs: nat)

  /** What the server hands to `dataChannel.send`. */
  datatype Outgoing = Binary(bytes: seq<byte>) | Text(text: string)

  /** One entry of a `getStats()` report. */
  datatype StatsEntry = StatsEntry(kind: string, messagesSent: nat, bytesSent: nat)

  /** A `setInterval` handle. */
  type TimerId = nat

  /** The closure state of one data channel's sender, plus everything sent on the channel. */
  datatype SenderState = SenderState(
    config: Option<SendConfig>,
    intervalId: Option<TimerId>,
    timers: map<TimerId, nat>,
    nextTimer: TimerId,
    sent: seq<Outgoing>)

  /** The state `setupDataSender` starts from. */
  function Initial(): SenderState
  {
    SenderState(None, None, map[], 0, [])
  }

  /** Every live timer was handed out, and `sendIntervalId` names a live timer. */
  predicate Inv(s: SenderState)
  {
    && (forall t :: t in s.timers ==> t < s.nextTimer)
    && (s.intervalId.Some? ==> s.intervalId.value in s.timers)
  }

  // ---------------------------------------------------------------------------
  // The `SEND <digits> <digits> <digits>` command
  // ---------------------------------------------------------------------------

  /**
    The three digit groups of `/^SEND (\d+) (\d+) (\d+)$/`, or None when the
    message does not match.
   */
  function SendFields(message: string): (fields: Option<seq<string>>)
    ensures fields.Some? ==> |fields.value| == 3
    ensures fields.Some? ==> forall i :: 0 <= i < 3 ==> IsDigits(fields.value[i])
    ensures fields.Some? ==> message == "SEND " + Join(fields.value, " ")
  {
    if |message| >= 5 && message[..5] == "SEND " then
      var parts := Split(message[5..], ' ');
      if |parts| == 3 && IsDigits(parts[0]) && IsDigits(parts[1]) && IsDigits(parts[2]) then
        JoinSplit(message[5..], ' ');
        assert message == message[..5] + message[5..];
        Some(parts)
      else None
    else None
  }

  /** The regular expression matches every message of the exact command shape. */
  lemma SendFieldsOfCommand(a: string, b: string, c: string)
    requires IsDigits(a) && IsDigits(b) && IsDigits(c)
    ensures SendFields("SEND " + a + " " + b + " " + c) == Some([a, b, c])
  {
    var parts := [a, b, c];
    assert ' ' !in a && ' ' !in b && ' ' !in c by {
      NoSpaceInDigits(a);
      NoSpaceInDigits(b);
      NoSpaceInDigits(c);
    }
    SplitJoin(parts, ' ');
    JoinThree(a, b, c, " ");
    var m := "SEND " + a + " " + b + " " + c;
    assert m[5..] == Join(parts, " ");
    assert m[..5] == "SEND ";
  }

  lemma NoSpaceInDigits(s: string)
    requires IsDigits(s)
    ensures ' ' !in s
  {
  }

  /** `parseInt` of each group, in the order intervalMs, packetSize, durationMs. */
  function ParsedConfig(fields: seq<string>): SendConfig
    requires |fields| == 3 && IsDigits(fields[0]) && IsDigits(fields[1]) && IsDigits(fields[2])
  {
    SendConfig(DigitsValue(fields[0]), DigitsValue(fields[1]), DigitsValue(fields[2]))
  }

  /** The source's validation: all three values positive. */
  predicate ValidConfig(c: SendConfig)
  {
    c.intervalMs > 0 && c.packetSize > 0 && c.durationMs > 0
  }

  // ---------------------------------------------------------------------------
  // Sends that throw
  // ---------------------------------------------------------------------------

  /**
    The first `n` sends of a handler succeed. `throwsAt` is the position, among
    the sends one handler makes, of the first `dataChannel.send` that throws,
    or None when every send succeeds.
   */
  predicate SendsSucceed(n: nat, throwsAt: Option<nat>)
  {
    throwsAt.None? || throwsAt.value >= n
  }

  /** The messages of a handler that reach the channel: those before the send that throws. */
  function Accepted(messages: seq<Outgoing>, throwsAt: Option<nat>): (r: seq<Outgoing>)
    ensures r <= messages
    ensures SendsSucceed(|messages|, throwsAt) ==> r == messages
    ensures !SendsSucceed(|messages|, throwsAt) ==> |r| == throwsAt.value
  {
    if SendsSucceed(|messages|, throwsAt) then messages else messages[..throwsAt.value]
  }

  // ---------------------------------------------------------------------------
  // The specification of each handler
  // ---------------------------------------------------------------------------

  /**
    `dataChannel.onmessage`. A `send ready` reply that throws is caught and
    logged: the configuration is kept and nothing is sent.
   */
  function OnMessageSpec(s: SenderState, message: string, throwsAt: Option<nat>): SenderState
  {
    match SendFields(message)
    case Some(fields) =>
      var c := ParsedConfig(fields);
      if ValidConfig(c) then s.(config := Some(c), sent := s.sent + Accepted([Text("send ready")], throwsAt)) else s
    case None =>
      if message == "send start" && s.config.Some? then
        s.(intervalId := Some(s.nextTimer), timers := s.timers[s.nextTimer := 0], nextTimer := s.nextTimer + 1)
      else s
  }

  /** `stopSending`: clear the timer `sendIntervalId` names, forget it and the configuration. */
  function Stop(s: SenderState): SenderState
  {
    var timers := if s.intervalId.Some? then s.timers - {s.intervalId.value} else s.timers;
    s.(intervalId := None, timers := timers, config := None)
  }

  /** The frames of one batch, up to the first frame the packer refuses or the channel does not take. */
  datatype Batch = Batch(frames: seq<seq<byte>>, failed: bool)

  /**
    Packing and sending `k` frames numbered from `count`: the inner `for` loop
    of a tick. The `i`-th frame is the tick's `i`-th send. A packer error, or
    a send that throws, ends the batch; the frames before it were already
    sent. `clock(n)` and `noise(n)` are `Date.now()` and the filler while
    frame n is packed.
   */
  function PackBatch(count: nat, k: nat, packetSize: nat, clock: nat -> int, noise: nat -> nat -> byte,
                     throwsAt: Option<nat>): (b: Batch)
    ensures |b.frames| <= k
    ensures !b.failed ==> |b.frames| == k
    decreases k
  {
    if k == 0 then Batch([], false)
    else
      var before := PackBatch(count, k - 1, packetSize, clock, noise, throwsAt);
      var n := count + k - 1;
      if before.failed then before
      else
        match FramePacker.Pack(n, packetSize, clock(n), noise(n))
        case Err(_) => Batch(before.frames, true)
        case Ok(frame) => if throwsAt == Some(k - 1) then Batch(before.frames, true) else Batch(before.frames + [frame], false)
  }

  /** One more frame: the batch grows by the packer's frame `r`, or fails on its error or on a throwing send. */
  lemma PackBatchStep(count: nat, i: nat, packetSize: nat, clock: nat -> int, noise: nat -> nat -> byte,
                      throwsAt: Option<nat>, r: Result<seq<byte>, FramePacker.PackError>)
    requires !PackBatch(count, i, packetSize, clock, noise, throwsAt).failed
    requires r == FramePacker.Pack(count + i, packetSize, clock(count + i), noise(count + i))
    ensures var before := PackBatch(count, i, packetSize, clock, noise, throwsAt).frames;
      PackBatch(count, i + 1, packetSize, clock, noise, throwsAt)
      == if r.Err? || throwsAt == Some(i) then Batch(before, true) else Batch(before + [r.value], false)
  {
  }

  /**
    One pass of the inner loop from a batch of `done` frames: on the packer's
    error, or when the send throws, the whole batch of `k` is `done`, failed;
    otherwise the frame joins the batch and is sent after the others.
   */
  lemma SendBatchStep(count: nat, i: nat, k: nat, packetSize: nat, clock: nat -> int, noise: nat -> nat -> byte,
                      throwsAt: Option<nat>, done: seq<seq<byte>>, r: Result<seq<byte>, FramePacker.PackError>)
    requires i < k && PackBatch(count, i, packetSize, clock, noise, throwsAt) == Batch(done, false)
    requires r == FramePacker.Pack(count + i, packetSize, clock(count + i), noise(count + i))
    ensures r.Err? || throwsAt == Some(i) ==> PackBatch(count, k, packetSize, clock, noise, throwsAt) == Batch(done, true)
    ensures r.Ok? && throwsAt != Some(i) ==> PackBatch(count, i + 1, packetSize, clock, noise, throwsAt) == Batch(done + [r.value], false)
    ensures r.Ok? ==> Binaries(done + [r.value]) == Binaries(done) + [Binary(r.value)]
  {
    PackBatchStep(count, i, packetSize, clock, noise, throwsAt, r);
    if r.Err? || throwsAt == Some(i) {
      BatchFailureIsFinal(count, i + 1, k, packetSize, clock, noise, throwsAt);
    }
    if r.Ok? {
      BinariesAppend(done, [r.value]);
    }
  }

  /** Once a batch has failed, packing further frames changes nothing. */
  lemma {:induction false} BatchFailureIsFinal(count: nat, i: nat, k: nat, packetSize: nat,
                                              clock: nat -> int, noise: nat -> nat -> byte, throwsAt: Option<nat>)
    requires i <= k && PackBatch(count, i, packetSize, clock, noise, throwsAt).failed
    ensures PackBatch(count, k, packetSize, clock, noise, throwsAt) == PackBatch(count, i, packetSize, clock, noise, throwsAt)
    decreases k
  {
    if k > i {
      BatchFailureIsFinal(count, i, k - 1, packetSize, clock, noise, throwsAt);
    }
  }

  function Binaries(frames: seq<seq<byte>>): (out: seq<Outgoing>)
    ensures |out| == |frames|
    decreases |frames|
  {
    if frames == [] then [] else Binaries(frames[..|frames| - 1]) + [Binary(frames[|frames| - 1])]
  }

  /** `SEND DONE ${r.messagesSent} ${r.bytesSent}`. */
  function DoneText(e: StatsEntry): string
  {
    "SEND DONE " + NatString(e.messagesSent) + " " + NatString(e.bytesSent)
  }

  /** One `SEND DONE` text per `data-channel` entry, in report order. */
  function DoneMessages(stats: seq<StatsEntry>): seq<Outgoing>
  {
    if stats == [] then []
    else
      var last := stats[|stats| - 1];
      DoneMessages(stats[..|stats| - 1]) + (if last.kind == "data-channel" then [Text(DoneText(last))] else [])
  }

  /** The texts of the first `j` entries are the first of all the texts. */
  lemma {:induction false} DoneMessagesPrefix(stats: seq<StatsEntry>, j: nat)
    requires j <= |stats|
    ensures DoneMessages(stats[..j]) <= DoneMessages(stats)
    decreases |stats|
  {
    if j == |stats| {
      assert stats[..j] == stats;
    } else {
      var init := stats[..|stats| - 1];
      DoneMessagesPrefix(init, j);
      assert init[..j] == stats[..j];
    }
  }

  /** One more entry: its `SEND DONE` text, if it is a data-channel report, follows the earlier ones. */
  lemma DoneStep(stats: seq<StatsEntry>, j: nat)
    requires j < |stats|
    ensures DoneMessages(stats[..j + 1])
            == DoneMessages(stats[..j]) + (if stats[j].kind == "data-channel" then [Text(DoneText(stats[j]))] else [])
  {
    assert stats[..j + 1][..j] == stats[..j];
  }

  /** A send that throws at the text of data-channel entry j leaves exactly the texts before it. */
  lemma DoneThrows(stats: seq<StatsEntry>, j: nat, position: nat)
    requires j < |stats| && stats[j].kind == "data-channel" && position == |DoneMessages(stats[..j])|
    ensures Accepted(DoneMessages(stats), Some(position)) == DoneMessages(stats[..j])
  {
    DoneStep(stats, j);
    DoneMessagesPrefix(stats, j + 1);
    assert DoneMessages(stats)[..position] == DoneMessages(stats[..j]);
  }

  /** A tick that packs frames for timer `id`, whose count is still below the run's total. */
  function SendingSpec(s: SenderState, id: TimerId, c: SendConfig, clock: nat -> int, noise: nat -> nat -> byte,
                       throwsAt: Option<nat>): SenderState
    requires id in s.timers
  {
    var count := s.timers[id];
    var b := PackBatch(count, c.intervalMs, c.packetSize, clock, noise, throwsAt);
    var next := s.(timers := s.timers[id := count + |b.frames|], sent := s.sent + Binaries(b.frames));
    if b.failed then Stop(next) else next
  }

  /**
    One tick of the live timer `id`. A send that throws, in either branch,
    lands in the callback's `catch`, which stops sending.
   */
  function TickSpec(s: SenderState, id: TimerId, channelOpen: bool, stats: seq<StatsEntry>,
                    clock: nat -> int, noise: nat -> nat -> byte, throwsAt: Option<nat>): SenderState
    requires id in s.timers
  {
    if !channelOpen then Stop(s)
    // `currentConfig.durationMs` on a null config throws; the catch stops sending
    else if s.config.None? then Stop(s)
    else
      var c := s.config.value;
      if s.timers[id] >= c.durationMs * c.intervalMs then Stop(s.(sent := s.sent + Accepted(DoneMessages(stats), throwsAt)))
      else SendingSpec(s, id, c, clock, noise, throwsAt)
  }

  // ---------------------------------------------------------------------------
  // The sender as the source holds it: closure variables updated in place
  // ---------------------------------------------------------------------------

  class Sender {
    var config: Option<SendConfig>
    var intervalId: Option<TimerId>
    var timers: map<TimerId, nat>
    var nextTimer: TimerId
    var sent: seq<Outgoing>

    function State(): SenderState
      reads this
    {
      SenderState(config, intervalId, timers, nextTimer, sent)
    }

    constructor ()
      ensures State() == Initial()
    {
      config := None;
      intervalId := None;
      timers := map[];
      nextTimer := 0;
      sent := [];
    }

    /** `dataChannel.send`, the handler's send at `position`: it throws when that is the position `throwsAt` names. */
    method Send(message: Outgoing, position: nat, throwsAt: Option<nat>) returns (threw: bool)
      modifies this`sent
      ensures threw <==> throwsAt == Some(position)
      ensures sent == if threw then old(sent) else old(sent) + [message]
    {
      threw := throwsAt == Some(position);
      if !threw {
        sent := sent + [message];
      }
    }

    method StopSending()
      modifies this`config, this`intervalId, this`timers
      ensures State() == Stop(old(State()))
    {
      if intervalId.Some? {
        timers := timers - {intervalId.value};
        intervalId := None;
      }
      config := None;
    }

    method OnMessage(message: string, throwsAt: Option<nat>)
      modifies this
      ensures State() == OnMessageSpec(old(State()), message, throwsAt)
    {
      var fields := SendFields(message);
      if fields.Some? {
        var c := ParsedConfig(fields.value);
        if !ValidConfig(c) {
          return;
        }
        config := Some(c);
        // a throwing reply is caught and logged
        var replyThrew := Send(Text("send ready"), 0, throwsAt);
      } else if message == "send start" {
        if config.None? {
          return;
        }
        var id := nextTimer;
        nextTimer := nextTimer + 1;
        timers := timers[id := 0];
        intervalId := Some(id);
      }
    }

    /** `dataChannel.onclose` and `dataChannel.onerror`. */
    method OnCloseOrError()
      modifies this`config, this`intervalId, this`timers
      ensures State() == Stop(old(State()))
    {
      StopSending();
    }

    /** The `report.forEach` of a finishing tick, which a throwing send leaves early. */
    method SendDone(stats: seq<StatsEntry>, throwsAt: Option<nat>)
      modifies this`sent
      ensures sent == old(sent) + Accepted(DoneMessages(stats), throwsAt)
    {
      var position := 0;
      for j := 0 to |stats|
        invariant position == |DoneMessages(stats[..j])| && SendsSucceed(position, throwsAt)
        invariant sent == old(sent) + DoneMessages(stats[..j])
      {
        DoneStep(stats, j);
        if stats[j].kind == "data-channel" {
          var threw := Send(Text(DoneText(stats[j])), position, throwsAt);
          if threw {
            DoneThrows(stats, j, position);
            return;
          }
          Associative(old(sent), DoneMessages(stats[..j]), [Text(DoneText(stats[j]))]);
          position := position + 1;
        }
      }
      assert stats[..|stats|] == stats;
    }

    /**
      One pass of the inner loop: pack frame `n`, the `i`-th of the batch, and
      send it; false, with nothing sent, when the packer or the send throws.
     */
    method SendFrame(n: nat, count: nat, i: nat, k: nat, packetSize: nat, clock: nat -> int, noise: nat -> nat -> byte,
                     throwsAt: Option<nat>, ghost done: seq<seq<byte>>) returns (ok: bool, ghost frame: seq<byte>)
      requires n == count + i && i < k && PackBatch(count, i, packetSize, clock, noise, throwsAt) == Batch(done, false)
      modifies this`sent
      ensures !ok ==> PackBatch(count, k, packetSize, clock, noise, throwsAt) == Batch(done, true) && sent == old(sent)
      ensures ok ==> PackBatch(count, i + 1, packetSize, clock, noise, throwsAt) == Batch(done + [frame], false)
      ensures ok ==> sent == old(sent) + [Binary(frame)]
      ensures ok ==> Binaries(done + [frame]) == Binaries(done) + [Binary(frame)]
    {
      var r := FramePacker.PackDataWithSequenceNumber(n, packetSize, clock(n), noise(n));
      SendBatchStep(count, i, k, packetSize, clock, noise, throwsAt, done, r);
      if r.Err? {
        return false, [];
      }
      var threw := Send(Binary(r.value), i, throwsAt);
      if threw {
        return false, [];
      }
      return true, r.value;
    }

    /** The inner `for` loop of a sending tick: frames from `count` until `k` are sent or the packer or a send throws. */
    method SendBatch(count: nat, k: nat, packetSize: nat, clock: nat -> int, noise: nat -> nat -> byte, throwsAt: Option<nat>)
      returns (sentCount: nat, failed: bool)
      modifies this`sent
      ensures var b := PackBatch(count, k, packetSize, clock, noise, throwsAt);
        sentCount == |b.frames| && failed == b.failed && sent == old(sent) + Binaries(b.frames)
    {
      ghost var sent0 := sent;
      ghost var done: seq<seq<byte>> := [];
      var packetsSentCount := count;
      var i := 0;
      while i < k
        invariant 0 <= i <= k && packetsSentCount == count + i
        invariant PackBatch(count, i, packetSize, clock, noise, throwsAt) == Batch(done, false)
        invariant sent == sent0 + Binaries(done)
      {
        var ok, frame := SendFrame(packetsSentCount, count, i, k, packetSize, clock, noise, throwsAt, done);
        if !ok {
          return i, true;
        }
        Associative(sent0, Binaries(done), [Binary(frame)]);
        done := done + [frame];
        packetsSentCount := packetsSentCount + 1;
        i := i + 1;
      }
      return k, false;
    }

    /** The finishing branch of a tick: report, then stop, whether or not a report send threw. */
    method FinishRun(stats: seq<StatsEntry>, throwsAt: Option<nat>)
      modifies this`config, this`intervalId, this`timers, this`sent
      ensures State() == Stop(old(State()).(sent := old(sent) + Accepted(DoneMessages(stats), throwsAt)))
    {
      SendDone(stats, throwsAt);
      StopSending();
    }

    /** The sending branch of a tick: send a batch, advance the timer's count, stop if the packer or a send threw. */
    method SendTick(id: TimerId, c: SendConfig, clock: nat -> int, noise: nat -> nat -> byte, throwsAt: Option<nat>)
      requires id in timers
      modifies this`config, this`intervalId, this`timers, this`sent
      ensures State() == SendingSpec(old(State()), id, c, clock, noise, throwsAt)
    {
      ghost var s0 := State();
      var packetsSentCount := timers[id];
      ghost var b := PackBatch(packetsSentCount, c.intervalMs, c.packetSize, clock, noise, throwsAt);
      ghost var next := s0.(timers := s0.timers[id := packetsSentCount + |b.frames|], sent := s0.sent + Binaries(b.frames));
      assert SendingSpec(s0, id, c, clock, noise, throwsAt) == if b.failed then Stop(next) else next;
      var sentCount, failed := SendBatch(packetsSentCount, c.intervalMs, c.packetSize, clock, noise, throwsAt);
      timers := timers[id := packetsSentCount + sentCount];
      assert State() == next;
      if failed {
        StopSending();
      }
    }

    /** One firing of the `setInterval` callback of the live timer `id`. */
    method Tick(id: TimerId, channelOpen: bool, stats: seq<StatsEntry>, clock: nat -> int, noise: nat -> nat -> byte,
                throwsAt: Option<nat>)
      requires id in timers
      modifies this`config, this`intervalId, this`timers, this`sent
      ensures State() == TickSpec(old(State()), id, channelOpen, stats, clock, noise, throwsAt)
    {
      if !channelOpen || config.None? {
        StopSending();
      } else if timers[id] >= config.value.durationMs * config.value.intervalMs {
        FinishRun(stats, throwsAt);
      } else {
        SendTick(id, config.value, clock, noise, throwsAt);
      }
    }
  }

  // ---------------------------------------------------------------------------
  // Properties of single handlers
  // ---------------------------------------------------------------------------

  /** Every handler keeps the timer bookkeeping consistent. */
  lemma InvPreserved(s: SenderState, message: string, id: TimerId, channelOpen: bool,
                     stats: seq<StatsEntry>, clock: nat -> int, noise: nat -> nat -> byte, throwsAt: Option<nat>)
    requires Inv(s)
    ensures Inv(Initial())
    ensures Inv(OnMessageSpec(s, message, throwsAt))
    ensures Inv(Stop(s))
    ensures id in s.timers ==> Inv(TickSpec(s, id, channelOpen, stats, clock, noise, throwsAt))
  {
    MessageKeepsInv(s, message, throwsAt);
    if id in s.timers {
      TickKeepsInv(s, id, channelOpen, stats, clock, noise, throwsAt);
    }
  }

  lemma MessageKeepsInv(s: SenderState, message: string, throwsAt: Option<nat>)
    requires Inv(s)
    ensures Inv(OnMessageSpec(s, message, throwsAt))
  {
    var m := OnMessageSpec(s, message, throwsAt);
    if SendFields(message).None? && message == "send start" && s.config.Some? {
      assert forall t :: t in m.timers ==> t in s.timers || t == s.nextTimer;
    }
  }

  lemma TickKeepsInv(s: SenderState, id: TimerId, channelOpen: bool,
                     stats: seq<StatsEntry>, clock: nat -> int, noise: nat -> nat -> byte, throwsAt: Option<nat>)
    requires Inv(s) && id in s.timers
    ensures Inv(TickSpec(s, id, channelOpen, stats, clock, noise, throwsAt))
  {
    if channelOpen && s.config.Some? {
      var c := s.config.value;
      var count := s.timers[id];
      if count < c.durationMs * c.intervalMs {
        var b := PackBatch(count, c.intervalMs, c.packetSize, clock, noise, throwsAt);
        var next := s.(timers := s.timers[id := count + |b.frames|], sent := s.sent + Binaries(b.frames));
        assert next.timers.Keys == s.timers.Keys;
      }
    }
  }

  /**
    The configuration changes only on a matching `SEND` command whose three
    values are positive, which also replies `send ready` unless that send
    throws; a zero value, a `send start` without a configuration, and any
    other text change nothing.
   */
  lemma ConfigOnlyFromValidSend(s: SenderState, message: string, throwsAt: Option<nat>)
    ensures var fields := SendFields(message);
      OnMessageSpec(s, message, throwsAt).config ==
        if fields.Some? && ValidConfig(ParsedConfig(fields.value)) then Some(ParsedConfig(fields.value)) else s.config
    ensures SendFields(message).Some? && !ValidConfig(ParsedConfig(SendFields(message).value))
            ==> OnMessageSpec(s, message, throwsAt) == s
    ensures SendFields(message).None? && (message != "send start" || s.config.None?)
            ==> OnMessageSpec(s, message, throwsAt) == s
  {
  }

  /**
    A well-formed command with positive values sets exactly those values and
    replies `send ready`; when that reply throws, the values are still set.
   */
  lemma SendCommandSetsConfig(s: SenderState, a: nat, b: nat, c: nat, throwsAt: Option<nat>)
    requires a > 0 && b > 0 && c > 0
    ensures var s' := OnMessageSpec(s, "SEND " + NatString(a) + " " + NatString(b) + " " + NatString(c), throwsAt);
      && s'.config == Some(SendConfig(a, b, c))
      && s'.sent == s.sent + (if throwsAt == Some(0) then [] else [Text("send ready")])
      && s'.timers == s.timers && s'.intervalId == s.intervalId
  {
    SendFieldsOfCommand(NatString(a), NatString(b), NatString(c));
    NatStringRoundTrip(a);
    NatStringRoundTrip(b);
    NatStringRoundTrip(c);
  }

  /** `stopSending` twice is `stopSending` once. */
  lemma StopIdempotent(s: SenderState)
    ensures Stop(Stop(s)) == Stop(s)
    ensures Stop(s).config.None? && Stop(s).intervalId.None?
  {
  }

  /** Frames `start .. start + n - 1` as the packer builds them. */
  function FramesFrom(start: nat, n: nat, packetSize: nat, clock: nat -> int, noise: nat -> nat -> byte): (fs: seq<seq<byte>>)
    requires packetSize >= FramePacker.MIN_BUFFER_SIZE
    ensures |fs| == n
  {
    if n == 0 then []
    else FramesFrom(start, n - 1, packetSize, clock, noise)
         + [FramePacker.Frame(start + n - 1, packetSize, clock(start + n - 1), noise(start + n - 1))]
  }

  /** Frame i of a run is the packer's frame for sequence number start + i. */
  lemma {:induction false} FramesFromAt(start: nat, n: nat, packetSize: nat, clock: nat -> int, noise: nat -> nat -> byte, i: nat)
    requires packetSize >= 10 && i < n
    ensures FramesFrom(start, n, packetSize, clock, noise)[i]
            == FramePacker.Frame(start + i, packetSize, clock(start + i), noise(start + i))
    decreases n
  {
    if i < n - 1 {
      FramesFromAt(start, n - 1, packetSize, clock, noise, i);
    }
  }

  /** Frame i of a run carries sequence number start + i in its first two bytes. */
  lemma FramesFromNumbers(start: nat, n: nat, packetSize: nat, clock: nat -> int, noise: nat -> nat -> byte, i: nat)
    requires packetSize >= 10 && i < n && start + n <= 1001
    ensures var f := FramesFrom(start, n, packetSize, clock, noise)[i];
      |f| == packetSize && (f[0] as int) * 256 + f[1] == start + i
  {
    FramesFromAt(start, n, packetSize, clock, noise, i);
    FramePacker.PackLayout(start + i, packetSize, clock(start + i), noise(start + i));
  }

  lemma {:induction false} FramesFromAppend(start: nat, m: nat, n: nat, packetSize: nat,
                                           clock: nat -> int, noise: nat -> nat -> byte)
    requires packetSize >= 10
    ensures FramesFrom(start, m, packetSize, clock, noise) + FramesFrom(start + m, n, packetSize, clock, noise)
            == FramesFrom(start, m + n, packetSize, clock, noise)
    decreases n
  {
    if n > 0 {
      FramesFromAppend(start, m, n - 1, packetSize, clock, noise);
      var last := FramePacker.Frame(start + m + n - 1, packetSize, clock(start + m + n - 1), noise(start + m + n - 1));
      assert FramesFrom(start + m, n, packetSize, clock, noise) == FramesFrom(start + m, n - 1, packetSize, clock, noise) + [last];
      assert FramesFrom(start, m + n, packetSize, clock, noise) == FramesFrom(start, m + n - 1, packetSize, clock, noise) + [last];
    }
  }

  /** Frame `i` goes out as the `i`-th binary message. */
  lemma {:induction false} BinariesAt(frames: seq<seq<byte>>, i: nat)
    requires i < |frames|
    ensures Binaries(frames)[i] == Binary(frames[i])
    decreases |frames|
  {
    if i < |frames| - 1 {
      BinariesAt(frames[..|frames| - 1], i);
    }
  }

  lemma {:induction false} BinariesAppend(a: seq<seq<byte>>, b: seq<seq<byte>>)
    ensures Binaries(a + b) == Binaries(a) + Binaries(b)
    decreases |b|
  {
    if b == [] {
      assert a + b == a;
    } else {
      var init, x := b[..|b| - 1], b[|b| - 1];
      BinariesAppend(a, init);
      assert (a + b)[..|a + b| - 1] == a + init;
      calc {
        Binaries(a + b);
        Binaries(a + init) + [Binary(x)];
        (Binaries(a) + Binaries(init)) + [Binary(x)];
        Binaries(a) + (Binaries(init) + [Binary(x)]);
        Binaries(a) + Binaries(b);
      }
    }
  }

  /**
    Frames numbered 0..1000 all pack, so a batch inside that range whose
    sends all succeed sends all its frames.
   */
  lemma {:induction false} BatchWithinRange(count: nat, k: nat, packetSize: nat, clock: nat -> int, noise: nat -> nat -> byte,
                                           throwsAt: Option<nat>)
    requires packetSize >= 10 && count + k <= 1001 && SendsSucceed(k, throwsAt)
    ensures PackBatch(count, k, packetSize, clock, noise, throwsAt) == Batch(FramesFrom(count, k, packetSize, clock, noise), false)
    decreases k
  {
    if k > 0 {
      BatchWithinRange(count, k - 1, packetSize, clock, noise, throwsAt);
    }
  }

  /** A batch that would pack frame 1001 stops there: frames up to 1000 go out, then the run fails. */
  lemma {:induction false} BatchCrossingLimit(count: nat, k: nat, packetSize: nat, clock: nat -> int, noise: nat -> nat -> byte,
                                             throwsAt: Option<nat>)
    requires packetSize >= 10 && count <= 1001 < count + k && SendsSucceed(1001 - count, throwsAt)
    ensures PackBatch(count, k, packetSize, clock, noise, throwsAt)
            == Batch(FramesFrom(count, 1001 - count, packetSize, clock, noise), true)
    decreases k
  {
    if count + k - 1 == 1001 {
      BatchWithinRange(count, k - 1, packetSize, clock, noise, throwsAt);
    } else {
      BatchCrossingLimit(count, k - 1, packetSize, clock, noise, throwsAt);
    }
  }

  /**
    A sending tick whose sends succeed: the count grows by exactly
    `intervalMs` and the channel receives the frames count, count + 1, ...
    in order; nothing else changes.
   */
  lemma SendingTick(s: SenderState, id: TimerId, c: SendConfig, stats: seq<StatsEntry>,
                    clock: nat -> int, noise: nat -> nat -> byte, throwsAt: Option<nat>)
    requires id in s.timers && s.config == Some(c) && c.packetSize >= 10 && SendsSucceed(c.intervalMs, throwsAt)
    requires s.timers[id] < c.durationMs * c.intervalMs && s.timers[id] + c.intervalMs <= 1001
    ensures TickSpec(s, id, true, stats, clock, noise, throwsAt)
            == s.(timers := s.timers[id := s.timers[id] + c.intervalMs],
                  sent := s.sent + Binaries(FramesFrom(s.timers[id], c.intervalMs, c.packetSize, clock, noise)))
  {
    var fs := FramesFrom(s.timers[id], c.intervalMs, c.packetSize, clock, noise);
    BatchWithinRange(s.timers[id], c.intervalMs, c.packetSize, clock, noise, throwsAt);
    TickSends(s, id, c, stats, clock, noise, throwsAt);
    SendingState(s, id, c, clock, noise, throwsAt, fs);
  }

  /** On an open channel with a configuration, a tick below the run's total is a sending tick. */
  lemma TickSends(s: SenderState, id: TimerId, c: SendConfig, stats: seq<StatsEntry>,
                  clock: nat -> int, noise: nat -> nat -> byte, throwsAt: Option<nat>)
    requires id in s.timers && s.config == Some(c) && s.timers[id] < c.durationMs * c.intervalMs
    ensures TickSpec(s, id, true, stats, clock, noise, throwsAt) == SendingSpec(s, id, c, clock, noise, throwsAt)
  {
  }

  /** A sending tick whose batch is complete advances the count by the batch and sends its frames. */
  lemma SendingState(s: SenderState, id: TimerId, c: SendConfig, clock: nat -> int, noise: nat -> nat -> byte,
                     throwsAt: Option<nat>, fs: seq<seq<byte>>)
    requires id in s.timers && |fs| == c.intervalMs
    requires PackBatch(s.timers[id], c.intervalMs, c.packetSize, clock, noise, throwsAt) == Batch(fs, false)
    ensures SendingSpec(s, id, c, clock, noise, throwsAt)
            == s.(timers := s.timers[id := s.timers[id] + c.intervalMs], sent := s.sent + Binaries(fs))
  {
  }

  /**
    A sending tick whose `j`-th send throws: the frames count .. count + j - 1
    went out before it, and the catch stops the run.
   */
  lemma ThrowingTick(s: SenderState, id: TimerId, c: SendConfig, stats: seq<StatsEntry>,
                     clock: nat -> int, noise: nat -> nat -> byte, j: nat)
    requires id in s.timers && s.config == Some(c) && s.intervalId == Some(id) && c.packetSize >= 10
    requires s.timers[id] < c.durationMs * c.intervalMs && j < c.intervalMs && s.timers[id] + j <= 1000
    ensures var r := TickSpec(s, id, true, stats, clock, noise, Some(j));
      && r.config.None? && r.intervalId.None? && id !in r.timers
      && r.sent == s.sent + Binaries(FramesFrom(s.timers[id], j, c.packetSize, clock, noise))
  {
    var count := s.timers[id];
    BatchWithinRange(count, j, c.packetSize, clock, noise, Some(j));
    BatchFailureIsFinal(count, j + 1, c.intervalMs, c.packetSize, clock, noise, Some(j));
  }

  /**
    The tick after the last sending tick: one `SEND DONE` per data-channel
    report, up to a send that throws, then the timer, the interval id and
    the configuration are cleared.
   */
  lemma FinishingTick(s: SenderState, id: TimerId, c: SendConfig, stats: seq<StatsEntry>,
                      clock: nat -> int, noise: nat -> nat -> byte, throwsAt: Option<nat>)
    requires id in s.timers && s.config == Some(c) && s.intervalId == Some(id)
    requires s.timers[id] >= c.durationMs * c.intervalMs
    ensures var r := TickSpec(s, id, true, stats, clock, noise, throwsAt);
      && r.config.None? && r.intervalId.None? && r.timers == s.timers - {id}
      && r.sent == s.sent + Accepted(DoneMessages(stats), throwsAt)
  {
  }

  /**
    A tick whose batch reaches frame 1001 sends frames count .. 1000, then
    the packer's error stops the run: no `SEND DONE` is sent.
   */
  lemma AbortingTick(s: SenderState, id: TimerId, c: SendConfig, stats: seq<StatsEntry>,
                     clock: nat -> int, noise: nat -> nat -> byte, throwsAt: Option<nat>)
    requires id in s.timers && s.config == Some(c) && s.intervalId == Some(id) && c.packetSize >= 10
    requires s.timers[id] < c.durationMs * c.intervalMs && s.timers[id] <= 1001 < s.timers[id] + c.intervalMs
    requires SendsSucceed(1001 - s.timers[id], throwsAt)
    ensures var r := TickSpec(s, id, true, stats, clock, noise, throwsAt);
      && r.config.None? && r.intervalId.None? && id !in r.timers
      && r.sent == s.sent + Binaries(FramesFrom(s.timers[id], 1001 - s.timers[id], c.packetSize, clock, noise))
    ensures TickSpec(s, id, true, stats, clock, noise, throwsAt)
            == Stop(s.(sent := s.sent + Binaries(FramesFrom(s.timers[id], 1001 - s.timers[id], c.packetSize, clock, noise))))
  {
    BatchCrossingLimit(s.timers[id], c.intervalMs, c.packetSize, clock, noise, throwsAt);
    assert s.timers[id := 1001] - {id} == s.timers - {id};
  }

  /**
    `send start` while a run is live leaves the earlier timer running: the
    new timer takes over `sendIntervalId`, and the old one stays in `timers`.
   */
  lemma SecondStartLeaksTimer(s: SenderState, throwsAt: Option<nat>)
    requires Inv(s) && s.config.Some? && s.intervalId.Some?
    ensures var s' := OnMessageSpec(s, "send start", throwsAt);
      && s.intervalId.value in s'.timers && s.nextTimer in s'.timers
      && s'.intervalId == Some(s.nextTimer) && s.intervalId.value != s.nextTimer
  {
    StartIsNoSendCommand();
  }

  lemma StartIsNoSendCommand()
    ensures SendFields("send start").None?
  {
    assert "send start"[..5][0] == 's';
  }

  /**
    A tick of a timer that `sendIntervalId` no longer names stops the newer
    run instead of itself: the newer timer and the configuration are cleared,
    and the stale timer stays live.
   */
  lemma StaleTimerStopsNewerRun(s: SenderState, stale: TimerId, stats: seq<StatsEntry>,
                                channelOpen: bool, clock: nat -> int, noise: nat -> nat -> byte, throwsAt: Option<nat>)
    requires Inv(s) && stale in s.timers && s.intervalId.Some? && s.intervalId.value != stale
    requires !channelOpen || s.config.None?
    ensures var r := TickSpec(s, stale, channelOpen, stats, clock, noise, throwsAt);
      && stale in r.timers && s.intervalId.value !in r.timers && r.config.None? && r.intervalId.None?
  {
  }

  // ---------------------------------------------------------------------------
  // Whole runs
  // ---------------------------------------------------------------------------

  /**
    The state after `k` firings of timer `id` on an open channel whose sends
    all succeed. A cleared timer fires no more.
   */
  function AfterTicks(s: SenderState, id: TimerId, k: nat, stats: seq<StatsEntry>,
                      clock: nat -> int, noise: nat -> nat -> byte): SenderState
    decreases k
  {
    if k == 0 then s
    else
      var p := AfterTicks(s, id, k - 1, stats, clock, noise);
      if id in p.timers then TickSpec(p, id, true, stats, clock, noise, None) else p
  }

  /** Once the timer is cleared, further firings change nothing. */
  lemma {:induction false} StoppedStaysStopped(s: SenderState, id: TimerId, k: nat, extra: nat, stats: seq<StatsEntry>,
                                              clock: nat -> int, noise: nat -> nat -> byte)
    requires id !in AfterTicks(s, id, k, stats, clock, noise).timers
    ensures AfterTicks(s, id, k + extra, stats, clock, noise) == AfterTicks(s, id, k, stats, clock, noise)
    decreases extra
  {
    if extra > 0 {
      StoppedStaysStopped(s, id, k, extra - 1, stats, clock, noise);
    }
  }

  lemma Overwrite(timers: map<TimerId, nat>, id: TimerId, x: nat, y: nat)
    ensures timers[id := x][id := y] == timers[id := y]
  {
  }

  /** Advancing a run's state by one batch: the count moves on and the batch's frames follow the earlier ones. */
  lemma RunStateStep(s: SenderState, id: TimerId, c: SendConfig, m: nat, n: nat, clock: nat -> int, noise: nat -> nat -> byte)
    requires id in s.timers && c.packetSize >= 10 && n == m + c.intervalMs
    ensures var p := s.(timers := s.timers[id := m], sent := s.sent + Binaries(FramesFrom(0, m, c.packetSize, clock, noise)));
      p.(timers := p.timers[id := n], sent := p.sent + Binaries(FramesFrom(m, c.intervalMs, c.packetSize, clock, noise)))
      == s.(timers := s.timers[id := n], sent := s.sent + Binaries(FramesFrom(0, n, c.packetSize, clock, noise)))
  {
    var before, batch := FramesFrom(0, m, c.packetSize, clock, noise), FramesFrom(m, c.intervalMs, c.packetSize, clock, noise);
    FramesJoin(m, c.intervalMs, n, c.packetSize, clock, noise);
    BinariesAppend(before, batch);
    Associative(s.sent, Binaries(before), Binaries(batch));
    Overwrite(s.timers, id, m, n);
  }

  /** The k-th firing is a tick of the state the first k - 1 firings left, while the timer is live. */
  lemma AfterTicksSucc(s: SenderState, id: TimerId, k: nat, p: SenderState, stats: seq<StatsEntry>,
                       clock: nat -> int, noise: nat -> nat -> byte)
    requires k > 0 && AfterTicks(s, id, k - 1, stats, clock, noise) == p && id in p.timers
    ensures AfterTicks(s, id, k, stats, clock, noise) == TickSpec(p, id, true, stats, clock, noise, None)
  {
  }

  lemma Associative<T>(x: seq<T>, y: seq<T>, z: seq<T>)
    ensures x + y + z == x + (y + z)
  {
  }

  /**
    The first `k` firings of a freshly started run are sending ticks: the
    count is `k * intervalMs` and the channel has received frames
    0 .. k * intervalMs - 1, in order; the configuration and the timer stay.
   */
  lemma {:induction false} RunSends(s: SenderState, id: TimerId, c: SendConfig, k: nat, stats: seq<StatsEntry>,
                                    clock: nat -> int, noise: nat -> nat -> byte)
    requires id in s.timers && s.timers[id] == 0 && s.config == Some(c) && ValidConfig(c) && c.packetSize >= 10
    requires k <= c.durationMs && Mul(k, c.intervalMs) <= 1001
    ensures AfterTicks(s, id, k, stats, clock, noise)
            == s.(timers := s.timers[id := Mul(k, c.intervalMs)],
                  sent := s.sent + Binaries(FramesFrom(0, Mul(k, c.intervalMs), c.packetSize, clock, noise)))
    decreases k
  {
    if k == 0 {
      assert s.timers[id := 0] == s.timers;
      assert s.sent + Binaries([]) == s.sent;
    } else {
      TickCounts(k, c.durationMs, c.intervalMs);
      RunSends(s, id, c, k - 1, stats, clock, noise);
      RunSendsStep(s, id, c, k, Mul(k - 1, c.intervalMs), Mul(k, c.intervalMs), stats, clock, noise);
    }
  }

  /** One more sending tick of a run that has sent frames 0 .. m - 1. */
  lemma RunSendsStep(s: SenderState, id: TimerId, c: SendConfig, k: nat, m: nat, n: nat, stats: seq<StatsEntry>,
                     clock: nat -> int, noise: nat -> nat -> byte)
    requires id in s.timers && s.config == Some(c) && c.packetSize >= 10
    requires k > 0 && m < c.durationMs * c.intervalMs && n == m + c.intervalMs && n <= 1001
    requires AfterTicks(s, id, k - 1, stats, clock, noise)
             == s.(timers := s.timers[id := m], sent := s.sent + Binaries(FramesFrom(0, m, c.packetSize, clock, noise)))
    ensures AfterTicks(s, id, k, stats, clock, noise)
            == s.(timers := s.timers[id := n], sent := s.sent + Binaries(FramesFrom(0, n, c.packetSize, clock, noise)))
  {
    var p := s.(timers := s.timers[id := m], sent := s.sent + Binaries(FramesFrom(0, m, c.packetSize, clock, noise)));
    AfterTicksSucc(s, id, k, p, stats, clock, noise);
    SendingTickFrom(p, id, c, m, n, stats, clock, noise);
    RunStateStep(s, id, c, m, n, clock, noise);
  }

  /** A sending tick at count m, stated with the new count n = m + intervalMs. */
  lemma SendingTickFrom(p: SenderState, id: TimerId, c: SendConfig, m: nat, n: nat, stats: seq<StatsEntry>,
                        clock: nat -> int, noise: nat -> nat -> byte)
    requires id in p.timers && p.config == Some(c) && c.packetSize >= 10
    requires p.timers[id] == m && m < c.durationMs * c.intervalMs && n == m + c.intervalMs && n <= 1001
    ensures TickSpec(p, id, true, stats, clock, noise, None)
            == p.(timers := p.timers[id := n], sent := p.sent + Binaries(FramesFrom(m, c.intervalMs, c.packetSize, clock, noise)))
  {
    SendingTick(p, id, c, stats, clock, noise, None);
  }

  /** `k * a` by repeated addition, one batch per tick. */
  function Mul(k: nat, a: nat): nat
  {
    if k == 0 then 0 else Mul(k - 1, a) + a
  }

  lemma {:induction false} MulIsProduct(k: nat, a: nat)
    ensures Mul(k, a) == k * a
  {
    if k > 0 {
      MulIsProduct(k - 1, a);
    }
  }

  /** The count before the k-th sending tick is below the run's total, and the tick adds intervalMs to it. */
  lemma TickCounts(k: nat, durationMs: nat, a: nat)
    requires 0 < k <= durationMs && a > 0
    ensures Mul(k - 1, a) < durationMs * a && Mul(k - 1, a) + a == Mul(k, a)
  {
    MulIsProduct(k - 1, a);
    MulMonotone(k, durationMs, a);
  }

  /** `send start` with a configuration starts a fresh timer at count 0 and makes it `sendIntervalId`. */
  lemma StartRun(s: SenderState, throwsAt: Option<nat>)
    requires s.config.Some?
    ensures OnMessageSpec(s, "send start", throwsAt)
            == s.(intervalId := Some(s.nextTimer), timers := s.timers[s.nextTimer := 0], nextTimer := s.nextTimer + 1)
  {
    StartIsNoSendCommand();
  }

  /** The tick after the last sending tick reports and stops, as the `k + 1`-th firing. */
  lemma FinishStep(start: SenderState, id: TimerId, c: SendConfig, k: nat, running: SenderState, stats: seq<StatsEntry>,
                   clock: nat -> int, noise: nat -> nat -> byte)
    requires AfterTicks(start, id, k, stats, clock, noise) == running
    requires id in running.timers && running.config == Some(c) && running.intervalId == Some(id)
    requires running.timers[id] >= c.durationMs * c.intervalMs
    ensures AfterTicks(start, id, k + 1, stats, clock, noise) == Stop(running.(sent := running.sent + DoneMessages(stats)))
  {
    AfterTicksSucc(start, id, k + 1, running, stats, clock, noise);
    assert Accepted(DoneMessages(stats), None) == DoneMessages(stats);
  }

  /** A run started with a configuration that stays within sequence number 1000 sends frames 0 .. N - 1 in `durationMs` ticks. */
  lemma RunReachesTotal(start: SenderState, id: TimerId, c: SendConfig, stats: seq<StatsEntry>,
                        clock: nat -> int, noise: nat -> nat -> byte)
    requires id in start.timers && start.timers[id] == 0 && start.config == Some(c)
    requires ValidConfig(c) && c.packetSize >= 10 && c.durationMs * c.intervalMs <= 1001
    ensures var n := c.durationMs * c.intervalMs;
      AfterTicks(start, id, c.durationMs, stats, clock, noise)
      == start.(timers := start.timers[id := n], sent := start.sent + Binaries(FramesFrom(0, n, c.packetSize, clock, noise)))
  {
    MulIsProduct(c.durationMs, c.intervalMs);
    RunSends(start, id, c, c.durationMs, stats, clock, noise);
  }

  /** Stopping a run that has reached count `n` and sent `frames` and then `report`, `total` in all. */
  lemma StopAfterReport(start: SenderState, id: TimerId, n: nat, frames: seq<Outgoing>, report: seq<Outgoing>, total: seq<Outgoing>)
    requires start.intervalId == Some(id) && start.sent + frames + report == total
    ensures var running := start.(timers := start.timers[id := n], sent := start.sent + frames);
      Stop(running.(sent := running.sent + report))
      == start.(config := None, intervalId := None, timers := start.timers - {id}, sent := total)
  {
    assert start.timers[id := n] - {id} == start.timers - {id};
  }

  /** The same run after one more tick: the finishing tick has reported and cleared the timer. */
  lemma RunCompletes(start: SenderState, id: TimerId, c: SendConfig, stats: seq<StatsEntry>,
                     clock: nat -> int, noise: nat -> nat -> byte)
    requires id in start.timers && start.timers[id] == 0 && start.config == Some(c) && start.intervalId == Some(id)
    requires ValidConfig(c) && c.packetSize >= 10 && c.durationMs * c.intervalMs <= 1001
    ensures AfterTicks(start, id, c.durationMs + 1, stats, clock, noise)
            == start.(config := None, intervalId := None, timers := start.timers - {id},
                      sent := start.sent + Binaries(FramesFrom(0, c.durationMs * c.intervalMs, c.packetSize, clock, noise))
                              + DoneMessages(stats))
  {
    var n := c.durationMs * c.intervalMs;
    RunReachesTotal(start, id, c, stats, clock, noise);
    var running := start.(timers := start.timers[id := n],
                          sent := start.sent + Binaries(FramesFrom(0, n, c.packetSize, clock, noise)));
    FinishStep(start, id, c, c.durationMs, running, stats, clock, noise);
    StopAfterReport(start, id, n, Binaries(FramesFrom(0, n, c.packetSize, clock, noise)), DoneMessages(stats),
                    start.sent + Binaries(FramesFrom(0, n, c.packetSize, clock, noise)) + DoneMessages(stats));
  }

  /**
    `send start` with a configuration whose run stays within sequence
    number 1000 (n = durationMs * intervalMs <= 1001): after `durationMs` ticks
    the frames 0 .. n - 1 have gone out, in order, and the run is still
    configured; the next tick sends one `SEND DONE` per data-channel report
    and clears the timer, so later firings change nothing (StoppedStaysStopped).
   */
  lemma WholeRun(s: SenderState, c: SendConfig, n: nat, stats: seq<StatsEntry>, clock: nat -> int, noise: nat -> nat -> byte)
    requires s.config == Some(c) && ValidConfig(c) && c.packetSize >= 10 && n == c.durationMs * c.intervalMs && n <= 1001
    ensures var start, id := OnMessageSpec(s, "send start", None), s.nextTimer;
      var running := AfterTicks(start, id, c.durationMs, stats, clock, noise);
      var done := AfterTicks(start, id, c.durationMs + 1, stats, clock, noise);
      && running.config == Some(c) && running.intervalId == Some(id) && running.timers == s.timers[id := n]
      && running.sent == s.sent + Binaries(FramesFrom(0, n, c.packetSize, clock, noise))
      && done.config.None? && done.intervalId.None? && done.timers == s.timers - {id}
      && done.sent == s.sent + Binaries(FramesFrom(0, n, c.packetSize, clock, noise)) + DoneMessages(stats)
  {
    StartRun(s, None);
    var start, id := OnMessageSpec(s, "send start", None), s.nextTimer;
    RunReachesTotal(start, id, c, stats, clock, noise);
    RunCompletes(start, id, c, stats, clock, noise);
    assert s.timers[id := 0] - {id} == s.timers - {id};
    assert s.timers[id := 0][id := n] == s.timers[id := n];
  }

  /** The count before the tick that would pack frame 1001: a whole number of batches, within the run. */
  lemma AbortPoint(d: nat, a: nat)
    requires a > 0 && d * a > 1001
    ensures var q := 1001 / a;
      q < d && Mul(q, a) <= 1001 < Mul(q, a) + a && Mul(q, a) < d * a
  {
    var q := 1001 / a;
    MulIsProduct(q, a);
    assert q * a <= 1001 < q * a + a;
    if q >= d {
      MulMonotone(d, q, a);
    }
  }

  /** Frames 0 .. m - 1 followed by frames m .. n - 1 are frames 0 .. n - 1. */
  lemma FramesJoin(m: nat, k: nat, n: nat, packetSize: nat, clock: nat -> int, noise: nat -> nat -> byte)
    requires n == m + k && packetSize >= 10
    ensures FramesFrom(0, m, packetSize, clock, noise) + FramesFrom(m, k, packetSize, clock, noise)
            == FramesFrom(0, n, packetSize, clock, noise)
  {
    FramesFromAppend(0, m, k, packetSize, clock, noise);
  }

  /** The frames of consecutive stretches of a run go out one after the other. */
  lemma SentFrames(sent: seq<Outgoing>, m: nat, k: nat, n: nat, packetSize: nat, clock: nat -> int, noise: nat -> nat -> byte)
    requires n == m + k && packetSize >= 10
    ensures sent + Binaries(FramesFrom(0, m, packetSize, clock, noise)) + Binaries(FramesFrom(m, k, packetSize, clock, noise))
            == sent + Binaries(FramesFrom(0, n, packetSize, clock, noise))
  {
    var before, after := FramesFrom(0, m, packetSize, clock, noise), FramesFrom(m, k, packetSize, clock, noise);
    FramesJoin(m, k, n, packetSize, clock, noise);
    BinariesAppend(before, after);
    Associative(sent, Binaries(before), Binaries(after));
  }

  /** The tick whose batch would pass frame 1000, as the `k + 1`-th firing. */
  lemma AbortStep(start: SenderState, id: TimerId, c: SendConfig, k: nat, m: nat, running: SenderState, stats: seq<StatsEntry>,
                  clock: nat -> int, noise: nat -> nat -> byte)
    requires AfterTicks(start, id, k, stats, clock, noise) == running
    requires id in running.timers && running.config == Some(c) && running.intervalId == Some(id) && c.packetSize >= 10
    requires running.timers[id] == m && m < c.durationMs * c.intervalMs && m <= 1001 < m + c.intervalMs
    ensures AfterTicks(start, id, k + 1, stats, clock, noise)
            == Stop(running.(sent := running.sent + Binaries(FramesFrom(m, 1001 - m, c.packetSize, clock, noise))))
  {
    AfterTicksSucc(start, id, k + 1, running, stats, clock, noise);
    AbortingTick(running, id, c, stats, clock, noise, None);
  }

  /** A run started with a configuration that would pass sequence number 1000 stops after frame 1000. */
  lemma RunAborts(start: SenderState, id: TimerId, c: SendConfig, stats: seq<StatsEntry>,
                  clock: nat -> int, noise: nat -> nat -> byte)
    requires id in start.timers && start.timers[id] == 0 && start.config == Some(c) && start.intervalId == Some(id)
    requires ValidConfig(c) && c.packetSize >= 10 && c.durationMs * c.intervalMs > 1001
    ensures AfterTicks(start, id, 1001 / c.intervalMs + 1, stats, clock, noise)
            == start.(config := None, intervalId := None, timers := start.timers - {id},
                      sent := start.sent + Binaries(FramesFrom(0, 1001, c.packetSize, clock, noise)))
  {
    var q := 1001 / c.intervalMs;
    AbortPoint(c.durationMs, c.intervalMs);
    var m := Mul(q, c.intervalMs);
    var before, after := FramesFrom(0, m, c.packetSize, clock, noise), FramesFrom(m, 1001 - m, c.packetSize, clock, noise);
    var total := start.sent + Binaries(FramesFrom(0, 1001, c.packetSize, clock, noise));
    SentFrames(start.sent, m, 1001 - m, 1001, c.packetSize, clock, noise);
    var running := start.(timers := start.timers[id := m], sent := start.sent + Binaries(before));
    var done := start.(config := None, intervalId := None, timers := start.timers - {id}, sent := total);
    StopAfterReport(start, id, m, Binaries(before), Binaries(after), total);
    RunSends(start, id, c, q, stats, clock, noise);
    AbortStep(start, id, c, q, m, running, stats, clock, noise);
  }

  /**
    `send start` with a configuration whose run would pass sequence number
    1000: after the 1001 / intervalMs full ticks, the next tick sends up to
    frame 1000 and the packer's error stops the run. Frames 0 .. 1000 have
    gone out, in order, and no `SEND DONE`; the timer is cleared.
   */
  lemma AbortedRun(s: SenderState, c: SendConfig, stats: seq<StatsEntry>, clock: nat -> int, noise: nat -> nat -> byte)
    requires s.config == Some(c) && ValidConfig(c) && c.packetSize >= 10 && c.durationMs * c.intervalMs > 1001
    ensures var start, id := OnMessageSpec(s, "send start", None), s.nextTimer;
      var done := AfterTicks(start, id, 1001 / c.intervalMs + 1, stats, clock, noise);
      && done.config.None? && done.intervalId.None? && done.timers == s.timers - {id}
      && done.sent == s.sent + Binaries(FramesFrom(0, 1001, c.packetSize, clock, noise))
  {
    StartRun(s, None);
    var start, id := OnMessageSpec(s, "send start", None), s.nextTimer;
    RunAborts(start, id, c, stats, clock, noise);
    assert s.timers[id := 0] - {id} == s.timers - {id};
  }

  /**
    `send start` with frames smaller than the 10-byte header: the packer
    refuses frame 0, so the first tick sends nothing and stops the run.
   */
  lemma TooSmallFramesRun(s: SenderState, c: SendConfig, stats: seq<StatsEntry>, clock: nat -> int, noise: nat -> nat -> byte)
    requires s.config == Some(c) && ValidConfig(c) && c.packetSize < 10
    ensures var start, id := OnMessageSpec(s, "send start", None), s.nextTimer;
      var done := AfterTicks(start, id, 1, stats, clock, noise);
      && done.config.None? && done.intervalId.None? && done.timers == s.timers - {id} && done.sent == s.sent
  {
    StartRun(s, None);
    var start, id := OnMessageSpec(s, "send start", None), s.nextTimer;
    TooSmallFirstTick(start, id, c, stats, clock, noise);
    assert s.timers[id := 0] - {id} == s.timers - {id};
  }

  /** With frames below the header size, the first firing packs nothing and stops the run. */
  lemma TooSmallFirstTick(start: SenderState, id: TimerId, c: SendConfig, stats: seq<StatsEntry>,
                          clock: nat -> int, noise: nat -> nat -> byte)
    requires id in start.timers && start.timers[id] == 0 && start.config == Some(c) && start.intervalId == Some(id)
    requires ValidConfig(c) && c.packetSize < 10
    ensures AfterTicks(start, id, 1, stats, clock, noise)
            == start.(config := None, intervalId := None, timers := start.timers - {id})
  {
    AfterTicksSucc(start, id, 1, start, stats, clock, noise);
    BatchFailureIsFinal(0, 1, c.intervalMs, c.packetSize, clock, noise, None);
    assert start.timers[id := 0] == start.timers;
  }
}
