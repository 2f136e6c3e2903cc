/**
  The data-channel statistics panel (src/components/Statistics/DataChannel/index.tsx):
  the severity of the planned data volume, the history of received-message
  counters, the loss percentage, and the missing and delayed sequence numbers
  computed from the packet buffer the hook fills.

  The clock stamp of each history entry (`currentFormattedDate`) is not part
  of this model; an entry keeps the two counters.
 */
module DataChannelStats {
  import opened Wrappers
  import opened SequenceHelper
  import BrowserPeer
  import FramePacker
  import Bytes

  const KILOBYTE: nat := 1024
  const MEGABYTE: nat := 1024 * KILOBYTE

  datatype Severity = Low | Medium | High | Severe

  /** The order of the bands, from the smallest volume up. */
  function Rank(s: Severity): nat
  {
    match s
    case Low => 0
    case Medium => 1
    case High => 2
    case Severe => 3
  }

  /** `TestSeverity`: the first band whose upper bound the total does not exceed. */
  function TestSeverity(totalDataInBytes: int): Severity
  {
    if totalDataInBytes <= 100 * KILOBYTE then Low
    else if totalDataInBytes <= 1 * MEGABYTE then Medium
    else if totalDataInBytes <= 10 * MEGABYTE then High
    else Severe
  }

  /** The four bands partition the totals at 100 KiB, 1 MiB and 10 MiB, bounds included in the lower band. */
  lemma SeverityBands(total: int)
    ensures TestSeverity(total) == Low <==> total <= 102400
    ensures TestSeverity(total) == Medium <==> 102400 < total <= 1048576
    ensures TestSeverity(total) == High <==> 1048576 < total <= 10485760
    ensures TestSeverity(total) == Severe <==> 10485760 < total
  {
  }

  /** A larger total never gets a lower band. */
  lemma SeverityMonotone(a: int, b: int)
    requires a <= b
    ensures Rank(TestSeverity(a)) <= Rank(TestSeverity(b))
  {
  }

  // ---------------------------------------------------------------------------
  // History of data-channel counters
  // ---------------------------------------------------------------------------

  /** One entry of an `RTCStatsReport`, reduced to what the panel reads. */
  datatype Report = Report(kind: string, messagesReceived: nat, bytesReceived: nat)

  datatype HistoryEntry = HistoryEntry(messagesReceived: nat, bytesReceived: nat)

  /** The effect of one report inside `statistics.forEach`: a `data-channel` report appends its counters. */
  function AppendReport(history: seq<HistoryEntry>, report: Report): seq<HistoryEntry>
  {
    if report.kind == "data-channel" then history + [HistoryEntry(report.messagesReceived, report.bytesReceived)]
    else history
  }

  /** The effect of one statistics snapshot: the reports applied one after another, in report order. */
  function AppendSnapshot(history: seq<HistoryEntry>, reports: seq<Report>): seq<HistoryEntry>
    decreases |reports|
  {
    if reports == [] then history else AppendSnapshot(AppendReport(history, reports[0]), reports[1..])
  }

  /** The counters of the `data-channel` reports of a snapshot, in report order. */
  function DataChannelEntries(reports: seq<Report>): (entries: seq<HistoryEntry>)
    ensures |entries| <= |reports|
    decreases |reports|
  {
    if reports == [] then []
    else
      var last := reports[|reports| - 1];
      DataChannelEntries(reports[..|reports| - 1])
        + (if last.kind == "data-channel" then [HistoryEntry(last.messagesReceived, last.bytesReceived)] else [])
  }

  lemma {:induction false} DataChannelEntriesPrepend(r: Report, reports: seq<Report>)
    ensures DataChannelEntries([r] + reports) == DataChannelEntries([r]) + DataChannelEntries(reports)
    decreases |reports|
  {
    var all := [r] + reports;
    if reports != [] {
      assert all[..|all| - 1] == [r] + reports[..|reports| - 1];
      assert all[|all| - 1] == reports[|reports| - 1];
      DataChannelEntriesPrepend(r, reports[..|reports| - 1]);
    } else {
      assert all == [r];
    }
  }

  /** One report appends its own entry, if it has one. */
  lemma AppendReportEntries(history: seq<HistoryEntry>, r: Report)
    ensures AppendReport(history, r) == history + DataChannelEntries([r])
  {
    assert [r][..0] == [];
  }

  /**
    A snapshot keeps the earlier history as it was and appends one entry per
    `data-channel` report, in report order; other reports add nothing.
   */
  lemma {:induction false} SnapshotAppends(history: seq<HistoryEntry>, reports: seq<Report>)
    ensures AppendSnapshot(history, reports) == history + DataChannelEntries(reports)
    decreases |reports|
  {
    if reports == [] {
      assert history + [] == history;
    } else {
      var r, rest := reports[0], reports[1..];
      assert [r] + rest == reports;
      SnapshotAppends(AppendReport(history, r), rest);
      AppendReportEntries(history, r);
      DataChannelEntriesPrepend(r, rest);
      calc {
        AppendSnapshot(history, reports);
        AppendReport(history, r) + DataChannelEntries(rest);
        (history + DataChannelEntries([r])) + DataChannelEntries(rest);
        history + (DataChannelEntries([r]) + DataChannelEntries(rest));
        history + DataChannelEntries(reports);
      }
    }
  }

  /** A snapshot with no `data-channel` report leaves the history unchanged. */
  lemma {:induction false} SnapshotWithoutDataChannel(history: seq<HistoryEntry>, reports: seq<Report>)
    requires forall i :: 0 <= i < |reports| ==> reports[i].kind != "data-channel"
    ensures AppendSnapshot(history, reports) == history
    decreases |reports|
  {
    if reports != [] {
      SnapshotWithoutDataChannel(history, reports[1..]);
    }
  }

  /** `data.slice(-20)`: the charts plot the last 20 entries, or all of them when there are fewer. */
  function Recent(history: seq<HistoryEntry>): (recent: seq<HistoryEntry>)
    ensures |recent| == if |history| < 20 then |history| else 20
    ensures recent == history[|history| - |recent|..]
  {
    if |history| <= 20 then history else history[|history| - 20..]
  }

  // ---------------------------------------------------------------------------
  // Loss
  // ---------------------------------------------------------------------------

  /** A JavaScript division result: a finite number, or the value of x/0. */
  datatype Quotient = Finite(value: real) | NotANumber | NegativeInfinity | PositiveInfinity

  /** `x / y` on numbers, for an integer numerator. */
  function Divide(x: int, y: nat): Quotient
  {
    if y > 0 then Finite(x as real / y as real)
    else if x == 0 then NotANumber
    else if x < 0 then NegativeInfinity
    else PositiveInfinity
  }

  /** `data.at(-1)?.messagesReceived ?? 0`. */
  function LastReceived(history: seq<HistoryEntry>): nat
  {
    if history == [] then 0 else history[|history| - 1].messagesReceived
  }

  /** `calculatedPacketLoss`. */
  function PacketLoss(status: BrowserPeer.TestState, history: seq<HistoryEntry>, expectedTotalMsg: nat): Quotient
  {
    if status != BrowserPeer.TestClosed then Finite(0.0)
    else Divide((expectedTotalMsg - LastReceived(history)) * 100, expectedTotalMsg)
  }

  /**
    The loss is 0 until the test is closed. Once closed, with messages
    expected, it is the percentage of expected messages the last history
    entry does not account for; with none expected it is not a finite number.
   */
  lemma LossCases(status: BrowserPeer.TestState, history: seq<HistoryEntry>, expectedTotalMsg: nat)
    ensures status != BrowserPeer.TestClosed ==> PacketLoss(status, history, expectedTotalMsg) == Finite(0.0)
    ensures status == BrowserPeer.TestClosed && expectedTotalMsg > 0 ==>
      var loss := PacketLoss(status, history, expectedTotalMsg);
      && loss.Finite?
      && loss.value * expectedTotalMsg as real == (expectedTotalMsg as real - LastReceived(history) as real) * 100.0
    ensures status == BrowserPeer.TestClosed && expectedTotalMsg == 0 ==> !PacketLoss(status, history, expectedTotalMsg).Finite?
  {
  }

  /** A quotient of a numerator between 0 and 100 times its positive denominator lies in [0, 100]. */
  lemma PercentBounds(n: int, d: int)
    requires d > 0 && 0 <= n <= 100 * d
    ensures 0.0 <= n as real / d as real <= 100.0
  {
    var q, dr := n as real / d as real, d as real;
    assert q * dr == n as real;
    assert q < 0.0 ==> q * dr < 0.0;
    assert q > 100.0 ==> (q - 100.0) * dr > 0.0;
  }

  /** With the counter at most the expected count, the loss is a percentage: 100 with no history, 0 when all arrived. */
  lemma LossIsPercentage(history: seq<HistoryEntry>, expectedTotalMsg: nat)
    requires expectedTotalMsg > 0 && LastReceived(history) <= expectedTotalMsg
    ensures var loss := PacketLoss(BrowserPeer.TestClosed, history, expectedTotalMsg);
      && loss.Finite? && 0.0 <= loss.value <= 100.0
      && (history == [] ==> loss.value == 100.0)
      && (LastReceived(history) == expectedTotalMsg ==> loss.value == 0.0)
  {
    var n := (expectedTotalMsg - LastReceived(history)) * 100;
    assert PacketLoss(BrowserPeer.TestClosed, history, expectedTotalMsg) == Finite(n as real / expectedTotalMsg as real);
    PercentBounds(n, expectedTotalMsg);
    if history == [] {
      assert n == 100 * expectedTotalMsg;
      assert n as real == 100.0 * expectedTotalMsg as real;
    }
  }

  // ---------------------------------------------------------------------------
  // Missing and delayed packets
  // ---------------------------------------------------------------------------

  /** `packets.map((data) => data.sequenceNumber)`. */
  function SequenceNumbers(packets: seq<BrowserPeer.PacketRecord>): (ns: seq<int>)
    ensures |ns| == |packets|
    ensures forall i :: 0 <= i < |packets| ==> ns[i] == packets[i].sequenceNumber
  {
    seq(|packets|, i requires 0 <= i < |packets| => packets[i].sequenceNumber)
  }

  /** `missingPacketNumbers`. */
  function MissingPacketNumbers(status: BrowserPeer.TestState, expectedTotalMsg: nat, packets: seq<BrowserPeer.PacketRecord>): seq<nat>
  {
    if status != BrowserPeer.TestClosed then []
    else FindMissingSequenceNumber(expectedTotalMsg, SequenceNumbers(packets))
  }

  /**
    Nothing is reported missing before the test is closed; afterwards a
    number is missing exactly when it is below the expected count and no
    received packet carries it, and the list ascends.
   */
  lemma MissingPackets(status: BrowserPeer.TestState, expectedTotalMsg: nat, packets: seq<BrowserPeer.PacketRecord>, d: int)
    ensures status != BrowserPeer.TestClosed ==> MissingPacketNumbers(status, expectedTotalMsg, packets) == []
    ensures status == BrowserPeer.TestClosed ==>
      ((d in MissingPacketNumbers(status, expectedTotalMsg, packets))
        <==> (0 <= d < expectedTotalMsg && forall i :: 0 <= i < |packets| ==> packets[i].sequenceNumber != d))
    ensures Increasing(MissingPacketNumbers(status, expectedTotalMsg, packets))
  {
    if status == BrowserPeer.TestClosed {
      var ns := SequenceNumbers(packets);
      MissingMembership(expectedTotalMsg, ns, d);
      if d !in ns {
        forall i | 0 <= i < |packets| ensures packets[i].sequenceNumber != d {
          assert ns[i] == packets[i].sequenceNumber;
        }
      }
    }
  }

  /** A record counts as delayed when its transit time exceeds the acceptable delay. */
  predicate IsDelayed(p: BrowserPeer.PacketRecord, acceptableDelay: int)
  {
    p.receivedAt - p.sendAt > acceptableDelay
  }

  /** `delayedPackets`: the sequence numbers of the delayed records, in buffer order, whatever the test status. */
  function DelayedPackets(packets: seq<BrowserPeer.PacketRecord>, acceptableDelay: int): (delayed: seq<nat>)
    ensures |delayed| <= |packets|
    decreases |packets|
  {
    if packets == [] then []
    else
      var last := packets[|packets| - 1];
      DelayedPackets(packets[..|packets| - 1], acceptableDelay)
        + (if IsDelayed(last, acceptableDelay) then [last.sequenceNumber] else [])
  }

  /** The filter keeps buffer order: the delayed list of a concatenation is the concatenation of the delayed lists. */
  lemma {:induction false} DelayedConcat(a: seq<BrowserPeer.PacketRecord>, b: seq<BrowserPeer.PacketRecord>, acceptableDelay: int)
    ensures DelayedPackets(a + b, acceptableDelay) == DelayedPackets(a, acceptableDelay) + DelayedPackets(b, acceptableDelay)
    decreases |b|
  {
    if b == [] {
      assert a + b == a;
    } else {
      var ab := a + b;
      assert ab[..|ab| - 1] == a + b[..|b| - 1];
      assert ab[|ab| - 1] == b[|b| - 1];
      DelayedConcat(a, b[..|b| - 1], acceptableDelay);
    }
  }

  /** A number is in the delayed list exactly when some delayed record carries it. */
  lemma {:induction false} DelayedMembership(packets: seq<BrowserPeer.PacketRecord>, acceptableDelay: int, n: int)
    ensures n in DelayedPackets(packets, acceptableDelay)
      <==> exists i :: 0 <= i < |packets| && IsDelayed(packets[i], acceptableDelay) && packets[i].sequenceNumber == n
    decreases |packets|
  {
    if packets != [] {
      var init := packets[..|packets| - 1];
      DelayedMembership(init, acceptableDelay, n);
      if exists i :: 0 <= i < |init| && IsDelayed(init[i], acceptableDelay) && init[i].sequenceNumber == n {
        var i :| 0 <= i < |init| && IsDelayed(init[i], acceptableDelay) && init[i].sequenceNumber == n;
        assert packets[i] == init[i];
      }
      if exists i :: 0 <= i < |packets| && IsDelayed(packets[i], acceptableDelay) && packets[i].sequenceNumber == n {
        var i :| 0 <= i < |packets| && IsDelayed(packets[i], acceptableDelay) && packets[i].sequenceNumber == n;
        if i < |init| {
          assert init[i] == packets[i];
        }
      }
    }
  }

  /**
    A server frame stamped at `sentAt` (an int64 time) and received at `now`
    adds its sequence number to the end of the delayed list exactly when
    `now - sentAt` exceeds the acceptable delay.
   */
  lemma ArrivingFrameDelay(s: BrowserPeer.PeerModel, sequenceNumber: nat, totalBufferSize: nat, sentAt: int,
                           noise: nat -> Bytes.byte, now: int, acceptableDelay: int)
    requires sequenceNumber <= 1000 && totalBufferSize >= 10 && Bytes.IsInt64(sentAt)
    ensures var frame := FramePacker.Pack(sequenceNumber, totalBufferSize, sentAt, noise).value;
      var after := BrowserPeer.DataMessageSpec(s, BrowserPeer.BinaryData(frame), now);
      && after.Ok?
      && DelayedPackets(after.value.packets, acceptableDelay)
         == DelayedPackets(s.packets, acceptableDelay) + (if now - sentAt > acceptableDelay then [sequenceNumber] else [])
  {
    BrowserPeer.ServerFrameArrives(s, sequenceNumber, totalBufferSize, sentAt, noise, now);
    var record := BrowserPeer.PacketRecord(sentAt, now, sequenceNumber);
    DelayedConcat(s.packets, [record], acceptableDelay);
    assert [record][..0] == [];
  }
}
