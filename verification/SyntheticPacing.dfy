/** The synthetic source's packet loop: sequence numbers, positions and deadlines
    under an arbitrary clock. */
module SyntheticPacing {
  import opened Base

  datatype Mode = ContinuousTone | Silence | ToneSilenceTone | OneDiscontinuity | OneSkippedSequence | EndOfStream

  /** `interval` is the length of a packet in clock ticks, 0 when not pacing. */
  datatype Config = Config(
    mode: Mode, channels: nat, framesPerPacket: uint32, totalPackets: uint32, pacing: bool, interval: nat)

  /** What happens around one packet: the clock when it is stamped, in units of
      100 ns, the callback's answer, and the clock afterwards, in ticks. */
  datatype Tick = Tick(stamp: nat, keepGoing: bool, now: int)

  /** The samples of a packet: zeros, or the tone from a frame on. */
  datatype Content = Zeros | Tone(firstFrame: nat)

  datatype Packet = Packet(
    sequence: nat, position: nat, timestamp: nat, content: Content,
    isSilent: bool, isDiscontinuous: bool, isEndOfStream: bool)

  /** The jump that a one-off discontinuity puts into the timestamps: 100 ms. */
  const TIMESTAMP_JUMP: nat := 1_000_000

  // ---- Mode properties of packet `k` ----

  /** Where a one-off event happens; without a packet count, at index 2^32 - 1. */
  function EventIndex(c: Config): nat {
    if c.totalPackets > 0 then c.totalPackets / 2 else UINT32_SIZE - 1
  }

  function SilenceBegin(c: Config): nat {
    c.totalPackets / 3
  }

  /** Twice the count is taken in 32 bits. */
  function SilenceEnd(c: Config): nat {
    (2 * c.totalPackets) % UINT32_SIZE / 3
  }

  predicate IsSilentAt(c: Config, k: nat) {
    c.mode.Silence? || (c.mode.ToneSilenceTone? && SilenceBegin(c) <= k < SilenceEnd(c))
  }

  /** The mode itself marks the packet as discontinuous. */
  predicate IsMarkedAt(c: Config, k: nat) {
    || (c.mode.ToneSilenceTone? && k == SilenceBegin(c) && k < SilenceEnd(c))
    || ((c.mode.OneDiscontinuity? || c.mode.OneSkippedSequence?) && k == EventIndex(c))
  }

  predicate IsLastAt(c: Config, k: nat) {
    c.mode.EndOfStream? && c.totalPackets > 0 && k + 1 == c.totalPackets
  }

  /** Sequence numbers left out on purpose up to packet `k`. */
  function Skips(c: Config, k: nat): nat {
    if c.mode.OneSkippedSequence? && k >= EventIndex(c) then 1 else 0
  }

  // ---- Time slots ----

  /** The slot after `slot`, or the one the clock is already in if that is later. */
  function NextSlot(c: Config, start: int, slot: nat, now: int): nat
    requires c.pacing ==> c.interval > 0
  {
    if c.pacing && (now - start) / c.interval > slot + 1 then (now - start) / c.interval else slot + 1
  }

  /** The slot of packet `k`. */
  function Slot(c: Config, start: int, script: seq<Tick>, k: nat): nat
    requires c.pacing ==> c.interval > 0
    requires k <= |script|
  {
    if k == 0 then 0 else NextSlot(c, start, Slot(c, start, script, k - 1), script[k - 1].now)
  }

  predicate IntervalMissed(c: Config, start: int, script: seq<Tick>, k: nat)
    requires c.pacing ==> c.interval > 0
    requires k <= |script|
  {
    k > 0 && Slot(c, start, script, k) != Slot(c, start, script, k - 1) + 1
  }

  function Frames(c: Config, slots: nat): nat {
    c.framesPerPacket * slots
  }

  function TimestampAt(c: Config, stamp: nat, k: nat): nat {
    if c.mode.OneDiscontinuity? && k == EventIndex(c) then stamp + TIMESTAMP_JUMP else stamp
  }

  function ContentAt(c: Config, k: nat, position: nat): Content {
    if IsSilentAt(c, k) then Zeros else Tone(position)
  }

  function PacketAt(c: Config, start: int, script: seq<Tick>, pending: bool, k: nat): Packet
    requires c.pacing ==> c.interval > 0
    requires k < |script|
  {
    var slot := Slot(c, start, script, k);
    Packet(slot + Skips(c, k), Frames(c, slot), TimestampAt(c, script[k].stamp, k),
           ContentAt(c, k, Frames(c, slot)), IsSilentAt(c, k),
           IsMarkedAt(c, k) || IntervalMissed(c, start, script, k) || (k == 0 && pending), IsLastAt(c, k))
  }

  lemma FramesAdd(c: Config, a: nat, b: nat)
    ensures Frames(c, a + b) == Frames(c, a) + Frames(c, b)
  {
  }

  function Ticks(interval: int, slots: int): int {
    interval * slots
  }

  lemma TicksAdd(interval: int, a: int, b: int)
    ensures Ticks(interval, a + b) == Ticks(interval, a) + Ticks(interval, b)
    ensures Ticks(interval, 1) == interval
  {
  }

  /** Whole intervals missed since a deadline end in the slot the clock is in. */
  lemma MissedIntervals(interval: int, start: int, slot: nat, now: int)
    requires interval > 0
    ensures var late := now - (start + Ticks(interval, slot));
            && (late >= 0 ==> (now - start) / interval == slot + late / interval)
            && (late < 0 ==> (now - start) / interval < slot)
  {
    var late := now - (start + Ticks(interval, slot));
    var q, r := late / interval, late % interval;
    assert now - start == (slot + q) * interval + r by {
      assert late == q * interval + r;
      assert Ticks(interval, slot) == slot * interval;
    }
    DivModUnique(now - start, slot + q, r, interval);
    if q >= 1 {
      MulAtLeast(q, interval);
    }
  }

  ghost predicate Delivered(c: Config, start: int, script: seq<Tick>, pending: bool, packets: seq<Packet>)
    requires c.pacing ==> c.interval > 0
  {
    && |packets| <= |script|
    && forall k :: 0 <= k < |packets| ==> packets[k] == PacketAt(c, start, script, pending, k)
  }

  /** The one-off event of the mode lies before packet `k`. */
  predicate HasHappened(c: Config, happened: bool, k: nat) {
    c.mode.OneSkippedSequence? || c.mode.OneDiscontinuity? ==> (happened <==> k > EventIndex(c))
  }

  /** Packets until the callback rejects one, counting that one. */
  function Accepted(script: seq<Tick>): (n: nat)
    ensures n <= |script|
  {
    if script == [] then 0 else if script[0].keepGoing then 1 + Accepted(script[1..]) else 1
  }

  /** How many packets a run delivers. */
  function PacketCount(c: Config, script: seq<Tick>): nat {
    if c.framesPerPacket == 0 || c.channels == 0 then 0
    else if 0 < c.totalPackets < Accepted(script) then c.totalPackets
    else Accepted(script)
  }

  /** The callback accepted the first `n` packets, or all but the last of them. */
  ghost predicate StopsAt(script: seq<Tick>, n: nat, stopped: bool) {
    && n <= |script|
    && (forall k :: 0 <= k < n - 1 ==> script[k].keepGoing)
    && (if stopped then n > 0 && !script[n - 1].keepGoing else n > 0 ==> script[n - 1].keepGoing)
  }

  lemma {:induction false} AcceptedFirst(script: seq<Tick>, n: nat, stopped: bool)
    requires StopsAt(script, n, stopped)
    ensures stopped ==> Accepted(script) == n
    ensures !stopped ==> Accepted(script) >= n && (n == |script| ==> Accepted(script) == n)
  {
    if n > 0 && script[0].keepGoing {
      AcceptedFirst(script[1..], n - 1, stopped);
    }
  }

  lemma CountReached(c: Config, script: seq<Tick>, n: nat, stopped: bool)
    requires StopsAt(script, n, stopped) && c.framesPerPacket > 0 && c.channels > 0
    requires c.totalPackets > 0 ==> n <= c.totalPackets
    requires stopped || n == |script| || n == c.totalPackets > 0
    ensures n == PacketCount(c, script)
  {
    AcceptedFirst(script, n, stopped);
  }

  class SyntheticSource {
    /** Set when pacing fell behind, consumed by the next packet. */
    var pendingDiscontinuity: bool

    constructor ()
      ensures !pendingDiscontinuity
    {
      pendingDiscontinuity := false;
    }

    /** Delivers packets while the script lasts; a script stands for any finite
        piece of what the callback and the clock may do. */
    method Run(c: Config, start: int, script: seq<Tick>) returns (packets: seq<Packet>)
      requires c.pacing ==> c.interval > 0
      modifies this
      ensures Delivered(c, start, script, old(pendingDiscontinuity), packets)
      ensures |packets| == PacketCount(c, script)
      ensures c.framesPerPacket == 0 || c.channels == 0 ==> packets == []
      ensures forall k :: 0 <= k < |packets| - 1 ==> script[k].keepGoing
      ensures c.totalPackets > 0 ==> |packets| <= c.totalPackets
      ensures c.framesPerPacket > 0 && c.channels > 0 && |packets| < |script| ==>
                || |packets| == c.totalPackets > 0
                || (packets != [] && !script[|packets| - 1].keepGoing)
    {
      packets := [];
      if c.framesPerPacket == 0 || c.channels == 0 {
        return;
      }
      ghost var pending, slot := pendingDiscontinuity, 0;
      var position, sequence, deadline, happened, stopped := 0, 0, start, false, false;
      assert Frames(c, 0) == 0 && Ticks(c.interval, 0) == 0;
      while !stopped && |packets| < |script| && !(c.totalPackets > 0 && |packets| >= c.totalPackets)
        invariant Delivered(c, start, script, pending, packets)
        invariant c.totalPackets > 0 ==> |packets| <= c.totalPackets
        invariant StopsAt(script, |packets|, stopped)
        invariant HasHappened(c, happened, |packets|)
        invariant !stopped ==>
                    && slot == Slot(c, start, script, |packets|)
                    && position == Frames(c, slot) && sequence == slot + SkipsBefore(c, |packets|)
                    && (c.pacing ==> deadline == start + Ticks(c.interval, slot))
                    && pendingDiscontinuity ==
                         (IntervalMissed(c, start, script, |packets|) || (packets == [] && pending))
        decreases |script| - |packets|
      {
        var k := |packets|;
        var packet;
        packet, sequence, happened := Build(c, k, position, sequence, script[k].stamp, happened);
        packets := packets + [packet];
        stopped := !script[k].keepGoing;
        if !stopped {
          position, sequence, deadline := Advance(c, start, position, sequence, deadline, script[k].now, slot);
          slot := NextSlot(c, start, slot, script[k].now);
        }
      }
      CountReached(c, script, |packets|, stopped);
    }

    method Build(c: Config, k: nat, position: nat, sequence: nat, stamp: nat, happened: bool)
      returns (packet: Packet, next: nat, now: bool)
      requires HasHappened(c, happened, k) && (c.totalPackets > 0 ==> k < c.totalPackets)
      modifies this
      ensures next == sequence + Skips(c, k) - SkipsBefore(c, k)
      ensures packet == Packet(next, position, TimestampAt(c, stamp, k), ContentAt(c, k, position), IsSilentAt(c, k),
                               IsMarkedAt(c, k) || old(pendingDiscontinuity), IsLastAt(c, k))
      ensures HasHappened(c, now, k + 1) && !pendingDiscontinuity
    {
      var marked := c.mode.ToneSilenceTone? && k == SilenceBegin(c) && k < SilenceEnd(c);
      next, now := sequence, happened;
      if (c.mode.OneDiscontinuity? || c.mode.OneSkippedSequence?) && k == EventIndex(c) && !happened {
        marked, now := true, true;
        if c.mode.OneSkippedSequence? {
          next := next + 1;
        }
      }
      var last := c.mode.EndOfStream? && c.totalPackets > 0 && k + 1 >= c.totalPackets;
      var content := if IsSilentAt(c, k) then Zeros else Tone(position);
      var timestamp := if marked && c.mode.OneDiscontinuity? then stamp + TIMESTAMP_JUMP else stamp;
      packet := Packet(next, position, timestamp, content, IsSilentAt(c, k), marked || pendingDiscontinuity, last);
      pendingDiscontinuity := false;
    }

    method Advance(c: Config, start: int, position: nat, sequence: nat, deadline: int, now: int, ghost slot: nat)
      returns (position': nat, sequence': nat, deadline': int)
      requires c.pacing ==> c.interval > 0 && deadline == start + Ticks(c.interval, slot)
      requires position == Frames(c, slot) && !pendingDiscontinuity
      modifies this
      ensures var next := NextSlot(c, start, slot, now);
              && position' == Frames(c, next) && sequence' == sequence + next - slot
              && (c.pacing ==> deadline' == start + Ticks(c.interval, next))
              && pendingDiscontinuity == (next != slot + 1)
    {
      position', sequence', deadline' := position + c.framesPerPacket, sequence + 1, deadline;
      FramesAdd(c, slot, 1);
      if c.pacing {
        var missed;
        deadline', missed := Pace(c.interval, start, deadline, now, slot);
        FramesAdd(c, slot + 1, missed);
        if missed > 0 {
          position', sequence' := position' + missed * c.framesPerPacket, sequence' + missed;
          pendingDiscontinuity := true;
        }
      }
    }

    /** Moves the deadline on by one interval, and further past missed ones. */
    method Pace(interval: nat, start: int, deadline: int, now: int, ghost slot: nat)
      returns (next: int, missed: nat)
      requires interval > 0 && deadline == start + Ticks(interval, slot)
      ensures next == start + Ticks(interval, slot + 1 + missed)
      ensures slot + 1 + missed == if (now - start) / interval > slot + 1 then (now - start) / interval else slot + 1
      ensures now - next < interval && (missed > 0 ==> now >= next)
    {
      next, missed := deadline + interval, 0;
      TicksAdd(interval, slot, 1);
      MissedIntervals(interval, start, slot + 1, now);
      var remaining := next - now;
      if remaining <= 0 {
        missed := -remaining / interval;
        TicksAdd(interval, slot + 1, missed);
        next := next + missed * interval;
      }
    }
  }

  /** Sequence numbers left out before packet `k` is built. */
  function SkipsBefore(c: Config, k: nat): nat {
    if k == 0 then 0 else Skips(c, k - 1)
  }

  // ---- What the packets promise ----

  /** Position and sequence number stay in lockstep, apart from one left-out number. */
  lemma PositionInLockstep(c: Config, start: int, script: seq<Tick>, pending: bool, k: nat)
    requires c.pacing ==> c.interval > 0
    requires k < |script|
    ensures var p := PacketAt(c, start, script, pending, k);
            p.sequence >= Skips(c, k) && p.position == c.framesPerPacket * (p.sequence - Skips(c, k))
  {
    var slot := Slot(c, start, script, k);
    assert PacketAt(c, start, script, pending, k).sequence - Skips(c, k) == slot;
  }

  /** After pacing the clock is less than one interval behind the packet's slot,
      and a slot is jumped over only when the clock has reached the new one. The
      slot gives the position and, but for a number left out, the sequence. */
  lemma LagUnderOneInterval(c: Config, start: int, script: seq<Tick>, pending: bool, k: nat)
    requires c.pacing && c.interval > 0 && 0 < k < |script|
    ensures var slot, before, now := Slot(c, start, script, k), Slot(c, start, script, k - 1), script[k - 1].now;
            && now - (start + c.interval * slot) < c.interval
            && slot >= before + 1
            && (slot > before + 1 ==> start + c.interval * slot <= now)
    ensures var p, slot := PacketAt(c, start, script, pending, k), Slot(c, start, script, k);
            p.position == c.framesPerPacket * slot && p.sequence == slot + Skips(c, k)
  {
    var slot, now := Slot(c, start, script, k), script[k - 1].now;
    MissedIntervals(c.interval, start, slot, now);
    TicksAdd(c.interval, slot, 1);
    MissedIntervals(c.interval, start, slot + 1, now);
  }

  /** Without pacing the packets follow one another without a gap, but for the one
      number left out from the middle of the run on. */
  lemma {:induction false} UnpacedSequence(c: Config, start: int, script: seq<Tick>, pending: bool, k: nat)
    requires !c.pacing && k < |script|
    ensures var p := PacketAt(c, start, script, pending, k);
            && p.position == c.framesPerPacket * k
            && (c.totalPackets > 0 ==>
                  p.sequence == k + if c.mode == OneSkippedSequence && c.totalPackets <= 2 * k + 1 then 1 else 0)
  {
    UnpacedSlot(c, start, script, k);
  }

  lemma {:induction false} UnpacedSlot(c: Config, start: int, script: seq<Tick>, k: nat)
    requires !c.pacing && k <= |script|
    ensures Slot(c, start, script, k) == k
  {
    if k > 0 {
      UnpacedSlot(c, start, script, k - 1);
    }
  }

  /** What the mode makes of packet `k` of a finite run: which packets are silent,
      which are marked, which one's timestamp jumps by 100 ms. */
  lemma ModeMeans(c: Config, start: int, script: seq<Tick>, pending: bool, k: nat)
    requires c.pacing ==> c.interval > 0
    requires k < |script| && 0 < c.totalPackets < UINT32_SIZE / 2
    ensures var p, n := PacketAt(c, start, script, pending, k), c.totalPackets;
            && (p.isSilent <==> c.mode == Silence || (c.mode == ToneSilenceTone && n < 3 * k + 3 <= 2 * n))
            && p.content == (if p.isSilent then Zeros else Tone(p.position))
            && p.timestamp - script[k].stamp ==
                 (if c.mode == OneDiscontinuity && 2 * k <= n <= 2 * k + 1 then 1_000_000 else 0)
            && (c.mode == ToneSilenceTone && 3 * k <= n < 3 * k + 3 <= 2 * n ==> p.isDiscontinuous)
            && (c.mode in {OneDiscontinuity, OneSkippedSequence} && 2 * k <= n <= 2 * k + 1 ==> p.isDiscontinuous)
            && (p.isEndOfStream <==> c.mode == EndOfStream && k + 1 == n)
  {
    assert SilenceEnd(c) == 2 * c.totalPackets / 3;
  }

  /** Nothing else marks a packet: not the first one, nor any without a gap. */
  lemma OnlyEventsMark(c: Config, start: int, script: seq<Tick>, k: nat)
    requires !c.pacing && k < |script| && 0 < c.totalPackets < UINT32_SIZE / 2
    ensures var p, n := PacketAt(c, start, script, false, k), c.totalPackets;
            p.isDiscontinuous <==>
            || (c.mode == ToneSilenceTone && 3 * k <= n < 3 * k + 3 <= 2 * n)
            || (c.mode in {OneDiscontinuity, OneSkippedSequence} && 2 * k <= n <= 2 * k + 1)
  {
    UnpacedSlot(c, start, script, k);
    if k > 0 {
      UnpacedSlot(c, start, script, k - 1);
    }
    assert SilenceEnd(c) == 2 * c.totalPackets / 3;
  }

  /** A packet after the first is discontinuous if and only if its sequence
      number does not follow on, or its mode marks it. */
  lemma DiscontinuousIffGapOrMarked(c: Config, start: int, script: seq<Tick>, pending: bool, k: nat)
    requires c.pacing ==> c.interval > 0
    requires 0 < k < |script|
    ensures var p, q := PacketAt(c, start, script, pending, k - 1), PacketAt(c, start, script, pending, k);
            && p.sequence < q.sequence
            && (q.isDiscontinuous <==> q.sequence != p.sequence + 1 || IsMarkedAt(c, k))
  {
  }

  /** In a finite run that is never rejected, exactly the last packet ends the stream. */
  lemma EndOfStreamIsLast(c: Config, start: int, script: seq<Tick>, pending: bool, packets: seq<Packet>, k: nat)
    requires c.pacing ==> c.interval > 0
    requires Delivered(c, start, script, pending, packets) && |packets| == PacketCount(c, script)
    requires c.mode.EndOfStream? && 0 < c.totalPackets <= Accepted(script)
    requires k < |packets|
    ensures packets[k].isEndOfStream <==> k == |packets| - 1
  {
    assert packets[k] == PacketAt(c, start, script, pending, k);
  }
}
