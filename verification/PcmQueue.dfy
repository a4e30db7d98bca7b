/** The PCM packet queue between the capture callbacks and the pipe writer. */
module PcmQueue {
  import opened Base
  import opened FifoHistory

  const PCM_MAGIC: uint32 := 0x50434D21
  const PCM_HEADER_BYTES: int := 68
  const PCM_WIRE_VERSION: int := 1
  const HARD_QUEUE_AGE_LIMIT_US: int := 250_000
  const MAX_PCM_FRAMES_PER_PACKET: int := 960
  const MAX_PCM_FRAME_BYTES: int := MAX_PCM_FRAMES_PER_PACKET * 2 * 4
  const MAX_PCM_PACKET_BYTES: int := PCM_HEADER_BYTES + MAX_PCM_FRAME_BYTES

  datatype PcmHeader = PcmHeader(
    magic: uint32,
    headerSize: nat,
    wireVersion: nat,
    qpcTimestamp: uint64,
    qpcFrequency: uint64,
    sampleRate: uint32,
    channels: nat,
    sampleFormat: nat,
    frameCount: uint32,
    payloadBytes: uint32,
    streamGeneration: uint32)

  datatype PcmPacket = PcmPacket(header: PcmHeader, payload: seq<real>)

  /** A 64-bit pattern read as a signed number. */
  function AsSigned64(n: uint64): int {
    if n < UINT64_SIZE / 2 then n else n - UINT64_SIZE
  }

  /** Whether a packet has outlived the hard limit, with the multiplication
      taken modulo 2^64 as the helper computes it. */
  predicate IsOverAge(header: PcmHeader, now: int) {
    var stamped := AsSigned64(header.qpcTimestamp);
    var age := if now > stamped then (now - stamped) % UINT64_SIZE else 0;
    && header.qpcTimestamp != 0
    && header.qpcFrequency > 0
    && age * 1_000_000 % UINT64_SIZE / header.qpcFrequency >= HARD_QUEUE_AGE_LIMIT_US
  }

  /** Number of leading packets the age limit evicts. */
  function OverAgePrefix(queue: seq<PcmPacket>, now: int): (k: nat)
    ensures k <= |queue|
    ensures forall i :: 0 <= i < k ==> IsOverAge(queue[i].header, now)
    ensures k < |queue| ==> !IsOverAge(queue[k].header, now)
  {
    if queue == [] || !IsOverAge(queue[0].header, now) then 0
    else 1 + OverAgePrefix(queue[1..], now)
  }

  /** How many packets make room for one arrival: the over-age ones, then as
      many more as the capacity demands. */
  function Evicted(queue: seq<PcmPacket>, now: int, capacity: nat): (k: nat)
    requires capacity > 0
    ensures k <= |queue| && |queue| - k < capacity
  {
    var aged := OverAgePrefix(queue, now);
    if |queue| - aged >= capacity then |queue| - capacity + 1 else aged
  }

  /** The clock readings stay within what the 64-bit arithmetic can take. */
  predicate NoWrap(h: PcmHeader, now: int) {
    h.qpcTimestamp < UINT64_SIZE / 2 && (now - h.qpcTimestamp) * 1_000_000 < UINT64_SIZE
  }

  /** Then over age means: stamped, and at least a quarter of a second old. */
  lemma OverAgeMeans(h: PcmHeader, now: int)
    requires NoWrap(h, now)
    ensures IsOverAge(h, now) <==>
            h.qpcTimestamp != 0 && h.qpcFrequency != 0 && 4 * (now - h.qpcTimestamp) >= h.qpcFrequency
  {
    if now > h.qpcTimestamp && h.qpcFrequency != 0 {
      var age := now - h.qpcTimestamp;
      NoRemainder(age, UINT64_SIZE);
      NoRemainder(age * 1_000_000, UINT64_SIZE);
      QuotientAtLeast(age * 1_000_000, h.qpcFrequency, HARD_QUEUE_AGE_LIMIT_US);
    }
  }

  lemma NoRemainder(x: nat, m: nat)
    requires x < m
    ensures x % m == x
  {
  }

  lemma QuotientAtLeast(x: nat, d: nat, q: nat)
    requires d > 0
    ensures x / d >= q <==> x >= q * d
  {
    var r := x % d;
    assert x == x / d * d + r;
    if x / d >= q {
      MulMonotone(q, x / d, d);
    } else {
      MulMonotone(x / d + 1, q, d);
    }
  }

  lemma MulMonotone(a: nat, b: nat, d: nat)
    requires a <= b
    ensures a * d <= b * d
  {
  }

  /** What an arrival drops, in plain times: all leading packets of at least 250
      ms, and any other one only where the queue would be over its capacity. */
  lemma ArrivalDrops(queue: seq<PcmPacket>, now: int, capacity: nat, k: nat)
    requires capacity > 0 && k <= |queue| && forall p :: p in queue ==> NoWrap(p.header, now)
    ensures (forall i :: 0 <= i < k ==>
              && queue[i].header.qpcTimestamp != 0 && queue[i].header.qpcFrequency != 0
              && 4 * (now - queue[i].header.qpcTimestamp) >= queue[i].header.qpcFrequency) ==>
              Evicted(queue, now, capacity) >= k
    ensures k < Evicted(queue, now, capacity) && |queue| < capacity ==>
              && queue[k].header.qpcTimestamp != 0 && queue[k].header.qpcFrequency != 0
              && 4 * (now - queue[k].header.qpcTimestamp) >= queue[k].header.qpcFrequency
    ensures k < Evicted(queue, now, capacity)
            && 4 * (now - queue[k].header.qpcTimestamp) < queue[k].header.qpcFrequency ==>
              |queue| - Evicted(queue, now, capacity) == capacity - 1
  {
    var aged := OverAgePrefix(queue, now);
    if aged < |queue| {
      OverAgeMeans(queue[aged].header, now);
    }
    if k < aged {
      OverAgeMeans(queue[k].header, now);
    }
  }

  class PcmPacketQueue {
    const maxPackets: nat
    var queue: seq<PcmPacket>
    var droppedCount: uint32
    ghost var pushed: seq<PcmPacket>
    ghost var fates: seq<Fate>

    ghost predicate Valid()
      reads this
    {
      && maxPackets > 0
      && |queue| <= maxPackets
      && Accounts(pushed, fates, queue)
      && CountFate(fates, Cleared) == 0
      && droppedCount == CountFate(fates, Dropped) % UINT32_SIZE
    }

    /** Packets handed to the pipe writer since the last reset. */
    ghost function Popped(): seq<PcmPacket>
      requires Valid()
      reads this
    {
      TakenFrom(pushed, fates)
    }

    constructor (capacity: nat)
      ensures Valid() && queue == [] && Popped() == []
      ensures maxPackets == if capacity > 0 then capacity else 1
    {
      maxPackets := if capacity > 0 then capacity else 1;
      queue, droppedCount, pushed, fates := [], 0, [], [];
    }

    method DropFront()
      requires Valid() && queue != []
      modifies this`queue, this`droppedCount, this`fates
      ensures Valid()
      ensures queue == old(queue)[1..] && fates == old(fates) + [Dropped]
      ensures Popped() == old(Popped())
    {
      AppendFate(pushed, fates, Dropped);
      fates := fates + [Dropped];
      queue := queue[1..];
      droppedCount := (droppedCount + 1) % UINT32_SIZE;
    }

    method EvictOverAge(now: int)
      requires Valid()
      modifies this`queue, this`droppedCount, this`fates
      ensures Valid()
      ensures queue == old(queue)[OverAgePrefix(old(queue), now)..]
      ensures fates == old(fates) + Repeat(Dropped, OverAgePrefix(old(queue), now))
      ensures Popped() == old(Popped())
    {
      ghost var before := queue;
      ghost var k := 0;
      while queue != [] && IsOverAge(queue[0].header, now)
        invariant Valid() && k <= |before| && queue == before[k..]
        invariant k + OverAgePrefix(queue, now) == OverAgePrefix(before, now)
        invariant fates == old(fates) + Repeat(Dropped, k)
        invariant Popped() == old(Popped())
        decreases |queue|
      {
        RepeatNext(old(fates), Dropped, k);
        DropFront();
        k := k + 1;
      }
    }

    method EvictExcess()
      requires Valid()
      modifies this`queue, this`droppedCount, this`fates
      ensures Valid()
      ensures var k := if |old(queue)| >= maxPackets then |old(queue)| - maxPackets + 1 else 0;
              queue == old(queue)[k..] && fates == old(fates) + Repeat(Dropped, k)
      ensures Popped() == old(Popped())
    {
      ghost var before := queue;
      ghost var k := 0;
      while |queue| >= maxPackets
        invariant Valid() && k <= |before| && queue == before[k..]
        invariant k > 0 ==> |before| - k >= maxPackets - 1
        invariant fates == old(fates) + Repeat(Dropped, k)
        invariant Popped() == old(Popped())
        decreases |queue|
      {
        RepeatNext(old(fates), Dropped, k);
        DropFront();
        k := k + 1;
      }
    }

    method Push(packet: PcmPacket, now: int)
      requires Valid()
      modifies this
      ensures Valid()
      ensures queue == old(queue)[Evicted(old(queue), now, maxPackets)..] + [packet]
      ensures pushed == old(pushed) + [packet]
      ensures fates == old(fates) + Repeat(Dropped, Evicted(old(queue), now, maxPackets))
      ensures Popped() == old(Popped())
    {
      EvictOverAge(now);
      EvictExcess();
      RepeatMore(old(fates), Dropped, OverAgePrefix(old(queue), now), Evicted(old(queue), now, maxPackets));
      ArrivalKeepsTaken(pushed, fates, packet);
      ArrivalAccounts(pushed, fates, queue, packet);
      queue := queue + [packet];
      pushed := pushed + [packet];
    }

    method TryPop() returns (packet: Option<PcmPacket>)
      requires Valid()
      modifies this
      ensures Valid() && pushed == old(pushed)
      ensures old(queue) == [] ==> packet == None && queue == [] && Popped() == old(Popped())
      ensures old(queue) != [] ==>
                packet == Some(old(queue)[0]) && queue == old(queue)[1..]
                && Popped() == old(Popped()) + [old(queue)[0]]
      ensures droppedCount == old(droppedCount)
    {
      if queue == [] {
        return None;
      }
      packet := Some(queue[0]);
      AppendFate(pushed, fates, Taken);
      fates := fates + [Taken];
      queue := queue[1..];
    }

    method Reset()
      requires Valid()
      modifies this
      ensures Valid() && queue == [] && pushed == [] && droppedCount == 0
    {
      queue, droppedCount := [], 0;
      pushed, fates := [], [];
    }

    /** Between resets: pushed = popped + dropped + queued, and the reader sees
        an in-order subsequence of what was pushed before the packets still queued. */
    lemma Bookkeeping() returns (at: seq<nat>)
      requires Valid()
      ensures |pushed| == |Popped()| + CountFate(fates, Dropped) + |queue|
      ensures queue == pushed[|pushed| - |queue|..]
      ensures Embeds(Popped(), pushed[..|pushed| - |queue|], at)
    {
      Conservation(pushed, fates, queue);
      at := TakenIsSubsequence(pushed, fates);
    }
  }

  // ---- Header validation ----

  predicate ValidPcmHeader(h: PcmHeader) {
    && h.magic == PCM_MAGIC
    && h.headerSize == PCM_HEADER_BYTES
    && h.wireVersion == PCM_WIRE_VERSION
    && h.sampleRate != 0
    && h.channels != 0
    && h.sampleFormat == 0
    && h.frameCount != 0
    && h.frameCount <= MAX_PCM_FRAMES_PER_PACKET
    && h.frameCount * h.channels * 4 <= MAX_PCM_FRAME_BYTES
    && h.frameCount * h.channels * 4 == h.payloadBytes
    && h.payloadBytes <= MAX_PCM_FRAME_BYTES
  }

  /** A header the reader accepts fits its buffer and carries whole frames. */
  lemma ValidHeaderFitsPacket(h: PcmHeader)
    requires ValidPcmHeader(h)
    ensures PCM_HEADER_BYTES < PCM_HEADER_BYTES + h.payloadBytes <= MAX_PCM_PACKET_BYTES
    ensures h.payloadBytes % (4 * h.channels) == 0
    ensures h.payloadBytes / (4 * h.channels) == h.frameCount
    ensures h.channels <= 1920
  {
    var frameBytes := 4 * h.channels;
    assert h.payloadBytes == h.frameCount * frameBytes;
    MulAtLeast(h.frameCount, frameBytes);
    DivModUnique(h.payloadBytes, h.frameCount, 0, frameBytes);
  }

  /** In terms of its fields: the checks leave 1 to 960 frames of at most 1920
      samples of four bytes, all of them in the payload. */
  lemma HeaderAcceptedIff(h: PcmHeader)
    ensures ValidPcmHeader(h) <==>
            && h.magic == 0x50434D21 && h.headerSize == 68 && h.wireVersion == 1 && h.sampleFormat == 0
            && h.sampleRate > 0 && h.channels > 0 && 1 <= h.frameCount <= 960
            && h.frameCount * h.channels <= 1920 && h.payloadBytes == 4 * (h.frameCount * h.channels)
  {
  }
}
