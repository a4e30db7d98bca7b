/** The mixer: a slot table of capture sources, each with a bounded FIFO. */
module MixerQueue {
  import opened Base
  import opened FifoHistory
  import opened MixMath
  import opened MixBlock

  const MAX_QUEUE_PACKETS: nat := 4
  const MAX_PACKET_AGE_MS: int := 500

  /** A packet as the capture callback delivers it; `None` frames is a null pointer. */
  datatype AudioPacket = AudioPacket(
    frames: Option<seq<real>>,
    frameCount: uint32,
    channels: uint32,
    sequenceNumber: uint64,
    isSilent: bool,
    isDiscontinuous: bool)
  {
    /** The frame pointer, if any, covers the samples the header announces. */
    predicate Readable() {
      frames.Some? ==> |frames.value| == frameCount * channels
    }
  }

  datatype QueuedPacket = QueuedPacket(header: AudioPacket, frameData: seq<real>, enqueuedAt: int) {
    predicate Valid() {
      frameData == [] || |frameData| == header.frameCount * header.channels
    }
  }

  function OwnedCopy(packet: AudioPacket, now: int): (r: QueuedPacket)
    requires packet.Readable()
    ensures r.Valid()
  {
    QueuedPacket(
      packet.(frames := None),
      if packet.frames.Some? && packet.frameCount > 0 then packet.frames.value else [],
      now)
  }

  /** A full queue loses its oldest packet before the next one enters. */
  function MakeRoom(queue: seq<QueuedPacket>): seq<QueuedPacket> {
    if |queue| >= MAX_QUEUE_PACKETS then queue[1..] else queue
  }

  /** An arrival costs a packet only when four are queued, and then the oldest. */
  lemma ArrivalKeepsNewest(queue: seq<QueuedPacket>, p: QueuedPacket)
    requires |queue| <= 4
    ensures var after, all := MakeRoom(queue) + [p], queue + [p];
            |after| == (if |all| <= 4 then |all| else 4) && after == all[|all| - |after|..]
  {
  }

  predicate IsStale(p: QueuedPacket, mixNow: int) {
    WholeMs(mixNow - p.enqueuedAt) > MAX_PACKET_AGE_MS
  }

  function StalePrefix(queue: seq<QueuedPacket>, mixNow: int): (k: nat)
    ensures k <= |queue|
    ensures forall i :: 0 <= i < k ==> IsStale(queue[i], mixNow)
    ensures k < |queue| ==> !IsStale(queue[k], mixNow)
  {
    if queue == [] || !IsStale(queue[0], mixNow) then 0 else 1 + StalePrefix(queue[1..], mixNow)
  }

  /** The clock did not run backwards between the arrivals. */
  ghost predicate ClockOrdered(s: seq<QueuedPacket>) {
    forall i, j :: 0 <= i <= j < |s| ==> s[i].enqueuedAt <= s[j].enqueuedAt
  }

  ghost predicate Contributes(c: Contribution, p: QueuedPacket) {
    && c.hasData
    && c.frameData == p.frameData
    && c.frameCount == p.header.frameCount
    && c.channels == p.header.channels
    && c.isDiscontinuous == p.header.isDiscontinuous
    && (c.isSilent <==> !HasAudible(p.frameData))
  }

  /** What a mixing interval takes from one source's queue, and what it leaves. */
  ghost predicate Collected(c: Contribution, queue: seq<QueuedPacket>, left: seq<QueuedPacket>, mixNow: int) {
    var k := StalePrefix(queue, mixNow);
    && left == Remaining(queue, mixNow)
    && if k == |queue| then c == NO_CONTRIBUTION else Contributes(c, queue[k])
  }

  function Remaining(queue: seq<QueuedPacket>, mixNow: int): seq<QueuedPacket> {
    var k := StalePrefix(queue, mixNow);
    if k == |queue| then [] else queue[k + 1..]
  }

  ghost predicate NextIsAudible(queue: seq<QueuedPacket>, mixNow: int) {
    var k := StalePrefix(queue, mixNow);
    k < |queue| && HasAudible(queue[k].frameData)
  }

  /** With an ordered clock, purging stale packets from the front purges them all. */
  lemma RemainingIsFresh(fed: seq<QueuedPacket>, queue: seq<QueuedPacket>, mixNow: int)
    requires ClockOrdered(fed) && |queue| <= |fed| && queue == fed[|fed| - |queue|..]
    ensures forall p :: p in Remaining(queue, mixNow) ==> !IsStale(p, mixNow)
  {
    var k := StalePrefix(queue, mixNow);
    forall i | k <= i < |queue| ensures !IsStale(queue[i], mixNow) {
      AgeMonotone(mixNow, queue[k].enqueuedAt, queue[i].enqueuedAt);
    }
  }

  lemma AgeMonotone(now: int, earlier: int, later: int)
    requires earlier <= later
    ensures WholeMs(now - later) <= WholeMs(now - earlier)
  {
  }

  /** What one interval does, by the age of the packets: those more than 500 ms
      old at the front go, the next one is mixed unless it is silent, and the
      rest stays. */
  lemma CollectedByAge(c: Contribution, queue: seq<QueuedPacket>, left: seq<QueuedPacket>, mixNow: int) returns (k: nat)
    requires Collected(c, queue, left, mixNow)
    ensures k <= |queue|
    ensures forall i :: 0 <= i < k ==> WholeMs(mixNow - queue[i].enqueuedAt) > 500
    ensures k == |queue| ==> left == [] && !IsMixed(c)
    ensures k < |queue| ==>
              && WholeMs(mixNow - queue[k].enqueuedAt) <= 500 && left == queue[k + 1..]
              && c.frameData == queue[k].frameData
              && c.frameCount == queue[k].header.frameCount && c.channels == queue[k].header.channels
              && c.isDiscontinuous == queue[k].header.isDiscontinuous
              && (IsMixed(c) <==> exists x :: x in queue[k].frameData && (x < -0.00000001 || x > 0.00000001))
  {
    k := StalePrefix(queue, mixNow);
    if k < |queue| {
      SilentMeansTiny(queue[k].frameData);
    }
  }

  /** The packet, if any, that a mixing interval hands to the mix. */
  function Offered(queue: seq<QueuedPacket>, mixNow: int): seq<QueuedPacket> {
    var k := StalePrefix(queue, mixNow);
    if k == |queue| then [] else [queue[k]]
  }

  /** Fates decided by one mixing interval. */
  ghost function CollectFates(queue: seq<QueuedPacket>, mixNow: int): seq<Fate> {
    var k := StalePrefix(queue, mixNow);
    Repeat(Dropped, k) + if k == |queue| then [] else [Taken]
  }

  lemma CollectFatesInOrder(fates: seq<Fate>, queue: seq<QueuedPacket>, mixNow: int)
    ensures var k := StalePrefix(queue, mixNow);
            fates + CollectFates(queue, mixNow) ==
            if k == |queue| then fates + Repeat(Dropped, k) else fates + Repeat(Dropped, k) + [Taken]
  {
  }

  method Measure(qp: QueuedPacket) returns (c: Contribution)
    requires qp.Valid()
    ensures Contributes(c, qp) && WellFormed(c)
  {
    var energy := MeasurePacketEnergy(qp.frameData);
    c := Contribution(qp.frameData, qp.header.frameCount, qp.header.channels,
                      true, !energy.HasAudibleSamples(), qp.header.isDiscontinuous);
  }

  class CaptureSource {
    const sourceId: uint32
    const pid: uint32
    const creationTime: uint64
    var queue: seq<QueuedPacket>
    var droppedPackets: nat
    var missingPackets: nat
    var discontinuities: nat
    var lastSequence: Option<uint64>
    ghost var fed: seq<QueuedPacket>
    ghost var fates: seq<Fate>

    ghost predicate Valid()
      reads this
    {
      && |queue| <= MAX_QUEUE_PACKETS
      && Accounts(fed, fates, queue)
      && droppedPackets == CountFate(fates, Dropped)
      && forall p :: p in queue ==> p.Valid()
    }

    ghost function Consumed(): seq<QueuedPacket>
      requires Valid()
      reads this
    {
      TakenFrom(fed, fates)
    }

    constructor (id: uint32, pid: uint32, creationTime: uint64)
      ensures Valid() && queue == [] && fed == []
      ensures sourceId == id && this.pid == pid && this.creationTime == creationTime
    {
      sourceId, this.pid, this.creationTime := id, pid, creationTime;
      queue, droppedPackets, missingPackets, discontinuities := [], 0, 0, 0;
      lastSequence, fed, fates := None, [], [];
    }

    method DropFront()
      requires Valid() && queue != []
      modifies this`queue, this`droppedPackets, this`fates
      ensures Valid()
      ensures queue == old(queue)[1..] && fates == old(fates) + [Dropped]
      ensures Consumed() == old(Consumed())
    {
      AppendFate(fed, fates, Dropped);
      fates := fates + [Dropped];
      queue := queue[1..];
      droppedPackets := droppedPackets + 1;
    }

    /** Appends a packet, dropping the oldest one from a full queue. */
    method Feed(packet: AudioPacket, now: int)
      requires Valid() && packet.Readable()
      modifies this
      ensures Valid()
      ensures fed == old(fed) + [OwnedCopy(packet, now)]
      ensures queue == MakeRoom(old(queue)) + [OwnedCopy(packet, now)]
      ensures fates == if |old(queue)| == MAX_QUEUE_PACKETS then old(fates) + [Dropped] else old(fates)
      ensures Consumed() == old(Consumed())
      ensures discontinuities == old(discontinuities) +
              if old(lastSequence).Some?
                 && packet.sequenceNumber != (old(lastSequence).value + 1) % UINT64_SIZE then 1 else 0
      ensures lastSequence == Some(packet.sequenceNumber)
    {
      var qp := OwnedCopy(packet, now);
      if lastSequence.Some? && packet.sequenceNumber != (lastSequence.value + 1) % UINT64_SIZE {
        discontinuities := discontinuities + 1;
      }
      lastSequence := Some(packet.sequenceNumber);
      if |queue| >= MAX_QUEUE_PACKETS {
        DropFront();
      }
      ArrivalKeepsTaken(fed, fates, qp);
      ArrivalAccounts(fed, fates, queue, qp);
      queue := queue + [qp];
      fed := fed + [qp];
    }

    method PurgeStale(mixNow: int)
      requires Valid()
      modifies this`queue, this`droppedPackets, this`fates
      ensures Valid()
      ensures queue == old(queue)[StalePrefix(old(queue), mixNow)..]
      ensures fates == old(fates) + Repeat(Dropped, StalePrefix(old(queue), mixNow))
      ensures Consumed() == old(Consumed())
    {
      ghost var before := queue;
      ghost var k := 0;
      while queue != [] && IsStale(queue[0], mixNow)
        invariant Valid() && k <= |before| && queue == before[k..]
        invariant k + StalePrefix(queue, mixNow) == StalePrefix(before, mixNow)
        invariant fates == old(fates) + Repeat(Dropped, k)
        invariant Consumed() == old(Consumed())
        decreases |queue|
      {
        RepeatNext(old(fates), Dropped, k);
        DropFront();
        k := k + 1;
      }
    }

    method TakeFront() returns (qp: QueuedPacket)
      requires Valid() && queue != []
      modifies this`queue, this`fates
      ensures Valid() && qp == old(queue)[0]
      ensures queue == old(queue)[1..] && fates == old(fates) + [Taken]
      ensures Consumed() == old(Consumed()) + [qp]
    {
      qp := queue[0];
      AppendFate(fed, fates, Taken);
      fates := fates + [Taken];
      queue := queue[1..];
    }

    /** One mixing interval: purge what is stale, then take the oldest packet. */
    method Collect(mixNow: int) returns (c: Contribution)
      requires Valid()
      modifies this
      ensures Valid() && fed == old(fed)
      ensures Collected(c, old(queue), queue, mixNow) && WellFormed(c)
      ensures fates == old(fates + CollectFates(queue, mixNow))
      ensures Consumed() == old(Consumed()) + Offered(old(queue), mixNow)
    {
      CollectFatesInOrder(fates, queue, mixNow);
      ghost var decided := fates + CollectFates(queue, mixNow);
      PurgeStale(mixNow);
      if queue == [] {
        missingPackets := missingPackets + 1;
        c := NO_CONTRIBUTION;
      } else {
        c := Consume();
        assert fates == decided;
      }
    }

    method Consume() returns (c: Contribution)
      requires Valid() && queue != []
      modifies this
      ensures Valid() && fed == old(fed)
      ensures Contributes(c, old(queue)[0]) && WellFormed(c)
      ensures queue == old(queue)[1..] && fates == old(fates) + [Taken]
      ensures Consumed() == old(Consumed()) + [old(queue)[0]]
    {
      var qp := TakeFront();
      if qp.header.isDiscontinuous {
        discontinuities := discontinuities + 1;
      }
      c := Measure(qp);
    }

    method Clear()
      requires Valid()
      modifies this
      ensures Valid() && queue == [] && fed == old(fed)
      ensures fates == old(fates) + Repeat(Cleared, |old(queue)|)
      ensures Consumed() == old(Consumed())
    {
      AppendFates(fed, fates, Cleared, |queue|);
      fates := fates + Repeat(Cleared, |queue|);
      queue := [];
    }

    /** fed = consumed + dropped + cleared + queued, and what was consumed is an
        in-order subsequence of what was fed ahead of the queue. */
    lemma Bookkeeping() returns (at: seq<nat>)
      requires Valid()
      ensures |fed| == |Consumed()| + droppedPackets + CountFate(fates, Cleared) + |queue|
      ensures queue == fed[|fed| - |queue|..] && |queue| <= MAX_QUEUE_PACKETS
      ensures Embeds(Consumed(), fed[..|fed| - |queue|], at)
    {
      Conservation(fed, fates, queue);
      at := TakenIsSubsequence(fed, fates);
    }
  }
}

module MultiSourceMixer {
  import opened Base
  import opened SlotTable
  import opened MixMath
  import opened MixBlock
  import opened MixerQueue

  ghost function IdsOf(sources: seq<CaptureSource>): (r: seq<uint32>)
    ensures |r| == |sources|
  {
    seq(|sources|, i requires 0 <= i < |sources| => sources[i].sourceId)
  }

  lemma IdsOfPush(sources: seq<CaptureSource>, s: CaptureSource)
    ensures IdsOf(sources + [s]) == IdsOf(sources) + [s.sourceId]
  {
  }

  lemma IdsOfRemove(sources: seq<CaptureSource>, k: nat, id: uint32)
    requires k < |sources| && sources[k].sourceId == id
    requires forall j :: 0 <= j < k ==> sources[j].sourceId != id
    ensures IdsOf(sources[..k] + sources[k + 1..]) == RemoveFirst(IdsOf(sources), id)
  {
    var ids := IdsOf(sources);
    RemoveFirstAt(ids, k, id);
    assert IdsOf(sources[..k] + sources[k + 1..]) == ids[..k] + ids[k + 1..];
  }

  ghost function QueuesOf(sources: seq<CaptureSource>): (r: seq<seq<QueuedPacket>>)
    reads sources
    ensures |r| == |sources| && forall i :: 0 <= i < |sources| ==> r[i] == sources[i].queue
  {
    if sources == [] then [] else QueuesOf(sources[..|sources| - 1]) + [sources[|sources| - 1].queue]
  }

  /** Of the sources with these queues, how many have an audible packet to give. */
  ghost function CountAudibleNext(queues: seq<seq<QueuedPacket>>, mixNow: int): nat {
    if queues == [] then 0
    else
      var n := |queues| - 1;
      CountAudibleNext(queues[..n], mixNow) + if NextIsAudible(queues[n], mixNow) then 1 else 0
  }

  lemma {:induction false} MixedAreAudible(cs: seq<Contribution>, queues: seq<seq<QueuedPacket>>, mixNow: int)
    requires |cs| == |queues|
    requires forall i :: 0 <= i < |cs| ==> Collected(cs[i], queues[i], Remaining(queues[i], mixNow), mixNow)
    ensures CountMixed(cs) == CountAudibleNext(queues, mixNow)
  {
    if cs != [] {
      var n := |cs| - 1;
      MixedAreAudible(cs[..n], queues[..n], mixNow);
      assert Collected(cs[n], queues[n], Remaining(queues[n], mixNow), mixNow);
    }
  }

  class MultiSourceMixer {
    const channels: nat
    const framesPerPacket: nat := 480
    var sources: seq<CaptureSource>
    var nextSourceId: uint32
    ghost var issued: nat

    ghost predicate Valid()
      reads this, sources
    {
      && channels > 0
      && |sources| <= MAX_SOURCES
      && nextSourceId == (1 + issued) % UINT32_SIZE
      && (forall i, j :: 0 <= i < j < |sources| ==> sources[i] != sources[j])
      && forall s :: s in sources ==> s.Valid()
    }

    ghost function Sources(): set<CaptureSource>
      reads this
    {
      set s | s in sources
    }

    ghost function Table(): Slots
      reads this
    {
      Slots(IdsOf(sources), issued)
    }

    constructor (channels: nat)
      requires channels > 0
      ensures Valid() && Table() == Slots([], 0)
      ensures this.channels == channels
    {
      this.channels := channels;
      sources, nextSourceId, issued := [], 1, 0;
    }

    method AddSource(pid: uint32, creationTime: uint64) returns (id: uint32)
      requires Valid()
      modifies this
      ensures Valid()
      ensures (Table(), id) == AddSlot(old(Table()))
      ensures |old(sources)| == MAX_SOURCES ==> sources == old(sources)
      ensures |old(sources)| < MAX_SOURCES ==>
                && |sources| == |old(sources)| + 1 && sources[..|old(sources)|] == old(sources)
                && fresh(sources[|old(sources)|]) && sources[|old(sources)|].fed == []
                && sources[|old(sources)|].pid == pid && sources[|old(sources)|].creationTime == creationTime
      ensures fresh(Sources() - old(Sources()))
    {
      if |sources| >= MAX_SOURCES {
        return 0;
      }
      id := nextSourceId;
      var source := new CaptureSource(id, pid, creationTime);
      assert forall s :: s in sources ==> s != source && s.Valid();
      IdsOfPush(sources, source);
      sources := sources + [source];
      nextSourceId := (nextSourceId + 1) % UINT32_SIZE;
      issued := issued + 1;
    }

    method IndexOf(id: uint32) returns (k: nat)
      ensures k <= |sources|
      ensures forall j :: 0 <= j < k ==> sources[j].sourceId != id
      ensures k < |sources| ==> sources[k].sourceId == id
    {
      k := 0;
      while k < |sources| && sources[k].sourceId != id
        invariant k <= |sources|
        invariant forall j :: 0 <= j < k ==> sources[j].sourceId != id
      {
        k := k + 1;
      }
    }

    method RemoveSource(id: uint32)
      requires Valid()
      modifies this`sources, Sources()
      ensures Valid()
      ensures Table() == RemoveSlot(old(Table()), id)
      ensures Sources() <= old(Sources())
      ensures forall s :: s in sources ==> s in old(sources) && unchanged(s)
    {
      var k := IndexOf(id);
      if k == |sources| {
        RemoveAbsent(IdsOf(sources), id);
        return;
      }
      IdsOfRemove(sources, k, id);
      sources[k].Clear();
      sources := sources[..k] + sources[k + 1..];
    }

    /** Queues a packet with the source that owns the slot; packets for a slot
        that no longer exists are ignored. */
    method FeedPacket(id: uint32, packet: AudioPacket, now: int)
      requires Valid() && packet.Readable()
      modifies sources
      ensures Valid()
      ensures id !in IdsOf(sources) ==> forall s :: s in sources ==> unchanged(s)
      ensures id in IdsOf(sources) ==>
                exists k :: 0 <= k < |sources| && sources[k].sourceId == id
                  && (forall j :: 0 <= j < k ==> sources[j].sourceId != id)
                  && sources[k].fed == old(sources[k].fed) + [OwnedCopy(packet, now)]
                  && sources[k].queue == MakeRoom(old(sources[k].queue)) + [OwnedCopy(packet, now)]
                  && forall s :: s in sources && s != sources[k] ==> unchanged(s)
    {
      var k := IndexOf(id);
      assert forall i :: 0 <= i < |sources| ==> IdsOf(sources)[i] == sources[i].sourceId;
      if k < |sources| {
        sources[k].Feed(packet, now);
      }
    }

    method CollectAt(i: nat, mixNow: int) returns (c: Contribution)
      requires i < |sources| && sources[i].Valid()
      requires forall j, k :: 0 <= j < k < |sources| ==> sources[j] != sources[k]
      modifies sources[i]
      ensures WellFormed(c) && sources[i].Valid() && sources[i].fed == old(sources[i].fed)
      ensures Collected(c, old(sources[i].queue), sources[i].queue, mixNow)
      ensures forall j :: 0 <= j < |sources| && j != i ==> unchanged(sources[j])
    {
      c := sources[i].Collect(mixNow);
    }

    /** Takes at most one packet from every source. */
    method CollectContributions(mixNow: int) returns (cs: seq<Contribution>)
      requires Valid()
      modifies sources
      ensures Valid()
      ensures |cs| == |sources| && AllWellFormed(cs)
      ensures forall i :: 0 <= i < |sources| ==>
                Collected(cs[i], old(sources[i].queue), sources[i].queue, mixNow)
                && sources[i].fed == old(sources[i].fed)
    {
      cs := [];
      for i := 0 to |sources|
        invariant |cs| == i && AllWellFormed(cs)
        invariant forall j :: 0 <= j < |sources| ==> sources[j].Valid() && sources[j].fed == old(sources[j].fed)
        invariant forall j :: i <= j < |sources| ==> sources[j].queue == old(sources[j].queue)
        invariant forall j :: 0 <= j < i ==> Collected(cs[j], old(sources[j].queue), sources[j].queue, mixNow)
      {
        var c := CollectAt(i, mixNow);
        cs := cs + [c];
      }
    }

    /** The same, with the number of sources that have something to mix. */
    method CollectCounted(mixNow: int) returns (cs: seq<Contribution>)
      requires Valid()
      modifies sources
      ensures Valid()
      ensures |cs| == |sources| && AllWellFormed(cs)
      ensures forall i :: 0 <= i < |sources| ==> Collected(cs[i], old(sources[i].queue), sources[i].queue, mixNow)
      ensures CountMixed(cs) == CountAudibleNext(old(QueuesOf(sources)), mixNow)
    {
      ghost var queues := QueuesOf(sources);
      cs := CollectContributions(mixNow);
      forall i | 0 <= i < |cs| ensures Collected(cs[i], queues[i], Remaining(queues[i], mixNow), mixNow) {
        assert Collected(cs[i], queues[i], sources[i].queue, mixNow);
      }
      MixedAreAudible(cs, queues, mixNow);
    }

    /** One output block: collect, mix with headroom for the audible sources,
        clamp. `headroom` stands for 1/sqrt(n), for the n sources that have
        something audible to give, and is 1 for at most one source. */
    method MixOnce(mixNow: int, headroom: real, output: array<real>)
      returns (cs: seq<Contribution>, isSilent: bool, isDiscontinuous: bool)
      requires Valid()
      requires IsHeadroom(headroom, CountAudibleNext(QueuesOf(sources), mixNow))
      requires output.Length == framesPerPacket * channels
      modifies sources, output
      ensures Valid()
      ensures |cs| == |sources| && AllWellFormed(cs)
      ensures forall i :: 0 <= i < |sources| ==>
                Collected(cs[i], old(sources[i].queue), sources[i].queue, mixNow)
      ensures IsMixOfFrames(output[..], cs, channels, headroom)
      ensures forall i :: 0 <= i < output.Length ==> -1.0 <= output[i] <= 1.0
      ensures CountMixed(cs) == CountAudibleNext(old(QueuesOf(sources)), mixNow)
      ensures Energy(output[..]) <= SourceEnergy(cs)
      ensures isSilent <==> forall x :: x in output[..] ==> -0.00000001 <= x <= 0.00000001
      ensures isDiscontinuous <==> exists c :: c in cs && IsMixed(c) && c.isDiscontinuous
    {
      cs := CollectCounted(mixNow);
      assert Valid();
      isSilent, isDiscontinuous := RenderBlock(output, framesPerPacket, channels, cs, headroom);
    }
  }

  method RenderBlock(output: array<real>, frames: nat, width: nat, cs: seq<Contribution>, h: real)
    returns (isSilent: bool, isDiscontinuous: bool)
    requires width > 0 && output.Length == frames * width
    requires AllWellFormed(cs) && IsHeadroom(h, CountMixed(cs))
    modifies output
    ensures IsMixOfFrames(output[..], cs, width, h)
    ensures forall i :: 0 <= i < output.Length ==> -1.0 <= output[i] <= 1.0
    ensures Energy(output[..]) <= SourceEnergy(cs)
    ensures isSilent <==> forall x :: x in output[..] ==> -0.00000001 <= x <= 0.00000001
    ensures isDiscontinuous <==> AnyDiscontinuous(cs)
  {
    isDiscontinuous := MixContributions(output, frames, width, cs, h);
    var _ := ClampBlock(output);
    BlockEnergyBound(output[..], cs, width, h);
    MixedSamplesAreFrames(output[..], cs, width, h);
    var energy := MeasurePacketEnergy(output[..]);
    isSilent := !energy.HasAudibleSamples();
    SilentMeansTiny(output[..]);
  }
}
