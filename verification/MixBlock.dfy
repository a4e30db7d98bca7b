/** Mixing one output block: the nested sample loops and what they amount to. */
module MixBlock {
  import opened Base
  import opened MixMath

  /** What one source contributes to an output block. */
  datatype Contribution = Contribution(
    frameData: seq<real>,
    frameCount: nat,
    channels: nat,
    hasData: bool,
    isSilent: bool,
    isDiscontinuous: bool)

  const NO_CONTRIBUTION := Contribution([], 0, 0, false, true, false)

  predicate IsMixed(c: Contribution) {
    c.hasData && !c.isSilent
  }

  /** A source that is mixed carries all the samples its header announces. */
  predicate WellFormed(c: Contribution) {
    IsMixed(c) ==> |c.frameData| == c.frameCount * c.channels
  }

  predicate AllWellFormed(cs: seq<Contribution>) {
    forall c :: c in cs ==> WellFormed(c)
  }

  function CountMixed(cs: seq<Contribution>): nat {
    if cs == [] then 0
    else CountMixed(cs[..|cs| - 1]) + if IsMixed(cs[|cs| - 1]) then 1 else 0
  }

  lemma IndexInBounds(f: nat, frames: nat, ch: nat, channels: nat)
    requires f < frames && ch < channels
    ensures 0 <= f * channels + ch < frames * channels
    ensures f * channels + ch < (f + 1) * channels <= frames * channels
  {
    assert (f + 1) * channels == f * channels + channels;
    MulMonotone(f + 1, frames, channels);
  }

  lemma MulMonotone(a: nat, b: nat, d: nat)
    requires a <= b
    ensures a * d <= b * d
  {
  }

  /** The source's sample for flat output position `i` of a `width`-channel
      block, or 0 where the source has no such frame or channel. */
  function SampleAt(c: Contribution, width: nat, i: nat): real
    requires width > 0 && IsMixed(c) && WellFormed(c)
  {
    var f, ch := i / width, i % width;
    if f < c.frameCount && ch < c.channels then
      IndexInBounds(f, c.frameCount, ch, c.channels);
      c.frameData[f * c.channels + ch]
    else 0.0
  }

  ghost function MixedAt(cs: seq<Contribution>, width: nat, i: nat): (r: seq<real>)
    requires width > 0 && AllWellFormed(cs)
    ensures |r| == CountMixed(cs)
  {
    if cs == [] then []
    else
      var n := |cs| - 1;
      MixedAt(cs[..n], width, i) + if IsMixed(cs[n]) then [SampleAt(cs[n], width, i)] else []
  }

  /** One sample of the mix: the sum of the sources, scaled, then clamped. */
  ghost function MixedSample(cs: seq<Contribution>, width: nat, h: real, i: nat): real
    requires width > 0 && AllWellFormed(cs)
  {
    Clamp(Scale(h, Sum(MixedAt(cs, width, i))))
  }

  // ---- The mix, frame by frame ----

  /** Where channel `ch` of frame `f` stands in a block. */
  function Position(width: nat, f: nat, ch: nat): nat {
    f * width + ch
  }

  /** What a source adds to channel `ch` of frame `f`. */
  function FrameSample(c: Contribution, f: nat, ch: nat): real
    requires WellFormed(c)
  {
    if IsMixed(c) && f < c.frameCount && ch < c.channels then
      IndexInBounds(f, c.frameCount, ch, c.channels);
      c.frameData[f * c.channels + ch]
    else 0.0
  }

  ghost function FrameSum(cs: seq<Contribution>, f: nat, ch: nat): real
    requires AllWellFormed(cs)
  {
    if cs == [] then 0.0 else FrameSum(cs[..|cs| - 1], f, ch) + FrameSample(cs[|cs| - 1], f, ch)
  }

  lemma SampleAtFrame(c: Contribution, width: nat, f: nat, ch: nat)
    requires IsMixed(c) && WellFormed(c) && ch < width
    ensures SampleAt(c, width, Position(width, f, ch)) == FrameSample(c, f, ch)
  {
    DivModUnique(f * width + ch, f, ch, width);
  }

  lemma {:induction false} MixIsFrameSum(cs: seq<Contribution>, width: nat, f: nat, ch: nat)
    requires AllWellFormed(cs) && ch < width
    ensures Sum(MixedAt(cs, width, Position(width, f, ch))) == FrameSum(cs, f, ch)
  {
    if cs != [] {
      var n := |cs| - 1;
      var front := MixedAt(cs[..n], width, Position(width, f, ch));
      MixIsFrameSum(cs[..n], width, f, ch);
      if IsMixed(cs[n]) {
        SampleAtFrame(cs[n], width, f, ch);
        assert (front + [FrameSample(cs[n], f, ch)])[..|front|] == front;
      } else {
        assert front + [] == front;
      }
    }
  }

  /** Every sample is the scaled sum of what the sources have for its frame and
      channel, or the nearest value in range. */
  ghost predicate IsMixOfFrames(output: seq<real>, cs: seq<Contribution>, width: nat, h: real)
    requires AllWellFormed(cs)
  {
    forall f: nat, ch: nat :: ch < width && Position(width, f, ch) < |output| ==>
      IsNearestInRange(output[Position(width, f, ch)], Scale(h, FrameSum(cs, f, ch)))
  }

  lemma MixedSamplesAreFrames(output: seq<real>, cs: seq<Contribution>, width: nat, h: real)
    requires width > 0 && AllWellFormed(cs)
    requires forall i :: 0 <= i < |output| ==> output[i] == MixedSample(cs, width, h, i)
    ensures IsMixOfFrames(output, cs, width, h)
  {
    forall f: nat, ch: nat | ch < width && Position(width, f, ch) < |output|
      ensures IsNearestInRange(output[Position(width, f, ch)], Scale(h, FrameSum(cs, f, ch)))
    {
      MixIsFrameSum(cs, width, f, ch);
      ClampIsNearest(Scale(h, FrameSum(cs, f, ch)), 0.0);
    }
  }

  // ---- The loops ----

  /** Positions the sample loops have passed when they stand at (f, ch). */
  predicate Passed(i: nat, width: nat, f: nat, ch: nat)
    requires width > 0
  {
    i / width < f || (i / width == f && i % width < ch)
  }

  ghost predicate Accumulated(after: seq<real>, before: seq<real>, c: Contribution, h: real,
                              width: nat, f: nat, ch: nat)
    requires width > 0 && IsMixed(c) && WellFormed(c)
  {
    |after| == |before|
    && forall i :: 0 <= i < |before| ==>
         after[i] == if Passed(i, width, f, ch) then before[i] + Scale(h, SampleAt(c, width, i)) else before[i]
  }

  lemma PositionFromRow(i: nat, width: nat)
    requires width > 0
    ensures i == i / width * width + i % width
  {
  }

  lemma AccumulateOne(after: seq<real>, before: seq<real>, c: Contribution, h: real,
                      width: nat, f: nat, ch: nat, at: nat)
    requires width > 0 && IsMixed(c) && WellFormed(c)
    requires ch < width && at == f * width + ch && at < |before|
    requires Accumulated(after, before, c, h, width, f, ch)
    ensures after[at] == before[at]
    ensures Accumulated(after[at := after[at] + Scale(h, SampleAt(c, width, at))], before, c, h, width, f, ch + 1)
  {
    DivModUnique(at, f, ch, width);
    forall i | 0 <= i < |before| && i != at
      ensures Passed(i, width, f, ch + 1) <==> Passed(i, width, f, ch)
    {
      PositionFromRow(i, width);
    }
  }

  lemma SampleInRow(c: Contribution, width: nat, f: nat, ch: nat)
    requires width > 0 && IsMixed(c) && WellFormed(c)
    requires f < c.frameCount && ch < c.channels && ch < width
    ensures f * c.channels + ch < |c.frameData|
    ensures SampleAt(c, width, f * width + ch) == c.frameData[f * c.channels + ch]
  {
    DivModUnique(f * width + ch, f, ch, width);
    IndexInBounds(f, c.frameCount, ch, c.channels);
  }

  /** The end of a row is the start of the next: a source adds nothing beyond
      its own channels. */
  lemma AccumulateRow(after: seq<real>, before: seq<real>, c: Contribution, h: real,
                      width: nat, f: nat, ch: nat)
    requires width > 0 && IsMixed(c) && WellFormed(c)
    requires ch >= c.channels || ch >= width
    requires Accumulated(after, before, c, h, width, f, ch)
    ensures Accumulated(after, before, c, h, width, f + 1, 0)
  {
    forall i | 0 <= i < |before| && Passed(i, width, f + 1, 0) && !Passed(i, width, f, ch)
      ensures SampleAt(c, width, i) == 0.0
    {
      assert i / width == f && i % width >= ch;
    }
  }

  lemma AccumulateRest(after: seq<real>, before: seq<real>, c: Contribution, h: real,
                       width: nat, frames: nat, f: nat)
    requires width > 0 && IsMixed(c) && WellFormed(c)
    requires |before| == frames * width && (f >= frames || f >= c.frameCount)
    requires Accumulated(after, before, c, h, width, f, 0)
    ensures forall i :: 0 <= i < |before| ==> after[i] == before[i] + Scale(h, SampleAt(c, width, i))
  {
    forall i | 0 <= i < |before| && !Passed(i, width, f, 0) ensures SampleAt(c, width, i) == 0.0 {
      RowBelow(i, frames, width);
    }
  }

  lemma RowBelow(i: nat, frames: nat, width: nat)
    requires width > 0 && i < frames * width
    ensures i / width < frames
  {
    var q := i / width;
    if q >= frames {
      MulMonotone(frames, q, width);
    }
  }

  method AddSample(output: array<real>, at: nat, x: real)
    requires at < output.Length
    modifies output
    ensures output[..] == old(output[..])[at := old(output[at]) + x]
  {
    output[at] := output[at] + x;
  }

  /** The block after the first `ch` samples of row `f` have been added. */
  ghost function RowAdded(start: seq<real>, c: Contribution, h: real, width: nat, f: nat, ch: nat): (r: seq<real>)
    requires width > 0 && IsMixed(c) && WellFormed(c)
    requires ch <= width && f * width + ch <= |start|
    ensures |r| == |start|
  {
    if ch == 0 then start
    else
      var at := f * width + ch - 1;
      var front := RowAdded(start, c, h, width, f, ch - 1);
      front[at := front[at] + Scale(h, SampleAt(c, width, at))]
  }

  lemma {:induction false} RowAddedAccumulates(start: seq<real>, before: seq<real>, c: Contribution, h: real,
                                               width: nat, f: nat, ch: nat)
    requires width > 0 && IsMixed(c) && WellFormed(c)
    requires ch <= width && f * width + ch <= |before|
    requires Accumulated(start, before, c, h, width, f, 0)
    ensures Accumulated(RowAdded(start, c, h, width, f, ch), before, c, h, width, f, ch)
  {
    if ch > 0 {
      RowAddedAccumulates(start, before, c, h, width, f, ch - 1);
      AccumulateOne(RowAdded(start, c, h, width, f, ch - 1), before, c, h, width, f, ch - 1, f * width + ch - 1);
    }
  }

  lemma RowAddedNext(start: seq<real>, c: Contribution, h: real, width: nat, f: nat, ch: nat)
    requires width > 0 && IsMixed(c) && WellFormed(c)
    requires ch < width && f * width + ch + 1 <= |start|
    ensures var at, row := f * width + ch, RowAdded(start, c, h, width, f, ch);
            RowAdded(start, c, h, width, f, ch + 1) == row[at := row[at] + Scale(h, SampleAt(c, width, at))]
  {
  }

  method AddRow(output: array<real>, frames: nat, width: nat, c: Contribution, h: real, f: nat)
    requires width > 0 && output.Length == frames * width
    requires IsMixed(c) && WellFormed(c) && f < frames && f < c.frameCount
    modifies output
    ensures f * width + width <= output.Length
    ensures output[..] == RowAdded(old(output[..]), c, h, width, f, Min(c.channels, width))
  {
    var mixChannels := Min(c.channels, width);
    IndexInBounds(f, frames, width - 1, width);
    for ch := 0 to mixChannels
      invariant output[..] == RowAdded(old(output[..]), c, h, width, f, ch)
    {
      SampleInRow(c, width, f, ch);
      RowAddedNext(old(output[..]), c, h, width, f, ch);
      var idx := f * width + ch;
      var srcIdx := f * c.channels + ch;
      AddSample(output, idx, Scale(h, c.frameData[srcIdx]));
    }
  }

  function Min(a: nat, b: nat): nat {
    if a < b then a else b
  }

  /** The block after the first `f` rows of the source have been added. */
  ghost function RowsAdded(start: seq<real>, c: Contribution, h: real, width: nat, f: nat): (r: seq<real>)
    requires width > 0 && IsMixed(c) && WellFormed(c)
    requires f * width <= |start|
    ensures |r| == |start|
  {
    if f == 0 then start
    else
      RowFits(f, width, |start|);
      RowAdded(RowsAdded(start, c, h, width, f - 1), c, h, width, f - 1, Min(c.channels, width))
  }

  lemma RowFits(f: nat, width: nat, length: nat)
    requires f > 0 && f * width <= length
    ensures (f - 1) * width + width <= length && 0 <= (f - 1) * width
  {
  }

  lemma {:induction false} RowsAddedAccumulates(start: seq<real>, c: Contribution, h: real, width: nat, f: nat)
    requires width > 0 && IsMixed(c) && WellFormed(c)
    requires f * width <= |start|
    ensures Accumulated(RowsAdded(start, c, h, width, f), start, c, h, width, f, 0)
  {
    if f > 0 {
      RowFits(f, width, |start|);
      RowsAddedAccumulates(start, c, h, width, f - 1);
      var front := RowsAdded(start, c, h, width, f - 1);
      RowAddedAccumulates(front, start, c, h, width, f - 1, Min(c.channels, width));
      AccumulateRow(RowsAdded(start, c, h, width, f), start, c, h, width, f - 1, Min(c.channels, width));
    }
  }

  method AddContribution(output: array<real>, frames: nat, width: nat, c: Contribution, h: real)
    requires width > 0 && output.Length == frames * width
    requires IsMixed(c) && WellFormed(c)
    modifies output
    ensures forall i :: 0 <= i < output.Length ==>
              output[..][i] == old(output[..])[i] + Scale(h, SampleAt(c, width, i))
  {
    var mixFrames := Min(c.frameCount, frames);
    MulMonotone(mixFrames, frames, width);
    for f := 0 to mixFrames
      invariant f * width <= output.Length && output[..] == RowsAdded(old(output[..]), c, h, width, f)
    {
      MulMonotone(f + 1, frames, width);
      AddRow(output, frames, width, c, h, f);
    }
    RowsAddedAccumulates(old(output[..]), c, h, width, mixFrames);
    AccumulateRest(output[..], old(output[..]), c, h, width, frames, mixFrames);
  }

  ghost predicate IsMixOf(output: seq<real>, cs: seq<Contribution>, width: nat, h: real)
    requires width > 0 && AllWellFormed(cs)
  {
    forall i :: 0 <= i < |output| ==> output[i] == Scale(h, Sum(MixedAt(cs, width, i)))
  }

  ghost predicate AnyDiscontinuous(cs: seq<Contribution>) {
    exists c :: c in cs && IsMixed(c) && c.isDiscontinuous
  }

  method ClearBlock(output: array<real>)
    modifies output
    ensures forall i :: 0 <= i < output.Length ==> output[..][i] == 0.0
  {
    for i := 0 to output.Length
      invariant forall k :: 0 <= k < i ==> output[k] == 0.0
    {
      output[i] := 0.0;
    }
  }

  method MixContributions(output: array<real>, frames: nat, width: nat, cs: seq<Contribution>, h: real)
    returns (anyDiscontinuous: bool)
    requires width > 0 && output.Length == frames * width
    requires AllWellFormed(cs)
    modifies output
    ensures IsMixOf(output[..], cs, width, h)
    ensures anyDiscontinuous <==> AnyDiscontinuous(cs)
  {
    ClearBlock(output);
    NothingMixed(output[..], width, h);
    anyDiscontinuous := false;
    for k := 0 to |cs|
      invariant AllWellFormed(cs[..k]) && IsMixOf(output[..], cs[..k], width, h)
      invariant anyDiscontinuous <==> AnyDiscontinuous(cs[..k])
    {
      assert cs[..k + 1] == cs[..k] + [cs[k]] && cs[k] in cs;
      ghost var before := output[..];
      if IsMixed(cs[k]) {
        anyDiscontinuous := anyDiscontinuous || cs[k].isDiscontinuous;
        AddContribution(output, frames, width, cs[k], h);
      }
      MixOneMore(output[..], before, cs[..k], cs[k], width, h);
    }
    assert cs[..|cs|] == cs;
  }

  lemma NothingMixed(output: seq<real>, width: nat, h: real)
    requires width > 0 && forall i :: 0 <= i < |output| ==> output[i] == 0.0
    ensures IsMixOf(output, [], width, h)
  {
    ScaleAdds(h, 0.0, 0.0);
  }

  lemma MixOneMore(after: seq<real>, before: seq<real>, cs: seq<Contribution>, c: Contribution, width: nat, h: real)
    requires width > 0 && AllWellFormed(cs + [c]) && AllWellFormed(cs) && |after| == |before|
    requires IsMixOf(before, cs, width, h)
    requires if IsMixed(c) then forall i :: 0 <= i < |after| ==> after[i] == before[i] + Scale(h, SampleAt(c, width, i))
             else after == before
    ensures IsMixOf(after, cs + [c], width, h)
    ensures AnyDiscontinuous(cs + [c]) <==> AnyDiscontinuous(cs) || (IsMixed(c) && c.isDiscontinuous)
  {
    forall i | 0 <= i < |after| ensures after[i] == Scale(h, Sum(MixedAt(cs + [c], width, i))) {
      MixedStep(cs, c, width, h, i);
    }
    assert forall x :: x in cs + [c] <==> x in cs || x == c;
  }

  lemma MixedStep(cs: seq<Contribution>, c: Contribution, width: nat, h: real, i: nat)
    requires width > 0 && AllWellFormed(cs + [c]) && AllWellFormed(cs)
    ensures c in cs + [c]
    ensures Scale(h, Sum(MixedAt(cs + [c], width, i))) ==
            Scale(h, Sum(MixedAt(cs, width, i))) + if IsMixed(c) then Scale(h, SampleAt(c, width, i)) else 0.0
  {
    assert (cs + [c])[|cs|] == c && (cs + [c])[..|cs|] == cs;
    var front := MixedAt(cs, width, i);
    assert front + [] == front;
    if IsMixed(c) {
      var x := SampleAt(c, width, i);
      assert (front + [x])[..|front|] == front;
      ScaleAdds(h, Sum(front), x);
    }
  }

  lemma ScaleAdds(h: real, a: real, b: real)
    ensures Scale(h, a + b) == Scale(h, a) + Scale(h, b)
  {
  }

  /** How many samples lie outside [-1, 1]. */
  ghost function CountClipped(xs: seq<real>): nat {
    if xs == [] then 0
    else CountClipped(xs[..|xs| - 1]) + if Abs(xs[|xs| - 1]) > 1.0 then 1 else 0
  }

  method ClampBlock(output: array<real>) returns (clipped: nat)
    modifies output
    ensures forall i :: 0 <= i < output.Length ==> output[i] == Clamp(old(output[i]))
    ensures forall i :: 0 <= i < output.Length ==> IsNearestInRange(output[i], old(output[i]))
    ensures clipped == CountClipped(old(output[..]))
  {
    ghost var before := output[..];
    clipped := 0;
    for i := 0 to output.Length
      invariant forall k :: 0 <= k < i ==> output[k] == Clamp(before[k]) && IsNearestInRange(output[k], before[k])
      invariant forall k :: i <= k < output.Length ==> output[k] == before[k]
      invariant clipped == CountClipped(before[..i])
    {
      assert before[..i + 1][..i] == before[..i];
      if output[i] > 1.0 {
        clipped := clipped + 1;
        output[i] := 1.0;
      } else if output[i] < -1.0 {
        clipped := clipped + 1;
        output[i] := -1.0;
      }
    }
    assert before[..output.Length] == before;
  }

  // ---- The energy bound ----

  /** The summed energy of everything that is mixed. */
  ghost function SourceEnergy(cs: seq<Contribution>): real {
    if cs == [] then 0.0
    else
      var n := |cs| - 1;
      SourceEnergy(cs[..n]) + if IsMixed(cs[n]) then Energy(cs[n].frameData) else 0.0
  }

  /** Energy of the samples that land in the first `m` output positions. */
  ghost function LandedEnergy(cs: seq<Contribution>, width: nat, m: nat): real
    requires width > 0 && AllWellFormed(cs)
  {
    if m == 0 then 0.0 else LandedEnergy(cs, width, m - 1) + Energy(MixedAt(cs, width, m - 1))
  }

  ghost function LandedFrom(c: Contribution, width: nat, m: nat): real
    requires width > 0 && IsMixed(c) && WellFormed(c)
  {
    if m == 0 then 0.0 else LandedFrom(c, width, m - 1) + Square(SampleAt(c, width, m - 1))
  }

  /** How much of the source's buffer lies before output position `i`. */
  function Cursor(c: Contribution, width: nat, i: nat): nat
    requires width > 0
  {
    if i / width >= c.frameCount then Samples(c.frameCount, c.channels)
    else Samples(i / width, c.channels) + if i % width < c.channels then i % width else c.channels
  }

  function Samples(frames: nat, channels: nat): nat {
    frames * channels
  }

  lemma CursorAdvances(c: Contribution, width: nat, i: nat)
    requires width > 0
    ensures Cursor(c, width, i) <= Cursor(c, width, i + 1) <= c.frameCount * c.channels
    ensures i / width < c.frameCount && i % width < c.channels ==>
              Cursor(c, width, i) == i / width * c.channels + i % width < Cursor(c, width, i + 1)
  {
    var f, ch := i / width, i % width;
    NextPosition(i, width);
    if f < c.frameCount {
      assert (f + 1) * c.channels == f * c.channels + c.channels;
      MulMonotone(f + 1, c.frameCount, c.channels);
      if f + 1 < c.frameCount {
        MulMonotone(f + 2, c.frameCount, c.channels);
      }
    }
  }

  lemma NextPosition(i: nat, width: nat)
    requires width > 0
    ensures if i % width + 1 < width then (i + 1) / width == i / width && (i + 1) % width == i % width + 1
            else (i + 1) / width == i / width + 1 && (i + 1) % width == 0
  {
    var q, r := i / width, i % width;
    if r + 1 < width {
      DivModUnique(i + 1, q, r + 1, width);
    } else {
      assert (q + 1) * width == q * width + width;
      DivModUnique(i + 1, q + 1, 0, width);
    }
  }

  lemma {:induction false} EnergyOfPrefix(xs: seq<real>, a: nat, b: nat)
    requires a <= b <= |xs|
    ensures Energy(xs[..a]) <= Energy(xs[..b])
  {
    if a < b {
      EnergyOfPrefix(xs, a, b - 1);
      assert xs[..b][..b - 1] == xs[..b - 1];
    }
  }

  /** No sample of a source lands twice. */
  lemma {:induction false} LandedAtMostAll(c: Contribution, width: nat, m: nat)
    requires width > 0 && IsMixed(c) && WellFormed(c)
    ensures Cursor(c, width, m) <= |c.frameData|
    ensures LandedFrom(c, width, m) <= Energy(c.frameData[..Cursor(c, width, m)])
  {
    if m == 0 {
      DivModUnique(0, 0, 0, width);
      MulMonotone(0, c.frameCount, c.channels);
    } else {
      var i := m - 1;
      LandedAtMostAll(c, width, i);
      CursorAdvances(c, width, i);
      var p, q := Cursor(c, width, i), Cursor(c, width, m);
      if i / width < c.frameCount && i % width < c.channels {
        assert c.frameData[..p + 1][..p] == c.frameData[..p];
        EnergyOfPrefix(c.frameData, p + 1, q);
      } else {
        EnergyOfPrefix(c.frameData, p, q);
      }
    }
  }

  lemma {:induction false} LandedSplits(cs: seq<Contribution>, width: nat, m: nat)
    requires width > 0 && AllWellFormed(cs) && cs != []
    ensures var n := |cs| - 1;
            LandedEnergy(cs, width, m) == LandedEnergy(cs[..n], width, m)
              + if IsMixed(cs[n]) then LandedFrom(cs[n], width, m) else 0.0
  {
    if m > 0 {
      var n := |cs| - 1;
      LandedSplits(cs, width, m - 1);
      var front := MixedAt(cs[..n], width, m - 1);
      assert front + [] == front;
      if IsMixed(cs[n]) {
        var x := SampleAt(cs[n], width, m - 1);
        assert (front + [x])[..|front|] == front;
      }
    }
  }

  lemma {:induction false} LandedAtMostSources(cs: seq<Contribution>, width: nat, m: nat)
    requires width > 0 && AllWellFormed(cs)
    ensures LandedEnergy(cs, width, m) <= SourceEnergy(cs)
  {
    if cs == [] {
      NothingLands(width, m);
    } else {
      var n := |cs| - 1;
      LandedAtMostSources(cs[..n], width, m);
      LandedSplits(cs, width, m);
      if IsMixed(cs[n]) {
        LandedAtMostAll(cs[n], width, m);
        EnergyOfPrefix(cs[n].frameData, Cursor(cs[n], width, m), |cs[n].frameData|);
        assert cs[n].frameData[..|cs[n].frameData|] == cs[n].frameData;
      }
    }
  }

  lemma {:induction false} NothingLands(width: nat, m: nat)
    requires width > 0
    ensures LandedEnergy([], width, m) == 0.0
  {
    if m > 0 {
      NothingLands(width, m - 1);
    }
  }

  lemma {:induction false} OutputAtMostLanded(output: seq<real>, cs: seq<Contribution>, width: nat, h: real, m: nat)
    requires width > 0 && AllWellFormed(cs) && IsHeadroom(h, CountMixed(cs)) && m <= |output|
    requires forall i :: 0 <= i < |output| ==> output[i] == MixedSample(cs, width, h, i)
    ensures Energy(output[..m]) <= LandedEnergy(cs, width, m)
  {
    if m > 0 {
      OutputAtMostLanded(output, cs, width, h, m - 1);
      assert output[..m][..m - 1] == output[..m - 1];
      MixedSampleEnergy(MixedAt(cs, width, m - 1), h);
    }
  }

  /** A mixed block never carries more energy than the packets mixed into it,
      whatever their number, lengths and channel counts. */
  lemma BlockEnergyBound(output: seq<real>, cs: seq<Contribution>, width: nat, h: real)
    requires width > 0 && AllWellFormed(cs) && IsHeadroom(h, CountMixed(cs))
    requires forall i :: 0 <= i < |output| ==> output[i] == MixedSample(cs, width, h, i)
    ensures Energy(output) <= SourceEnergy(cs)
  {
    OutputAtMostLanded(output, cs, width, h, |output|);
    assert output[..|output|] == output;
    LandedAtMostSources(cs, width, |output|);
  }
}
