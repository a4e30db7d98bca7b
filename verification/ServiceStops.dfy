/** That a stop stops, a start starts, and the gate lets through what it should. */
module ServiceStops {
  import opened Base
  import opened GenerationAllocator
  import opened ServiceGate

  // ---- Stopping ----

  /** The service is ending its capture, or has ended it. */
  ghost predicate Ending(g: Gate) {
    && Inv(g)
    && !g.state.Capturing? && !IsStarting(g.control) && !g.control.Launched? && !g.control.Discarding?
    && (g.control.Waiting? ==> g.state.Idle?)
  }

  lemma EndingStep(g: Gate, a: Action)
    requires Ending(g) && Next(g, a).Some? && !AcceptsStart(g, a)
    ensures Ending(Next(g, a).value)
  {
    StepKeepsInvIff(g, a);
  }

  lemma {:induction false} EndingRun(g: Gate, actions: seq<Action>)
    requires Ending(g) && NoStarts(g, actions) && Exec(g, actions).Some?
    ensures NeverCapturing(g, actions) && StartsFromIdle(g, actions) && Ending(Exec(g, actions).value)
    decreases |actions|
  {
    if actions != [] {
      EndingStep(g, actions[0]);
      EndingRun(Next(g, actions[0]).value, actions[1..]);
    }
  }

  /** A request to end: a stop, or a shutdown of the service. */
  predicate IsEndRequest(a: Action) {
    a.StopRequest? || a.ShutdownRequest?
  }

  /** From the moment a stop or shutdown is requested until the next start is
      accepted, the service never captures: at most the one packet that had
      passed both checks is still pushed. When it waits for requests again, it
      is idle and no source is alive. */
  lemma StopStops(g: Gate, request: Action, actions: seq<Action>)
    requires Inv(g) && g.control.Waiting? && IsEndRequest(request)
    requires request.StopRequest? ==> g.state.Capturing? || g.state.Starting?
    requires Next(g, request).Some?
    requires NoStarts(Next(g, request).value, actions) && Exec(Next(g, request).value, actions).Some?
    ensures NeverCapturing(Next(g, request).value, actions)
    ensures var r := Exec(Next(g, request).value, actions).value;
            && !r.state.Capturing?
            && |r.pushed| <= |g.pushed| + InFlight(g) <= |g.pushed| + 1
            && (r.control.Waiting? ==> r.state.Idle? && AllGone(r.sources))
  {
    var h := Next(g, request).value;
    StepKeepsInvIff(g, request);
    EndingRun(h, actions);
    AtMostOneInFlight(h, actions);
  }

  lemma StopIsAccepted(g: Gate, request: Action)
    requires Inv(g) && g.control.Waiting? && IsEndRequest(request)
    ensures Next(g, request).Some?
    ensures request.ShutdownRequest? || g.state.Capturing? ==> !Next(g, request).value.control.Waiting?
    ensures Next(g, request).value.sources == g.sources && Next(g, request).value.pushed == g.pushed
  {
  }

  // ---- Stopping comes to an end ----

  /** A source that is left alone finishes its callback and ends. */
  lemma SourceEnds(g: Gate, m: Gate, i: nat) returns (r: Gate)
    requires Reaches(g, m) && i < |m.sources| && !m.state.Capturing?
    ensures Reaches(g, r) && r.state == m.state && r.control == m.control
    ensures |r.sources| == |m.sources| && r.sources[i].pc.Gone?
    ensures forall j :: 0 <= j < |m.sources| && j != i ==> r.sources[j] == m.sources[j]
  {
    r := m;
    if r.sources[i].pc.Loading? || r.sources[i].pc.GenOk? || r.sources[i].pc.StateOk? {
      r := Step(g, r, Callback(i));
    }
    if r.sources[i].pc.Ready? {
      r := Step(g, r, End(i));
    }
    if r.sources[i].pc.Ended? {
      r := Step(g, r, Callback(i));
    }
  }

  lemma AllSourcesEnd(h: Gate) returns (r: Gate)
    requires SourcesSound(h) && !h.state.Capturing?
    ensures Reaches(h, r) && r.state == h.state && r.control == h.control && AllGone(r.sources)
  {
    assert Exec(h, []) == Some(h) && StartsFromIdle(h, []);
    r := h;
    if h.sources != [] {
      r := SourceEnds(h, h, |h.sources| - 1);
    }
  }

  lemma FinishStop(g: Gate, m: Gate) returns (r: Gate)
    requires Reaches(g, m) && AllGone(m.sources) && !m.state.Capturing?
    requires m.control.JoinCapture? || (m.control.Invalidating? && (m.control.shutdown ==> m.state.Idle?))
    ensures Reaches(g, r) && r.control.Waiting? && r.state.Idle? && AllGone(r.sources) && r.active == 0
  {
    r := m;
    if m.control.JoinCapture? {
      r := Step(g, r, Proceed);
    }
    r := Step(g, r, Proceed);
    r := Step(g, r, Proceed);
  }

  /** Some run completes every stop: the sources end, the service joins and
      releases them, and waits in the idle state. */
  lemma StopCompletes(g: Gate, request: Action) returns (r: Gate)
    requires Inv(g) && g.control.Waiting? && IsEndRequest(request)
    requires request.StopRequest? ==> g.state.Capturing? || g.state.Starting?
    requires Next(g, request).Some?
    ensures Reaches(Next(g, request).value, r)
    ensures r.control.Waiting? && r.state.Idle? && AllGone(r.sources) && r.active == 0
  {
    var h := Next(g, request).value;
    StepKeepsInvIff(g, request);
    r := AllSourcesEnd(h);
    r := FinishStop(h, r);
  }

  // ---- Starting ----

  /** An accepted start, with nothing failing, ends with the service capturing
      from one new source of a new generation that is the active one. */
  lemma StartStarts(g: Gate, kind: Kind) returns (r: Gate)
    requires Inv(g) && g.control.Waiting? && g.state.Idle?
    ensures var h := Next(g, Request(kind)); h.Some? && Reaches(h.value, r)
    ensures r.control.Waiting? && r.state.Capturing? && r.allocations == g.allocations + 1
    ensures r.active == GenOf(g.allocations + 1) && |r.sources| == |g.sources| + 1 && r.pushed == g.pushed
    ensures var s := r.sources[|g.sources|]; s.pc.Ready? && s.gen == r.active && s.ordinal == r.allocations
  {
    var h := Next(g, Request(kind)).value;
    assert Exec(h, []) == Some(h) && StartsFromIdle(h, []);
    r := RunStart(h, h);
    r := Step(h, r, Proceed);
    if kind.Process? {
      r := Step(h, r, Callback(|g.sources|));
    }
  }

  // ---- The checks before a push ----

  /** A packet of the active generation gets through while the service captures. */
  lemma PacketGetsThrough(g: Gate, i: nat)
    requires i < |g.sources| && g.state.Capturing?
    requires g.sources[i].pc.Ready? && g.sources[i].gen == g.active != 0
    ensures Exec(g, [Callback(i), Callback(i), Callback(i)]) ==
            Some(g.(pushed := g.pushed + [Stamp(g.active, g.sources[i].ordinal)]))
  {
    var s := g.sources[i];
    var a := WithSource(g, i, s.(pc := GenOk));
    var b := WithSource(a, i, s.(pc := StateOk));
    var c := WithSource(b, i, s).(pushed := g.pushed + [Stamp(s.gen, s.ordinal)]);
    assert a.sources[i := s.(pc := StateOk)] == b.sources && b.sources[i := s] == g.sources;
    assert Exec(c, []) == Some(c);
    assert Exec(b, [Callback(i)]) == Some(c);
    assert Exec(a, [Callback(i), Callback(i)]) == Some(c);
  }

  /** Only a packet that has passed both checks is pushed, with its own stamp. */
  lemma PushesAreChecked(g: Gate, a: Action)
    requires Next(g, a).Some?
    ensures Next(g, a).value.pushed != g.pushed ==>
              && a.Callback? && a.index < |g.sources| && g.sources[a.index].pc.StateOk?
              && Next(g, a).value.pushed == g.pushed + [Stamp(g.sources[a.index].gen, g.sources[a.index].ordinal)]
  {
  }

  /** Along the run the generation `gen` is never the active one. */
  ghost predicate NeverActive(g: Gate, actions: seq<Action>, gen: uint32)
    decreases |actions|
  {
    && g.active != gen
    && (actions != [] && Next(g, actions[0]).Some? ==> NeverActive(Next(g, actions[0]).value, actions[1..], gen))
  }

  predicate IsChecked(pc: CallbackPc) {
    pc.GenOk? || pc.StateOk?
  }

  /** While its generation is not the active one, or is zero, no packet of a
      source passes even the first check. */
  lemma {:induction false} OtherGenerationsAreRejected(g: Gate, actions: seq<Action>, i: nat)
    requires i < |g.sources| && !g.sources[i].pc.Loading? && !IsChecked(g.sources[i].pc)
    requires g.sources[i].gen == 0 || NeverActive(g, actions, g.sources[i].gen)
    requires Exec(g, actions).Some?
    ensures i < |Exec(g, actions).value.sources| && !IsChecked(Exec(g, actions).value.sources[i].pc)
    decreases |actions|
  {
    if actions != [] {
      var r := Next(g, actions[0]).value;
      assert i < |r.sources| && r.sources[i].gen == g.sources[i].gen && !r.sources[i].pc.Loading?;
      OtherGenerationsAreRejected(r, actions[1..], i);
    }
  }
}
