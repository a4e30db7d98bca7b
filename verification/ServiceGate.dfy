/** The service's lifecycle state and generation gate: control requests and
    capture callbacks as interleaved atomic steps. */
module ServiceGate {
  import opened Base
  import opened GenerationAllocator

  datatype SessionState = Idle | Starting | Capturing | Stopping

  datatype Kind = Synthetic | Process | Application | Monitor | Endpoint

  /** A capture thread between its reads and its push: `GenOk` has passed the
      generation check, `StateOk` the state check too. A process capture loads
      its generation itself; a capture thread resets the state when it ends. */
  datatype CallbackPc = Loading | Ready | GenOk | StateOk | Ended | Gone

  datatype Source = Source(selfEnding: bool, gen: uint32, ordinal: nat, pc: CallbackPc)

  /** What the control thread is doing. */
  datatype Control =
    | Waiting
    | Allocating(kind: Kind)
    | Storing(kind: Kind)
    | Opening(kind: Kind)
    | Spawning(kind: Kind)
    | Launched(kind: Kind)
    | Discarding
    | JoinCapture(shutdown: bool)
    | Invalidating(shutdown: bool)
    | Releasing(shutdown: bool)

  /** A pushed packet carries a generation; `ordinal` numbers its allocation. */
  datatype Stamp = Stamp(gen: uint32, ordinal: nat)

  datatype Gate = Gate(
    state: SessionState,
    active: uint32,
    allocations: nat,
    sources: seq<Source>,
    control: Control,
    pushed: seq<Stamp>)

  datatype Action =
    | Request(kind: Kind)
    | StopRequest
    | ShutdownRequest
    | Proceed
    | Fail
    | Callback(index: nat)
    | End(index: nat)

  predicate SelfEnding(kind: Kind) {
    kind.Synthetic? || kind.Process?
  }

  predicate AllGone(sources: seq<Source>) {
    forall s :: s in sources ==> s.pc.Gone?
  }

  predicate ThreadGone(sources: seq<Source>) {
    forall s :: s in sources && s.selfEnding ==> s.pc.Gone?
  }

  function Spawn(kind: Kind, ordinal: nat): Source
    requires ordinal >= 1
  {
    if kind.Process? then Source(true, 0, ordinal, Loading)
    else Source(SelfEnding(kind), GenOf(ordinal), ordinal, Ready)
  }

  /** All kinds of start require the idle state, except for one application. */
  function StartRequested(g: Gate, kind: Kind): Gate {
    if kind.Application? || g.state.Idle? then g.(state := Starting, control := Allocating(kind)) else g
  }

  function ControlNext(g: Gate): Option<Gate> {
    match g.control
    case Waiting => None
    case Allocating(k) => Some(g.(allocations := g.allocations + 1, control := Storing(k)))
    case Storing(k) =>
      if g.allocations == 0 then None else Some(g.(active := GenOf(g.allocations), control := Opening(k)))
    case Opening(k) => Some(g.(state := Capturing, control := Spawning(k)))
    case Spawning(k) =>
      if g.allocations == 0 then None
      else Some(g.(sources := g.sources + [Spawn(k, g.allocations)], control := Launched(k)))
    case Launched(_) => Some(g.(control := Waiting))
    case Discarding => if AllGone(g.sources) then Some(g.(state := Idle, control := Waiting)) else None
    case JoinCapture(sd) =>
      if ThreadGone(g.sources) then Some(g.(state := if sd then Idle else g.state, control := Invalidating(sd)))
      else None
    case Invalidating(sd) => Some(g.(active := 0, control := Releasing(sd)))
    case Releasing(sd) =>
      if AllGone(g.sources) then Some(g.(state := if sd then g.state else Idle, control := Waiting)) else None
  }

  /** Where a start can fail: before anything is allocations, without a PCM
      client, or because the source reports an error. */
  function FailNext(g: Gate): Option<Gate> {
    match g.control
    case Allocating(Application) => Some(g.(state := Idle, control := Waiting))
    case Spawning(Synthetic) => Some(g.(state := Idle, control := Waiting))
    case Launched(Application) => Some(g.(state := Idle, control := Discarding))
    case Launched(Monitor) => Some(g.(state := Stopping, control := Discarding))
    case Launched(Endpoint) => Some(g.(state := Stopping, control := Discarding))
    case _ => None
  }

  function WithSource(g: Gate, i: nat, s: Source): Gate
    requires i < |g.sources|
  {
    g.(sources := g.sources[i := s])
  }

  function CallbackNext(g: Gate, i: nat): Option<Gate>
    requires i < |g.sources|
  {
    var s := g.sources[i];
    match s.pc
    case Loading => Some(WithSource(g, i, s.(gen := g.active, pc := Ready)))
    case Ready => Some(WithSource(g, i, s.(pc := if s.gen != 0 && s.gen == g.active then GenOk else Ready)))
    case GenOk => Some(WithSource(g, i, s.(pc := if g.state.Capturing? then StateOk else Ready)))
    case StateOk => Some(WithSource(g, i, s.(pc := Ready)).(pushed := g.pushed + [Stamp(s.gen, s.ordinal)]))
    case Ended =>
      Some(WithSource(g, i, s.(pc := Gone)).(state := if g.state.Capturing? then Idle else g.state))
    case Gone => None
  }

  function Next(g: Gate, a: Action): Option<Gate> {
    match a
    case Request(kind) => if g.control.Waiting? then Some(StartRequested(g, kind)) else None
    case StopRequest =>
      if !g.control.Waiting? then None
      else if g.state.Capturing? || g.state.Starting? then Some(g.(state := Stopping, control := JoinCapture(false)))
      else Some(g)
    case ShutdownRequest =>
      if !g.control.Waiting? then None
      else if g.state.Capturing? then Some(g.(state := Stopping, control := JoinCapture(true)))
      else Some(g.(control := Invalidating(true)))
    case Proceed => ControlNext(g)
    case Fail => FailNext(g)
    case Callback(i) => if i < |g.sources| then CallbackNext(g, i) else None
    case End(i) =>
      if i < |g.sources| && g.sources[i].pc.Ready?
      then Some(WithSource(g, i, g.sources[i].(pc := if g.sources[i].selfEnding then Ended else Gone)))
      else None
  }

  const INITIAL := Gate(Idle, 0, 0, [], Waiting, [])

  function Exec(g: Gate, actions: seq<Action>): Option<Gate>
    decreases |actions|
  {
    if actions == [] then Some(g)
    else match Next(g, actions[0])
      case None => None
      case Some(r) => Exec(r, actions[1..])
  }

  /** Every application start of the run, too, comes when the service is idle. */
  ghost predicate StartsFromIdle(g: Gate, actions: seq<Action>)
    decreases |actions|
  {
    actions != [] ==>
      && (actions[0] == Request(Application) ==> g.state.Idle?)
      && (Next(g, actions[0]).Some? ==> StartsFromIdle(Next(g, actions[0]).value, actions[1..]))
  }

  // ---- Invariant ----

  ghost predicate InOrder(pushed: seq<Stamp>) {
    forall i, j :: 0 <= i < j < |pushed| ==> pushed[i].ordinal <= pushed[j].ordinal
  }

  ghost predicate StampsSound(g: Gate) {
    forall p :: p in g.pushed ==> 1 <= p.ordinal <= g.allocations && p.gen == GenOf(p.ordinal)
  }

  predicate IsStarting(c: Control) {
    c.Allocating? || c.Storing? || c.Opening? || c.Spawning?
  }

  /** Only the newest source can be alive, and it belongs to the newest generation. */
  ghost predicate SourcesSound(g: Gate) {
    && (forall i :: 0 <= i < |g.sources| - 1 ==> g.sources[i].pc.Gone?)
    && (forall s :: s in g.sources && !s.pc.Gone? ==>
          && s.ordinal == g.allocations >= 1
          && (if s.pc.Loading? then s.selfEnding else s.gen == GenOf(g.allocations))
          && (s.pc.Ended? ==> s.selfEnding)
          && !IsStarting(g.control)
          && (!g.control.Releasing? ==> g.active == GenOf(g.allocations))
          && (s.selfEnding ==> !g.control.Invalidating? && !g.control.Releasing? && !g.control.Discarding?))
  }

  ghost predicate ControlSound(g: Gate) {
    && (g.control.Waiting? ==> g.state.Capturing? || (g.state.Idle? && AllGone(g.sources)))
    && (g.control.Launched? ==>
          && (g.state.Capturing? || (g.state.Idle? && AllGone(g.sources)))
          && (!SelfEnding(g.control.kind) ==> ThreadGone(g.sources)))
    && (g.control.JoinCapture? ==> g.state.Stopping?)
    && (g.control.Invalidating? || g.control.Releasing? ==>
          g.state == if g.control.shutdown then Idle else Stopping)
    && (g.control.Discarding? ==> g.state.Idle? || g.state.Stopping?)
    && (g.control.Storing? || g.control.Opening? || g.control.Spawning? || g.control.Launched? ==> g.allocations >= 1)
    && (g.control.Opening? || g.control.Spawning? ==> g.active == GenOf(g.allocations))
    && (g.control.Spawning? ==> g.state.Capturing?)
    && (IsStarting(g.control) ==> !g.state.Idle? && AllGone(g.sources))
  }

  ghost predicate Inv(g: Gate) {
    SourcesSound(g) && ControlSound(g) && InOrder(g.pushed) && StampsSound(g)
  }

  lemma ControlKeepsInv(g: Gate)
    requires Inv(g) && ControlNext(g).Some?
    ensures Inv(ControlNext(g).value)
  {
  }

  lemma FailKeepsInv(g: Gate)
    requires Inv(g) && FailNext(g).Some?
    ensures Inv(FailNext(g).value)
  {
  }

  /** A living source is the last one, and the only one. */
  lemma LivingIsLast(g: Gate, i: nat)
    requires SourcesSound(g) && i < |g.sources| && !g.sources[i].pc.Gone?
    ensures i == |g.sources| - 1
    ensures forall t :: t in g.sources && t != g.sources[i] ==> t.pc.Gone?
  {
  }

  lemma PushKeepsInv(g: Gate, i: nat)
    requires Inv(g) && i < |g.sources| && g.sources[i].pc.StateOk?
    ensures Inv(CallbackNext(g, i).value)
  {
    var s := g.sources[i];
    assert s in g.sources;
    LivingIsLast(g, i);
    forall p | p in g.pushed ensures p.ordinal <= s.ordinal {
    }
  }

  lemma CheckKeepsInv(g: Gate, i: nat)
    requires Inv(g) && i < |g.sources|
    requires g.sources[i].pc.Loading? || g.sources[i].pc.Ready? || g.sources[i].pc.GenOk?
    ensures Inv(CallbackNext(g, i).value)
  {
    assert g.sources[i] in g.sources;
    LivingIsLast(g, i);
  }

  lemma EndedKeepsInv(g: Gate, i: nat)
    requires Inv(g) && i < |g.sources| && g.sources[i].pc.Ended?
    ensures Inv(CallbackNext(g, i).value)
  {
    assert g.sources[i] in g.sources;
    LivingIsLast(g, i);
    assert AllGone(CallbackNext(g, i).value.sources);
  }

  lemma CallbackKeepsInv(g: Gate, i: nat)
    requires Inv(g) && i < |g.sources| && CallbackNext(g, i).Some?
    ensures Inv(CallbackNext(g, i).value)
  {
    match g.sources[i].pc
    case StateOk => PushKeepsInv(g, i);
    case Ended => EndedKeepsInv(g, i);
    case _ => CheckKeepsInv(g, i);
  }

  lemma EndKeepsInv(g: Gate, i: nat)
    requires Inv(g) && Next(g, End(i)).Some?
    ensures Inv(Next(g, End(i)).value)
  {
    assert g.sources[i] in g.sources;
  }

  /** Every step keeps the invariant, except for one: an application start while
      an earlier source is alive always breaks it. */
  lemma StepKeepsInvIff(g: Gate, a: Action)
    requires Inv(g) && Next(g, a).Some?
    ensures Inv(Next(g, a).value) <==> (a == Request(Application) ==> AllGone(g.sources))
  {
    match a
    case Proceed => ControlKeepsInv(g);
    case Fail => FailKeepsInv(g);
    case Callback(i) => CallbackKeepsInv(g, i);
    case End(i) => EndKeepsInv(g, i);
    case _ =>
  }

  // ---- What the gate guarantees over whole runs ----

  lemma {:induction false} RunKeepsInv(g: Gate, actions: seq<Action>)
    requires Inv(g) && StartsFromIdle(g, actions) && Exec(g, actions).Some?
    ensures Inv(Exec(g, actions).value)
    decreases |actions|
  {
    if actions != [] {
      StepKeepsInvIff(g, actions[0]);
      RunKeepsInv(Next(g, actions[0]).value, actions[1..]);
    }
  }

  /** When every start comes from idle, packets are pushed in the order in which
      their generations were allocated, each stamped with its own one. */
  lemma PushedInAllocationOrder(actions: seq<Action>)
    requires StartsFromIdle(INITIAL, actions) && Exec(INITIAL, actions).Some?
    ensures var g := Exec(INITIAL, actions).value;
            InOrder(g.pushed)
            && forall p :: p in g.pushed ==> 1 <= p.ordinal <= g.allocations && p.gen == GenOf(p.ordinal) != 0
  {
    RunKeepsInv(INITIAL, actions);
  }

  predicate AcceptsStart(g: Gate, a: Action) {
    a.Request? && g.control.Waiting? && (g.state.Idle? || a.kind.Application?)
  }

  ghost predicate NoStarts(g: Gate, actions: seq<Action>)
    decreases |actions|
  {
    actions != [] ==>
      && !AcceptsStart(g, actions[0])
      && (Next(g, actions[0]).Some? ==> NoStarts(Next(g, actions[0]).value, actions[1..]))
  }

  ghost predicate Quiet(g: Gate) {
    AllGone(g.sources) && !IsStarting(g.control)
  }

  /** Between a completed stop and the next start nothing is pushed. */
  lemma {:induction false} NothingPushedWhileQuiet(g: Gate, actions: seq<Action>)
    requires Quiet(g) && NoStarts(g, actions) && Exec(g, actions).Some?
    ensures Exec(g, actions).value.pushed == g.pushed
    decreases |actions|
  {
    if actions != [] {
      var a := actions[0];
      if (a.Callback? || a.End?) && a.index < |g.sources| {
        assert g.sources[a.index] in g.sources;
      }
      NothingPushedWhileQuiet(Next(g, a).value, actions[1..]);
    }
  }

  /** A stop is complete when the service waits for requests in the idle state. */
  lemma StoppedMeansQuiet(g: Gate)
    requires Inv(g) && g.control.Waiting? && g.state.Idle?
    ensures Quiet(g)
  {
  }

  function InFlight(g: Gate): nat {
    if g.sources != [] && g.sources[|g.sources| - 1].pc.StateOk? then 1 else 0
  }

  ghost predicate NeverCapturing(g: Gate, actions: seq<Action>)
    decreases |actions|
  {
    && !g.state.Capturing?
    && (actions != [] && Next(g, actions[0]).Some? ==> NeverCapturing(Next(g, actions[0]).value, actions[1..]))
  }

  lemma StepPushesInFlight(g: Gate, a: Action)
    requires Inv(g) && Next(g, a).Some? && !g.state.Capturing?
    requires !Next(g, a).value.state.Capturing?
    ensures var r := Next(g, a).value; |r.pushed| + InFlight(r) <= |g.pushed| + InFlight(g)
  {
    match a
    case Callback(i) =>
      if !g.sources[i].pc.Gone? {
        LivingIsLast(g, i);
      }
    case End(i) => LivingIsLast(g, i);
    case _ =>
  }

  /** Once the service has left the capturing state, at most the one packet that
      had already passed both checks is still pushed. */
  lemma {:induction false} AtMostOneInFlight(g: Gate, actions: seq<Action>)
    requires Inv(g) && StartsFromIdle(g, actions) && NeverCapturing(g, actions) && Exec(g, actions).Some?
    ensures |Exec(g, actions).value.pushed| <= |g.pushed| + InFlight(g) <= |g.pushed| + 1
    decreases |actions|
  {
    if actions != [] {
      StepPushesInFlight(g, actions[0]);
      StepKeepsInvIff(g, actions[0]);
      AtMostOneInFlight(Next(g, actions[0]).value, actions[1..]);
    }
  }

  // ---- The start that does not require the idle state ----

  ghost predicate Reaches(g: Gate, r: Gate) {
    exists actions :: StartsFromIdle(g, actions) && Exec(g, actions) == Some(r)
  }

  lemma {:induction false} ExecMore(g: Gate, actions: seq<Action>, a: Action)
    requires StartsFromIdle(g, actions) && Exec(g, actions).Some?
    requires a == Request(Application) ==> Exec(g, actions).value.state.Idle?
    requires Next(Exec(g, actions).value, a).Some?
    ensures StartsFromIdle(g, actions + [a])
    ensures Exec(g, actions + [a]) == Next(Exec(g, actions).value, a)
    decreases |actions|
  {
    if actions != [] {
      ExecMore(Next(g, actions[0]).value, actions[1..], a);
      assert (actions + [a])[1..] == actions[1..] + [a];
    }
  }

  lemma Step(g: Gate, m: Gate, a: Action) returns (r: Gate)
    requires Reaches(g, m) && Next(m, a).Some? && a != Request(Application)
    ensures r == Next(m, a).value && Reaches(g, r)
  {
    r := Next(m, a).value;
    var actions :| StartsFromIdle(g, actions) && Exec(g, actions) == Some(m);
    ExecMore(g, actions, a);
  }

  /** A start up to the point where its source is ready to deliver. */
  lemma RunStart(g: Gate, m: Gate) returns (r: Gate)
    requires Reaches(g, m) && m.control.Allocating?
    ensures Reaches(g, r)
    ensures r == m.(allocations := m.allocations + 1, active := GenOf(m.allocations + 1), state := Capturing,
                    sources := m.sources + [Spawn(m.control.kind, m.allocations + 1)],
                    control := Launched(m.control.kind))
  {
    r := Step(g, m, Proceed);
    r := Step(g, r, Proceed);
    r := Step(g, r, Proceed);
    r := Step(g, r, Proceed);
  }

  /** A source that passes both checks. */
  lemma PassChecks(g: Gate, m: Gate, i: nat) returns (r: Gate)
    requires Reaches(g, m) && i < |m.sources| && m.state.Capturing?
    requires var s := m.sources[i]; s.pc.Ready? && s.gen == m.active != 0
    ensures Reaches(g, r) && r == WithSource(m, i, m.sources[i].(pc := StateOk))
  {
    r := Step(g, m, Callback(i));
    r := Step(g, r, Callback(i));
  }

  /** Source `late` pushes after source `early` although it is older. */
  lemma PushBoth(g: Gate, m: Gate, late: nat, early: nat) returns (r: Gate)
    requires Reaches(g, m) && late < |m.sources| && early < |m.sources| && late != early
    requires m.sources[late].pc.StateOk? && m.sources[early].pc.StateOk?
    requires m.sources[late].ordinal < m.sources[early].ordinal
    ensures Reaches(g, r) && !InOrder(r.pushed)
  {
    r := Step(g, m, Callback(early));
    r := Step(g, r, Callback(late));
    var n := |m.pushed|;
    assert r.pushed[n].ordinal == m.sources[early].ordinal;
    assert r.pushed[n + 1].ordinal == m.sources[late].ordinal;
  }

  /** A living source that is not about to end can slip its packet past the new one. */
  lemma OvertakenByStart(g: Gate, i: nat) returns (r: Gate)
    requires Inv(g) && g.control.Waiting? && i < |g.sources|
    requires !g.sources[i].pc.Gone? && !g.sources[i].pc.Ended?
    ensures Reaches(StartRequested(g, Application), r) && !InOrder(r.pushed)
  {
    var h := StartRequested(g, Application);
    var s := g.sources[i];
    assert s in g.sources;
    assert Exec(h, []) == Some(h) && StartsFromIdle(h, []);
    r := h;
    if s.pc.Loading? {
      r := Step(h, r, Callback(i));
    }
    if r.sources[i].pc.Ready? {
      r := Step(h, r, Callback(i));
    }
    r := RunStart(h, r);
    if r.sources[i].pc.GenOk? {
      r := Step(h, r, Callback(i));
    }
    var n := |g.sources|;
    r := PassChecks(h, r, n);
    r := PushBoth(h, r, i, n);
  }

  /** A capture thread that is about to end makes the service look idle, so that
      the next start runs beside the application source. */
  lemma OvertakenAfterEnd(g: Gate, i: nat) returns (r: Gate)
    requires Inv(g) && g.control.Waiting? && i < |g.sources| && g.sources[i].pc.Ended?
    ensures Reaches(StartRequested(g, Application), r) && !InOrder(r.pushed)
  {
    var h := StartRequested(g, Application);
    assert Exec(h, []) == Some(h) && StartsFromIdle(h, []);
    var n := |g.sources|;
    r := RunStart(h, h);
    r := Step(h, r, Proceed);
    r := PassChecks(h, r, n);
    r := Step(h, r, Callback(i));
    r := Step(h, r, Request(Monitor));
    r := RunStart(h, r);
    r := PassChecks(h, r, n + 1);
    r := PushBoth(h, r, n, n + 1);
  }

  ghost predicate AlwaysInOrder(g: Gate) {
    forall r :: Reaches(g, r) ==> InOrder(r.pushed)
  }

  /** An application start keeps the order of pushes, whatever happens next, if
      and only if no earlier source is alive; the idle state guarantees that. */
  lemma ApplicationStartSafeIff(g: Gate)
    requires Inv(g) && g.control.Waiting?
    ensures AlwaysInOrder(StartRequested(g, Application)) <==> AllGone(g.sources)
    ensures g.state.Idle? ==> AllGone(g.sources)
  {
    var h := StartRequested(g, Application);
    if AllGone(g.sources) {
      StepKeepsInvIff(g, Request(Application));
      forall r | Reaches(h, r) ensures InOrder(r.pushed) {
        var actions :| StartsFromIdle(h, actions) && Exec(h, actions) == Some(r);
        RunKeepsInv(h, actions);
      }
    } else {
      var s :| s in g.sources && !s.pc.Gone?;
      var i :| 0 <= i < |g.sources| && g.sources[i] == s;
      var r: Gate;
      if s.pc.Ended? {
        r := OvertakenAfterEnd(g, i);
      } else {
        r := OvertakenByStart(g, i);
      }
      assert Reaches(h, r) && !InOrder(r.pushed);
    }
  }
}
