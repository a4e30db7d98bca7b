/** The controller thread's wait loop and the threads that wake or stop it, as a
    machine of interleaved atomic steps. */
module WakeProtocol {
  import opened Base

  /** Where the controller thread is. From `CheckStop` to `Leave` it holds the
      wake mutex; `timedOut` says that the wait returns whatever the predicate. */
  datatype Pc =
    | Init
    | Top
    | Work
    | WantLock
    | CheckStop(timedOut: bool)
    | CheckGen(timedOut: bool)
    | PredFalse
    | Asleep
    | Woken(timedOut: bool)
    | Leave
    | AfterWait
    | LoadGen
    | Done

  /** Where a thread is that runs a notification callback or `Stop`. */
  datatype Notifier = Idle | Flagged | Incremented | Holding | Notified

  datatype Owner = Free | Controller | Thread(index: nat)

  /** `issued` counts all increments of the wake generation, `observedAt` the
      increments that the last load saw, `startedAt` those before the last
      iteration began. The generation itself is 64 bits wide. */
  datatype State = State(
    pc: Pc,
    threads: seq<Notifier>,
    owner: Owner,
    stopping: bool,
    issued: nat,
    observedAt: nat,
    startedAt: nat)

  datatype Action =
    | Step
    | WakeUp(timedOut: bool)
    | Begin(thread: nat, stop: bool)
    | Advance(thread: nat)

  function Gen(count: nat): uint64 {
    count % UINT64_SIZE
  }

  function ControllerNext(s: State): Option<State> {
    match s.pc
    case Init => Some(s.(pc := Top, observedAt := s.issued))
    case Top => Some(if s.stopping then s.(pc := Done) else s.(pc := Work, startedAt := s.issued))
    case Work => Some(s.(pc := WantLock))
    case WantLock => if s.owner.Free? then Some(s.(pc := CheckStop(false), owner := Controller)) else None
    case CheckStop(t) => Some(s.(pc := if s.stopping then Leave else CheckGen(t)))
    case CheckGen(t) => Some(s.(pc := if t || Gen(s.issued) != Gen(s.observedAt) then Leave else PredFalse))
    case PredFalse => Some(s.(pc := Asleep, owner := Free))
    case Asleep => None
    case Woken(t) => if s.owner.Free? then Some(s.(pc := CheckStop(t), owner := Controller)) else None
    case Leave => Some(s.(pc := AfterWait, owner := Free))
    case AfterWait => Some(s.(pc := if s.stopping then Done else LoadGen))
    case LoadGen => Some(s.(pc := Top, observedAt := s.issued))
    case Done => None
  }

  /** Notifying wakes the controller only if it is asleep: no signal is kept. */
  function AdvanceThread(s: State, i: nat): Option<State>
    requires i < |s.threads|
  {
    match s.threads[i]
    case Idle => None
    case Flagged => Some(s.(threads := s.threads[i := Incremented], issued := s.issued + 1))
    case Incremented =>
      if s.owner.Free? then Some(s.(threads := s.threads[i := Holding], owner := Thread(i))) else None
    case Holding =>
      Some(s.(threads := s.threads[i := Notified], pc := if s.pc.Asleep? then Woken(false) else s.pc))
    case Notified => Some(s.(threads := s.threads[i := Idle], owner := Free))
  }

  function Next(s: State, a: Action): Option<State> {
    match a
    case Step => ControllerNext(s)
    case WakeUp(t) => if s.pc.Asleep? then Some(s.(pc := Woken(t))) else None
    case Begin(i, stop) =>
      if i >= |s.threads| || !s.threads[i].Idle? then None
      else if stop then Some(s.(threads := s.threads[i := Flagged], stopping := true))
      else Some(s.(threads := s.threads[i := Incremented], issued := s.issued + 1))
    case Advance(i) => if i >= |s.threads| then None else AdvanceThread(s, i)
  }

  function Initial(n: nat): State {
    State(Init, seq(n, _ => Idle), Free, false, 0, 0, 0)
  }

  ghost predicate StepAt(states: seq<State>, actions: seq<Action>, k: nat)
    requires |states| == |actions| + 1 && k < |actions|
  {
    Next(states[k], actions[k]) == Some(states[k + 1])
  }

  ghost predicate IsRun(states: seq<State>, actions: seq<Action>) {
    && |states| == |actions| + 1
    && forall k :: 0 <= k < |actions| ==> StepAt(states, actions, k)
  }

  // ---- No wake-up is lost ----

  /** The thread has raised the flag or the generation but not yet notified. */
  predicate Owes(t: Notifier) {
    t.Flagged? || t.Incremented? || t.Holding?
  }

  ghost predicate SomeoneOwes(s: State) {
    exists i :: 0 <= i < |s.threads| && Owes(s.threads[i])
  }

  predicate MutexSound(s: State) {
    && (s.owner.Controller? <==> s.pc.CheckStop? || s.pc.CheckGen? || s.pc.PredFalse? || s.pc.Leave?)
    && (s.owner.Thread? ==> s.owner.index < |s.threads|)
    && forall i :: 0 <= i < |s.threads| ==>
         (s.owner == Thread(i) <==> s.threads[i].Holding? || s.threads[i].Notified?)
  }

  predicate CountsSound(s: State) {
    && s.observedAt <= s.issued && s.startedAt <= s.issued
    && (s.pc.Init? || s.pc.Top? || s.pc.Done? || s.observedAt <= s.startedAt)
  }

  /** The controller is not asleep, nor about to sleep, with an unseen generation
      or stop flag, unless some thread still owes a notification. */
  ghost predicate NoLostWakeUp(s: State) {
    && (s.pc.CheckGen? && s.stopping ==> SomeoneOwes(s))
    && (s.pc.PredFalse? || s.pc.Asleep? ==>
          s.stopping || Gen(s.issued) != Gen(s.observedAt) ==> SomeoneOwes(s))
  }

  ghost predicate Inv(s: State) {
    MutexSound(s) && CountsSound(s) && NoLostWakeUp(s)
  }

  lemma OthersStillOwe(s: State, i: nat, t: Notifier)
    requires i < |s.threads|
    ensures SomeoneOwes(s) && !Owes(s.threads[i]) ==> SomeoneOwes(s.(threads := s.threads[i := t]))
    ensures Owes(t) ==> SomeoneOwes(s.(threads := s.threads[i := t]))
  {
    if Owes(t) {
      assert s.threads[i := t][i] == t;
    } else if SomeoneOwes(s) && !Owes(s.threads[i]) {
      var j :| 0 <= j < |s.threads| && Owes(s.threads[j]);
      assert s.threads[i := t][j] == s.threads[j];
    }
  }

  lemma ControllerKeepsInv(s: State)
    requires Inv(s) && ControllerNext(s).Some?
    ensures Inv(ControllerNext(s).value)
  {
    var r := ControllerNext(s).value;
    assert SomeoneOwes(s) ==> SomeoneOwes(r);
  }

  lemma BeginKeepsInv(s: State, i: nat, stop: bool)
    requires Inv(s) && Next(s, Begin(i, stop)).Some?
    ensures Inv(Next(s, Begin(i, stop)).value)
  {
    var r := Next(s, Begin(i, stop)).value;
    OthersStillOwe(s, i, r.threads[i]);
    assert SomeoneOwes(r);
  }

  lemma AdvanceKeepsInv(s: State, i: nat)
    requires Inv(s) && i < |s.threads| && AdvanceThread(s, i).Some?
    ensures Inv(AdvanceThread(s, i).value)
  {
    var r := AdvanceThread(s, i).value;
    OthersStillOwe(s, i, r.threads[i]);
    assert Owes(r.threads[i]) ==> SomeoneOwes(r);
    assert SomeoneOwes(s) && !Owes(s.threads[i]) ==> SomeoneOwes(r);
  }

  lemma StepKeepsInv(s: State, a: Action)
    requires Inv(s) && Next(s, a).Some?
    ensures Inv(Next(s, a).value)
  {
    match a
    case Step => ControllerKeepsInv(s);
    case WakeUp(_) =>
    case Begin(i, stop) => BeginKeepsInv(s, i, stop);
    case Advance(i) => AdvanceKeepsInv(s, i);
  }

  /** In every interleaving of any number of notifiers, `Stop` and the
      controller, no reachable state has lost a wake-up. */
  lemma {:induction false} NoWakeUpIsLost(n: nat, states: seq<State>, actions: seq<Action>, k: nat)
    requires IsRun(states, actions) && states[0] == Initial(n) && k < |states|
    ensures Inv(states[k])
    decreases k
  {
    if k > 0 {
      NoWakeUpIsLost(n, states, actions, k - 1);
      assert StepAt(states, actions, k - 1);
      StepKeepsInv(states[k - 1], actions[k - 1]);
    }
  }

  /** Fewer than 2^64 increments happened since the last load. */
  predicate NotWrapped(s: State) {
    s.issued < s.observedAt + UINT64_SIZE
  }

  lemma GenTells(s: State)
    requires CountsSound(s) && NotWrapped(s)
    ensures Gen(s.issued) == Gen(s.observedAt) <==> s.issued == s.observedAt
  {
  }

  /** When every notification has been delivered and the controller sleeps, the
      last iteration started after the last of them, and no stop is pending. */
  lemma AsleepMeansServed(s: State)
    requires Inv(s) && NotWrapped(s) && s.pc.Asleep? && !SomeoneOwes(s)
    ensures s.startedAt == s.issued && !s.stopping
  {
    GenTells(s);
  }

  /** The bound on wrap-around is needed: 2^64 increments between two loads
      look like none. */
  lemma WrappedGenerationLooksSeen(s: State)
    requires s.issued == s.observedAt + UINT64_SIZE && s.pc == CheckGen(false)
    ensures Next(s, Step).value.pc.PredFalse?
  {
    assert Gen(s.issued) == Gen(s.observedAt);
  }

  // ---- Every notification is served ----

  /** A stop, or an increment that no iteration has started after. */
  predicate Pending(s: State) {
    s.stopping || s.issued > s.startedAt
  }

  function ThreadRank(t: Notifier): nat {
    match t
    case Flagged => 4
    case Incremented => 3
    case Holding => 2
    case Notified => 1
    case Idle => 0
  }

  function ThreadsRank(threads: seq<Notifier>): nat {
    if threads == [] then 0 else ThreadRank(threads[0]) + ThreadsRank(threads[1..])
  }

  /** Steps the controller is away from the next iteration, or from exit. */
  function PcRank(s: State): nat {
    match s.pc
    case Done => 0
    case Top => 1
    case Init => 2
    case LoadGen => 2
    case AfterWait => 3
    case Leave => 4
    case CheckGen(t) => if t || Gen(s.issued) != Gen(s.observedAt) then 5 else 10
    case CheckStop(_) => 6
    case WantLock => 7
    case Woken(_) => 7
    case Work => 8
    case Asleep => 8
    case PredFalse => 9
  }

  function Rank(s: State): nat {
    PcRank(s) + ThreadsRank(s.threads)
  }

  lemma {:induction false} ThreadsRankUpdate(threads: seq<Notifier>, i: nat, t: Notifier)
    requires i < |threads|
    ensures ThreadsRank(threads[i := t]) == ThreadsRank(threads) - ThreadRank(threads[i]) + ThreadRank(t)
  {
    if i > 0 {
      ThreadsRankUpdate(threads[1..], i - 1, t);
      assert threads[i := t][1..] == threads[1..][i - 1 := t];
    } else {
      assert threads[0 := t][1..] == threads[1..];
    }
  }

  lemma ControllerServes(s: State)
    requires Inv(s) && NotWrapped(s) && Pending(s) && ControllerNext(s).Some?
    requires ControllerNext(s).value.startedAt == s.startedAt
    ensures var r := ControllerNext(s).value; Pending(r) && Rank(r) + 1 <= Rank(s)
  {
    GenTells(s);
  }

  lemma ThreadStepCost(s: State, r: State, i: nat)
    requires i < |s.threads| == |r.threads| && r.threads == s.threads[i := r.threads[i]]
    requires CountsSound(s) && CountsSound(r) && NotWrapped(s) && NotWrapped(r)
    requires r.observedAt == s.observedAt && s.issued <= r.issued
    requires r.pc == s.pc || (s.pc.Asleep? && r.pc == Woken(false))
    ensures Rank(r) <= Rank(s) - ThreadRank(s.threads[i]) + ThreadRank(r.threads[i])
  {
    ThreadsRankUpdate(s.threads, i, r.threads[i]);
    GenTells(s);
    GenTells(r);
  }

  /** While something is pending, every step that is not a new notification
      brings the next iteration, or the exit, closer. */
  lemma StepsServe(s: State, a: Action)
    requires Inv(s) && NotWrapped(s) && Pending(s) && Next(s, a).Some?
    requires NotWrapped(Next(s, a).value) && Next(s, a).value.startedAt == s.startedAt
    ensures Pending(Next(s, a).value)
    ensures Rank(Next(s, a).value) + 1 <= Rank(s) + if a.Begin? then 5 else 0
  {
    var r := Next(s, a).value;
    match a
    case Step => ControllerServes(s);
    case WakeUp(_) =>
    case Begin(i, stop) =>
      BeginKeepsInv(s, i, stop);
      ThreadStepCost(s, r, i);
    case Advance(i) =>
      AdvanceKeepsInv(s, i);
      ThreadStepCost(s, r, i);
  }

  function Beginnings(actions: seq<Action>): nat {
    if actions == [] then 0
    else Beginnings(actions[..|actions| - 1]) + if actions[|actions| - 1].Begin? then 1 else 0
  }

  /** A pending notification or stop is served in bounded time: until the next
      iteration starts or the thread exits, a run has at most `Rank` steps, and
      five more for each notification that begins meanwhile. */
  lemma {:induction false} ServedInBoundedSteps(states: seq<State>, actions: seq<Action>)
    requires IsRun(states, actions) && Inv(states[0]) && Pending(states[0])
    requires forall k :: 0 <= k < |states| ==> NotWrapped(states[k]) && states[k].startedAt == states[0].startedAt
    ensures Inv(states[|actions|]) && Pending(states[|actions|])
    ensures |actions| + Rank(states[|actions|]) <= Rank(states[0]) + 5 * Beginnings(actions)
    decreases |actions|
  {
    if actions != [] {
      var n := |actions| - 1;
      assert IsRun(states[..|actions|], actions[..n]) by {
        forall k | 0 <= k < n ensures StepAt(states[..|actions|], actions[..n], k) {
          assert StepAt(states, actions, k);
        }
      }
      ServedInBoundedSteps(states[..|actions|], actions[..n]);
      assert StepAt(states, actions, n);
      StepKeepsInv(states[n], actions[n]);
      StepsServe(states[n], actions[n]);
    }
  }

  /** Until then some thread can always move, with no help from the clock. */
  lemma SomeoneCanMove(s: State)
    requires Inv(s) && NotWrapped(s) && Pending(s) && !s.pc.Done?
    ensures Next(s, Step).Some? || exists i :: Next(s, Advance(i)).Some?
  {
    GenTells(s);
    if s.owner.Thread? {
      assert Next(s, Advance(s.owner.index)).Some?;
    } else if s.pc.Asleep? {
      var i :| 0 <= i < |s.threads| && Owes(s.threads[i]);
      assert Next(s, Advance(i)).Some?;
    }
  }
}
