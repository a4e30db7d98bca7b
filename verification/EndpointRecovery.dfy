/** The endpoint capture thread: session ownership through failures, device
    changes, recovery and stop requests. */
module EndpointRecovery {
  import opened Base
  import opened SessionAudit
  import opened EndpointAnswers

  const BACKOFF_MS: seq<nat> := [250, 500, 1000, 2000]
  const POLL_MS: nat := 10

  /** Nothing was reported or captured in between. */
  predicate SameReports(l: Ledger, before: Ledger) {
    l.signals == before.signals && l.ready == before.ready && l.captures == before.captures
  }

  lemma NoStopMonotone(s: Script, a: nat, b: nat)
    requires a <= b && NoStop(s, b)
    ensures NoStop(s, a)
  {
  }

  lemma StoppedRecovery(s: Script, retry: nat, j: nat)
    requires retry < 4 && !NoStop(s, AttemptAnswer(retry))
    requires forall k :: 0 <= k < retry ==> !Nth(s, AttemptAnswer(k)).ok
    ensures !RecoversAt(s, j)
  {
    if retry <= j < 4 && NoStop(s, AttemptAnswer(j)) {
      AttemptsAscend(retry, j);
      NoStopMonotone(s, AttemptAnswer(retry), AttemptAnswer(j));
    }
  }

  /** How many answers a recovery has heard when attempt `retry` is next. */
  function Heard(retry: nat): nat
    requires retry <= 4
  {
    if retry == 0 then 0 else AttemptAnswer(retry - 1) + 1
  }

  lemma AttemptHeard(s: Script, retry: nat)
    requires retry < 4
    ensures Nth(Drop(s, AttemptAnswer(retry)), 0) == Nth(s, AttemptAnswer(retry))
    ensures Drop(Drop(s, AttemptAnswer(retry)), 1) == Drop(s, Heard(retry + 1))
    ensures NoStop(s, Heard(retry + 1)) <==> NoStop(s, AttemptAnswer(retry)) && !Nth(s, AttemptAnswer(retry)).stop
  {
    DropDrop(s, AttemptAnswer(retry), 1);
    NoStopSplits(s, AttemptAnswer(retry), 1);
    assert Nth(Drop(s, AttemptAnswer(retry)), 0) == Nth(s, AttemptAnswer(retry));
  }

  lemma EndedRecovery(s: Script, retry: nat, j: nat)
    requires retry <= 4 && (retry == 4 || !NoStop(s, Heard(retry)))
    requires forall k :: 0 <= k < retry ==> !Nth(s, AttemptAnswer(k)).ok
    ensures !RecoversAt(s, j)
  {
    if retry <= j < 4 && NoStop(s, AttemptAnswer(j)) {
      AttemptsAscend(retry, j);
      NoStopMonotone(s, Heard(retry), AttemptAnswer(j));
    }
  }

  /** The first session is there after `n` answers, counted from the question
      for it: a fresh one, or one recovered after a failure that allows it. */
  ghost predicate FirstSession(s: Script, n: nat) {
    if Nth(s, 0).ok then n == 1
    else Nth(s, 0).recoverable && !Nth(s, 0).stop
         && exists j :: RecoversAt(Drop(s, 1), j) && n == 1 + AttemptAnswer(j) + 1
  }

  lemma RecoveredFirst(s: Script, at: nat)
    requires !Nth(s, 0).ok && Nth(s, 0).recoverable && !Nth(s, 0).stop && RecoversAt(Drop(s, 1), at)
    ensures FirstSession(s, 1 + AttemptAnswer(at) + 1)
    ensures Drop(Drop(s, 1), AttemptAnswer(at) + 1) == Drop(s, 1 + AttemptAnswer(at) + 1)
    ensures NoStop(s, 1 + AttemptAnswer(at) + 1) <==> !Nth(Drop(s, 1), AttemptAnswer(at)).stop
  {
    DropDrop(s, 1, AttemptAnswer(at) + 1);
    NoStopSplits(s, 1, AttemptAnswer(at) + 1);
    NoStopSplits(Drop(s, 1), AttemptAnswer(at), 1);
    assert Nth(Drop(Drop(s, 1), AttemptAnswer(at)), 0) == Nth(Drop(s, 1), AttemptAnswer(at));
    assert Nth(s, 0) == Nth(s, 0 + 0);
  }

  /** The first two answers of a round let the engine start. */
  predicate EngineStarts(s: Script) {
    !Nth(s, 0).stop && Nth(s, 1).ok
  }

  /** Counted from the question for the sink's registration: the device is lost
      with answer `n`, after nothing but quiet rounds and no stop request. */
  ghost predicate LostAfter(s: Script, n: nat) {
    && n >= 1 && NoStop(s, n + 2) && Nth(s, n).round.DeviceLost?
    && forall i :: 1 <= i < n ==> Nth(s, i).round.Quiet?
  }

  lemma LostOnce(s: Script, a: nat, b: nat)
    requires LostAfter(s, a) && LostAfter(s, b)
    ensures a == b
  {
  }

  /** A round is lost when, behind its first two answers, it is lost as above. */
  lemma LosesIff(s: Script, lost: nat)
    requires lost >= 2 && !Nth(s, 0).stop && !Nth(s, 1).stop && Nth(s, 1).ok
    ensures LosesAt(s, lost) <==> LostAfter(Drop(s, 2), lost - 2)
  {
    NoStopSplits(s, 2, lost);
    if LosesAt(s, lost) {
      forall i | 1 <= i < lost - 2 ensures Nth(Drop(s, 2), i).round.Quiet? {
        assert Nth(Drop(s, 2), i) == Nth(s, i + 2);
      }
    }
    if LostAfter(Drop(s, 2), lost - 2) {
      forall i | 3 <= i < lost ensures Nth(s, i).round.Quiet? {
        assert Nth(Drop(s, 2), i - 2) == Nth(s, i);
      }
    }
    assert Nth(Drop(s, 2), lost - 2) == Nth(s, lost);
  }

  /** No device loss here is made good. */
  ghost predicate NeverRecovers(s: Script) {
    forall n: nat :: LostAfter(s, n) ==> !Recovers(Drop(s, n + 2))
  }

  lemma LostForGood(s: Script, at: nat)
    requires LostAfter(s, at) && !Recovers(Drop(s, at + 2))
    ensures NeverRecovers(s)
  {
    forall n: nat | LostAfter(s, n) ensures !Recovers(Drop(s, n + 2)) {
      LostOnce(s, at, n);
    }
  }

  lemma RoundMayRecover(s: Script, l: nat, k: nat)
    requires GoesOn(s, l, k)
    ensures EngineStarts(s) && NoStop(s, 2) && !NeverRecovers(Drop(s, 2))
  {
    LosesIff(s, l);
    DropDrop(s, 2, l);
    assert RecoversAt(Drop(Drop(s, 2), l), k);
  }

  lemma RoundEnds(s: Script)
    requires EngineStarts(s) && NoStop(s, 2) ==> NeverRecovers(Drop(s, 2))
    ensures forall l: nat, k: nat :: !GoesOn(s, l, k)
  {
    forall l: nat, k: nat ensures !GoesOn(s, l, k) {
      if GoesOn(s, l, k) {
        RoundMayRecover(s, l, k);
      }
    }
  }

  lemma RoundGoesOn(s: Script, rest: Script, at: nat, j: nat)
    requires EngineStarts(s) && !Nth(s, 1).stop && rest == Drop(s, 2)
    requires LostAfter(rest, at) && RecoversAt(Drop(rest, at + 2), j)
    ensures GoesOn(s, at + 2, j)
    ensures Drop(Drop(rest, at + 2), AttemptAnswer(j) + 1) == Drop(s, RoundLength(at + 2, j))
    ensures NoStop(s, RoundLength(at + 2, j)) <==> !Nth(Drop(rest, at + 2), AttemptAnswer(j)).stop
  {
    DropDrop(s, 2, at + 2);
    LosesIff(s, at + 2);
    NoStopSplits(s, 2, at + 2);
    AnswersLeft(s, at, j);
  }

  /** Both ways a round can end, from how its capture loop and recovery ended. */
  lemma RoundDecides(s: Script, live: bool, captured: bool, rest: Script, again: bool, at: nat, j: nat)
    requires captured <==> live && EngineStarts(s)
    requires captured ==> rest == Drop(s, 2)
    requires again ==> captured && NoStop(s, 2) && LostAfter(rest, at) && RecoversAt(Drop(rest, at + 2), j)
    requires captured && NoStop(s, 2) && !again ==> NeverRecovers(rest)
    ensures live && !again ==> forall l: nat, k: nat :: !GoesOn(s, l, k)
    ensures again ==> GoesOn(s, at + 2, j)
    ensures again ==> Drop(Drop(rest, at + 2), AttemptAnswer(j) + 1) == Drop(s, RoundLength(at + 2, j))
    ensures again ==> (NoStop(s, RoundLength(at + 2, j)) <==> !Nth(Drop(rest, at + 2), AttemptAnswer(j)).stop)
  {
    if again {
      RoundGoesOn(s, rest, at, j);
    } else if live {
      RoundEnds(s);
    }
  }

  /** What is left of the answers after such a round. */
  lemma AnswersLeft(s: Script, at: nat, j: nat)
    requires j < 4 && NoStop(s, at + 4) && NoStop(Drop(s, at + 4), AttemptAnswer(j))
    ensures Drop(Drop(s, at + 4), AttemptAnswer(j) + 1) == Drop(s, RoundLength(at + 2, j))
    ensures NoStop(s, RoundLength(at + 2, j)) <==> !Nth(Drop(s, at + 4), AttemptAnswer(j)).stop
  {
    DropDrop(s, at + 4, AttemptAnswer(j) + 1);
    NoStopSplits(s, at + 4, AttemptAnswer(j) + 1);
    StopsOrNot(Drop(s, at + 4), AttemptAnswer(j));
  }

  lemma StopsOrNot(s: Script, n: nat)
    requires NoStop(s, n)
    ensures NoStop(s, n + 1) <==> !Nth(s, n).stop
  {
  }

  /** How the capture loop ended, counted from the registration. */
  lemma LoopLost(s: Script, n: nat)
    requires !Nth(s, 0).stop && n > 0 && NoStop(Drop(s, 1), n) && !Nth(s, n + 1).stop
    requires Nth(Drop(s, 1), n - 1).round.DeviceLost?
    requires forall i :: 0 <= i < n - 1 ==> Nth(Drop(s, 1), i).round.Quiet?
    ensures LostAfter(s, n)
  {
    NoStopSplits(s, 1, n);
    NoStopSplits(s, n + 1, 1);
    assert NoStop(s, 1);
    assert Nth(Drop(s, n + 1), 0) == Nth(s, n + 1);
    forall i | 1 <= i < n ensures Nth(s, i).round.Quiet? {
      assert Nth(Drop(s, 1), i - 1) == Nth(s, i);
    }
  }

  /** The first answer that is no quiet round, or brings a stop, decides. */
  lemma LoopNotLost(s: Script, n: nat, k: nat)
    requires n > 0 && forall i :: 0 <= i < n - 1 ==> Nth(Drop(s, 1), i).round.Quiet?
    requires Nth(Drop(s, 1), n - 1).stop || Nth(s, n + 1).stop || Nth(Drop(s, 1), n - 1).round.Fatal?
    ensures !LostAfter(s, k)
  {
    assert Nth(Drop(s, 1), n - 1) == Nth(s, n);
    if k < n && k >= 1 {
      assert Nth(Drop(s, 1), k - 1) == Nth(s, k);
    }
  }

  // ---- How many sessions the thread acquires ----

  /** With `acquired` sessions so far, the thread acquires as many more as the
      rounds starting with the answers `rest` survive. */
  ghost predicate WillAcquire(s: Script, acquired: nat, rest: Script, live: bool) {
    forall n: nat :: Acquires(s, n) <==> n < acquired || (live && Survives(rest, n + 1 - acquired))
  }

  lemma NeverOpens(s: Script)
    requires !NoStop(s, 2)
    ensures forall n: nat :: !Acquires(s, n)
  {
  }

  lemma FirstMeansOpens(s: Script, k: nat)
    ensures NoStop(s, 2) && FirstSession(Drop(s, 2), k) <==> OpensAfter(s, k + 2)
  {
    assert Nth(Drop(s, 2), 0) == Nth(s, 2);
    DropDrop(s, 2, 1);
  }

  lemma NeverFirst(s: Script)
    requires forall k: nat :: !FirstSession(Drop(s, 2), k)
    ensures forall n: nat :: !Acquires(s, n)
  {
    forall n: nat ensures !Acquires(s, n) {
      if Acquires(s, n) {
        var k: nat :| OpensAfter(s, k) && (n == 0 || (NoStop(s, k) && Survives(Drop(s, k), n)));
        FirstMeansOpens(s, if k >= 2 then k - 2 else 0);
      }
    }
  }

  lemma FirstIs(s: Script, k: nat)
    requires NoStop(s, 2) && FirstSession(Drop(s, 2), k)
    ensures WillAcquire(s, 1, Drop(Drop(s, 2), k), NoStop(Drop(s, 2), k))
  {
    FirstMeansOpens(s, k);
    DropDrop(s, 2, k);
    NoStopSplits(s, 2, k);
    forall n: nat
      ensures Acquires(s, n) <==> n == 0 || (NoStop(s, k + 2) && Survives(Drop(s, k + 2), n))
    {
      if Acquires(s, n) {
        var l :| OpensAfter(s, l) && (n == 0 || (NoStop(s, l) && Survives(Drop(s, l), n)));
        OpensOnce(s, k + 2, l);
      }
    }
  }

  lemma OneMore(s: Script, acquired: nat, rest: Script, lost: nat, j: nat)
    requires acquired > 0 && GoesOn(rest, lost, j) && WillAcquire(s, acquired, rest, true)
    ensures WillAcquire(s, acquired + 1, Drop(rest, RoundLength(lost, j) + 1),
                        NoStop(rest, RoundLength(lost, j) + 1))
  {
    var next := RoundLength(lost, j) + 1;
    forall n: nat
      ensures Acquires(s, n) <==> n <= acquired || (NoStop(rest, next) && Survives(Drop(rest, next), n - acquired))
    {
      if n >= acquired {
        SurvivesNext(rest, lost, j, n + 1 - acquired);
      }
    }
  }

  lemma NoMore(s: Script, acquired: nat, rest: Script, left: Script)
    requires acquired > 0 && WillAcquire(s, acquired, rest, true)
    requires forall l: nat, k: nat :: !GoesOn(rest, l, k)
    ensures WillAcquire(s, acquired, left, false)
  {
    forall n: nat ensures Acquires(s, n) <==> n < acquired {
      assert n >= acquired ==> !Survives(rest, n + 1 - acquired);
    }
  }

  lemma NextLook(s: Script, n: nat)
    ensures Drop(Drop(s, n), 1) == Drop(s, n + 1)
    ensures NoStop(s, n + 1) <==> NoStop(s, n) && !Nth(Drop(s, n), 0).stop
  {
    NoStopSplits(s, n, 1);
  }

  /** The same, for a round and the question that follows it. */
  lemma AfterRound(s: Script, acquired: nat, rest: Script, live: bool,
      again: bool, lost: nat, j: nat, left: Script, running: bool)
    requires acquired > 0 && WillAcquire(s, acquired, rest, live)
    requires again ==> live && GoesOn(rest, lost, j) && left == Drop(Drop(rest, RoundLength(lost, j)), 1)
    requires again ==> (running <==> NoStop(rest, RoundLength(lost, j))
                                     && !Nth(Drop(rest, RoundLength(lost, j)), 0).stop)
    requires live && !again ==> forall l: nat, k: nat :: !GoesOn(rest, l, k)
    ensures WillAcquire(s, acquired + if again then 1 else 0, left, running && again)
  {
    if again {
      OneMore(s, acquired, rest, lost, j);
      NextLook(rest, RoundLength(lost, j));
    } else if live {
      NoMore(s, acquired, rest, left);
    }
  }

  class EndpointLoopbackSource {
    var running: bool
    var current: Option<nat>
    var recoverySession: Option<nat>
    var notificationRegistered: bool
    var acquired: nat
    var log: seq<Event>
    var script: Script

    /** The ledger of the log agrees with what the fields own. */
    ghost predicate Valid()
      reads this
    {
      var l := Audit(log);
      && l.sound && l.acquired == acquired
      && l.held == (if current.Some? then current else recoverySession)
      && (current.None? || recoverySession.None?)
      && l.registered == notificationRegistered && (notificationRegistered ==> current.Some?)
    }

    ghost predicate HoldsNothing()
      reads this
    {
      current.None? && recoverySession.None?
    }

    constructor (script: Script)
      ensures Valid() && HoldsNothing() && running && log == []
      ensures this.script == script
    {
      running, current, recoverySession, notificationRegistered := true, None, None, false;
      acquired, log := 0, [];
      this.script := script;
    }

    /** Asks the environment. */
    method Ask() returns (a: Answer)
      modifies this`running, this`script
      ensures a == Nth(old(script), 0) && script == Drop(old(script), 1)
      ensures running == (old(running) && !a.stop)
    {
      a := Nth(script, 0);
      script := Drop(script, 1);
      running := running && !a.stop;
    }

    method Emit(e: Event)
      modifies this`log
      ensures log == old(log) + [e] && Audit(log) == Book(old(Audit(log)), e)
    {
      AuditNext(log, e);
      log := log + [e];
    }

    /** Waits in small steps so that a stop request is noticed. */
    method WaitBackoff(ms: nat)
      requires running && ms % POLL_MS == 0
      modifies this`running, this`script
      ensures running <==> NoStop(old(script), ms / POLL_MS)
      ensures running ==> script == Drop(old(script), ms / POLL_MS)
      ensures Left(script) <= Left(old(script))
    {
      var elapsed := 0;
      ghost var n := 0;
      while elapsed < ms && running
        invariant elapsed == POLL_MS * n && n <= ms / POLL_MS
        invariant script == Drop(old(script), n) && (running <==> NoStop(old(script), n))
        decreases ms - elapsed
      {
        DropDrop(old(script), n, 1);
        NoStopSplits(old(script), n, 1);
        var a := Ask();
        assert a == Nth(old(script), n);
        elapsed, n := elapsed + POLL_MS, n + 1;
      }
      if !running {
        NoStopSplits(old(script), n, ms / POLL_MS - n);
      }
    }

    /** Up to four attempts, each after its backoff. It succeeds exactly when one
        of them is answered well before a stop request, and takes the first. */
    method RecoverEndpoint() returns (recovered: bool, ghost at: nat)
      requires Valid() && HoldsNothing()
      modifies this`running, this`script, this`log, this`acquired, this`recoverySession
      ensures Valid() && current.None? && (recovered <==> recoverySession.Some?)
      ensures recovered ==> old(running) && RecoversAt(old(script), at)
      ensures !recovered && old(running) ==> forall j: nat :: !RecoversAt(old(script), j)
      ensures recovered ==>
                && script == Drop(old(script), AttemptAnswer(at) + 1) && Audit(log).attempts == at + 1
                && (running <==> !Nth(old(script), AttemptAnswer(at)).stop)
                && acquired == old(acquired) + 1 && recoverySession == Some(old(acquired))
      ensures !recovered ==> acquired == old(acquired) && (!running || Audit(log).attempts == 4)
      ensures Left(script) <= Left(old(script)) && (running ==> old(running))
      ensures SameReports(Audit(log), old(Audit(log)))
    {
      Emit(Recover);
      var retry := 0;
      at := 0;
      while retry < |BACKOFF_MS| && running
        invariant retry <= 4 && Audit(log).attempts == retry
        invariant script == Drop(old(script), Heard(retry))
        invariant running <==> old(running) && NoStop(old(script), Heard(retry))
        invariant forall k :: 0 <= k < retry ==> !Nth(old(script), AttemptAnswer(k)).ok
        invariant Valid() && HoldsNothing() && acquired == old(acquired)
        invariant SameReports(Audit(log), old(Audit(log)))
      {
        var waited, ok := TryAgain(BACKOFF_MS[retry], old(script), retry);
        if !waited {
          forall j: nat ensures !RecoversAt(old(script), j) {
            StoppedRecovery(old(script), retry, j);
          }
          return false, 0;
        }
        if ok {
          return true, retry;
        }
        retry := retry + 1;
      }
      recovered := false;
      if old(running) {
        forall j: nat ensures !RecoversAt(old(script), j) {
          EndedRecovery(old(script), retry, j);
        }
      }
    }

    /** One attempt, unless a stop request comes while waiting for it. */
    method TryAgain(backoff: nat, ghost s: Script, ghost retry: nat) returns (waited: bool, ok: bool)
      requires retry < 4 && backoff == BACKOFF_MS[retry]
      requires Valid() && HoldsNothing() && running && Audit(log).attempts == retry
      requires script == Drop(s, Heard(retry)) && NoStop(s, Heard(retry))
      modifies this`running, this`script, this`log, this`acquired, this`recoverySession
      ensures Valid() && current.None? && Left(script) <= Left(old(script))
      ensures SameReports(Audit(log), old(Audit(log)))
      ensures waited <==> NoStop(s, AttemptAnswer(retry))
      ensures !waited ==> !running && !ok
      ensures waited ==> script == Drop(s, Heard(retry + 1)) && Audit(log).attempts == retry + 1
                         && ok == Nth(s, AttemptAnswer(retry)).ok
                         && (running <==> !Nth(s, AttemptAnswer(retry)).stop)
                         && (running <==> NoStop(s, Heard(retry + 1)))
      ensures if ok then recoverySession == Some(old(acquired)) && acquired == old(acquired) + 1
              else HoldsNothing() && acquired == old(acquired)
    {
      waited := WaitForAttempt(backoff, s, retry);
      ok := false;
      if waited {
        ok := MakeAttempt(s, retry);
      }
    }

    method WaitForAttempt(backoff: nat, ghost s: Script, ghost retry: nat) returns (waited: bool)
      requires retry < 4 && backoff == BACKOFF_MS[retry] && running
      requires script == Drop(s, Heard(retry)) && NoStop(s, Heard(retry))
      modifies this`running, this`script
      ensures Left(script) <= Left(old(script))
      ensures waited == running && (waited <==> NoStop(s, AttemptAnswer(retry)))
      ensures waited ==> script == Drop(s, AttemptAnswer(retry))
    {
      WaitBackoff(backoff);
      ghost var polls := backoff / POLL_MS;
      assert Heard(retry) + polls == AttemptAnswer(retry);
      NoStopSplits(s, Heard(retry), polls);
      DropDrop(s, Heard(retry), polls);
      waited := running;
    }

    method MakeAttempt(ghost s: Script, ghost retry: nat) returns (ok: bool)
      requires retry < 4 && Valid() && HoldsNothing() && running && Audit(log).attempts == retry
      requires script == Drop(s, AttemptAnswer(retry)) && NoStop(s, AttemptAnswer(retry))
      modifies this`running, this`script, this`log, this`acquired, this`recoverySession
      ensures Valid() && current.None? && Left(script) <= Left(old(script))
      ensures SameReports(Audit(log), old(Audit(log))) && Audit(log).attempts == retry + 1
      ensures script == Drop(s, Heard(retry + 1)) && ok == Nth(s, AttemptAnswer(retry)).ok
      ensures running <==> !Nth(s, AttemptAnswer(retry)).stop
      ensures running <==> NoStop(s, Heard(retry + 1))
      ensures if ok then recoverySession == Some(old(acquired)) && acquired == old(acquired) + 1
              else HoldsNothing() && acquired == old(acquired)
    {
      AttemptHeard(s, retry);
      Emit(Attempt);
      var init := Ask();
      ok := init.ok;
      if ok {
        TakeRecovered();
      }
    }

    method TakeRecovered()
      requires Valid() && HoldsNothing()
      modifies this`log, this`acquired, this`recoverySession
      ensures Valid() && recoverySession == Some(old(acquired)) && acquired == old(acquired) + 1
      ensures SameReports(Audit(log), old(Audit(log))) && Audit(log).attempts == old(Audit(log).attempts)
    {
      recoverySession := Some(acquired);
      Emit(Acquire(acquired));
      acquired := acquired + 1;
    }

    method TakeFresh()
      requires Valid() && HoldsNothing()
      modifies this`log, this`acquired, this`current
      ensures Valid() && current == Some(old(acquired)) && acquired == old(acquired) + 1
      ensures SameReports(Audit(log), old(Audit(log)))
    {
      current := Some(acquired);
      Emit(Acquire(acquired));
      acquired := acquired + 1;
    }

    method TakeOver()
      requires Valid() && current.None?
      modifies this`current, this`recoverySession
      ensures Valid() && recoverySession.None? && current == old(recoverySession)
    {
      current, recoverySession := recoverySession, None;
    }

    method ReportFailure()
      requires Valid() && Audit(log).signals == 0
      modifies this`log
      ensures Valid() && Audit(log).signals == 1 && !Audit(log).ready
      ensures Audit(log).captures == old(Audit(log).captures) && Audit(log).attempts == old(Audit(log).attempts)
    {
      Emit(Signal(false));
    }

    /** Gets the first session: a fresh one, or one recovered after a failure
        that allows it. Reports a startup that fails for good. */
    method OpenFirst() returns (ok: bool, ghost n: nat)
      requires Valid() && HoldsNothing() && running && Audit(log).signals == 0
      modifies this`running, this`script, this`log, this`acquired, this`current, this`recoverySession
      ensures Valid() && recoverySession.None? && (ok <==> current.Some?) && Left(script) <= Left(old(script))
      ensures ok ==> FirstSession(old(script), n) && script == Drop(old(script), n)
                     && (running <==> NoStop(old(script), n))
      ensures !ok ==> forall k: nat :: !FirstSession(old(script), k)
      ensures acquired == old(acquired) + if ok then 1 else 0
      ensures Audit(log).signals == (if ok then 0 else 1) && Audit(log).ready == (ok && old(Audit(log).ready))
      ensures Audit(log).captures == old(Audit(log).captures)
    {
      var init := Ask();
      n := 1;
      if init.ok {
        TakeFresh();
        return true, 1;
      }
      ok := false;
      if init.recoverable {
        ghost var at;
        ok, at := RecoverEndpoint();
        if ok {
          RecoveredFirst(old(script), at);
          n := 1 + AttemptAnswer(at) + 1;
        }
      }
      TakeOver();
      if !ok {
        ReportFailure();
      }
    }

    /** Gets the session for a round: at first as above, later the recovered one. */
    method OpenSession(firstStartup: bool) returns (ok: bool, ghost n: nat)
      requires Valid() && current.None? && (firstStartup ==> recoverySession.None?)
      requires firstStartup ==> running && Audit(log).signals == 0
      modifies this`running, this`script, this`log, this`acquired, this`current, this`recoverySession
      ensures Valid() && recoverySession.None? && (ok <==> current.Some?) && Left(script) <= Left(old(script))
      ensures !firstStartup ==> (ok <==> old(recoverySession).Some?) && script == old(script) && running == old(running)
                                && acquired == old(acquired) && log == old(log)
      ensures firstStartup && ok ==> FirstSession(old(script), n) && script == Drop(old(script), n)
                                     && (running <==> NoStop(old(script), n))
      ensures firstStartup && !ok ==> forall k: nat :: !FirstSession(old(script), k)
      ensures firstStartup ==> acquired == old(acquired) + if ok then 1 else 0
      ensures firstStartup ==> Audit(log).signals == if ok then 0 else 1
      ensures firstStartup ==> Audit(log).ready == (ok && old(Audit(log).ready))
      ensures Audit(log).captures == old(Audit(log).captures)
    {
      if firstStartup {
        ok, n := OpenFirst();
      } else {
        n, ok := 0, recoverySession.Some?;
        TakeOver();
      }
    }

    method ReleaseCurrent()
      requires Valid() && current.Some?
      modifies this`log, this`current, this`notificationRegistered
      ensures Valid() && current.None? && !notificationRegistered
      ensures SameReports(Audit(log), old(Audit(log)))
    {
      if notificationRegistered {
        Emit(Unregister(current.value));
        notificationRegistered := false;
      }
      Emit(Release(current.value));
      current := None;
    }

    method RegisterSink()
      requires Valid() && current.Some? && !notificationRegistered
      modifies this`running, this`script, this`log, this`notificationRegistered
      ensures Valid() && SameReports(Audit(log), old(Audit(log)))
      ensures script == Drop(old(script), 1) && running == (old(running) && !Nth(old(script), 0).stop)
    {
      var registration := Ask();
      if registration.ok {
        Emit(Register(current.value));
        notificationRegistered := true;
      }
    }

    /** Captures until the device is lost, a packet fails, or a stop request: the
        first answer that is not a quiet round ends it. */
    method CaptureLoop() returns (deviceInvalidated: bool, ghost n: nat)
      modifies this`running, this`script
      ensures script == Drop(old(script), n) && Left(script) <= Left(old(script))
      ensures running ==> NoStop(old(script), n)
      ensures !old(running) ==> n == 0 && !deviceInvalidated && !running
      ensures old(running) ==> n > 0 && (deviceInvalidated <==> Nth(old(script), n - 1).round.DeviceLost?)
      ensures deviceInvalidated && !running ==> Nth(old(script), n - 1).stop
      ensures forall i :: 0 <= i < n - 1 ==> Nth(old(script), i).round.Quiet? && !Nth(old(script), i).stop
      ensures deviceInvalidated || !running
      ensures old(running) && !deviceInvalidated ==>
                Nth(old(script), n - 1).stop || Nth(old(script), n - 1).round.Fatal?
    {
      deviceInvalidated, n := false, 0;
      while running && !deviceInvalidated
        invariant script == Drop(old(script), n) && Left(script) <= Left(old(script))
        invariant running ==> NoStop(old(script), n)
        invariant n == 0 ==> running == old(running) && !deviceInvalidated
        invariant n > 0 ==> old(running) && (deviceInvalidated <==> Nth(old(script), n - 1).round.DeviceLost?)
        invariant deviceInvalidated && !running ==> Nth(old(script), n - 1).stop
        invariant forall i :: 0 <= i < n - 1 ==> Nth(old(script), i).round.Quiet? && !Nth(old(script), i).stop
        invariant n > 0 && running && !deviceInvalidated ==>
                    Nth(old(script), n - 1).round.Quiet? && !Nth(old(script), n - 1).stop
        invariant n > 0 && !running && !deviceInvalidated ==>
                    Nth(old(script), n - 1).stop || Nth(old(script), n - 1).round.Fatal?
        decreases Left(script), running
      {
        DropDrop(old(script), n, 1);
        NoStopSplits(old(script), n, 1);
        var a := Ask();
        assert a == Nth(old(script), n);
        n := n + 1;
        match a.round
        case Quiet =>
        case DeviceLost => deviceInvalidated := true;
        case Fatal => running := false;
      }
    }

    /** Starts the engine of the session in hand, unless a stop request comes
        first; otherwise, or when it does not start, the session is released. */
    method BeginCapture(firstStartup: bool) returns (captured: bool)
      requires Valid() && current.Some? && recoverySession.None? && !notificationRegistered
      requires Audit(log).signals == if firstStartup then 0 else 1
      modifies this`running, this`script, this`log, this`current, this`notificationRegistered
      ensures Valid() && !notificationRegistered && Audit(log).signals == 1
      ensures captured <==> old(running) && !Nth(old(script), 0).stop && Nth(old(script), 1).ok
      ensures if captured then current == old(current) && script == Drop(old(script), 2) else current.None?
      ensures captured ==> (running <==> NoStop(old(script), 2))
      ensures Audit(log).captures == old(Audit(log).captures) + if captured then 1 else 0
      ensures Audit(log).ready == if firstStartup then captured else old(Audit(log).ready)
      ensures Left(script) < Left(old(script)) || (Left(script) == 0 && !running)
      ensures running ==> old(running)
    {
      captured := StartEngine();
      if captured {
        BeginReports(firstStartup);
      } else {
        GiveUp(firstStartup);
      }
    }

    method StartEngine() returns (started: bool)
      modifies this`running, this`script
      ensures started <==> old(running) && !Nth(old(script), 0).stop && Nth(old(script), 1).ok
      ensures started ==> script == Drop(old(script), 2) && (running <==> NoStop(old(script), 2))
      ensures Left(script) < Left(old(script)) || (Left(script) == 0 && !running)
      ensures running ==> old(running)
    {
      started := false;
      var poll := Ask();
      if running {
        var engine := Ask();
        DropDrop(old(script), 1, 1);
        NoStopSplits(old(script), 1, 1);
        assert engine == Nth(old(script), 1);
        started := engine.ok;
      }
    }

    method BeginReports(firstStartup: bool)
      requires Valid() && current.Some?
      requires Audit(log).signals == if firstStartup then 0 else 1
      modifies this`log
      ensures Valid() && Audit(log).signals == 1 && Audit(log).captures == old(Audit(log).captures) + 1
      ensures Audit(log).ready == (firstStartup || old(Audit(log).ready))
    {
      if firstStartup {
        Emit(Signal(true));
      }
      Emit(Capture(current.value));
    }

    method GiveUp(firstStartup: bool)
      requires Valid() && current.Some? && !notificationRegistered
      requires Audit(log).signals == if firstStartup then 0 else 1
      modifies this`log, this`current, this`notificationRegistered
      ensures Valid() && current.None? && !notificationRegistered
      ensures Audit(log).signals == 1 && Audit(log).captures == old(Audit(log).captures)
      ensures Audit(log).ready == (!firstStartup && old(Audit(log).ready))
    {
      ReleaseCurrent();
      if firstStartup {
        ReportFailure();
      }
    }

    /** Captures with the session in hand until it is lost or given up. */
    method CaptureUntilLost() returns (lost: bool, ghost at: nat)
      requires Valid() && current.Some? && recoverySession.None? && !notificationRegistered
      modifies this`running, this`script, this`log, this`current, this`notificationRegistered
      ensures Valid() && HoldsNothing() && SameReports(Audit(log), old(Audit(log)))
      ensures Left(script) <= Left(old(script)) && (running ==> old(running))
      ensures lost ==> old(running) && running && LostAfter(old(script), at) && script == Drop(old(script), at + 2)
      ensures !lost && old(running) ==> forall k: nat :: !LostAfter(old(script), k)
    {
      RegisterSink();
      var deviceInvalidated;
      ghost var n;
      ghost var s := script;
      deviceInvalidated, n := CaptureLoop();
      ReleaseCurrent();
      var _ := Ask();
      DropDrop(s, n, 1);
      NoStopSplits(s, n, 1);
      lost, at := running && deviceInvalidated, n;
      if lost {
        LoopLost(old(script), n);
        DropDrop(old(script), 1, n + 1);
      } else if old(running) && n > 0 {
        assert Nth(Drop(old(script), 1), n) == Nth(old(script), n + 1);
        forall k: nat ensures !LostAfter(old(script), k) {
          LoopNotLost(old(script), n, k);
        }
      }
    }

    /** Captures, and recovers a lost device. */
    method CaptureAndRecover() returns (again: bool, ghost at: nat, ghost j: nat)
      requires Valid() && current.Some? && recoverySession.None? && !notificationRegistered
      modifies this
      ensures Valid() && current.None? && (again <==> recoverySession.Some?)
      ensures SameReports(Audit(log), old(Audit(log)))
      ensures again ==> old(running) && LostAfter(old(script), at) && RecoversAt(Drop(old(script), at + 2), j)
      ensures again ==> script == Drop(Drop(old(script), at + 2), AttemptAnswer(j) + 1)
                        && (running <==> !Nth(Drop(old(script), at + 2), AttemptAnswer(j)).stop)
      ensures !again && old(running) ==> NeverRecovers(old(script))
      ensures acquired == old(acquired) + if again then 1 else 0
      ensures Left(script) <= Left(old(script)) && (running ==> old(running))
    {
      again, j := false, 0;
      var gone;
      gone, at := CaptureUntilLost();
      if gone {
        again, j := RecoverEndpoint();
        if !again {
          LostForGood(old(script), at);
        }
      }
    }

    /** One round with a session in hand. Afterwards it is released. Another round
        follows exactly when the device was lost and recovered. */
    method CaptureRound(firstStartup: bool) returns (again: bool, ghost lost: nat, ghost j: nat)
      requires Valid() && current.Some? && recoverySession.None? && !notificationRegistered
      requires Audit(log).signals == if firstStartup then 0 else 1
      modifies this
      ensures Valid() && current.None? && Audit(log).signals == 1 && (again <==> recoverySession.Some?)
      ensures again ==> old(running) && GoesOn(old(script), lost, j)
                        && script == Drop(old(script), RoundLength(lost, j))
                        && (running <==> NoStop(old(script), RoundLength(lost, j)))
      ensures !again && old(running) ==> forall l: nat, k: nat :: !GoesOn(old(script), l, k)
      ensures acquired == old(acquired) + if again then 1 else 0
      ensures Audit(log).captures == old(Audit(log).captures) +
              if old(running) && !Nth(old(script), 0).stop && Nth(old(script), 1).ok then 1 else 0
      ensures firstStartup ==>
                (Audit(log).ready <==> old(running) && !Nth(old(script), 0).stop && Nth(old(script), 1).ok)
      ensures !firstStartup ==> Audit(log).ready == old(Audit(log).ready)
      ensures Left(script) < Left(old(script)) || (Left(script) == 0 && !running)
      ensures running ==> old(running)
    {
      again, lost, j := false, 0, 0;
      var captured := BeginCapture(firstStartup);
      ghost var at, s := 0, script;
      if captured {
        again, at, j := CaptureAndRecover();
        lost := at + 2;
      }
      RoundDecides(old(script), old(running), captured, s, again, at, j);
    }

    /** The whole thread. It acquires its sessions exactly as the answers call for:
        one that opens, and one more for each device loss that is recovered. */
    method CaptureThread(comReady: bool)
      requires Valid() && HoldsNothing() && running && log == [] && acquired == 0
      modifies this
      ensures Valid() && HoldsNothing() && !running
      ensures Audit(log).sound && Audit(log).held.None? && !Audit(log).registered
      ensures Audit(log).signals <= 1 && (acquired > 0 ==> Audit(log).signals == 1)
      ensures !comReady ==> acquired == 0 && Audit(log).signals == 1
      ensures comReady ==> forall n: nat :: acquired > n <==> Acquires(old(script), n)
      ensures Audit(log).captures <= acquired <= Audit(log).captures + 1
      ensures Audit(log).ready <==> Audit(log).captures > 0
    {
      if !comReady {
        ReportFailure();
        running := false;
        return;
      }
      var _ := Ask();
      if !running {
        ReportFailure();
        NeverOpens(old(script));
        return;
      }
      DropDrop(old(script), 1, 1);
      NoStopSplits(old(script), 1, 1);
      var _ := Ask();
      if running {
        StartedThread(old(script));
      } else {
        NeverOpens(old(script));
      }
      running := false;
    }

    /** From the question for the first session. */
    method StartedThread(ghost s: Script)
      requires Valid() && HoldsNothing() && running && log == [] && acquired == 0
      requires NoStop(s, 2) && script == Drop(s, 2)
      modifies this
      ensures Valid() && HoldsNothing()
      ensures Audit(log).signals == 1
      ensures forall n: nat :: acquired > n <==> Acquires(s, n)
      ensures Audit(log).captures <= acquired <= Audit(log).captures + 1
      ensures Audit(log).ready <==> Audit(log).captures > 0
    {
      var firstStartup, again := true, true;
      while running && again
        invariant if firstStartup then AtStart(s, again) else BetweenRounds(s, again)
        decreases Left(script), running, firstStartup
      {
        var ok := NextSession(firstStartup, s);
        if !ok {
          firstStartup := false;
          again := false;
          break;
        }
        again := SurvivingRound(firstStartup, s);
        firstStartup := false;
      }
      if recoverySession.Some? {
        Emit(Release(recoverySession.value));
        recoverySession := None;
      }
    }

    /** Nothing is acquired or reported yet. */
    ghost predicate AtStart(s: Script, again: bool)
      reads this
    {
      && Valid() && HoldsNothing() && running && again
      && acquired == Audit(log).captures == Audit(log).signals == 0 && !Audit(log).ready
      && NoStop(s, 2) && script == Drop(s, 2)
    }

    /** At least one session was tried. With `again`, a recovered one is waiting. */
    ghost predicate BetweenRounds(s: Script, again: bool)
      reads this
    {
      && Valid() && current.None? && (again <==> recoverySession.Some?)
      && Audit(log).signals == 1
      && Audit(log).captures <= acquired <= Audit(log).captures + 1
      && (Audit(log).ready <==> Audit(log).captures > 0)
      && (again ==> Audit(log).captures == acquired - 1 && Audit(log).ready)
      && WillAcquire(s, acquired, script, running && again)
    }

    /** The session in hand is the last one acquired, and not captured yet. */
    ghost predicate InHand(s: Script, firstStartup: bool)
      reads this
    {
      && Valid() && current.Some? && recoverySession.None? && !notificationRegistered
      && acquired == Audit(log).captures + 1
      && (firstStartup <==> acquired == 1) && Audit(log).signals == (if firstStartup then 0 else 1)
      && Audit(log).ready == !firstStartup
      && WillAcquire(s, acquired, script, running)
    }

    method NextSession(firstStartup: bool, ghost s: Script) returns (ok: bool)
      requires if firstStartup then AtStart(s, true) else BetweenRounds(s, true)
      modifies this`running, this`script, this`log, this`acquired, this`current, this`recoverySession
      ensures if ok then InHand(s, firstStartup) else BetweenRounds(s, false)
      ensures Left(script) <= Left(old(script)) && (running ==> old(running))
    {
      ghost var n;
      ok, n := OpenSession(firstStartup);
      if firstStartup {
        if ok {
          FirstIs(s, n);
        } else {
          NeverFirst(s);
        }
      }
    }

    /** A round with the session in hand, and a look at the stop flag before the
        next. */
    method SurvivingRound(firstStartup: bool, ghost s: Script) returns (again: bool)
      requires InHand(s, firstStartup)
      modifies this
      ensures BetweenRounds(s, again)
      ensures Left(script) < Left(old(script)) || (Left(script) == 0 && !running)
      ensures running ==> old(running)
    {
      ghost var lost, j;
      ghost var rest, live := script, running;
      again, lost, j := CaptureRound(firstStartup);
      if again {
        var _ := Ask();
      }
      AfterRound(s, old(acquired), rest, live, again, lost, j, script, running);
    }
  }
}
