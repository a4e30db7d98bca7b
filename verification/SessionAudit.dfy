/** The log of an endpoint capture thread and the ledger that audits it. */
module SessionAudit {
  import opened Base

  const MAX_ATTEMPTS: nat := 4

  /** Sessions are numbered in the order in which they are acquired. */
  datatype Event =
    | Acquire(session: nat)
    | Release(session: nat)
    | Register(session: nat)
    | Unregister(session: nat)
    | Signal(success: bool)
    | Capture(session: nat)
    | Recover
    | Attempt

  datatype Ledger = Ledger(
    sound: bool,
    held: Option<nat>,
    registered: bool,
    acquired: nat,
    signals: nat,
    ready: bool,
    captures: nat,
    attempts: nat)

  const EMPTY_LEDGER := Ledger(true, None, false, 0, 0, false, 0, 0)

  /** Only one session is held at a time, with at most one notification sink,
      which goes before the session; startup is signalled once. */
  function Book(l: Ledger, e: Event): Ledger {
    match e
    case Acquire(s) => l.(sound := l.sound && l.held.None? && s == l.acquired, held := Some(s), acquired := s + 1)
    case Release(s) => l.(sound := l.sound && l.held == Some(s) && !l.registered, held := None)
    case Register(s) => l.(sound := l.sound && l.held == Some(s) && !l.registered, registered := true)
    case Unregister(s) => l.(sound := l.sound && l.held == Some(s) && l.registered, registered := false)
    case Signal(success) =>
      l.(sound := l.sound && l.signals == 0 && (success ==> l.held.Some?), signals := l.signals + 1, ready := success)
    case Capture(s) => l.(sound := l.sound && l.held == Some(s), captures := l.captures + 1)
    case Recover => l.(sound := l.sound && l.held.None?, attempts := 0)
    case Attempt => l.(sound := l.sound && l.attempts < MAX_ATTEMPTS, attempts := l.attempts + 1)
  }

  function Audit(log: seq<Event>): Ledger {
    if log == [] then EMPTY_LEDGER else Book(Audit(log[..|log| - 1]), log[|log| - 1])
  }

  lemma AuditNext(log: seq<Event>, e: Event)
    ensures Audit(log + [e]) == Book(Audit(log), e)
  {
    assert (log + [e])[..|log|] == log;
  }

  // ---- What a sound ledger means, by counting ----

  function Count(log: seq<Event>, e: Event): nat {
    if log == [] then 0 else Count(log[..|log| - 1], e) + if log[|log| - 1] == e then 1 else 0
  }

  predicate IsHeld(log: seq<Event>, session: nat) {
    Count(log, Acquire(session)) > Count(log, Release(session))
  }

  function Signals(log: seq<Event>): nat {
    Count(log, Signal(true)) + Count(log, Signal(false))
  }

  /** Attempts since the last recovery began. */
  function AttemptsInRecovery(log: seq<Event>): nat {
    if log == [] then 0
    else
      var n := |log| - 1;
      if log[n].Recover? then 0 else AttemptsInRecovery(log[..n]) + if log[n].Attempt? then 1 else 0
  }

  /** In a soundly booked log each session is acquired at most once, and has been
      released as often as it was acquired unless it is the one still held. */
  lemma {:induction false} SoundLogBalances(log: seq<Event>, session: nat)
    requires Audit(log).sound
    ensures Count(log, Acquire(session)) == if session < Audit(log).acquired then 1 else 0
    ensures Count(log, Release(session)) + (if Audit(log).held == Some(session) then 1 else 0) ==
            Count(log, Acquire(session))
    ensures Audit(log).held.Some? ==> Audit(log).held.value < Audit(log).acquired
  {
    if log != [] {
      SoundLogBalances(log[..|log| - 1], session);
    }
  }

  lemma {:induction false} SinkNeedsSession(log: seq<Event>)
    requires Audit(log).sound
    ensures Audit(log).registered ==> Audit(log).held.Some?
  {
    if log != [] {
      SinkNeedsSession(log[..|log| - 1]);
    }
  }

  /** How many sinks are registered for the session right now. */
  function Sinks(l: Ledger, session: nat): nat {
    if l.registered && l.held == Some(session) then 1 else 0
  }

  /** Every notification sink is unregistered once, while its session is held. */
  lemma {:induction false} SoundLogUnregisters(log: seq<Event>, session: nat)
    requires Audit(log).sound
    ensures Count(log, Unregister(session)) + Sinks(Audit(log), session) == Count(log, Register(session))
  {
    if log != [] {
      var shorter, last := log[..|log| - 1], log[|log| - 1];
      SoundLogUnregisters(shorter, session);
      SinkNeedsSession(shorter);
      SinksNext(Audit(shorter), last, session);
    }
  }

  lemma SinksNext(l: Ledger, e: Event, session: nat)
    requires Book(l, e).sound && (l.registered ==> l.held.Some?)
    ensures Sinks(Book(l, e), session) + (if e == Unregister(session) then 1 else 0) ==
            Sinks(l, session) + if e == Register(session) then 1 else 0
  {
  }

  lemma {:induction false} SoundLogBounds(log: seq<Event>)
    requires Audit(log).sound
    ensures Signals(log) == Audit(log).signals <= 1
    ensures AttemptsInRecovery(log) == Audit(log).attempts <= MAX_ATTEMPTS
  {
    if log != [] {
      SoundLogBounds(log[..|log| - 1]);
    }
  }

  /** Soundness covers every moment of the run, not only its end. */
  lemma {:induction false} SoundPrefix(log: seq<Event>, k: nat)
    requires Audit(log).sound && k <= |log|
    ensures Audit(log[..k]).sound
  {
    if k < |log| {
      SoundPrefix(log[..|log| - 1], k);
      assert log[..|log| - 1][..k] == log[..k];
    } else {
      assert log[..k] == log;
    }
  }

  /** When a soundly booked run ends with nothing held, every session acquired
      has been released exactly once, at no moment were two of them held, startup
      was signalled at most once and no recovery made more than four attempts. */
  lemma EndedRun(log: seq<Event>, k: nat, session: nat, other: nat)
    requires Audit(log).sound && Audit(log).held.None? && k <= |log|
    ensures Count(log, Acquire(session)) == Count(log, Release(session)) <= 1
    ensures var now := log[..k];
            && Count(now, Release(session)) <= Count(now, Acquire(session))
            && (IsHeld(now, session) && IsHeld(now, other) ==> session == other)
            && AttemptsInRecovery(now) <= MAX_ATTEMPTS
    ensures Signals(log) <= 1
  {
    SoundPrefix(log, k);
    SoundLogBalances(log, session);
    SoundLogBalances(log[..k], session);
    SoundLogBalances(log[..k], other);
    SoundLogBounds(log);
    SoundLogBounds(log[..k]);
  }
}
