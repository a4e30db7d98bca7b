/** What the environment answers an endpoint capture thread, one question after
    another, and what the answers call for. */
module EndpointAnswers {
  import opened Base

  /** What a packet round of the capture loop finds. */
  datatype Round = Quiet | DeviceLost | Fatal

  /** The answer to one question: whether a stop request has arrived, and the
      outcome of the operation if there is one. */
  datatype Answer = Answer(stop: bool, ok: bool, recoverable: bool, round: Round)

  /** The answers in their order, of which the first `heard` are used up. */
  datatype Script = Script(answers: seq<Answer>, heard: nat)

  /** The answer `i` questions from now. When the script is over, a stop request
      arrives. */
  function Nth(s: Script, i: nat): (a: Answer)
    ensures s.heard + i >= |s.answers| ==> a.stop && !a.ok && !a.recoverable && a.round.Quiet?
  {
    if s.heard + i < |s.answers| then s.answers[s.heard + i] else Answer(true, false, false, Quiet)
  }

  function Drop(s: Script, i: nat): Script {
    s.(heard := s.heard + i)
  }

  /** How many answers are left. */
  function Left(s: Script): nat {
    if s.heard < |s.answers| then |s.answers| - s.heard else 0
  }

  lemma DropDrop(s: Script, i: nat, k: nat)
    ensures Drop(Drop(s, i), k) == Drop(s, i + k)
  {
  }

  /** No stop request arrives with the first `n` answers. */
  ghost predicate NoStop(s: Script, n: nat) {
    forall i :: 0 <= i < n ==> !Nth(s, i).stop
  }

  lemma NoStopSplits(s: Script, n: nat, k: nat)
    ensures NoStop(s, n + k) <==> NoStop(s, n) && NoStop(Drop(s, n), k)
  {
    if NoStop(s, n + k) {
      forall i | 0 <= i < k ensures !Nth(Drop(s, n), i).stop {
        assert Nth(Drop(s, n), i) == Nth(s, n + i);
      }
    }
    if NoStop(s, n) && NoStop(Drop(s, n), k) {
      forall i | 0 <= i < n + k ensures !Nth(s, i).stop {
        if i >= n {
          assert Nth(Drop(s, n), i - n) == Nth(s, i);
        }
      }
    }
  }

  // ---- Recovery ----

  /** Which answer, counted from the start of a recovery, attempt `j` gets: the
      thread asks every 10 ms for 250, 500, 1000 and 2000 ms in between. */
  function AttemptAnswer(j: nat): (i: nat)
    requires j < 4
    ensures j == 0 ==> i == 25
    ensures j == 1 ==> i == 76
    ensures j == 2 ==> i == 177
    ensures j == 3 ==> i == 378
  {
    if j == 0 then 25 else AttemptAnswer(j - 1) + 1 + if j == 1 then 50 else if j == 2 then 100 else 200
  }

  /** Attempt `j` is the first to be answered well, and no stop comes before. */
  ghost predicate RecoversAt(s: Script, j: nat) {
    && j < 4
    && NoStop(s, AttemptAnswer(j)) && Nth(s, AttemptAnswer(j)).ok
    && forall k :: 0 <= k < j ==> !Nth(s, AttemptAnswer(k)).ok
  }

  ghost predicate Recovers(s: Script) {
    exists j :: RecoversAt(s, j)
  }

  lemma RecoversOnce(s: Script, j: nat, k: nat)
    requires RecoversAt(s, j) && RecoversAt(s, k)
    ensures j == k
  {
  }

  /** In plain answers: an attempt is made after 250, 750, 1750 and 3750 ms of
      10 ms steps, and the recovery succeeds when one of them is answered well
      while no stop request has come. */
  lemma {:induction false} RecoversIff(s: Script)
    ensures Recovers(s) <==>
            || (Nth(s, 25).ok && forall i :: 0 <= i < 25 ==> !Nth(s, i).stop)
            || (Nth(s, 76).ok && forall i :: 0 <= i < 76 ==> !Nth(s, i).stop)
            || (Nth(s, 177).ok && forall i :: 0 <= i < 177 ==> !Nth(s, i).stop)
            || (Nth(s, 378).ok && forall i :: 0 <= i < 378 ==> !Nth(s, i).stop)
  {
    if k :| 0 <= k < 4 && NoStop(s, AttemptAnswer(k)) && Nth(s, AttemptAnswer(k)).ok {
      FirstAttempt(s, k);
    }
    assert AttemptAnswer(0) == 25 && AttemptAnswer(1) == 76 && AttemptAnswer(2) == 177 && AttemptAnswer(3) == 378;
  }

  /** If any attempt would do, the first such attempt is made. */
  lemma {:induction false} FirstAttempt(s: Script, j: nat)
    requires j < 4 && NoStop(s, AttemptAnswer(j)) && Nth(s, AttemptAnswer(j)).ok
    ensures Recovers(s)
  {
    if k: nat :| k < j && Nth(s, AttemptAnswer(k)).ok {
      AttemptsAscend(k, j);
      FirstAttempt(s, k);
    } else {
      assert RecoversAt(s, j);
    }
  }

  lemma AttemptsAscend(j: nat, k: nat)
    requires j <= k < 4
    ensures AttemptAnswer(j) <= AttemptAnswer(k)
  {
  }

  // ---- One round of capturing ----

  /** The engine starts, the device is lost with answer `lost`, after nothing but
      quiet rounds, and no stop request comes. */
  ghost predicate LosesAt(s: Script, lost: nat) {
    && lost >= 3 && NoStop(s, lost + 2) && Nth(s, 1).ok
    && Nth(s, lost).round.DeviceLost?
    && forall i :: 3 <= i < lost ==> Nth(s, i).round.Quiet?
  }

  lemma LosesOnce(s: Script, a: nat, b: nat)
    requires LosesAt(s, a) && LosesAt(s, b)
    ensures a == b
  {
  }

  /** The round ends with the device lost and recovered at attempt `j`. */
  ghost predicate GoesOn(s: Script, lost: nat, j: nat) {
    LosesAt(s, lost) && RecoversAt(Drop(s, lost + 2), j)
  }

  /** Another round follows when the engine starts, the device is lost before any
      other end or stop request, and an attempt brings it back. */
  lemma GoesOnIff(s: Script, lost: nat)
    ensures (exists j :: GoesOn(s, lost, j)) <==>
            && lost >= 3 && Nth(s, 1).ok && Nth(s, lost).round == DeviceLost
            && (forall i :: 3 <= i < lost ==> Nth(s, i).round == Quiet)
            && (forall i :: 0 <= i < lost + 2 ==> !Nth(s, i).stop)
            && Recovers(Drop(s, lost + 2))
  {
    if Recovers(Drop(s, lost + 2)) && LosesAt(s, lost) {
      var j :| RecoversAt(Drop(s, lost + 2), j);
      assert GoesOn(s, lost, j);
    }
  }

  /** How many answers such a round hears. */
  function RoundLength(lost: nat, j: nat): nat
    requires j < 4
  {
    lost + 2 + AttemptAnswer(j) + 1
  }

  // ---- The whole thread ----

  /** `n` recoveries follow one another from a round that starts here. */
  ghost predicate Survives(s: Script, n: nat)
    decreases n, 0
  {
    n == 0 || exists lost: nat, j: nat :: GoesOn(s, lost, j)
                && (n == 1 || KeepsOn(s, RoundLength(lost, j) + 1, n - 1))
  }

  /** No stop request comes with the next `k` answers, and `n` recoveries follow. */
  ghost predicate KeepsOn(s: Script, k: nat, n: nat)
    decreases n, 1
  {
    NoStop(s, k) && Survives(Drop(s, k), n)
  }

  lemma SurvivesNext(s: Script, lost: nat, j: nat, n: nat)
    requires GoesOn(s, lost, j) && n >= 1
    ensures Survives(s, n) <==> n == 1 || KeepsOn(s, RoundLength(lost, j) + 1, n - 1)
  {
    if Survives(s, n) {
      var l: nat, k: nat :| GoesOn(s, l, k) && (n == 1 || KeepsOn(s, RoundLength(l, k) + 1, n - 1));
      GoesOnOnce(s, l, k, lost, j);
    }
  }

  lemma GoesOnOnce(s: Script, l: nat, k: nat, lost: nat, j: nat)
    requires GoesOn(s, l, k) && GoesOn(s, lost, j)
    ensures l == lost && k == j
  {
    LosesOnce(s, l, lost);
    RecoversOnce(Drop(s, lost + 2), j, k);
  }

  /** The first session is there after `k` answers: at once, or recovered. */
  ghost predicate OpensAfter(s: Script, k: nat) {
    && NoStop(s, 2)
    && if Nth(s, 2).ok then k == 3
       else Nth(s, 2).recoverable && !Nth(s, 2).stop
            && exists j :: RecoversAt(Drop(s, 3), j) && k == 3 + AttemptAnswer(j) + 1
  }

  /** More than `n` sessions are acquired: the first one opens, and `n`
      recoveries follow. */
  ghost predicate Acquires(s: Script, n: nat) {
    exists k: nat :: OpensAfter(s, k) && (n == 0 || KeepsOn(s, k, n))
  }

  /** The first session opens at once, or through a recovery where the failure
      allows one. */
  lemma {:induction false} OpensIff(s: Script)
    ensures Acquires(s, 0) <==>
            && !Nth(s, 0).stop && !Nth(s, 1).stop
            && (Nth(s, 2).ok || (Nth(s, 2).recoverable && !Nth(s, 2).stop && Recovers(Drop(s, 3))))
  {
    if NoStop(s, 2) && Nth(s, 2).ok {
      assert OpensAfter(s, 3);
    } else if NoStop(s, 2) && Nth(s, 2).recoverable && !Nth(s, 2).stop && Recovers(Drop(s, 3)) {
      var j :| RecoversAt(Drop(s, 3), j);
      assert OpensAfter(s, 3 + AttemptAnswer(j) + 1);
    }
  }

  lemma OpensOnce(s: Script, k: nat, l: nat)
    requires OpensAfter(s, k) && OpensAfter(s, l)
    ensures k == l
  {
    if !Nth(s, 2).ok {
      var i :| RecoversAt(Drop(s, 3), i) && k == 3 + AttemptAnswer(i) + 1;
      var j :| RecoversAt(Drop(s, 3), j) && l == 3 + AttemptAnswer(j) + 1;
      RecoversOnce(Drop(s, 3), i, j);
    }
  }
}
