/** Over any run: once the plan stays the same, waiting is enough to reach it. */
module ConvergenceOverRuns {
  import opened Base
  import opened SlotTable
  import opened CandidateOrder
  import opened Reconciliation
  import opened ReconciliationRuns

  const LONGEST_BACKOFF: int := 30_000 * NS_PER_MS

  /** Passes follow one another: nothing a pass does is later than the next one. */
  ghost predicate OrderedClock(inputs: seq<PassInput>) {
    && MonotoneClock(inputs)
    && (forall i :: 0 <= i < |inputs| ==> inputs[i].now >= 0)
    && forall i, j, id :: 0 <= i < j < |inputs| ==> inputs[i].starts(id).failedAt <= inputs[j].now
  }

  /** From pass `a` on the plan is `planned` and its starts succeed. */
  ghost predicate SteadyFrom(inputs: seq<PassInput>, a: nat, planned: set<ProcessIdentity>) {
    forall m, id :: a <= m < |inputs| ==> SteadyAt(inputs[m], planned, id)
  }

  ghost predicate SteadyAt(input: PassInput, planned: set<ProcessIdentity>, id: ProcessIdentity) {
    Planned(input) == planned && (id in planned ==> input.starts(id).ok)
  }

  /** From pass `a` on the planned captures run; before it they may die. */
  ghost predicate RunningFrom(inputs: seq<PassInput>, a: nat, planned: set<ProcessIdentity>) {
    forall m, id :: a <= m < |inputs| ==> RunsAt(inputs[m], planned, id)
  }

  ghost predicate RunsAt(input: PassInput, planned: set<ProcessIdentity>, id: ProcessIdentity) {
    id in planned ==> input.isRunning(id)
  }

  lemma SteadyInput(input: PassInput, planned: set<ProcessIdentity>)
    requires forall id :: SteadyAt(input, planned, id)
    ensures Planned(input) == planned
    ensures forall id :: id in Planned(input) ==> input.starts(id).ok
  {
    assert SteadyAt(input, planned, ProcessIdentity(0, 0));
    forall id | id in Planned(input) ensures input.starts(id).ok {
      assert SteadyAt(input, planned, id);
    }
  }

  lemma RunningInput(input: PassInput, planned: set<ProcessIdentity>)
    requires Planned(input) == planned && forall id :: RunsAt(input, planned, id)
    ensures forall id :: id in Planned(input) ==> input.isRunning(id)
  {
    forall id | id in Planned(input) ensures input.isRunning(id) {
      assert RunsAt(input, planned, id);
    }
  }

  // ---- Entries are never ahead of the clock ----

  /** Seen no later than `now`, and due for a retry within the longest backoff. */
  predicate ClockedEntry(e: ActiveCapture, now: int) {
    e.lastSeenAt <= now && (e.source.NoCapture? ==> e.nextRetryAt <= now + LONGEST_BACKOFF)
  }

  /** An entry after the starts of a pass is an entry kept or the record of one
      start attempt. */
  lemma EntryOrigin(t: Table, input: PassInput, id: ProcessIdentity)
    requires id in AfterStarts(t, input).captures
    ensures var e := AfterStarts(t, input).captures[id];
            || (id in t.captures && e.nextRetryAt == t.captures[id].nextRetryAt && e.source == t.captures[id].source
                && (e.lastSeenAt == input.now || e.lastSeenAt == t.captures[id].lastSeenAt))
            || (e.lastSeenAt == input.starts(id).beganAt
                && (e.source.NoCapture? ==> e.nextRetryAt <= input.starts(id).failedAt + LONGEST_BACKOFF
                                            || e.nextRetryAt <= input.starts(id).beganAt + LONGEST_BACKOFF))
  {
    var planned := Planned(input);
    AddAllEntry(Cleaned(t, planned, input), Starting(t, input), t.captures, planned, input, id);
  }

  lemma PassClocksEntry(graceMs: int, t: Table, input: PassInput, next: int, id: ProcessIdentity)
    requires id in t.captures ==> ClockedEntry(t.captures[id], input.now)
    requires input.now <= input.starts(id).beganAt <= input.starts(id).failedAt <= next
    requires id in Pass(graceMs, t, input).captures
    ensures ClockedEntry(Pass(graceMs, t, input).captures[id], next)
  {
    EntryOrigin(t, input, id);
  }

  lemma {:induction false} EntriesAreClocked(graceMs: int, inputs: seq<PassInput>, ts: seq<Table>,
                                             k: nat, id: ProcessIdentity)
    requires IsRun(graceMs, inputs, ts) && OrderedClock(inputs) && k < |inputs| && id in ts[k].captures
    ensures ClockedEntry(ts[k].captures[id], inputs[k].now)
  {
    if k > 0 {
      if id in ts[k - 1].captures {
        EntriesAreClocked(graceMs, inputs, ts, k - 1, id);
      }
      assert StepAt(graceMs, inputs, ts, k - 1);
      PassClocksEntry(graceMs, ts[k - 1], inputs[k - 1], inputs[k].now, id);
    }
  }

  // ---- What is left over stays as it was ----

  /** An unplanned entry, or a planned one without capture, is an old one. */
  ghost predicate OnlyOld(earlier: Captures, now: Captures, planned: set<ProcessIdentity>, id: ProcessIdentity) {
    && (id in now && id !in planned ==> id in earlier && now[id].lastSeenAt == earlier[id].lastSeenAt)
    && (id in now && id in planned && now[id].source.NoCapture? ==>
          id in earlier && earlier[id].source.NoCapture? && now[id].nextRetryAt == earlier[id].nextRetryAt)
  }

  lemma PassKeepsOnlyOld(graceMs: int, t: Table, input: PassInput, id: ProcessIdentity)
    requires id in Planned(input) ==> input.starts(id).ok
    ensures OnlyOld(t.captures, Pass(graceMs, t, input).captures, Planned(input), id)
  {
    var planned := Planned(input);
    NewCandidatesFacts(Kept(t.captures, planned, input), input.desired);
    AddAllEntry(Cleaned(t, planned, input), Starting(t, input), t.captures, planned, input, id);
  }

  lemma {:induction false} OnlyOldSince(graceMs: int, inputs: seq<PassInput>, ts: seq<Table>, a: nat, b: nat,
                                        planned: set<ProcessIdentity>, id: ProcessIdentity)
    requires IsRun(graceMs, inputs, ts) && a <= b <= |inputs| && SteadyFrom(inputs, a, planned)
    ensures OnlyOld(ts[a].captures, ts[b].captures, planned, id)
    decreases b
  {
    if a < b {
      OnlyOldSince(graceMs, inputs, ts, a, b - 1, planned, id);
      assert StepAt(graceMs, inputs, ts, b - 1) && SteadyAt(inputs[b - 1], planned, id);
      PassKeepsOnlyOld(graceMs, ts[b - 1], inputs[b - 1], id);
    }
  }

  // ---- Waiting makes a table favourable, and so the plan is reached ----

  /** From pass `a` to pass `b` both the grace period and the longest backoff
      have gone by. */
  predicate LongEnough(graceMs: int, inputs: seq<PassInput>, a: nat, b: nat)
    requires a <= b < |inputs|
  {
    WholeMs(inputs[b].now - inputs[a].now) >= graceMs && inputs[b].now - inputs[a].now >= LONGEST_BACKOFF
  }

  /** Once that time has gone by, dead captures included: every unplanned entry
      is past its grace period, and every planned one runs or is due. */
  lemma WaitingIsFavourable(graceMs: int, inputs: seq<PassInput>, ts: seq<Table>, a: nat, b: nat,
                            planned: set<ProcessIdentity>)
    requires IsRun(graceMs, inputs, ts) && OrderedClock(inputs) && a <= b < |inputs|
    requires SteadyFrom(inputs, a, planned) && LongEnough(graceMs, inputs, a, b)
    requires ts[b].slots.issued < UINT32_SIZE
    ensures Favourable(graceMs, ts[b], inputs[b])
  {
    forall id | id in Planned(inputs[b]) ensures inputs[b].starts(id).ok {
      assert SteadyAt(inputs[b], planned, id);
    }
    AgreementOverRuns(graceMs, inputs, ts, b);
    forall id | id in ts[b].captures ensures FavourableEntry(graceMs, ts[b].captures[id], inputs[b], id) {
      WaitingEntry(graceMs, inputs, ts, a, b, planned, id);
    }
  }

  lemma WaitingEntry(graceMs: int, inputs: seq<PassInput>, ts: seq<Table>, a: nat, b: nat,
                     planned: set<ProcessIdentity>, id: ProcessIdentity)
    requires IsRun(graceMs, inputs, ts) && OrderedClock(inputs) && a <= b < |inputs|
    requires SteadyFrom(inputs, a, planned) && LongEnough(graceMs, inputs, a, b) && id in ts[b].captures
    requires EntryOk(id, ts[b].captures[id])
    ensures FavourableEntry(graceMs, ts[b].captures[id], inputs[b], id)
  {
    assert SteadyAt(inputs[b], planned, id);
    OnlyOldSince(graceMs, inputs, ts, a, b, planned, id);
    var e := ts[b].captures[id];
    if id !in planned || e.source.NoCapture? {
      EntriesAreClocked(graceMs, inputs, ts, a, id);
      if id !in planned {
        WholeMsMonotone(inputs[b].now - inputs[a].now, inputs[b].now - e.lastSeenAt);
      }
    }
  }

  lemma PlanReached(graceMs: int, inputs: seq<PassInput>, ts: seq<Table>, a: nat, b: nat,
                    planned: set<ProcessIdentity>)
    requires IsRun(graceMs, inputs, ts) && OrderedClock(inputs) && a <= b && b + 2 <= |inputs|
    requires SteadyFrom(inputs, a, planned) && RunningFrom(inputs, b + 1, planned)
    requires LongEnough(graceMs, inputs, a, b) && ts[b + 2].slots.issued < UINT32_SIZE
    ensures Converged(ts[b + 2].captures, planned)
  {
    assert StepAt(graceMs, inputs, ts, b) && StepAt(graceMs, inputs, ts, b + 1);
    PassIssuesAtMost32(graceMs, ts[b], inputs[b]);
    PassIssuesAtMost32(graceMs, ts[b + 1], inputs[b + 1]);
    AgreementOverRuns(graceMs, inputs, ts, b);
    WaitingIsFavourable(graceMs, inputs, ts, a, b, planned);
    SteadyInput(inputs[b], planned);
    SteadyInput(inputs[b + 1], planned);
    RunningInput(inputs[b + 1], planned);
    ConvergesInTwo(graceMs, ts[b], inputs[b], inputs[b + 1]);
  }

  /** In any run, from any point at which the plan stops changing and its starts
      succeed: let the grace period and the longest backoff go by, whatever
      captures die meanwhile. If the captures run from then on, two passes later
      exactly the planned ones are active, all live, and each keeps its slot. */
  lemma {:induction false} EveryRunConverges(graceMs: int, inputs: seq<PassInput>, ts: seq<Table>, a: nat, b: nat,
                                             planned: set<ProcessIdentity>, m: nat)
    requires IsRun(graceMs, inputs, ts) && OrderedClock(inputs) && a <= b && b + 2 <= m <= |inputs|
    requires SteadyFrom(inputs, a, planned) && RunningFrom(inputs, b + 1, planned)
    requires LongEnough(graceMs, inputs, a, b) && ts[b + 2].slots.issued < UINT32_SIZE
    ensures Converged(ts[m].captures, planned) && ts[m].slots == ts[b + 2].slots
    ensures forall id :: id in planned ==>
              id in ts[b + 2].captures && ts[m].captures[id].source == ts[b + 2].captures[id].source
    decreases m
  {
    PlanReached(graceMs, inputs, ts, a, b, planned);
    if b + 2 < m {
      EveryRunConverges(graceMs, inputs, ts, a, b, planned, m - 1);
      AgreementOverRuns(graceMs, inputs, ts, m - 1);
      assert StepAt(graceMs, inputs, ts, m - 1);
      SteadyInput(inputs[m - 1], planned);
      RunningInput(inputs[m - 1], planned);
      ConvergedIsStable(graceMs, ts[m - 1], inputs[m - 1]);
    }
  }
}
