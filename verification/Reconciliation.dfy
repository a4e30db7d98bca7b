/** One reconciliation pass as a function: how the table of active captures and
    the mixer's slot table move towards the plan. */
module Reconciliation {
  import opened Base
  import opened SlotTable
  import opened CandidateOrder

  /** A held capture delivers its packets to one mixer slot. */
  datatype Capture = NoCapture | Capture(feeds: uint32)

  datatype ActiveCapture = ActiveCapture(
    candidate: Candidate,
    mixerSourceId: uint32,
    source: Capture,
    lastSeenAt: int,
    nextRetryAt: int,
    failures: nat)

  type Captures = map<ProcessIdentity, ActiveCapture>

  /** What happened when a capture was started: the clock before the attempt,
      its outcome, and the clock when a failed retry is rescheduled. */
  datatype StartReport = StartReport(beganAt: int, ok: bool, failedAt: int)

  /** A plan as the planner makes it: no process tree twice, at most 32. */
  ghost predicate IsPlan(desired: seq<Candidate>) {
    |desired| <= MAX_SOURCES && DistinctIdentities(desired)
  }

  type PlannedSources = d: seq<Candidate> | IsPlan(d) ghost witness []

  /** Everything one pass learns from outside. */
  datatype PassInput = PassInput(
    now: int,
    desired: PlannedSources,
    isRunning: ProcessIdentity -> bool,
    starts: ProcessIdentity -> StartReport)

  datatype Table = Table(captures: Captures, slots: Slots)

  const EMPTY_TABLE := Table(map[], Slots([], 0))

  // ---- Phase 1: refresh planned entries, set retries aside ----

  predicate NeedsRetry(e: ActiveCapture, isRunning: bool, now: int) {
    now >= e.nextRetryAt && (e.source.NoCapture? || !isRunning)
  }

  ghost function Retries(captures: Captures, planned: set<ProcessIdentity>, input: PassInput): set<ProcessIdentity> {
    set id | id in captures && id in planned && NeedsRetry(captures[id], input.isRunning(id), input.now)
  }

  ghost function Kept(captures: Captures, planned: set<ProcessIdentity>, input: PassInput): Captures {
    map id | id in captures && id !in Retries(captures, planned, input) ::
      if id in planned then captures[id].(lastSeenAt := input.now) else captures[id]
  }

  ghost function SlotsHeldBy(captures: Captures, ids: set<ProcessIdentity>): set<uint32> {
    set id | id in ids && id in captures :: captures[id].mixerSourceId
  }

  ghost function Cleaned(t: Table, planned: set<ProcessIdentity>, input: PassInput): Table {
    Table(Kept(t.captures, planned, input),
          Release(t.slots, SlotsHeldBy(t.captures, Retries(t.captures, planned, input)) - {0}))
  }

  ghost function NewCandidates(kept: Captures, desired: seq<Candidate>): seq<Candidate> {
    if desired == [] then []
    else
      var n := |desired| - 1;
      NewCandidates(kept, desired[..n]) + if desired[n].identity in kept then [] else [desired[n]]
  }

  // ---- Phase 2: start what is new ----

  /** Retry delay after `failures` consecutive failures: 1, 2, 4, 8, then 30 s. */
  function BackoffMs(failures: nat): (ms: int)
    requires failures >= 1
    ensures failures == 1 ==> ms == 1_000
    ensures failures == 2 ==> ms == 2_000
    ensures failures == 3 ==> ms == 4_000
    ensures failures == 4 ==> ms == 8_000
    ensures failures >= 5 ==> ms == 30_000
  {
    if failures >= 5 then 30_000 else Doubled(1_000, failures - 1)
  }

  function Doubled(ms: int, times: nat): int {
    if times == 0 then ms else 2 * Doubled(ms, times - 1)
  }

  function Backoff(failures: nat): (ns: int)
    requires failures >= 1
    ensures ns == 1_000_000 * BackoffMs(failures)
  {
    BackoffMs(failures) * NS_PER_MS
  }

  function StartedEntry(c: Candidate, id: uint32, report: StartReport): ActiveCapture {
    ActiveCapture(c, id, Capture(id), report.beganAt, 0, 0)
  }

  /** A first failure is rescheduled from the start of the attempt, a repeated
      one from the moment it was noticed. */
  function FailedEntry(c: Candidate, report: StartReport, prior: Option<nat>): ActiveCapture {
    match prior
    case None => ActiveCapture(c, 0, NoCapture, report.beganAt, report.beganAt + Backoff(1), 1)
    case Some(k) => ActiveCapture(c, 0, NoCapture, report.beganAt, report.failedAt + Backoff(k + 1), k + 1)
  }

  function AddOne(t: Table, c: Candidate, report: StartReport, prior: Option<nat>): Table {
    var (taken, id) := AddSlot(t.slots);
    if id == 0 then t.(slots := taken)
    else if report.ok then Table(t.captures[c.identity := StartedEntry(c, id, report)], taken)
    else Table(t.captures[c.identity := FailedEntry(c, report, prior)], RemoveSlot(taken, id))
  }

  ghost function PriorFailures(before: Captures, planned: set<ProcessIdentity>, input: PassInput,
                               id: ProcessIdentity): Option<nat> {
    if id in Retries(before, planned, input) then Some(before[id].failures) else None
  }

  ghost function AddAll(t: Table, cs: seq<Candidate>, before: Captures, planned: set<ProcessIdentity>,
                        input: PassInput): Table {
    if cs == [] then t
    else
      var n := |cs| - 1;
      var c := cs[n];
      AddOne(AddAll(t, cs[..n], before, planned, input), c, input.starts(c.identity),
             PriorFailures(before, planned, input, c.identity))
  }

  // ---- Phase 3: drop what has been absent for the grace period ----

  predicate IsExpired(e: ActiveCapture, now: int, graceMs: int) {
    WholeMs(now - e.lastSeenAt) >= graceMs
  }

  ghost function Overdue(captures: Captures, planned: set<ProcessIdentity>, now: int, graceMs: int)
    : set<ProcessIdentity>
  {
    set id | id in captures && id !in planned && IsExpired(captures[id], now, graceMs)
  }

  ghost function Drop(t: Table, gone: set<ProcessIdentity>): Table {
    Table(t.captures - gone, Release(t.slots, SlotsHeldBy(t.captures, gone)))
  }

  // ---- The pass, and runs of passes ----

  ghost function Planned(input: PassInput): set<ProcessIdentity> {
    Identities(input.desired)
  }

  ghost function Starting(t: Table, input: PassInput): seq<Candidate> {
    NewCandidates(Kept(t.captures, Planned(input), input), input.desired)
  }

  ghost function AfterStarts(t: Table, input: PassInput): Table {
    var planned := Planned(input);
    AddAll(Cleaned(t, planned, input), Starting(t, input), t.captures, planned, input)
  }

  ghost function Pass(graceMs: int, t: Table, input: PassInput): Table {
    var started := AfterStarts(t, input);
    Drop(started, Overdue(started.captures, Planned(input), input.now, graceMs))
  }

  ghost predicate StepAt(graceMs: int, inputs: seq<PassInput>, ts: seq<Table>, m: nat)
    requires m < |inputs| && |ts| == |inputs| + 1
  {
    ts[m + 1] == Pass(graceMs, ts[m], inputs[m])
  }

  /** `ts` lists the table before the first pass and after each pass. */
  ghost predicate IsRun(graceMs: int, inputs: seq<PassInput>, ts: seq<Table>) {
    && |ts| == |inputs| + 1
    && ts[0] == EMPTY_TABLE
    && forall m :: 0 <= m < |inputs| ==> StepAt(graceMs, inputs, ts, m)
  }

  // ---- Slot agreement ----

  ghost predicate EntryOk(id: ProcessIdentity, e: ActiveCapture) {
    && e.candidate.identity == id
    && match e.source
       case Capture(feeds) => feeds == e.mixerSourceId && e.mixerSourceId != 0 && e.failures == 0 && e.nextRetryAt == 0
       case NoCapture => e.mixerSourceId == 0 && e.failures >= 1
  }

  ghost function Live(captures: Captures): set<ProcessIdentity> {
    set id | id in captures && captures[id].source.Capture?
  }

  /** The two tables agree: the mixer's ids are exactly the pairwise distinct,
      non-zero ids of the entries that hold a capture. */
  ghost predicate Agreement(t: Table) {
    && SoundIds(t.slots)
    && (forall id :: id in t.captures ==> EntryOk(id, t.captures[id]))
    && (forall x, y :: x in Live(t.captures) && y in Live(t.captures) && x != y ==>
          t.captures[x].mixerSourceId != t.captures[y].mixerSourceId)
    && Elements(t.slots.ids) == SlotsHeldBy(t.captures, Live(t.captures))
  }

  lemma {:induction false} InjectiveImageSize(captures: Captures, ids: set<ProcessIdentity>)
    requires forall id :: id in ids ==> id in captures
    requires forall x, y :: x in ids && y in ids && x != y ==>
               captures[x].mixerSourceId != captures[y].mixerSourceId
    ensures |SlotsHeldBy(captures, ids)| == |ids|
    decreases ids
  {
    if ids == {} {
      assert SlotsHeldBy(captures, ids) == {};
    } else {
      var id :| id in ids;
      var rest := ids - {id};
      InjectiveImageSize(captures, rest);
      assert SlotsHeldBy(captures, ids) == SlotsHeldBy(captures, rest) + {captures[id].mixerSourceId};
    }
  }

  /** There are exactly as many live captures as slots, hence at most 32. */
  lemma LiveCapturesMatchSlots(t: Table)
    requires Agreement(t)
    ensures |Live(t.captures)| == |t.slots.ids| <= MAX_SOURCES
  {
    InjectiveImageSize(t.captures, Live(t.captures));
    DistinctSize(t.slots.ids);
  }

  /** `after` lost the entries `gone` and may have newer sighting times. */
  ghost predicate Shrunk(after: Captures, before: Captures, gone: set<ProcessIdentity>) {
    && after.Keys == before.Keys - gone
    && forall id :: id in after ==> after[id] == before[id].(lastSeenAt := after[id].lastSeenAt)
  }

  lemma ShrinkKeepsAgreement(t: Table, after: Captures, gone: set<ProcessIdentity>)
    requires Agreement(t) && Shrunk(after, t.captures, gone)
    ensures Agreement(Table(after, Release(t.slots, SlotsHeldBy(t.captures, gone))))
    ensures Release(t.slots, SlotsHeldBy(t.captures, gone)) ==
            Release(t.slots, SlotsHeldBy(t.captures, gone) - {0})
  {
    var freed := SlotsHeldBy(t.captures, gone);
    var r := Table(after, Release(t.slots, freed));
    WithoutMembers(t.slots.ids, freed);
    WithoutZero(t.slots.ids, freed);
    assert forall x :: x in r.slots.ids <==> x in Elements(r.slots.ids);
    assert forall x :: x in t.slots.ids <==> x in Elements(t.slots.ids);
    assert Live(after) == Live(t.captures) - gone;
    assert SlotsHeldBy(after, Live(after)) == SlotsHeldBy(t.captures, Live(t.captures)) - freed by {
      forall id, g | id in Live(after) && g in gone && g in t.captures
        ensures t.captures[g].mixerSourceId != after[id].mixerSourceId
      {
        assert EntryOk(g, t.captures[g]) && EntryOk(id, t.captures[id]);
        assert g in Live(t.captures) || t.captures[g].mixerSourceId == 0;
      }
    }
  }

  /** A started capture takes over the slot reserved for it. */
  lemma StartKeepsAgreement(t: Table, r: Table, e: ActiveCapture, slot: uint32)
    requires Agreement(t) && |t.slots.ids| < MAX_SOURCES
    requires slot != 0 && slot !in t.slots.ids
    requires e.candidate.identity !in t.captures && EntryOk(e.candidate.identity, e) && e.source == Capture(slot)
    requires r.captures == t.captures[e.candidate.identity := e] && r.slots.ids == t.slots.ids + [slot]
    ensures Agreement(r)
  {
    assert Live(r.captures) == Live(t.captures) + {e.candidate.identity};
    assert Elements(r.slots.ids) == Elements(t.slots.ids) + {slot};
    assert SlotsHeldBy(r.captures, Live(r.captures)) == SlotsHeldBy(t.captures, Live(t.captures)) + {slot};
    forall x | x in Live(t.captures) ensures r.captures[x].mixerSourceId != slot {
      assert t.captures[x].mixerSourceId in Elements(t.slots.ids);
    }
  }

  /** A failed start leaves an entry without capture, and no slot. */
  lemma FailureKeepsAgreement(t: Table, r: Table, e: ActiveCapture)
    requires Agreement(t)
    requires e.candidate.identity !in t.captures && EntryOk(e.candidate.identity, e) && e.source == NoCapture
    requires r.captures == t.captures[e.candidate.identity := e] && r.slots.ids == t.slots.ids
    ensures Agreement(r)
  {
    assert Live(r.captures) == Live(t.captures);
    assert SlotsHeldBy(r.captures, Live(r.captures)) == SlotsHeldBy(t.captures, Live(t.captures));
  }

  lemma AddOneKeepsAgreement(t: Table, c: Candidate, report: StartReport, prior: Option<nat>)
    requires Agreement(t) && Issued(t.slots) && c.identity !in t.captures
    requires AddOne(t, c, report, prior).slots.issued < UINT32_SIZE
    ensures var r := AddOne(t, c, report, prior); Agreement(r) && Issued(r.slots)
  {
    var id := NextId(t.slots);
    var r := AddOne(t, c, report, prior);
    if !IsFull(t.slots) {
      NextIdFresh(t.slots);
      if report.ok {
        StartKeepsAgreement(t, r, StartedEntry(c, id, report), id);
      } else {
        RemoveLast(t.slots.ids, id);
        FailureKeepsAgreement(t, r, FailedEntry(c, report, prior));
      }
    }
  }

  /** A successful start keeps the tables in agreement if and only if its id is
      non-zero and unused, so beyond the wrap of the counter it may not. */
  lemma StartKeepsAgreementIff(t: Table, c: Candidate, report: StartReport, prior: Option<nat>)
    requires Agreement(t) && !IsFull(t.slots) && c.identity !in t.captures && report.ok
    ensures Agreement(AddOne(t, c, report, prior)) <==> NextId(t.slots) != 0 && NextId(t.slots) !in t.slots.ids
  {
    var id := NextId(t.slots);
    AddSlotSoundIff(t.slots);
    if id != 0 && id !in t.slots.ids {
      StartKeepsAgreement(t, AddOne(t, c, report, prior), StartedEntry(c, id, report), id);
    }
  }

  lemma {:induction false} AddAllFrame(t: Table, cs: seq<Candidate>, before: Captures,
                                       planned: set<ProcessIdentity>, input: PassInput)
    requires forall c :: c in cs ==> c.identity !in t.captures
    ensures var r := AddAll(t, cs, before, planned, input).captures;
            t.captures.Keys <= r.Keys <= t.captures.Keys + Identities(cs)
            && forall id :: id in t.captures ==> r[id] == t.captures[id]
  {
    if cs != [] {
      var n := |cs| - 1;
      AddAllFrame(t, cs[..n], before, planned, input);
      assert cs[n] in cs && forall c :: c in cs[..n] ==> c in cs;
    }
  }

  lemma {:induction false} AddAllKeepsAgreement(t: Table, cs: seq<Candidate>, before: Captures,
                                                planned: set<ProcessIdentity>, input: PassInput)
    requires Agreement(t) && Issued(t.slots) && DistinctIdentities(cs)
    requires forall c :: c in cs ==> c.identity !in t.captures
    requires AddAll(t, cs, before, planned, input).slots.issued < UINT32_SIZE
    ensures var r := AddAll(t, cs, before, planned, input); Agreement(r) && Issued(r.slots)
  {
    if cs != [] {
      var n := |cs| - 1;
      assert cs[n] in cs && cs[n].identity !in Identities(cs[..n]);
      assert forall c :: c in cs[..n] ==> c in cs;
      AddAllKeepsAgreement(t, cs[..n], before, planned, input);
      AddAllFrame(t, cs[..n], before, planned, input);
      AddOneKeepsAgreement(AddAll(t, cs[..n], before, planned, input), cs[n], input.starts(cs[n].identity),
                           PriorFailures(before, planned, input, cs[n].identity));
    }
  }

  lemma {:induction false} NewCandidatesFacts(kept: Captures, desired: seq<Candidate>)
    requires DistinctIdentities(desired)
    ensures var cs := NewCandidates(kept, desired);
            DistinctIdentities(cs) && |cs| <= |desired|
            && forall c :: c in cs <==> c in desired && c.identity !in kept
  {
    if desired != [] {
      var n := |desired| - 1;
      var front := NewCandidates(kept, desired[..n]);
      NewCandidatesFacts(kept, desired[..n]);
      assert forall c :: c in desired <==> c in desired[..n] || c == desired[n];
      forall c | c in front ensures c.identity != desired[n].identity {
        assert c in desired[..n];
      }
      if desired[n].identity !in kept {
        assert forall c :: c in front + [desired[n]] <==> c in front || c == desired[n];
      }
    }
  }

  /** Candidates are started in the order in which the plan ranks them. */
  lemma {:induction false} NewCandidatesInOrder(kept: Captures, desired: seq<Candidate>) returns (at: seq<nat>)
    ensures var cs := NewCandidates(kept, desired);
            && |at| == |cs|
            && (forall i :: 0 <= i < |at| ==> at[i] < |desired| && desired[at[i]] == cs[i])
            && forall i, j :: 0 <= i < j < |at| ==> at[i] < at[j]
  {
    if desired == [] {
      at := [];
    } else {
      var n := |desired| - 1;
      at := NewCandidatesInOrder(kept, desired[..n]);
      if desired[n].identity !in kept {
        at := at + [n];
      }
    }
  }

  lemma CleanedAgrees(t: Table, planned: set<ProcessIdentity>, input: PassInput)
    requires Agreement(t) && Issued(t.slots)
    ensures Agreement(Cleaned(t, planned, input)) && Issued(Cleaned(t, planned, input).slots)
  {
    var gone := Retries(t.captures, planned, input);
    ShrinkKeepsAgreement(t, Kept(t.captures, planned, input), gone);
    ReleaseIssued(t.slots, SlotsHeldBy(t.captures, gone) - {0});
  }

  lemma ReleaseIssued(s: Slots, gone: set<uint32>)
    requires Issued(s)
    ensures Issued(Release(s, gone))
  {
    WithoutMembers(s.ids, gone);
    assert forall x :: x in Without(s.ids, gone) ==> x in Elements(Without(s.ids, gone));
  }

  /** Facts about the middle of a pass that the later results share. */
  lemma AfterStartsAgrees(t: Table, input: PassInput)
    requires Agreement(t) && Issued(t.slots)
    requires AfterStarts(t, input).slots.issued < UINT32_SIZE
    ensures var r := AfterStarts(t, input); Agreement(r) && Issued(r.slots)
    ensures var r := AfterStarts(t, input);
            var kept := Kept(t.captures, Planned(input), input);
            kept.Keys <= r.captures.Keys <= kept.Keys + Planned(input)
            && forall id :: id in kept ==> r.captures[id] == kept[id]
  {
    var planned := Planned(input);
    var desired := input.desired;
    CleanedAgrees(t, planned, input);
    NewCandidatesFacts(Kept(t.captures, planned, input), desired);
    AddAllKeepsAgreement(Cleaned(t, planned, input), Starting(t, input), t.captures, planned, input);
    AddAllFrame(Cleaned(t, planned, input), Starting(t, input), t.captures, planned, input);
  }

  /** Every pass keeps the two tables in agreement, for any sessions, clock,
      capture deaths and start outcomes, until 2^32 ids have been issued. */
  lemma PassKeepsAgreement(graceMs: int, t: Table, input: PassInput)
    requires Agreement(t) && Issued(t.slots)
    requires Pass(graceMs, t, input).slots.issued < UINT32_SIZE
    ensures Agreement(Pass(graceMs, t, input)) && Issued(Pass(graceMs, t, input).slots)
  {
    AfterStartsAgrees(t, input);
    var started := AfterStarts(t, input);
    var gone := Overdue(started.captures, Planned(input), input.now, graceMs);
    ShrinkKeepsAgreement(started, started.captures - gone, gone);
    ReleaseIssued(started.slots, SlotsHeldBy(started.captures, gone));
  }

  lemma {:induction false} IssuedGrows(t: Table, cs: seq<Candidate>, before: Captures,
                                       planned: set<ProcessIdentity>, input: PassInput)
    ensures t.slots.issued <= AddAll(t, cs, before, planned, input).slots.issued <= t.slots.issued + |cs|
  {
    if cs != [] {
      IssuedGrows(t, cs[..|cs| - 1], before, planned, input);
    }
  }

  lemma PassIssuesAtMost32(graceMs: int, t: Table, input: PassInput)
    ensures t.slots.issued <= Pass(graceMs, t, input).slots.issued <= t.slots.issued + MAX_SOURCES
  {
    var planned := Planned(input);
    NewCandidatesFacts(Kept(t.captures, planned, input), input.desired);
    IssuedGrows(Cleaned(t, planned, input), Starting(t, input), t.captures, planned, input);
  }

  /** Slot agreement at every point of every run of passes. */
  lemma {:induction false} AgreementOverRuns(graceMs: int, inputs: seq<PassInput>, ts: seq<Table>, k: nat)
    requires IsRun(graceMs, inputs, ts) && k <= |inputs|
    requires ts[k].slots.issued < UINT32_SIZE
    ensures Agreement(ts[k]) && Issued(ts[k].slots)
    ensures |Live(ts[k].captures)| == |ts[k].slots.ids| <= MAX_SOURCES
  {
    if k == 0 {
      EmptyTableAgrees();
    } else {
      assert StepAt(graceMs, inputs, ts, k - 1);
      PassIssuesAtMost32(graceMs, ts[k - 1], inputs[k - 1]);
      AgreementOverRuns(graceMs, inputs, ts, k - 1);
      PassKeepsAgreement(graceMs, ts[k - 1], inputs[k - 1]);
    }
    LiveCapturesMatchSlots(ts[k]);
  }

  lemma EmptyTableAgrees()
    ensures Agreement(EMPTY_TABLE) && Issued(EMPTY_TABLE.slots)
  {
    assert SlotsHeldBy(map[], Live(map[])) == Elements([]);
  }
}
