/** What reconciliation achieves over several passes: convergence to the plan,
    the removal grace period and the retry backoff. */
module ReconciliationRuns {
  import opened Base
  import opened SlotTable
  import opened CandidateOrder
  import opened Reconciliation

  // ---- Convergence ----

  ghost predicate Converged(captures: Captures, planned: set<ProcessIdentity>) {
    captures.Keys == planned && Live(captures) == planned
  }

  /** An unplanned entry is past its grace period; a planned one has a running
      capture, or its retry is due, be its capture dead or missing. */
  ghost predicate FavourableEntry(graceMs: int, e: ActiveCapture, input: PassInput, id: ProcessIdentity) {
    if id !in Planned(input) then IsExpired(e, input.now, graceMs)
    else (e.source.Capture? && input.isRunning(id)) || input.now >= e.nextRetryAt
  }

  /** Planned captures start and keep running, retries are due, and everything
      unplanned has been absent for the grace period. */
  ghost predicate Favourable(graceMs: int, t: Table, input: PassInput) {
    && (forall id :: id in Planned(input) ==> input.starts(id).ok)
    && forall id :: id in t.captures ==> FavourableEntry(graceMs, t.captures[id], input, id)
  }

  /** What one attempt does to a table with room, and to a full one. */
  lemma AddOneOutcome(t: Table, c: Candidate, report: StartReport, prior: Option<nat>)
    requires Agreement(t) && Issued(t.slots) && c.identity !in t.captures
    requires AddOne(t, c, report, prior).slots.issued < UINT32_SIZE
    ensures var r := AddOne(t, c, report, prior);
            if IsFull(t.slots) then r == t
            else r.captures.Keys == t.captures.Keys + {c.identity}
                 && Live(r.captures) == Live(t.captures) + (if report.ok then {c.identity} else {})
                 && |r.slots.ids| == |t.slots.ids| + if report.ok then 1 else 0
  {
    if !IsFull(t.slots) {
      NextIdFresh(t.slots);
      RemoveLast(t.slots.ids, NextId(t.slots));
    }
  }

  /** What the last turn does to the table that the turns before it left. */
  lemma AddAllNext(t: Table, cs: seq<Candidate>, before: Captures, planned: set<ProcessIdentity>, input: PassInput)
    requires cs != [] && Agreement(t) && Issued(t.slots) && DistinctIdentities(cs)
    requires forall c :: c in cs ==> c.identity !in t.captures
    requires AddAll(t, cs, before, planned, input).slots.issued < UINT32_SIZE
    ensures var c := cs[|cs| - 1];
            var front := AddAll(t, cs[..|cs| - 1], before, planned, input);
            var r := AddAll(t, cs, before, planned, input);
            && c.identity !in front.captures && front.slots.issued <= r.slots.issued
            && (if IsFull(front.slots) then r == front
                else r.captures.Keys == front.captures.Keys + {c.identity}
                     && Live(r.captures) ==
                        Live(front.captures) + (if input.starts(c.identity).ok then {c.identity} else {})
                     && |r.slots.ids| == |front.slots.ids| + if input.starts(c.identity).ok then 1 else 0)
  {
    var n := |cs| - 1;
    assert cs[n] in cs && cs[n].identity !in Identities(cs[..n]);
    assert forall c :: c in cs[..n] ==> c in cs;
    AddAllKeepsAgreement(t, cs[..n], before, planned, input);
    AddAllFrame(t, cs[..n], before, planned, input);
    AddOneOutcome(AddAll(t, cs[..n], before, planned, input), cs[n], input.starts(cs[n].identity),
                  PriorFailures(before, planned, input, cs[n].identity));
  }

  /** How many of `cs` candidates find a slot when every start succeeds. */
  function Fit(slots: Slots, cs: nat): (m: nat)
    requires |slots.ids| <= MAX_SOURCES
    ensures m == cs || (m <= cs && |slots.ids| + m == MAX_SOURCES)
    ensures |slots.ids| + m <= MAX_SOURCES
  {
    if |slots.ids| + cs <= MAX_SOURCES then cs else MAX_SOURCES - |slots.ids|
  }

  /** `r` is `t` with captures for `chosen` added. */
  ghost predicate Grown(r: Table, t: Table, chosen: set<ProcessIdentity>, m: nat) {
    && |r.slots.ids| == |t.slots.ids| + m
    && r.captures.Keys == t.captures.Keys + chosen
    && Live(r.captures) == Live(t.captures) + chosen
  }

  lemma GrownMore(r: Table, front: Table, t: Table, cs: seq<Candidate>, m: nat)
    requires m < |cs| && Grown(front, t, Identities(cs[..m]), m)
    requires |r.slots.ids| == |front.slots.ids| + 1
    requires r.captures.Keys == front.captures.Keys + {cs[m].identity}
    requires Live(r.captures) == Live(front.captures) + {cs[m].identity}
    ensures Grown(r, t, Identities(cs[..m + 1]), m + 1)
  {
    IdentitiesPush(cs, m);
  }

  lemma GrownNext(r: Table, front: Table, t: Table, cs: seq<Candidate>)
    requires cs != [] && |t.slots.ids| <= MAX_SOURCES
    requires var n := |cs| - 1; var m := Fit(t.slots, n); Grown(front, t, Identities(cs[..n][..m]), m)
    requires IsFull(front.slots) ==> r == front
    requires !IsFull(front.slots) ==>
               && |r.slots.ids| == |front.slots.ids| + 1
               && r.captures.Keys == front.captures.Keys + {cs[|cs| - 1].identity}
               && Live(r.captures) == Live(front.captures) + {cs[|cs| - 1].identity}
    ensures var m := Fit(t.slots, |cs|); Grown(r, t, Identities(cs[..m]), m)
  {
    var n := |cs| - 1;
    var m := Fit(t.slots, n);
    assert cs[..n][..m] == cs[..m];
    if !IsFull(front.slots) {
      GrownMore(r, front, t, cs, n);
    }
  }

  /** When every start succeeds, candidates are taken in rank order until the
      slots run out. */
  lemma {:induction false} AddAllFillsSlots(t: Table, cs: seq<Candidate>, before: Captures,
                                            planned: set<ProcessIdentity>, input: PassInput)
    requires Agreement(t) && Issued(t.slots) && DistinctIdentities(cs)
    requires forall c :: c in cs ==> c.identity !in t.captures && input.starts(c.identity).ok
    requires AddAll(t, cs, before, planned, input).slots.issued < UINT32_SIZE
    ensures var m := Fit(t.slots, |cs|);
            Grown(AddAll(t, cs, before, planned, input), t, Identities(cs[..m]), m)
  {
    if cs == [] {
      assert Identities(cs[..0]) == {};
    } else {
      var n := |cs| - 1;
      AddAllNext(t, cs, before, planned, input);
      AddAllFillsSlots(t, cs[..n], before, planned, input);
      assert cs[n] in cs;
      GrownNext(AddAll(t, cs, before, planned, input), AddAll(t, cs[..n], before, planned, input), t, cs);
    }
  }

  lemma SameSizeIdentities(cs: seq<Candidate>, m: nat)
    requires DistinctIdentities(cs) && m <= |cs|
    ensures Identities(cs[..m]) == Identities(cs) <==> m == |cs|
    ensures |Identities(cs)| == |cs|
  {
    var ids := seq(|cs|, i requires 0 <= i < |cs| => cs[i].identity);
    DistinctSize(ids);
    assert Elements(ids) == Identities(cs) by {
      forall c | c in cs ensures c.identity in ids {
        var i :| 0 <= i < |cs| && cs[i] == c;
        assert ids[i] == c.identity;
      }
    }
    if m < |cs| {
      assert cs[m].identity in Identities(cs) && cs[m].identity !in Identities(cs[..m]);
    } else {
      assert cs[..m] == cs;
    }
  }

  /** The captures that a pass neither stops nor has to replace. */
  ghost function StillLive(t: Table, input: PassInput): set<ProcessIdentity> {
    Live(Kept(t.captures, Planned(input), input))
  }

  /** What a favourable pass starts from: of the planned captures those that run
      stay, and exactly the planned processes without one are up for a start. */
  lemma FavourableStart(graceMs: int, t: Table, input: PassInput)
    requires Agreement(t) && Issued(t.slots) && Favourable(graceMs, t, input)
    ensures StillLive(t, input) <= Live(t.captures) <= StillLive(t, input) + Planned(input)
    ensures forall id :: id in StillLive(t, input) && id in Planned(input) ==> input.isRunning(id)
    ensures Kept(t.captures, Planned(input), input).Keys * Planned(input) == StillLive(t, input) * Planned(input)
    ensures Identities(Starting(t, input)) == Planned(input) - StillLive(t, input)
  {
    var planned := Planned(input);
    var kept := Kept(t.captures, planned, input);
    NewCandidatesFacts(kept, input.desired);
    forall id | id in planned ensures id in kept <==> id in Live(kept) {
    }
  }

  /** Everything unplanned that was kept is expired, so it goes in this pass. */
  lemma FavourableDrop(graceMs: int, t: Table, input: PassInput)
    requires Agreement(t) && Issued(t.slots) && Favourable(graceMs, t, input)
    requires AfterStarts(t, input).slots.issued < UINT32_SIZE
    ensures var started := AfterStarts(t, input).captures;
            Overdue(started, Planned(input), input.now, graceMs) == started.Keys - Planned(input)
  {
    AfterStartsAgrees(t, input);
  }

  /** The middle of a favourable pass: the live captures and as many of the
      missing planned ones as there are free slots. */
  lemma FavourableStarts(graceMs: int, t: Table, input: PassInput) returns (m: nat)
    requires Agreement(t) && Issued(t.slots) && Favourable(graceMs, t, input)
    requires AfterStarts(t, input).slots.issued < UINT32_SIZE
    ensures m <= |Starting(t, input)|
    ensures m == |Starting(t, input)| || |StillLive(t, input)| + m == MAX_SOURCES
    ensures |StillLive(t, input)| + m <= MAX_SOURCES
    ensures Grown(AfterStarts(t, input), Cleaned(t, Planned(input), input), Identities(Starting(t, input)[..m]), m)
  {
    var planned := Planned(input);
    var cs, cleaned := Starting(t, input), Cleaned(t, planned, input);
    CleanedAgrees(t, planned, input);
    LiveCapturesMatchSlots(cleaned);
    FavourableStart(graceMs, t, input);
    AllStart(graceMs, t, input);
    AddAllFillsSlots(cleaned, cs, t.captures, planned, input);
    m := Fit(cleaned.slots, |cs|);
  }

  lemma AllStart(graceMs: int, t: Table, input: PassInput)
    requires Favourable(graceMs, t, input)
    ensures DistinctIdentities(Starting(t, input))
    ensures forall c :: c in Starting(t, input) ==>
              c.identity !in Cleaned(t, Planned(input), input).captures && input.starts(c.identity).ok
  {
    var cs := Starting(t, input);
    NewCandidatesFacts(Kept(t.captures, Planned(input), input), input.desired);
    forall c | c in cs ensures input.starts(c.identity).ok {
      assert c.identity in Planned(input);
    }
  }

  lemma LiveAfterDrop(captures: Captures, gone: set<ProcessIdentity>)
    ensures Live(captures - gone) == Live(captures) - gone
  {
  }

  lemma PrefixIdentities(cs: seq<Candidate>, m: nat)
    requires m <= |cs|
    ensures Identities(cs[..m]) <= Identities(cs)
  {
  }

  /** Only planned captures are left, all live: those that were running
      before and the first `m` of the others, in rank order. */
  lemma FavourablePass(graceMs: int, t: Table, input: PassInput) returns (m: nat)
    requires Agreement(t) && Issued(t.slots) && Favourable(graceMs, t, input)
    requires Pass(graceMs, t, input).slots.issued < UINT32_SIZE
    ensures var after := Pass(graceMs, t, input).captures;
            var cs := Starting(t, input);
            && Live(after) == after.Keys
            && m <= |cs| && (m < |cs| <==> |StillLive(t, input)| + |cs| > MAX_SOURCES)
            && after.Keys == (StillLive(t, input) * Planned(input)) + Identities(cs[..m])
  {
    var planned := Planned(input);
    var kept := Kept(t.captures, planned, input);
    var cs := Starting(t, input);
    FavourableStart(graceMs, t, input);
    FavourableDrop(graceMs, t, input);
    m := FavourableStarts(graceMs, t, input);
    var started := AfterStarts(t, input).captures;
    PrefixIdentities(cs, m);
    LiveAfterDrop(started, started.Keys - planned);
    KeysAlgebra(kept.Keys, Live(kept), planned, Identities(cs[..m]));
  }

  lemma KeysAlgebra<T>(keys: set<T>, live: set<T>, planned: set<T>, more: set<T>)
    requires keys * planned == live * planned && more <= planned && live <= keys
    ensures (keys + more) - ((keys + more) - planned) == (live * planned) + more
    ensures (live + more) - ((keys + more) - planned) == (live * planned) + more
  {
  }

  /** All of the plan is reached iff every planned process had its turn. */
  lemma ReachedIffAllChosen<T>(live: set<T>, planned: set<T>, missing: set<T>, chosen: set<T>)
    requires missing == planned - live && chosen <= missing
    ensures (live * planned) + chosen == planned <==> chosen == missing
  {
    if chosen != missing {
      var x :| x in missing && x !in chosen;
      assert x !in (live * planned) + chosen;
    } else {
      assert (live * planned) + (planned - live) == planned;
    }
  }

  lemma SameUnion<T>(a: set<T>, b: set<T>, planned: set<T>)
    requires a <= b <= a + planned
    ensures a + planned == b + planned
  {
  }

  lemma UnionSize<T>(a: set<T>, b: set<T>)
    ensures |a + b| == |a| + |b - a|
  {
    assert a + b == a + (b - a);
  }

  /** A favourable pass reaches the plan exactly when the captures already live
      and the planned ones fit into the 32 slots together, because additions
      run before removals. */
  lemma ConvergesInOneIff(graceMs: int, t: Table, input: PassInput)
    requires Agreement(t) && Issued(t.slots) && Favourable(graceMs, t, input)
    requires Pass(graceMs, t, input).slots.issued < UINT32_SIZE
    ensures Converged(Pass(graceMs, t, input).captures, Planned(input)) <==>
            |Live(t.captures) + Planned(input)| <= MAX_SOURCES
  {
    var m := FavourablePass(graceMs, t, input);
    var cs := Starting(t, input);
    FavourableStart(graceMs, t, input);
    NewCandidatesFacts(Kept(t.captures, Planned(input), input), input.desired);
    SameSizeIdentities(cs, m);
    PrefixIdentities(cs, m);
    ReachedIffAllChosen(StillLive(t, input), Planned(input), Identities(cs), Identities(cs[..m]));
    UnionSize(StillLive(t, input), Planned(input));
    SameUnion(StillLive(t, input), Live(t.captures), Planned(input));
  }

  /** Live captures that are all planned leave room for the rest of the plan. */
  lemma ConvergesWithoutLeftovers(graceMs: int, t: Table, input: PassInput)
    requires Agreement(t) && Issued(t.slots) && Favourable(graceMs, t, input)
    requires Pass(graceMs, t, input).slots.issued < UINT32_SIZE
    requires Live(t.captures) <= Planned(input)
    ensures Converged(Pass(graceMs, t, input).captures, Planned(input))
  {
    assert Live(t.captures) + Planned(input) == Planned(input);
    PlannedSize(input);
    ConvergesInOneIff(graceMs, t, input);
  }

  lemma FavourablePassLeavesPlanned(graceMs: int, t: Table, input: PassInput)
    requires Agreement(t) && Issued(t.slots) && Favourable(graceMs, t, input)
    requires Pass(graceMs, t, input).slots.issued < UINT32_SIZE
    ensures var after := Pass(graceMs, t, input).captures; Live(after) == after.Keys <= Planned(input)
  {
    var m := FavourablePass(graceMs, t, input);
    FavourableStart(graceMs, t, input);
    PrefixIdentities(Starting(t, input), m);
  }

  lemma FavourableAgain(graceMs: int, t: Table, input: PassInput)
    requires Agreement(t) && Live(t.captures) == t.captures.Keys <= Planned(input)
    requires forall id :: id in Planned(input) ==> input.starts(id).ok && input.isRunning(id)
    ensures Favourable(graceMs, t, input)
  {
    forall id | id in t.captures ensures id in Planned(input) && t.captures[id].source.Capture? {
      assert id in t.captures.Keys && id in Live(t.captures);
    }
  }

  /** From any agreeing state two passes with the same plan reach it: the first
      one clears the slots that the second one may need. */
  lemma ConvergesInTwo(graceMs: int, t: Table, first: PassInput, second: PassInput)
    requires Agreement(t) && Issued(t.slots) && Favourable(graceMs, t, first)
    requires Planned(second) == Planned(first)
    requires forall id :: id in Planned(second) ==> second.starts(id).ok && second.isRunning(id)
    requires Pass(graceMs, Pass(graceMs, t, first), second).slots.issued < UINT32_SIZE
    ensures Converged(Pass(graceMs, Pass(graceMs, t, first), second).captures, Planned(first))
  {
    var middle := Pass(graceMs, t, first);
    PassIssuesAtMost32(graceMs, middle, second);
    PassKeepsAgreement(graceMs, t, first);
    FavourablePassLeavesPlanned(graceMs, t, first);
    FavourableAgain(graceMs, middle, second);
    ConvergesWithoutLeftovers(graceMs, middle, second);
  }

  /** Once reached, the plan is kept: while the captures run and the plan stays
      the same, every entry keeps its capture and its slot. */
  lemma ConvergedIsStable(graceMs: int, t: Table, input: PassInput)
    requires Agreement(t) && Issued(t.slots) && Converged(t.captures, Planned(input))
    requires forall id :: id in Planned(input) ==> input.isRunning(id)
    ensures Pass(graceMs, t, input).slots == t.slots
    ensures Converged(Pass(graceMs, t, input).captures, Planned(input))
    ensures forall id :: id in t.captures ==>
              Pass(graceMs, t, input).captures[id] == t.captures[id].(lastSeenAt := input.now)
  {
    var planned := Planned(input);
    NothingToRetry(t, input);
    var kept := Kept(t.captures, planned, input);
    NothingNew(kept, input.desired);
    WithoutNothing(t.slots.ids);
    assert AfterStarts(t, input) == Cleaned(t, planned, input) == Table(kept, t.slots);
    assert Overdue(kept, planned, input.now, graceMs) == {};
    assert SlotsHeldBy(kept, {}) == {};
    assert kept - {} == kept;
  }

  lemma {:induction false} NothingNew(kept: Captures, desired: seq<Candidate>)
    requires Identities(desired) <= kept.Keys
    ensures NewCandidates(kept, desired) == []
  {
    if desired != [] {
      var n := |desired| - 1;
      assert desired[n] in desired && forall c :: c in desired[..n] ==> c in desired;
      NothingNew(kept, desired[..n]);
    }
  }

  lemma NothingToRetry(t: Table, input: PassInput)
    requires Agreement(t) && Converged(t.captures, Planned(input))
    requires forall id :: id in Planned(input) ==> input.isRunning(id)
    ensures Retries(t.captures, Planned(input), input) == {}
    ensures SlotsHeldBy(t.captures, Retries(t.captures, Planned(input), input)) - {0} == {}
    ensures Kept(t.captures, Planned(input), input).Keys == Planned(input)
    ensures Live(Kept(t.captures, Planned(input), input)) == Planned(input)
  {
    forall id | id in t.captures ensures t.captures[id].source.Capture? {
      assert id in Live(t.captures);
    }
  }

  lemma PlannedSize(input: PassInput)
    ensures |Planned(input)| <= MAX_SOURCES
  {
    var desired := input.desired;
    SameSizeIdentities(desired, 0);
  }

  // ---- What one pass does to one entry ----

  /** The entry a start attempt leaves behind, if it leaves one. */
  lemma {:induction false} AddAllEntry(t: Table, cs: seq<Candidate>, before: Captures,
                                       planned: set<ProcessIdentity>, input: PassInput, id: ProcessIdentity)
    ensures var r := AddAll(t, cs, before, planned, input).captures;
            && (id in r ==>
                  || (id in t.captures && r[id] == t.captures[id])
                  || (input.starts(id).ok && exists c, slot ::
                        c in cs && c.identity == id && r[id] == StartedEntry(c, slot, input.starts(id)))
                  || (!input.starts(id).ok && exists c ::
                        c in cs && c.identity == id
                        && r[id] == FailedEntry(c, input.starts(id), PriorFailures(before, planned, input, id))))
            && (id in t.captures ==> id in r)
            && (id !in Identities(cs) && id in t.captures ==> r[id] == t.captures[id])
  {
    if cs != [] {
      var n := |cs| - 1;
      AddAllEntry(t, cs[..n], before, planned, input, id);
      assert forall c :: c in cs[..n] ==> c in cs;
      assert cs[n] in cs;
      var front := AddAll(t, cs[..n], before, planned, input);
      if cs[n].identity == id {
        var (taken, slot) := AddSlot(front.slots);
        assert AddAll(t, cs, before, planned, input).captures ==
               AddOne(front, cs[n], input.starts(id), PriorFailures(before, planned, input, id)).captures;
      }
    }
  }

  /** An entry that is planned but not up for a start only gets a newer sighting. */
  lemma PlannedEntryStays(graceMs: int, t: Table, input: PassInput, id: ProcessIdentity)
    requires id in t.captures && id in Planned(input) && id !in Identities(Starting(t, input))
    ensures id in Pass(graceMs, t, input).captures
    ensures Pass(graceMs, t, input).captures[id] == t.captures[id].(lastSeenAt := input.now)
  {
    var planned := Planned(input);
    var kept := Kept(t.captures, planned, input);
    NewCandidatesFacts(kept, input.desired);
    assert id in kept;
    AddAllEntry(Cleaned(t, planned, input), Starting(t, input), t.captures, planned, input, id);
  }

  /** An unplanned entry is removed in a pass if and only if its last sighting
      is at least the grace period old. */
  lemma UnplannedRemovedIffExpired(graceMs: int, t: Table, input: PassInput, id: ProcessIdentity)
    requires id in t.captures && id !in Planned(input)
    ensures id in Pass(graceMs, t, input).captures <==> WholeMs(input.now - t.captures[id].lastSeenAt) < graceMs
    ensures id in Pass(graceMs, t, input).captures ==> Pass(graceMs, t, input).captures[id] == t.captures[id]
  {
    var planned := Planned(input);
    NewCandidatesFacts(Kept(t.captures, planned, input), input.desired);
    AddAllEntry(Cleaned(t, planned, input), Starting(t, input), t.captures, planned, input, id);
  }

  // ---- Whole runs ----

  /** The clock is monotone across passes and within each start attempt. */
  ghost predicate MonotoneClock(inputs: seq<PassInput>) {
    && (forall i, j :: 0 <= i <= j < |inputs| ==> inputs[i].now <= inputs[j].now)
    && forall i, id :: 0 <= i < |inputs| ==>
         inputs[i].now <= inputs[i].starts(id).beganAt <= inputs[i].starts(id).failedAt
  }

  /** A planned entry is seen now, another one keeps its sighting. */
  ghost predicate SightingStep(before: Captures, input: PassInput, after: Captures, id: ProcessIdentity) {
    id in after ==>
      if id in Planned(input) then input.now <= after[id].lastSeenAt
      else id in before && after[id].lastSeenAt == before[id].lastSeenAt
  }

  lemma PassSightings(graceMs: int, t: Table, input: PassInput, id: ProcessIdentity)
    requires input.now <= input.starts(id).beganAt
    ensures SightingStep(t.captures, input, Pass(graceMs, t, input).captures, id)
  {
    var planned := Planned(input);
    NewCandidatesFacts(Kept(t.captures, planned, input), input.desired);
    AddAllEntry(Cleaned(t, planned, input), Starting(t, input), t.captures, planned, input, id);
  }

  lemma RunSighting(graceMs: int, inputs: seq<PassInput>, ts: seq<Table>, id: ProcessIdentity, m: nat)
    requires IsRun(graceMs, inputs, ts) && m < |inputs|
    requires inputs[m].now <= inputs[m].starts(id).beganAt
    ensures SightingStep(ts[m].captures, inputs[m], ts[m + 1].captures, id)
  {
    assert StepAt(graceMs, inputs, ts, m);
    PassSightings(graceMs, ts[m], inputs[m], id);
  }

  /** No pass planned an entry later than the entry remembers. */
  lemma {:induction false} SightingsAreRemembered(graceMs: int, inputs: seq<PassInput>, ts: seq<Table>,
                                                  id: ProcessIdentity, j: nat, b: nat)
    requires IsRun(graceMs, inputs, ts) && MonotoneClock(inputs) && j < b <= |inputs|
    requires id in Planned(inputs[j]) && id in ts[b].captures
    ensures inputs[j].now <= ts[b].captures[id].lastSeenAt
    decreases b
  {
    RunSighting(graceMs, inputs, ts, id, b - 1);
    if id !in Planned(inputs[b - 1]) {
      SightingsAreRemembered(graceMs, inputs, ts, id, j, b - 1);
    }
  }

  /** An entry is removed for absence only if no pass within the preceding grace
      period planned it. */
  lemma GraceOverRuns(graceMs: int, inputs: seq<PassInput>, ts: seq<Table>, id: ProcessIdentity, j: nat, b: nat)
    requires IsRun(graceMs, inputs, ts) && MonotoneClock(inputs) && j < b < |inputs|
    requires id in ts[b].captures && id !in ts[b + 1].captures && id !in Planned(inputs[b])
    requires id in Planned(inputs[j])
    ensures WholeMs(inputs[b].now - inputs[j].now) >= graceMs
  {
    assert StepAt(graceMs, inputs, ts, b);
    UnplannedRemovedIffExpired(graceMs, ts[b], inputs[b], id);
    SightingsAreRemembered(graceMs, inputs, ts, id, j, b);
    WholeMsMonotone(inputs[b].now - ts[b].captures[id].lastSeenAt, inputs[b].now - inputs[j].now);
  }

  lemma WholeMsMonotone(a: int, b: int)
    requires a <= b
    ensures WholeMs(a) <= WholeMs(b)
  {
  }

  /** A start attempt failed in the pass from `t` to `after` and was recorded. */
  ghost predicate FailedIn(t: Table, input: PassInput, after: Table, id: ProcessIdentity) {
    && id in Identities(Starting(t, input))
    && id in after.captures
    && after.captures[id].source.NoCapture?
  }

  /** One more failure than before. A first one is retried a second after the
      attempt began, a repeated one its backoff after it was noticed. */
  lemma FailureIsRecorded(graceMs: int, t: Table, input: PassInput, id: ProcessIdentity)
    requires FailedIn(t, input, Pass(graceMs, t, input), id)
    requires input.starts(id).beganAt <= input.starts(id).failedAt
    ensures var e := Pass(graceMs, t, input).captures[id];
            && e.failures == 1 + (if id in t.captures then t.captures[id].failures else 0)
            && e.lastSeenAt == input.starts(id).beganAt
            && e.nextRetryAt == (if id in t.captures then input.starts(id).failedAt + Backoff(e.failures)
                                 else input.starts(id).beganAt + Backoff(1))
            && e.nextRetryAt >= input.starts(id).beganAt + Backoff(e.failures)
  {
    var planned := Planned(input);
    NewCandidatesFacts(Kept(t.captures, planned, input), input.desired);
    AddAllEntry(Cleaned(t, planned, input), Starting(t, input), t.captures, planned, input, id);
  }

  /** Two records of one entry that differ at most in the time of the last sighting. */
  ghost predicate SameButSighting(a: ActiveCapture, b: ActiveCapture) {
    a == b.(lastSeenAt := a.lastSeenAt)
  }

  /** `id` is planned in pass `m`, but not up for a start. */
  ghost predicate WaitsAt(inputs: seq<PassInput>, ts: seq<Table>, m: nat, id: ProcessIdentity)
    requires m < |inputs| && |ts| == |inputs| + 1
  {
    id in Planned(inputs[m]) && id !in Identities(Starting(ts[m], inputs[m]))
  }

  lemma WaitingStep(graceMs: int, inputs: seq<PassInput>, ts: seq<Table>, m: nat, id: ProcessIdentity, e: ActiveCapture)
    requires IsRun(graceMs, inputs, ts) && m < |inputs| && WaitsAt(inputs, ts, m, id)
    requires id in ts[m].captures && SameButSighting(ts[m].captures[id], e)
    ensures id in ts[m + 1].captures && SameButSighting(ts[m + 1].captures[id], e)
  {
    assert StepAt(graceMs, inputs, ts, m);
    PlannedEntryStays(graceMs, ts[m], inputs[m], id);
  }

  lemma {:induction false} EntryWaits(graceMs: int, inputs: seq<PassInput>, ts: seq<Table>,
                                      a: nat, b: nat, id: ProcessIdentity)
    requires IsRun(graceMs, inputs, ts) && a < b <= |inputs|
    requires id in ts[a + 1].captures
    requires forall m :: a < m < b ==> WaitsAt(inputs, ts, m, id)
    ensures id in ts[b].captures
    ensures SameButSighting(ts[b].captures[id], ts[a + 1].captures[id])
    decreases b
  {
    if a + 1 < b {
      EntryWaits(graceMs, inputs, ts, a, b - 1, id);
      WaitingStep(graceMs, inputs, ts, b - 1, id, ts[a + 1].captures[id]);
    }
  }

  /** An entry is started again only when its backoff is over. */
  lemma StartedOnlyWhenDue(t: Table, input: PassInput, id: ProcessIdentity)
    requires id in t.captures && id in Identities(Starting(t, input))
    ensures input.now >= t.captures[id].nextRetryAt
  {
    NewCandidatesFacts(Kept(t.captures, Planned(input), input), input.desired);
    assert id in Retries(t.captures, Planned(input), input);
  }

  /** While the process stays planned, the pass that next brings it up for a
      start does so no earlier than the backoff for the recorded failures. */
  lemma BackoffOverRuns(graceMs: int, inputs: seq<PassInput>, ts: seq<Table>, a: nat, b: nat, id: ProcessIdentity)
    requires IsRun(graceMs, inputs, ts) && MonotoneClock(inputs) && a < b < |inputs|
    requires FailedIn(ts[a], inputs[a], ts[a + 1], id)
    requires forall m :: a < m < b ==> WaitsAt(inputs, ts, m, id)
    requires id in Identities(Starting(ts[b], inputs[b]))
    ensures var e := ts[a + 1].captures[id];
            && e.failures == 1 + (if id in ts[a].captures then ts[a].captures[id].failures else 0)
            && inputs[b].starts(id).beganAt >= inputs[a].starts(id).beganAt + Backoff(e.failures)
  {
    assert StepAt(graceMs, inputs, ts, a);
    FailureIsRecorded(graceMs, ts[a], inputs[a], id);
    EntryWaits(graceMs, inputs, ts, a, b, id);
    StartedOnlyWhenDue(ts[b], inputs[b], id);
  }
}
