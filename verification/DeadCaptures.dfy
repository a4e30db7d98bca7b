/** What a pass makes of a planned entry, and above all of a capture that has
    stopped running. */
module DeadCaptures {
  import opened Base
  import opened SlotTable
  import opened CandidateOrder
  import opened Reconciliation
  import opened ReconciliationRuns
  import opened LostEntries

  // ---- Slots and captures that starts bring in are new ----

  lemma {:induction false} RemoveFirstSubset(ids: seq<uint32>, id: uint32)
    ensures forall x :: x in RemoveFirst(ids, id) ==> x in ids
  {
    if ids != [] && ids[0] != id {
      RemoveFirstSubset(ids[1..], id);
    }
  }

  ghost predicate NewerThan(slots: Slots, earlier: Slots) {
    forall x :: x in slots.ids ==> x in earlier.ids || x > earlier.issued
  }

  lemma AddedSlotIsNew(t: Table, c: Candidate, report: StartReport, prior: Option<nat>)
    requires AddOne(t, c, report, prior).slots.issued < UINT32_SIZE
    ensures var r := AddOne(t, c, report, prior);
            && NewerThan(r.slots, t.slots) && t.slots.issued <= r.slots.issued
            && (c.identity !in t.captures && c.identity in r.captures && r.captures[c.identity].source.Capture? ==>
                  r.captures[c.identity].source.feeds > t.slots.issued)
  {
    RemoveFirstSubset(AddSlot(t.slots).0.ids, AddSlot(t.slots).1);
  }

  /** Captures that `r` has and `t` has not deliver to slots issued since `t`. */
  ghost predicate NewCapturesAreNewer(r: Table, t: Table) {
    forall id :: id in r.captures && id !in t.captures && r.captures[id].source.Capture? ==>
      r.captures[id].source.feeds > t.slots.issued
  }

  lemma {:induction false} AddedSlotsAreNew(t: Table, cs: seq<Candidate>, before: Captures,
                                            planned: set<ProcessIdentity>, input: PassInput)
    requires forall c :: c in cs ==> c.identity !in t.captures
    requires DistinctIdentities(cs) && AddAll(t, cs, before, planned, input).slots.issued < UINT32_SIZE
    ensures var r := AddAll(t, cs, before, planned, input);
            NewerThan(r.slots, t.slots) && t.slots.issued <= r.slots.issued && NewCapturesAreNewer(r, t)
  {
    if cs != [] {
      var n := |cs| - 1;
      var c, front := cs[n], AddAll(t, cs[..n], before, planned, input);
      NotYetAdded(t, cs, before, planned, input, n);
      AddedSlotIsNew(front, c, input.starts(c.identity), PriorFailures(before, planned, input, c.identity));
      assert forall x :: x in cs[..n] ==> x in cs;
      AddedSlotsAreNew(t, cs[..n], before, planned, input);
    }
  }

  // ---- One entry ----

  /** The entry has no capture that runs, and nothing delays its start. */
  predicate IsDue(t: Table, input: PassInput, id: ProcessIdentity) {
    && id in t.captures && input.now >= t.captures[id].nextRetryAt
    && (t.captures[id].source.NoCapture? || !input.isRunning(id))
  }

  lemma DueIsStarted(t: Table, input: PassInput, id: ProcessIdentity) returns (k: nat)
    requires id in Planned(input) && IsDue(t, input, id)
    ensures k < |Starting(t, input)| && Starting(t, input)[k].identity == id
    ensures id in Retries(t.captures, Planned(input), input)
  {
    var kept := Kept(t.captures, Planned(input), input);
    NewCandidatesFacts(kept, input.desired);
    var c :| c in input.desired && c.identity == id;
    assert c in Starting(t, input);
    k :| 0 <= k < |Starting(t, input)| && Starting(t, input)[k] == c;
  }

  /** A planned entry whose capture runs, or whose retry is not due, is left
      alone. */
  lemma UndisturbedUnlessDue(graceMs: int, t: Table, input: PassInput, id: ProcessIdentity)
    requires id in t.captures && id in Planned(input)
    requires (t.captures[id].source.Capture? && input.isRunning(id)) || input.now < t.captures[id].nextRetryAt
    ensures id in Pass(graceMs, t, input).captures
    ensures Pass(graceMs, t, input).captures[id] == t.captures[id].(lastSeenAt := input.now)
  {
    NewCandidatesFacts(Kept(t.captures, Planned(input), input), input.desired);
    PlannedEntryStays(graceMs, t, input, id);
  }

  /** The slot of a dead capture is given back and not taken again. */
  lemma DeadSlotIsFreed(graceMs: int, t: Table, input: PassInput, id: ProcessIdentity)
    requires Agreement(t) && Issued(t.slots) && Pass(graceMs, t, input).slots.issued < UINT32_SIZE
    requires id in Planned(input) && IsDue(t, input, id) && t.captures[id].source.Capture?
    ensures t.captures[id].source.feeds !in Pass(graceMs, t, input).slots.ids
  {
    var earlier := t.captures[id].source.feeds;
    var planned, cleaned := Planned(input), Cleaned(t, Planned(input), input);
    var k := DueIsStarted(t, input, id);
    var freed := SlotsHeldBy(t.captures, Retries(t.captures, planned, input)) - {0};
    assert EntryOk(id, t.captures[id]) && earlier in freed;
    assert id in Live(t.captures) && earlier in Elements(t.slots.ids);
    WithoutMembers(t.slots.ids, freed);
    assert forall x :: x in cleaned.slots.ids ==> x in Elements(cleaned.slots.ids);
    StartingFacts(t, input);
    AddedSlotsAreNew(cleaned, Starting(t, input), t.captures, planned, input);
    var started := AfterStarts(t, input);
    assert earlier !in started.slots.ids;
    var gone := SlotsHeldBy(started.captures, Overdue(started.captures, planned, input.now, graceMs));
    WithoutMembers(started.slots.ids, gone);
    assert forall x :: x in Without(started.slots.ids, gone) ==> x in Elements(Without(started.slots.ids, gone));
    assert forall x :: x in Elements(started.slots.ids) ==> x in started.slots.ids;
  }

  /** What the start of a planned process leaves when it has a slot. */
  lemma StartedInPass(graceMs: int, t: Table, input: PassInput, id: ProcessIdentity)
    requires Pass(graceMs, t, input).slots.issued < UINT32_SIZE
    requires id in Identities(Starting(t, input)) && id in Pass(graceMs, t, input).captures
    ensures var e := Pass(graceMs, t, input).captures[id];
            if input.starts(id).ok then e.source.Capture? && e.source.feeds > t.slots.issued && e.failures == 0
            else e.source.NoCapture? && e.failures == 1 + if id in t.captures then t.captures[id].failures else 0
  {
    var planned, cleaned := Planned(input), Cleaned(t, Planned(input), input);
    StartingFacts(t, input);
    AddedSlotsAreNew(cleaned, Starting(t, input), t.captures, planned, input);
    AddAllEntry(cleaned, Starting(t, input), t.captures, planned, input, id);
  }

  /** A planned entry without a running capture is started again as soon as it
      is due: only when the captures that stay and the earlier successful starts
      take all 32 slots, it goes; otherwise a successful start gives it a capture
      with a slot issued in this pass, and a failed one counts one more failure. */
  lemma DueEntryIsRetried(graceMs: int, t: Table, input: PassInput, id: ProcessIdentity) returns (k: nat)
    requires Agreement(t) && Issued(t.slots) && Pass(graceMs, t, input).slots.issued < UINT32_SIZE
    requires id in Planned(input) && id in t.captures && input.now >= t.captures[id].nextRetryAt
    requires t.captures[id].source.NoCapture? || !input.isRunning(id)
    ensures k < |Starting(t, input)| && Starting(t, input)[k].identity == id
    ensures var after := Pass(graceMs, t, input).captures;
            if |StillLive(t, input)| + Succeeding(Starting(t, input)[..k], input) >= 32 then id !in after
            else id in after
                 && if input.starts(id).ok then after[id].source.Capture? && after[id].source.feeds > t.slots.issued
                    else after[id].source.NoCapture? && after[id].failures == t.captures[id].failures + 1
  {
    k := DueIsStarted(t, input, id);
    PlannedEntryLostIff(graceMs, t, input, k);
    assert Starting(t, input)[k] in Starting(t, input);
    if id in Pass(graceMs, t, input).captures {
      StartedInPass(graceMs, t, input, id);
    }
  }

  /** A planned capture that died is replaced in the very next pass: its slot is
      free for good, and what takes its place is new or counts a first failure. */
  lemma DeadCaptureIsReplaced(graceMs: int, t: Table, input: PassInput, id: ProcessIdentity)
    requires Agreement(t) && Issued(t.slots) && Pass(graceMs, t, input).slots.issued < UINT32_SIZE
    requires id in Planned(input) && id in t.captures && t.captures[id].source.Capture?
    requires !input.isRunning(id) && input.now >= 0
    ensures var dead, after := t.captures[id].source.feeds, Pass(graceMs, t, input);
            && dead !in after.slots.ids
            && (id in after.captures && input.starts(id).ok ==>
                  after.captures[id].source.Capture? && after.captures[id].source.feeds > t.slots.issued >= dead)
            && (id in after.captures && !input.starts(id).ok ==>
                  after.captures[id].source.NoCapture? && after.captures[id].failures == 1)
  {
    assert EntryOk(id, t.captures[id]);
    var k := DueEntryIsRetried(graceMs, t, input, id);
    DeadSlotIsFreed(graceMs, t, input, id);
    OldSlotWasIssued(t, id);
  }

  lemma OldSlotWasIssued(t: Table, id: ProcessIdentity)
    requires Agreement(t) && Issued(t.slots) && id in Live(t.captures)
    ensures t.captures[id].source.feeds <= t.slots.issued
  {
    assert EntryOk(id, t.captures[id]);
    assert t.captures[id].mixerSourceId in Elements(t.slots.ids);
  }
}
