/** The controller that drives its active captures and the mixer's slots
    towards the plan, one reconciliation pass at a time. */
module FilteredMonitorController {
  import opened Base
  import opened SlotTable
  import opened CandidateOrder
  import opened SourcePlanner
  import opened Reconciliation
  import Mixer = MultiSourceMixer

  /** A planned entry set aside because its capture is gone or never started. */
  datatype RetryEntry = RetryEntry(identity: ProcessIdentity, previousFailures: nat, oldMixerSourceId: uint32)

  function RetryOf(id: ProcessIdentity, e: ActiveCapture): RetryEntry {
    RetryEntry(id, e.failures, e.mixerSourceId)
  }

  /** `retries` records the entries `gone`, as they were in `before`. */
  ghost predicate RetriesListed(retries: seq<RetryEntry>, before: Captures, gone: set<ProcessIdentity>) {
    && gone <= before.Keys
    && (forall re :: re in retries ==> re.identity in gone && re == RetryOf(re.identity, before[re.identity]))
    && forall id :: id in gone ==> RetryOf(id, before[id]) in retries
  }

  lemma RetriesListedMore(retries: seq<RetryEntry>, before: Captures, gone: set<ProcessIdentity>, id: ProcessIdentity)
    requires RetriesListed(retries, before, gone) && id in before
    ensures RetriesListed(retries + [RetryOf(id, before[id])], before, gone + {id})
  {
  }

  ghost function OldSlots(retries: seq<RetryEntry>): set<uint32> {
    set re | re in retries :: re.oldMixerSourceId
  }

  lemma OldSlotsAreHeld(retries: seq<RetryEntry>, before: Captures, gone: set<ProcessIdentity>)
    requires RetriesListed(retries, before, gone)
    ensures OldSlots(retries) == SlotsHeldBy(before, gone)
  {
    forall id | id in gone ensures before[id].mixerSourceId in OldSlots(retries) {
      assert RetryOf(id, before[id]) in retries;
    }
  }

  /** Refreshing one more planned identity. */
  lemma KeptNext(before: Captures, planned: set<ProcessIdentity>, input: PassInput, id: ProcessIdentity)
    ensures var kept, next := Kept(before, planned, input), planned + {id};
            var retry := id in kept && NeedsRetry(kept[id], input.isRunning(id), input.now);
            && Retries(before, next, input) == Retries(before, planned, input) + (if retry then {id} else {})
            && Kept(before, next, input) ==
               if id !in kept then kept
               else if retry then kept - {id}
               else kept[id := kept[id].(lastSeenAt := input.now)]
  {
  }

  lemma KeptRecord(before: Captures, planned: set<ProcessIdentity>, input: PassInput, id: ProcessIdentity)
    requires id in Kept(before, planned, input)
    ensures id in before && RetryOf(id, Kept(before, planned, input)[id]) == RetryOf(id, before[id])
  {
  }

  lemma OldSlotsNext(retries: seq<RetryEntry>, i: nat)
    requires i < |retries|
    ensures OldSlots(retries[..i + 1]) == OldSlots(retries[..i]) + {retries[i].oldMixerSourceId}
  {
    assert retries[..i + 1] == retries[..i] + [retries[i]];
  }

  lemma HeldByMore(captures: Captures, gone: set<ProcessIdentity>, id: ProcessIdentity)
    requires id in captures
    ensures SlotsHeldBy(captures, gone + {id}) == SlotsHeldBy(captures, gone) + {captures[id].mixerSourceId}
  {
  }

  /** What a pass learns, when `sessions` is the inventory it plans from. */
  ghost function InputFor(ctx: PlannerContext, sessions: seq<AudioSession>, now: int,
                          isRunning: ProcessIdentity -> bool, starts: ProcessIdentity -> StartReport): PassInput {
    PlanIsRankedAndDistinct(ctx, sessions);
    PassInput(now, DesiredSources(ctx, sessions), isRunning, starts)
  }

  datatype StartOutcome = Started | AlreadyRunning | NoOutputCallback | MixerStartFailed | ThreadCreationFailed

  /** What the controller thread reports to the caller that waits for it. */
  datatype StartupOutcome = Ready(initialActiveSources: nat) | MonitorInitFailed | FirstReconcileFailed

  class FilteredMonitorController {
    var activeCaptures: Captures
    var mixer: Mixer.MultiSourceMixer?
    var running: bool
    var graceMs: int

    ghost predicate Valid()
      reads this, mixer, if mixer != null then mixer.sources else []
    {
      && (running <==> mixer != null)
      && (mixer == null ==> activeCaptures == map[])
      && (mixer != null ==> mixer.Valid())
      && (mixer != null ==> SoundUntilWrap(State()))
    }

    ghost function State(): Table
      requires mixer != null
      reads this, mixer
    {
      Table(activeCaptures, mixer.Table())
    }

    constructor ()
      ensures Valid() && !running && activeCaptures == map[]
    {
      activeCaptures, mixer, running, graceMs := map[], null, false, 0;
    }

    method Start(graceMs: int, hasCallback: bool, mixerStarts: bool, threadStarts: bool) returns (outcome: StartOutcome)
      requires Valid()
      modifies this
      ensures Valid()
      ensures outcome == if old(running) then AlreadyRunning
                         else if !hasCallback then NoOutputCallback
                         else if !mixerStarts then MixerStartFailed
                         else if !threadStarts then ThreadCreationFailed else Started
      ensures outcome.AlreadyRunning? ==> unchanged(this)
      ensures !outcome.AlreadyRunning? ==> running == outcome.Started?
      ensures outcome.Started? ==> fresh(mixer) && State() == EMPTY_TABLE && this.graceMs == graceMs
    {
      if running {
        return AlreadyRunning;
      }
      if !hasCallback {
        return NoOutputCallback;
      }
      running := true;
      this.graceMs := graceMs;
      mixer := new Mixer.MultiSourceMixer(2);
      if !mixerStarts || !threadStarts {
        running, mixer := false, null;
        return if mixerStarts then ThreadCreationFailed else MixerStartFailed;
      }
      outcome := Started;
      EmptyTableAgrees();
    }

    /** How the controller thread begins: with a first pass, if the monitor is
        ready. A failure is only reported; the controller goes on running. */
    method Startup(monitorReady: bool, sessions: Option<seq<AudioSession>>, ctx: PlannerContext, now: int,
                   isRunning: ProcessIdentity -> bool, starts: ProcessIdentity -> StartReport)
      returns (outcome: StartupOutcome)
      requires Valid() && running
      modifies this`activeCaptures, mixer, if mixer != null then mixer.Sources() else {}
      ensures Valid() && mixer == old(mixer)
      ensures outcome == if !monitorReady then MonitorInitFailed
                         else if sessions.None? then FirstReconcileFailed else Ready(|activeCaptures|)
      ensures !outcome.Ready? ==> State() == old(State())
      ensures outcome.Ready? && mixer.issued < UINT32_SIZE ==>
                State() == Pass(graceMs, old(State()), InputFor(ctx, sessions.value, now, isRunning, starts))
    {
      if !monitorReady {
        return MonitorInitFailed;
      }
      var ok := ReconcileOnce(monitorReady, sessions, ctx, now, isRunning, starts);
      outcome := if ok then Ready(|activeCaptures|) else FirstReconcileFailed;
    }

    /** Clears the table of captures; the mixer's slots stay taken. */
    method StopAllSources()
      modifies this`activeCaptures
      ensures activeCaptures == map[]
    {
      activeCaptures := map[];
    }

    method Stop()
      requires Valid()
      modifies this`activeCaptures, this`mixer, this`running
      ensures Valid() && !running && mixer == null && activeCaptures == map[]
    {
      StopAllSources();
      running, mixer := false, null;
    }

    /** One reconciliation pass. It keeps everything when the monitor or the
        inventory is missing; otherwise both tables move as `Pass` says. */
    method ReconcileOnce(monitorReady: bool, sessions: Option<seq<AudioSession>>, ctx: PlannerContext, now: int,
                         isRunning: ProcessIdentity -> bool, starts: ProcessIdentity -> StartReport)
      returns (ok: bool)
      requires Valid()
      modifies this`activeCaptures, mixer, if mixer != null then mixer.Sources() else {}
      ensures Valid() && mixer == old(mixer)
      ensures ok <==> monitorReady && mixer != null && sessions.Some?
      ensures !ok && mixer != null ==> State() == old(State())
      ensures ok && mixer.issued < UINT32_SIZE ==>
                State() == Pass(graceMs, old(State()), InputFor(ctx, sessions.value, now, isRunning, starts))
    {
      if !monitorReady || mixer == null || sessions.None? {
        return false;
      }
      var plan := Plan(ctx, sessions.value);
      ghost var input := InputFor(ctx, sessions.value, now, isRunning, starts);
      MoveTowardsPlan(input, plan.desiredSources, now, isRunning, starts);
      ok := true;
    }

    /** The three phases of a pass. */
    method MoveTowardsPlan(ghost input: PassInput, desired: seq<Candidate>, now: int,
                           isRunning: ProcessIdentity -> bool, starts: ProcessIdentity -> StartReport)
      requires mixer != null && mixer.Valid()
      requires input.desired == desired && input.now == now && input.isRunning == isRunning && input.starts == starts
      modifies this`activeCaptures, mixer, mixer.Sources()
      ensures mixer.Valid() && Moved(graceMs, old(State()), input, State())
    {
      ghost var before := State();
      ghost var planned := Planned(input);
      var retries, newCandidates := PrepareStarts(desired, now, isRunning, input);
      ghost var cleaned := State();
      StartNew(newCandidates, retries, starts, before.captures, planned, input);
      ghost var started := State();
      ExpireAbsent(set c | c in desired :: c.identity, now);
      AgreesAfterPass(graceMs, before, input, cleaned, started, State());
    }

    method PrepareStarts(desired: seq<Candidate>, now: int, isRunning: ProcessIdentity -> bool, ghost input: PassInput)
      returns (retries: seq<RetryEntry>, cs: seq<Candidate>)
      requires mixer != null && mixer.Valid()
      requires input.desired == desired && input.now == now && input.isRunning == isRunning
      modifies this`activeCaptures, mixer, mixer.Sources()
      ensures mixer.Valid() && mixer.Sources() <= old(mixer.Sources())
      ensures cs == Starting(old(State()), input)
      ensures RetriesListed(retries, old(activeCaptures), Retries(old(activeCaptures), Planned(input), input))
      ensures activeCaptures == Kept(old(activeCaptures), Planned(input), input)
      ensures mixer.issued == old(mixer.issued)
      ensures Distinct(old(mixer.Table()).ids) ==> State() == Cleaned(old(State()), Planned(input), input)
      ensures DistinctIdentities(cs) && forall c :: c in cs ==> c.identity !in activeCaptures
    {
      ghost var before := activeCaptures;
      retries := RefreshAndCollectRetries(desired, now, isRunning, input);
      cs := CollectNew(desired);
      StopRetries(retries, before, Retries(before, Planned(input), input));
      NewCandidatesFacts(activeCaptures, desired);
    }

    method RefreshAndCollectRetries(desired: seq<Candidate>, now: int, isRunning: ProcessIdentity -> bool,
                                    ghost input: PassInput)
      returns (retries: seq<RetryEntry>)
      requires now == input.now && isRunning == input.isRunning
      modifies this`activeCaptures
      ensures activeCaptures == Kept(old(activeCaptures), Identities(desired), input)
      ensures RetriesListed(retries, old(activeCaptures), Retries(old(activeCaptures), Identities(desired), input))
    {
      retries := [];
      ghost var before := activeCaptures;
      for i := 0 to |desired|
        invariant activeCaptures == Kept(before, Identities(desired[..i]), input)
        invariant RetriesListed(retries, before, Retries(before, Identities(desired[..i]), input))
      {
        var id := desired[i].identity;
        IdentitiesPush(desired, i);
        KeptNext(before, Identities(desired[..i]), input, id);
        if id in activeCaptures {
          KeptRecord(before, Identities(desired[..i]), input, id);
          RetriesListedMore(retries, before, Retries(before, Identities(desired[..i]), input), id);
          var e := activeCaptures[id];
          if now >= e.nextRetryAt && (e.source.NoCapture? || !isRunning(id)) {
            retries := retries + [RetryOf(id, e)];
            activeCaptures := activeCaptures - {id};
          } else {
            activeCaptures := activeCaptures[id := e.(lastSeenAt := now)];
          }
        }
      }
      assert desired[..|desired|] == desired;
    }

    method CollectNew(desired: seq<Candidate>) returns (cs: seq<Candidate>)
      ensures cs == NewCandidates(activeCaptures, desired)
    {
      cs := [];
      for i := 0 to |desired|
        invariant cs == NewCandidates(activeCaptures, desired[..i])
      {
        assert desired[..i + 1][..i] == desired[..i];
        if desired[i].identity !in activeCaptures {
          cs := cs + [desired[i]];
        }
      }
      assert desired[..|desired|] == desired;
    }

    method StopRetries(retries: seq<RetryEntry>, ghost before: Captures, ghost gone: set<ProcessIdentity>)
      requires mixer != null && mixer.Valid() && RetriesListed(retries, before, gone)
      modifies mixer, mixer.Sources()
      ensures mixer.Valid()
      ensures mixer.issued == old(mixer.issued)
      ensures mixer.Sources() <= old(mixer.Sources())
      ensures Distinct(old(mixer.Table()).ids) ==>
                mixer.Table() == Release(old(mixer.Table()), SlotsHeldBy(before, gone) - {0})
    {
      ghost var slots := mixer.Table();
      WithoutNothing(slots.ids);
      assert OldSlots(retries[..0]) - {0} == {};
      for i := 0 to |retries|
        invariant mixer == old(mixer) && mixer.Valid() && mixer.issued == slots.issued
        invariant mixer.Sources() <= old(mixer.Sources())
        invariant Distinct(slots.ids) ==> mixer.Table() == Release(slots, OldSlots(retries[..i]) - {0})
      {
        OldSlotsNext(retries, i);
        var id := retries[i].oldMixerSourceId;
        ghost var done := OldSlots(retries[..i]) - {0};
        if id != 0 {
          if Distinct(slots.ids) {
            RemoveOneMore(slots.ids, done, id);
          }
          mixer.RemoveSource(id);
          assert OldSlots(retries[..i + 1]) - {0} == done + {id};
        } else {
          assert OldSlots(retries[..i + 1]) - {0} == done;
        }
      }
      assert retries[..|retries|] == retries;
      OldSlotsAreHeld(retries, before, gone);
    }

    method PriorOf(retries: seq<RetryEntry>, id: ProcessIdentity, ghost before: Captures,
                   ghost planned: set<ProcessIdentity>, ghost input: PassInput)
      returns (prior: Option<nat>)
      requires RetriesListed(retries, before, Retries(before, planned, input))
      ensures prior == PriorFailures(before, planned, input, id)
    {
      for i := 0 to |retries|
        invariant forall re :: re in retries[..i] ==> re.identity != id
      {
        if retries[i].identity == id {
          assert retries[i] in retries;
          return Some(retries[i].previousFailures);
        }
        assert retries[..i + 1] == retries[..i] + [retries[i]];
      }
      assert retries[..|retries|] == retries;
      prior := None;
      assert id in Retries(before, planned, input) ==> RetryOf(id, before[id]) in retries;
    }

    method StartNew(cs: seq<Candidate>, retries: seq<RetryEntry>, starts: ProcessIdentity -> StartReport,
                    ghost before: Captures, ghost planned: set<ProcessIdentity>, ghost input: PassInput)
      requires mixer != null && mixer.Valid() && starts == input.starts
      requires RetriesListed(retries, before, Retries(before, planned, input))
      requires DistinctIdentities(cs) && forall c :: c in cs ==> c.identity !in activeCaptures
      modifies this`activeCaptures, mixer, mixer.Sources()
      ensures mixer.Valid()
      ensures fresh(mixer.Sources() - old(mixer.Sources()))
      ensures State() == AddAll(old(State()), cs, before, planned, input)
    {
      ghost var t := State();
      for i := 0 to |cs|
        invariant mixer == old(mixer) && mixer.Valid() && State() == AddAll(t, cs[..i], before, planned, input)
        invariant fresh(mixer.Sources() - old(mixer.Sources()))
        invariant forall j :: i <= j < |cs| ==> cs[j].identity !in activeCaptures
      {
        var c := cs[i];
        var prior := PriorOf(retries, c.identity, before, planned, input);
        StartOne(c, starts(c.identity), prior);
        assert cs[..i + 1][..i] == cs[..i];
        assert forall j :: i < j < |cs| ==> cs[j].identity != c.identity;
      }
      assert cs[..|cs|] == cs;
    }

    /** Starts one capture; a repeated failure keeps the growing backoff. */
    method StartOne(c: Candidate, report: StartReport, prior: Option<nat>)
      requires mixer != null && mixer.Valid() && c.identity !in activeCaptures
      modifies this`activeCaptures, mixer, mixer.Sources()
      ensures mixer.Valid()
      ensures fresh(mixer.Sources() - old(mixer.Sources()))
      ensures State() == AddOne(old(State()), c, report, prior)
    {
      var added := AddSource(c, report);
      if prior.Some? && !added && c.identity in activeCaptures {
        var failures := prior.value + 1;
        activeCaptures := activeCaptures[c.identity := activeCaptures[c.identity].(
          failures := failures, nextRetryAt := report.failedAt + Backoff(failures))];
      }
    }

    method AddSource(c: Candidate, report: StartReport) returns (added: bool)
      requires mixer != null && mixer.Valid()
      modifies this`activeCaptures, mixer, mixer.Sources()
      ensures mixer.Valid()
      ensures fresh(mixer.Sources() - old(mixer.Sources()))
      ensures State() == AddOne(old(State()), c, report, None)
      ensures added <==> report.ok && AddSlot(old(mixer.Table())).1 != 0
    {
      var id := mixer.AddSource(c.identity.pid, c.identity.creationTime);
      if id == 0 {
        return false;
      }
      if report.ok {
        activeCaptures := activeCaptures[c.identity := StartedEntry(c, id, report)];
      } else {
        mixer.RemoveSource(id);
        activeCaptures := activeCaptures[c.identity := FailedEntry(c, report, None)];
      }
      added := report.ok;
    }

    /** Drops every unplanned entry whose grace period is over. The scan visits
        the table in no particular order and restarts after each removal. */
    method ExpireAbsent(planned: set<ProcessIdentity>, now: int)
      requires mixer != null && mixer.Valid()
      modifies this`activeCaptures, mixer, mixer.Sources()
      ensures mixer.Valid() && mixer.issued == old(mixer.issued)
      ensures Distinct(old(mixer.Table()).ids) ==>
                State() == Drop(old(State()), Overdue(old(activeCaptures), planned, now, graceMs))
    {
      ghost var before := State();
      ghost var gone: set<ProcessIdentity> := {};
      DroppedNothing(before);
      var unvisited := activeCaptures.Keys;
      while unvisited != {}
        invariant mixer == old(mixer) && mixer.Valid() && mixer.Sources() <= old(mixer.Sources())
        invariant Dropped(State(), before, gone) && gone <= Overdue(before.captures, planned, now, graceMs)
        invariant unvisited <= activeCaptures.Keys
        invariant Overdue(activeCaptures, planned, now, graceMs) <= unvisited
        decreases |activeCaptures|, |unvisited|
      {
        var id :| id in unvisited;
        if id !in planned && IsExpired(activeCaptures[id], now, graceMs) {
          DroppedMore(State(), before, gone, id, planned, now, graceMs);
          SmallerMap(activeCaptures, id);
          Evict(id);
          gone := gone + {id};
          unvisited := activeCaptures.Keys;
        } else {
          unvisited := unvisited - {id};
        }
      }
      DroppedAll(State(), before, gone, planned, now, graceMs);
    }

    method Evict(id: ProcessIdentity)
      requires mixer != null && mixer.Valid() && id in activeCaptures
      modifies this`activeCaptures, mixer, mixer.Sources()
      ensures mixer.Valid() && mixer.Sources() <= old(mixer.Sources())
      ensures State() == Evicted(old(State()), id)
    {
      var slot := activeCaptures[id].mixerSourceId;
      activeCaptures := activeCaptures - {id};
      mixer.RemoveSource(slot);
    }
  }

  ghost function Evicted(t: Table, id: ProcessIdentity): Table
    requires id in t.captures
  {
    Table(t.captures - {id}, RemoveSlot(t.slots, t.captures[id].mixerSourceId))
  }

  /** `t` is `before` without the entries `gone` and their slots. */
  ghost predicate Dropped(t: Table, before: Table, gone: set<ProcessIdentity>) {
    && t.captures == before.captures - gone
    && t.slots.issued == before.slots.issued
    && (Distinct(before.slots.ids) ==> t.slots == Release(before.slots, SlotsHeldBy(before.captures, gone)))
  }

  lemma DroppedNothing(t: Table)
    ensures Dropped(t, t, {})
  {
    WithoutNothing(t.slots.ids);
    assert SlotsHeldBy(t.captures, {}) == {};
  }

  lemma DroppedMore(t: Table, before: Table, gone: set<ProcessIdentity>, id: ProcessIdentity,
                    planned: set<ProcessIdentity>, now: int, graceMs: int)
    requires Dropped(t, before, gone) && id in t.captures
    ensures Dropped(Evicted(t, id), before, gone + {id})
    ensures id in Overdue(t.captures, planned, now, graceMs) ==> id in Overdue(before.captures, planned, now, graceMs)
  {
    HeldByMore(before.captures, gone, id);
    if Distinct(before.slots.ids) {
      RemoveOneMore(before.slots.ids, SlotsHeldBy(before.captures, gone), before.captures[id].mixerSourceId);
    }
    assert before.captures - (gone + {id}) == (before.captures - gone) - {id};
  }

  lemma DroppedAll(t: Table, before: Table, gone: set<ProcessIdentity>,
                   planned: set<ProcessIdentity>, now: int, graceMs: int)
    requires Dropped(t, before, gone) && gone <= Overdue(before.captures, planned, now, graceMs)
    requires Overdue(t.captures, planned, now, graceMs) == {}
    ensures Distinct(before.slots.ids) ==> t == Drop(before, Overdue(before.captures, planned, now, graceMs))
  {
    forall id | id in Overdue(before.captures, planned, now, graceMs) ensures id in gone {
      assert id !in Overdue(t.captures, planned, now, graceMs);
    }
    assert gone == Overdue(before.captures, planned, now, graceMs);
  }

  ghost predicate SoundUntilWrap(t: Table) {
    t.slots.issued < UINT32_SIZE ==> Agreement(t) && Issued(t.slots)
  }

  /** A sound table moved by one pass, to a sound table. */
  ghost predicate Moved(graceMs: int, before: Table, input: PassInput, after: Table) {
    SoundUntilWrap(before) ==>
      SoundUntilWrap(after) && (after.slots.issued < UINT32_SIZE ==> after == Pass(graceMs, before, input))
  }

  lemma SmallerMap(captures: Captures, id: ProcessIdentity)
    requires id in captures
    ensures |captures - {id}| < |captures|
  {
    assert (captures - {id}).Keys == captures.Keys - {id};
    assert |(captures - {id}).Keys| == |captures - {id}|;
  }

  /** The three phases compose to a pass, and the pass keeps the agreement. */
  lemma AgreesAfterPass(graceMs: int, before: Table, input: PassInput, cleaned: Table, started: Table, after: Table)
    requires cleaned.captures == Kept(before.captures, Planned(input), input)
    requires cleaned.slots.issued == before.slots.issued
    requires Distinct(before.slots.ids) ==> cleaned == Cleaned(before, Planned(input), input)
    requires started == AddAll(cleaned, Starting(before, input), before.captures, Planned(input), input)
    requires Distinct(started.slots.ids) ==>
               after == Drop(started, Overdue(started.captures, Planned(input), input.now, graceMs))
    requires after.slots.issued == started.slots.issued
    ensures Moved(graceMs, before, input, after)
  {
    IssuedGrows(cleaned, Starting(before, input), before.captures, Planned(input), input);
    if after.slots.issued < UINT32_SIZE && SoundUntilWrap(before) {
      AfterStartsAgrees(before, input);
      PassKeepsAgreement(graceMs, before, input);
    }
  }
}
