/** When a planned entry and its failure count get lost: its retry is due, and
    its turn finds every mixer slot taken. */
module LostEntries {
  import opened Base
  import opened SlotTable
  import opened CandidateOrder
  import opened Reconciliation
  import opened ReconciliationRuns

  lemma StartingFacts(t: Table, input: PassInput)
    ensures DistinctIdentities(Starting(t, input))
    ensures forall c :: c in Starting(t, input) ==>
              c.identity in Planned(input) && c.identity !in Cleaned(t, Planned(input), input).captures
  {
    NewCandidatesFacts(Kept(t.captures, Planned(input), input), input.desired);
  }

  /** Only unplanned entries are dropped, and dropping issues no ids. */
  lemma PlannedSurvivesDrop(graceMs: int, t: Table, input: PassInput, id: ProcessIdentity)
    requires id in Planned(input)
    ensures id in Pass(graceMs, t, input).captures <==> id in AfterStarts(t, input).captures
    ensures Pass(graceMs, t, input).slots.issued == AfterStarts(t, input).slots.issued
  {
  }

  /** A candidate gets an entry, whatever becomes of its start, iff there is room. */
  lemma EntryIffRoom(t: Table, c: Candidate, report: StartReport, prior: Option<nat>, id: ProcessIdentity)
    requires AddOne(t, c, report, prior).slots.issued < UINT32_SIZE && c.identity !in t.captures
    ensures t.slots.issued < UINT32_SIZE
    ensures id in AddOne(t, c, report, prior).captures <==>
            id in t.captures || (id == c.identity && !IsFull(t.slots))
  {
  }

  lemma NotYetAdded(t: Table, cs: seq<Candidate>, before: Captures, planned: set<ProcessIdentity>, input: PassInput,
                    n: nat)
    requires n < |cs| && DistinctIdentities(cs)
    requires forall c :: c in cs ==> c.identity !in t.captures
    ensures cs[n].identity !in AddAll(t, cs[..n], before, planned, input).captures
  {
    assert cs[n] in cs && cs[n].identity !in Identities(cs[..n]);
    assert forall c :: c in cs[..n] ==> c in cs;
    AddAllFrame(t, cs[..n], before, planned, input);
  }

  /** Turn number `n`, counted from 0, and what it does to the entry of `id`. */
  lemma OneTurn(t: Table, cs: seq<Candidate>, before: Captures, planned: set<ProcessIdentity>, input: PassInput,
                n: nat, id: ProcessIdentity)
    requires n < |cs| && DistinctIdentities(cs)
    requires forall c :: c in cs ==> c.identity !in t.captures
    requires AddAll(t, cs[..n + 1], before, planned, input).slots.issued < UINT32_SIZE
    ensures var front := AddAll(t, cs[..n], before, planned, input);
            && front.slots.issued < UINT32_SIZE && cs[n].identity !in front.captures
            && (id in AddAll(t, cs[..n + 1], before, planned, input).captures <==>
                id in front.captures || (id == cs[n].identity && !IsFull(front.slots)))
  {
    var c := cs[n];
    assert cs[..n + 1][..n] == cs[..n];
    NotYetAdded(t, cs, before, planned, input, n);
    EntryIffRoom(AddAll(t, cs[..n], before, planned, input), c, input.starts(c.identity),
                 PriorFailures(before, planned, input, c.identity), id);
  }

  /** What turn `n` does to the entry of `id`. */
  ghost predicate TurnAt(ts: seq<Table>, cs: seq<Candidate>, n: nat, id: ProcessIdentity)
    requires n < |cs| && |ts| == |cs| + 1
  {
    && cs[n].identity !in ts[n].captures
    && (id in ts[n + 1].captures <==> id in ts[n].captures || (id == cs[n].identity && !IsFull(ts[n].slots)))
  }

  /** Later turns leave the entry of candidate `k` alone. */
  lemma {:induction false} TurnDecides(ts: seq<Table>, cs: seq<Candidate>, k: nat, m: nat)
    requires k < m <= |cs| && |ts| == |cs| + 1 && DistinctIdentities(cs)
    requires forall n :: 0 <= n < |cs| ==> TurnAt(ts, cs, n, cs[k].identity)
    ensures cs[k].identity in ts[m].captures <==> !IsFull(ts[k].slots)
    decreases m
  {
    assert TurnAt(ts, cs, m - 1, cs[k].identity);
    if k < m - 1 {
      TurnDecides(ts, cs, k, m - 1);
    }
  }

  lemma AddAllTurn(t: Table, cs: seq<Candidate>, before: Captures, planned: set<ProcessIdentity>, input: PassInput,
                   k: nat)
    requires DistinctIdentities(cs) && k < |cs|
    requires forall c :: c in cs ==> c.identity !in t.captures
    requires AddAll(t, cs, before, planned, input).slots.issued < UINT32_SIZE
    ensures cs[k].identity !in AddAll(t, cs, before, planned, input).captures <==>
            IsFull(AddAll(t, cs[..k], before, planned, input).slots)
  {
    var ts := TablesByTurn(t, cs, before, planned, input);
    forall n | 0 <= n < |cs| ensures TurnAt(ts, cs, n, cs[k].identity) {
      TurnByTurn(t, cs, before, planned, input, n, cs[k].identity);
    }
    TurnDecides(ts, cs, k, |cs|);
    assert cs[..|cs|] == cs;
  }

  /** The tables before the first turn and after each turn. */
  ghost function TablesByTurn(t: Table, cs: seq<Candidate>, before: Captures, planned: set<ProcessIdentity>,
                              input: PassInput): (ts: seq<Table>)
    ensures |ts| == |cs| + 1
    ensures forall n :: 0 <= n <= |cs| ==> ts[n] == AddAll(t, cs[..n], before, planned, input)
  {
    seq(|cs| + 1, n requires 0 <= n <= |cs| => AddAll(t, cs[..n], before, planned, input))
  }

  lemma TurnByTurn(t: Table, cs: seq<Candidate>, before: Captures, planned: set<ProcessIdentity>, input: PassInput,
                   n: nat, id: ProcessIdentity)
    requires DistinctIdentities(cs) && n < |cs|
    requires forall c :: c in cs ==> c.identity !in t.captures
    requires AddAll(t, cs, before, planned, input).slots.issued < UINT32_SIZE
    ensures TurnAt(TablesByTurn(t, cs, before, planned, input), cs, n, id)
  {
    IssuedSoFar(t, cs, before, planned, input, n + 1);
    OneTurn(t, cs, before, planned, input, n, id);
  }

  // ---- Slots taken before a turn ----

  /** How many of the candidates start successfully. */
  function Succeeding(cs: seq<Candidate>, input: PassInput): nat {
    if cs == [] then 0
    else Succeeding(cs[..|cs| - 1], input) + if input.starts(cs[|cs| - 1].identity).ok then 1 else 0
  }

  /** Each success takes one slot while there is one; failures give theirs back. */
  lemma {:induction false} SlotsAfterTurns(t: Table, cs: seq<Candidate>, before: Captures,
                                           planned: set<ProcessIdentity>, input: PassInput)
    requires Agreement(t) && Issued(t.slots) && DistinctIdentities(cs)
    requires forall c :: c in cs ==> c.identity !in t.captures
    requires AddAll(t, cs, before, planned, input).slots.issued < UINT32_SIZE
    ensures var wanted := |t.slots.ids| + Succeeding(cs, input);
            |AddAll(t, cs, before, planned, input).slots.ids| == if wanted < MAX_SOURCES then wanted else MAX_SOURCES
  {
    if cs != [] {
      AddAllNext(t, cs, before, planned, input);
      assert forall c :: c in cs[..|cs| - 1] ==> c in cs;
      SlotsAfterTurns(t, cs[..|cs| - 1], before, planned, input);
    }
  }

  lemma SlotsBeforeTurn(t: Table, input: PassInput, k: nat)
    requires Agreement(t) && Issued(t.slots) && AfterStarts(t, input).slots.issued < UINT32_SIZE
    requires k <= |Starting(t, input)|
    ensures var planned := Planned(input);
            IsFull(AddAll(Cleaned(t, planned, input), Starting(t, input)[..k], t.captures, planned, input).slots) <==>
            |Live(Kept(t.captures, planned, input))| + Succeeding(Starting(t, input)[..k], input) >= MAX_SOURCES
  {
    var planned := Planned(input);
    var cs, cleaned := Starting(t, input), Cleaned(t, planned, input);
    StartingFacts(t, input);
    CleanedAgrees(t, planned, input);
    LiveCapturesMatchSlots(cleaned);
    assert forall c :: c in cs[..k] ==> c in cs;
    IssuedSoFar(cleaned, cs, t.captures, planned, input, k);
    SlotsAfterTurns(cleaned, cs[..k], t.captures, planned, input);
  }

  lemma {:induction false} IssuedSoFar(t: Table, cs: seq<Candidate>, before: Captures, planned: set<ProcessIdentity>,
                                       input: PassInput, k: nat)
    requires k <= |cs|
    ensures AddAll(t, cs[..k], before, planned, input).slots.issued <=
            AddAll(t, cs, before, planned, input).slots.issued
  {
    if k == |cs| {
      assert cs[..k] == cs;
    } else {
      IssuedSoFar(t, cs[..|cs| - 1], before, planned, input, k);
      assert cs[..|cs| - 1][..k] == cs[..k];
    }
  }

  /** The entry of the candidate whose turn is number `k` is lost if and only if
      the captures that stay alive and the earlier candidates that start
      successfully take all 32 slots. */
  lemma PlannedEntryLostIff(graceMs: int, t: Table, input: PassInput, k: nat)
    requires Agreement(t) && Issued(t.slots) && Pass(graceMs, t, input).slots.issued < UINT32_SIZE
    requires k < |Starting(t, input)|
    ensures Starting(t, input)[k].identity !in Pass(graceMs, t, input).captures <==>
            |Live(Kept(t.captures, Planned(input), input))| + Succeeding(Starting(t, input)[..k], input) >= MAX_SOURCES
  {
    StartingFacts(t, input);
    var cs := Starting(t, input);
    assert cs[k] in cs;
    PlannedSurvivesDrop(graceMs, t, input, cs[k].identity);
    AddAllTurn(Cleaned(t, Planned(input), input), cs, t.captures, Planned(input), input, k);
    SlotsBeforeTurn(t, input, k);
  }

  // ---- It does happen ----

  function Pid(i: uint32): ProcessIdentity {
    ProcessIdentity(i, 1)
  }

  function CandidateOf(id: ProcessIdentity): Candidate {
    Candidate(id, id.pid, "app.exe", "", "app.exe", "", true)
  }

  function FirstIds(n: uint32): (ids: seq<uint32>)
    ensures |ids| == n && forall i :: 0 <= i < n ==> ids[i] == i + 1
  {
    if n == 0 then [] else FirstIds(n - 1) + [n]
  }

  function CrowdedEntry(id: ProcessIdentity, failures: nat): ActiveCapture {
    if id.pid == 33 then ActiveCapture(CandidateOf(id), 0, NoCapture, 0, 0, failures)
    else ActiveCapture(CandidateOf(id), id.pid, Capture(id.pid), 0, 0, 0)
  }

  ghost function CrowdedIds(): set<ProcessIdentity> {
    set i: uint32 | 1 <= i <= 33 :: Pid(i)
  }

  /** 32 live captures, and a process whose start has failed `failures` times. */
  ghost function CrowdedTable(failures: nat): Table {
    Table(map id | id in CrowdedIds() :: CrowdedEntry(id, failures), Slots(FirstIds(MAX_SOURCES), MAX_SOURCES))
  }

  lemma CrowdedTableAgrees(failures: nat)
    requires failures >= 1
    ensures Agreement(CrowdedTable(failures)) && Issued(CrowdedTable(failures).slots)
  {
    var t := CrowdedTable(failures);
    forall x ensures x in Elements(FirstIds(MAX_SOURCES)) <==> 1 <= x <= MAX_SOURCES {
      if 1 <= x <= MAX_SOURCES {
        assert FirstIds(MAX_SOURCES)[x - 1] == x;
      }
    }
    forall x: uint32 | 1 <= x <= MAX_SOURCES ensures x in SlotsHeldBy(t.captures, Live(t.captures)) {
      assert Pid(x) in Live(t.captures) && t.captures[Pid(x)].mixerSourceId == x;
    }
  }

  function CrowdedInput(): PassInput {
    PassInput(0, [CandidateOf(Pid(33))], _ => true, _ => StartReport(0, true, 0))
  }

  /** A planned entry with any number of failures is lost when its retry comes
      while 32 captures run, although its start would succeed. */
  lemma CrowdedRetryIsLost(graceMs: int, failures: nat)
    requires failures >= 1
    ensures var t, id := CrowdedTable(failures), Pid(33);
            && Agreement(t) && Issued(t.slots) && id in Planned(CrowdedInput())
            && id in t.captures && t.captures[id].failures == failures
            && CrowdedInput().starts(id).ok && id !in Pass(graceMs, t, CrowdedInput()).captures
  {
    var t := CrowdedTable(failures);
    var input := CrowdedInput();
    CrowdedTableAgrees(failures);
    assert input.desired[0] in input.desired && Pid(33) in CrowdedIds();
    var kept := Kept(t.captures, Planned(input), input);
    assert Planned(input) == {Pid(33)};
    assert Retries(t.captures, Planned(input), input) == {Pid(33)};
    assert SlotsHeldBy(t.captures, {Pid(33)}) - {0} == {};
    WithoutNothing(t.slots.ids);
    CleanedAgrees(t, Planned(input), input);
    LiveCapturesMatchSlots(Cleaned(t, Planned(input), input));
    assert Pid(33) !in kept && input.desired[..0] == [] && NewCandidates(kept, []) == [];
    assert Starting(t, input) == [] + [input.desired[0]];
    assert Succeeding(Starting(t, input)[..0], input) == 0;
    PassIssuesAtMost32(graceMs, t, input);
    PlannedEntryLostIff(graceMs, t, input, 0);
  }
}
