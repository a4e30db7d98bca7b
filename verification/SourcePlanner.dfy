/** From the audio session list to at most 32 distinct process-tree captures. */
module SourcePlanner {
  import opened Base
  import opened Text
  import opened ExclusionPolicy
  import opened ProcessResolver
  import opened CandidateOrder

  const SESSION_STATE_ACTIVE: uint32 := 1

  datatype AudioSession = AudioSession(
    pid: uint32,
    creationTime: uint64,
    executablePath: string,
    executableName: string,
    systemSound: bool,
    identityValidated: bool,
    sessionState: uint32,
    rootPid: uint32,
    rootCreationTime: uint64,
    processAlive: bool)

  datatype MonitorOptions = MonitorOptions(
    excludeDiscord: bool,
    excludeScreenLink: bool,
    screenLinkPid: uint32,
    screenLinkIdentity: ScreenLinkIdentity)

  /** The options and the two OS services the planner consults. */
  datatype PlannerContext = PlannerContext(
    options: MonitorOptions,
    resolve: uint32 -> ProcessTreeResult,
    canon: Canonicalizer)

  datatype Verdict =
    | SystemSound
    | Expired
    | Invalid
    | DiscordExcluded
    | ScreenLinkExcluded
    | Eligible(candidate: Candidate)

  datatype SourcePlan = SourcePlan(
    desiredSources: seq<Candidate>,
    totalSessions: nat,
    activeSessions: nat,
    inactiveSessions: nat,
    invalidSessions: nat,
    expiredSessions: nat,
    systemSoundsSkipped: nat,
    discordExcluded: nat,
    screenLinkExcluded: nat,
    duplicateRoots: nat,
    sourceLimitSkipped: nat,
    identityLookupFailures: nat,
    inconsistentIdentitySessions: nat,
    validatedLiveSessions: nat)

  // ---- Classification of one session ----

  /** Discord's updater is recognised by its path. */
  predicate IsDiscordUpdater(name: string, path: string) {
    ToLower(name) == "update.exe" && IContains(path, "discord")
  }

  predicate IsDiscordSession(session: AudioSession) {
    IsDiscordProcess(session.executableName)
    || IsDiscordUpdater(session.executableName, session.executablePath)
  }

  predicate IsScreenLinkSession(ctx: PlannerContext, session: AudioSession) {
    var id := ctx.options.screenLinkIdentity;
    || (id.HasCurrentProcessIdentity()
        && (id.IsCurrentRoot(session.pid, session.creationTime)
            || (session.rootPid != 0 && id.IsCurrentRoot(session.rootPid, session.rootCreationTime))))
    || (session.executablePath != "" && IsScreenLinkApplication(ctx.canon, id, session.executablePath))
    || IsScreenLinkProcess(session.executableName, session.executablePath)
    || (!id.HasCurrentProcessIdentity() && !id.HasPackagedIdentity() && !id.HasDevelopmentIdentity()
        && ctx.options.screenLinkPid != 0
        && (session.pid == ctx.options.screenLinkPid
            || (session.rootPid != 0 && session.rootPid == ctx.options.screenLinkPid)))
  }

  predicate IsDiscordRoot(tree: ProcessTreeResult) {
    IsDiscordProcess(tree.rootName) || IsDiscordUpdater(tree.rootName, tree.rootPath)
  }

  predicate IsScreenLinkRoot(ctx: PlannerContext, tree: ProcessTreeResult) {
    || CheckExclusionV2(ctx.canon, ctx.options.screenLinkIdentity, tree.rootName, tree.rootPath).ScreenLink?
    || IsScreenLinkProcess(tree.rootName, tree.rootPath)
  }

  function CandidateFor(session: AudioSession, tree: ProcessTreeResult): Candidate {
    Candidate(
      ProcessIdentity(tree.rootPid, tree.rootCreationTime), session.pid,
      session.executableName, session.executablePath, tree.rootName, tree.rootPath,
      session.sessionState == SESSION_STATE_ACTIVE)
  }

  function Classify(ctx: PlannerContext, session: AudioSession): Verdict {
    if session.pid == 0 || session.systemSound then SystemSound
    else if !session.processAlive then Expired
    else if session.creationTime == 0 || !session.identityValidated then Invalid
    else
      var tree := ctx.resolve(session.pid);
      var candidate := CandidateFor(session, tree);
      if !tree.succeeded || !candidate.identity.IsValid() then Invalid
      else if ctx.options.excludeDiscord && (IsDiscordSession(session) || IsDiscordRoot(tree)) then
        DiscordExcluded
      else if ctx.options.excludeScreenLink
              && (IsScreenLinkSession(ctx, session) || IsScreenLinkRoot(ctx, tree)) then
        ScreenLinkExcluded
      else Eligible(candidate)
  }

  function CountVerdict(ctx: PlannerContext, sessions: seq<AudioSession>, verdict: Verdict): nat {
    if sessions == [] then 0
    else
      var n := |sessions| - 1;
      CountVerdict(ctx, sessions[..n], verdict) + if Classify(ctx, sessions[n]) == verdict then 1 else 0
  }

  /** Sessions of live processes whose state is active. */
  function CountActive(ctx: PlannerContext, sessions: seq<AudioSession>): nat {
    if sessions == [] then 0
    else
      var n := |sessions| - 1;
      var verdict := Classify(ctx, sessions[n]);
      CountActive(ctx, sessions[..n])
      + if !verdict.SystemSound? && !verdict.Expired? && sessions[n].sessionState == SESSION_STATE_ACTIVE
        then 1 else 0
  }

  function EligibleCandidates(ctx: PlannerContext, sessions: seq<AudioSession>): seq<Candidate> {
    if sessions == [] then []
    else
      var n := |sessions| - 1;
      var front := EligibleCandidates(ctx, sessions[..n]);
      match Classify(ctx, sessions[n])
      case Eligible(c) => front + [c]
      case _ => front
  }

  // ---- Identity and liveness of one session ----

  predicate HasConsistentProcessIdentity(session: AudioSession) {
    if session.identityValidated then session.processAlive && session.creationTime != 0
    else !session.processAlive && session.creationTime == 0
  }

  predicate IsApplicationSession(session: AudioSession) {
    session.pid != 0 && !session.systemSound
  }

  predicate IsLookupFailure(session: AudioSession) {
    IsApplicationSession(session)
    && !session.identityValidated && !session.processAlive && session.creationTime == 0
  }

  predicate IsInconsistent(session: AudioSession) {
    IsApplicationSession(session) && !HasConsistentProcessIdentity(session)
  }

  predicate IsValidatedLive(session: AudioSession) {
    IsApplicationSession(session)
    && session.processAlive && session.identityValidated && session.creationTime != 0
  }

  function CountSessions(sessions: seq<AudioSession>, p: AudioSession -> bool): nat {
    if sessions == [] then 0
    else CountSessions(sessions[..|sessions| - 1], p) + if p(sessions[|sessions| - 1]) then 1 else 0
  }

  /** Every session that is no system sound is live and validated, a failed
      lookup, or inconsistent, and only one of these. */
  lemma {:induction false} IdentitiesPartition(ctx: PlannerContext, sessions: seq<AudioSession>)
    ensures CountSessions(sessions, IsValidatedLive) + CountSessions(sessions, IsLookupFailure)
            + CountSessions(sessions, IsInconsistent) == |sessions| - CountVerdict(ctx, sessions, SystemSound)
  {
    if sessions != [] {
      IdentitiesPartition(ctx, sessions[..|sessions| - 1]);
    }
  }

  lemma {:induction false} EligibleComesFromSession(ctx: PlannerContext, sessions: seq<AudioSession>, c: Candidate)
    ensures c in EligibleCandidates(ctx, sessions) <==>
            exists s :: s in sessions && Classify(ctx, s) == Eligible(c)
  {
    if sessions != [] {
      var n := |sessions| - 1;
      EligibleComesFromSession(ctx, sessions[..n], c);
      assert sessions == sessions[..n] + [sessions[n]];
    }
  }

  /** Every session has exactly one fate. */
  lemma {:induction false} VerdictsPartition(ctx: PlannerContext, sessions: seq<AudioSession>)
    ensures |sessions| ==
            CountVerdict(ctx, sessions, SystemSound) + CountVerdict(ctx, sessions, Expired)
            + CountVerdict(ctx, sessions, Invalid) + CountVerdict(ctx, sessions, DiscordExcluded)
            + CountVerdict(ctx, sessions, ScreenLinkExcluded) + |EligibleCandidates(ctx, sessions)|
  {
    if sessions != [] {
      VerdictsPartition(ctx, sessions[..|sessions| - 1]);
    }
  }

  // ---- One representative per root ----

  function IndexOfIdentity(s: seq<Candidate>, id: ProcessIdentity): (r: Option<nat>)
    ensures r.Some? ==> r.value < |s| && s[r.value].identity == id
    ensures r.None? ==> forall c :: c in s ==> c.identity != id
  {
    if s == [] then None
    else
      var n := |s| - 1;
      if s[n].identity == id then Some(n) else IndexOfIdentity(s[..n], id)
  }

  function Merge(reps: seq<Candidate>, c: Candidate): seq<Candidate> {
    match IndexOfIdentity(reps, c.identity)
    case None => reps + [c]
    case Some(k) => if c.activeSession && !reps[k].activeSession then reps[k := c] else reps
  }

  function Representatives(entries: seq<Candidate>): seq<Candidate> {
    if entries == [] then []
    else Merge(Representatives(entries[..|entries| - 1]), entries[|entries| - 1])
  }

  function Truncate(s: seq<Candidate>): seq<Candidate> {
    if |s| > MAX_SOURCES then s[..MAX_SOURCES] else s
  }

  function DesiredSources(ctx: PlannerContext, sessions: seq<AudioSession>): seq<Candidate> {
    Truncate(SortByRank(Representatives(EligibleCandidates(ctx, sessions))))
  }

  ghost predicate ActiveIn(entries: seq<Candidate>, id: ProcessIdentity) {
    exists c :: c in entries && c.identity == id && c.activeSession
  }

  ghost predicate Represents(reps: seq<Candidate>, entries: seq<Candidate>) {
    && DistinctIdentities(reps)
    && (forall c :: c in reps ==> c in entries)
    && (forall c :: c in entries ==> c.identity in Identities(reps))
    && (forall c :: c in reps ==> (c.activeSession <==> ActiveIn(entries, c.identity)))
  }

  lemma ActiveInMore(entries: seq<Candidate>, c: Candidate)
    ensures forall id :: ActiveIn(entries + [c], id) <==>
                         ActiveIn(entries, id) || (c.identity == id && c.activeSession)
  {
    assert forall x :: x in entries + [c] <==> x in entries || x == c;
  }

  lemma ReplaceKeepsIdentities(s: seq<Candidate>, k: nat, c: Candidate)
    requires k < |s| && s[k].identity == c.identity
    ensures Identities(s[k := c]) == Identities(s)
  {
    var t := s[k := c];
    forall j | 0 <= j < |s| ensures s[j].identity in Identities(t) && t[j].identity in Identities(s) {
      assert t[j] in t && s[j] in s;
    }
  }

  lemma MergeRepresents(reps: seq<Candidate>, front: seq<Candidate>, c: Candidate, all: seq<Candidate>)
    requires Represents(reps, front) && all == front + [c]
    ensures Represents(Merge(reps, c), all)
  {
    ActiveInMore(front, c);
    match IndexOfIdentity(reps, c.identity)
    case None =>
      assert c.identity !in Identities(front);
      assert c in Merge(reps, c);
    case Some(k) =>
      assert reps[k] in reps;
      ReplaceKeepsIdentities(reps, k, c);
  }

  lemma {:induction false} RepresentativesRepresent(entries: seq<Candidate>)
    ensures Represents(Representatives(entries), entries)
  {
    if entries != [] {
      var n := |entries| - 1;
      var front := entries[..n];
      RepresentativesRepresent(front);
      assert entries == front + [entries[n]];
      MergeRepresents(Representatives(front), front, entries[n], entries);
      assert Representatives(entries) == Merge(Representatives(front), entries[n]);
    }
  }

  // ---- The planner ----

  /** The counters agree with the verdicts given so far. */
  ghost predicate Tallied(ctx: PlannerContext, sessions: seq<AudioSession>, plan: SourcePlan) {
    && plan.totalSessions == |sessions|
    && plan.systemSoundsSkipped == CountVerdict(ctx, sessions, SystemSound)
    && plan.expiredSessions == CountVerdict(ctx, sessions, Expired)
    && plan.invalidSessions == CountVerdict(ctx, sessions, Invalid)
    && plan.discordExcluded == CountVerdict(ctx, sessions, DiscordExcluded)
    && plan.screenLinkExcluded == CountVerdict(ctx, sessions, ScreenLinkExcluded)
    && plan.activeSessions == CountActive(ctx, sessions)
    && plan.activeSessions + plan.inactiveSessions ==
       |sessions| - plan.systemSoundsSkipped - plan.expiredSessions
  }

  ghost predicate IdentitiesTallied(sessions: seq<AudioSession>, plan: SourcePlan) {
    && plan.identityLookupFailures == CountSessions(sessions, IsLookupFailure)
    && plan.inconsistentIdentitySessions == CountSessions(sessions, IsInconsistent)
    && plan.validatedLiveSessions == CountSessions(sessions, IsValidatedLive)
  }

  function CountIdentity(plan: SourcePlan, session: AudioSession): SourcePlan {
    plan.(
      identityLookupFailures := plan.identityLookupFailures + if IsLookupFailure(session) then 1 else 0,
      inconsistentIdentitySessions := plan.inconsistentIdentitySessions + if IsInconsistent(session) then 1 else 0,
      validatedLiveSessions := plan.validatedLiveSessions + if IsValidatedLive(session) then 1 else 0)
  }

  lemma IdentityStep(seen: seq<AudioSession>, next: AudioSession, plan: SourcePlan)
    requires IdentitiesTallied(seen, plan)
    ensures IdentitiesTallied(seen + [next], CountIdentity(plan, next))
  {
    assert (seen + [next])[..|seen|] == seen;
  }

  lemma CountStep(ctx: PlannerContext, sessions: seq<AudioSession>, next: AudioSession, verdict: Verdict)
    ensures CountVerdict(ctx, sessions + [next], verdict) ==
            CountVerdict(ctx, sessions, verdict) + if Classify(ctx, next) == verdict then 1 else 0
  {
    assert (sessions + [next])[..|sessions|] == sessions;
  }

  lemma EligibleStep(ctx: PlannerContext, sessions: seq<AudioSession>, next: AudioSession)
    ensures EligibleCandidates(ctx, sessions + [next]) ==
            EligibleCandidates(ctx, sessions)
            + if Classify(ctx, next).Eligible? then [Classify(ctx, next).candidate] else []
  {
    assert (sessions + [next])[..|sessions|] == sessions;
  }

  function CountSession(plan: SourcePlan, active: bool, verdict: Verdict): SourcePlan {
    var p := plan.(totalSessions := plan.totalSessions + 1);
    var q := if verdict.SystemSound? || verdict.Expired? then p
             else if active then p.(activeSessions := p.activeSessions + 1)
             else p.(inactiveSessions := p.inactiveSessions + 1);
    match verdict
    case SystemSound => q.(systemSoundsSkipped := q.systemSoundsSkipped + 1)
    case Expired => q.(expiredSessions := q.expiredSessions + 1)
    case Invalid => q.(invalidSessions := q.invalidSessions + 1)
    case DiscordExcluded => q.(discordExcluded := q.discordExcluded + 1)
    case ScreenLinkExcluded => q.(screenLinkExcluded := q.screenLinkExcluded + 1)
    case Eligible(_) => q
  }

  lemma TallyStep(ctx: PlannerContext, seen: seq<AudioSession>, next: AudioSession, plan: SourcePlan)
    requires Tallied(ctx, seen, plan)
    ensures Tallied(ctx, seen + [next],
                    CountSession(plan, next.sessionState == SESSION_STATE_ACTIVE, Classify(ctx, next)))
  {
    assert (seen + [next])[..|seen|] == seen;
    CountStep(ctx, seen, next, SystemSound);
    CountStep(ctx, seen, next, Expired);
    CountStep(ctx, seen, next, Invalid);
    CountStep(ctx, seen, next, DiscordExcluded);
    CountStep(ctx, seen, next, ScreenLinkExcluded);
  }

  method TallySessions(ctx: PlannerContext, sessions: seq<AudioSession>)
    returns (plan: SourcePlan, entries: seq<Candidate>)
    ensures Tallied(ctx, sessions, plan)
    ensures IdentitiesTallied(sessions, plan)
    ensures plan.duplicateRoots == plan.sourceLimitSkipped == 0
    ensures entries == EligibleCandidates(ctx, sessions)
  {
    plan := SourcePlan([], 0, 0, 0, 0, 0, 0, 0, 0, 0, 0, 0, 0, 0);
    entries := [];
    for i := 0 to |sessions|
      invariant Tallied(ctx, sessions[..i], plan) && IdentitiesTallied(sessions[..i], plan)
      invariant plan.duplicateRoots == plan.sourceLimitSkipped == 0
      invariant entries == EligibleCandidates(ctx, sessions[..i])
    {
      var verdict := Classify(ctx, sessions[i]);
      assert sessions[..i + 1] == sessions[..i] + [sessions[i]];
      EligibleStep(ctx, sessions[..i], sessions[i]);
      IdentityStep(sessions[..i], sessions[i], plan);
      plan := CountIdentity(plan, sessions[i]);
      TallyStep(ctx, sessions[..i], sessions[i], plan);
      entries := if verdict.Eligible? then entries + [verdict.candidate] else entries;
      plan := CountSession(plan, sessions[i].sessionState == SESSION_STATE_ACTIVE, verdict);
    }
    assert sessions[..|sessions|] == sessions;
  }

  method Plan(ctx: PlannerContext, sessions: seq<AudioSession>) returns (plan: SourcePlan)
    ensures plan.desiredSources == DesiredSources(ctx, sessions)
    ensures plan.totalSessions == |sessions|
    ensures plan.systemSoundsSkipped == CountVerdict(ctx, sessions, SystemSound)
    ensures plan.expiredSessions == CountVerdict(ctx, sessions, Expired)
    ensures plan.invalidSessions == CountVerdict(ctx, sessions, Invalid)
    ensures plan.discordExcluded == CountVerdict(ctx, sessions, DiscordExcluded)
    ensures plan.screenLinkExcluded == CountVerdict(ctx, sessions, ScreenLinkExcluded)
    ensures plan.totalSessions ==
            plan.systemSoundsSkipped + plan.expiredSessions + plan.invalidSessions
            + plan.discordExcluded + plan.screenLinkExcluded + plan.duplicateRoots
            + plan.sourceLimitSkipped + |plan.desiredSources|
    ensures plan.activeSessions == CountActive(ctx, sessions)
    ensures plan.activeSessions + plan.inactiveSessions ==
            plan.totalSessions - plan.systemSoundsSkipped - plan.expiredSessions
    ensures plan.validatedLiveSessions == CountSessions(sessions, IsValidatedLive)
    ensures plan.identityLookupFailures == CountSessions(sessions, IsLookupFailure)
    ensures plan.inconsistentIdentitySessions == CountSessions(sessions, IsInconsistent)
    ensures plan.validatedLiveSessions + plan.identityLookupFailures + plan.inconsistentIdentitySessions ==
            plan.totalSessions - plan.systemSoundsSkipped
    ensures plan.sourceLimitSkipped > 0 ==> |plan.desiredSources| == MAX_SOURCES
    ensures plan.duplicateRoots + |Identities(EligibleCandidates(ctx, sessions))| ==
            |EligibleCandidates(ctx, sessions)|
  {
    var entries;
    plan, entries := TallySessions(ctx, sessions);

    var best, duplicates := IndexRoots(entries);
    var candidates := CollectCandidates(entries, best);
    ghost var reps := Representatives(entries);
    RepresentativesRepresent(entries);
    SortIgnoresOrder(candidates, reps);
    SortRanks(candidates);
    VerdictsPartition(ctx, sessions);
    IdentitiesPartition(ctx, sessions);
    IdentitiesOfRepresentatives(entries);

    var sorted := SortByRank(candidates);
    plan := plan.(duplicateRoots := duplicates);
    if |sorted| > MAX_SOURCES {
      plan := plan.(sourceLimitSkipped := |sorted| - MAX_SOURCES);
      sorted := sorted[..MAX_SOURCES];
    }
    plan := plan.(desiredSources := sorted);
  }

  /** The table maps each root to the entry that represents it. */
  ghost predicate Indexes(best: map<ProcessIdentity, nat>, entries: seq<Candidate>, reps: seq<Candidate>) {
    && best.Keys == Identities(reps)
    && forall id :: id in best ==>
         best[id] < |entries| && entries[best[id]] in reps && entries[best[id]].identity == id
  }

  lemma RepresentativesDistinct(entries: seq<Candidate>)
    ensures DistinctIdentities(Representatives(entries))
  {
    RepresentativesRepresent(entries);
  }

  method IndexRoots(entries: seq<Candidate>)
    returns (best: map<ProcessIdentity, nat>, duplicates: nat)
    ensures Indexes(best, entries, Representatives(entries))
    ensures duplicates + |best| == |entries|
  {
    best := map[];
    duplicates := 0;
    for i := 0 to |entries|
      invariant Indexes(best, entries[..i], Representatives(entries[..i]))
      invariant duplicates + |best| == i
    {
      RepresentativesDistinct(entries[..i]);
      var root := entries[i].identity;
      IndexMerge(best, entries, i);
      if root in best {
        if entries[i].activeSession && !entries[best[root]].activeSession {
          best := best[root := i];
        }
        duplicates := duplicates + 1;
      } else {
        best := best[root := i];
      }
    }
    assert entries[..|entries|] == entries;
  }

  lemma IndexMergeNew(best: map<ProcessIdentity, nat>, entries: seq<Candidate>, i: nat, reps: seq<Candidate>)
    requires i < |entries| && Indexes(best, entries[..i], reps)
    requires entries[i].identity !in Identities(reps)
    ensures Indexes(best[entries[i].identity := i], entries[..i + 1], reps + [entries[i]])
  {
    assert Identities(reps + [entries[i]]) == Identities(reps) + {entries[i].identity};
  }

  lemma IndexMergeReplace(best: map<ProcessIdentity, nat>, entries: seq<Candidate>, i: nat, reps: seq<Candidate>,
                          k: nat)
    requires i < |entries| && Indexes(best, entries[..i], reps) && DistinctIdentities(reps)
    requires k < |reps| && reps[k].identity == entries[i].identity
    ensures Indexes(best[entries[i].identity := i], entries[..i + 1], reps[k := entries[i]])
  {
    var c := entries[i];
    var after := reps[k := c];
    assert after[k] == c && reps[k] in reps;
    ReplaceKeepsIdentities(reps, k, c);
    forall x | x in reps && x.identity != c.identity ensures x in after {
      var j :| 0 <= j < |reps| && reps[j] == x;
      assert after[j] == x;
    }
  }

  lemma IndexedRepresentative(best: map<ProcessIdentity, nat>, entries: seq<Candidate>, reps: seq<Candidate>, k: nat)
    requires Indexes(best, entries, reps) && DistinctIdentities(reps) && k < |reps|
    ensures reps[k].identity in best && entries[best[reps[k].identity]] == reps[k]
  {
    assert reps[k] in reps;
  }

  lemma IndexMerge(best: map<ProcessIdentity, nat>, entries: seq<Candidate>, i: nat)
    requires i < |entries| && Indexes(best, entries[..i], Representatives(entries[..i]))
    requires DistinctIdentities(Representatives(entries[..i]))
    ensures var root := entries[i].identity;
            var replace := root !in best || (entries[i].activeSession && !entries[best[root]].activeSession);
            Indexes(if replace then best[root := i] else best, entries[..i + 1],
                    Representatives(entries[..i + 1]))
  {
    var reps := Representatives(entries[..i]);
    assert entries[..i + 1][..i] == entries[..i];
    match IndexOfIdentity(reps, entries[i].identity)
    case None =>
      IndexMergeNew(best, entries, i, reps);
    case Some(k) =>
      IndexedRepresentative(best, entries[..i], reps, k);
      IndexMergeReplace(best, entries, i, reps, k);
  }

  method CollectCandidates(entries: seq<Candidate>, best: map<ProcessIdentity, nat>)
    returns (candidates: seq<Candidate>)
    requires Indexes(best, entries, Representatives(entries))
    ensures DistinctIdentities(candidates)
    ensures Elements(candidates) == Elements(Representatives(entries))
    ensures |candidates| == |best|
  {
    candidates := [];
    var remaining := best.Keys;
    while remaining != {}
      invariant remaining <= best.Keys
      invariant |candidates| + |remaining| == |best.Keys|
      invariant Picked(candidates, entries, best, best.Keys - remaining)
      decreases remaining
    {
      var id :| id in remaining;
      assert best.Keys - (remaining - {id}) == (best.Keys - remaining) + {id};
      PickOne(candidates, entries, best, best.Keys - remaining, id);
      candidates := candidates + [entries[best[id]]];
      remaining := remaining - {id};
    }
    assert best.Keys - remaining == best.Keys;
    PickedAll(candidates, entries, best);
  }

  /** The candidates are the table's entries for the identities `done`. */
  ghost predicate Picked(candidates: seq<Candidate>, entries: seq<Candidate>, best: map<ProcessIdentity, nat>,
                         done: set<ProcessIdentity>)
    requires forall id :: id in best ==> best[id] < |entries|
  {
    && DistinctIdentities(candidates)
    && done <= best.Keys
    && (forall c :: c in candidates ==> c.identity in done && c == entries[best[c.identity]])
    && forall id :: id in done ==> entries[best[id]] in candidates
  }

  lemma PickOne(candidates: seq<Candidate>, entries: seq<Candidate>, best: map<ProcessIdentity, nat>,
                done: set<ProcessIdentity>, id: ProcessIdentity)
    requires forall id :: id in best ==> best[id] < |entries| && entries[best[id]].identity == id
    requires Picked(candidates, entries, best, done) && id in best && id !in done
    ensures Picked(candidates + [entries[best[id]]], entries, best, done + {id})
  {
    var c := entries[best[id]];
    var more := candidates + [c];
    assert forall x :: x in more <==> x in candidates || x == c;
  }

  lemma PickedAll(candidates: seq<Candidate>, entries: seq<Candidate>, best: map<ProcessIdentity, nat>)
    requires Indexes(best, entries, Representatives(entries))
    requires Picked(candidates, entries, best, best.Keys)
    ensures Elements(candidates) == Elements(Representatives(entries))
  {
    var reps := Representatives(entries);
    RepresentativesRepresent(entries);
    forall c | c in reps ensures c in candidates {
      var k :| 0 <= k < |reps| && reps[k] == c;
      IndexedRepresentative(best, entries, reps, k);
    }
  }

  lemma IdentitiesOfRepresentatives(entries: seq<Candidate>)
    ensures Identities(Representatives(entries)) == Identities(entries)
    ensures |Identities(entries)| == |Representatives(entries)|
  {
    RepresentativesRepresent(entries);
    var reps := Representatives(entries);
    var ids := seq(|reps|, i requires 0 <= i < |reps| => reps[i].identity);
    DistinctSize(ids);
    assert Elements(ids) == Identities(reps) by {
      forall c | c in reps ensures c.identity in ids {
        var i :| 0 <= i < |reps| && reps[i] == c;
        assert ids[i] == c.identity;
      }
    }
  }

  // ---- What a plan promises ----

  lemma TruncateIsPrefix(s: seq<Candidate>)
    ensures Truncate(s) <= s && KeysOf(Truncate(s)) <= KeysOf(s)
  {
  }

  /** At most 32 sources, no process tree twice, in rank order. */
  lemma PlanIsRankedAndDistinct(ctx: PlannerContext, sessions: seq<AudioSession>)
    ensures var d := DesiredSources(ctx, sessions);
            |d| <= MAX_SOURCES && DistinctIdentities(d) && Ranked(KeysOf(d))
  {
    var entries := EligibleCandidates(ctx, sessions);
    RepresentativesRepresent(entries);
    SortRanks(Representatives(entries));
    RankedKeysDistinctIdentities(Representatives(entries));
    TruncateIsPrefix(SortByRank(Representatives(entries)));
  }

  /** Active sources come first; among equals the lower-case root names ascend,
      then the PIDs, then the creation times. */
  lemma PlanOrder(ctx: PlannerContext, sessions: seq<AudioSession>, i: nat, j: nat)
    requires i < j < |DesiredSources(ctx, sessions)|
    ensures var a, b := DesiredSources(ctx, sessions)[i], DesiredSources(ctx, sessions)[j];
            var x, y := ToLower(a.rootExecutableName), ToLower(b.rootExecutableName);
            && (b.activeSession ==> a.activeSession)
            && (a.activeSession == b.activeSession ==> x == y || AlphabeticallyBefore(x, y))
            && (a.activeSession == b.activeSession && x == y ==>
                  a.identity.pid < b.identity.pid
                  || (a.identity.pid == b.identity.pid && a.identity.creationTime < b.identity.creationTime))
  {
    var d := DesiredSources(ctx, sessions);
    PlanIsRankedAndDistinct(ctx, sessions);
    assert Before(KeysOf(d)[i], KeysOf(d)[j]);
    BeforeMeans(KeyOf(d[i]), KeyOf(d[j]));
  }

  /** A root with an active session is left out only when all 32 planned sources
      are active too. */
  lemma ActiveRootsComeFirst(ctx: PlannerContext, sessions: seq<AudioSession>, s: AudioSession)
    requires s in sessions && Classify(ctx, s).Eligible? && s.sessionState == 1
    requires Classify(ctx, s).candidate.identity !in Identities(DesiredSources(ctx, sessions))
    ensures |DesiredSources(ctx, sessions)| == 32
    ensures forall c :: c in DesiredSources(ctx, sessions) ==> c.activeSession
  {
    var own, entries := Classify(ctx, s).candidate, EligibleCandidates(ctx, sessions);
    PlanOmitsOnlyLowerRanked(ctx, sessions, s);
    EligibleComesFromSession(ctx, sessions, own);
    var rep :| rep in entries && rep.identity == own.identity
               && (rep.activeSession <==> ActiveIn(entries, own.identity))
               && forall c :: c in DesiredSources(ctx, sessions) ==> Before(KeyOf(c), KeyOf(rep));
    forall c | c in DesiredSources(ctx, sessions) ensures c.activeSession {
      BeforeMeans(KeyOf(c), KeyOf(rep));
    }
  }

  /** A planned source stems from an eligible session, and is marked active
      exactly when some eligible session of that root is active. */
  lemma PlanMembers(ctx: PlannerContext, sessions: seq<AudioSession>, c: Candidate)
    requires c in DesiredSources(ctx, sessions)
    ensures exists s :: s in sessions && Classify(ctx, s) == Eligible(c)
    ensures c.activeSession <==>
            exists s :: s in sessions && Classify(ctx, s).Eligible?
                        && Classify(ctx, s).candidate.identity == c.identity
                        && Classify(ctx, s).candidate.activeSession
  {
    var entries := EligibleCandidates(ctx, sessions);
    var reps := Representatives(entries);
    RepresentativesRepresent(entries);
    SortRanks(reps);
    TruncateIsPrefix(SortByRank(reps));
    assert c in Elements(reps);
    EligibleComesFromSession(ctx, sessions, c);
    if c.activeSession {
      EligibleComesFromSession(ctx, sessions, c);
    }
    forall s | s in sessions && Classify(ctx, s).Eligible? ensures Classify(ctx, s).candidate in entries {
      EligibleComesFromSession(ctx, sessions, Classify(ctx, s).candidate);
    }
  }

  /** A root is left out only when 32 roots rank before it. */
  lemma PlanOmitsOnlyLowerRanked(ctx: PlannerContext, sessions: seq<AudioSession>, s: AudioSession)
    requires s in sessions && Classify(ctx, s).Eligible?
    ensures var root := Classify(ctx, s).candidate.identity;
            var d := DesiredSources(ctx, sessions);
            var entries := EligibleCandidates(ctx, sessions);
            root in Identities(d)
            || (|d| == MAX_SOURCES
                && exists rep :: rep in entries && rep.identity == root
                     && (rep.activeSession <==> ActiveIn(entries, root))
                     && forall c :: c in d ==> Before(KeyOf(c), KeyOf(rep)))
  {
    var own := Classify(ctx, s).candidate;
    var entries := EligibleCandidates(ctx, sessions);
    var reps := Representatives(entries);
    var all, d := SortByRank(reps), DesiredSources(ctx, sessions);
    EligibleComesFromSession(ctx, sessions, own);
    RepresentativesRepresent(entries);
    SortRanks(reps);
    var rep :| rep in reps && rep.identity == own.identity;
    assert rep in Elements(all);
    var k :| 0 <= k < |all| && all[k] == rep;
    if k < |d| {
      assert d[k] == rep;
    } else {
      forall c | c in d ensures Before(KeyOf(c), KeyOf(rep)) {
        var j :| 0 <= j < |d| && d[j] == c;
        assert Before(KeysOf(all)[j], KeysOf(all)[k]);
      }
    }
  }

  /** Nothing planned matches an exclusion the options ask for, neither by its
      session nor by its root. */
  lemma PlanHonoursExclusions(ctx: PlannerContext, sessions: seq<AudioSession>, c: Candidate) returns (s: AudioSession)
    requires c in DesiredSources(ctx, sessions)
    ensures s in sessions && c == CandidateFor(s, ctx.resolve(s.pid)) && c.identity.IsValid()
    ensures !s.systemSound && s.processAlive && s.identityValidated
    ensures ctx.options.excludeDiscord ==> !IsDiscordSession(s) && !IsDiscordRoot(ctx.resolve(s.pid))
    ensures ctx.options.excludeScreenLink ==>
              !IsScreenLinkSession(ctx, s) && !IsScreenLinkRoot(ctx, ctx.resolve(s.pid))
  {
    PlanMembers(ctx, sessions, c);
    s :| s in sessions && Classify(ctx, s) == Eligible(c);
  }

  /** The resolver gives every application root one name. */
  ghost predicate NamesRootsConsistently(ctx: PlannerContext) {
    forall p, q :: ctx.resolve(p).rootPid == ctx.resolve(q).rootPid
                   && ctx.resolve(p).rootCreationTime == ctx.resolve(q).rootCreationTime ==>
                     ctx.resolve(p).rootName == ctx.resolve(q).rootName
  }

  /** Listing the same sessions in another order, or some of them more than
      once, never changes which roots are planned, their order or their flags. */
  lemma PlanDeterminism(ctx: PlannerContext, sessions: seq<AudioSession>, others: seq<AudioSession>)
    requires NamesRootsConsistently(ctx)
    requires forall s :: s in sessions <==> s in others
    ensures KeysOf(DesiredSources(ctx, sessions)) == KeysOf(DesiredSources(ctx, others))
  {
    var a, b := EligibleCandidates(ctx, sessions), EligibleCandidates(ctx, others);
    forall c ensures c in a <==> c in b {
      EligibleComesFromSession(ctx, sessions, c);
      EligibleComesFromSession(ctx, others, c);
    }
    RepresentativesRepresent(a);
    RepresentativesRepresent(b);
    var ra, rb := Representatives(a), Representatives(b);
    RepresentativeKeys(ctx, sessions, a, ra, rb);
    RepresentativeKeys(ctx, others, b, rb, ra);
    SortRanks(ra);
    SortRanks(rb);
    SameElementsSameKeys(ra, SortByRank(ra));
    SameElementsSameKeys(rb, SortByRank(rb));
    RankedUnique(KeysOf(SortByRank(ra)), KeysOf(SortByRank(rb)));
    TruncateKeys(SortByRank(ra), SortByRank(rb));
  }

  /** Eligible candidates of one root with one flag have one rank key. */
  lemma SameRootSameKey(ctx: PlannerContext, sessions: seq<AudioSession>, c: Candidate, o: Candidate)
    requires NamesRootsConsistently(ctx)
    requires c in EligibleCandidates(ctx, sessions) && o in EligibleCandidates(ctx, sessions)
    requires c.identity == o.identity && c.activeSession == o.activeSession
    ensures KeyOf(c) == KeyOf(o)
  {
    EligibleComesFromSession(ctx, sessions, c);
    EligibleComesFromSession(ctx, sessions, o);
    var s :| s in sessions && Classify(ctx, s) == Eligible(c);
    var t :| t in sessions && Classify(ctx, t) == Eligible(o);
    assert c == CandidateFor(s, ctx.resolve(s.pid)) && o == CandidateFor(t, ctx.resolve(t.pid));
  }

  lemma RepresentativeKeys(ctx: PlannerContext, sessions: seq<AudioSession>, entries: seq<Candidate>,
                           reps: seq<Candidate>, others: seq<Candidate>)
    requires NamesRootsConsistently(ctx) && entries == EligibleCandidates(ctx, sessions)
    requires Represents(reps, entries) && Represents(others, entries)
    ensures Elements(KeysOf(reps)) <= Elements(KeysOf(others))
  {
    KeysAreImages(reps);
    KeysAreImages(others);
    forall c | c in reps ensures KeyOf(c) in Elements(KeysOf(others)) {
      assert c.identity in Identities(others);
      var o :| o in others && o.identity == c.identity;
      SameRootSameKey(ctx, sessions, c, o);
    }
  }

  lemma TruncateKeys(a: seq<Candidate>, b: seq<Candidate>)
    requires KeysOf(a) == KeysOf(b)
    ensures KeysOf(Truncate(a)) == KeysOf(Truncate(b))
  {
    assert |a| == |KeysOf(a)| && |b| == |KeysOf(b)|;
    forall i | 0 <= i < |Truncate(a)| ensures KeyOf(a[i]) == KeyOf(b[i]) {
      assert KeysOf(a)[i] == KeysOf(b)[i];
    }
  }
}
