/** The planner together with the resolver, on one snapshot of the processes. */
module PlannedRoots {
  import opened Base
  import opened ProcessResolver
  import opened RootStability
  import opened CandidateOrder
  import opened SourcePlanner

  /** The resolver works on one snapshot, with chains cut at `limit` processes. */
  ghost predicate ResolvesOn(ctx: PlannerContext, snapshot: Snapshot, limit: Limit) {
    forall p :: ctx.resolve(p) == ResolveWithin(snapshot, limit, p)
  }

  /** A root is described by what the snapshot says about its PID. */
  lemma RootIsDescribed(snapshot: Snapshot, limit: Limit, p: uint32)
    ensures var tree := ResolveWithin(snapshot, limit, p);
            if p == 0 then tree.rootPid == 0 && tree.rootName == ""
            else tree.rootPid != 0 && Describe(snapshot, tree.rootPid) ==
                   ProcessInfo(tree.rootPid, tree.rootPath, tree.rootName, tree.rootCreationTime)
  {
    var chain := AncestorChain(snapshot, limit, p);
    var infos := DescribeAll(snapshot, chain);
    if p != 0 {
      assert infos[RootIndex(infos)] == Describe(snapshot, chain[RootIndex(infos)]);
      assert chain[RootIndex(infos)] in chain;
    }
  }

  lemma SnapshotNamesRootsConsistently(ctx: PlannerContext, snapshot: Snapshot, limit: Limit)
    requires ResolvesOn(ctx, snapshot, limit)
    ensures NamesRootsConsistently(ctx)
  {
    forall p, q | ctx.resolve(p).rootPid == ctx.resolve(q).rootPid
      ensures ctx.resolve(p).rootName == ctx.resolve(q).rootName
    {
      RootIsDescribed(snapshot, limit, p);
      RootIsDescribed(snapshot, limit, q);
    }
  }

  /** On one snapshot the plan depends only on the set of sessions. */
  lemma SnapshotPlanDeterminism(ctx: PlannerContext, snapshot: Snapshot, limit: Limit,
                                sessions: seq<AudioSession>, others: seq<AudioSession>)
    requires ResolvesOn(ctx, snapshot, limit)
    requires forall s :: s in sessions <==> s in others
    ensures KeysOf(DesiredSources(ctx, sessions)) == KeysOf(DesiredSources(ctx, others))
  {
    SnapshotNamesRootsConsistently(ctx, snapshot, limit);
    PlanDeterminism(ctx, sessions, others);
  }

  /** A planned source stems from an eligible session and names its root. */
  lemma SessionOf(ctx: PlannerContext, snapshot: Snapshot, limit: Limit, sessions: seq<AudioSession>, c: Candidate)
    returns (s: AudioSession)
    requires ResolvesOn(ctx, snapshot, limit) && c in DesiredSources(ctx, sessions)
    ensures s in sessions && Classify(ctx, s) == Eligible(c)
    ensures var tree := ResolveWithin(snapshot, limit, s.pid);
            c.identity == ProcessIdentity(tree.rootPid, tree.rootCreationTime)
  {
    PlanMembers(ctx, sessions, c);
    s :| s in sessions && Classify(ctx, s) == Eligible(c);
    assert c == CandidateFor(s, ctx.resolve(s.pid));
  }

  lemma PlannedIdentitiesDiffer(ctx: PlannerContext, sessions: seq<AudioSession>, c: Candidate, d: Candidate)
    requires c in DesiredSources(ctx, sessions) && d in DesiredSources(ctx, sessions) && c != d
    ensures c.identity != d.identity
  {
    PlanIsRankedAndDistinct(ctx, sessions);
  }

  /** No two planned captures overlap: neither root lies on the other's own
      unbroken line of ancestors. Only the eligible sessions matter, and of their
      ancestors only those up to the root. */
  lemma PlannedSourcesAreNotNested(ctx: PlannerContext, snapshot: Snapshot, limit: Limit, sessions: seq<AudioSession>,
                                   c: Candidate, d: Candidate)
    requires ResolvesOn(ctx, snapshot, limit)
    requires forall s :: s in sessions && Classify(ctx, s).Eligible? ==>
               KnownToRoot(snapshot, limit, s.pid) && !CutBelowFamily(snapshot, limit, s.pid)
    requires c in DesiredSources(ctx, sessions) && d in DesiredSources(ctx, sessions) && c != d
    ensures !LiesAbove(snapshot, limit, c.identity.pid, d.identity.pid)
  {
    PlannedIdentitiesDiffer(ctx, sessions, c, d);
    var s := SessionOf(ctx, snapshot, limit, sessions, c);
    var t := SessionOf(ctx, snapshot, limit, sessions, d);
    if LiesAbove(snapshot, limit, c.identity.pid, d.identity.pid) {
      RootsAreNotNested(snapshot, limit, s.pid, t.pid);
    }
  }
}
