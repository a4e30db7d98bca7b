/** When every process between a session and its root resolves to that root. */
module RootStability {
  import opened Base
  import opened Text
  import opened ProcessResolver

  // ---- What one member of a family sees, all see ----

  predicate NamedByPath(info: ProcessInfo) {
    Basename(info.path) != "" ==> info.name == Basename(info.path)
  }

  /** The comparison with `ancestor` cannot hinge on a name that the session's
      path does not give. */
  predicate Decided(session: ProcessInfo, ancestor: ProcessInfo) {
    || ancestor.path != ""
    || ancestor.creationTime == 0
    || IsSystemProcess(ancestor.name)
    || Basename(session.path) != ""
  }

  lemma {:induction false} SamePastLast(a: string, b: string, c: char)
    requires |a| == |b| && forall i :: 0 <= i < |a| ==> (a[i] == c <==> b[i] == c)
    ensures PastLast(a, c) == PastLast(b, c)
  {
    if a != [] && a[|a| - 1] != c {
      SamePastLast(a[..|a| - 1], b[..|b| - 1], c);
    }
  }

  lemma SameOccurrence(a: string, b: string, c: char)
    requires |a| == |b| && forall i :: 0 <= i < |a| ==> (a[i] == c <==> b[i] == c)
    ensures c in a <==> c in b
  {
    if c in a {
      var i :| 0 <= i < |a| && a[i] == c;
      assert b[i] == c;
    } else {
      assert forall i :: 0 <= i < |b| ==> b[i] != c;
    }
  }

  lemma SameBasename(a: string, b: string)
    requires IEquals(a, b)
    ensures IEquals(Basename(a), Basename(b))
  {
    SameOccurrence(a, b, '\\');
    SamePastLast(a, b, '\\');
    SamePastLast(a, b, '/');
  }

  lemma FamilySeesSame(x: ProcessInfo, y: ProcessInfo, ancestor: ProcessInfo)
    requires x.path != "" && y.path != "" && IEquals(x.path, y.path)
    requires NamedByPath(x) && NamedByPath(y) && Decided(x, ancestor)
    ensures Qualifies(x, ancestor) <==> Qualifies(y, ancestor)
    ensures Decided(y, ancestor)
  {
    SameBasename(x.path, y.path);
    IEqualsIsEqualityOfLower(x.path, y.path);
    IEqualsIsEqualityOfLower(x.path, ancestor.path);
    IEqualsIsEqualityOfLower(y.path, ancestor.path);
    IEqualsIsEqualityOfLower(x.name, y.name);
    IEqualsIsEqualityOfLower(x.name, ancestor.name);
    IEqualsIsEqualityOfLower(y.name, ancestor.name);
  }

  // ---- Lines of ancestors ----

  type Limit = n: nat | n > 0 witness 1

  /** The parent's PID; 0 stands for none and ends the walk. */
  function ParentOf(snapshot: Snapshot, pid: uint32): uint32 {
    if pid in snapshot.parents then snapshot.parents[pid] else 0
  }

  predicate LinkAt(snapshot: Snapshot, limit: Limit, line: seq<uint32>, k: nat)
    requires k < |line|
  {
    k + 1 < limit ==>
      if k + 1 < |line| then line[k + 1] == ParentOf(snapshot, line[k]) else ParentOf(snapshot, line[k]) == 0
  }

  /** Each process is followed by its parent, until there is none or the line
      has `limit` processes. */
  ghost predicate IsLine(snapshot: Snapshot, limit: Limit, line: seq<uint32>) {
    && line != [] && |line| <= limit && 0 !in line
    && forall k :: 0 <= k < |line| ==> LinkAt(snapshot, limit, line, k)
  }

  lemma {:induction false} ChainLinks(snapshot: Snapshot, pid: uint32, budget: Limit, k: nat)
    requires k < |Chain(snapshot.parents, pid, budget)|
    ensures LinkAt(snapshot, budget, Chain(snapshot.parents, pid, budget), k)
    decreases budget
  {
    if k > 0 {
      ChainLinks(snapshot, snapshot.parents[pid], budget - 1, k - 1);
    }
  }

  lemma AncestorChainIsLine(snapshot: Snapshot, limit: Limit, pid: uint32)
    requires pid != 0
    ensures IsLine(snapshot, limit, AncestorChain(snapshot, limit, pid))
    ensures AncestorChain(snapshot, limit, pid)[0] == pid
  {
    forall k | 0 <= k < |AncestorChain(snapshot, limit, pid)|
      ensures LinkAt(snapshot, limit, AncestorChain(snapshot, limit, pid), k)
    {
      ChainLinks(snapshot, pid, limit, k);
    }
  }

  /** An ancestor's line repeats the rest of the line it was found on. */
  lemma {:induction false} LineSeesRest(snapshot: Snapshot, limit: Limit, line: seq<uint32>, above: seq<uint32>,
                                        i: nat, j: nat)
    requires IsLine(snapshot, limit, line) && IsLine(snapshot, limit, above)
    requires i + j < |line| && above[0] == line[i]
    ensures j < |above| && above[j] == line[i + j]
    decreases j
  {
    if j > 0 {
      LineSeesRest(snapshot, limit, line, above, i, j - 1);
      assert LinkAt(snapshot, limit, line, i + j - 1) && LinkAt(snapshot, limit, above, j - 1);
      assert line[i + j] in line;
    }
  }

  /** A process recorded as its own parent fills the rest of its line. */
  lemma {:induction false} OwnParentRepeats(snapshot: Snapshot, limit: Limit, line: seq<uint32>, k: nat, j: nat)
    requires IsLine(snapshot, limit, line) && k < |line| && k <= j < limit
    requires ParentOf(snapshot, line[k]) == line[k]
    ensures j < |line| && line[j] == line[k]
    decreases j
  {
    if k < j {
      OwnParentRepeats(snapshot, limit, line, k, j - 1);
      assert LinkAt(snapshot, limit, line, j - 1);
      assert line[k] in line;
    }
  }

  // ---- Where a climb ends, whatever the family relation ----

  type Relation = (uint32, uint32) -> bool

  /** The unbroken run of ancestors related to the first process ends at `r`. */
  predicate EndsAt(sees: Relation, line: seq<uint32>, r: nat) {
    && r < |line|
    && (forall j :: 1 <= j <= r ==> sees(line[0], line[j]))
    && (r + 1 < |line| ==> !sees(line[0], line[r + 1]))
  }

  /** Every process of the run sees the run and its continuation as the first does. */
  ghost predicate OneFamily(snapshot: Snapshot, sees: Relation, line: seq<uint32>, r: nat) {
    && EndsAt(sees, line, r)
    && forall i, x :: 0 <= i <= r && (x in line[..r + 1] || x == ParentOf(snapshot, line[r]) != 0) ==>
         (sees(line[i], x) <==> sees(line[0], x))
  }

  /** The walk stopped at its limit, below another process of the family. */
  predicate CutAt(snapshot: Snapshot, limit: Limit, sees: Relation, line: seq<uint32>, r: nat) {
    && r + 1 == limit && r < |line|
    && ParentOf(snapshot, line[r]) != 0
    && ParentOf(snapshot, line[r]) != line[r]
    && sees(line[0], ParentOf(snapshot, line[r]))
  }

  /** Process `i` climbs over the same processes up to the session's root. */
  lemma RunToRoot(snapshot: Snapshot, limit: Limit, sees: Relation, line: seq<uint32>, r: nat,
                  above: seq<uint32>, i: nat)
    requires IsLine(snapshot, limit, line) && IsLine(snapshot, limit, above)
    requires OneFamily(snapshot, sees, line, r) && i <= r && above[0] == line[i]
    ensures r - i < |above| && above[r - i] == line[r]
    ensures forall j :: 0 <= j <= r - i ==> above[j] in line[..r + 1]
    ensures forall j :: 1 <= j <= r - i ==> sees(above[0], above[j])
  {
    LineSeesRest(snapshot, limit, line, above, i, r - i);
    forall j | 0 <= j <= r - i ensures above[j] in line[..r + 1] && (j > 0 ==> sees(above[0], above[j])) {
      LineSeesRest(snapshot, limit, line, above, i, j);
      assert line[..r + 1][i + j] == above[j];
    }
  }

  /** The root's parent, outside the family or missing, ends every climb. */
  lemma StopsAtRoot(snapshot: Snapshot, limit: Limit, sees: Relation, line: seq<uint32>, r: nat,
                    above: seq<uint32>, i: nat)
    requires IsLine(snapshot, limit, line) && IsLine(snapshot, limit, above)
    requires OneFamily(snapshot, sees, line, r) && i <= r && above[0] == line[i]
    requires ParentOf(snapshot, line[r]) == 0 || !sees(line[0], ParentOf(snapshot, line[r]))
    ensures EndsAt(sees, above, r - i) && above[r - i] == line[r]
  {
    RunToRoot(snapshot, limit, sees, line, r, above, i);
    assert LinkAt(snapshot, limit, above, r - i);
  }

  /** A root that is its own parent fills the line of every process on the way. */
  lemma OwnParentIsRoot(snapshot: Snapshot, limit: Limit, sees: Relation, line: seq<uint32>, r: nat,
                        above: seq<uint32>, i: nat)
    requires IsLine(snapshot, limit, line) && IsLine(snapshot, limit, above)
    requires OneFamily(snapshot, sees, line, r) && 0 < i <= r == limit - 1 && above[0] == line[i]
    requires ParentOf(snapshot, line[r]) == line[r]
    ensures EndsAt(sees, above, r) && above[r] == line[r]
    ensures forall j :: 0 <= j <= r ==> above[j] in line[..r + 1]
  {
    RunToRoot(snapshot, limit, sees, line, r, above, i);
    OwnParentRepeats(snapshot, limit, above, r - i, r);
    assert line[..r + 1][r] == line[r] && sees(line[0], line[r]);
    forall j | r - i <= j <= r ensures above[j] == line[r] {
      OwnParentRepeats(snapshot, limit, above, r - i, j);
    }
    forall j | 1 <= j <= r ensures sees(above[0], above[j]) {
      assert j > r - i ==> above[j] == line[r];
    }
  }

  /** The root's family goes on above the limit: the first parent climbs further. */
  lemma ParentClimbsFurther(snapshot: Snapshot, limit: Limit, sees: Relation, line: seq<uint32>, r: nat,
                            above: seq<uint32>)
    requires IsLine(snapshot, limit, line) && IsLine(snapshot, limit, above)
    requires OneFamily(snapshot, sees, line, r) && CutAt(snapshot, limit, sees, line, r)
    requires 1 <= r && above[0] == line[1]
    ensures EndsAt(sees, above, r) && above[r] == ParentOf(snapshot, line[r]) != line[r]
  {
    var parent := ParentOf(snapshot, line[r]);
    RunToRoot(snapshot, limit, sees, line, r, above, 1);
    assert LinkAt(snapshot, limit, above, r - 1);
    assert sees(line[1], parent);
    forall j | 1 <= j <= r ensures sees(above[0], above[j]) {
      assert j == r ==> above[j] == parent;
    }
  }

  /** Without a cut, process `i` on the way finds the session's root by climbing
      over processes of the same run, and its own climb is not cut either. */
  lemma SameRoot(snapshot: Snapshot, limit: Limit, sees: Relation, line: seq<uint32>, r: nat,
                 above: seq<uint32>, i: nat)
    returns (d: nat)
    requires IsLine(snapshot, limit, line) && IsLine(snapshot, limit, above)
    requires OneFamily(snapshot, sees, line, r) && !CutAt(snapshot, limit, sees, line, r)
    requires i <= r && above[0] == line[i]
    ensures EndsAt(sees, above, d) && above[d] == line[r] && !CutAt(snapshot, limit, sees, above, d)
    ensures forall j :: 0 <= j <= d ==> above[j] in line[..r + 1]
  {
    var parent := ParentOf(snapshot, line[r]);
    RunToRoot(snapshot, limit, sees, line, r, above, i);
    assert LinkAt(snapshot, limit, line, r);
    if parent == 0 || !sees(line[0], parent) {
      StopsAtRoot(snapshot, limit, sees, line, r, above, i);
      d := r - i;
    } else if i == 0 {
      assert LinkAt(snapshot, limit, above, r);
      d := r;
    } else {
      OwnParentIsRoot(snapshot, limit, sees, line, r, above, i);
      d := r;
    }
  }

  // ---- The family relation of executables ----

  predicate QualifiesFor(snapshot: Snapshot, pid: uint32, ancestor: uint32) {
    Qualifies(Describe(snapshot, pid), Describe(snapshot, ancestor))
  }

  function SameApplication(snapshot: Snapshot): Relation {
    (pid: uint32, ancestor: uint32) => QualifiesFor(snapshot, pid, ancestor)
  }

  function TreeAt(snapshot: Snapshot, root: uint32): ProcessTreeResult {
    var d := Describe(snapshot, root);
    ProcessTreeResult(true, root, d.creationTime, d.name, d.path)
  }

  lemma RunIsRootIndex(snapshot: Snapshot, line: seq<uint32>, r: nat)
    requires line != []
    ensures EndsAt(SameApplication(snapshot), line, r) <==> IsRootIndex(DescribeAll(snapshot, line), r)
  {
    var infos := DescribeAll(snapshot, line);
    assert forall j :: 0 <= j < |line| ==>
             (Qualifies(infos[0], infos[j]) <==> SameApplication(snapshot)(line[0], line[j]));
  }

  /** The run ends at one depth only, and the tree found is the one there. */
  lemma RootIsWhereRunEnds(snapshot: Snapshot, line: seq<uint32>, r: nat)
    requires line != []
    ensures EndsAt(SameApplication(snapshot), line, r) <==> r == RootIndex(DescribeAll(snapshot, line))
    ensures EndsAt(SameApplication(snapshot), line, r) ==>
              TreeOf(DescribeAll(snapshot, line)) == TreeAt(snapshot, line[r])
  {
    var infos := DescribeAll(snapshot, line);
    RunIsRootIndex(snapshot, line, r);
    if IsRootIndex(infos, r) {
      RootIndexUnique(infos, r, RootIndex(infos));
    }
  }

  /** The paths from the first process to its root are known, and it is decided
      whether the root's parent, if it has one, belongs to them. */
  ghost predicate KnownTo(snapshot: Snapshot, line: seq<uint32>, r: nat) {
    && EndsAt(SameApplication(snapshot), line, r)
    && (forall p :: p in line[..r + 1] ==> Describe(snapshot, p).path != "")
    && (ParentOf(snapshot, line[r]) != 0 ==>
          Decided(Describe(snapshot, line[0]), Describe(snapshot, ParentOf(snapshot, line[r]))))
  }

  lemma KnownSeesSame(snapshot: Snapshot, line: seq<uint32>, r: nat, i: nat, x: uint32)
    requires KnownTo(snapshot, line, r) && i <= r
    requires Decided(Describe(snapshot, line[0]), Describe(snapshot, x))
    ensures QualifiesFor(snapshot, line[i], x) <==> QualifiesFor(snapshot, line[0], x)
    ensures Decided(Describe(snapshot, line[i]), Describe(snapshot, x))
  {
    if i > 0 {
      assert line[..r + 1][0] == line[0] && line[..r + 1][i] == line[i];
      assert SameApplication(snapshot)(line[0], line[i]);
      FamilySeesSame(Describe(snapshot, line[0]), Describe(snapshot, line[i]), Describe(snapshot, x));
    }
  }

  lemma KnownIsOneFamily(snapshot: Snapshot, line: seq<uint32>, r: nat)
    requires KnownTo(snapshot, line, r)
    ensures OneFamily(snapshot, SameApplication(snapshot), line, r)
  {
    forall i, x | 0 <= i <= r && (x in line[..r + 1] || x == ParentOf(snapshot, line[r]) != 0)
      ensures SameApplication(snapshot)(line[i], x) <==> SameApplication(snapshot)(line[0], x)
    {
      KnownSeesSame(snapshot, line, r, i, x);
    }
  }

  // ---- Root stability ----

  /** How many parents above a process its application root is. */
  function RootDepth(snapshot: Snapshot, limit: Limit, pid: uint32): nat {
    RootIndex(DescribeAll(snapshot, AncestorChain(snapshot, limit, pid)))
  }

  /** All that stability asks for: the paths of the processes from `pid` to its
      root, and that the root's parent can be told apart from them. */
  ghost predicate KnownToRoot(snapshot: Snapshot, limit: Limit, pid: uint32) {
    pid != 0 && KnownTo(snapshot, AncestorChain(snapshot, limit, pid), RootDepth(snapshot, limit, pid))
  }

  /** The walk was cut at its limit, below one more process of the family. */
  predicate CutBelowFamily(snapshot: Snapshot, limit: Limit, pid: uint32) {
    CutAt(snapshot, limit, SameApplication(snapshot), AncestorChain(snapshot, limit, pid),
          RootDepth(snapshot, limit, pid))
  }

  /** Process `i` on the way resolves as the session does, and so do, for the
      same reasons, the processes on its own way. */
  lemma SettledOnTheWay(snapshot: Snapshot, limit: Limit, pid: uint32, i: nat)
    requires KnownToRoot(snapshot, limit, pid) && !CutBelowFamily(snapshot, limit, pid)
    requires i <= RootDepth(snapshot, limit, pid)
    ensures i < |AncestorChain(snapshot, limit, pid)|
    ensures var p := AncestorChain(snapshot, limit, pid)[i];
            && KnownToRoot(snapshot, limit, p) && !CutBelowFamily(snapshot, limit, p)
            && ResolveWithin(snapshot, limit, p) == ResolveWithin(snapshot, limit, pid)
  {
    var line, r := AncestorChain(snapshot, limit, pid), RootDepth(snapshot, limit, pid);
    AncestorChainIsLine(snapshot, limit, pid);
    KnownIsOneFamily(snapshot, line, r);
    var p := line[i];
    assert p in line;
    var above := AncestorChain(snapshot, limit, p);
    AncestorChainIsLine(snapshot, limit, p);
    var d := SameRoot(snapshot, limit, SameApplication(snapshot), line, r, above, i);
    RootIsWhereRunEnds(snapshot, line, r);
    RootIsWhereRunEnds(snapshot, above, d);
    KnownStays(snapshot, line, r, above, i, d);
  }

  lemma KnownStays(snapshot: Snapshot, line: seq<uint32>, r: nat, above: seq<uint32>, i: nat, d: nat)
    requires KnownTo(snapshot, line, r) && i <= r && above != [] && above[0] == line[i]
    requires EndsAt(SameApplication(snapshot), above, d) && above[d] == line[r]
    requires forall j :: 0 <= j <= d ==> above[j] in line[..r + 1]
    ensures KnownTo(snapshot, above, d)
  {
    var parent := ParentOf(snapshot, line[r]);
    if parent != 0 {
      KnownSeesSame(snapshot, line, r, i, parent);
    }
  }

  /** A cut walk makes the first parent climb past the session's root. */
  lemma CutIsUnstable(snapshot: Snapshot, limit: Limit, pid: uint32)
    requires KnownToRoot(snapshot, limit, pid) && CutBelowFamily(snapshot, limit, pid) && limit >= 2
    ensures 1 <= RootDepth(snapshot, limit, pid) < |AncestorChain(snapshot, limit, pid)|
    ensures ResolveWithin(snapshot, limit, AncestorChain(snapshot, limit, pid)[1]) !=
            ResolveWithin(snapshot, limit, pid)
  {
    var line, r := AncestorChain(snapshot, limit, pid), RootDepth(snapshot, limit, pid);
    AncestorChainIsLine(snapshot, limit, pid);
    KnownIsOneFamily(snapshot, line, r);
    assert line[1] in line;
    var above := AncestorChain(snapshot, limit, line[1]);
    AncestorChainIsLine(snapshot, limit, line[1]);
    ParentClimbsFurther(snapshot, limit, SameApplication(snapshot), line, r, above);
    RootIsWhereRunEnds(snapshot, line, r);
    RootIsWhereRunEnds(snapshot, above, r);
  }

  /** Every process from the session up to its root resolves to that same root,
      if and only if the walk was not cut below one more process of the family. */
  lemma RootStabilityIff(snapshot: Snapshot, limit: Limit, pid: uint32)
    requires KnownToRoot(snapshot, limit, pid) && limit >= 2
    ensures RootDepth(snapshot, limit, pid) < |AncestorChain(snapshot, limit, pid)|
    ensures (forall i :: 0 <= i <= RootDepth(snapshot, limit, pid) ==>
               ResolveWithin(snapshot, limit, AncestorChain(snapshot, limit, pid)[i]) ==
               ResolveWithin(snapshot, limit, pid))
            <==> !CutBelowFamily(snapshot, limit, pid)
  {
    if CutBelowFamily(snapshot, limit, pid) {
      CutIsUnstable(snapshot, limit, pid);
    } else {
      forall i | 0 <= i <= RootDepth(snapshot, limit, pid)
        ensures ResolveWithin(snapshot, limit, AncestorChain(snapshot, limit, pid)[i]) ==
                ResolveWithin(snapshot, limit, pid)
      {
        SettledOnTheWay(snapshot, limit, pid, i);
      }
    }
  }

  lemma RootIsOnTheWay(snapshot: Snapshot, limit: Limit, pid: uint32)
    requires KnownToRoot(snapshot, limit, pid)
    ensures RootDepth(snapshot, limit, pid) < |AncestorChain(snapshot, limit, pid)|
    ensures ResolveWithin(snapshot, limit, pid).rootPid ==
            AncestorChain(snapshot, limit, pid)[RootDepth(snapshot, limit, pid)]
  {
    RootIsWhereRunEnds(snapshot, AncestorChain(snapshot, limit, pid), RootDepth(snapshot, limit, pid));
  }

  /** A root that was not cut short resolves to itself. */
  lemma ResolutionIdempotent(snapshot: Snapshot, limit: Limit, pid: uint32)
    requires KnownToRoot(snapshot, limit, pid) && !CutBelowFamily(snapshot, limit, pid)
    ensures var root := ResolveWithin(snapshot, limit, pid).rootPid;
            && KnownToRoot(snapshot, limit, root) && !CutBelowFamily(snapshot, limit, root)
            && ResolveWithin(snapshot, limit, root) == ResolveWithin(snapshot, limit, pid)
  {
    RootIsOnTheWay(snapshot, limit, pid);
    SettledOnTheWay(snapshot, limit, pid, RootDepth(snapshot, limit, pid));
  }

  /** `upper` lies on the unbroken line of ancestors of `lower`'s application
      that starts at `lower`. */
  ghost predicate LiesAbove(snapshot: Snapshot, limit: Limit, lower: uint32, upper: uint32) {
    exists k :: IsAbove(snapshot, AncestorChain(snapshot, limit, lower), k, upper)
  }

  predicate IsAbove(snapshot: Snapshot, line: seq<uint32>, k: nat, upper: uint32) {
    && k < |line| && line[k] == upper
    && forall j :: 1 <= j <= k ==> SameApplication(snapshot)(line[0], line[j])
  }

  /** Two application roots are never connected by an unbroken line of ancestors
      that belong to the lower one's application. */
  lemma RootsAreNotNested(snapshot: Snapshot, limit: Limit, a: uint32, b: uint32)
    requires KnownToRoot(snapshot, limit, a) && !CutBelowFamily(snapshot, limit, a)
    requires KnownToRoot(snapshot, limit, b) && !CutBelowFamily(snapshot, limit, b)
    requires LiesAbove(snapshot, limit, ResolveWithin(snapshot, limit, a).rootPid,
                       ResolveWithin(snapshot, limit, b).rootPid)
    ensures ResolveWithin(snapshot, limit, a) == ResolveWithin(snapshot, limit, b)
  {
    ResolutionIdempotent(snapshot, limit, a);
    ResolutionIdempotent(snapshot, limit, b);
    var lower := ResolveWithin(snapshot, limit, a).rootPid;
    var line := AncestorChain(snapshot, limit, lower);
    var k :| IsAbove(snapshot, line, k, ResolveWithin(snapshot, limit, b).rootPid);
    AncestorChainIsLine(snapshot, limit, lower);
    RunIsRootIndex(snapshot, line, RootDepth(snapshot, limit, lower));
    SettledOnTheWay(snapshot, limit, lower, k);
  }

  // ---- A cut walk ----

  /** The processes of the line are `a` and `b` in turns. */
  predicate Alternates(line: seq<uint32>, a: uint32, b: uint32) {
    forall i :: 0 <= i < |line| ==> line[i] == if i % 2 == 0 then a else b
  }

  lemma {:induction false} CycleChain(snapshot: Snapshot, a: uint32, b: uint32, budget: nat)
    requires a != 0 && b != 0 && ParentOf(snapshot, a) == b && ParentOf(snapshot, b) == a
    ensures |Chain(snapshot.parents, a, budget)| == budget && Alternates(Chain(snapshot.parents, a, budget), a, b)
    decreases budget
  {
    if budget > 0 {
      CycleChain(snapshot, b, a, budget - 1);
      AlternatesMore(Chain(snapshot.parents, b, budget - 1), a, b);
    }
  }

  lemma AlternatesMore(line: seq<uint32>, a: uint32, b: uint32)
    requires Alternates(line, b, a)
    ensures Alternates([a] + line, a, b)
  {
  }

  lemma CycleClimbsToTop(sees: Relation, line: seq<uint32>, a: uint32, b: uint32)
    requires Alternates(line, a, b) && line != [] && |line| % 2 == 0 && sees(a, b) && sees(a, a)
    ensures EndsAt(sees, line, |line| - 1) && line[|line| - 1] == b && line[0] == a
  {
    forall j | 1 <= j <= |line| - 1 ensures sees(line[0], line[j]) {
      assert line[j] == a || line[j] == b;
    }
  }

  lemma CycleRoot(snapshot: Snapshot, limit: Limit, a: uint32, b: uint32)
    requires a != 0 && b != 0 && a != b && ParentOf(snapshot, a) == b && ParentOf(snapshot, b) == a
    requires limit % 2 == 0 && SameApplication(snapshot)(a, b) && SameApplication(snapshot)(a, a)
    ensures ResolveWithin(snapshot, limit, a).rootPid == b && CutBelowFamily(snapshot, limit, a)
  {
    CycleLineIsCut(snapshot, limit, a, b);
    CutAtRoot(snapshot, limit, AncestorChain(snapshot, limit, a), limit - 1);
  }

  lemma CycleLineIsCut(snapshot: Snapshot, limit: Limit, a: uint32, b: uint32)
    requires a != 0 && b != 0 && a != b && ParentOf(snapshot, a) == b && ParentOf(snapshot, b) == a
    requires limit % 2 == 0 && SameApplication(snapshot)(a, b) && SameApplication(snapshot)(a, a)
    ensures var line := AncestorChain(snapshot, limit, a);
            && EndsAt(SameApplication(snapshot), line, limit - 1) && line[limit - 1] == b
            && CutAt(snapshot, limit, SameApplication(snapshot), line, limit - 1)
  {
    CycleChain(snapshot, a, b, limit);
    CycleIsCut(snapshot, limit, SameApplication(snapshot), AncestorChain(snapshot, limit, a), a, b);
  }

  lemma SeesAsQualified(snapshot: Snapshot, a: uint32, b: uint32)
    ensures SameApplication(snapshot)(a, b) <==> QualifiesFor(snapshot, a, b)
  {
  }

  lemma CutAtRoot(snapshot: Snapshot, limit: Limit, line: seq<uint32>, r: nat)
    requires EndsAt(SameApplication(snapshot), line, r) && CutAt(snapshot, limit, SameApplication(snapshot), line, r)
    ensures TreeOf(DescribeAll(snapshot, line)).rootPid == line[r]
    ensures CutAt(snapshot, limit, SameApplication(snapshot), line, RootIndex(DescribeAll(snapshot, line)))
  {
    RootIsWhereRunEnds(snapshot, line, r);
  }

  lemma CycleIsCut(snapshot: Snapshot, limit: Limit, sees: Relation, line: seq<uint32>, a: uint32, b: uint32)
    requires a != 0 && a != b && ParentOf(snapshot, b) == a && Alternates(line, a, b)
    requires |line| == limit && limit % 2 == 0 && sees(a, b) && sees(a, a)
    ensures EndsAt(sees, line, limit - 1) && line[limit - 1] == b && CutAt(snapshot, limit, sees, line, limit - 1)
  {
    CycleClimbsToTop(sees, line, a, b);
  }

  lemma FamilyIsMutual(x: ProcessInfo, y: ProcessInfo)
    requires Qualifies(x, y) && Qualifies(x, x)
    ensures Qualifies(y, x) && Qualifies(y, y)
  {
    IEqualsIsEqualityOfLower(x.path, y.path);
    IEqualsIsEqualityOfLower(y.path, x.path);
    IEqualsIsEqualityOfLower(x.name, y.name);
    IEqualsIsEqualityOfLower(y.name, x.name);
  }

  /** What process identifiers reused in a circle lead to: of two processes of
      one executable, each other's parents, each is the root of the other, and
      both walks are cut. */
  lemma ParentCycleSwapsRoots(snapshot: Snapshot, limit: Limit, a: uint32, b: uint32)
    requires a != 0 && b != 0 && a != b && ParentOf(snapshot, a) == b && ParentOf(snapshot, b) == a
    requires limit % 2 == 0 && QualifiesFor(snapshot, a, b) && QualifiesFor(snapshot, a, a)
    ensures ResolveWithin(snapshot, limit, a).rootPid == b && CutBelowFamily(snapshot, limit, a)
    ensures ResolveWithin(snapshot, limit, b).rootPid == a && CutBelowFamily(snapshot, limit, b)
  {
    FamilyIsMutual(Describe(snapshot, a), Describe(snapshot, b));
    SeesAsQualified(snapshot, a, b);
    SeesAsQualified(snapshot, a, a);
    SeesAsQualified(snapshot, b, a);
    SeesAsQualified(snapshot, b, b);
    CycleRoot(snapshot, limit, a, b);
    CycleRoot(snapshot, limit, b, a);
  }

  function CycleSnapshot(): Snapshot {
    Snapshot(map[1 := 2, 2 := 1], _ => ProcessDetails("a.exe", "a.exe", 1))
  }

  lemma PlainName(name: string)
    requires name != "" && '\\' !in name && '/' !in name
    ensures Basename(name) == name
  {
    assert name[PastLast(name, '/')..] == name;
  }

  /** The circle exists, with all paths known: the walk is cut, and stability fails. */
  lemma CycleIsUnstable(limit: Limit)
    requires limit % 2 == 0
    ensures KnownToRoot(CycleSnapshot(), limit, 1) && CutBelowFamily(CycleSnapshot(), limit, 1)
    ensures ResolveWithin(CycleSnapshot(), limit, 1).rootPid == 2
    ensures ResolveWithin(CycleSnapshot(), limit, 2).rootPid == 1
  {
    CycleIsOneFamily();
    ParentCycleSwapsRoots(CycleSnapshot(), limit, 1, 2);
    CycleIsKnown(limit);
  }

  lemma CycleIsOneFamily()
    ensures QualifiesFor(CycleSnapshot(), 1, 2) && QualifiesFor(CycleSnapshot(), 1, 1)
  {
    PlainName("a.exe");
    assert |ToLower("a.exe")| == 5;
  }

  lemma CycleIsKnown(limit: Limit)
    ensures KnownToRoot(CycleSnapshot(), limit, 1)
  {
    var line := AncestorChain(CycleSnapshot(), limit, 1);
    AncestorChainIsLine(CycleSnapshot(), limit, 1);
    RunEnds(CycleSnapshot(), line);
    assert forall p :: Describe(CycleSnapshot(), p).path == "a.exe";
  }

  lemma RunEnds(snapshot: Snapshot, line: seq<uint32>)
    requires line != []
    ensures EndsAt(SameApplication(snapshot), line, RootIndex(DescribeAll(snapshot, line)))
  {
    RootIsWhereRunEnds(snapshot, line, RootIndex(DescribeAll(snapshot, line)));
  }

  function DesktopSnapshot(): Snapshot {
    Snapshot(map[3 := 2, 2 := 1], pid =>
      if pid == 3 then ProcessDetails("app.exe", "app.exe", 7)
      else if pid == 2 then ProcessDetails("shell.exe", "shell.exe", 5)
      else ProcessDetails("", "", 0))
  }

  /** An ordinary line, from an application over the shell to a process that has
      exited, is settled: nothing is asked of what lies above the root. */
  lemma ExitedAncestorsDoNotMatter(limit: Limit)
    requires limit >= 2
    ensures KnownToRoot(DesktopSnapshot(), limit, 3) && !CutBelowFamily(DesktopSnapshot(), limit, 3)
    ensures ResolveWithin(DesktopSnapshot(), limit, 3).rootPid == 3
  {
    var s := DesktopSnapshot();
    var line := AncestorChain(s, limit, 3);
    AncestorChainIsLine(s, limit, 3);
    assert LinkAt(s, limit, line, 0);
    ShellDoesNotQualify();
    RootIsWhereRunEnds(s, line, 0);
  }

  lemma ShellDoesNotQualify()
    ensures !QualifiesFor(DesktopSnapshot(), 3, 2)
    ensures Describe(DesktopSnapshot(), 3).path != "" && Describe(DesktopSnapshot(), 2).path != ""
  {
    assert |Describe(DesktopSnapshot(), 3).path| != |Describe(DesktopSnapshot(), 2).path|;
  }

  // ---- With the helper's limit of 256 ----

  /** On every snapshot, when the paths up to the root are known. */
  lemma RootStability(snapshot: Snapshot, pid: uint32, i: nat)
    requires KnownToRoot(snapshot, MAX_CHAIN_LENGTH, pid) && !CutBelowFamily(snapshot, MAX_CHAIN_LENGTH, pid)
    requires i <= RootDepth(snapshot, MAX_CHAIN_LENGTH, pid)
    ensures i < |AncestorChain(snapshot, MAX_CHAIN_LENGTH, pid)|
    ensures ResolveProcessTree(snapshot, AncestorChain(snapshot, MAX_CHAIN_LENGTH, pid)[i]) ==
            ResolveProcessTree(snapshot, pid)
  {
    SettledOnTheWay(snapshot, MAX_CHAIN_LENGTH, pid, i);
  }
}
