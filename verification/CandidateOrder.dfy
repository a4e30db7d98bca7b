/** The total order in which capture candidates are ranked, and sorting by it. */
module CandidateOrder {
  import opened Base
  import opened Text

  datatype Candidate = Candidate(
    identity: ProcessIdentity,
    sessionPid: uint32,
    executableName: string,
    executablePath: string,
    rootExecutableName: string,
    rootExecutablePath: string,
    activeSession: bool)

  /** Everything the ranking looks at. */
  datatype RankKey = RankKey(active: bool, name: string, identity: ProcessIdentity)

  function KeyOf(c: Candidate): RankKey {
    RankKey(c.activeSession, ToLower(c.rootExecutableName), c.identity)
  }

  function KeysOf(s: seq<Candidate>): (r: seq<RankKey>)
    ensures |r| == |s|
  {
    seq(|s|, i requires 0 <= i < |s| => KeyOf(s[i]))
  }

  predicate StringLess(a: string, b: string) {
    b != [] && (a == [] || a[0] < b[0] || (a[0] == b[0] && StringLess(a[1..], b[1..])))
  }

  predicate IdentityLess(a: ProcessIdentity, b: ProcessIdentity) {
    a.pid < b.pid || (a.pid == b.pid && a.creationTime < b.creationTime)
  }

  /** Active first, then lower-case root name, then PID, then creation time. */
  predicate Before(a: RankKey, b: RankKey) {
    if a.active != b.active then a.active
    else if a.name != b.name then StringLess(a.name, b.name)
    else IdentityLess(a.identity, b.identity)
  }

  lemma {:induction false} StringLessTotal(a: string, b: string)
    ensures !StringLess(a, a)
    ensures a == b || StringLess(a, b) || StringLess(b, a)
    ensures !(StringLess(a, b) && StringLess(b, a))
  {
    if a != [] {
      StringLessTotal(a[1..], if b != [] then b[1..] else b);
    }
    if a != [] && b != [] && a[0] == b[0] && a[1..] == b[1..] {
      assert a == [a[0]] + a[1..] == [b[0]] + b[1..] == b;
    }
  }

  lemma {:induction false} StringLessTransitive(a: string, b: string, c: string)
    requires StringLess(a, b) && StringLess(b, c)
    ensures StringLess(a, c)
  {
    if a != [] && a[0] == b[0] && b[0] == c[0] {
      StringLessTransitive(a[1..], b[1..], c[1..]);
    }
  }

  /** Alphabetical order: a smaller character at the first difference, or a
      proper prefix. */
  ghost predicate AlphabeticallyBefore(a: string, b: string) {
    || (exists k :: 0 <= k < |a| && k < |b| && a[..k] == b[..k] && a[k] < b[k])
    || (|a| < |b| && a == b[..|a|])
  }

  lemma {:induction false} StringLessIsAlphabetical(a: string, b: string)
    ensures StringLess(a, b) <==> AlphabeticallyBefore(a, b)
  {
    if a != [] && b != [] && a[0] == b[0] {
      StringLessIsAlphabetical(a[1..], b[1..]);
      AlphabeticallyBeforeTail(a, b);
    } else if a != [] && b != [] && a[0] < b[0] {
      assert a[..0] == b[..0];
    } else if a == [] && b != [] {
      assert b[..0] == a;
    } else {
      NotAlphabeticallyBefore(a, b);
    }
  }

  lemma SameFirst(a: string, b: string, k: nat)
    requires 0 < k <= |a| && k <= |b| && a[..k] == b[..k]
    ensures a[0] == b[0]
  {
    assert a[..k][0] == a[0] && b[..k][0] == b[0];
  }

  lemma NotAlphabeticallyBefore(a: string, b: string)
    requires b == [] || (a != [] && a[0] > b[0])
    ensures !AlphabeticallyBefore(a, b)
  {
    forall k | 0 <= k < |a| && k < |b| && a[..k] == b[..k] ensures a[k] >= b[k] {
      if k > 0 {
        SameFirst(a, b, k);
      }
    }
    if a != [] && b != [] {
      assert a[0] != b[0];
      assert |a| < |b| ==> b[..|a|][0] == b[0];
    }
  }

  lemma AlphabeticallyBeforeTail(a: string, b: string)
    requires a != [] && b != [] && a[0] == b[0]
    ensures AlphabeticallyBefore(a, b) <==> AlphabeticallyBefore(a[1..], b[1..])
  {
    var x, y := a[1..], b[1..];
    forall k | 0 <= k < |x| && k < |y| && x[..k] == y[..k] && x[k] < y[k]
      ensures a[..k + 1] == b[..k + 1] && a[k + 1] < b[k + 1]
    {
      assert a[..k + 1] == [a[0]] + x[..k] && b[..k + 1] == [b[0]] + y[..k];
    }
    forall k | 0 <= k < |a| && k < |b| && a[..k] == b[..k] && a[k] < b[k]
      ensures k > 0 && x[..k - 1] == y[..k - 1] && x[k - 1] < y[k - 1]
    {
      assert x[..k - 1] == a[..k][1..] && y[..k - 1] == b[..k][1..];
    }
    if |a| < |b| {
      PrefixTail(a, b);
    }
  }

  lemma PrefixTail(a: string, b: string)
    requires 0 < |a| < |b| && a[0] == b[0]
    ensures a == b[..|a|] <==> a[1..] == b[1..][..|a| - 1]
  {
    var x, y := a[1..], b[1..];
    assert b[..|a|] == [b[0]] + y[..|x|] && a == [a[0]] + x;
    assert a == b[..|a|] ==> x == a[1..] == b[..|a|][1..] == y[..|x|];
  }

  /** What the rank order is, in terms of what it looks at. */
  lemma BeforeMeans(a: RankKey, b: RankKey)
    requires Before(a, b)
    ensures b.active ==> a.active
    ensures a.active == b.active ==> a.name == b.name || AlphabeticallyBefore(a.name, b.name)
    ensures a.active == b.active && a.name == b.name ==>
              a.identity.pid < b.identity.pid
              || (a.identity.pid == b.identity.pid && a.identity.creationTime < b.identity.creationTime)
  {
    StringLessIsAlphabetical(a.name, b.name);
  }

  lemma BeforeTotal(a: RankKey, b: RankKey)
    ensures !Before(a, a)
    ensures a == b || Before(a, b) || Before(b, a)
    ensures !(Before(a, b) && Before(b, a))
  {
    StringLessTotal(a.name, b.name);
  }

  lemma BeforeTransitive(a: RankKey, b: RankKey, c: RankKey)
    requires Before(a, b) && Before(b, c)
    ensures Before(a, c)
  {
    StringLessTotal(a.name, b.name);
    StringLessTotal(b.name, c.name);
    StringLessTotal(a.name, c.name);
    if StringLess(a.name, b.name) && StringLess(b.name, c.name) {
      StringLessTransitive(a.name, b.name, c.name);
    }
  }

  ghost predicate Ranked(keys: seq<RankKey>) {
    forall i, j :: 0 <= i < j < |keys| ==> Before(keys[i], keys[j])
  }

  /** A ranked sequence is determined by the set of its keys. */
  lemma {:induction false} RankedUnique(a: seq<RankKey>, b: seq<RankKey>)
    requires Ranked(a) && Ranked(b) && Elements(a) == Elements(b)
    ensures a == b
  {
    SameEmptiness(a, b);
    if a != [] {
      FirstIsLeast(a, b);
      FirstIsLeast(b, a);
      BeforeTotal(a[0], b[0]);
      TailElements(a);
      TailElements(b);
      RankedUnique(a[1..], b[1..]);
      assert a == [a[0]] + a[1..] == [b[0]] + b[1..] == b;
    }
  }

  lemma SameEmptiness<T>(a: seq<T>, b: seq<T>)
    requires Elements(a) == Elements(b)
    ensures a == [] <==> b == []
  {
    if a != [] {
      assert a[0] in Elements(b);
    }
    if b != [] {
      assert b[0] in Elements(a);
    }
  }

  lemma FirstIsLeast(a: seq<RankKey>, b: seq<RankKey>)
    requires Ranked(a) && a != [] && b != [] && Elements(a) == Elements(b)
    ensures a[0] == b[0] || Before(a[0], b[0])
  {
    assert b[0] in Elements(a);
  }

  lemma TailElements(a: seq<RankKey>)
    requires Ranked(a) && a != []
    ensures Ranked(a[1..]) && Elements(a[1..]) == Elements(a) - {a[0]}
  {
    forall x | x in a[1..] ensures x != a[0] {
      BeforeTotal(a[0], x);
    }
  }

  /** Insertion into a ranked sequence, and the sort built from it. */
  function Insert(c: Candidate, s: seq<Candidate>): seq<Candidate> {
    if s == [] || Before(KeyOf(c), KeyOf(s[0])) then [c] + s else [s[0]] + Insert(c, s[1..])
  }

  function SortByRank(s: seq<Candidate>): seq<Candidate> {
    if s == [] then [] else Insert(s[0], SortByRank(s[1..]))
  }

  ghost function Identities(s: seq<Candidate>): set<ProcessIdentity> {
    set c | c in s :: c.identity
  }

  ghost predicate DistinctIdentities(s: seq<Candidate>) {
    forall i, j :: 0 <= i < j < |s| ==> s[i].identity != s[j].identity
  }

  lemma IdentitiesPush(cs: seq<Candidate>, m: nat)
    requires m < |cs|
    ensures Identities(cs[..m + 1]) == Identities(cs[..m]) + {cs[m].identity}
  {
    assert cs[..m + 1] == cs[..m] + [cs[m]];
  }

  lemma {:induction false} InsertKeeps(c: Candidate, s: seq<Candidate>)
    ensures |Insert(c, s)| == |s| + 1
    ensures Elements(Insert(c, s)) == Elements(s) + {c}
  {
    if s == [] || Before(KeyOf(c), KeyOf(s[0])) {
      assert Elements([c] + s) == Elements(s) + {c};
    } else {
      InsertKeeps(c, s[1..]);
      assert s == [s[0]] + s[1..];
      assert Elements([s[0]] + Insert(c, s[1..])) == {s[0]} + Elements(Insert(c, s[1..]));
    }
  }

  lemma PutFirstRanks(c: Candidate, s: seq<Candidate>)
    requires Ranked(KeysOf(s)) && (s != [] ==> Before(KeyOf(c), KeyOf(s[0])))
    ensures Ranked(KeysOf([c] + s))
  {
    forall k | 0 <= k < |s| ensures Before(KeyOf(c), KeyOf(s[k])) {
      assert KeysOf(s)[0] == KeyOf(s[0]) && KeysOf(s)[k] == KeyOf(s[k]);
      if k > 0 {
        BeforeTransitive(KeyOf(c), KeyOf(s[0]), KeyOf(s[k]));
      }
    }
    assert KeysOf([c] + s) == [KeyOf(c)] + KeysOf(s);
  }

  /** The least of a ranked sequence ranks before whatever the rest turns into. */
  lemma KeepFirstRanks(s: seq<Candidate>, c: Candidate, rest: seq<Candidate>)
    requires s != [] && Ranked(KeysOf(s)) && Ranked(KeysOf(rest))
    requires Before(KeyOf(s[0]), KeyOf(c))
    requires Elements(rest) == Elements(s[1..]) + {c}
    ensures Ranked(KeysOf([s[0]] + rest))
  {
    forall k | 0 <= k < |rest| ensures Before(KeyOf(s[0]), KeyOf(rest[k])) {
      assert rest[k] in Elements(rest);
      if rest[k] in s[1..] {
        var j :| 1 <= j < |s| && s[j] == rest[k];
        assert KeysOf(s)[0] == KeyOf(s[0]) && KeysOf(s)[j] == KeyOf(s[j]);
      }
    }
    assert KeysOf([s[0]] + rest) == [KeyOf(s[0])] + KeysOf(rest);
  }

  lemma {:induction false} InsertRanks(c: Candidate, s: seq<Candidate>)
    requires Ranked(KeysOf(s)) && c.identity !in Identities(s)
    ensures Ranked(KeysOf(Insert(c, s)))
  {
    if s == [] || Before(KeyOf(c), KeyOf(s[0])) {
      PutFirstRanks(c, s);
    } else {
      assert KeysOf(s[1..]) == KeysOf(s)[1..];
      InsertRanks(c, s[1..]);
      InsertKeeps(c, s[1..]);
      BeforeTotal(KeyOf(c), KeyOf(s[0]));
      assert s[0].identity in Identities(s);
      KeepFirstRanks(s, c, Insert(c, s[1..]));
    }
  }

  lemma {:induction false} SortRanks(s: seq<Candidate>)
    requires DistinctIdentities(s)
    ensures Ranked(KeysOf(SortByRank(s)))
    ensures Elements(SortByRank(s)) == Elements(s)
    ensures |SortByRank(s)| == |s|
  {
    if s != [] {
      SortRanks(s[1..]);
      InsertKeeps(s[0], SortByRank(s[1..]));
      assert s == [s[0]] + s[1..];
      assert s[0].identity !in Identities(SortByRank(s[1..])) by {
        forall c | c in SortByRank(s[1..]) ensures c.identity != s[0].identity {
          assert c in Elements(SortByRank(s[1..]));
        }
      }
      InsertRanks(s[0], SortByRank(s[1..]));
    }
  }

  lemma RankedKeysDistinctIdentities(s: seq<Candidate>)
    requires DistinctIdentities(s)
    ensures DistinctIdentities(SortByRank(s)) && Identities(SortByRank(s)) == Identities(s)
  {
    SortRanks(s);
    var r := SortByRank(s);
    forall i, j | 0 <= i < j < |r| ensures r[i].identity != r[j].identity {
      assert Before(KeysOf(r)[i], KeysOf(r)[j]);
      BeforeTotal(KeyOf(r[i]), KeyOf(r[i]));
      assert r[i] in Elements(s) && r[j] in Elements(s);
    }
    assert forall c :: c in r <==> c in Elements(s);
  }

  /** Candidates with the same elements sort to the same sequence: the order in
      which a hash map was walked leaves no trace. */
  lemma SortIgnoresOrder(s: seq<Candidate>, t: seq<Candidate>)
    requires DistinctIdentities(s) && DistinctIdentities(t) && Elements(s) == Elements(t)
    ensures SortByRank(s) == SortByRank(t)
  {
    var a, b := SortByRank(s), SortByRank(t);
    SortRanks(s);
    SortRanks(t);
    SameElementsSameKeys(a, b);
    RankedUnique(KeysOf(a), KeysOf(b));
    forall i | 0 <= i < |a| ensures a[i] == b[i] {
      assert KeysOf(a)[i] == KeysOf(b)[i];
      assert a[i] in Elements(s) && b[i] in Elements(s);
    }
  }

  lemma SameElementsSameKeys(a: seq<Candidate>, b: seq<Candidate>)
    requires Elements(a) == Elements(b)
    ensures Elements(KeysOf(a)) == Elements(KeysOf(b))
  {
    KeysAreImages(a);
    KeysAreImages(b);
    assert forall c :: c in a <==> c in Elements(a);
    assert forall c :: c in b <==> c in Elements(b);
  }

  lemma KeysAreImages(s: seq<Candidate>)
    ensures Elements(KeysOf(s)) == set c | c in s :: KeyOf(c)
  {
    forall c | c in s ensures KeyOf(c) in KeysOf(s) {
      var i :| 0 <= i < |s| && s[i] == c;
      assert KeysOf(s)[i] == KeyOf(c);
    }
  }
}
