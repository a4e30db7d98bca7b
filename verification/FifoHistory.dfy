/** Accounting for a drop-oldest queue: what became of everything that entered. */
module FifoHistory {

  datatype Fate = Taken | Dropped | Cleared

  /** The queue holds exactly the elements whose fate is still open: a suffix. */
  ghost predicate Accounts<T>(entered: seq<T>, fates: seq<Fate>, queue: seq<T>) {
    |fates| <= |entered| && queue == entered[|fates|..]
  }

  ghost function CountFate(fates: seq<Fate>, fate: Fate): nat {
    if fates == [] then 0
    else CountFate(fates[..|fates| - 1], fate) + if fates[|fates| - 1] == fate then 1 else 0
  }

  /** Everything handed to the consumer, in the order it was handed over. */
  ghost function TakenFrom<T>(entered: seq<T>, fates: seq<Fate>): seq<T>
    requires |fates| <= |entered|
  {
    if fates == [] then []
    else
      var n := |fates| - 1;
      TakenFrom(entered, fates[..n]) + if fates[n] == Taken then [entered[n]] else []
  }

  ghost function Repeat(fate: Fate, k: nat): (r: seq<Fate>)
    ensures |r| == k
  {
    seq(k, _ => fate)
  }

  /** `sub` is what remains of `all` at strictly increasing positions. */
  ghost predicate Embeds<T>(sub: seq<T>, all: seq<T>, at: seq<nat>) {
    && |at| == |sub|
    && (forall i :: 0 <= i < |at| ==> at[i] < |all| && all[at[i]] == sub[i])
    && (forall i, j :: 0 <= i < j < |at| ==> at[i] < at[j])
  }

  lemma {:induction false} AppendFate<T>(entered: seq<T>, fates: seq<Fate>, fate: Fate)
    requires |fates| < |entered|
    ensures TakenFrom(entered, fates + [fate]) ==
            TakenFrom(entered, fates) + if fate == Taken then [entered[|fates|]] else []
    ensures forall f :: CountFate(fates + [fate], f) == CountFate(fates, f) + if f == fate then 1 else 0
  {
    assert (fates + [fate])[..|fates|] == fates;
  }

  lemma {:induction false} AppendFates<T>(entered: seq<T>, fates: seq<Fate>, fate: Fate, k: nat)
    requires |fates| + k <= |entered| && fate != Taken
    ensures TakenFrom(entered, fates + Repeat(fate, k)) == TakenFrom(entered, fates)
    ensures forall f :: CountFate(fates + Repeat(fate, k), f) == CountFate(fates, f) + if f == fate then k else 0
  {
    if k == 0 {
      assert fates + Repeat(fate, 0) == fates;
    } else {
      AppendFates(entered, fates, fate, k - 1);
      AppendFate(entered, fates + Repeat(fate, k - 1), fate);
      assert fates + Repeat(fate, k) == fates + Repeat(fate, k - 1) + [fate];
    }
  }

  lemma RepeatNext(fates: seq<Fate>, fate: Fate, k: nat)
    ensures fates + Repeat(fate, k) + [fate] == fates + Repeat(fate, k + 1)
  {
  }

  lemma RepeatMore(fates: seq<Fate>, fate: Fate, k: nat, n: nat)
    requires k <= n
    ensures fates + Repeat(fate, k) + Repeat(fate, n - k) == fates + Repeat(fate, n)
  {
  }

  lemma ArrivalAccounts<T>(entered: seq<T>, fates: seq<Fate>, queue: seq<T>, x: T)
    requires Accounts(entered, fates, queue)
    ensures Accounts(entered + [x], fates, queue + [x])
  {
  }

  /** A new arrival changes nothing about what was taken. */
  lemma {:induction false} ArrivalKeepsTaken<T>(entered: seq<T>, fates: seq<Fate>, x: T)
    requires |fates| <= |entered|
    ensures TakenFrom(entered + [x], fates) == TakenFrom(entered, fates)
  {
    if fates != [] {
      ArrivalKeepsTaken(entered, fates[..|fates| - 1], x);
    }
  }

  /** Nothing is lost from the books: entered = taken + dropped + cleared + queued. */
  lemma {:induction false} Conservation<T>(entered: seq<T>, fates: seq<Fate>, queue: seq<T>)
    requires Accounts(entered, fates, queue)
    ensures |entered| ==
            |TakenFrom(entered, fates)| + CountFate(fates, Dropped) + CountFate(fates, Cleared) + |queue|
  {
    if fates != [] {
      var n := |fates| - 1;
      Conservation(entered, fates[..n], entered[n..]);
    }
  }

  /** The consumer sees an in-order subsequence of the arrivals. */
  lemma {:induction false} TakenIsSubsequence<T>(entered: seq<T>, fates: seq<Fate>) returns (at: seq<nat>)
    requires |fates| <= |entered|
    ensures Embeds(TakenFrom(entered, fates), entered[..|fates|], at)
  {
    if fates == [] {
      at := [];
    } else {
      var n := |fates| - 1;
      var front := TakenIsSubsequence(entered, fates[..n]);
      at := if fates[n] == Taken then front + [n] else front;
      EmbedNext(TakenFrom(entered, fates[..n]), entered, front, n);
    }
  }

  lemma EmbedNext<T>(sub: seq<T>, all: seq<T>, at: seq<nat>, n: nat)
    requires n < |all| && Embeds(sub, all[..n], at)
    ensures Embeds(sub, all[..n + 1], at)
    ensures Embeds(sub + [all[n]], all[..n + 1], at + [n])
  {
  }
}
