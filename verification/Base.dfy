/** Integer widths, identities and a few facts about sequences that every part
    of the audio helper model shares. */
module Base {
  const UINT32_SIZE: int := 0x1_0000_0000
  const UINT64_SIZE: int := 0x1_0000_0000_0000_0000

  /** Hard limit on concurrent capture sources, shared by planner and mixer. */
  const MAX_SOURCES: nat := 32

  type uint32 = n: int | 0 <= n < UINT32_SIZE
  type uint64 = n: int | 0 <= n < UINT64_SIZE

  /** Clock readings are in nanoseconds; durations compare in whole milliseconds,
      truncated toward zero as a duration cast does. */
  const NS_PER_MS: int := 1_000_000

  function WholeMs(ns: int): (ms: int)
    ensures ns >= 0 ==> 1_000_000 * ms <= ns < 1_000_000 * (ms + 1)
    ensures ns < 0 ==> 1_000_000 * (ms - 1) < ns <= 1_000_000 * ms
  {
    if ns >= 0 then ns / NS_PER_MS else -(-ns / NS_PER_MS)
  }

  datatype Option<+T> = None | Some(value: T)

  /** A process, identified by PID and creation time because PIDs are reused. */
  datatype ProcessIdentity = ProcessIdentity(pid: uint32, creationTime: uint64) {
    predicate IsValid() {
      pid != 0 && creationTime != 0
    }
  }

  ghost predicate Distinct<T>(s: seq<T>) {
    forall i, j :: 0 <= i < j < |s| ==> s[i] != s[j]
  }

  ghost function Elements<T>(s: seq<T>): set<T> {
    set x | x in s
  }

  lemma DistinctSize<T>(s: seq<T>)
    requires Distinct(s)
    ensures |Elements(s)| == |s|
  {
    if s == [] {
      assert Elements(s) == {};
    } else {
      var n := |s| - 1;
      DistinctSize(s[..n]);
      assert Elements(s) == Elements(s[..n]) + {s[n]};
    }
  }

  lemma MulAtLeast(k: int, d: int)
    requires d > 0 && k >= 1
    ensures k * d >= d
  {
  }

  /** Quotient and remainder are the only way to write x as q * d + r. */
  lemma DivModUnique(x: int, q: int, r: int, d: int)
    requires 0 <= r < d && x == q * d + r
    ensures x / d == q && x % d == r
  {
    QuotientNoLess(x, q, r, x / d, x % d, d);
    QuotientNoLess(x, x / d, x % d, q, r, d);
  }

  lemma QuotientNoLess(x: int, q: int, r: int, q': int, r': int, d: int)
    requires 0 <= r < d && 0 <= r' < d && x == q * d + r == q' * d + r'
    ensures q <= q'
  {
    if q > q' {
      MulAtLeast(q - q', d);
    }
  }
}
