/** Consecutive-failure counting, and the clamped exponential delay it feeds. */
module Streaks {
  import opened Wrappers


  // ---- The delay ----------------------------------------------------------------------------------------------

  const SECOND := 1_000_000_000 // time.Duration counts nanoseconds
  const BACKOFF_CAP := 60 * SECOND
  const WORD := 0x1_0000_0000_0000_0000

  function Pow2(k: nat): nat {
    if k == 0 then 1 else 2 * Pow2(k - 1)
  }

  /** x << k on a signed 64-bit word. */
  function ShiftLeft64(x: nat, k: nat): int {
    var low := (x * Pow2(k)) % WORD;
    if low >= WORD / 2 then low - WORD else low
  }

  /** Both the pane-not-found and the rate-limit delay: the base shifted left once per further failure, with the
      shifts that would leave the word handled separately. */
  function Backoff(consecutive: int): int {
    var shift := if consecutive < 1 then 0 else consecutive - 1;
    if shift >= 63 then BACKOFF_CAP else
    var d := ShiftLeft64(SECOND, shift);
    if d < 0 || d > BACKOFF_CAP then BACKOFF_CAP else d
  }

  lemma {:induction false} Pow2Adds(i: nat, j: nat)
    ensures Pow2(i + j) == Pow2(i) * Pow2(j)
  {
    if j > 0 { Pow2Adds(i, j - 1); }
  }

  lemma {:induction false} Pow2Grows(i: nat, j: nat)
    requires i <= j
    ensures 1 <= Pow2(i) <= Pow2(j)
    decreases j
  {
    if i < j { Pow2Grows(i, j - 1); } else if i > 0 { Pow2Grows(i - 1, i - 1); }
  }

  lemma ModScales(a: nat, b: nat, c: nat)
    requires b > 0 && c > 0
    ensures b * c > 0 && (a * c) % (b * c) == (a % b) * c
  {
    var q, r := a / b, a % b;
    assert a * c == q * (b * c) + r * c by { assert a == q * b + r; }
    assert 0 <= r * c < b * c by {
      assert r + 1 <= b;
      assert (r + 1) * c <= b * c;
    }
    ModUnique(a * c, b * c, q, r * c);
  }

  lemma ModUnique(x: nat, m: nat, q: nat, r: nat)
    requires m > 0 && x == q * m + r && r < m
    ensures x % m == r
  {
    var z := x / m - q;
    assert z * m == r - x % m;
    MultipleIsFar(z, m);
  }

  lemma MultipleIsFar(z: int, m: nat)
    requires m > 0
    ensures z >= 1 ==> z * m >= m
    ensures z <= -1 ==> z * m + m <= 0
  {
  }

  const POW44 := 0x1000_0000_0000

  lemma KnownPowers()
    ensures Pow2(6) == 64 && Pow2(9) == 512 && Pow2(33) == 0x2_0000_0000 && Pow2(44) == POW44 && Pow2(64) == WORD
  {
    assert Pow2(6) == 64;
    assert Pow2(9) == 512;
    assert Pow2(16) == 65536;
    Pow2Adds(16, 16);
    Pow2Adds(1, 32);
    Pow2Adds(16, 28);
    Pow2Adds(12, 16);
    Pow2Adds(32, 32);
  }

  const ODD_PART := 1953125 // 10^9 == 2^9 * 5^9

  lemma ShiftedSecondSplits(k: nat)
    ensures SECOND * Pow2(k) == ODD_PART * Pow2(9 + k)
  {
    KnownPowers();
    Pow2Adds(9, k);
  }

  /** A shift by k < 55 leaves a set bit at position 9 + k of the word. */
  lemma ShiftedSecondInWord(k: nat)
    requires 35 <= k < 55
    ensures POW44 <= (SECOND * Pow2(k)) % WORD
  {
    KnownPowers();
    ShiftedSecondSplits(k);
    var b, c := Pow2(55 - k), Pow2(9 + k);
    Pow2Adds(55 - k, 9 + k);
    Pow2Grows(44, 9 + k);
    OddIsNotDivisible(ODD_PART, 55 - k);
    ModScales(ODD_PART, b, c);
    MultipleIsFar(ODD_PART % b, c);
  }

  lemma ShiftedSecondOutOfWord(k: nat)
    requires 55 <= k
    ensures (SECOND * Pow2(k)) % WORD == 0
  {
    KnownPowers();
    ShiftedSecondSplits(k);
    Pow2Adds(k - 55, 64);
    ModUnique(SECOND * Pow2(k), WORD, ODD_PART * Pow2(k - 55), 0);
  }

  lemma OddIsNotDivisible(x: nat, j: nat)
    requires x % 2 == 1 && j >= 1
    ensures Pow2(j) > 0 && x % Pow2(j) >= 1
  {
    Pow2Grows(0, j);
    var m := Pow2(j - 1);
    assert Pow2(j) == 2 * m;
    var q, r := x / (2 * m), x % (2 * m);
    assert x == 2 * (m * q) + r;
  }

  lemma SmallShift(n: nat)
    requires 1 <= n <= 34
    ensures SECOND * Pow2(n - 1) < WORD / 2
    ensures n <= 6 ==> Pow2(n - 1) <= 32
    ensures n >= 7 ==> Pow2(n - 1) >= 64
  {
    KnownPowers();
    Pow2Grows(0, n - 1);
    Pow2Grows(n - 1, 33);
    if n >= 7 { Pow2Grows(6, n - 1); } else { Pow2Grows(n - 1, 5); assert Pow2(5) == 32; }
  }

  /** The delay is min(2^(n-1) s, 60 s) for every failure count except 56 to 63, where the shifted word is 0 and
      the next attempt follows at once. */
  lemma BackoffExactly(n: int)
    requires n >= 1
    ensures n <= 6 ==> Backoff(n) == Pow2(n - 1) * SECOND
    ensures 7 <= n <= 55 || n >= 64 ==> Backoff(n) == BACKOFF_CAP
    ensures 56 <= n <= 63 <==> Backoff(n) == 0
  {
    hide Pow2;
    if n <= 34 {
      SmallShift(n);
      Pow2Grows(0, n - 1);
    } else if n == 35 {
      KnownPowers();
      Pow2Adds(33, 1);
      Pow2Grows(0, 1);
      Pow2One();
    } else if n <= 55 {
      ShiftedSecondInWord(n - 1);
    } else if n <= 63 {
      ShiftedSecondOutOfWord(n - 1);
    }
  }

  lemma Pow2One()
    ensures Pow2(1) == 2
  {
    assert Pow2(0) == 1;
  }

  lemma BackoffNeverShrinks(m: int, n: int)
    requires 1 <= m <= n <= 55
    ensures SECOND <= Backoff(m) <= Backoff(n)
  {
    BackoffExactly(m);
    BackoffExactly(n);
    Pow2Grows(m - 1, n - 1);
    Pow2Grows(0, m - 1);
    if m <= 6 { Pow2Grows(m - 1, 5); assert Pow2(5) == 32; }
  }

  // ---- The streak ---------------------------------------------------------------------------------------------

  /** One observation that can extend a streak under some key, or break it. */
  datatype Sample<K> = Miss(key: K) | Break

  /** Length of the longest suffix of equal misses. */
  function TrailingRun<K(==)>(h: seq<Sample<K>>): nat {
    if h == [] || h[|h| - 1].Break? then 0
    else if |h| > 1 && h[|h| - 2] == h[|h| - 1] then TrailingRun(h[..|h| - 1]) + 1
    else 1
  }

  /** A threshold of 0 or less never parks. */
  function StreakAfter<K(==)>(h: seq<Sample<K>>, threshold: int): nat {
    if threshold > 0 then TrailingRun(h) % threshold else TrailingRun(h)
  }

  predicate ParksOn<K(==)>(h: seq<Sample<K>>, threshold: int) {
    threshold > 0 && TrailingRun(h) > 0 && TrailingRun(h) % threshold == 0
  }

  /** What the mailman sleeps after the last observation: nothing when it parks or the streak is broken. */
  function PauseAfter<K(==)>(h: seq<Sample<K>>, threshold: int): int {
    if StreakAfter(h, threshold) == 0 then 0 else Backoff(StreakAfter(h, threshold))
  }

  function TotalPause<K(==)>(h: seq<Sample<K>>, from: nat, threshold: int): int
    requires from <= |h|
    decreases |h|
  {
    if from == |h| then 0 else TotalPause(h[..|h| - 1], from, threshold) + PauseAfter(h, threshold)
  }

  function BackoffsUpTo(n: nat): int {
    if n == 0 then 0 else BackoffsUpTo(n - 1) + Backoff(n)
  }

  lemma {:induction false} TrailingRunIsMaximal<K>(h: seq<Sample<K>>)
    ensures var n := TrailingRun(h);
      && n <= |h|
      && (forall i | |h| - n <= i < |h| :: h[i].Miss? && h[i] == h[|h| - 1])
      && (n < |h| ==> h[|h| - n - 1].Break? || (n > 0 && h[|h| - n - 1] != h[|h| - 1]))
  {
    if |h| > 1 { TrailingRunIsMaximal(h[..|h| - 1]); }
  }

  lemma TrailingRunStep<K>(h: seq<Sample<K>>, s: Sample<K>)
    ensures TrailingRun(h + [s]) ==
            if s.Break? then 0 else if h != [] && h[|h| - 1] == s then TrailingRun(h) + 1 else 1
  {
    assert (h + [s])[..|h|] == h;
  }

  /** A counter and its key, as the run they stand for. */
  ghost predicate Counts<K>(h: seq<Sample<K>>, threshold: int, n: nat, key: Option<K>) {
    && n == StreakAfter(h, threshold)
    && (n == 0 ==> key.None?)
    && (n > 0 ==> h != [] && h[|h| - 1].Miss? && key.Some? && key.value == h[|h| - 1].key)
  }

  /** Counting up under the same key, or from one under a new key, and starting over at the threshold. */
  lemma CountMiss<K>(h: seq<Sample<K>>, k: K, threshold: int, n: nat, key: Option<K>)
    requires Counts(h, threshold, n, key)
    ensures var m := if key.Some? && key.value == k then n + 1 else 1; var parks := threshold > 0 && m >= threshold;
      && (threshold > 0 ==> m <= threshold)
      && (ParksOn(h + [Miss(k)], threshold) <==> parks)
      && Counts(h + [Miss(k)], threshold, if parks then 0 else m, if parks then None else Some(k))
      && (threshold <= 0 || !parks ==> m == if threshold > 0 then TrailingRun(h + [Miss(k)]) % threshold else TrailingRun(h + [Miss(k)]))
  {
    hide TrailingRun;
    TrailingRunStep(h, Miss(k));
    TrailingRunIsPositive(h);
    if threshold > 0 {
      ModSucc(TrailingRun(h), threshold);
      ModSucc(0, threshold);
      SmallMod(0, threshold);
    }
  }

  lemma TrailingRunIsPositive<K>(h: seq<Sample<K>>)
    ensures TrailingRun(h) > 0 <==> h != [] && h[|h| - 1].Miss?
  {
  }

  lemma CountBreak<K>(h: seq<Sample<K>>, threshold: int)
    ensures Counts(h + [Break], threshold, 0, None)
  {
    if threshold > 0 { assert 0 % threshold == 0; }
  }

  lemma ModSucc(r: nat, m: nat)
    requires m > 0
    ensures 0 <= r % m < m && (r + 1) % m == if r % m + 1 == m then 0 else r % m + 1
  {
    if r % m + 1 == m {
      assert r + 1 == (r / m + 1) * m;
      ModUnique(r + 1, m, r / m + 1, 0);
    } else {
      ModUnique(r + 1, m, r / m, r % m + 1);
    }
  }

  function Repeat<T>(x: T, n: nat): seq<T> {
    seq(n, _ => x)
  }

  lemma {:induction false} RepeatedMiss<K>(h: seq<Sample<K>>, k: K, n: nat)
    requires h == [] || h[|h| - 1] != Miss(k)
    ensures n > 0 ==> TrailingRun(h + Repeat(Miss(k), n)) == n
  {
    if n > 0 {
      RepeatedMiss(h, k, n - 1);
      assert h + Repeat(Miss(k), n) == (h + Repeat(Miss(k), n - 1)) + [Miss(k)];
      TrailingRunStep(h + Repeat(Miss(k), n - 1), Miss(k));
    }
  }

  lemma SmallMod(n: nat, m: nat)
    requires n <= m && 0 < m
    ensures n % m == if n == m then 0 else n
  {
  }

  lemma FreshRunEndsWith<K>(h: seq<Sample<K>>, k: K, n: nat, threshold: int)
    requires h == [] || h[|h| - 1] != Miss(k)
    requires 0 < n <= threshold
    ensures ParksOn(h + Repeat(Miss(k), n), threshold) <==> n == threshold
    ensures PauseAfter(h + Repeat(Miss(k), n), threshold) == if n == threshold then 0 else Backoff(n)
  {
    RepeatedMiss(h, k, n);
    SmallMod(n, threshold);
  }

  /** A fresh run of one key parks on its threshold-th miss and not before, having slept backoff(1) + … +
      backoff(threshold - 1). */
  lemma {:induction false} FreshRunParksAtThreshold<K>(h: seq<Sample<K>>, k: K, n: nat, threshold: int)
    requires h == [] || h[|h| - 1] != Miss(k)
    requires 0 < n <= threshold
    ensures ParksOn(h + Repeat(Miss(k), n), threshold) <==> n == threshold
    ensures TotalPause(h + Repeat(Miss(k), n), |h|, threshold) == BackoffsUpTo(if n == threshold then n - 1 else n)
  {
    hide Backoff, TrailingRun;
    FreshRunEndsWith(h, k, n, threshold);
    var h' := h + Repeat(Miss(k), n - 1);
    var all := h + Repeat(Miss(k), n);
    assert all[..|all| - 1] == h';
    if n > 1 {
      FreshRunParksAtThreshold(h, k, n - 1, threshold);
    } else {
      assert h' == h;
    }
  }
}
