/** The send-time throttle: per-pool offsets for a fan-out, and the sequential loop that waits for them.

    Times are milliseconds from the start of the send. */
module Fanout {

  const MAX_STAGGER := 10000

  datatype Throttle = Unthrottled | Spaced(threshold: nat, delay: nat)

  function NormPool(provider: string): string {
    if provider == "" then "unknown" else provider
  }

  function ThrottleForPool(pool: string): (t: Throttle)
    ensures t.Spaced? ==> t.threshold >= 1 && t.delay >= 1
  {
    if pool == "ollama" then Unthrottled
    else if pool == "anthropic" then Spaced(5, 400)
    else if pool == "openai" then Spaced(2, 1500)
    else Spaced(1, 1500)
  }

  // ---- Offsets ------------------------------------------------------------------------------------------------

  /** Recipients of pool `p` among the first `n`. */
  function Rank(pools: seq<string>, p: string, n: nat): (r: nat)
    requires n <= |pools|
    ensures r <= n
  {
    if n == 0 then 0 else Rank(pools, p, n - 1) + if NormPool(pools[n - 1]) == p then 1 else 0
  }

  /** The offset of the k-th recipient of a pool, counting from 0. */
  function Stagger(t: Throttle, k: nat): nat {
    if t.Unthrottled? || k < t.threshold then 0
    else
      var off := (k - t.threshold + 1) * t.delay;
      if off > MAX_STAGGER then MAX_STAGGER else off
  }

  function OffsetAt(pools: seq<string>, i: nat): nat
    requires i < |pools|
  {
    var p := NormPool(pools[i]);
    Stagger(ThrottleForPool(p), Rank(pools, p, i))
  }

  method StaggerOffsets(pools: seq<string>) returns (offsets: seq<nat>)
    ensures |offsets| == |pools| && forall i | 0 <= i < |pools| :: offsets[i] == OffsetAt(pools, i)
  {
    hide ThrottleForPool, NormPool;
    var slots := new nat[|pools|](_ => 0);
    var seen: map<string, nat> := map[];
    for i := 0 to |pools|
      invariant forall j | 0 <= j < i :: slots[j] == OffsetAt(pools, j)
      invariant forall j | i <= j < |pools| :: slots[j] == 0
      invariant forall p :: (if p in seen then seen[p] else 0) == Rank(pools, p, i)
    {
      var pool := NormPool(pools[i]);
      var k := if pool in seen then seen[pool] else 0;
      seen := seen[pool := k + 1];
      var t := ThrottleForPool(pool);
      if t.Spaced? {
        var excess := k - t.threshold + 1;
        if excess > 0 {
          var off := excess * t.delay;
          if off > MAX_STAGGER { off := MAX_STAGGER; }
          slots[i] := off;
        }
      }
    }
    offsets := slots[..];
  }

  /** A pool's recipients, in order. */
  function Members(pools: seq<string>, p: string): seq<string> {
    if pools == [] then []
    else
      var n := |pools| - 1;
      Members(pools[..n], p) + if NormPool(pools[n]) == p then [pools[n]] else []
  }

  lemma {:induction false} RankInMembers(pools: seq<string>, p: string, n: nat)
    requires n <= |pools|
    ensures var own := Members(pools, p);
      && Rank(pools, p, n) <= Rank(pools, p, |pools|) == |own|
      && (forall k | 0 <= k < |own| :: NormPool(own[k]) == p)
      && (n < |pools| && NormPool(pools[n]) == p ==> Rank(pools, p, n) < |own| && own[Rank(pools, p, n)] == pools[n])
  {
    hide NormPool;
    if pools != [] {
      var m := |pools| - 1;
      RankInMembers(pools[..m], p, if n <= m then n else m);
      RankOfPrefix(pools, p, m, m);
      if n <= m { RankOfPrefix(pools, p, m, n); }
    }
  }

  lemma {:induction false} RankOfPrefix(pools: seq<string>, p: string, m: nat, n: nat)
    requires n <= m <= |pools|
    ensures Rank(pools[..m], p, n) == Rank(pools, p, n)
  {
    if n > 0 { RankOfPrefix(pools, p, m, n - 1); }
  }

  lemma {:induction false} RankOfPure(pools: seq<string>, p: string, n: nat)
    requires n <= |pools| && forall k | 0 <= k < |pools| :: NormPool(pools[k]) == p
    ensures Rank(pools, p, n) == n
  {
    if n > 0 { RankOfPure(pools, p, n - 1); }
  }

  /** A recipient's offset is the one it has when its own pool is fanned out alone. */
  lemma PoolsAreIndependent(pools: seq<string>, i: nat)
    requires i < |pools|
    ensures var p := NormPool(pools[i]); var own, k := Members(pools, p), Rank(pools, p, i);
      k < |own| && own[k] == pools[i] && OffsetAt(own, k) == OffsetAt(pools, i)
  {
    var p := NormPool(pools[i]);
    RankInMembers(pools, p, i);
    RankOfPure(Members(pools, p), p, Rank(pools, p, i));
  }

  lemma {:induction false} RankGrows(pools: seq<string>, p: string, m: nat, n: nat)
    requires m <= n <= |pools|
    ensures Rank(pools, p, m) <= Rank(pools, p, n)
    ensures m < n && NormPool(pools[m]) == p ==> Rank(pools, p, m) < Rank(pools, p, n)
  {
    if m < n - 1 {
      RankGrows(pools, p, m, n - 1);
    }
  }

  lemma Product(a: int, b: int, d: nat)
    requires a <= b
    ensures a * d <= b * d && b * d - a * d == (b - a) * d
  {
  }

  lemma StaggerGrows(t: Throttle, j: nat, k: nat)
    requires j <= k
    ensures Stagger(t, j) <= Stagger(t, k) <= MAX_STAGGER
  {
    if t.Spaced? && t.threshold <= j { Product(j - t.threshold + 1, k - t.threshold + 1, t.delay); }
  }

  lemma OffsetsGrowInPool(pools: seq<string>, i: nat, j: nat)
    requires i < j < |pools| && NormPool(pools[i]) == NormPool(pools[j])
    ensures OffsetAt(pools, i) <= OffsetAt(pools, j)
  {
    var p := NormPool(pools[i]);
    RankGrows(pools, p, i, j);
    StaggerGrows(ThrottleForPool(p), Rank(pools, p, i), Rank(pools, p, j));
  }

  function Capped(ms: nat): nat {
    if ms < 10000 then ms else 10000
  }

  /** The figures, for a fan-out inside one pool: Anthropic takes five at once and then one every 400 ms, OpenAI two and
      then one every 1.5 s, Ollama any number, and any other provider, or none, one every 1.5 s; nobody waits longer
      than 10 s. */
  lemma OffsetFigures(pools: seq<string>, p: string, i: nat)
    requires i < |pools| && forall k | 0 <= k < |pools| :: pools[k] == p
    ensures OffsetAt(pools, i) ==
      if p == "ollama" then 0
      else if p == "anthropic" then (if i < 5 then 0 else Capped((i - 4) * 400))
      else if p == "openai" then (if i < 2 then 0 else Capped((i - 1) * 1500))
      else Capped(i * 1500)
  {
    RankOfPure(pools, NormPool(p), i);
  }

  /** Recipients without a provider share one pool with those of the provider "unknown". */
  lemma NamelessIsUnknown(pools: seq<string>, named: seq<string>, i: nat)
    requires i < |pools| == |named|
    requires forall k | 0 <= k < |pools| :: named[k] == if pools[k] == "" then "unknown" else pools[k]
    ensures OffsetAt(pools, i) == OffsetAt(named, i)
  {
    SameRank(pools, named, NormPool(pools[i]), i);
  }

  lemma {:induction false} SameRank(pools: seq<string>, named: seq<string>, p: string, n: nat)
    requires n <= |pools| == |named|
    requires forall k | 0 <= k < |pools| :: named[k] == if pools[k] == "" then "unknown" else pools[k]
    ensures Rank(pools, p, n) == Rank(named, p, n)
  {
    if n > 0 { SameRank(pools, named, p, n - 1); }
  }

  function CeilDiv(a: nat, d: nat): nat
    requires d > 0
  {
    (a + d - 1) / d
  }

  lemma CeilDivCovers(a: nat, d: nat)
    requires d > 0
    ensures CeilDiv(a, d) * d >= a
  {
  }

  /** What an interval of length `length` may hold of a pool. */
  function Burst(t: Throttle, length: nat): nat
    requires t.Spaced? && t.threshold >= 1 && t.delay >= 1
  {
    t.threshold - 1 + CeilDiv(length, t.delay)
  }

  /** Members further apart in rank than the burst are further apart in time than the interval. */
  lemma FarRanksAreFarApart(t: Throttle, j: nat, k: nat, length: nat)
    requires t.Spaced? && t.threshold >= 1 && t.delay >= 1 && length > 0
    requires k - j >= Burst(t, length) && Stagger(t, k) < MAX_STAGGER
    ensures Stagger(t, k) - Stagger(t, j) >= length
  {
    var c := CeilDiv(length, t.delay);
    CeilDivCovers(length, t.delay);
    var a, b := if j < t.threshold then 0 else j - t.threshold + 1, k - t.threshold + 1;
    assert b - a >= c;
    assert c >= 1;
    Product(a, b, t.delay);
    Product(c, b - a, t.delay);
  }

  predicate Wakes(pools: seq<string>, times: seq<nat>, p: string, lo: nat, hi: nat, i: nat)
    requires i < |pools| == |times|
  {
    NormPool(pools[i]) == p && lo <= times[i] < hi
  }

  /** How many of pool `p`, among the first `n` recipients, are released in [lo, hi). */
  function WakesIn(pools: seq<string>, times: seq<nat>, p: string, lo: nat, hi: nat, n: nat): nat
    requires n <= |pools| == |times|
  {
    if n == 0 then 0 else WakesIn(pools, times, p, lo, hi, n - 1) + if Wakes(pools, times, p, lo, hi, n - 1) then 1 else 0
  }

  lemma {:induction false} FirstAndLast(pools: seq<string>, times: seq<nat>, p: string, lo: nat, hi: nat, n: nat)
    returns (f: nat, l: nat)
    requires n <= |pools| == |times| && WakesIn(pools, times, p, lo, hi, n) > 0
    ensures f <= l < n && Wakes(pools, times, p, lo, hi, f) && Wakes(pools, times, p, lo, hi, l)
    ensures WakesIn(pools, times, p, lo, hi, n) <= Rank(pools, p, l) - Rank(pools, p, f) + 1
  {
    hide NormPool;
    if WakesIn(pools, times, p, lo, hi, n - 1) == 0 {
      f, l := n - 1, n - 1;
    } else {
      f, l := FirstAndLast(pools, times, p, lo, hi, n - 1);
      if Wakes(pools, times, p, lo, hi, n - 1) {
        RankGrows(pools, p, l, n - 1);
        l := n - 1;
      }
    }
  }

  /** Below the cap, no interval holds more of a throttled pool than its burst, as long as its members are released
      at their offsets. */
  lemma IntervalBound(pools: seq<string>, times: seq<nat>, p: string, lo: nat, length: nat)
    requires |times| == |pools| && length > 0 && lo + length <= MAX_STAGGER && ThrottleForPool(p).Spaced?
    requires forall i | 0 <= i < |pools| && NormPool(pools[i]) == p :: times[i] == OffsetAt(pools, i)
    ensures WakesIn(pools, times, p, lo, lo + length, |pools|) <= Burst(ThrottleForPool(p), length)
  {
    hide Stagger, Burst, CeilDiv, ThrottleForPool;
    if WakesIn(pools, times, p, lo, lo + length, |pools|) > 0 {
      var f, l := FirstAndLast(pools, times, p, lo, lo + length, |pools|);
      RankGrows(pools, p, f, l);
      var t, j, k := ThrottleForPool(p), Rank(pools, p, f), Rank(pools, p, l);
      if k - j >= Burst(t, length) { FarRanksAreFarApart(t, j, k, length); }
    }
  }

  // ---- The fan-out loop -----------------------------------------------------------------------------------------

  /** What inserting one recipient's row came to, and how long it took. */
  datatype Insert =
    | Landed(took: nat)
    | Rejected(took: nat)
    | StoreBroke(took: nat)

  datatype Outcome = Aborted | Done(ok: bool, results: seq<bool>, refund: bool)

  function Max(a: nat, b: nat): nat {
    if a > b then a else b
  }

  /** When the loop comes to recipient `i`. */
  function FreeAt(offsets: seq<nat>, inserts: seq<Insert>, i: nat): nat
    requires i <= |offsets| == |inserts|
    decreases i, 0
  {
    if i == 0 then 0 else ReleaseAt(offsets, inserts, i - 1) + inserts[i - 1].took
  }

  /** Each recipient waits for its offset, and for everyone before it. */
  function ReleaseAt(offsets: seq<nat>, inserts: seq<Insert>, i: nat): nat
    requires i < |offsets| == |inserts|
    decreases i, 1
  {
    Max(offsets[i], FreeAt(offsets, inserts, i))
  }

  function Offsets(pools: seq<string>): (offsets: seq<nat>)
    ensures |offsets| == |pools| && forall i | 0 <= i < |pools| :: offsets[i] == OffsetAt(pools, i)
  {
    seq(|pools|, i requires 0 <= i < |pools| => OffsetAt(pools, i))
  }

  lemma WaitsForBoth(offsets: seq<nat>, inserts: seq<Insert>, i: nat)
    requires i < |offsets| == |inserts|
    ensures ReleaseAt(offsets, inserts, i) == Max(offsets[i], FreeAt(offsets, inserts, i))
    ensures FreeAt(offsets, inserts, i + 1) == ReleaseAt(offsets, inserts, i) + inserts[i].took
  {
  }

  method RunMultiSend(pools: seq<string>, inserts: seq<Insert>, charged: real)
    returns (outcome: Outcome, releases: seq<nat>)
    requires |inserts| == |pools|
    ensures outcome.Aborted? <==> exists i :: 0 <= i < |inserts| && inserts[i].StoreBroke?
    ensures outcome.Done? ==>
      && |releases| == |outcome.results| == |pools|
      && (forall i | 0 <= i < |pools| :: outcome.results[i] <==> inserts[i].Landed?)
      && (outcome.ok <==> forall i | 0 <= i < |pools| :: inserts[i].Landed?)
      && (outcome.refund <==> charged > 0.0 && forall i | 0 <= i < |pools| :: !inserts[i].Landed?)
    ensures outcome.Aborted? ==> 0 < |releases| <= |pools| && inserts[|releases| - 1].StoreBroke?
    ensures forall i | 0 <= i < |releases| - 1 :: !inserts[i].StoreBroke?
    ensures |releases| <= |pools|
    ensures forall i | 0 <= i < |releases| :: releases[i] == ReleaseAt(Offsets(pools), inserts, i)
  {
    hide OffsetAt, ReleaseAt;
    var offsets := StaggerOffsets(pools);
    assert offsets == Offsets(pools);
    var results: seq<bool>, anyFailed, clock := [], false, 0;
    releases := [];
    for i := 0 to |pools|
      invariant |results| == |releases| == i
      invariant forall j | 0 <= j < i :: releases[j] == ReleaseAt(offsets, inserts, j) && !inserts[j].StoreBroke?
      invariant forall j | 0 <= j < i :: results[j] <==> inserts[j].Landed?
      invariant anyFailed <==> exists j :: 0 <= j < i && !inserts[j].Landed?
      invariant clock == FreeAt(offsets, inserts, i)
    {
      WaitsForBoth(offsets, inserts, i);
      if offsets[i] > clock { clock := offsets[i]; }
      releases := releases + [clock];
      clock := clock + inserts[i].took;
      if inserts[i].StoreBroke? { return Aborted, releases; }
      results := results + [inserts[i].Landed?];
      if !inserts[i].Landed? { anyFailed := true; }
    }
    var delivered := 0;
    for i := 0 to |results|
      invariant 0 <= delivered && (delivered == 0 <==> forall j | 0 <= j < i :: !results[j])
    {
      if results[i] { delivered := delivered + 1; }
    }
    outcome := Done(!anyFailed, results, delivered == 0 && charged > 0.0);
  }

  /** Nobody is released before its offset, and with inserts that take no time everybody is released at the largest
      offset so far: the whole fan-out takes as long as its slowest pool alone. */
  lemma {:induction false} ReleasesArePrefixMaxima(offsets: seq<nat>, inserts: seq<Insert>, i: nat)
    requires i < |offsets| == |inserts|
    ensures forall j | 0 <= j <= i :: offsets[j] <= ReleaseAt(offsets, inserts, i)
    ensures (forall j | 0 <= j < i :: inserts[j].took == 0) ==>
            exists j :: 0 <= j <= i && ReleaseAt(offsets, inserts, i) == offsets[j]
  {
    WaitsForBoth(offsets, inserts, i);
    if i > 0 {
      WaitsForBoth(offsets, inserts, i - 1);
      ReleasesArePrefixMaxima(offsets, inserts, i - 1);
      if forall j | 0 <= j < i :: inserts[j].took == 0 {
        assert inserts[i - 1].took == 0;
      }
    }
  }

  predicate OnTime(offsets: seq<nat>, inserts: seq<Insert>, n: nat)
    requires n <= |offsets| == |inserts|
  {
    forall i | 0 <= i < n :: ReleaseAt(offsets, inserts, i) == offsets[i]
  }

  /** Every insert ends before the next recipient's offset. */
  predicate InsertsFit(offsets: seq<nat>, inserts: seq<Insert>, n: nat)
    requires n <= |offsets| == |inserts|
  {
    n <= 1 || (InsertsFit(offsets, inserts, n - 1) && offsets[n - 2] + inserts[n - 2].took <= offsets[n - 1])
  }

  /** Releases are the offsets exactly when the inserts fit between them. */
  lemma {:induction false} ReleasesKeepOffsets(offsets: seq<nat>, inserts: seq<Insert>, n: nat)
    requires n <= |offsets| == |inserts|
    ensures OnTime(offsets, inserts, n) <==> InsertsFit(offsets, inserts, n)
  {
    if n > 0 {
      ReleasesKeepOffsets(offsets, inserts, n - 1);
      WaitsForBoth(offsets, inserts, n - 1);
      if n > 1 { WaitsForBoth(offsets, inserts, n - 2); }
      assert OnTime(offsets, inserts, n) <==>
             OnTime(offsets, inserts, n - 1) && ReleaseAt(offsets, inserts, n - 1) == offsets[n - 1];
    }
  }

  predicate OnePool(pools: seq<string>, p: string) {
    forall i | 0 <= i < |pools| :: NormPool(pools[i]) == p
  }

  predicate Instant(inserts: seq<Insert>) {
    forall i | 0 <= i < |inserts| :: inserts[i].took == 0
  }

  lemma {:induction false} OnePoolFits(pools: seq<string>, p: string, inserts: seq<Insert>, n: nat)
    requires n <= |pools| == |inserts| && OnePool(pools, p) && Instant(inserts)
    ensures InsertsFit(Offsets(pools), inserts, n)
  {
    hide OffsetAt, NormPool;
    if n > 1 {
      OnePoolFits(pools, p, inserts, n - 1);
      OffsetsGrowInPool(pools, n - 2, n - 1);
    }
  }

  /** No interval below the cap holds more of the pool than its burst. */
  ghost predicate KeepsBursts(pools: seq<string>, times: seq<nat>, p: string)
    requires |times| == |pools| && ThrottleForPool(p).Spaced?
  {
    forall lo: nat, hi: nat | lo < hi <= MAX_STAGGER ::
      WakesIn(pools, times, p, lo, hi, |pools|) <= Burst(ThrottleForPool(p), hi - lo)
  }

  /** When every insert ends before the next recipient's offset, the releases of every throttled pool keep the bound,
      however many pools there are. */
  lemma FittingInsertsKeepTheBound(pools: seq<string>, p: string, inserts: seq<Insert>)
    requires |pools| == |inserts| && InsertsFit(Offsets(pools), inserts, |pools|) && ThrottleForPool(p).Spaced?
    ensures KeepsBursts(pools, Releases(pools, inserts), p)
  {
    hide Burst, OffsetAt, ReleaseAt, WakesIn, NormPool, InsertsFit;
    var releases := Releases(pools, inserts);
    ReleasesKeepOffsets(Offsets(pools), inserts, |pools|);
    forall lo: nat, hi: nat | lo < hi <= MAX_STAGGER
      ensures WakesIn(pools, releases, p, lo, hi, |pools|) <= Burst(ThrottleForPool(p), hi - lo)
    {
      IntervalBound(pools, releases, p, lo, hi - lo);
    }
  }

  /** So it is inside one pool, with inserts that take no time. */
  lemma OnePoolKeepsTheBound(pools: seq<string>, p: string, inserts: seq<Insert>)
    requires |pools| == |inserts| && OnePool(pools, p) && Instant(inserts) && ThrottleForPool(p).Spaced?
    ensures KeepsBursts(pools, Releases(pools, inserts), p)
  {
    hide KeepsBursts, OffsetAt, Releases;
    OnePoolFits(pools, p, inserts, |pools|);
    FittingInsertsKeepTheBound(pools, p, inserts);
  }

  function Releases(pools: seq<string>, inserts: seq<Insert>): (releases: seq<nat>)
    requires |pools| == |inserts|
    ensures |releases| == |pools|
    ensures forall i | 0 <= i < |pools| :: releases[i] == ReleaseAt(Offsets(pools), inserts, i)
  {
    seq(|pools|, i requires 0 <= i < |pools| => ReleaseAt(Offsets(pools), inserts, i))
  }

  /** Two members of the pool, released below the cap, are as far apart as their ranks demand. */
  predicate ApartEnough(pools: seq<string>, times: seq<nat>, t: Throttle, i: nat, j: nat)
    requires i < j < |pools| == |times| && t.Spaced?
  {
    var p := NormPool(pools[j]);
    var m := Rank(pools, p, j) - Rank(pools, p, i);
    m >= t.threshold && times[j] < MAX_STAGGER ==> times[j] - times[i] >= (m - t.threshold + 1) * t.delay
  }

  predicate Spread(pools: seq<string>, times: seq<nat>, p: string)
    requires |times| == |pools| && ThrottleForPool(p).Spaced?
  {
    forall i, j | 0 <= i < j < |pools| && NormPool(pools[i]) == NormPool(pools[j]) == p ::
      ApartEnough(pools, times, ThrottleForPool(p), i, j)
  }

  lemma SpreadKeepsBursts(pools: seq<string>, times: seq<nat>, p: string, lo: nat, hi: nat)
    requires |times| == |pools| && ThrottleForPool(p).Spaced? && Spread(pools, times, p) && lo < hi <= MAX_STAGGER
    ensures WakesIn(pools, times, p, lo, hi, |pools|) <= Burst(ThrottleForPool(p), hi - lo)
  {
    hide CeilDiv, ThrottleForPool, NormPool, Rank;
    var t := ThrottleForPool(p);
    if WakesIn(pools, times, p, lo, hi, |pools|) > Burst(t, hi - lo) {
      var f, l := FirstAndLast(pools, times, p, lo, hi, |pools|);
      var m, c := Rank(pools, p, l) - Rank(pools, p, f), CeilDiv(hi - lo, t.delay);
      CeilDivCovers(hi - lo, t.delay);
      assert c > 0;
      assert ApartEnough(pools, times, t, f, l);
      Product(c, m - t.threshold + 1, t.delay);
    }
  }

  predicate Ordered(times: seq<nat>) {
    forall i, j | 0 <= i <= j < |times| :: times[i] <= times[j]
  }

  /** Between two members in order of release, everyone of the pool wakes. */
  lemma {:induction false} AllBetweenWake(pools: seq<string>, times: seq<nat>, p: string, i: nat, j: nat, n: nat)
    requires |times| == |pools| && Ordered(times) && i <= j < |pools| && i <= n <= j + 1
    ensures WakesIn(pools, times, p, times[i], times[j] + 1, n) >= Rank(pools, p, n) - Rank(pools, p, i)
  {
    hide NormPool;
    if n > i { AllBetweenWake(pools, times, p, i, j, n - 1); }
  }

  lemma {:induction false} WakesGrow(pools: seq<string>, times: seq<nat>, p: string, lo: nat, hi: nat, m: nat, n: nat)
    requires m <= n <= |pools| == |times|
    ensures WakesIn(pools, times, p, lo, hi, m) <= WakesIn(pools, times, p, lo, hi, n)
  {
    if m < n { WakesGrow(pools, times, p, lo, hi, m, n - 1); }
  }

  lemma CeilDivBelow(a: nat, c: nat, d: nat)
    requires d > 0 && c <= CeilDiv(a + 1, d)
    ensures c > 0 ==> a >= (c - 1) * d
  {
    var q := CeilDiv(a + 1, d);
    assert q * d <= a + d;
    if c > 0 { Product(c - 1, q - 1, d); }
  }

  lemma BurstsSpread(pools: seq<string>, times: seq<nat>, p: string, i: nat, j: nat)
    requires |times| == |pools| && ThrottleForPool(p).Spaced? && KeepsBursts(pools, times, p) && Ordered(times)
    requires i < j < |pools| && NormPool(pools[i]) == NormPool(pools[j]) == p
    ensures ApartEnough(pools, times, ThrottleForPool(p), i, j)
  {
    hide CeilDiv, ThrottleForPool, NormPool, WakesIn, Ordered;
    var t, m := ThrottleForPool(p), Rank(pools, p, j) - Rank(pools, p, i);
    if m >= t.threshold && times[j] < MAX_STAGGER {
      var lo, hi := times[i], times[j] + 1;
      AllBetweenWake(pools, times, p, i, j, j + 1);
      WakesGrow(pools, times, p, lo, hi, j + 1, |pools|);
      InOrder(times, i, j);
      CeilDivBelow(hi - lo - 1, m - t.threshold + 2, t.delay);
    }
  }

  lemma InOrder(times: seq<nat>, i: nat, j: nat)
    requires Ordered(times) && i <= j < |times|
    ensures times[i] <= times[j]
  {
  }

  lemma {:induction false} ReleasesAreOrdered(offsets: seq<nat>, inserts: seq<Insert>, i: nat, j: nat)
    requires i <= j < |offsets| == |inserts|
    ensures ReleaseAt(offsets, inserts, i) <= ReleaseAt(offsets, inserts, j)
  {
    if i < j {
      WaitsForBoth(offsets, inserts, j);
      WaitsForBoth(offsets, inserts, j - 1);
      ReleasesAreOrdered(offsets, inserts, i, j - 1);
    }
  }

  /** The releases of a pool keep the bound exactly when every two of its members below the cap are released as far
      apart as their ranks demand. */
  lemma BoundExactlyWhenSpread(pools: seq<string>, p: string, inserts: seq<Insert>)
    requires |pools| == |inserts| && ThrottleForPool(p).Spaced?
    ensures KeepsBursts(pools, Releases(pools, inserts), p) <==> Spread(pools, Releases(pools, inserts), p)
  {
    hide ApartEnough, Burst, ReleaseAt, ThrottleForPool, NormPool, WakesIn;
    var times := Releases(pools, inserts);
    forall i, j | 0 <= i <= j < |times| ensures times[i] <= times[j] {
      ReleasesAreOrdered(Offsets(pools), inserts, i, j);
    }
    if Spread(pools, times, p) {
      forall lo: nat, hi: nat | lo < hi <= MAX_STAGGER
        ensures WakesIn(pools, times, p, lo, hi, |pools|) <= Burst(ThrottleForPool(p), hi - lo)
      {
        SpreadKeepsBursts(pools, times, p, lo, hi);
      }
    }
    if KeepsBursts(pools, times, p) {
      forall i, j | 0 <= i < j < |pools| && NormPool(pools[i]) == NormPool(pools[j]) == p
        ensures ApartEnough(pools, times, ThrottleForPool(p), i, j)
      {
        BurstsSpread(pools, times, p, i, j);
      }
    }
  }

  /** The largest offset up to `i`. */
  function HighWater(offsets: seq<nat>, i: nat): nat
    requires i < |offsets|
  {
    if i == 0 then offsets[0] else Max(offsets[i], HighWater(offsets, i - 1))
  }

  lemma {:induction false} InstantReleases(offsets: seq<nat>, inserts: seq<Insert>, i: nat)
    requires i < |offsets| == |inserts| && Instant(inserts)
    ensures ReleaseAt(offsets, inserts, i) == HighWater(offsets, i)
  {
    WaitsForBoth(offsets, inserts, i);
    if i > 0 {
      WaitsForBoth(offsets, inserts, i - 1);
      InstantReleases(offsets, inserts, i - 1);
    }
  }

  /** Before anything is sent: with inserts that take no time, the recipients alone decide whether a pool will keep
      the bound. */
  lemma BoundKnownBeforehand(pools: seq<string>, p: string, inserts: seq<Insert>, planned: seq<nat>)
    requires |pools| == |inserts| == |planned| && Instant(inserts) && ThrottleForPool(p).Spaced?
    requires forall i | 0 <= i < |pools| :: planned[i] == HighWater(Offsets(pools), i)
    ensures KeepsBursts(pools, Releases(pools, inserts), p) <==> Spread(pools, planned, p)
  {
    hide KeepsBursts, Spread, ReleaseAt, HighWater, ThrottleForPool, OffsetAt;
    forall i | 0 <= i < |pools| ensures Releases(pools, inserts)[i] == planned[i] {
      InstantReleases(Offsets(pools), inserts, i);
    }
    assert Releases(pools, inserts) == planned;
    BoundExactlyWhenSpread(pools, p, inserts);
  }

  lemma {:induction false} LastMember(pools: seq<string>, p: string, n: nat) returns (l: nat)
    requires n <= |pools| && Rank(pools, p, n) > 0
    ensures l < n && NormPool(pools[l]) == p && Rank(pools, p, l) == Rank(pools, p, n) - 1
  {
    l := n - 1;
    if NormPool(pools[l]) != p { l := LastMember(pools, p, n - 1); }
  }

  /** With inserts that take no time, a fan-out lasts as long as the slowest of its pools fanned out alone. */
  lemma TotalIsTheSlowestPool(pools: seq<string>, inserts: seq<Insert>)
    requires 0 < |pools| == |inserts| && Instant(inserts)
    ensures var total := ReleaseAt(Offsets(pools), inserts, |pools| - 1);
      && (forall p | Members(pools, p) != [] :: OffsetAt(Members(pools, p), |Members(pools, p)| - 1) <= total)
      && (exists p :: Members(pools, p) != [] && OffsetAt(Members(pools, p), |Members(pools, p)| - 1) == total)
  {
    hide NormPool, OffsetAt, ReleaseAt, Rank, Members;
    ReleasesArePrefixMaxima(Offsets(pools), inserts, |pools| - 1);
    var total := ReleaseAt(Offsets(pools), inserts, |pools| - 1);
    forall p | Members(pools, p) != [] ensures OffsetAt(Members(pools, p), |Members(pools, p)| - 1) <= total {
      var l := LastOfPool(pools, p);
    }
    var j :| 0 <= j < |pools| && total == Offsets(pools)[j];
    var p := NormPool(pools[j]);
    PoolsAreIndependent(pools, j);
    var l := LastOfPool(pools, p);
    if Rank(pools, p, j) != |Members(pools, p)| - 1 { LaterInPool(pools, j, l); }
  }

  lemma LastOfPool(pools: seq<string>, p: string) returns (l: nat)
    requires Members(pools, p) != []
    ensures l < |pools| && NormPool(pools[l]) == p && Rank(pools, p, l) == |Members(pools, p)| - 1
    ensures OffsetAt(Members(pools, p), |Members(pools, p)| - 1) == OffsetAt(pools, l)
  {
    RankInMembers(pools, p, |pools|);
    l := LastMember(pools, p, |pools|);
    PoolsAreIndependent(pools, l);
  }

  lemma LaterInPool(pools: seq<string>, j: nat, l: nat)
    requires j < |pools| && l < |pools| && NormPool(pools[j]) == NormPool(pools[l])
    requires Rank(pools, NormPool(pools[j]), j) < Rank(pools, NormPool(pools[j]), l)
    ensures OffsetAt(pools, j) <= OffsetAt(pools, l)
  {
    StaggerGrows(ThrottleForPool(NormPool(pools[j])), Rank(pools, NormPool(pools[j]), j), Rank(pools, NormPool(pools[j]), l));
  }

  // ---- Where the bound does not carry over ------------------------------------------------------------------------

  const MIXED := ["unknown", "unknown", "openai", "openai", "openai"]

  lemma MixedOffsets()
    ensures Offsets(MIXED) == [0, 1500, 0, 0, 1500]
  {
    assert Rank(MIXED, "openai", 2) == 0;
    assert Rank(MIXED, "openai", 4) == 2;
    assert Rank(MIXED, "unknown", 1) == 1;
  }

  /** Two pools: a recipient held back for its own pool holds back the burst of another behind it. Three recipients
      of a pool that sustains two are released together, though no insert takes any time. */
  lemma MixedPoolsBunch(inserts: seq<Insert>)
    requires |inserts| == 5 && Instant(inserts)
    ensures forall i | 2 <= i < 5 :: NormPool(MIXED[i]) == "openai" && ReleaseAt(Offsets(MIXED), inserts, i) == 1500
    ensures Burst(ThrottleForPool("openai"), 1) == 2 && !KeepsBursts(MIXED, Releases(MIXED, inserts), "openai")
  {
    hide FreeAt, ReleaseAt, Rank, OffsetAt, Spread, KeepsBursts;
    MixedOffsets();
    var offsets := Offsets(MIXED);
    Unheld(offsets, inserts);
    WaitsForBoth(offsets, inserts, 0);
    WaitsForBoth(offsets, inserts, 1);
    WaitsForBoth(offsets, inserts, 2);
    WaitsForBoth(offsets, inserts, 3);
    WaitsForBoth(offsets, inserts, 4);
    BoundExactlyWhenSpread(MIXED, "openai", inserts);
    MixedRanks();
    NotSpread(MIXED, Releases(MIXED, inserts), "openai", 2, 4);
  }

  lemma MixedRanks()
    ensures Rank(MIXED, "openai", 2) == 0 && Rank(MIXED, "openai", 4) == 2
  {
  }

  lemma NotSpread(pools: seq<string>, times: seq<nat>, p: string, i: nat, j: nat)
    requires i < j < |pools| == |times| && ThrottleForPool(p).Spaced? && NormPool(pools[i]) == NormPool(pools[j]) == p
    requires times[i] == times[j] < MAX_STAGGER && Rank(pools, p, j) - Rank(pools, p, i) >= ThrottleForPool(p).threshold
    ensures !Spread(pools, times, p)
  {
    hide ThrottleForPool, Rank;
    var t, m := ThrottleForPool(p), Rank(pools, p, j) - Rank(pools, p, i);
    Product(1, m - t.threshold + 1, t.delay);
    assert !ApartEnough(pools, times, t, i, j);
  }

  lemma Unheld(offsets: seq<nat>, inserts: seq<Insert>)
    requires |offsets| == |inserts|
    ensures FreeAt(offsets, inserts, 0) == 0
  {
  }

  const ALIKE := ["unknown", "unknown", "unknown"]

  lemma AlikeOffsets()
    ensures Offsets(ALIKE) == [0, 1500, 3000]
  {
    RankOfPure(ALIKE, "unknown", 1);
    RankOfPure(ALIKE, "unknown", 2);
  }

  /** One pool, one at a time: if the first insert takes as long as the third one's offset, the second and third are
      released together. */
  lemma SlowInsertsBunch(inserts: seq<Insert>)
    requires |inserts| == 3 && inserts[0].took >= 3000 && inserts[1].took == 0
    ensures ReleaseAt(Offsets(ALIKE), inserts, 1) == ReleaseAt(Offsets(ALIKE), inserts, 2) == inserts[0].took
    ensures Burst(ThrottleForPool("unknown"), 1) == 1
    ensures inserts[0].took < MAX_STAGGER ==> !KeepsBursts(ALIKE, Releases(ALIKE, inserts), "unknown")
  {
    hide FreeAt, ReleaseAt, Rank, OffsetAt, Spread, KeepsBursts;
    AlikeOffsets();
    var offsets := Offsets(ALIKE);
    Unheld(offsets, inserts);
    WaitsForBoth(offsets, inserts, 0);
    WaitsForBoth(offsets, inserts, 1);
    WaitsForBoth(offsets, inserts, 2);
    BoundExactlyWhenSpread(ALIKE, "unknown", inserts);
    RankOfPure(ALIKE, "unknown", 1);
    RankOfPure(ALIKE, "unknown", 2);
    if inserts[0].took < MAX_STAGGER { NotSpread(ALIKE, Releases(ALIKE, inserts), "unknown", 1, 2); }
  }
}
