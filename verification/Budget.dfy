/** The communication budget: a lazily refilled token bucket with a slower rate below zero, and the price of a send.

    Balances, rates and prices are reals; time is in hours. */
module Budget {

  const RECOVERY_FACTOR := 0.5
  const OVERDRAFT_RATIO := -0.25
  const LENGTH_DIVISOR := 3000.0

  function Min(a: real, b: real): real {
    if a < b then a else b
  }

  // ---- Refill -------------------------------------------------------------------------------------------------

  function Refilled(balance: real, capacity: real, rate: real, elapsed: real): real {
    if elapsed <= 0.0 || rate <= 0.0 then Min(balance, capacity)
    else if balance >= 0.0 then Min(balance + rate * elapsed, capacity)
    else
      var toZero := -balance / (rate * RECOVERY_FACTOR);
      if elapsed <= toZero then balance + rate * RECOVERY_FACTOR * elapsed
      else Min(rate * (elapsed - toZero), capacity)
  }

  function Overdraft(capacity: real): real {
    capacity * OVERDRAFT_RATIO
  }

  predicate Affordable(balance: real, cost: real, capacity: real) {
    balance - cost >= Overdraft(capacity)
  }

  function TimeToAfford(balance: real, cost: real, capacity: real, rate: real): real {
    if Affordable(balance, cost, capacity) then 0.0
    else if rate <= 0.0 then 0.0
    else (cost + Overdraft(capacity) - balance) / (if balance < 0.0 then rate * RECOVERY_FACTOR else rate)
  }

  /** A balance measured in full-rate refill: debt counts double, because it is paid back at half speed. */
  function Distance(balance: real): real {
    if balance >= 0.0 then balance else 2.0 * balance
  }

  function AtDistance(d: real): real {
    if d >= 0.0 then d else d / 2.0
  }

  function Hours(rate: real, elapsed: real): real {
    if elapsed <= 0.0 || rate <= 0.0 then 0.0 else rate * elapsed
  }

  lemma Cancels(d: real, rate: real, elapsed: real)
    requires rate > 0.0
    ensures d / rate * rate == d
    ensures elapsed <= d / rate <==> rate * elapsed <= d
    ensures rate * (elapsed - d / rate) == rate * elapsed - d
  {
    var q := d / rate;
    assert q * rate == d;
    assert rate * (elapsed - q) == rate * elapsed - rate * q;
    if elapsed <= q { MulMono(rate, elapsed, q); } else { MulMono(rate, q, elapsed); }
  }

  lemma MulMono(r: real, x: real, y: real)
    requires r > 0.0 && x <= y
    ensures r * x <= r * y && (x < y ==> r * x < r * y)
  {
    assert r * (y - x) >= 0.0;
    assert x < y ==> r * (y - x) > 0.0;
  }

  /** Two legs, one line: refilling moves the distance at constant speed until the bucket is full. */
  lemma RefillIsALine(balance: real, capacity: real, rate: real, elapsed: real)
    requires capacity >= 0.0
    ensures Refilled(balance, capacity, rate, elapsed) == Min(AtDistance(Distance(balance) + Hours(rate, elapsed)), capacity)
  {
    if elapsed > 0.0 && rate > 0.0 && balance < 0.0 {
      Cancels(-balance, rate * RECOVERY_FACTOR, elapsed);
    }
  }

  /** Refilling at any moment in between changes nothing. */
  lemma RefillIsAFlow(balance: real, capacity: real, rate: real, e1: real, e2: real)
    requires capacity >= 0.0 && e1 >= 0.0 && e2 >= 0.0
    ensures Refilled(Refilled(balance, capacity, rate, e1), capacity, rate, e2) == Refilled(balance, capacity, rate, e1 + e2)
  {
    hide Refilled;
    RefillIsALine(balance, capacity, rate, e1);
    RefillIsALine(balance, capacity, rate, e1 + e2);
    RefillIsALine(Refilled(balance, capacity, rate, e1), capacity, rate, e2);
    assert rate * (e1 + e2) == rate * e1 + rate * e2;
    HoursGrow(rate, 0.0, e1);
    HoursGrow(rate, 0.0, e2);
  }

  lemma HoursGrow(rate: real, e: real, e': real)
    requires e <= e'
    ensures 0.0 <= Hours(rate, e) <= Hours(rate, e')
  {
    if rate > 0.0 { MulMono(rate, e, e'); if e > 0.0 { MulMono(rate, 0.0, e); } }
  }

  lemma RefillIsMonotone(b: real, b': real, capacity: real, rate: real, e: real, e': real)
    requires capacity >= 0.0 && b <= b' && e <= e'
    ensures Refilled(b, capacity, rate, e) <= Refilled(b', capacity, rate, e') <= capacity
    ensures b <= capacity ==> b <= Refilled(b, capacity, rate, e)
  {
    hide Refilled;
    RefillIsALine(b, capacity, rate, e);
    RefillIsALine(b', capacity, rate, e');
    HoursGrow(rate, e, e');
  }

  /** Refilling at every one of a list of moments ends where refilling once does. */
  function RefilledAt(balance: real, capacity: real, rate: real, touches: seq<real>): real {
    if touches == [] then balance
    else Refilled(RefilledAt(balance, capacity, rate, touches[..|touches| - 1]), capacity, rate, touches[|touches| - 1])
  }

  function TotalOf(xs: seq<real>): real {
    if xs == [] then 0.0 else TotalOf(xs[..|xs| - 1]) + xs[|xs| - 1]
  }

  lemma {:induction false} TouchesDoNotMatter(balance: real, capacity: real, rate: real, touches: seq<real>)
    requires capacity >= 0.0 && touches != [] && forall i | 0 <= i < |touches| :: touches[i] >= 0.0
    ensures TotalOf(touches) >= 0.0
    ensures RefilledAt(balance, capacity, rate, touches) == Refilled(balance, capacity, rate, TotalOf(touches))
  {
    hide Refilled;
    var n := |touches| - 1;
    if n == 0 {
      assert TotalOf(touches) == TotalOf(touches[..0]) + touches[0];
    } else {
      TouchesDoNotMatter(balance, capacity, rate, touches[..n]);
      RefillIsAFlow(balance, capacity, rate, TotalOf(touches[..n]), touches[n]);
    }
  }

  // ---- Waiting ------------------------------------------------------------------------------------------------

  /** What the balance must reach. */
  function Needed(cost: real, capacity: real): real {
    cost + Overdraft(capacity)
  }

  /** How long a distance takes at full rate. */
  function WaitFor(distance: real, rate: real): real
    requires rate > 0.0
  {
    if distance <= 0.0 then 0.0 else distance / rate
  }

  lemma HoursReach(rate: real, wait: real, distance: real)
    requires rate > 0.0 && wait >= 0.0
    ensures Hours(rate, wait) >= distance <==> wait >= WaitFor(distance, rate)
  {
    if distance > 0.0 {
      var w := WaitFor(distance, rate);
      assert w * rate == distance;
      if wait >= w { MulMono(rate, w, wait); } else { MulMono(rate, wait, w); }
    } else {
      MulMono(rate, 0.0, wait);
    }
  }

  lemma LongerIsSlower(rate: real, d: real, d': real)
    requires rate > 0.0 && 0.0 < d
    ensures 0.0 < WaitFor(d, rate) && WaitFor(2.0 * d, rate) == 2.0 * WaitFor(d, rate)
    ensures d < d' ==> WaitFor(d, rate) < WaitFor(d', rate)
  {
    var i := 1.0 / rate;
    assert i * rate == 1.0;
    assert i > 0.0;
    assert WaitFor(d, rate) == i * d && WaitFor(2.0 * d, rate) == i * (2.0 * d);
    MulMono(i, 0.0, d);
    if d < d' { assert WaitFor(d', rate) == i * d'; MulMono(i, d, d'); }
  }

  lemma HalfSpeed(rate: real, d: real)
    requires rate > 0.0 && d > 0.0
    ensures d / (rate * RECOVERY_FACTOR) == WaitFor(2.0 * d, rate) && d / rate == WaitFor(d, rate)
  {
    var q := d / (rate * RECOVERY_FACTOR);
    assert q * (rate * RECOVERY_FACTOR) == d;
    assert q * rate == 2.0 * d;
    assert q == (q * rate) / rate;
  }

  function LeastWait(balance: real, cost: real, capacity: real, rate: real): real
    requires rate > 0.0
  {
    WaitFor(Distance(Needed(cost, capacity)) - Distance(balance), rate)
  }

  /** Exactly the waits that make a send affordable. When the need exceeds the capacity there is none. */
  lemma AffordableExactlyFrom(balance: real, cost: real, capacity: real, rate: real, wait: real)
    requires capacity >= 0.0 && rate > 0.0 && wait >= 0.0
    ensures Affordable(Refilled(balance, capacity, rate, wait), cost, capacity) <==>
            Needed(cost, capacity) <= capacity && wait >= LeastWait(balance, cost, capacity, rate)
  {
    hide Refilled, Hours, WaitFor;
    RefillIsALine(balance, capacity, rate, wait);
    HoursReach(rate, wait, Distance(Needed(cost, capacity)) - Distance(balance));
  }

  /** The quoted wait always suffices if any wait does, and is shorter than twice the least one. It is the least
      one exactly when no debt has to be paid off to reach a positive need. */
  lemma QuotedWait(balance: real, cost: real, capacity: real, rate: real)
    requires capacity >= 0.0 && rate > 0.0 && !Affordable(balance, cost, capacity)
    ensures var quote, least, need :=
      TimeToAfford(balance, cost, capacity, rate), LeastWait(balance, cost, capacity, rate), Needed(cost, capacity);
      && 0.0 < least <= quote < 2.0 * least
      && (quote == least <==> balance >= 0.0 || need <= 0.0)
      && (Affordable(Refilled(balance, capacity, rate, quote), cost, capacity) <==> need <= capacity)
  {
    hide Refilled, WaitFor;
    var need := Needed(cost, capacity);
    var missing := Distance(need) - Distance(balance);
    var quoted := if balance < 0.0 then 2.0 * (need - balance) else need - balance;
    HalfSpeed(rate, need - balance);
    LongerIsSlower(rate, missing, quoted);
    LongerIsSlower(rate, quoted, 2.0 * missing);
    AffordableExactlyFrom(balance, cost, capacity, rate, TimeToAfford(balance, cost, capacity, rate));
  }

  /** A quote of zero has two opposite meanings. */
  lemma ZeroQuote(balance: real, cost: real, capacity: real, rate: real)
    ensures TimeToAfford(balance, cost, capacity, rate) == 0.0 <==> Affordable(balance, cost, capacity) || rate <= 0.0
  {
    if !Affordable(balance, cost, capacity) && rate > 0.0 {
      HalfSpeed(rate, Needed(cost, capacity) - balance);
      LongerIsSlower(rate, Needed(cost, capacity) - balance, 0.0);
    }
  }

  // ---- Price --------------------------------------------------------------------------------------------------

  type Curve = nat -> real

  function Cube(n: nat): real {
    (n * n * n) as real
  }

  /** n^1.5, the only non-negative function whose square is the cube. */
  ghost predicate IsThreeHalves(w: Curve) {
    forall n :: w(n) >= 0.0 && w(n) * w(n) == Cube(n)
  }

  function Breadth(w: Curve, distinct: int): real {
    if distinct <= 0 then 0.0 else w(distinct)
  }

  function LengthFactor(bytes: nat): real {
    1.0 + bytes as real / LENGTH_DIVISOR
  }

  function Cost(w: Curve, prior: int, after: int, deliveries: int, bytes: nat, alpha: real): real {
    if deliveries <= 0 then 0.0
    else
      var marginal := Breadth(w, after) - Breadth(w, prior);
      ((if marginal < 0.0 then 0.0 else marginal) + alpha * deliveries as real) * LengthFactor(bytes)
  }

  lemma SquaresGrow(x: real, y: real)
    requires x >= y >= 0.0
    ensures x * x >= y * y && (y > 0.0 ==> x * x > 0.0)
  {
    assert x * x >= y * x >= y * y;
  }

  lemma SquaresOrder(x: real, y: real)
    requires x >= 0.0 && y >= 0.0
    ensures x * x < y * y ==> x < y
  {
    if x >= y { SquaresGrow(x, y); }
  }

  lemma CubesGrow(m: nat, n: nat)
    requires m < n
    ensures Cube(m) < Cube(n)
  {
    assert m * m <= m * n <= n * n;
    var s, t := m * m, n * n;
    assert s * m <= t * m < t * n;
  }

  lemma BreadthGrows(w: Curve, m: nat, n: nat)
    requires IsThreeHalves(w) && m < n
    ensures w(m) < w(n) && Breadth(w, m) == w(m) && Breadth(w, n) == w(n)
  {
    CubesGrow(m, n);
    SquaresOrder(w(m), w(n));
    NobodyIsFree(w);
  }

  lemma NobodyIsFree(w: Curve)
    requires IsThreeHalves(w)
    ensures w(0) == 0.0
  {
    assert w(0) * w(0) == Cube(0) == 0.0;
    SquareOfZero(w(0));
  }

  lemma SquareOfZero(x: real)
    ensures x * x == 0.0 ==> x == 0.0
  {
    if x != 0.0 { assert (x * x) * (1.0 / x) == x; }
  }

  /** Each further new recipient costs strictly more than the one before. */
  lemma BreadthIsConvex(w: Curve, n: nat)
    requires IsThreeHalves(w)
    ensures w(n + 1) - w(n) < w(n + 2) - w(n + 1)
  {
    var a, b, c, m := w(n), w(n + 1), w(n + 2), n + 1;
    var k := m as real;
    assert a * a == k * k * k - 3.0 * k * k + 3.0 * k - 1.0 by { CubeAround(m); }
    assert c * c == k * k * k + 3.0 * k * k + 3.0 * k + 1.0 by { CubeAround(m); }
    assert b * b == k * k * k by { CubeAround(m); }
    CrossTerm(a, c, k, m);
    assert (2.0 * b) * (2.0 * b) == 4.0 * (b * b);
    assert (a + c) * (a + c) == a * a + c * c + 2.0 * (a * c);
    SquaresOrder(2.0 * b, a + c);
  }

  lemma CubeAround(m: nat)
    requires m >= 1
    ensures var k := m as real;
      && Cube(m) == k * k * k
      && Cube(m - 1) == k * k * k - 3.0 * k * k + 3.0 * k - 1.0
      && Cube(m + 1) == k * k * k + 3.0 * k * k + 3.0 * k + 1.0
  {
    assert (m - 1) * (m - 1) * (m - 1) == m * m * m - 3 * m * m + 3 * m - 1;
    assert (m + 1) * (m + 1) * (m + 1) == m * m * m + 3 * m * m + 3 * m + 1;
    RealProduct(m, m);
    RealProduct(m * m, m);
  }

  lemma RealProduct(x: nat, y: nat)
    ensures (x * y) as real == x as real * y as real
  {
  }

  lemma CrossTerm(a: real, c: real, k: real, m: nat)
    requires a >= 0.0 && c >= 0.0 && m >= 1 && k == m as real
    requires a * a == k * k * k - 3.0 * k * k + 3.0 * k - 1.0
    requires c * c == k * k * k + 3.0 * k * k + 3.0 * k + 1.0
    ensures a * c > k * k * k - 3.0 * k
  {
    var q := k * k;
    if m == 1 {
      assert a * c >= 0.0;
    } else {
      assert q >= 4.0 by { assert k * k >= 2.0 * k >= 4.0; }
      var low := k * q - 3.0 * k;
      assert low >= 0.0 by { assert k * (q - 3.0) >= 0.0; }
      assert (a * c) * (a * c) == (a * a) * (c * c);
      assert (a * a) * (c * c) == q * q * q - 3.0 * q * q + 3.0 * q - 1.0 by {
        var u, v := k * q + 3.0 * k, 3.0 * q + 1.0;
        assert a * a == u - v && c * c == u + v;
        assert (u - v) * (u + v) == u * u - v * v;
        assert u * u == q * q * q + 6.0 * (q * q) + 9.0 * q by {
          assert (k * q) * (k * q) == q * q * q;
          assert (k * q) * k == q * q;
        }
        assert v * v == 9.0 * (q * q) + 6.0 * q + 1.0;
      }
      assert low * low == q * q * q - 6.0 * (q * q) + 9.0 * q by {
        assert (k * q) * (k * q) == q * q * q;
        assert (k * q) * k == q * q;
      }
      assert q * q >= 4.0 * q;
      SquaresOrder(low, a * c);
    }
  }

  // ---- Splitting ----------------------------------------------------------------------------------------------

  type Name = string

  function Elements(names: seq<Name>): set<Name> {
    set x | x in names
  }

  /** Who has been addressed once these sends are out, none of them leaving the window meanwhile. */
  function WindowAfter(window: set<Name>, sends: seq<seq<Name>>): set<Name> {
    if sends == [] then window
    else WindowAfter(window, sends[..|sends| - 1]) + Elements(sends[|sends| - 1])
  }

  function Flatten(sends: seq<seq<Name>>): seq<Name> {
    if sends == [] then [] else Flatten(sends[..|sends| - 1]) + sends[|sends| - 1]
  }

  /** Each send priced against the window the earlier ones left behind. */
  function Bill(w: Curve, window: set<Name>, sends: seq<seq<Name>>, bytes: nat, alpha: real): real {
    if sends == [] then 0.0
    else
      var n := |sends| - 1;
      var before := WindowAfter(window, sends[..n]);
      Bill(w, window, sends[..n], bytes, alpha)
      + Cost(w, |before|, |before + Elements(sends[n])|, |sends[n]|, bytes, alpha)
  }

  lemma WindowIsFlat(window: set<Name>, sends: seq<seq<Name>>)
    ensures WindowAfter(window, sends) == window + Elements(Flatten(sends))
  {
  }

  /** The value of a window growing from `before` to `after` distinct recipients over some deliveries. */
  function Price(w: Curve, before: nat, after: nat, deliveries: nat, bytes: nat, alpha: real): real {
    (w(after) - w(before) + alpha * deliveries as real) * LengthFactor(bytes)
  }

  lemma PricesAdd(w: Curve, a: nat, b: nat, c: nat, m: nat, n: nat, bytes: nat, alpha: real)
    ensures Price(w, a, b, m, bytes, alpha) + Price(w, b, c, n, bytes, alpha) == Price(w, a, c, m + n, bytes, alpha)
  {
    assert alpha * (m + n) as real == alpha * m as real + alpha * n as real;
    var p, q, f := w(b) - w(a) + alpha * m as real, w(c) - w(b) + alpha * n as real, LengthFactor(bytes);
    assert p * f + q * f == (p + q) * f;
  }

  lemma CostOfOne(w: Curve, before: set<Name>, recipients: seq<Name>, bytes: nat, alpha: real)
    requires IsThreeHalves(w)
    ensures var after := before + Elements(recipients);
      && Breadth(w, |after|) >= Breadth(w, |before|)
      && Cost(w, |before|, |after|, |recipients|, bytes, alpha) == Price(w, |before|, |after|, |recipients|, bytes, alpha)
  {
    var after := before + Elements(recipients);
    SubsetSize(before, after);
    NobodyIsFree(w);
    if |before| < |after| { BreadthGrows(w, |before|, |after|); }
    if recipients == [] { assert after == before; }
  }

  lemma SubsetSize<T>(a: set<T>, b: set<T>)
    requires a <= b
    ensures |a| <= |b|
  {
    assert b == a + (b - a);
  }

  /** Inside one window and at one body length, sends cost what the growth of the window and the number of
      deliveries say, however they are grouped; the guard against negative breadth never acts. */
  lemma {:induction false} BillIsNeutral(w: Curve, window: set<Name>, sends: seq<seq<Name>>, bytes: nat, alpha: real)
    requires IsThreeHalves(w)
    ensures Bill(w, window, sends, bytes, alpha) ==
            Price(w, |window|, |WindowAfter(window, sends)|, |Flatten(sends)|, bytes, alpha)
  {
    hide Price, Cost, IsThreeHalves;
    if sends == [] {
      FreeStart(w, |window|, bytes, alpha);
    } else {
      var n := |sends| - 1;
      var before, after := WindowAfter(window, sends[..n]), WindowAfter(window, sends);
      BillIsNeutral(w, window, sends[..n], bytes, alpha);
      CostOfOne(w, before, sends[n], bytes, alpha);
      PricesAdd(w, |window|, |before|, |after|, |Flatten(sends[..n])|, |sends[n]|, bytes, alpha);
    }
  }

  lemma FreeStart(w: Curve, n: nat, bytes: nat, alpha: real)
    ensures Price(w, n, n, 0, bytes, alpha) == 0.0
  {
  }

  /** Splitting, merging and reordering change nothing: the bill depends only on the deliveries. */
  lemma SplittingIsNeutral(w: Curve, window: set<Name>, a: seq<seq<Name>>, b: seq<seq<Name>>, bytes: nat, alpha: real)
    requires IsThreeHalves(w) && multiset(Flatten(a)) == multiset(Flatten(b))
    ensures Bill(w, window, a, bytes, alpha) == Bill(w, window, b, bytes, alpha)
  {
    hide Bill, Price, IsThreeHalves, Flatten, WindowAfter;
    BillIsNeutral(w, window, a, bytes, alpha);
    BillIsNeutral(w, window, b, bytes, alpha);
    WindowIsFlat(window, a);
    WindowIsFlat(window, b);
    SameDeliveries(Flatten(a), Flatten(b));
  }

  lemma SameDeliveries(a: seq<Name>, b: seq<Name>)
    requires multiset(a) == multiset(b)
    ensures |a| == |b| && Elements(a) == Elements(b)
  {
    assert |a| == |multiset(a)|;
    forall x ensures x in Elements(a) <==> x in Elements(b) {
      assert x in multiset(a) <==> x in multiset(b);
    }
  }

  lemma CostIsNotNegative(w: Curve, before: set<Name>, recipients: seq<Name>, bytes: nat, alpha: real)
    requires IsThreeHalves(w) && alpha >= 0.0
    ensures Cost(w, |before|, |before + Elements(recipients)|, |recipients|, bytes, alpha) >= 0.0
  {
    assert alpha * |recipients| as real >= 0.0;
    assert LengthFactor(bytes) >= 1.0;
  }
}
