/** One sender's budget row: quoted, charged and refunded in the store. */
module Ledger {
  import opened Budget

  /** Balance as last written, and when. A sender that never paid has no row. */
  datatype Row = NoRow | Row(balance: real, touched: real)

  function BalanceAt(row: Row, capacity: real, rate: real, now: real): real {
    if row.NoRow? then capacity else Refilled(row.balance, capacity, rate, now - row.touched)
  }

  datatype Op = Charge(now: real, cost: real) | Refund(now: real, amount: real)

  predicate Admits(row: Row, capacity: real, rate: real, op: Op) {
    op.Charge? && Affordable(BalanceAt(row, capacity, rate, op.now), op.cost, capacity)
  }

  predicate GivesBack(row: Row, op: Op) {
    op.Refund? && row.Row? && op.amount > 0.0
  }

  function After(row: Row, capacity: real, rate: real, op: Op): Row {
    if Admits(row, capacity, rate, op) then Row(BalanceAt(row, capacity, rate, op.now) - op.cost, op.now)
    else if GivesBack(row, op) then Row(Min(row.balance + op.amount, capacity), op.now)
    else row
  }

  datatype Sent = Sent(to: Name, at: real, refused: bool)

  /** Distinct recipients inside the window; a refused message reached nobody. */
  function Window(messages: seq<Sent>, now: real, span: real): set<Name> {
    set m | m in messages && m.at > now - span && !m.refused :: m.to
  }

  /** While nothing leaves the window, delivering to recipients adds exactly them: the store prices later sends as
      `Bill` does. */
  lemma DeliveriesJoinTheWindow(
    messages: seq<Sent>, sent: seq<Sent>, recipients: seq<Name>, now: real, now': real, span: real)
    requires now <= now'
    requires forall m | m in messages && !m.refused && m.at > now - span :: m.at > now' - span
    requires |sent| == |recipients|
    requires forall i | 0 <= i < |sent| :: sent[i].to == recipients[i] && !sent[i].refused && sent[i].at > now' - span
    ensures Window(messages + sent, now', span) == Window(messages, now, span) + Elements(recipients)
  {
    forall x | x in recipients ensures x in Window(messages + sent, now', span) {
      var i :| 0 <= i < |recipients| && recipients[i] == x;
      assert sent[i] in messages + sent;
    }
    assert forall m | m in messages :: m in messages + sent;
    assert forall m | m in messages + sent :: m in messages || m in sent;
  }

  /** The window forgets: what was refused, or sent at or before its far end, is as if it had never been sent, and no
      send is priced by it. */
  lemma WindowForgets(stale: seq<Sent>, recent: seq<Sent>, now: real, span: real)
    requires forall m | m in stale :: m.refused || m.at <= now - span
    ensures Window(stale + recent, now, span) == Window(recent + stale, now, span) == Window(recent, now, span)
    ensures forall w, sends, bytes, alpha ::
      Bill(w, Window(stale + recent, now, span), sends, bytes, alpha) == Bill(w, Window(recent, now, span), sends, bytes, alpha)
  {
    assert forall m | m in recent :: m in stale + recent && m in recent + stale;
  }

  /** A message still counts towards the price. */
  predicate Counts(m: Sent, x: Name, now: real, span: real) {
    m.to == x && !m.refused && m.at > now - span
  }

  /** One more message to somebody already addressed in the window costs its volume alone; to anybody else, long
      forgotten or never addressed, it also costs a full step of breadth. */
  lemma OldFriendsAreCheaper(w: Curve, messages: seq<Sent>, x: Name, now: real, span: real, bytes: nat, alpha: real)
    requires IsThreeHalves(w)
    ensures var window, length := Window(messages, now, span), 1.0 + bytes as real / 3000.0;
      var price := Bill(w, window, [[x]], bytes, alpha);
      if exists i :: 0 <= i < |messages| && Counts(messages[i], x, now, span) then price == alpha * length
      else price == (w(|window| + 1) - w(|window|) + alpha) * length && price > alpha * length
  {
    hide Cost, IsThreeHalves, Bill;
    var window := Window(messages, now, span);
    assert Elements([x]) == {x};
    BillOfOne(w, window, [x], bytes, alpha);
    CostOfOne(w, window, [x], bytes, alpha);
    if i :| 0 <= i < |messages| && Counts(messages[i], x, now, span) {
      assert messages[i] in messages;
      assert window + {x} == window;
    } else {
      assert x !in window;
      BreadthGrows(w, |window|, |window| + 1);
      LongerBodies(w(|window| + 1) - w(|window|), alpha, bytes);
    }
  }

  lemma LongerBodies(step: real, alpha: real, bytes: nat)
    requires step > 0.0
    ensures (step + alpha) * (1.0 + bytes as real / 3000.0) > alpha * (1.0 + bytes as real / 3000.0)
  {
    var length := 1.0 + bytes as real / 3000.0;
    assert (step + alpha) * length == step * length + alpha * length;
  }

  /** A first send may cost a quarter more than the capacity, and any send what leaves no more than a quarter of the
      capacity in debt. */
  lemma DebtIsAQuarter(balance: real, capacity: real, rate: real, now: real, cost: real)
    requires balance <= capacity && capacity >= 0.0
    ensures Admits(NoRow, capacity, rate, Charge(now, cost)) <==> cost <= 1.25 * capacity
    ensures Admits(Row(balance, now), capacity, rate, Charge(now, cost)) <==> cost <= balance + 0.25 * capacity
  {
  }

  datatype Quote = Quote(balance: real, prior: nat, after: nat, cost: real, affordable: bool, wait: real, remaining: real)

  class Account {
    const w: Curve
    const capacity: real
    const rate: real
    const alpha: real
    const span: real

    var row: Row
    var messages: seq<Sent>

    ghost predicate Valid()
      reads this
    {
      capacity >= 0.0 && alpha >= 0.0 && IsThreeHalves(w) && Within(row, capacity)
    }

    constructor (w: Curve, capacity: real, rate: real, alpha: real, span: real)
      requires capacity >= 0.0 && alpha >= 0.0 && IsThreeHalves(w)
      ensures Valid() && row == NoRow && messages == []
    {
      this.w, this.capacity, this.rate, this.alpha, this.span := w, capacity, rate, alpha, span;
      row, messages := NoRow, [];
    }

    /** The price of a send and whether it may go; a dry run and a charge read the same figures. */
    method QuoteBudget(now: real, recipients: seq<Name>, bytes: nat) returns (q: Quote)
      requires Valid()
      ensures q.balance == BalanceAt(row, capacity, rate, now) && q.remaining == q.balance - q.cost && q.cost >= 0.0
      ensures q.cost == Bill(w, Window(messages, now, span), [recipients], bytes, alpha)
      ensures q.prior == |Window(messages, now, span)| && q.after == |Window(messages, now, span) + Elements(recipients)|
      ensures q.affordable <==> Admits(row, capacity, rate, Charge(now, q.cost))
      ensures q.wait == 0.0 <==> q.affordable || rate <= 0.0
      ensures !q.affordable && rate > 0.0 ==>
        var least := LeastWait(q.balance, q.cost, capacity, rate);
        && q.wait * (if q.balance < 0.0 then rate / 2.0 else rate) == q.cost - capacity / 4.0 - q.balance
        && 0.0 < least <= q.wait < 2.0 * least
    {
      hide Refilled, Cost, TimeToAfford, IsThreeHalves, LeastWait;
      var balance := BalanceAt(row, capacity, rate, now);
      var seen := Window(messages, now, span);
      var prior := |seen|;
      seen := seen + Elements(recipients);
      var cost := Cost(w, prior, |seen|, |recipients|, bytes, alpha);
      q := Quote(balance, prior, |seen|, cost, Affordable(balance, cost, capacity),
                 TimeToAfford(balance, cost, capacity, rate), balance - cost);
      CostIsNotNegative(w, Window(messages, now, span), recipients, bytes, alpha);
      BillOfOne(w, Window(messages, now, span), recipients, bytes, alpha);
      ZeroQuote(balance, cost, capacity, rate);
      if !q.affordable && rate > 0.0 {
        QuotedWait(balance, cost, capacity, rate);
        WaitAtPresentSpeed(balance, cost, capacity, rate);
      }
    }

    method ChargeBudget(now: real, recipients: seq<Name>, bytes: nat) returns (q: Quote)
      requires Valid()
      modifies `row
      ensures Valid() && q.cost >= 0.0
      ensures q.cost == Bill(w, Window(messages, now, span), [recipients], bytes, alpha)
      ensures q.affordable <==> Admits(old(row), capacity, rate, Charge(now, q.cost))
      ensures q.remaining == BalanceAt(old(row), capacity, rate, now) - q.cost
      ensures q.balance == if q.affordable then q.remaining else BalanceAt(old(row), capacity, rate, now)
      ensures row == After(old(row), capacity, rate, Charge(now, q.cost))
      ensures row == if q.affordable then Row(q.remaining, now) else old(row)
    {
      hide Refilled, Bill, IsThreeHalves;
      q := QuoteBudget(now, recipients, bytes);
      WithinAfter(row, capacity, rate, Charge(now, q.cost));
      if q.affordable {
        row := Row(q.remaining, now);
        q := q.(balance := q.remaining);
      }
    }

    /** Gives back what was charged for a send that reached nobody. */
    method RefundBudget(now: real, amount: real)
      requires Valid()
      modifies `row
      ensures Valid() && row == After(old(row), capacity, rate, Refund(now, amount))
      ensures amount <= 0.0 || old(row).NoRow? ==> row == old(row)
      ensures amount > 0.0 && old(row).Row? ==> row.Row? && row.touched == now
    {
      hide Refilled, IsThreeHalves;
      WithinAfter(row, capacity, rate, Refund(now, amount));
      if amount <= 0.0 || row.NoRow? { return; }
      var balance := row.balance + amount;
      if balance > capacity { balance := capacity; }
      row := Row(balance, now);
    }
  }

  lemma WaitAtPresentSpeed(balance: real, cost: real, capacity: real, rate: real)
    requires rate > 0.0 && !Affordable(balance, cost, capacity)
    ensures TimeToAfford(balance, cost, capacity, rate) * (if balance < 0.0 then rate / 2.0 else rate) ==
            cost - capacity / 4.0 - balance
  {
    Cancels(cost - capacity / 4.0 - balance, if balance < 0.0 then rate / 2.0 else rate, 0.0);
  }

  lemma BillOfOne(w: Curve, window: set<Name>, recipients: seq<Name>, bytes: nat, alpha: real)
    ensures Bill(w, window, [recipients], bytes, alpha) ==
            Cost(w, |window|, |window + Elements(recipients)|, |recipients|, bytes, alpha)
  {
    hide Cost;
    assert [recipients][..0] == [];
    assert WindowAfter(window, []) == window;
  }

  // ---- The token-bucket bound -----------------------------------------------------------------------------------

  predicate Within(row: Row, capacity: real) {
    row.Row? ==> Overdraft(capacity) <= row.balance <= capacity
  }

  lemma RefillIsBounded(balance: real, capacity: real, rate: real, elapsed: real)
    requires balance <= capacity && capacity >= 0.0
    ensures balance <= Refilled(balance, capacity, rate, elapsed) <= capacity
    ensures Refilled(balance, capacity, rate, elapsed) <= balance + Hours(rate, elapsed)
    ensures Refilled(balance, capacity, rate, elapsed) == balance <==> balance == capacity || Hours(rate, elapsed) == 0.0
  {
    hide Refilled;
    RefillIsALine(balance, capacity, rate, elapsed);
    if elapsed > 0.0 { HoursGrow(rate, 0.0, elapsed); }
  }

  lemma WithinAfter(row: Row, capacity: real, rate: real, op: Op)
    requires capacity >= 0.0 && Within(row, capacity) && (op.Charge? ==> op.cost >= 0.0)
    ensures Within(After(row, capacity, rate, op), capacity)
  {
    hide Refilled;
    if row.Row? { RefillIsBounded(row.balance, capacity, rate, op.now - row.touched); }
  }

  function RowAfter(row: Row, capacity: real, rate: real, ops: seq<Op>): Row {
    if ops == [] then row
    else After(RowAfter(row, capacity, rate, ops[..|ops| - 1]), capacity, rate, ops[|ops| - 1])
  }

  /** Costs admitted less amounts refunded. */
  function Spent(row: Row, capacity: real, rate: real, ops: seq<Op>): real {
    if ops == [] then 0.0
    else
      var n := |ops| - 1;
      var before, op := RowAfter(row, capacity, rate, ops[..n]), ops[n];
      Spent(row, capacity, rate, ops[..n])
      + (if Admits(before, capacity, rate, op) then op.cost else if GivesBack(before, op) then -op.amount else 0.0)
  }

  /** A clock that does not run backwards, and prices that are not negative. */
  predicate Orderly(start: real, ops: seq<Op>) {
    && (forall i | 0 <= i < |ops| :: start <= ops[i].now && (ops[i].Charge? ==> ops[i].cost >= 0.0))
    && (forall i, j | 0 <= i < j < |ops| :: ops[i].now <= ops[j].now)
  }

  function Opening(row: Row, capacity: real): real {
    if row.NoRow? then capacity else row.balance
  }

  lemma HoursAdd(rate: real, e: real, e': real)
    requires e >= 0.0 && e' >= 0.0
    ensures Hours(rate, e) + Hours(rate, e') == Hours(rate, e + e')
  {
    assert rate * (e + e') == rate * e + rate * e';
  }

  /** The state of an account at time `now`, against what it opened with at `start`. */
  predicate Solvent(opening: real, start: real, row: Row, spent: real, capacity: real, rate: real, now: real) {
    && Within(row, capacity)
    && (row.NoRow? ==> spent == 0.0 && opening == capacity)
    && (row.Row? ==> start <= row.touched <= now && row.balance + spent <= opening + Hours(rate, row.touched - start))
  }

  lemma SolventStep(opening: real, start: real, row: Row, spent: real, capacity: real, rate: real, last: real, op: Op)
    requires capacity >= 0.0 && (op.Charge? ==> op.cost >= 0.0)
    requires Solvent(opening, start, row, spent, capacity, rate, last) && start <= last <= op.now
    ensures Solvent(opening, start, After(row, capacity, rate, op),
                    spent + (if Admits(row, capacity, rate, op) then op.cost else if GivesBack(row, op) then -op.amount else 0.0),
                    capacity, rate, op.now)
  {
    hide Refilled, Hours;
    WithinAfter(row, capacity, rate, op);
    HoursGrow(rate, 0.0, op.now - start);
    if row.Row? {
      RefillIsBounded(row.balance, capacity, rate, op.now - row.touched);
      HoursAdd(rate, row.touched - start, op.now - row.touched);
      HoursGrow(rate, row.touched - start, op.now - start);
    }
  }

  /** Over any run of charges and refunds the balance stays between the overdraft floor and the capacity, and what
      was admitted and kept is at most the opening balance above the floor plus the refill of the elapsed time. */
  lemma {:induction false} SpendingIsBounded(row: Row, start: real, capacity: real, rate: real, ops: seq<Op>)
    requires capacity >= 0.0 && Within(row, capacity) && (row.Row? ==> row.touched == start) && Orderly(start, ops)
    ensures var now := if ops == [] then start else ops[|ops| - 1].now; var end := RowAfter(row, capacity, rate, ops);
      && Solvent(Opening(row, capacity), start, end, Spent(row, capacity, rate, ops), capacity, rate, now)
      && Spent(row, capacity, rate, ops) <= Opening(row, capacity) - Overdraft(capacity) + Hours(rate, now - start)
  {
    hide Refilled, Hours, After, Admits;
    HoursGrow(rate, 0.0, 0.0);
    if ops == [] {
      assert Hours(rate, start - start) == Hours(rate, 0.0);
    } else {
      var n := |ops| - 1;
      SpendingIsBounded(row, start, capacity, rate, ops[..n]);
      var last := if n == 0 then start else ops[n - 1].now;
      SolventStep(Opening(row, capacity), start, RowAfter(row, capacity, rate, ops[..n]), Spent(row, capacity, rate, ops[..n]),
                  capacity, rate, last, ops[n]);
      var end := RowAfter(row, capacity, rate, ops);
      HoursGrow(rate, 0.0, ops[n].now - start);
      if end.Row? { HoursGrow(rate, end.touched - start, ops[n].now - start); }
    }
  }

  /** A refund credits the balance as stored and stamps it now, so the refill accrued since the charge is lost.
      Charge at `t` and refund the same amount at `t'`: the account is where it was at `t`, not where it would be
      at `t'` had nothing been charged; the two agree exactly when nothing accrues in between or it was full. */
  lemma RefundForgetsRefill(row: Row, capacity: real, rate: real, cost: real, t: real, t': real)
    requires capacity >= 0.0 && Within(row, capacity) && (row.Row? ==> row.touched <= t) && t <= t' && cost > 0.0
    requires Admits(row, capacity, rate, Charge(t, cost))
    ensures var end := RowAfter(row, capacity, rate, [Charge(t, cost), Refund(t', cost)]);
      var was, now, kept := BalanceAt(row, capacity, rate, t), BalanceAt(end, capacity, rate, t'), BalanceAt(row, capacity, rate, t');
      now == was <= kept && (now == kept <==> was == capacity || rate <= 0.0 || t' == t)
  {
    hide Refilled;
    var ops := [Charge(t, cost), Refund(t', cost)];
    assert ops[..1] == [ops[0]] && ops[..1][..0] == [];
    assert RowAfter(row, capacity, rate, ops[..1]) == After(row, capacity, rate, ops[0]);
    var before := BalanceAt(row, capacity, rate, t);
    if row.Row? {
      RefillIsBounded(row.balance, capacity, rate, t - row.touched);
      RefillIsAFlow(row.balance, capacity, rate, t - row.touched, t' - t);
    }
    RefillIsBounded(before, capacity, rate, t' - t);
    RefillIsBounded(before, capacity, rate, 0.0);
    if rate > 0.0 && t < t' { MulMono(rate, 0.0, t' - t); }
  }
}
