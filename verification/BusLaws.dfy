/** What every interleaving of the bus protocol keeps. */
module BusLaws {
  import opened Bus

  // ---- The inductive invariant --------------------------------------------------------------------------------

  /** Row i is on its recipient's desk. */
  predicate InHand(s: System, i: RowId)
    requires i < |s.rows|
  {
    var a := s.rows[i].recipient;
    a < |s.desks| && s.desks[a].Holding? && s.desks[a].id == i
  }

  ghost predicate Attended(s: System, i: RowId)
    requires i < |s.rows|
  {
    s.rows[i].state == Delivering ==> At(s, s.rows[i].recipient, Down) || InHand(s, i)
  }

  ghost predicate Grounded(s: System, a: Agent)
    requires a < |s.desks|
  {
    s.desks[a].Holding? ==>
      var d := s.desks[a];
      && d.id < |s.rows|
      && s.rows[d.id].recipient == a == d.msg.recipient
      && s.rows[d.id].kind == d.msg.kind
      && (s.rows[d.id].state == Delivering || s.rows[d.id].state == Erased)
      && s.landings[d.id] == (if d.landed then 1 else 0)
  }

  ghost predicate LandedOnce(s: System, i: RowId) {
    s.landings[i] > 0 ==>
      && s.landings[i] == 1
      && i < |s.rows|
      && (s.rows[i].state.Final() || (InHand(s, i) && s.desks[s.rows[i].recipient].landed))
  }

  ghost predicate Coherent(s: System) {
    && (forall i | 0 <= i < |s.rows| :: Attended(s, i))
    && (forall a | 0 <= a < |s.desks| :: Grounded(s, a))
    && (forall i: RowId :: LandedOnce(s, i))
  }

  lemma ColdIsCoherent(s: System)
    requires Cold(s)
    ensures Coherent(s)
  {
  }

  lemma CoherentNext(s: System, e: Event)
    requires Coherent(s) && Enabled(s, e)
    ensures Coherent(Next(s, e))
  {
    var t := Next(s, e);
    forall i | 0 <= i < |t.rows| ensures Attended(t, i) {
      if i < |s.rows| { assert Attended(s, i); }
    }
    forall a | 0 <= a < |t.desks| ensures Grounded(t, a) {
      GroundedNext(s, e, a);
    }
    forall i: RowId ensures LandedOnce(t, i) {
      LandedOnceNext(s, e, i);
    }
  }

  /** Steps that move a mailman's hand: claims, landings, terminal marks, reverts and starts. */
  predicate MovesHand(e: Event) {
    e.Start? || e.Claim? || e.Requeue? || e.Land? || e.Finish?
  }

  lemma GroundedNext(s: System, e: Event, a: Agent)
    requires Coherent(s) && Enabled(s, e) && a < |s.desks|
    ensures Grounded(Next(s, e), a)
  {
    if MovesHand(e) { GroundedByHand(s, e, a); } else { GroundedElsewhere(s, e, a); }
  }

  lemma GroundedByHand(s: System, e: Event, a: Agent)
    requires Coherent(s) && Enabled(s, e) && a < |s.desks| && MovesHand(e)
    ensures Grounded(Next(s, e), a)
  {
    hide Coherent;
    OnDesk(s, a);
    OnDesk(s, e.actor);
    if e.Claim? { NeverLanded(s, e.id); }
  }

  lemma GroundedElsewhere(s: System, e: Event, a: Agent)
    requires Coherent(s) && Enabled(s, e) && a < |s.desks| && !MovesHand(e)
    ensures Grounded(Next(s, e), a)
  {
    hide Coherent;
    OnDesk(s, a);
  }

  lemma OnDesk(s: System, a: Agent)
    requires Coherent(s) && a < |s.desks|
    ensures Grounded(s, a)
  {
  }

  lemma Tallied(s: System, i: RowId)
    requires Coherent(s)
    ensures LandedOnce(s, i)
  {
  }

  lemma NeverLanded(s: System, i: RowId)
    requires Coherent(s) && i < |s.rows| && s.rows[i].state == Queued
    ensures s.landings[i] == 0
  {
    Tallied(s, i);
    if InHand(s, i) { OnDesk(s, s.rows[i].recipient); }
  }

  lemma LandedOnceNext(s: System, e: Event, i: RowId)
    requires Coherent(s) && Enabled(s, e)
    ensures LandedOnce(Next(s, e), i)
  {
    hide Coherent;
    if MovesHand(e) { LandedOnceByHand(s, e, i); } else { LandedOnceElsewhere(s, e, i); }
  }

  lemma LandedOnceByHand(s: System, e: Event, i: RowId)
    requires Coherent(s) && Enabled(s, e) && MovesHand(e)
    ensures LandedOnce(Next(s, e), i)
  {
    hide Coherent;
    Tallied(s, i);
    OnDesk(s, e.actor);
    if i < |s.rows| && s.rows[i].recipient < |s.desks| { OnDesk(s, s.rows[i].recipient); }
  }

  lemma LandedOnceElsewhere(s: System, e: Event, i: RowId)
    requires Coherent(s) && Enabled(s, e) && !MovesHand(e)
    ensures LandedOnce(Next(s, e), i)
  {
    hide Coherent;
    Tallied(s, i);
    if i < |s.rows| && s.rows[i].recipient < |s.desks| { OnDesk(s, s.rows[i].recipient); }
  }

  lemma CoherentRun(s: System, events: seq<Event>)
    requires Coherent(s) && Admissible(s, events)
    ensures Coherent(Run(s, events)) && |Run(s, events).desks| == |s.desks|
    decreases |events|
  {
    if events != [] {
      CoherentNext(s, events[0]);
      CoherentRun(Next(s, events[0]), events[1..]);
    }
  }

  // ---- Single flight ------------------------------------------------------------------------------------------

  /** At a loop head nothing addressed to this agent is in delivering; in an iteration only the claimed row is. */
  ghost predicate SingleFlight(s: System) {
    forall i | 0 <= i < |s.rows| && s.rows[i].state == Delivering ::
      s.rows[i].recipient < |s.desks| && match s.desks[s.rows[i].recipient]
      case Down => true
      case Idle => false
      case Owing(_, _) => false
      case Holding(id, _, landed) => id == i
  }

  lemma RunsAreSingleFlight(s: System, events: seq<Event>)
    requires Cold(s) && Admissible(s, events)
    ensures SingleFlight(Run(s, events))
  {
    ColdIsCoherent(s);
    CoherentRun(s, events);
    var t := Run(s, events);
    forall i | 0 <= i < |t.rows| && t.rows[i].state == Delivering ensures InHand(t, i) || At(t, t.rows[i].recipient, Down) {
      assert Attended(t, i);
    }
  }

  /** The batch revert of a deferral touches the claimed row and no other, and touches nothing if an operator
      deleted the row meanwhile. */
  lemma RequeueRevertsOneRow(s: System, events: seq<Event>, a: Agent)
    requires Cold(s) && Admissible(s, events)
    requires Enabled(Run(s, events), Requeue(a))
    ensures var t := Run(s, events); var id := t.desks[a].id;
      id < |t.rows| && Next(t, Requeue(a)).rows == MarkIf(t.rows, id, Delivering, Queued)
  {
    ColdIsCoherent(s);
    CoherentRun(s, events);
    var t := Run(s, events);
    assert Grounded(t, a);
    forall i | 0 <= i < |t.rows| ensures t.rows[i].recipient == a && t.rows[i].state == Delivering ==> i == t.desks[a].id {
      assert Attended(t, i);
    }
  }

  // ---- At most one landing ------------------------------------------------------------------------------------

  /** Whatever the restarts, no text lands twice, and a landed row is closed for good once no mailman has it in
      hand. */
  lemma RunsLandAtMostOnce(s: System, events: seq<Event>, id: RowId)
    requires Cold(s) && Admissible(s, events)
    ensures var t := Run(s, events);
      && t.landings[id] <= 1
      && (t.landings[id] == 1 ==> id < |t.rows| && t.rows[id].state != Queued && !t.rows[id].state.Deferred?)
      && (t.landings[id] == 1 && !InHand(t, id) ==> t.rows[id].state.Final())
  {
    ColdIsCoherent(s);
    CoherentRun(s, events);
    var t := Run(s, events);
    assert LandedOnce(t, id);
    if t.landings[id] > 0 && InHand(t, id) { assert Grounded(t, t.rows[id].recipient); }
  }

  // ---- The life of one row ------------------------------------------------------------------------------------

  /** What one event may do to one row: identity and content never change, final states stay final, and only the
      recipient's own mailman moves a row into or out of delivering. */
  ghost predicate LegalMove(r: Row, e: Event, r': Row) {
    && r'.(state := r.state) == r
    && (r'.state != r.state ==>
      match (r.state, r'.state)
      case (_, Erased) => e.Delete?
      case (Queued, Delivering) => e.Claim? && e.actor == r.recipient
      case (Queued, Acknowledged) => e.Acknowledge?
      case (Queued, Failed) => e.Reap?
      case (Deferred(_), Queued) => (e.Promote? && e.agent == r.recipient) || (e.Release? && e.actor == r.recipient)
      case (Delivering, Queued) => (e.Requeue? || e.Start?) && e.actor == r.recipient
      case (Delivering, Delivered(_)) => e.Finish? && e.actor == r.recipient && e.verdict.MarkedDelivered?
      case (Delivering, Failed) => e.Finish? && e.actor == r.recipient && e.verdict.MarkedFailed?
      case (Delivered(false), Delivered(true)) => e.Confirm?
      case _ => false)
  }

  lemma RowMovesLegally(s: System, e: Event, i: RowId)
    requires Coherent(s) && Enabled(s, e) && i < |s.rows|
    ensures |s.rows| <= |Next(s, e).rows|
    ensures LegalMove(s.rows[i], e, Next(s, e).rows[i])
  {
    if e.Finish? { assert Grounded(s, e.actor); }
  }

  lemma {:induction false} FinalForever(s: System, events: seq<Event>, i: RowId)
    requires Coherent(s) && Admissible(s, events) && i < |s.rows| && s.rows[i].state.Final()
    ensures i < |Run(s, events).rows| && Run(s, events).rows[i].state.Final()
    ensures Run(s, events).rows[i].(state := s.rows[i].state) == s.rows[i]
    decreases |events|
  {
    if events != [] {
      RowMovesLegally(s, events[0], i);
      CoherentNext(s, events[0]);
      FinalForever(Next(s, events[0]), events[1..], i);
    }
  }

  // ---- Parking ------------------------------------------------------------------------------------------------

  lemma {:induction false} ParkedMailmanClaimsNothing(s: System, events: seq<Event>, a: Agent, k: nat)
    requires Admissible(s, events) && a in s.parked && Unpark(a) !in events && k < |events|
    ensures !(events[k].Claim? && events[k].actor == a)
    decreases |events|
  {
    if k > 0 { ParkedMailmanClaimsNothing(Next(s, events[0]), events[1..], a, k - 1); }
  }

  /** Somebody registers the agent by force at or after event `k`. */
  predicate UnparkedFrom(events: seq<Event>, k: nat, a: Agent)
    requires k <= |events|
  {
    Unpark(a) in events[k..]
  }

  /** At the end of any run an agent is parked exactly when its mailman parked it, or it was parked to begin with, and
      nobody has registered it by force since. */
  lemma {:induction false} ParkedExactly(s: System, events: seq<Event>, a: Agent)
    requires Admissible(s, events)
    ensures a in Run(s, events).parked <==>
      || (a in s.parked && !UnparkedFrom(events, 0, a))
      || (exists k :: 0 <= k < |events| && events[k] == Park(a) && !UnparkedFrom(events, k + 1, a))
    decreases |events|
  {
    hide Next, Enabled;
    if events != [] {
      var rest := events[1..];
      ParkedNext(s, events[0], a);
      ParkedExactly(Next(s, events[0]), rest, a);
      forall k | 0 <= k <= |rest| ensures UnparkedFrom(rest, k, a) <==> UnparkedFrom(events, k + 1, a) {
        assert rest[k..] == events[k + 1..];
      }
      assert UnparkedFrom(events, 0, a) <==> events[0] == Unpark(a) || UnparkedFrom(rest, 0, a) by {
        assert events == [events[0]] + rest;
      }
      if k :| 0 <= k < |rest| && rest[k] == Park(a) && !UnparkedFrom(rest, k + 1, a) {
        assert events[k + 1] == Park(a) && !UnparkedFrom(events, k + 1 + 1, a);
      }
      if k :| 0 <= k < |events| && events[k] == Park(a) && !UnparkedFrom(events, k + 1, a) {
        if k > 0 { assert rest[k - 1] == Park(a) && !UnparkedFrom(rest, k - 1 + 1, a); }
      }
    }
  }

  lemma ParkedNext(s: System, e: Event, a: Agent)
    requires Enabled(s, e)
    ensures a in Next(s, e).parked <==> e == Park(a) || (a in s.parked && e != Unpark(a))
  {
  }

  lemma {:induction false} Cut(s: System, before: seq<Event>, after: seq<Event>)
    requires Admissible(s, before + after)
    ensures Admissible(s, before) && Admissible(Run(s, before), after)
    ensures Run(s, before + after) == Run(Run(s, before), after)
    decreases |before|
  {
    hide Next, Enabled;
    if before == [] {
      assert before + after == after;
    } else {
      assert (before + after)[1..] == before[1..] + after;
      Cut(Next(s, before[0]), before[1..], after);
    }
  }

  /** A park takes hold: until somebody registers the agent by force it stays parked, and its mailman claims nothing. */
  lemma ParkStopsClaims(s: System, events: seq<Event>, a: Agent, k: nat)
    requires Admissible(s, events) && k < |events| && events[k] == Park(a) && !UnparkedFrom(events, k + 1, a)
    ensures a in Run(s, events).parked
    ensures forall n | k < n < |events| :: !(events[n].Claim? && events[n].actor == a)
  {
    hide Next, Enabled, Run;
    ParkedExactly(s, events, a);
    var before, after := events[..k + 1], events[k + 1..];
    assert before + after == events;
    Cut(s, before, after);
    ParkedExactly(s, before, a);
    assert before[k] == Park(a) && before[k + 1..] == [] && !UnparkedFrom(before, k + 1, a);
    forall n | k < n < |events| ensures !(events[n].Claim? && events[n].actor == a) {
      assert events[n] == after[n - k - 1];
      ParkedMailmanClaimsNothing(Run(s, before), after, a, n - k - 1);
    }
  }

  // ---- What each event is for -------------------------------------------------------------------------------------

  /** The state that event `e` leaves row `i` in. */
  function StateAfter(s: System, e: Event, i: RowId): State
    requires Enabled(s, e) && i < |s.rows|
  {
    var r := s.rows[i];
    match e
    case Claim(_, id) => if i == id then Delivering else r.state
    case Start(a) => if r.recipient == a && r.state == Delivering then Queued else r.state
    case Requeue(a) => if r.recipient == a && r.state == Delivering then Queued else r.state
    case Finish(a, v) =>
      if i != s.desks[a].id || r.state != Delivering then r.state
      else if v.MarkedFailed? then Failed else Delivered(v.verified)
    case Confirm(_, id) => if i == id && r.state == Delivered(false) then Delivered(true) else r.state
    case Release(a) => if r.recipient == a && r.state == Deferred("resume") then Queued else r.state
    case Promote(a, trigger) => if r.recipient == a && r.state == Deferred(trigger) then Queued else r.state
    case Acknowledge(id) => if i == id && r.state == Queued then Acknowledged else r.state
    case Reap(id) => if i == id && r.state == Queued then Failed else r.state
    case Delete(doomed) => if i in doomed then Erased else r.state
    case _ => r.state
  }

  /** Row by row, each event does its work and no more. */
  lemma RowMovesExactly(s: System, e: Event, i: RowId)
    requires Enabled(s, e) && i < |s.rows|
    ensures i < |Next(s, e).rows| && Next(s, e).rows[i] == s.rows[i].(state := StateAfter(s, e, i))
  {
  }

  /** A row is added by a send as it is; by a failure or dedupe notice, back to the sender with the text it is about;
      by an archived draft, to oneself with the text found; by a freshness alert, to the conductor; and by nothing
      else. */
  lemma RowsAdded(s: System, e: Event)
    requires Enabled(s, e)
    ensures Next(s, e).rows[..|s.rows|] == seq(|s.rows|, i requires 0 <= i < |s.rows| => s.rows[i].(state := StateAfter(s, e, i)))
    ensures Next(s, e).rows[|s.rows|..] == (
      match e
      case Send(row) => [row]
      case Notify(a, kind) => [Row(a, s.desks[a].original.sender, kind, s.desks[a].original.body, false, Queued)]
      case Archive(a, draft) => [Row(a, a, StrandedDraft, draft, false, Queued)]
      case Alert(a, conductor) => [Row(a, conductor, StuckChamberNotice, "", false, Queued)]
      case _ => [])
  {
    forall i | 0 <= i < |s.rows| ensures Next(s, e).rows[i] == s.rows[i].(state := StateAfter(s, e, i)) {
      RowMovesExactly(s, e, i);
    }
  }
}
