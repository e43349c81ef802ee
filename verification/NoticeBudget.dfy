/** Notices about deliveries are themselves deliveries. This module accounts for every terminal outcome on the
    whole bus, whichever mailman reaches it and however the mailmen interleave. */
module NoticeBudget {
  import opened Bus
  import opened BusLaws

  function Sum(s: seq<nat>): nat {
    if s == [] then 0 else Sum(s[..|s| - 1]) + s[|s| - 1]
  }

  lemma {:induction false} SumUpdate(s: seq<nat>, k: nat, v: nat)
    requires k < |s|
    ensures Sum(s[k := v]) + s[k] == Sum(s) + v
  {
    var n := |s| - 1;
    if k < n {
      SumUpdate(s[..n], k, v);
      assert s[k := v][..n] == s[..n][k := v];
    } else {
      assert s[k := v][..n] == s[..n];
    }
  }

  lemma {:induction false} SumMonotone(s: seq<nat>, t: seq<nat>)
    requires |s| == |t| && forall i | 0 <= i < |s| :: s[i] <= t[i]
    ensures Sum(s) <= Sum(t)
  {
    if s != [] { SumMonotone(s[..|s| - 1], t[..|t| - 1]); }
  }

  lemma SumAppend(s: seq<nat>, v: nat)
    ensures Sum(s + [v]) == Sum(s) + v
  {
    assert (s + [v])[..|s|] == s;
  }

  // ---- The measure --------------------------------------------------------------------------------------------

  /** A message can cause a dedupe notice (2), anything but a failure notice or a ping can cause a failure
      notice (1), and each terminal outcome uses up one unit itself. */
  function Weight(k: Kind): nat {
    match k
    case Message => 3
    case FailureNotice => 1
    case Ping => 1
    case _ => 2
  }

  function RowCharge(s: System, i: RowId): nat
    requires i < |s.rows|
  {
    match s.rows[i].state
    case Queued => Weight(s.rows[i].kind)
    case Deferred(_) => Weight(s.rows[i].kind)
    case Delivering => if InHand(s, i) then 0 else Weight(s.rows[i].kind)
    case _ => 0
  }

  function DeskCharge(d: Desk): nat {
    match d
    case Holding(_, msg, _) => Weight(msg.kind)
    case Owing(original, _) => Weight(original.kind) - 1
    case _ => 0
  }

  function RowCharges(s: System): seq<nat> {
    seq(|s.rows|, i requires 0 <= i < |s.rows| => RowCharge(s, i))
  }

  function DeskCharges(s: System): seq<nat> {
    seq(|s.desks|, a requires 0 <= a < |s.desks| => DeskCharge(s.desks[a]))
  }

  /** Deliveries the bus can still be made to attempt to completion by what it already holds. */
  function Outstanding(s: System): nat {
    Sum(RowCharges(s)) + Sum(DeskCharges(s))
  }

  /** Work put on the bus from outside the delivery outcomes: sends, operator drafts, freshness alerts. */
  function Injected(e: Event): nat {
    match e
    case Send(row) => if row.state == Refused then 0 else Weight(row.kind)
    case Archive(_, _) => Weight(StrandedDraft)
    case Alert(_, _) => Weight(StuckChamberNotice)
    case _ => 0
  }

  function Terminal(e: Event): nat {
    if e.Finish? then 1 else 0
  }

  function TotalInjected(events: seq<Event>): nat {
    if events == [] then 0 else Injected(events[0]) + TotalInjected(events[1..])
  }

  function Terminals(events: seq<Event>): nat {
    if events == [] then 0 else Terminal(events[0]) + Terminals(events[1..])
  }

  // ---- One event ----------------------------------------------------------------------------------------------

  lemma DeskStep(s: System, t: System, a: Agent)
    requires a < |s.desks| == |t.desks| && t.desks == s.desks[a := t.desks[a]]
    ensures Sum(DeskCharges(t)) + DeskCharge(s.desks[a]) == Sum(DeskCharges(s)) + DeskCharge(t.desks[a])
  {
    assert DeskCharges(t) == DeskCharges(s)[a := DeskCharge(t.desks[a])];
    SumUpdate(DeskCharges(s), a, DeskCharge(t.desks[a]));
  }

  lemma RowStep(s: System, t: System, id: RowId)
    requires id < |s.rows| == |t.rows|
    requires forall i | 0 <= i < |s.rows| && i != id :: RowCharge(t, i) == RowCharge(s, i)
    ensures Sum(RowCharges(t)) + RowCharge(s, id) == Sum(RowCharges(s)) + RowCharge(t, id)
  {
    assert RowCharges(t) == RowCharges(s)[id := RowCharge(t, id)];
    SumUpdate(RowCharges(s), id, RowCharge(t, id));
  }

  lemma RowAdded(s: System, t: System)
    requires |t.rows| == |s.rows| + 1
    requires forall i | 0 <= i < |s.rows| :: RowCharge(t, i) == RowCharge(s, i)
    ensures Sum(RowCharges(t)) == Sum(RowCharges(s)) + RowCharge(t, |s.rows|)
  {
    assert RowCharges(t) == RowCharges(s) + [RowCharge(t, |s.rows|)];
    SumAppend(RowCharges(s), RowCharge(t, |s.rows|));
  }

  lemma RowsNoHeavier(s: System, t: System)
    requires |s.rows| == |t.rows| && forall i | 0 <= i < |s.rows| :: RowCharge(t, i) <= RowCharge(s, i)
    ensures Sum(RowCharges(t)) <= Sum(RowCharges(s))
  {
    SumMonotone(RowCharges(t), RowCharges(s));
  }

  /** Only the row on the actor's desk changes its charge when a mailman takes or leaves a row. */
  lemma OthersKeepTheirCharge(s: System, e: Event, i: RowId)
    requires Coherent(s) && Enabled(s, e) && (e.Claim? || e.Requeue? || e.Stop? || e.Finish?) && i < |s.rows|
    requires e.Claim? ==> i != e.id
    requires !e.Claim? && s.desks[e.actor].Holding? ==> i != s.desks[e.actor].id
    ensures RowCharge(Next(s, e), i) == RowCharge(s, i)
  {
    assert Attended(s, i);
    assert Grounded(s, e.actor);
  }

  lemma MailmanStepPaysItsWay(s: System, e: Event)
    requires Coherent(s) && Enabled(s, e) && (e.Claim? || e.Requeue? || e.Stop? || e.Finish?)
    ensures Terminal(e) + Outstanding(Next(s, e)) <= Outstanding(s)
  {
    var t := Next(s, e);
    var a := e.actor;
    assert Grounded(s, a);
    DeskStep(s, t, a);
    forall i | 0 <= i < |s.rows| && (if e.Claim? then i != e.id else s.desks[a].Holding? ==> i != s.desks[a].id)
      ensures RowCharge(t, i) == RowCharge(s, i)
    {
      OthersKeepTheirCharge(s, e, i);
    }
    if e.Claim? {
      RowStep(s, t, e.id);
    } else if s.desks[a].Holding? {
      RowStep(s, t, s.desks[a].id);
    } else {
      RowsNoHeavier(s, t);
    }
  }

  lemma InsertPaysItsWay(s: System, e: Event)
    requires Coherent(s) && Enabled(s, e) && (e.Notify? || e.Archive? || e.Alert? || e.Send?)
    ensures Outstanding(Next(s, e)) <= Outstanding(s) + Injected(e)
  {
    var t := Next(s, e);
    RowAdded(s, t);
    if e.Notify? {
      DeskStep(s, t, e.actor);
    } else {
      assert DeskCharges(t) == DeskCharges(s);
    }
  }

  lemma OtherStepPaysItsWay(s: System, e: Event)
    requires Coherent(s) && Enabled(s, e)
    requires !(e.Claim? || e.Requeue? || e.Stop? || e.Finish? || e.Notify? || e.Archive? || e.Alert? || e.Send?)
    ensures Outstanding(Next(s, e)) <= Outstanding(s)
  {
    var t := Next(s, e);
    forall i | 0 <= i < |s.rows| ensures RowCharge(t, i) <= RowCharge(s, i) {
      assert Attended(s, i);
    }
    RowsNoHeavier(s, t);
    if e.Start? || e.Land? || e.Rest? {
      DeskStep(s, t, e.actor);
    } else {
      assert DeskCharges(t) == DeskCharges(s);
    }
  }

  // ---- Every run ----------------------------------------------------------------------------------------------

  /** Terminal outcomes are paid for by what the bus held and by what was put on it from outside. */
  lemma {:induction false} TerminalOutcomesAreBounded(s: System, events: seq<Event>)
    requires Coherent(s) && Admissible(s, events)
    ensures Terminals(events) + Outstanding(Run(s, events)) <= Outstanding(s) + TotalInjected(events)
    decreases |events|
  {
    if events != [] {
      var e := events[0];
      if e.Claim? || e.Requeue? || e.Stop? || e.Finish? {
        MailmanStepPaysItsWay(s, e);
      } else if e.Notify? || e.Archive? || e.Alert? || e.Send? {
        InsertPaysItsWay(s, e);
      } else {
        OtherStepPaysItsWay(s, e);
      }
      CoherentNext(s, e);
      TerminalOutcomesAreBounded(Next(s, e), events[1..]);
    }
  }

  // ---- The cycle the kind guards leave open -------------------------------------------------------------------

  lemma {:induction false} Compose(s: System, first: seq<Event>, second: seq<Event>)
    requires Admissible(s, first) && Admissible(Run(s, first), second)
    ensures Admissible(s, first + second)
    ensures Run(s, first + second) == Run(Run(s, first), second)
    ensures Terminals(first + second) == Terminals(first) + Terminals(second)
    decreases |first|
  {
    hide Next, Enabled;
    if first == [] {
      assert first + second == second;
    } else {
      var e, u, all := first[0], Next(s, first[0]), first + second;
      assert Admissible(u, first[1..]) && Run(s, first) == Run(u, first[1..]);
      Compose(u, first[1..], second);
      assert all[0] == e && all[1..] == first[1..] + second;
    }
  }

  lemma One(s: System, e: Event)
    requires Enabled(s, e)
    ensures Admissible(s, [e]) && Run(s, [e]) == Next(s, e) && Terminals([e]) == Terminal(e)
  {
    assert [e][1..] == [];
  }

  lemma Append(s: System, events: seq<Event>, e: Event)
    requires Admissible(s, events) && Enabled(Run(s, events), e)
    ensures Admissible(s, events + [e]) && Run(s, events + [e]) == Next(Run(s, events), e)
    ensures Terminals(events + [e]) == Terminals(events) + Terminal(e)
  {
    One(Run(s, events), e);
    Compose(s, events, [e]);
  }

  /** A queued row from agent a to itself, with its mailman free to take it. */
  ghost predicate SelfAddressed(s: System, a: Agent, id: RowId, kind: Kind) {
    && At(s, a, Idle) && a !in s.parked
    && id < |s.rows| && s.rows[id].sender == s.rows[id].recipient == a
    && s.rows[id].kind == kind && s.rows[id].state == Queued
  }

  lemma DraftBecomesNotice(s: System, a: Agent, id: RowId) returns (events: seq<Event>)
    requires SelfAddressed(s, a, id, StrandedDraft)
    ensures Admissible(s, events) && Terminals(events) == 1
    ensures SelfAddressed(Run(s, events), a, |s.rows|, FailureNotice)
    ensures events == [Claim(a, id), Finish(a, MarkedFailed(false)), Notify(a, FailureNotice)]
  {
    events := [Claim(a, id)];
    One(s, events[0]);
    Append(s, events, Finish(a, MarkedFailed(false)));
    events := events + [Finish(a, MarkedFailed(false))];
    Append(s, events, Notify(a, FailureNotice));
    events := events + [Notify(a, FailureNotice)];
  }

  lemma NoticeBecomesDraft(s: System, a: Agent, id: RowId, draft: string) returns (events: seq<Event>)
    requires SelfAddressed(s, a, id, FailureNotice)
    ensures Admissible(s, events) && Terminals(events) == 1
    ensures SelfAddressed(Run(s, events), a, |s.rows|, StrandedDraft)
    ensures events == [Claim(a, id), Archive(a, draft), Land(a), Finish(a, MarkedDelivered(true)), Rest(a)]
  {
    events := [Claim(a, id)];
    One(s, events[0]);
    Append(s, events, Archive(a, draft));
    events := events + [Archive(a, draft)];
    Append(s, events, Land(a));
    events := events + [Land(a)];
    Append(s, events, Finish(a, MarkedDelivered(true)));
    events := events + [Finish(a, MarkedDelivered(true))];
    Append(s, events, Rest(a));
    events := events + [Rest(a)];
  }

  /** One stranded draft and an operator who keeps typing: the draft fails, its failure notice comes back to the
      same agent, and delivering that notice strands the next draft. Nobody sends anything, yet any number of
      terminal outcomes follow; only the archived drafts pay for them. */
  lemma {:induction false} DraftsAndNoticesCycle(s: System, a: Agent, id: RowId, draft: string, n: nat)
    returns (events: seq<Event>)
    requires SelfAddressed(s, a, id, StrandedDraft)
    ensures Admissible(s, events) && Terminals(events) == 2 * n
    ensures forall e | e in events :: !e.Send? && !e.Alert?
    decreases n
  {
    if n == 0 { return []; }
    var fail := DraftBecomesNotice(s, a, id);
    var s1 := Run(s, fail);
    var strand := NoticeBecomesDraft(s1, a, |s.rows|, draft);
    var s2 := Run(s1, strand);
    var rest := DraftsAndNoticesCycle(s2, a, |s1.rows|, draft, n - 1);
    Compose(s1, strand, rest);
    Compose(s, fail, strand + rest);
    events := fail + (strand + rest);
  }
}
